/**
 The replay coordinator: the session snapshot and the operations that change it together with the reservoir. Every
 call, whether it completes or is cut short by a storage fault, is a run of the protocol machine, so whatever holds of
 all runs holds of every use of this class; a call that completes does exactly what `Operations` says.
 */
module Coordinator {
  import opened Options
  import opened Rows
  import opened Ordering
  import opened Database
  import opened Store
  import opened Session
  import S = Session
  import opened Protocol
  import opened Operations
  import O = Operations
  import opened Reservoir

  datatype ReplayError =
    | StorageError(failure: Failure)
    | CannotStart(from: SessionState)
    | CannotClaim(from: SessionState)

  datatype Batch = Batch(session: Session, entries: seq<Entry>, isDrainComplete: bool)

  class ReplayCoordinator {
    const policy: Policy
    const reservoir: SQLiteReservoir
    var session: Session
    /** The latest clock reading any operation has used. */
    ghost var clock: int

    ghost predicate Valid()
      reads this, reservoir
    {
      reservoir.Valid() && reservoir.config == policy.store && session.required == policy.required
    }

    ghost function View(): Core
      reads this, reservoir
    {
      Core(reservoir.db.rows, reservoir.db.nextId, session, clock, reservoir.Drift())
    }

    constructor (policy: Policy, reservoir: SQLiteReservoir, session: Session, ghost now: int)
      ensures this.policy == policy && this.reservoir == reservoir && this.session == session && clock == now
    {
      this.policy := policy;
      this.reservoir := reservoir;
      this.session := session;
      clock := now;
    }

    /** Stores the snapshot first and takes it over after; an unchanged snapshot is not stored again. */
    method Commit(next: Session) returns (r: Result<(), Failure>)
      modifies this`session, reservoir`issued, reservoir`raised
      ensures reservoir.raised >= old(reservoir.raised)
      ensures session == if r.Ok? then next else old(session)
      ensures r.Ok? ==> reservoir.raised == old(reservoir.raised)
      ensures r.Err? ==> reservoir.closed || reservoir.raised > old(reservoir.raised)
    {
      if session == next { return Ok(()); }
      r := reservoir.RecordLogEntry();
      if r.Ok? { session := next; }
    }

    method IsGateClosed(now: int) returns (r: Result<bool, Failure>)
      requires Valid()
      modifies reservoir`issued, reservoir`raised
      ensures reservoir.raised >= old(reservoir.raised)
      ensures r.Ok? ==> r.value == GateClosed(session, Counter(View()))
      ensures r.Err? ==> reservoir.closed || reservoir.raised > old(reservoir.raised)
    {
      if session.state.Queued? || session.state.Running? || session.state.Failed? { return Ok(true); }
      if !session.state.Completed? { return Ok(false); }
      if session.heartbeats < session.required { return Ok(true); }
      var stats := reservoir.GetStats(now, now);
      if stats.Err? { return Err(stats.error); }
      r := Ok(stats.value.totalPending > 0);
    }

    method QueueIfNeeded(now: int) returns (r: Result<Session, ReplayError>, ghost steps: seq<Step>)
      requires Valid() && clock <= now
      modifies this`session, this`clock, reservoir`issued, reservoir`raised
      ensures Valid() && IsRun(policy, old(View()), steps, View()) && reservoir.raised >= old(reservoir.raised)
      ensures steps == if r.Ok? then [QueueSession(now)] else []
      ensures r.Ok? ==> View() == Next(policy, old(View()), QueueSession(now)) && r.value == session
      ensures r.Err? ==> View() == old(View())
      ensures r.Err? ==> r.error.StorageError? && (reservoir.closed || reservoir.raised > old(reservoir.raised))
    {
      steps := [];
      var stats := reservoir.GetStats(now, now);
      if stats.Err? { return Err(StorageError(stats.error)), steps; }
      var committed := Commit(S.QueueIfNeeded(session, stats.value.totalPending, now, policy.required));
      if committed.Err? { return Err(StorageError(committed.error)), steps; }
      clock := now;
      RunsOnce(policy, old(View()), QueueSession(now));
      r, steps := Ok(session), [QueueSession(now)];
    }

    /** `start`: a manual one is allowed from `queued` and `failed`, the claim's own only from `queued`. */
    method Start(now: int, manual: bool) returns (r: Result<Session, ReplayError>, ghost steps: seq<Step>)
      requires Valid() && clock <= now && (manual || session.state.Queued?)
      modifies this`session, this`clock, reservoir`issued, reservoir`raised
      ensures Valid() && IsRun(policy, old(View()), steps, View()) && reservoir.raised >= old(reservoir.raised)
      ensures steps == if r.Ok? then [StartSession(now, manual)] else []
      ensures r.Ok? ==> CanStart(old(session), Counter(View()))
      ensures r.Ok? ==> View() == Next(policy, old(View()), StartSession(now, manual)) && r.value == session
      ensures r.Err? ==> View() == old(View())
      ensures r.Err? ==> if r.error.StorageError? then reservoir.closed || reservoir.raised > old(reservoir.raised)
                         else r.error == CannotStart(session.state) && !CanStart(session, Counter(View()))
    {
      steps := [];
      var stats := reservoir.GetStats(now, now);
      if stats.Err? { return Err(StorageError(stats.error)), steps; }
      var backlog := stats.value.totalPending;
      if !CanStart(session, backlog) { return Err(CannotStart(session.state)), steps; }
      var committed := Commit(S.Start(session, backlog, now, policy.required));
      if committed.Err? { return Err(StorageError(committed.error)), steps; }
      clock := now;
      RunsOnce(policy, old(View()), StartSession(now, manual));
      r, steps := Ok(session), [StartSession(now, manual)];
    }

    method ClaimBatch(limit: int, now: int, stamp: int)
      returns (r: Result<seq<Entry>, ReplayError>, ghost steps: seq<Step>)
      requires Valid() && clock <= now <= stamp && session.state.Running?
      modifies this`clock, reservoir`db, reservoir`pendingRowCount, reservoir`issued, reservoir`raised
      ensures Valid() && IsRun(policy, old(View()), steps, View()) && reservoir.raised >= old(reservoir.raised)
      ensures forall s | s in steps :: Claiming(s)
      ensures r.Ok? ==> View() == Next(policy, old(View()), Claim(limit, now, stamp))
      ensures r.Ok? ==> r.value == Entries(old(View()).rows, limit, now, ReplayThroughDedupe)
      ensures r.Ok? ==> steps == [Claim(limit, now, stamp)]
      ensures r.Err? ==> View() == Next(policy, old(View()), Fault(View().drift))
      ensures r.Err? ==> r.error.StorageError? && (reservoir.closed || reservoir.raised > old(reservoir.raised))
    {
      var entries := reservoir.ClaimReplayBatch(limit, now, stamp, ReplayThroughDedupe);
      if entries.Err? {
        RunsOnce(policy, old(View()), Fault(reservoir.Drift()));
        return Err(StorageError(entries.error)), [Fault(reservoir.Drift())];
      }
      clock := stamp;
      RunsOnce(policy, old(View()), Claim(limit, now, stamp));
      r, steps := Ok(entries.value), [Claim(limit, now, stamp)];
    }

    method Finish(now: int) returns (r: Result<(), ReplayError>, ghost steps: seq<Step>)
      requires Valid() && clock <= now && session.state.Running? && Counter(View()) == 0
      modifies this`session, this`clock, reservoir`issued, reservoir`raised
      ensures Valid() && IsRun(policy, old(View()), steps, View()) && reservoir.raised >= old(reservoir.raised)
      ensures clock <= now
      ensures steps == if r.Ok? then [FinishSession(now)] else []
      ensures r.Ok? ==> View() == Next(policy, old(View()), FinishSession(now))
      ensures r.Err? ==> View() == old(View())
      ensures r.Err? ==> r.error.StorageError? && (reservoir.closed || reservoir.raised > old(reservoir.raised))
    {
      steps := [];
      var committed := Commit(Complete(session, now));
      if committed.Err? { return Err(StorageError(committed.error)), steps; }
      clock := now;
      RunsOnce(policy, old(View()), FinishSession(now));
      r, steps := Ok(()), [FinishSession(now)];
    }

    /** Completes the session if it is drained. */
    method FinishIf(drained: bool, now: int) returns (r: Result<(), ReplayError>, ghost steps: seq<Step>)
      requires Valid() && clock <= now && (drained ==> session.state.Running? && Counter(View()) == 0)
      modifies this`session, this`clock, reservoir`issued, reservoir`raised
      ensures Valid() && IsRun(policy, old(View()), steps, View()) && reservoir.raised >= old(reservoir.raised)
      ensures clock <= now
      ensures steps == if drained && r.Ok? then [FinishSession(now)] else []
      ensures View() == if drained && r.Ok? then Next(policy, old(View()), FinishSession(now)) else old(View())
      ensures r.Err? ==> r.error.StorageError? && (reservoir.closed || reservoir.raised > old(reservoir.raised))
    {
      r, steps := Ok(()), [];
      if drained {
        r, steps := Finish(now);
      }
    }

    /** The reclaim in front of a claim: all stale claims, or on a fault some of them. */
    method Sweep(now: int) returns (r: Result<(), ReplayError>, ghost steps: seq<Step>, ghost moved: set<nat>)
      requires Valid() && clock <= now
      modifies this`clock, reservoir`db, reservoir`pendingRowCount, reservoir`issued, reservoir`raised
      ensures Valid() && IsRun(policy, old(View()), steps, View()) && reservoir.raised >= old(reservoir.raised)
      ensures forall s | s in steps :: Claiming(s)
      ensures r.Ok? ==> steps == [Reclaim(moved, now)] && View() == Next(policy, old(View()), Reclaim(moved, now))
      ensures r.Ok? ==> moved == StaleIds(policy.store, old(View()).rows, policy.backoff, now)
      ensures r.Err? ==> r.error.StorageError? && (reservoir.closed || reservoir.raised > old(reservoir.raised))
    {
      var reclaimed;
      reclaimed, moved := reservoir.ReclaimStaleReplayRows(policy.backoff, now);
      clock := now;
      steps := [Reclaim(moved, now)];
      RunsOnce(policy, old(View()), Reclaim(moved, now));
      if reclaimed.Err? {
        ghost var swept := Next(policy, old(View()), Reclaim(moved, now));
        RunsOnce(policy, swept, Fault(reservoir.Drift()));
        RunsThen(policy, old(View()), steps, swept, [Fault(reservoir.Drift())], View());
        return Err(StorageError(reclaimed.error)), steps + [Fault(reservoir.Drift())], moved;
      }
      r := Ok(());
    }

    /** The reclaim and the claim of a running session. */
    method SweepAndClaim(limit: int, t: Times) returns (r: Result<seq<Entry>, ReplayError>, ghost steps: seq<Step>)
      requires Valid() && InOrder(t) && clock <= t.reclaim && session.state.Running?
      modifies this`clock, reservoir`db, reservoir`pendingRowCount, reservoir`issued, reservoir`raised
      ensures Valid() && IsRun(policy, old(View()), steps, View()) && reservoir.raised >= old(reservoir.raised)
      ensures forall s | s in steps :: Claiming(s)
      ensures r.Ok? ==>
                var ids := StaleIds(policy.store, old(View()).rows, policy.backoff, t.reclaim);
                var swept := Next(policy, old(View()), Step.Reclaim(ids, t.reclaim));
                && View() == Next(policy, swept, Claim(limit, t.select, t.stamp))
                && r.value == Entries(swept.rows, limit, t.select, ReplayThroughDedupe)
                && steps == [Step.Reclaim(ids, t.reclaim)] + [Claim(limit, t.select, t.stamp)]
      ensures r.Err? ==> r.error.StorageError? && (reservoir.closed || reservoir.raised > old(reservoir.raised))
    {
      var swept; ghost var more, moved;
      swept, steps, moved := Sweep(t.reclaim);
      if swept.Err? { return Err(swept.error), steps; }
      ghost var mid := View();
      r, more := ClaimBatch(limit, t.select, t.stamp);
      RunsThen(policy, old(View()), steps, mid, more, View());
      steps := steps + more;
    }

    /** The start, if the session is queued, and the demand that it is then running. */
    method EnsureRunning(now: int) returns (r: Result<(), ReplayError>, ghost steps: seq<Step>)
      requires Valid() && clock <= now
      modifies this`session, this`clock, reservoir`issued, reservoir`raised
      ensures Valid() && IsRun(policy, old(View()), steps, View()) && reservoir.raised >= old(reservoir.raised)
      ensures forall s | s in steps :: Claiming(s)
      ensures clock <= now
      ensures r.Err? && r.error.StorageError? ==> reservoir.closed || reservoir.raised > old(reservoir.raised)
      ensures r.Ok? || !r.error.StorageError? ==>
                View() == if old(session).state.Queued? then Next(policy, old(View()), StartSession(now, false))
                          else old(View())
      ensures r.Ok? ==> session.state.Running?
      ensures r.Ok? ==> steps == if old(session).state.Queued? then [StartSession(now, false)] else []
      ensures r.Err? && !r.error.StorageError? ==> r.error == CannotClaim(session.state) && !session.state.Running?
    {
      steps := [];
      if session.state.Queued? {
        var started;
        started, steps := Start(now, false);
        if started.Err? { return Err(started.error), steps; }
      }
      r := if session.state.Running? then Ok(()) else Err(CannotClaim(session.state));
    }

    /** The end of a claim: with nothing claimed and nothing pending the session completes. */
    method CompleteIfDrained(claimed: seq<Entry>, t: Times)
      returns (r: Result<Batch, ReplayError>, ghost steps: seq<Step>)
      requires Valid() && InOrder(t) && clock <= t.stamp && session.state.Running?
      modifies this`session, this`clock, reservoir`issued, reservoir`raised
      ensures Valid() && IsRun(policy, old(View()), steps, View()) && reservoir.raised >= old(reservoir.raised)
      ensures forall s | s in steps :: Claiming(s)
      ensures r.Ok? ==>
                var drained := |claimed| == 0 && Counter(old(View())) == 0;
                && View() == (if drained then Next(policy, old(View()), FinishSession(t.finish)) else old(View()))
                && r.value == Batch(session, claimed, drained)
                && steps == if drained then [FinishSession(t.finish)] else []
      ensures r.Err? ==> r.error.StorageError? && (reservoir.closed || reservoir.raised > old(reservoir.raised))
    {
      steps := [];
      if |claimed| > 0 { return Ok(Batch(session, claimed, false)), steps; }
      var stats := reservoir.GetStats(t.stamp, t.stamp);
      if stats.Err? { return Err(StorageError(stats.error)), steps; }
      var finished;
      finished, steps := FinishIf(stats.value.totalPending == 0, t.finish);
      r := if finished.Err? then Err(finished.error) else Ok(Batch(session, claimed, stats.value.totalPending == 0));
    }

    /** The claim of a running session. */
    method ClaimRunning(limit: int, t: Times) returns (r: Result<Batch, ReplayError>, ghost steps: seq<Step>)
      requires Valid() && InOrder(t) && clock <= t.start && session.state.Running?
      modifies this`session, this`clock, reservoir`db, reservoir`pendingRowCount, reservoir`issued, reservoir`raised
      ensures Valid() && IsRun(policy, old(View()), steps, View()) && reservoir.raised >= old(reservoir.raised)
      ensures forall s | s in steps :: Claiming(s)
      ensures r.Ok? ==>
                var result := O.ClaimNextBatch(policy, old(View()), limit, t);
                View() == result.core && !result.thrown && r.value == Batch(session, result.entries, result.drained)
      ensures r.Ok? ==> steps == ClaimSteps(policy, old(View()), limit, t)
      ensures r.Err? ==> r.error.StorageError? && (reservoir.closed || reservoir.raised > old(reservoir.raised))
    {
      var claimed; ghost var more;
      claimed, steps := SweepAndClaim(limit, t);
      if claimed.Err? { return Err(claimed.error), steps; }
      ghost var mid := View();
      r, more := CompleteIfDrained(claimed.value, t);
      RunsThen(policy, old(View()), steps, mid, more, View());
      steps := steps + more;
      RunningClaim(policy, old(View()), limit, t);
    }

    method ClaimNextBatch(limit: int, t: Times) returns (r: Result<Batch, ReplayError>, ghost steps: seq<Step>)
      requires Valid() && InOrder(t) && clock <= t.start
      modifies this`session, this`clock, reservoir`db, reservoir`pendingRowCount, reservoir`issued, reservoir`raised
      ensures Valid() && IsRun(policy, old(View()), steps, View()) && reservoir.raised >= old(reservoir.raised)
      ensures forall s | s in steps :: Claiming(s)
      ensures r.Ok? ==>
                var result := O.ClaimNextBatch(policy, old(View()), limit, t);
                View() == result.core && !result.thrown && r.value == Batch(session, result.entries, result.drained)
      ensures r.Ok? ==> steps == ClaimSteps(policy, old(View()), limit, t)
      ensures r.Err? && !r.error.StorageError? ==>
                var result := O.ClaimNextBatch(policy, old(View()), limit, t);
                View() == result.core && result.thrown && r.error == CannotClaim(session.state)
      ensures r.Err? && r.error.StorageError? ==> reservoir.closed || reservoir.raised > old(reservoir.raised)
    {
      var running; ghost var more;
      running, steps := EnsureRunning(t.start);
      if running.Err? { return Err(running.error), steps; }
      ghost var mid := View();
      assert mid == Started(policy, old(View()), t);
      r, more := ClaimRunning(limit, t);
      RunsThen(policy, old(View()), steps, mid, more, View());
      steps := steps + more;
      StartedClaimSteps(policy, old(View()), limit, t);
    }

    /** One update by ids, as a step of the protocol. */
    method UpdateRows(ids: seq<nat>, next: ReplayState, retry: Option<int>, now: int)
      returns (r: Result<nat, ReplayError>, ghost steps: seq<Step>)
      requires Valid() && clock <= now && (next.Delivered? || next.Pending?) && (next.Delivered? ==> retry.None?)
      modifies this`clock, reservoir`db, reservoir`pendingRowCount, reservoir`issued, reservoir`raised
      ensures Valid() && IsRun(policy, old(View()), steps, View()) && reservoir.raised >= old(reservoir.raised)
      ensures clock <= now
      ensures var step := if next.Delivered? then Deliver(Unique(ids), now) else PutBack(Unique(ids), retry, now);
              && steps == [if r.Ok? then step else Fault(View().drift)]
              && View() == Next(policy, old(View()), steps[0])
      ensures r.Ok? ==> r.value == |Ids(old(View()).rows) * Unique(ids)|
      ensures r.Err? ==> r.error.StorageError? && (reservoir.closed || reservoir.raised > old(reservoir.raised))
    {
      var updated := reservoir.UpdateReplayRows(ids, next, retry, now);
      if updated.Err? {
        RunsOnce(policy, old(View()), Fault(reservoir.Drift()));
        return Err(StorageError(updated.error)), [Fault(reservoir.Drift())];
      }
      clock := now;
      ghost var step := if next.Delivered? then Deliver(Unique(ids), now) else PutBack(Unique(ids), retry, now);
      RunsOnce(policy, old(View()), step);
      r, steps := Ok(updated.value.changes), [step];
    }

    /** Takes over a snapshot that is one step of the session. */
    method CommitStep(next: Session, ghost step: Step) returns (r: Result<(), ReplayError>, ghost steps: seq<Step>)
      requires Valid() && Enabled(policy, View(), step)
      requires NextRows(policy, View(), step) == View().rows && NextSession(policy, View(), step) == next
      requires !step.Append? && !step.Restart? && !step.Fault?
      modifies this`session, this`clock, reservoir`issued, reservoir`raised
      ensures Valid() && IsRun(policy, old(View()), steps, View()) && reservoir.raised >= old(reservoir.raised)
      ensures clock <= LastReading(old(View()), step)
      ensures steps == if r.Ok? then [step] else []
      ensures r.Ok? ==> View() == Next(policy, old(View()), step)
      ensures r.Err? ==> View() == old(View())
      ensures r.Err? ==> r.error.StorageError? && (reservoir.closed || reservoir.raised > old(reservoir.raised))
    {
      steps := [];
      StepKeepsForm(policy, View(), step);
      var committed := Commit(next);
      if committed.Err? { return Err(StorageError(committed.error)), steps; }
      clock := LastReading(old(View()), step);
      RunsOnce(policy, old(View()), step);
      r, steps := Ok(()), [step];
    }

    /** The session's part of an acknowledgement: the tally, and the end if nothing is pending. */
    method TallyDelivered(delivered: nat, now: int, finish: int)
      returns (r: Result<Session, ReplayError>, ghost steps: seq<Step>)
      requires Valid() && clock <= now <= finish
      modifies this`session, this`clock, reservoir`issued, reservoir`raised
      ensures Valid() && IsRun(policy, old(View()), steps, View()) && reservoir.raised >= old(reservoir.raised)
      ensures clock <= finish
      ensures forall s | s in steps :: s.TallySession? || s.FinishSession?
      ensures r.Ok? ==>
                var tallied := Next(policy, old(View()), TallySession(delivered));
                var drained := Counter(tallied) == 0 && tallied.session.state.Running?;
                && View() == (if drained then Next(policy, tallied, FinishSession(finish)) else tallied)
                && steps == [TallySession(delivered)] + (if drained then [FinishSession(finish)] else [])
                && r.value == session
      ensures r.Err? ==> r.error.StorageError? && (reservoir.closed || reservoir.raised > old(reservoir.raised))
    {
      steps := [];
      var stats := reservoir.GetStats(now, now);
      if stats.Err? { return Err(StorageError(stats.error)), steps; }
      var tallied; var finished; ghost var more;
      tallied, steps := CommitStep(Tally(session, delivered, stats.value.totalPending), TallySession(delivered));
      if tallied.Err? { return Err(tallied.error), steps; }
      ghost var mid := View();
      finished, more := FinishIf(stats.value.totalPending == 0 && session.state.Running?, finish);
      RunsThen(policy, old(View()), steps, mid, more, View());
      steps := steps + more;
      r := if finished.Err? then Err(finished.error) else Ok(session);
    }

    method AcknowledgeBatch(ids: seq<nat>, now: int, finish: int)
      returns (r: Result<Session, ReplayError>, ghost steps: seq<Step>)
      requires Valid() && clock <= now <= finish
      modifies this`session, this`clock, reservoir`db, reservoir`pendingRowCount, reservoir`issued, reservoir`raised
      ensures Valid() && IsRun(policy, old(View()), steps, View()) && reservoir.raised >= old(reservoir.raised)
      ensures clock <= finish
      ensures forall s | s in steps :: Acknowledging(s, Unique(ids))
      ensures r.Ok? ==> View() == O.AcknowledgeBatch(policy, old(View()), ids, now, finish) && r.value == session
      ensures r.Ok? ==> steps == AcknowledgeSteps(policy, old(View()), ids, now, finish)
      ensures r.Err? ==> r.error.StorageError? && (reservoir.closed || reservoir.raised > old(reservoir.raised))
    {
      var marked; ghost var more;
      marked, steps := UpdateRows(ids, Delivered, None, now);
      if marked.Err? { return Err(marked.error), steps; }
      ghost var mid := View();
      r, more := TallyDelivered(marked.value, now, finish);
      RunsThen(policy, old(View()), steps, mid, more, View());
      steps := steps + more;
    }

    /** Puts rows back, then takes over the session `next` that the step `ending` leads to. */
    method PutBackAndCommit(ids: seq<nat>, retry: Option<int>, now: int, next: Session, ghost ending: Step)
      returns (r: Result<Session, ReplayError>, ghost steps: seq<Step>)
      requires Valid() && (ending.FailSession? || ending.AbortSession?) && clock <= now <= ending.now
      requires next == NextSession(policy, View(), ending)
      modifies this`session, this`clock, reservoir`db, reservoir`pendingRowCount, reservoir`issued, reservoir`raised
      ensures Valid() && IsRun(policy, old(View()), steps, View()) && reservoir.raised >= old(reservoir.raised)
      ensures forall s | s in steps :: s == PutBack(Unique(ids), retry, now) || s == ending || s.Fault?
      ensures r.Ok? ==> steps == [PutBack(Unique(ids), retry, now), ending]
      ensures r.Ok? ==>
                View() == Next(policy, Next(policy, old(View()), PutBack(Unique(ids), retry, now)), ending)
      ensures r.Ok? ==> r.value == session
      ensures r.Err? ==> r.error.StorageError? && (reservoir.closed || reservoir.raised > old(reservoir.raised))
    {
      var updated; var committed; ghost var more;
      updated, steps := UpdateRows(ids, Pending, retry, now);
      if updated.Err? { return Err(updated.error), steps; }
      ghost var mid := View();
      committed, more := CommitStep(next, ending);
      RunsThen(policy, old(View()), steps, mid, more, View());
      steps := steps + more;
      r := if committed.Err? then Err(committed.error) else Ok(session);
    }

    /** A failure: the rows go back with a deadline, and the session waits for it. */
    method Fail(error: string, ids: seq<nat>, now: int)
      returns (r: Result<Session, ReplayError>, ghost steps: seq<Step>, ghost reset: Step)
      requires Valid() && clock <= now
      modifies this`session, this`clock, reservoir`db, reservoir`pendingRowCount, reservoir`issued, reservoir`raised
      ensures Valid() && IsRun(policy, old(View()), steps, View()) && reservoir.raised >= old(reservoir.raised)
      ensures forall s | s in steps :: Failing(policy, s, Unique(ids))
      ensures reset == PutBack(Unique(ids), Some(now + policy.backoff), now)
      ensures r.Ok? ==> steps == [reset, FailSession(error, now)]
      ensures r.Ok? ==> View() == Next(policy, Next(policy, old(View()), reset), FailSession(error, now))
      ensures r.Ok? ==> r.value == session
      ensures r.Err? ==> r.error.StorageError? && (reservoir.closed || reservoir.raised > old(reservoir.raised))
    {
      var deadline := now + policy.backoff;
      reset := PutBack(Unique(ids), Some(deadline), now);
      r, steps := PutBackAndCommit(ids, Some(deadline), now, S.Fail(session, error, now, policy.backoff),
                                   FailSession(error, now));
    }

    /** An abort: the rows go back at once, and so does the gate. */
    method Abort(reason: string, ids: seq<nat>, now: int, end: int)
      returns (r: Result<Session, ReplayError>, ghost steps: seq<Step>)
      requires Valid() && clock <= now <= end
      modifies this`session, this`clock, reservoir`db, reservoir`pendingRowCount, reservoir`issued, reservoir`raised
      ensures Valid() && IsRun(policy, old(View()), steps, View()) && reservoir.raised >= old(reservoir.raised)
      ensures forall s | s in steps ::
                s == PutBack(Unique(ids), None, now) || s == AbortSession(reason, end) || s.Fault?
      ensures r.Ok? ==> View() == Next(policy, Next(policy, old(View()), PutBack(Unique(ids), None, now)),
                                       AbortSession(reason, end))
      ensures r.Ok? ==> r.value == session
      ensures r.Err? ==> r.error.StorageError? && (reservoir.closed || reservoir.raised > old(reservoir.raised))
    {
      r, steps := PutBackAndCommit(ids, None, now, S.Abort(session, reason, end), AbortSession(reason, end));
    }

    /** Returns a completed and confirmed session to idle if nothing is pending. */
    method ResetIfDrained(now: int) returns (r: Result<Session, ReplayError>, ghost steps: seq<Step>)
      requires Valid()
      modifies this`session, this`clock, reservoir`issued, reservoir`raised
      ensures Valid() && IsRun(policy, old(View()), steps, View()) && reservoir.raised >= old(reservoir.raised)
      ensures forall s | s in steps :: Confirming(s)
      ensures clock == old(clock)
      ensures r.Ok? ==>
                var confirmed := old(session).state.Completed? && Confirmed(old(session)) && Counter(View()) == 0;
                session == (if confirmed then IdleSession(policy.required) else old(session)) && r.value == session
      ensures r.Err? ==> r.error.StorageError? && (reservoir.closed || reservoir.raised > old(reservoir.raised))
    {
      steps := [];
      if !session.state.Completed? || !Confirmed(session) { return Ok(session), steps; }
      var stats := reservoir.GetStats(now, now);
      if stats.Err? { return Err(StorageError(stats.error)), steps; }
      if stats.value.totalPending != 0 { return Ok(session), steps; }
      var reset;
      reset, steps := CommitStep(IdleSession(policy.required), ConfirmSession);
      r := if reset.Err? then Err(reset.error) else Ok(session);
    }

    /** Counts a recovery heartbeat; the one that confirms a drained session also returns it to idle. */
    method ObserveRecoveryHeartbeat(component: Component, state: HealthState, allHealthy: bool, now: int)
      returns (r: Result<Session, ReplayError>, ghost steps: seq<Step>)
      requires Valid()
      modifies this`session, this`clock, reservoir`issued, reservoir`raised
      ensures Valid() && IsRun(policy, old(View()), steps, View()) && reservoir.raised >= old(reservoir.raised)
      ensures forall s | s in steps :: Confirming(s)
      ensures clock == old(clock) && reservoir.db == old(reservoir.db)
      ensures r.Ok? ==>
                var live := Counter(View());
                && session == ObserveHeartbeat(old(session), component, state, allHealthy, policy.required, live)
                && r.value == session
      ensures r.Err? ==> r.error.StorageError? && (reservoir.closed || reservoir.raised > old(reservoir.raised))
    {
      steps := [];
      if component.Transport? || session.state.Running? { return Ok(session), steps; }
      var counted; ghost var more;
      counted, steps := CommitStep(CountHeartbeat(session, component, state, allHealthy, policy.required),
                                   HeartbeatSession(component, state, allHealthy));
      if counted.Err? { return Err(counted.error), steps; }
      if !state.Online? || !allHealthy { return Ok(session), steps; }
      ghost var mid := View();
      r, more := ResetIfDrained(now);
      RunsThen(policy, old(View()), steps, mid, more, View());
      steps := steps + more;
    }
  }

  /** Opens the coordinator on a reservoir: recovery of interrupted claims, and the session rebuilt from the rows. */
  method OpenCoordinator(policy: Policy, reservoir: SQLiteReservoir, ghost before: Core, now: int)
    returns (r: Result<ReplayCoordinator, Failure>)
    requires reservoir.Valid() && reservoir.config == policy.store
    requires before.rows == reservoir.db.rows && before.nextId == reservoir.db.nextId && reservoir.Drift() == 0
    modifies reservoir`db, reservoir`pendingRowCount, reservoir`issued, reservoir`raised
    ensures reservoir.Valid() && reservoir.db.nextId == old(reservoir.db).nextId
    ensures r.Ok? ==> fresh(r.value) && r.value.Valid() && r.value.reservoir == reservoir && r.value.policy == policy
    ensures r.Ok? ==> r.value.View() == Next(policy, before, Restart(now))
    ensures r.Err? ==> reservoir.db.rows == before.rows || reservoir.db.rows == Recovered(before.rows)
    ensures r.Err? ==> reservoir.closed || reservoir.raised > old(reservoir.raised)
  {
    var restart := reservoir.RecoverRestartState(now, now);
    if restart.Err? { return Err(restart.error); }
    var state := restart.value;
    var session := RestartSession(policy.required, state.totalPending, state.retryWaiting, state.earliestRetry,
                                  state.maxAttempts);
    assert reservoir.pendingRowCount == LiveCount(reservoir.db.rows);
    var coordinator := new ReplayCoordinator(policy, reservoir, session, now);
    r := Ok(coordinator);
  }
}
