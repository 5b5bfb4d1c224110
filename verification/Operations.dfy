/** The coordinator's operations on success: which steps each of them takes, in which order. */
module Operations {
  import opened Options
  import opened Rows
  import opened Ordering
  import opened Store
  import opened Session
  import opened Protocol

  /** The clock readings of one claim, in the order the code takes them. */
  datatype Times = Times(queue: int, start: int, reclaim: int, select: int, stamp: int, finish: int)

  predicate InOrder(t: Times) {
    t.queue <= t.start <= t.reclaim <= t.select <= t.stamp <= t.finish
  }

  /** `thrown` marks the error "cannot claim while replay is not running". */
  datatype ClaimResult = ClaimResult(core: Core, thrown: bool, entries: seq<Entry>, drained: bool)

  function Started(p: Policy, c: Core, t: Times): Core {
    if c.session.state.Queued? then Next(p, c, StartSession(t.start, false)) else c
  }

  function Swept(p: Policy, c: Core, t: Times): Core {
    Next(p, Started(p, c, t), Reclaim(StaleIds(p.store, c.rows, p.backoff, t.reclaim), t.reclaim))
  }

  function ClaimNextBatch(p: Policy, c: Core, limit: int, t: Times): ClaimResult {
    if !Started(p, c, t).session.state.Running? then ClaimResult(Started(p, c, t), true, [], false)
    else
      var swept := Swept(p, c, t);
      var entries := Entries(swept.rows, limit, t.select, ReplayThroughDedupe);
      var claimed := Next(p, swept, Claim(limit, t.select, t.stamp));
      if |entries| == 0 && Counter(claimed) == 0 then
        ClaimResult(Next(p, claimed, FinishSession(t.finish)), false, [], true)
      else ClaimResult(claimed, false, entries, false)
  }

  /** The commits a claim is made of. */
  function ClaimSteps(p: Policy, c: Core, limit: int, t: Times): seq<Step> {
    var start := if c.session.state.Queued? then [StartSession(t.start, false)] else [];
    if !Started(p, c, t).session.state.Running? then start
    else
      var reclaim := Reclaim(StaleIds(p.store, c.rows, p.backoff, t.reclaim), t.reclaim);
      var finish := if ClaimNextBatch(p, c, limit, t).drained then [FinishSession(t.finish)] else [];
      start + [reclaim] + [Claim(limit, t.select, t.stamp)] + finish
  }

  /** They are a run of the protocol. */
  lemma ClaimRuns(p: Policy, c: Core, limit: int, t: Times)
    requires InOrder(t) && c.clock <= t.start
    ensures IsRun(p, c, ClaimSteps(p, c, limit, t), ClaimNextBatch(p, c, limit, t).core)
  {
    var started := Started(p, c, t);
    var start := if c.session.state.Queued? then [StartSession(t.start, false)] else [];
    if c.session.state.Queued? { RunsOnce(p, c, StartSession(t.start, false)); }
    if started.session.state.Running? {
      var swept := Swept(p, c, t);
      var reclaim := Reclaim(StaleIds(p.store, c.rows, p.backoff, t.reclaim), t.reclaim);
      var claim := Claim(limit, t.select, t.stamp);
      var claimed := Next(p, swept, claim);
      RunsOnce(p, started, reclaim);
      RunsThen(p, c, start, started, [reclaim], swept);
      RunsOnce(p, swept, claim);
      RunsThen(p, c, start + [reclaim], swept, [claim], claimed);
      if ClaimNextBatch(p, c, limit, t).drained {
        RunsOnce(p, claimed, FinishSession(t.finish));
        RunsThen(p, c, start + [reclaim] + [claim], claimed, [FinishSession(t.finish)],
                 Next(p, claimed, FinishSession(t.finish)));
      } else {
        assert start + [reclaim] + [claim] + [] == start + [reclaim] + [claim];
      }
    }
  }

  lemma ClaimStepsClaim(p: Policy, c: Core, limit: int, t: Times)
    ensures forall s | s in ClaimSteps(p, c, limit, t) :: Claiming(s) && !s.Fault?
  {
  }

  /** The claim of a running session: the reclaim, the selection and, if there is nothing left to do, the end. */
  lemma RunningClaim(p: Policy, c: Core, limit: int, t: Times)
    requires c.session.state.Running?
    ensures var reclaim := Reclaim(StaleIds(p.store, c.rows, p.backoff, t.reclaim), t.reclaim);
            var swept := Next(p, c, reclaim);
            var claimed := Next(p, swept, Claim(limit, t.select, t.stamp));
            var entries := Entries(swept.rows, limit, t.select, ReplayThroughDedupe);
            var drained := |entries| == 0 && Counter(claimed) == 0;
            && ClaimNextBatch(p, c, limit, t) ==
               ClaimResult(if drained then Next(p, claimed, FinishSession(t.finish)) else claimed, false, entries,
                           drained)
            && ClaimSteps(p, c, limit, t) ==
               [reclaim] + [Claim(limit, t.select, t.stamp)] + (if drained then [FinishSession(t.finish)] else [])
  {
    assert Started(p, c, t) == c;
  }

  /** The claim of a running session is what is left of a claim once the session has been started. */
  lemma StartedClaimSteps(p: Policy, c: Core, limit: int, t: Times)
    requires Started(p, c, t).session.state.Running?
    ensures ClaimSteps(p, c, limit, t) ==
            (if c.session.state.Queued? then [StartSession(t.start, false)] else []) +
            ClaimSteps(p, Started(p, c, t), limit, t)
  {
    var started := Started(p, c, t);
    assert Started(p, started, t) == started && Swept(p, started, t) == Swept(p, c, t);
  }

  /** The commits of a claim as the adapter makes it: the session is queued first. */
  function QueuedClaimSteps(p: Policy, c: Core, limit: int, t: Times): seq<Step> {
    [QueueSession(t.queue)] + ClaimSteps(p, Next(p, c, QueueSession(t.queue)), limit, t)
  }

  /** Whatever a claim comes to, with the queueing in front it is a run as well. */
  lemma QueuedRuns(p: Policy, c: Core, now: int, steps: seq<Step>, end: Core)
    requires c.clock <= now && IsRun(p, Next(p, c, QueueSession(now)), steps, end)
    requires forall s | s in steps :: Claiming(s)
    ensures IsRun(p, c, [QueueSession(now)] + steps, end)
    ensures forall s | s in [QueueSession(now)] + steps :: Claiming(s)
  {
    RunsOnce(p, c, QueueSession(now));
    RunsThen(p, c, [QueueSession(now)], Next(p, c, QueueSession(now)), steps, end);
  }

  /** With the queueing in front, and with no fault among them. */
  lemma QueuedClaimRuns(p: Policy, c: Core, limit: int, t: Times) returns (steps: seq<Step>)
    requires InOrder(t) && c.clock <= t.queue
    ensures steps == QueuedClaimSteps(p, c, limit, t)
    ensures IsRun(p, c, steps, ClaimNextBatch(p, Next(p, c, QueueSession(t.queue)), limit, t).core)
    ensures forall s | s in steps :: Claiming(s) && !s.Fault?
  {
    var queue := QueueSession(t.queue);
    var queued := Next(p, c, queue);
    RunsOnce(p, c, queue);
    ClaimRuns(p, queued, limit, t);
    ClaimStepsClaim(p, queued, limit, t);
    var claim := ClaimSteps(p, queued, limit, t);
    steps := [queue] + claim;
    RunsThen(p, c, [queue], queued, claim, ClaimNextBatch(p, queued, limit, t).core);
  }

  function RowIds(entries: seq<Entry>): seq<nat> {
    seq(|entries|, i requires 0 <= i < |entries| => entries[i].rowId)
  }

  function AcknowledgeBatch(p: Policy, c: Core, ids: seq<nat>, now: int, finish: int): Core {
    var marked := Next(p, c, Deliver(Unique(ids), now));
    var tallied := Next(p, marked, TallySession(|Ids(c.rows) * Unique(ids)|));
    if Counter(tallied) == 0 && tallied.session.state.Running? then
      Next(p, tallied, FinishSession(finish))
    else tallied
  }

  /** The commits an acknowledgement is made of. */
  function AcknowledgeSteps(p: Policy, c: Core, ids: seq<nat>, now: int, finish: int): seq<Step> {
    var deliver := Deliver(Unique(ids), now);
    var tally := TallySession(|Ids(c.rows) * Unique(ids)|);
    var tallied := Next(p, Next(p, c, deliver), tally);
    [deliver, tally] + if Counter(tallied) == 0 && tallied.session.state.Running? then [FinishSession(finish)] else []
  }

  lemma AcknowledgeRuns(p: Policy, c: Core, ids: seq<nat>, now: int, finish: int)
    requires c.clock <= now <= finish
    ensures IsRun(p, c, AcknowledgeSteps(p, c, ids, now, finish), AcknowledgeBatch(p, c, ids, now, finish))
  {
    var deliver := Deliver(Unique(ids), now);
    var tally := TallySession(|Ids(c.rows) * Unique(ids)|);
    var marked := Next(p, c, deliver);
    var tallied := Next(p, marked, tally);
    RunsOnce(p, c, deliver);
    RunsOnce(p, marked, tally);
    RunsThen(p, c, [deliver], marked, [tally], tallied);
    assert [deliver] + [tally] == [deliver, tally];
    if Counter(tallied) == 0 && tallied.session.state.Running? {
      RunsOnce(p, tallied, FinishSession(finish));
      RunsThen(p, c, [deliver, tally], tallied, [FinishSession(finish)], Next(p, tallied, FinishSession(finish)));
    } else {
      assert [deliver, tally] + [] == [deliver, tally];
    }
  }

  /** The session once a component's health observation has reached the coordinator. */
  function HeardBy(p: Policy, s: Session, component: Component, state: HealthState, healthy: bool, live: int): Session {
    ObserveHeartbeat(s, component, state, healthy, p.required, live)
  }
}
