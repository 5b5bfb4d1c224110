/**
 The replay session over a run: which step has put it into its state, what it has counted since, and how long the streak
 of healthy heartbeats is.
 */
module SessionHistory {
  import opened Counters
  import opened Options
  import opened Rows
  import opened Store
  import opened Session
  import opened Protocol
  import opened Operations

  /**
   The step begins a new session: a queueing that is not held off by a session under way or by a deadline, a start of
   anything but a running session or over nothing, a return to idle, a restart.
   */
  predicate Renews(c: Core, s: Step) {
    match s
    case QueueSession(now) =>
      Counter(c) != 0 && c.session.state != Queued && c.session.state != Running &&
      !(c.session.state == Failed && c.session.nextRetryAt != None && now < c.session.nextRetryAt.value)
    case StartSession(_, _) => Counter(c) == 0 || c.session.state != Running
    case ConfirmSession => true
    case Restart(_) => true
    case _ => false
  }

  predicate Ends(s: Step) {
    s.FinishSession? || s.FailSession? || s.AbortSession?
  }

  /** Which step of the run was the last to begin or end a session. */
  function LastTurn(p: Policy, c: Core, steps: seq<Step>): (k: Option<nat>)
    ensures k.Some? ==> k.value < |steps|
  {
    if |steps| == 0 then None else
      var n := |steps| - 1;
      if Renews(Exec(p, c, steps[..n]), steps[n]) || Ends(steps[n]) then Some(n) else LastTurn(p, c, steps[..n])
  }

  /** Where a session stands, its counts aside. */
  datatype Standing = Standing(
    state: SessionState, startedAt: Option<int>, endedAt: Option<int>, lastError: Option<string>,
    nextRetryAt: Option<int>, failures: nat)

  function StandingOf(s: Session): Standing {
    Standing(s.state, s.startedAt, s.endedAt, s.lastError, s.nextRetryAt, s.failures)
  }

  /** What the step that begins or ends a session makes of the one before; a restart is another matter. */
  function TurnedInto(p: Policy, c: Core, s: Step): Standing {
    var before := c.session;
    var carried := if before.state == Failed then before.failures else 0;
    match s
    case QueueSession(_) => Standing(Queued, None, None, None, None, carried)
    case StartSession(now, _) =>
      if Counter(c) == 0 then Standing(Idle, None, None, None, None, 0)
      else Standing(Running, Some(now), None, None, None, carried)
    case FinishSession(now) => Standing(Completed, before.startedAt, Some(now), None, None, before.failures)
    case FailSession(error, now) =>
      Standing(Failed, before.startedAt, Some(now), Some(error), Some(now + p.backoff), before.failures + 1)
    case AbortSession(reason, now) =>
      Standing(Aborted, before.startedAt, Some(now), Some(reason), None, before.failures)
    case _ => Standing(Idle, None, None, None, None, 0)
  }

  /** The session stands where the turn has put it. */
  predicate StandsAfter(p: Policy, before: Core, turn: Step, s: Session) {
    if !turn.Restart? then StandingOf(s) == TurnedInto(p, before, turn)
    else
      && s.startedAt == None && s.endedAt == None
      && (s.lastError != None <==> s.state == Failed)
      && s.failures == if s.state == Idle then 0 else MaxAttempts(Recovered(before.rows))
  }

  lemma TurnStep(p: Policy, c: Core, s: Step)
    ensures if Renews(c, s) || Ends(s) then StandsAfter(p, c, s, NextSession(p, c, s))
            else StandingOf(NextSession(p, c, s)) == StandingOf(c.session)
  {
  }

  /** Over any run the session stands where the last step to begin or end one has put it. */
  lemma {:induction false} SessionIsItsLastTurn(p: Policy, c: Core, steps: seq<Step>)
    ensures var k := LastTurn(p, c, steps);
            var s := Exec(p, c, steps).session;
            if k == None then StandingOf(s) == StandingOf(c.session)
            else StandsAfter(p, Exec(p, c, steps[..k.value]), steps[k.value], s)
  {
    if |steps| > 0 {
      var n := |steps| - 1;
      var front, mid := steps[..n], Exec(p, c, steps[..n]);
      SessionIsItsLastTurn(p, c, front);
      TurnStep(p, mid, steps[n]);
      var k := LastTurn(p, c, front);
      if k != None {
        assert front[..k.value] == steps[..k.value];
      }
    }
  }

  lemma {:induction false} EachIsEnabled(p: Policy, c: Core, steps: seq<Step>, k: nat)
    requires Allowed(p, c, steps) && k < |steps|
    ensures Enabled(p, Exec(p, c, steps[..k]), steps[k])
  {
    var n := |steps| - 1;
    if k < n {
      EachIsEnabled(p, c, steps[..n], k);
      assert steps[..n][..k] == steps[..k];
    }
  }

  /**
   Where in a run the session may move, in terms of what the counter and the session read there: it finishes only while
   running with the counter at zero, returns to idle only when finished, confirmed and drained, is claimed for only
   while running, and is started only over nothing or while queued, running or failed - from failed by hand alone.
   */
  lemma TurnsAreGuarded(p: Policy, c: Core, steps: seq<Step>, k: nat, mid: Core)
    requires Allowed(p, c, steps) && k < |steps| && mid == Exec(p, c, steps[..k])
    ensures var s := mid.session;
            match steps[k]
            case FinishSession(_) => s.state == Running && Counter(mid) == 0
            case ConfirmSession => s.state == Completed && s.heartbeats >= s.required && Counter(mid) == 0
            case Claim(_, _, _) => s.state == Running
            case StartSession(_, manual) =>
              (manual || s.state == Queued) &&
              (Counter(mid) == 0 || s.state == Queued || s.state == Running || s.state == Failed)
            case _ => true
  {
    EachIsEnabled(p, c, steps, k);
  }

  // ---------------------------------------------------------------- counts

  /** What has been tallied since the last session began. */
  function Tallied(p: Policy, c: Core, steps: seq<Step>, before: int): int {
    if |steps| == 0 then before else
      var front, last := steps[..|steps| - 1], steps[|steps| - 1];
      if Renews(Exec(p, c, front), last) then 0
      else Tallied(p, c, front, before) + if last.TallySession? then last.delivered else 0
  }

  lemma TallyStep(p: Policy, c: Core, s: Step)
    ensures NextSession(p, c, s).delivered ==
            if Renews(c, s) then 0 else c.session.delivered + if s.TallySession? then s.delivered else 0
  {
  }

  lemma {:induction false} DeliveredIsTallied(p: Policy, c: Core, steps: seq<Step>)
    ensures Exec(p, c, steps).session.delivered == Tallied(p, c, steps, c.session.delivered)
  {
    if |steps| > 0 {
      var front, last := steps[..|steps| - 1], steps[|steps| - 1];
      DeliveredIsTallied(p, c, front);
      TallyStep(p, Exec(p, c, front), last);
    }
  }

  /**
   The number queued is all there is to deliver: a new session begins with the whole backlog, a tally leaves the backlog
   on top of what has been delivered, a finished session has delivered all of it, and queueing a session that is held
   off only raises it to the backlog.
   */
  lemma QueuedExactly(p: Policy, c: Core, s: Step)
    ensures var before, after := c.session, NextSession(p, c, s);
            if s.ConfirmSession? then after.queued == 0
            else if s.Restart? then after.queued == LiveCount(Recovered(c.rows))
            else if Renews(c, s) then after.queued == Counter(c)
            else if s.TallySession? then after.queued - after.delivered == Counter(c)
            else if s.FinishSession? then after.queued == after.delivered
            else if s.QueueSession? && Counter(c) != 0 then
              after.queued >= before.queued && after.queued >= Counter(c) &&
              (after.queued == before.queued || after.queued == Counter(c))
            else after.queued == before.queued
  {
  }

  // ---------------------------------------------------------------- heartbeats

  /**
   Healthy heartbeats of the targets in a row since the session began or finished. Those of the transport, and those
   that arrive while the session is running, do not count either way.
   */
  function Streak(p: Policy, c: Core, steps: seq<Step>): nat {
    if |steps| == 0 then 0 else
      var front, last := steps[..|steps| - 1], steps[|steps| - 1];
      var mid := Exec(p, c, front);
      if Renews(mid, last) || last.FinishSession? then 0
      else if last.HeartbeatSession? && last.component != Transport && mid.session.state != Running then
        if last.state == Online && last.allHealthy then Streak(p, c, front) + 1 else 0
      else Streak(p, c, front)
  }

  lemma BeatStep(p: Policy, c: Core, s: Step, streak: nat)
    requires c.session.heartbeats == Min(streak, p.required) && c.session.required == p.required
    ensures var after := NextSession(p, c, s);
            && after.required == p.required
            && if Renews(c, s) || s.FinishSession? then after.heartbeats == 0
               else if s.HeartbeatSession? && s.component != Transport && c.session.state != Running then
                 after.heartbeats == if s.state == Online && s.allHealthy then Min(streak + 1, p.required) else 0
               else after.heartbeats == c.session.heartbeats
  {
  }

  lemma {:induction false} HeartbeatsAreTheStreak(p: Policy, c: Core, steps: seq<Step>)
    requires c.session.heartbeats == 0 && c.session.required == p.required
    ensures var s := Exec(p, c, steps).session;
            s.heartbeats == Min(Streak(p, c, steps), p.required) && s.required == p.required
  {
    if |steps| > 0 {
      var front, last := steps[..|steps| - 1], steps[|steps| - 1];
      HeartbeatsAreTheStreak(p, c, front);
      BeatStep(p, Exec(p, c, front), last, Streak(p, c, front));
    }
  }

  /**
   A heartbeat as the coordinator hears it is the heartbeat step, and the return to idle after it exactly if that was
   the healthy heartbeat of a target that completes the confirmation of a completed and drained session.
   */
  lemma HeardIsSteps(p: Policy, c: Core, component: Component, state: HealthState, healthy: bool)
    requires c.session.required == p.required
    ensures var beat := HeartbeatSession(component, state, healthy);
            var counted := Next(p, c, beat);
            var heard := HeardBy(p, c.session, component, state, healthy, Counter(c));
            if component != Transport && state == Online && healthy && counted.session.state == Completed &&
               counted.session.heartbeats >= counted.session.required && Counter(c) == 0
            then heard == Next(p, counted, ConfirmSession).session && Enabled(p, counted, ConfirmSession)
            else heard == counted.session
  {
  }
}
