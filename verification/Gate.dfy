/**
 The live-flow gate over whole runs: it opens when the pending counter reads nothing or by an abort, and not otherwise.
 As long as every failing transaction has its counter read back, the counter is the number of live rows.
 */
module Gate {
  import opened Options
  import opened Rows
  import opened Store
  import opened Session
  import opened Protocol
  import opened Routing

  predicate Closed(c: Core) {
    GateClosed(c.session, Counter(c))
  }

  /**
   Every step that opens the gate, other than an abort, leaves the counter at zero or below it. So it opens over live
   rows only if the counter is too low by at least their number, and with a counter that is right over none.
   */
  lemma GateOpensOnlyDrained(p: Policy, c: Core, s: Step)
    requires WellFormed(p, c) && Enabled(p, c, s) && !s.AbortSession?
    requires Closed(c) && !Closed(Next(p, c, s))
    ensures Counter(Next(p, c, s)) <= 0 && LiveCount(Next(p, c, s).rows) <= -Next(p, c, s).drift
    ensures Next(p, c, s).drift == 0 ==> LiveCount(Next(p, c, s).rows) == 0
  {
    var c' := Next(p, c, s);
    match s
    case StartSession(now, manual) => assert c'.rows == c.rows;
    case FinishSession(now) => assert c'.rows == c.rows;
    case ConfirmSession => assert c'.rows == c.rows;
    case Restart(now) => assert c'.session == RebuiltSession(p, c'.rows, now);
    case _ =>
  }

  /** Somewhere along the run, up to and including its end, the counter read zero or less. */
  ghost predicate ReadEmpty(p: Policy, c: Core, steps: seq<Step>) {
    Counter(Exec(p, c, steps)) <= 0 || (|steps| > 0 && ReadEmpty(p, c, steps[..|steps| - 1]))
  }

  /** Somewhere along the run, up to and including its end, the reservoir was empty. */
  ghost predicate SeenEmpty(p: Policy, c: Core, steps: seq<Step>) {
    LiveCount(Exec(p, c, steps).rows) == 0 || (|steps| > 0 && SeenEmpty(p, c, steps[..|steps| - 1]))
  }

  /** No transaction of the run has failed in a way that left the counter wrong. */
  predicate CounterKept(steps: seq<Step>) {
    forall s | s in steps :: s.Fault? ==> s.drift == 0
  }

  lemma {:induction false} CounterStaysRight(p: Policy, c: Core, steps: seq<Step>)
    requires c.drift == 0 && CounterKept(steps)
    ensures Exec(p, c, steps).drift == 0 && Counter(Exec(p, c, steps)) == LiveCount(Exec(p, c, steps).rows)
    ensures ReadEmpty(p, c, steps) <==> SeenEmpty(p, c, steps)
  {
    if |steps| > 0 {
      assert steps[|steps| - 1] in steps;
      CounterStaysRight(p, c, steps[..|steps| - 1]);
    }
  }

  lemma {:induction false} GateStaysUntilEmpty(p: Policy, c: Core, steps: seq<Step>)
    requires WellFormed(p, c) && Allowed(p, c, steps) && Closed(c)
    requires forall s | s in steps :: !s.AbortSession?
    ensures Closed(Exec(p, c, steps)) || ReadEmpty(p, c, steps)
  {
    if |steps| > 0 {
      var front, last := steps[..|steps| - 1], steps[|steps| - 1];
      GateStaysUntilEmpty(p, c, front);
      RunKeepsForm(p, c, front);
      assert last in steps;
      if !ReadEmpty(p, c, front) && !Closed(Exec(p, c, steps)) {
        GateOpensOnlyDrained(p, Exec(p, c, front), last);
      }
    }
  }

  /** A restart over a backlog always comes up with the gate closed. */
  lemma RestartClosesGate(p: Policy, c: Core, now: int)
    requires LiveCount(Next(p, c, Restart(now)).rows) > 0
    ensures Closed(Next(p, c, Restart(now)))
  {
    var rows := Recovered(c.rows);
    assert Next(p, c, Restart(now)).session == RebuiltSession(p, rows, now);
  }

  /**
   Whole-run gate safety. After a restart over a non-empty backlog, with `pauseLiveFlowDuringReplay`, whatever happens
   short of an abort and whatever health reports, no ingress decision is `accept` until the counter has read nothing -
   which is until the reservoir has been empty, unless a failed transaction has left the counter wrong.
   */
  lemma NoLiveFlowBeforeDrained(
    p: Policy, c: Core, now: int, steps: seq<Step>, cfg: FlowConfig, h: Health, f: Flags)
    requires WellFormed(p, c) && cfg.pauseLive
    requires LiveCount(Next(p, c, Restart(now)).rows) > 0
    requires Allowed(p, Next(p, c, Restart(now)), steps) && forall s | s in steps :: !s.AbortSession?
    ensures var c1 := Next(p, c, Restart(now));
            var end := Exec(p, c1, steps);
            IngressDecision(cfg, h, end.session, f, end.rows, Counter(end)).action.Accept? ==>
              ReadEmpty(p, c1, steps) && (CounterKept(steps) ==> SeenEmpty(p, c1, steps))
  {
    StepKeepsForm(p, c, Restart(now));
    RestartClosesGate(p, c, now);
    GateStaysUntilEmpty(p, Next(p, c, Restart(now)), steps);
    if CounterKept(steps) {
      CounterStaysRight(p, Next(p, c, Restart(now)), steps);
    }
  }

  /** An abort is the exception: it opens the gate over whatever backlog there is. */
  lemma AbortOpensGate(p: Policy, c: Core, reason: string, now: int)
    ensures !Closed(Next(p, c, AbortSession(reason, now)))
    ensures LiveCount(Next(p, c, AbortSession(reason, now)).rows) == LiveCount(c.rows)
  {
  }

  /**
   And a counter that is too low is enough: the COMMIT that was to deliver the last live rows fails and the counter is
   not read back; the next acknowledgement completes the session, and one heartbeat later the gate is open over them.
   */
  lemma WrongCounterOpensGate(p: Policy, c: Core, fault: Step, now: int)
    requires LiveCount(c.rows) > 0 && c.session.state.Running? && p.required == 1 && c.session.required == 1
    requires fault == Fault(0 - LiveCount(c.rows)) && c.clock <= now
    ensures var steps := [fault, FinishSession(now), HeartbeatSession(Dedupe, Online, true)];
            var end := Exec(p, c, steps);
            Allowed(p, c, steps) && Closed(c) && !Closed(end) && end.rows == c.rows
  {
    var finish, beat := FinishSession(now), HeartbeatSession(Dedupe, Online, true);
    var off := Next(p, c, fault);
    var done := Next(p, off, finish);
    RunsOnce(p, c, fault);
    RunsOnce(p, off, finish);
    RunsThen(p, c, [fault], off, [finish], done);
    RunsOnce(p, done, beat);
    RunsThen(p, c, [fault] + [finish], done, [beat], Next(p, done, beat));
    assert [fault] + [finish] + [beat] == [fault, finish, beat];
  }
}
