/** Every run of the adapter is a run of the protocol, so the protocol's run theorems hold of it. */
module AdapterRuns {
  import opened Options
  import opened Rows
  import opened Ordering
  import opened Store
  import opened Session
  import opened Protocol
  import opened Runs
  import opened Routing
  import opened Gate
  import opened Ledger
  import opened Adapter

  function StepsOf(a: Piece): seq<Step> {
    match a
    case Elsewhere(steps) => steps
    case Admit(step, _) => [step]
    case LiveCompleted(_, steps) => steps
    case LiveRejected(_) => []
    case Start(_, _, steps, _) => steps
    case Resume(_, steps, _) => steps
    case Release => []
    case Crash(now) => [Restart(now)]
  }

  function Trace(pieces: seq<Piece>): seq<Step> {
    if |pieces| == 0 then [] else Trace(pieces[..|pieces| - 1]) + StepsOf(pieces[|pieces| - 1])
  }

  lemma PieceRuns(p: Policy, w: World, a: Piece)
    requires Possible(p, w, a)
    ensures IsRun(p, w.core, StepsOf(a), After(p, w, a).core)
  {
    match a
    case Admit(step, forward) => RunsOnce(p, w.core, step);
    case Crash(now) => RunsOnce(p, w.core, Restart(now));
    case _ =>
  }

  lemma {:induction false} TraceRuns(p: Policy, w: World, pieces: seq<Piece>, end: World)
    requires PossibleAll(p, w, pieces) && end == AfterAll(p, w, pieces)
    ensures IsRun(p, w.core, Trace(pieces), end.core)
  {
    if |pieces| > 0 {
      var front, last := pieces[..|pieces| - 1], pieces[|pieces| - 1];
      var mid := AfterAll(p, w, front);
      TraceRuns(p, w, front, mid);
      PieceRuns(p, mid, last);
      RunsThen(p, w.core, Trace(front), mid.core, StepsOf(last), end.core);
    }
  }

  /** The adapter never aborts a session, and short of a crash takes only steps an adapter-owned process may take. */
  lemma PieceStepsAreOwned(p: Policy, w: World, a: Piece)
    requires Possible(p, w, a)
    ensures forall s | s in StepsOf(a) :: !s.AbortSession? && (AdapterOwned(s) || a.Crash?)
  {
    match a
    case Start(pump, event, steps, next) => TurnSteps(p, w.core, FreshOp(pump), event, steps, next);
    case Resume(event, steps, next) => TurnSteps(p, w.core, Latest(w), event, steps, next);
    case _ =>
  }

  lemma {:induction false} TraceIsOwned(p: Policy, w: World, pieces: seq<Piece>)
    requires PossibleAll(p, w, pieces)
    ensures forall s | s in Trace(pieces) :: !s.AbortSession?
    ensures (forall a | a in pieces :: !a.Crash?) ==> forall s | s in Trace(pieces) :: AdapterOwned(s)
  {
    if |pieces| > 0 {
      var front, last := pieces[..|pieces| - 1], pieces[|pieces| - 1];
      TraceIsOwned(p, w, front);
      PieceStepsAreOwned(p, AfterAll(p, w, front), last);
      assert last in pieces;
    }
  }

  lemma {:induction false} RunPrefix(p: Policy, c: Core, steps: seq<Step>, k: nat)
    requires Allowed(p, c, steps) && k <= |steps|
    ensures Allowed(p, c, steps[..k])
    ensures k < |steps| ==> Enabled(p, Exec(p, c, steps[..k]), steps[k])
  {
    if k == |steps| {
      assert steps[..k] == steps;
    } else if k < |steps| - 1 {
      RunPrefix(p, c, steps[..|steps| - 1], k);
      assert steps[..|steps| - 1][..k] == steps[..k];
    }
  }

  /**
   Backoff under the adapter: once the session waits until a deadline, then whatever callers, handlers, health reports
   and prunes do, nothing at all is claimed in that process before the deadline.
   */
  lemma NothingClaimedBeforeRetry(
    p: Policy, w: World, pieces: seq<Piece>, steps: seq<Step>, until: int, k: nat)
    requires Waits(p, w.core, until) && PossibleAll(p, w, pieces) && steps == Trace(pieces)
    requires forall a | a in pieces :: !a.Crash?
    requires k < |steps| && steps[k].Claim?
    ensures steps[k].now >= until
  {
    TraceRuns(p, w, pieces, AfterAll(p, w, pieces));
    TraceIsOwned(p, w, pieces);
    RunPrefix(p, w.core, steps, k);
    WaitsRun(p, w.core, steps[..k], until);
    WaitingSessionClaimsNothing(p, Exec(p, w.core, steps[..k]), until, steps[k]);
  }

  /** Rows are put back only with a deadline one backoff away. */
  predicate RetriesAfterBackoff(p: Policy, s: Step) {
    s.PutBack? ==> s.retry == Some(s.now + p.backoff)
  }

  lemma PieceRetriesAfterBackoff(p: Policy, w: World, a: Piece)
    requires Possible(p, w, a)
    ensures forall s | s in StepsOf(a) :: RetriesAfterBackoff(p, s)
  {
    match a
    case Start(pump, event, steps, next) => TurnSteps(p, w.core, FreshOp(pump), event, steps, next);
    case Resume(event, steps, next) => TurnSteps(p, w.core, Latest(w), event, steps, next);
    case _ =>
  }

  lemma {:induction false} TraceRetriesAfterBackoff(p: Policy, w: World, pieces: seq<Piece>)
    requires PossibleAll(p, w, pieces)
    ensures forall s | s in Trace(pieces) :: RetriesAfterBackoff(p, s)
  {
    if |pieces| > 0 {
      var front, last := pieces[..|pieces| - 1], pieces[|pieces| - 1];
      TraceRetriesAfterBackoff(p, w, front);
      PieceRetriesAfterBackoff(p, AfterAll(p, w, front), last);
    }
  }

  predicate PutsBack(steps: seq<Step>, id: nat) {
    exists s :: s in steps && s.PutBack? && id in s.ids
  }

  /** The catch block of a batch runs: a handler or the last notification fails, or the last handler has completed. */
  predicate ReachesCatchBlock(op: Op, event: Event) {
    || (op.phase.ReportingDelivery? && event.NotifyRejected?)
    || (op.phase.Delivering? && event.HandlerRejected?)
    || (op.phase.Delivering? && event.HandlerCompleted? && |op.handlerCompleted| + 1 == |op.entries|)
  }

  /** A reset by ids is among the commits. */
  predicate ResetCommits(steps: seq<Step>) {
    exists s :: s in steps && s.PutBack?
  }

  lemma ResetOfTurn(p: Policy, c: Core, op: Op, event: Event, steps: seq<Step>, next: Op, id: nat)
    requires Turn(p, c, op, event, steps, next)
    ensures PutsBack(steps, id) <==> ResetCommits(steps) && id in op.claimedRowIds
    ensures ResetCommits(steps) ==> ReachesCatchBlock(op, event)
  {
    TurnSteps(p, c, op, event, steps, next);
    if s :| s in steps && s.PutBack? {
      assert s.ids == Unique(op.claimedRowIds);
    }
  }

  /** In a turn the catch block comes last: what it puts back, no later step of the turn delivers. */
  lemma LastWordOfTurn(p: Policy, c: Core, op: Op, event: Event, steps: seq<Step>, next: Op, id: nat)
    requires Turn(p, c, op, event, steps, next)
    ensures PutsBack(steps, id) <==> LastWord(steps, id).Some? && LastWord(steps, id).value.PutBack?
    ensures PutsBack(steps, id) ==> id in op.claimedRowIds
  {
    TurnSteps(p, c, op, event, steps, next);
    LastWordIsOne(steps, id);
    if event.HandlerCompleted? && |WithCompleted(op).handlerCompleted| == |op.entries| {
      if k: nat :| GivesUp(p, WithCompleted(op), steps, k, next) {
        assert steps == steps[..k] + steps[k..];
        LastWordOfSum(steps[..k], steps[k..], id);
        LastWordIsOne(steps[k..], id);
      }
    }
  }

  /**
   Delivered stays delivered through every piece - calls, handlers, faults, prunes, crashes - except exactly one kind: a
   replay operation that has attempted the row is resumed in a phase, and by an event, that can lead to its catch block,
   and the reset commits.
   */
  lemma DeliveredUnlessPutBack(p: Policy, w: World, a: Piece, r: Row, after: Row)
    requires Sound(p, w) && Possible(p, w, a) && r in w.core.rows && r.state.Delivered?
    requires after in After(p, w, a).core.rows && after.id == r.id
    ensures !after.state.Delivered? <==>
              && a.Resume? && r.id in Latest(w).claimedRowIds
              && ReachesCatchBlock(Latest(w), a.event) && ResetCommits(a.steps)
  {
    PieceRuns(p, w, a);
    DeliveredExactly(p, w.core, StepsOf(a), r, after);
    LastWordIsOne(StepsOf(a), r.id);
    match a
    case Start(pump, event, steps, next) => LastWordOfTurn(p, w.core, FreshOp(pump), event, steps, next, r.id);
    case Resume(event, steps, next) =>
      LastWordOfTurn(p, w.core, Latest(w), event, steps, next, r.id);
      ResetOfTurn(p, w.core, Latest(w), event, steps, next, r.id);
    case _ =>
  }

  /** Over a whole run of the adapter: delivered at the end exactly if the last update that named it delivered it. */
  lemma DeliveredOverRun(p: Policy, w: World, pieces: seq<Piece>, end: World, r: Row, after: Row)
    requires WellFormed(p, w.core) && PossibleAll(p, w, pieces) && end == AfterAll(p, w, pieces)
    requires r in w.core.rows && r.state.Delivered? && after in end.core.rows && after.id == r.id
    ensures var last := LastWord(Trace(pieces), r.id);
            after.state.Delivered? <==> last.None? || last.value.Deliver?
  {
    TraceRuns(p, w, pieces, end);
    DeliveredExactly(p, w.core, Trace(pieces), r, after);
  }

  /** Nothing that keeps a claimed row from coming back by the deadline: no prune, no other claim, no later failure. */
  predicate LeavesAlone(p: Policy, s: Step, deadline: int) {
    !s.MarkDead? && !s.Purge? && !s.Claim? && (s.PutBack? ==> s.now + p.backoff <= deadline)
  }

  /**
   Whatever else befalls the process after a batch is claimed - handlers that complete, fail or hang, notifications
   that fail, acknowledgements and failures cut short, new events, health reports, even a crash - at the first claim
   past the deadline every row of the batch is delivered or eligible again.
   */
  lemma ClaimedBatchComesBack(
    p: Policy, c: Core, claim: Step, w: World, pieces: seq<Piece>, end: World,
    deadline: int, reclaim: int, select: int, r: Row) returns (now: Row)
    requires WellFormed(p, c) && Reclaims(p) && claim.Claim? && claim.limit > 0 && w.core == Next(p, c, claim)
    requires r in Select(Eligible(claim.now), c.rows, claim.limit)
    requires PossibleAll(p, w, pieces) && end == AfterAll(p, w, pieces)
    requires forall s | s in Trace(pieces) :: LeavesAlone(p, s, deadline)
    requires claim.stamp + p.backoff <= deadline <= reclaim <= select
    ensures now in RetryRows(p, end.core, reclaim) && now.id == r.id && now.ingestAt == r.ingestAt
    ensures now.state.Delivered? || now in Ordered(Eligible(select), RetryRows(p, end.core, reclaim))
  {
    TraceRuns(p, w, pieces, end);
    TraceRetriesAfterBackoff(p, w, pieces);
    forall s | s in Trace(pieces) ensures Undisturbed(s, deadline) {
      assert RetriesAfterBackoff(p, s) && LeavesAlone(p, s, deadline);
    }
    now := FailedBatchIsNotStranded(p, c, claim, Trace(pieces), deadline - p.backoff, reclaim, select, r);
  }

  /** Gate safety under the adapter: after a crash over a backlog nothing is accepted before the reservoir was empty. */
  lemma NothingAcceptedBeforeDrained(
    p: Policy, w: World, crashed: World, now: int, pieces: seq<Piece>, end: World, cfg: FlowConfig, h: Health, f: Flags)
    requires WellFormed(p, w.core) && cfg.pauseLive && Possible(p, w, Crash(now)) && crashed == After(p, w, Crash(now))
    requires LiveCount(crashed.core.rows) > 0
    requires PossibleAll(p, crashed, pieces) && end == AfterAll(p, crashed, pieces)
    ensures IngressDecision(cfg, h, end.core.session, f, end.core.rows, Counter(end.core)).action.Accept? ==>
              && ReadEmpty(p, crashed.core, Trace(pieces))
              && (CounterKept(Trace(pieces)) ==> SeenEmpty(p, crashed.core, Trace(pieces)))
  {
    RunsOnce(p, w.core, Restart(now));
    TraceRuns(p, crashed, pieces, end);
    TraceIsOwned(p, crashed, pieces);
    NoLiveFlowBeforeDrained(p, w.core, now, Trace(pieces), cfg, h, f);
  }
}
