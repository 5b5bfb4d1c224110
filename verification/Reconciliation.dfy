/** When a reconcile acts: read off the session, the counter, the runtime's flags and the live rows. */
module Reconciliation {
  import opened Options
  import opened Rows
  import opened Session
  import opened Protocol
  import opened Operations
  import opened Routing
  import opened Adapter

  /** Some live row was buffered for want of a route, or is part of a replay. */
  ghost predicate SomethingToReplay(rows: seq<Row>) {
    exists r :: r in rows && (r.state == Pending || r.state == Replaying) &&
                r.mode in {OrderBufferOnly, FullOutageBuffer, ReplayThroughDedupe}
  }

  /** No replay is under way, and none has been aborted. */
  predicate Resting(s: Session) {
    s.state == Idle || s.state == Failed || s.state == Completed
  }

  /** From idle a replay has to be needed and recovery seen, and there has to be something to replay. */
  ghost predicate WorthQueueing(c: Core, flags: Flags) {
    match c.session.state
    case Idle => flags.recoveryNeeded && flags.transitionSeen && SomethingToReplay(c.rows)
    case Completed => SomethingToReplay(c.rows)
    case Failed => true
    case _ => false
  }

  /** The resting session is queued. */
  ghost predicate Queues(c: Core, flags: Flags) {
    Resting(c.session) && c.session.heartbeats >= c.session.required && Counter(c) != 0 && WorthQueueing(c, flags)
  }

  /** The session under way is claimed for. */
  predicate Claims(c: Core) {
    (c.session.state == Queued || c.session.state == Running) && Counter(c) != 0
  }

  lemma PlanExactly(c: Core, flags: Flags)
    ensures ReconcilePlan(c.session, c.rows, Counter(c), flags) ==
            if Queues(c, flags) then QueueFirst else if Claims(c) then ClaimNow else DoNothing
  {
  }

  lemma ClaimHasSteps(p: Policy, c: Core, limit: int, t: Times)
    ensures QueueSession(t.queue) in QueuedClaimSteps(p, c, limit, t)
    ensures !ClaimNextBatch(p, Next(p, c, QueueSession(t.queue)), limit, t).thrown ==>
              Step.Claim(limit, t.select, t.stamp) in QueuedClaimSteps(p, c, limit, t)
  {
    var queued := Next(p, c, QueueSession(t.queue));
    var claim := ClaimSteps(p, queued, limit, t);
    assert QueuedClaimSteps(p, c, limit, t)[0] == QueueSession(t.queue);
    if !ClaimNextBatch(p, queued, limit, t).thrown {
      var i := if queued.session.state.Queued? then 2 else 1;
      assert claim[i] == Step.Claim(limit, t.select, t.stamp);
      assert QueuedClaimSteps(p, c, limit, t)[i + 1] == claim[i];
    }
  }

  lemma ClaimingTurn(p: Policy, c: Core, op: Op, limit: int, t: Times, steps: seq<Step>, next: Op)
    requires (steps == [] && next == Settle(op, Rejected)) || ClaimTurn(p, c, op, limit, t, steps, next)
    ensures next.phase != Settled(Rejected) ==>
              next.phase == Claimed && QueueSession(t.queue) in steps && Step.Claim(limit, t.select, t.stamp) in steps
  {
    ClaimHasSteps(p, c, limit, t);
  }

  /**
   What a reconcile does, in every case and whatever fails. A resting session is queued, and nothing more, if the
   required heartbeats have confirmed recovery, the counter is not zero and it is worth it. A session under way is
   claimed for if the counter is not zero. Nothing else happens; in particular an unconfirmed resting session, and an
   aborted one, stay as they are.
   */
  lemma ReconcileActsExactly(p: Policy, w: World, event: Event, steps: seq<Step>, next: Op)
    requires Possible(p, w, Piece.Start(false, event, steps, next))
    ensures var queues, claims := Queues(w.core, event.flags), Claims(w.core);
            && (!queues && !claims ==> steps == [])
            && (queues ==> if next.phase == Settled(Rejected) then steps == []
                           else steps == [QueueSession(event.times.queue)] && next.phase == Queueing)
            && (claims && next.phase != Settled(Rejected) ==>
                  next.phase == Claimed && QueueSession(event.times.queue) in steps &&
                  Step.Claim(event.limit, event.times.select, event.times.stamp) in steps)
            && (!queues && !claims && next.phase != Settled(Rejected) ==> next.phase == Settled(Nothing))
  {
    var c, t := w.core, event.times;
    assert ReconcileTurn(p, c, FreshOp(false), event.limit, t, event.flags, steps, next);
    PlanExactly(c, event.flags);
    if Claims(c) {
      ClaimingTurn(p, c, FreshOp(false), event.limit, t, steps, next);
    }
  }

  lemma UnconfirmedSessionRests(p: Policy, w: World, event: Event, steps: seq<Step>, next: Op)
    requires Possible(p, w, Piece.Start(false, event, steps, next))
    requires Resting(w.core.session) && w.core.session.heartbeats < w.core.session.required
    ensures steps == [] && After(p, w, Piece.Start(false, event, steps, next)).core == w.core
  {
    ReconcileActsExactly(p, w, event, steps, next);
  }
}
