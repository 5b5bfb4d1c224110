/**
 The transport adapter object. Its asynchronous methods are cut at their awaits: each method here is one uninterrupted
 piece of the repository's code, an operation record holds what the suspended code has in its local variables, and each
 method makes exactly one piece of the adapter machine happen.
 */
module TransportAdapter {
  import opened Options
  import opened Rows
  import opened Store
  import opened Session
  import opened Protocol
  import opened Operations
  import opened Routing
  import opened Reservoir
  import opened Coordinator
  import opened Runtime
  import opened Ledger
  import opened Adapter

  /** How the promise of `ingest` ends once the event has been forwarded. */
  datatype Delivery = Acknowledged | Indeterminate

  class TransportMonitorAdapter {
    const runtime: MonitorRuntime
    /** The replay operations begun so far, by number; a caller's promise is the number of its operation. */
    var operations: seq<Op>
    var activeReplayOperation: Option<nat>
    /** Rows forwarded by `ingest` whose handler has not settled. */
    var liveDeliveries: set<nat>
    ghost var ledger: Ledger

    ghost function View(): World
      reads this, runtime, runtime.replay, runtime.replay.reservoir
    {
      World(runtime.View(), ledger, operations, activeReplayOperation, liveDeliveries)
    }

    ghost predicate Valid()
      reads this, runtime, runtime.replay, runtime.replay.reservoir, runtime.reservoir
    {
      runtime.Valid() && Sound(runtime.policy, View())
    }

    ghost function Clock(): int
      reads this, runtime, runtime.replay
    {
      runtime.replay.clock
    }

    /** A process that comes up after the last one has gone, in whatever world that left behind. */
    constructor (runtime: MonitorRuntime, ghost before: World, ghost now: int)
      requires runtime.Valid() && runtime.replayOwner == None
      requires Sound(runtime.policy, before) && before.core.clock <= now
      requires runtime.View() == Next(runtime.policy, before.core, Restart(now))
      modifies runtime`replayOwner
      ensures Valid() && View() == After(runtime.policy, before, Crash(now)) && this.runtime == runtime
      ensures runtime.replayOwner == Some(Owner.Adapter)
      ensures operations == [] && activeReplayOperation == None && liveDeliveries == {}
    {
      this.runtime := runtime;
      operations, activeReplayOperation, liveDeliveries := [], None, {};
      ledger := before.ledger;
      new;
      runtime.replayOwner := Some(Owner.Adapter);
      RunsOnce(runtime.policy, before.core, Restart(now));
      PieceIsSound(runtime.policy, before, Crash(now));
      BookedOnce(runtime.policy, before.core, Restart(now), before.ledger);
    }

    // ------------------------------------------------------------ live events

    /** Books an event just persisted and forwards it, if it is accepted. */
    method Forward(row: nat, accepted: bool, ghost before: World, ghost step: Step)
      requires runtime.Valid() && Sound(runtime.policy, before) && row == before.core.nextId
      requires step.Append? && step.ingress.source.TransportStream? && Ordinary(step.ingress)
      requires View() == before.(core := runtime.View()) && IsRun(runtime.policy, before.core, [step], runtime.View())
      modifies this`liveDeliveries, this`ledger
      ensures Valid() && Possible(runtime.policy, before, Admit(step, accepted))
      ensures View() == After(runtime.policy, before, Admit(step, accepted))
    {
      ledger := Booked(runtime.policy, before.core, [step], ledger);
      if accepted {
        liveDeliveries := liveDeliveries + {row};
      }
      AdmitDone(runtime.policy, before, View(), step, accepted);
    }

    /** Persists the event, then forwards it unless the decision buffers it. */
    method Ingest(payload: string, ingestedAt: Option<int>, reading: Option<nat>, now: int)
      returns (r: Result<(nat, Decision), RuntimeError>, ghost piece: Piece)
      requires Valid() && Clock() <= now
      modifies this`liveDeliveries, this`ledger, runtime`throttleTier, runtime.replay`clock, runtime.reservoir
      ensures Valid() && Possible(runtime.policy, old(View()), piece)
      ensures View() == After(runtime.policy, old(View()), piece)
      ensures r.Err? ==> piece == Elsewhere([Fault(View().core.drift)])
      ensures r.Ok? ==> piece.Admit?
      ensures r.Ok? ==> r.value.0 == old(View()).core.nextId && piece.forward == r.value.1.action.Accept?
      ensures liveDeliveries ==
              old(liveDeliveries) + if r.Ok? && r.value.1.action == Accept then {r.value.0} else {}
    {
      ghost var before := View();
      ghost var steps;
      r, steps := runtime.IngestTransportEvent(payload, ingestedAt, reading, now);
      if r.Ok? {
        var row, decision := r.value.0, r.value.1;
        Forward(row, decision.action.Accept?, before, steps[0]);
        piece := Admit(steps[0], decision.action.Accept?);
      } else {
        ledger := Booked(runtime.policy, before.core, steps, ledger);
        piece := Elsewhere(steps);
        ElsewhereDone(runtime.policy, before, View(), steps);
      }
    }

    /** The handler of a forwarded event settles; a completed one is acknowledged on the spot. */
    method LiveDeliverySettles(row: nat, completed: bool, now: int) returns (r: Delivery, ghost piece: Piece)
      requires Valid() && Clock() <= now && row in liveDeliveries
      modifies this`liveDeliveries, this`ledger, runtime.replay`clock, runtime.reservoir`db,
               runtime.reservoir`pendingRowCount, runtime.reservoir`issued, runtime.reservoir`raised
      ensures Valid() && Possible(runtime.policy, old(View()), piece)
      ensures View() == After(runtime.policy, old(View()), piece)
      ensures if completed then piece.LiveCompleted? && piece.row == row else piece == LiveRejected(row)
      ensures liveDeliveries == old(liveDeliveries) - {row}
      ensures r.Acknowledged? ==>
                completed && View().core == Next(runtime.policy, old(View()).core, Deliver({row}, now))
    {
      ghost var before := View();
      liveDeliveries := liveDeliveries - {row};
      r, piece := Indeterminate, LiveRejected(row);
      if completed {
        var acknowledged; ghost var steps;
        assert Unique([row]) == {row};
        acknowledged, steps := runtime.AcknowledgeIngressDelivery([row], now);
        ledger := Booked(runtime.policy, before.core, steps, Completing(before, row).ledger);
        piece := LiveCompleted(row, steps);
        r := if acknowledged.Ok? then Acknowledged else Indeterminate;
        LiveDone(runtime.policy, before, View(), row, steps);
      }
    }

    // ------------------------------------------------------------ replay, piece by piece

    method ClaimPiece(op: Op, limit: int, t: Times) returns (next: Op, ghost steps: seq<Step>)
      requires runtime.Valid() && InOrder(t) && Clock() <= t.queue
      modifies runtime`replayOwner, runtime.replay`session, runtime.replay`clock, runtime.reservoir`db,
               runtime.reservoir`pendingRowCount, runtime.reservoir`issued, runtime.reservoir`raised
      ensures runtime.Valid() && IsRun(runtime.policy, old(runtime.View()), steps, runtime.View())
      ensures ClaimTurn(runtime.policy, old(runtime.View()), op, limit, t, steps, next)
    {
      var batch;
      batch, steps := runtime.ClaimReplayBatch(Owner.Adapter, limit, t);
      next := if batch.Err? then Settle(op, Rejected) else op.(entries := batch.value.entries, phase := Phase.Claimed);
    }

    /** The catch block of a batch. */
    method FailPiece(op: Op, message: string, now: int) returns (next: Op, ghost steps: seq<Step>)
      requires runtime.Valid() && Clock() <= now
      modifies runtime`replayOwner, runtime.replay`session, runtime.replay`clock, runtime.reservoir`db,
               runtime.reservoir`pendingRowCount, runtime.reservoir`issued, runtime.reservoir`raised
      ensures runtime.Valid() && IsRun(runtime.policy, old(runtime.View()), steps, runtime.View())
      ensures FailTurn(runtime.policy, op, steps, next)
    {
      var failed; ghost var reset;
      failed, steps, reset := runtime.FailReplay(Owner.Adapter, message, op.claimedRowIds, now);
      next := if failed.Err? then Settle(op, Rejected) else op.(phase := ReportingFailure);
    }

    /** After the last handler of a batch. */
    method AcknowledgePiece(op: Op, message: string, now: int, finish: int, failure: int)
      returns (next: Op, ghost steps: seq<Step>)
      requires runtime.Valid() && Clock() <= now <= finish <= failure
      modifies runtime`replayOwner, runtime.replay`session, runtime.replay`clock, runtime.reservoir`db,
               runtime.reservoir`pendingRowCount, runtime.reservoir`issued, runtime.reservoir`raised
      ensures runtime.Valid() && IsRun(runtime.policy, old(runtime.View()), steps, runtime.View())
      ensures AcknowledgeTurn(runtime.policy, op, steps, next)
    {
      var acknowledged; ghost var first, more;
      acknowledged, first := runtime.AcknowledgeReplayBatch(Owner.Adapter, op.claimedRowIds, now, finish);
      steps := first;
      if acknowledged.Ok? {
        next := op.(phase := ReportingDelivery);
        AcknowledgementGoesThrough(runtime.policy, old(runtime.View()), op.claimedRowIds, now, finish);
      } else {
        ghost var mid := runtime.View();
        next, more := FailPiece(op, message, failure);
        RunsThen(runtime.policy, old(runtime.View()), first, mid, more, runtime.View());
        steps := first + more;
        AcknowledgementCutShort(runtime.policy, op, first, more, next);
      }
    }

    /** The beginning of a reconcile. */
    method ReconcilePiece(op: Op, limit: int, t: Times) returns (next: Op, ghost steps: seq<Step>)
      requires runtime.Valid() && InOrder(t) && Clock() <= t.queue
      modifies runtime`replayOwner, runtime.replay`session, runtime.replay`clock, runtime.reservoir`db,
               runtime.reservoir`pendingRowCount, runtime.reservoir`issued, runtime.reservoir`raised
      ensures runtime.Valid() && IsRun(runtime.policy, old(runtime.View()), steps, runtime.View())
      ensures ReconcileTurn(runtime.policy, old(runtime.View()), op, limit, t, runtime.CurrentFlags(), steps, next)
    {
      steps := [];
      var session := runtime.replay.session;
      var stats := runtime.reservoir.GetStats(t.queue, t.queue);
      if stats.Err? { return Settle(op, Rejected), steps; }
      var eligible := ReplayableIn(stats.value.byMode);
      if stats.value.totalPending == 0 { return Settle(op, Nothing), steps; }
      if session.state.Idle? && (!runtime.recoveryReplayNeeded || !runtime.observedRecoveryTransition || !eligible) {
        return Settle(op, Nothing), steps;
      }
      if session.state.Completed? && !eligible { return Settle(op, Nothing), steps; }
      if session.state.Idle? || session.state.Failed? || session.state.Completed? {
        if !Confirmed(session) { return Settle(op, Nothing), steps; }
        var queued;
        queued, steps := runtime.QueueReplay(Owner.Adapter, t.queue);
        next := if queued.Err? then Settle(op, Rejected) else op.(phase := Queueing);
        return;
      }
      if !session.state.Queued? && !session.state.Running? { return Settle(op, Nothing), steps; }
      next, steps := ClaimPiece(op, limit, t);
    }

    /** The first, synchronous part of an operation. */
    method StartPiece(pump: bool, limit: int, t: Times) returns (next: Op, ghost steps: seq<Step>)
      requires runtime.Valid() && InOrder(t) && Clock() <= t.queue
      modifies runtime`replayOwner, runtime.replay`session, runtime.replay`clock, runtime.reservoir`db,
               runtime.reservoir`pendingRowCount, runtime.reservoir`issued, runtime.reservoir`raised
      ensures runtime.Valid() && IsRun(runtime.policy, old(runtime.View()), steps, runtime.View())
      ensures var event := Begin(limit, t, runtime.CurrentFlags());
              Turn(runtime.policy, old(runtime.View()), FreshOp(pump), event, steps, next)
    {
      if pump {
        next, steps := ClaimPiece(FreshOp(true), limit, t);
      } else {
        next, steps := ReconcilePiece(FreshOp(false), limit, t);
      }
    }

    /** Takes the slot for an operation that has reached its first await, and books what it has done so far. */
    method StoreStart(next: Op, ghost before: World, ghost pump: bool, ghost event: Event, ghost steps: seq<Step>)
      requires runtime.Valid() && Sound(runtime.policy, before) && before.slot.None? && event.Begin?
      requires Turn(runtime.policy, before.core, FreshOp(pump), event, steps, next)
      requires View() == before.(core := runtime.View()) && IsRun(runtime.policy, before.core, steps, runtime.View())
      modifies this`operations, this`activeReplayOperation, this`ledger
      ensures Valid() && Possible(runtime.policy, before, Piece.Start(pump, event, steps, next))
      ensures View() == After(runtime.policy, before, Piece.Start(pump, event, steps, next))
    {
      activeReplayOperation := Some(|operations|);
      operations := operations + [next];
      ledger := Booked(runtime.policy, before.core, steps, ledger);
      StartDone(runtime.policy, before, View(), pump, event, steps, next);
    }

    /**
     Runs a replay operation, or joins the one in flight: an overlapping call is given the operation that holds the slot
     and changes nothing.
     */
    method RunReplayOperation(pump: bool, limit: int, t: Times) returns (operation: nat, ghost piece: Piece)
      requires Valid() && InOrder(t) && Clock() <= t.queue
      modifies this`operations, this`activeReplayOperation, this`ledger,
               runtime`replayOwner, runtime.replay`session, runtime.replay`clock, runtime.reservoir`db,
               runtime.reservoir`pendingRowCount, runtime.reservoir`issued, runtime.reservoir`raised
      ensures Valid() && activeReplayOperation == Some(operation)
      ensures old(activeReplayOperation).Some? ==>
                operation == old(activeReplayOperation).value && View() == old(View())
      ensures old(activeReplayOperation).None? ==>
                && operation == |old(operations)| && piece.Start? && piece.pump == pump
                && Possible(runtime.policy, old(View()), piece)
                && View() == After(runtime.policy, old(View()), piece)
    {
      piece := Release;
      if activeReplayOperation.Some? { return activeReplayOperation.value, piece; }
      ghost var before := View();
      ghost var event := Begin(limit, t, runtime.CurrentFlags());
      var next; ghost var steps;
      next, steps := StartPiece(pump, limit, t);
      piece := Piece.Start(pump, event, steps, next);
      operation := |operations|;
      StoreStart(next, before, pump, event, steps);
    }

    /** Stores the resumed operation and books what the resumption did. */
    method StoreTurn(next: Op, ghost before: World, ghost event: Event, ghost steps: seq<Step>)
      requires runtime.Valid() && Sound(runtime.policy, before) && !event.Begin?
      requires |before.ops| > 0 && Unsettled(Latest(before))
      requires Turn(runtime.policy, before.core, Latest(before), event, steps, next)
      requires View() == before.(core := runtime.View()) && IsRun(runtime.policy, before.core, steps, runtime.View())
      modifies this`operations, this`ledger
      ensures Valid() && Possible(runtime.policy, before, Piece.Resume(event, steps, next))
      ensures View() == After(runtime.policy, before, Piece.Resume(event, steps, next))
    {
      ledger := Booked(runtime.policy, before.core, steps, Heard(before, Latest(before), event).ledger);
      operations := operations[|operations| - 1 := next];
      ResumeDone(runtime.policy, before, View(), event, steps, next);
    }

    /** What a settled notification leads to. */
    method NotifiedPiece(op: Op, accepted: bool, limit: int, t: Times, message: string)
      returns (next: Op, ghost steps: seq<Step>)
      requires runtime.Valid() && InOrder(t) && Clock() <= t.queue
      requires Unsettled(op) && !op.phase.Fresh? && !op.phase.Delivering?
      modifies runtime`replayOwner, runtime.replay`session, runtime.replay`clock, runtime.reservoir`db,
               runtime.reservoir`pendingRowCount, runtime.reservoir`issued, runtime.reservoir`raised
      ensures runtime.Valid() && IsRun(runtime.policy, old(runtime.View()), steps, runtime.View())
      ensures var event := if accepted then Notified(limit, t) else NotifyRejected;
              Turn(runtime.policy, old(runtime.View()), op, event, steps, next)
    {
      steps := [];
      if !accepted {
        if op.phase.ReportingDelivery? {
          next, steps := FailPiece(op, message, t.queue);
        } else {
          next := Settle(op, Rejected);
        }
        return;
      }
      match op.phase
      case Queueing =>
        if runtime.replay.session.state.Queued? || runtime.replay.session.state.Running? {
          next, steps := ClaimPiece(op, limit, t);
        } else {
          next := Settle(op, Nothing);
        }
      case Claimed =>
        next := if |op.handlerCompleted| < |op.entries| then NextEntry(op) else op.(phase := Emptied);
      case Emptied => next := Settle(op, Empty);
      case ReportingDelivery => next := Settle(op, DeliveredBatch(|op.claimedRowIds|));
      case ReportingFailure => next := Settle(op, FailedBatch(|op.claimedRowIds|));
    }

    /** The suspended operation resumes after `onReplayStateChange` has settled. */
    method ReplayNotified(accepted: bool, limit: int, t: Times, message: string) returns (ghost piece: Piece)
      requires Valid() && InOrder(t) && Clock() <= t.queue
      requires |operations| > 0 && Unsettled(operations[|operations| - 1])
      requires !operations[|operations| - 1].phase.Delivering?
      modifies this`operations, this`ledger,
               runtime`replayOwner, runtime.replay`session, runtime.replay`clock, runtime.reservoir`db,
               runtime.reservoir`pendingRowCount, runtime.reservoir`issued, runtime.reservoir`raised
      ensures Valid() && piece.Resume? && Possible(runtime.policy, old(View()), piece)
      ensures View() == After(runtime.policy, old(View()), piece)
      ensures piece.event == if accepted then Notified(limit, t) else NotifyRejected
    {
      ghost var before := View();
      var op := operations[|operations| - 1];
      assert op in operations;
      var next; ghost var steps;
      next, steps := NotifiedPiece(op, accepted, limit, t, message);
      piece := Piece.Resume(if accepted then Notified(limit, t) else NotifyRejected, steps, next);
      StoreTurn(next, before, piece.event, steps);
    }

    /** What a settled handler leads to: the next entry, the acknowledgement, or the catch block. */
    method HandledPiece(op: Op, completed: bool, message: string, now: int, finish: int, failure: int)
      returns (next: Op, ghost steps: seq<Step>)
      requires runtime.Valid() && Clock() <= now <= finish <= failure
      requires op.phase.Delivering? && |op.handlerCompleted| < |op.entries|
      modifies runtime`replayOwner, runtime.replay`session, runtime.replay`clock, runtime.reservoir`db,
               runtime.reservoir`pendingRowCount, runtime.reservoir`issued, runtime.reservoir`raised
      ensures runtime.Valid() && IsRun(runtime.policy, old(runtime.View()), steps, runtime.View())
      ensures var event := if completed then HandlerCompleted else HandlerRejected;
              Turn(runtime.policy, old(runtime.View()), op, event, steps, next)
    {
      steps := [];
      if !completed {
        next, steps := FailPiece(op, message, failure);
        return;
      }
      var done := WithCompleted(op);
      if |done.handlerCompleted| < |done.entries| {
        next := NextEntry(done);
      } else {
        next, steps := AcknowledgePiece(done, message, now, finish, failure);
      }
    }

    /** One turn of the batch loop: the handler of the active entry has settled. */
    method DeliverySettles(completed: bool, message: string, now: int, finish: int, failure: int)
      returns (ghost piece: Piece)
      requires Valid() && Clock() <= now <= finish <= failure
      requires |operations| > 0 && operations[|operations| - 1].phase.Delivering?
      modifies this`operations, this`ledger,
               runtime`replayOwner, runtime.replay`session, runtime.replay`clock, runtime.reservoir`db,
               runtime.reservoir`pendingRowCount, runtime.reservoir`issued, runtime.reservoir`raised
      ensures Valid() && piece.Resume? && Possible(runtime.policy, old(View()), piece)
      ensures View() == After(runtime.policy, old(View()), piece)
      ensures piece.event == if completed then HandlerCompleted else HandlerRejected
    {
      ghost var before := View();
      var op := operations[|operations| - 1];
      assert op in operations;
      var next; ghost var steps;
      next, steps := HandledPiece(op, completed, message, now, finish, failure);
      piece := Piece.Resume(if completed then HandlerCompleted else HandlerRejected, steps, next);
      StoreTurn(next, before, piece.event, steps);
    }

    /** The reaction on the settled operation, on success and on failure alike. */
    method ReleaseSlot()
      requires Valid() && |operations| > 0 && !Unsettled(operations[|operations| - 1])
      requires activeReplayOperation == Some(|operations| - 1)
      modifies this`activeReplayOperation
      ensures Valid() && activeReplayOperation == None
      ensures Possible(runtime.policy, old(View()), Release) && View() == After(runtime.policy, old(View()), Release)
    {
      PieceIsSound(runtime.policy, View(), Release);
      activeReplayOperation := None;
    }

    // ------------------------------------------------------------ everything else the runtime is asked to do

    method PruneReservoir(reclaim: int, now: int, stamp: int)
      returns (r: Result<PruneResult, RuntimeError>, ghost piece: Piece)
      requires Valid() && Clock() <= reclaim <= now <= stamp
      modifies this`ledger, runtime.replay`clock, runtime.reservoir`db, runtime.reservoir`pendingRowCount,
               runtime.reservoir`issued, runtime.reservoir`raised
      ensures Valid() && piece.Elsewhere? && Possible(runtime.policy, old(View()), piece)
      ensures View() == After(runtime.policy, old(View()), piece)
    {
      ghost var before := View();
      ghost var steps;
      r, steps := runtime.PruneReservoir(reclaim, now, stamp);
      piece := Elsewhere(steps);
      ledger := Booked(runtime.policy, before.core, steps, ledger);
      ElsewhereDone(runtime.policy, before, View(), steps);
    }

    method UpdateComponentHealth(component: Component, state: HealthState, now: int)
      returns (r: Result<(), RuntimeError>, ghost piece: Piece)
      requires Valid()
      modifies this`ledger, runtime`health, runtime`throttleTier, runtime`observedRecoveryTransition,
               runtime`recoveryReplayNeeded, runtime`startupHealthEvidence, runtime`startupHealthReady,
               runtime.replay`session, runtime.replay`clock, runtime.reservoir`issued, runtime.reservoir`raised
      ensures Valid() && piece.Elsewhere? && Possible(runtime.policy, old(View()), piece)
      ensures View() == After(runtime.policy, old(View()), piece)
    {
      ghost var before := View();
      ghost var steps;
      r, steps := runtime.UpdateComponentHealth(component, state, now);
      piece := Elsewhere(steps);
      ledger := Booked(runtime.policy, before.core, steps, ledger);
      ElsewhereDone(runtime.policy, before, View(), steps);
    }
  }
}
