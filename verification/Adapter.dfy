/**
 The transport adapter as a machine over the protocol: replay operations suspended at their awaits, live deliveries in
 flight, whatever else the runtime is asked to do in between, and crashes. One `Piece` is one uninterrupted piece of
 the code.
 */
module Adapter {
  import opened Options
  import opened Rows
  import opened Store
  import opened Session
  import opened Protocol
  import opened Operations
  import O = Operations
  import opened Routing
  import opened Ledger

  datatype Outcome = Nothing | Empty | DeliveredBatch(count: nat) | FailedBatch(count: nat) | Rejected

  /** Where a replay operation is suspended: before it has run, at one of its awaits, or settled. */
  datatype Phase =
    | Fresh(pump: bool)
    | Queueing
    | Claimed
    | Emptied
    | Delivering
    | ReportingDelivery
    | ReportingFailure
    | Settled(outcome: Outcome)

  /** A replay operation: its batch, the rows it has attempted and the entries whose handler has completed. */
  datatype Op = Op(entries: seq<Entry>, claimedRowIds: seq<nat>, handlerCompleted: seq<Entry>, phase: Phase)

  /** What wakes an operation up; a claim needs a limit and clock readings. */
  datatype Event =
    | Begin(limit: int, times: Times, flags: Flags)
    | Notified(limit: int, times: Times)
    | NotifyRejected
    | HandlerCompleted
    | HandlerRejected

  datatype World = World(core: Core, ledger: Ledger, ops: seq<Op>, slot: Option<nat>, live: set<nat>)

  datatype Piece =
    | Elsewhere(steps: seq<Step>)
    | Admit(step: Step, forward: bool)
    | LiveCompleted(row: nat, steps: seq<Step>)
    | LiveRejected(row: nat)
    | Start(pump: bool, event: Event, steps: seq<Step>, next: Op)
    | Resume(event: Event, steps: seq<Step>, next: Op)
    | Release
    | Crash(now: int)

  function FreshOp(pump: bool): Op {
    Op([], [], [], Fresh(pump))
  }

  function Settle(op: Op, outcome: Outcome): Op {
    op.(phase := Settled(outcome))
  }

  // ---------------------------------------------------------------- one piece of an operation

  /** The claim: the batch it returns, or nothing but a rejected operation. */
  ghost predicate ClaimTurn(p: Policy, c: Core, op: Op, limit: int, t: Times, steps: seq<Step>, next: Op) {
    && (forall s | s in steps :: Claiming(s))
    && (next == Settle(op, Rejected) ||
        var result := O.ClaimNextBatch(p, Next(p, c, QueueSession(t.queue)), limit, t);
        && !result.thrown && Exec(p, c, steps) == result.core && steps == QueuedClaimSteps(p, c, limit, t)
        && next == op.(entries := result.entries, phase := Claimed))
  }

  datatype Plan = DoNothing | QueueFirst | ClaimNow

  /** What a reconcile makes of the session, the backlog and the runtime's flags. */
  function ReconcilePlan(s: Session, rows: seq<Row>, pending: int, flags: Flags): Plan {
    var resting := s.state.Idle? || s.state.Failed? || s.state.Completed?;
    var eligible := HasReplayableBacklog(rows);
    if pending == 0 then DoNothing
    else if s.state.Idle? && (!flags.recoveryNeeded || !flags.transitionSeen || !eligible) then DoNothing
    else if s.state.Completed? && !eligible then DoNothing
    else if resting && !Confirmed(s) then DoNothing
    else if resting then QueueFirst
    else if s.state.Queued? || s.state.Running? then ClaimNow
    else DoNothing
  }

  /** The beginning of a reconcile, up to its first await. */
  ghost predicate ReconcileTurn(
    p: Policy, c: Core, op: Op, limit: int, t: Times, flags: Flags, steps: seq<Step>, next: Op)
  {
    || (steps == [] && next == Settle(op, Rejected))
    || match ReconcilePlan(c.session, c.rows, Counter(c), flags)
       case DoNothing => steps == [] && next == Settle(op, Nothing)
       case QueueFirst => steps == [QueueSession(t.queue)] && next == op.(phase := Queueing)
       case ClaimNow => ClaimTurn(p, c, op, limit, t, steps, next)
  }

  /** The next entry goes to its handler. */
  function NextEntry(op: Op): Op
    requires |op.handlerCompleted| < |op.entries|
  {
    op.(claimedRowIds := op.claimedRowIds + [op.entries[|op.handlerCompleted|].rowId], phase := Delivering)
  }

  function WithCompleted(op: Op): Op
    requires |op.handlerCompleted| < |op.entries|
  {
    op.(handlerCompleted := op.handlerCompleted + [op.entries[|op.handlerCompleted|]])
  }

  /** A failure that goes through: the rows go back with a deadline, and then the session waits for it. */
  predicate FailedThrough(p: Policy, ids: set<nat>, steps: seq<Step>) {
    && |steps| == 2 && steps[0].PutBack? && steps[1].FailSession?
    && steps[0].ids == ids && steps[0].retry == Some(steps[0].now + p.backoff) && steps[1].now == steps[0].now
  }

  /** An acknowledgement that goes through: the rows, the tally, and the end of the session if it is drained. */
  predicate AcknowledgedThrough(ids: set<nat>, steps: seq<Step>) {
    && 2 <= |steps| <= 3 && steps[0].Deliver? && steps[0].ids == ids && steps[1].TallySession?
    && (|steps| == 3 ==> steps[2].FinishSession?)
  }

  /** The catch block: the attempted rows go back with a deadline, unless a fault cuts it short. */
  ghost predicate FailTurn(p: Policy, op: Op, steps: seq<Step>, next: Op) {
    var ids := Unique(op.claimedRowIds);
    && (forall s | s in steps :: Failing(p, s, ids))
    && (next == Settle(op, Rejected) || (next == op.(phase := ReportingFailure) && FailedThrough(p, ids, steps)))
  }

  /** The acknowledgement has been cut short after `k` of the steps, and the rest is the catch block. */
  ghost predicate GivesUp(p: Policy, op: Op, steps: seq<Step>, k: nat, next: Op) {
    && k <= |steps| && (forall s | s in steps[..k] :: Acknowledging(s, Unique(op.claimedRowIds)))
    && FailTurn(p, op, steps[k..], next)
  }

  /** After the last handler: the acknowledgement, and the catch block if it is cut short. */
  ghost predicate AcknowledgeTurn(p: Policy, op: Op, steps: seq<Step>, next: Op) {
    || (next == op.(phase := ReportingDelivery) && AcknowledgedThrough(Unique(op.claimedRowIds), steps))
    || exists k: nat :: GivesUp(p, op, steps, k, next)
  }

  lemma AcknowledgementGoesThrough(p: Policy, c: Core, ids: seq<nat>, now: int, finish: int)
    ensures AcknowledgedThrough(Unique(ids), AcknowledgeSteps(p, c, ids, now, finish))
  {
  }

  lemma AcknowledgementCutShort(p: Policy, op: Op, first: seq<Step>, more: seq<Step>, next: Op)
    requires (forall s | s in first :: Acknowledging(s, Unique(op.claimedRowIds))) && FailTurn(p, op, more, next)
    ensures AcknowledgeTurn(p, op, first + more, next)
  {
    assert (first + more)[..|first|] == first && (first + more)[|first|..] == more;
    assert GivesUp(p, op, first + more, |first|, next);
  }

  /** What an operation may do when an event wakes it up. */
  ghost predicate Turn(p: Policy, c: Core, op: Op, event: Event, steps: seq<Step>, next: Op) {
    match event
    case Begin(limit, t, flags) =>
      op.phase.Fresh? &&
      if op.phase.pump then ClaimTurn(p, c, op, limit, t, steps, next)
      else ReconcileTurn(p, c, op, limit, t, flags, steps, next)
    case Notified(limit, t) =>
      (match op.phase
       case Queueing =>
         if c.session.state.Queued? || c.session.state.Running? then ClaimTurn(p, c, op, limit, t, steps, next)
         else steps == [] && next == Settle(op, Nothing)
       case Claimed =>
         steps == [] && next == if |op.handlerCompleted| < |op.entries| then NextEntry(op) else op.(phase := Emptied)
       case Emptied => steps == [] && next == Settle(op, Empty)
       case ReportingDelivery => steps == [] && next == Settle(op, DeliveredBatch(|op.claimedRowIds|))
       case ReportingFailure => steps == [] && next == Settle(op, FailedBatch(|op.claimedRowIds|))
       case _ => false)
    case NotifyRejected =>
      (match op.phase
       case ReportingDelivery => FailTurn(p, op, steps, next)
       case Queueing => steps == [] && next == Settle(op, Rejected)
       case Claimed => steps == [] && next == Settle(op, Rejected)
       case Emptied => steps == [] && next == Settle(op, Rejected)
       case ReportingFailure => steps == [] && next == Settle(op, Rejected)
       case _ => false)
    case HandlerCompleted =>
      op.phase.Delivering? && |op.handlerCompleted| < |op.entries| &&
      var done := WithCompleted(op);
      if |done.handlerCompleted| < |done.entries| then steps == [] && next == NextEntry(done)
      else AcknowledgeTurn(p, done, steps, next)
    case HandlerRejected => op.phase.Delivering? && FailTurn(p, op, steps, next)
  }

  // ---------------------------------------------------------------- the world

  /** Calls of the runtime that are not the adapter's replay: health, retention, and events reported by dedupe. */
  predicate ByOthers(s: Step) {
    Confirming(s) || s.Reclaim? || s.MarkDead? || s.Purge? || s.Fault? || (s.Append? && Ordinary(s.ingress))
  }

  predicate Unsettled(op: Op) {
    !op.phase.Settled?
  }

  ghost predicate Possible(p: Policy, w: World, a: Piece) {
    match a
    case Elsewhere(steps) => Allowed(p, w.core, steps) && forall s | s in steps :: ByOthers(s)
    case Admit(step, forward) =>
      step.Append? && step.ingress.source.TransportStream? && Ordinary(step.ingress) && Enabled(p, w.core, step)
    case LiveCompleted(row, steps) =>
      row in w.live && Allowed(p, w.core, steps) && forall s | s in steps :: s.Fault? || (s.Deliver? && s.ids == {row})
    case LiveRejected(row) => row in w.live
    case Start(pump, event, steps, next) =>
      w.slot.None? && event.Begin? && Allowed(p, w.core, steps) && Turn(p, w.core, FreshOp(pump), event, steps, next)
    case Resume(event, steps, next) =>
      && |w.ops| > 0 && Unsettled(Latest(w)) && !event.Begin?
      && Allowed(p, w.core, steps) && Turn(p, w.core, Latest(w), event, steps, next)
    case Release => |w.ops| > 0 && !Unsettled(Latest(w)) && w.slot == Some(|w.ops| - 1)
    case Crash(now) => w.core.clock <= now
  }

  /** The core and the ledger move together. */
  function Moved(p: Policy, w: World, steps: seq<Step>): World {
    w.(core := Exec(p, w.core, steps), ledger := Booked(p, w.core, steps, w.ledger))
  }

  function Completing(w: World, row: nat): World {
    w.(ledger := w.ledger.(completed := w.ledger.completed + {row}))
  }

  /** The row whose handler an event reports complete. */
  function CompletedRow(op: Op, event: Event): Option<nat> {
    if event.HandlerCompleted? && |op.handlerCompleted| < |op.entries| then
      Some(op.entries[|op.handlerCompleted|].rowId)
    else None
  }

  /** The world that has heard of the event: a completed handler is in the ledger before anything follows from it. */
  function Heard(w: World, op: Op, event: Event): World {
    var row := CompletedRow(op, event);
    if row.Some? then Completing(w, row.value) else w
  }

  function Latest(w: World): Op
    requires |w.ops| > 0
  {
    w.ops[|w.ops| - 1]
  }

  function After(p: Policy, w: World, a: Piece): World {
    match a
    case Elsewhere(steps) => Moved(p, w, steps)
    case Admit(step, forward) =>
      Moved(p, w, [step]).(live := if forward then w.live + {w.core.nextId} else w.live)
    case LiveCompleted(row, steps) => Moved(p, Completing(w, row), steps).(live := w.live - {row})
    case LiveRejected(row) => w.(live := w.live - {row})
    case Start(pump, event, steps, next) => Moved(p, w, steps).(ops := w.ops + [next], slot := Some(|w.ops|))
    case Resume(event, steps, next) =>
      if |w.ops| == 0 then w else
        Moved(p, Heard(w, Latest(w), event), steps).(ops := w.ops[|w.ops| - 1 := next])
    case Release => w.(slot := None)
    case Crash(now) => Moved(p, w, [Restart(now)]).(ops := [], slot := None, live := {})
  }

  function AfterAll(p: Policy, w: World, pieces: seq<Piece>): World {
    if |pieces| == 0 then w
    else After(p, AfterAll(p, w, pieces[..|pieces| - 1]), pieces[|pieces| - 1])
  }

  ghost predicate PossibleAll(p: Policy, w: World, pieces: seq<Piece>) {
    |pieces| == 0 ||
    (PossibleAll(p, w, pieces[..|pieces| - 1]) &&
     Possible(p, AfterAll(p, w, pieces[..|pieces| - 1]), pieces[|pieces| - 1]))
  }

  // ---------------------------------------------------------------- invariants

  /**
   An operation's own account: what it has attempted and completed is a prefix of its batch, what it reports delivered
   has been marked delivered, and what it reports failed has been put back.
   */
  ghost predicate Orderly(op: Op, l: Ledger) {
    && op.handlerCompleted <= op.entries
    && (forall e | e in op.handlerCompleted :: e.rowId in l.completed)
    && match op.phase
       case Delivering =>
         |op.handlerCompleted| < |op.entries| &&
         op.claimedRowIds == RowIds(op.handlerCompleted) + [op.entries[|op.handlerCompleted|].rowId]
       case ReportingDelivery => AllDelivered(op, l)
       case ReportingFailure => Unique(op.claimedRowIds) in l.returned
       case Settled(DeliveredBatch(n)) => n == |op.entries| && AllDelivered(op, l)
       case Settled(FailedBatch(n)) => n == |op.claimedRowIds| && Unique(op.claimedRowIds) in l.returned
       case Emptied => op.entries == [] && op.handlerCompleted == [] && op.claimedRowIds == []
       case Settled(Empty) => op.entries == []
       case Settled(_) => true
       case _ => op.handlerCompleted == [] && op.claimedRowIds == []
  }

  predicate AllDelivered(op: Op, l: Ledger) {
    && op.handlerCompleted == op.entries && op.claimedRowIds == RowIds(op.entries)
    && Unique(op.claimedRowIds) in l.delivered
  }

  /** At most one operation is unsettled; it is the latest, and it holds the slot. */
  ghost predicate Exclusive(w: World) {
    && (forall i | 0 <= i < |w.ops| :: Unsettled(w.ops[i]) ==> i == |w.ops| - 1 && w.slot == Some(i))
    && (w.slot.Some? ==> |w.ops| > 0 && w.slot.value == |w.ops| - 1)
    && (forall op | op in w.ops :: !op.phase.Fresh?)
  }

  ghost predicate Sound(p: Policy, w: World) {
    && Kept(p, w.core, w.ledger)
    && Exclusive(w)
    && (forall op | op in w.ops :: Orderly(op, w.ledger))
  }

  // ---------------------------------------------------------------- what one piece keeps

  lemma IdsCompleted(entries: seq<Entry>, completed: set<nat>)
    requires forall e | e in entries :: e.rowId in completed
    ensures Unique(RowIds(entries)) <= completed
  {
    forall id | id in Unique(RowIds(entries)) ensures id in completed {
      var i :| 0 <= i < |RowIds(entries)| && RowIds(entries)[i] == id;
      assert entries[i] in entries;
    }
  }

  lemma CompletedSnoc(op: Op)
    requires |op.handlerCompleted| < |op.entries|
    requires op.handlerCompleted <= op.entries
    ensures var done := WithCompleted(op);
            && done.handlerCompleted <= op.entries
            && RowIds(done.handlerCompleted) == RowIds(op.handlerCompleted) + [op.entries[|op.handlerCompleted|].rowId]
            && forall e | e in done.handlerCompleted ::
                 e in op.handlerCompleted || e == op.entries[|op.handlerCompleted|]
  {
  }

  /** All a turn does is part of a claim, or of the acknowledgement or failure of the rows it has attempted. */
  lemma TurnSteps(p: Policy, c: Core, op: Op, event: Event, steps: seq<Step>, next: Op)
    requires Turn(p, c, op, event, steps, next)
    ensures var ids := Unique(op.claimedRowIds);
            forall s | s in steps :: Claiming(s) || Acknowledging(s, ids) || Failing(p, s, ids)
    ensures forall s | s in steps && s.Deliver? ::
              event.HandlerCompleted? && |op.handlerCompleted| + 1 == |op.entries|
  {
    if event.HandlerCompleted? && |WithCompleted(op).handlerCompleted| == |op.entries| {
      var done := WithCompleted(op);
      if k: nat :| GivesUp(p, done, steps, k, next) {
        assert steps == steps[..k] + steps[k..];
      }
    }
  }

  /** A turn marks delivered only rows whose handler has completed. */
  lemma TurnIsFair(p: Policy, c: Core, op: Op, event: Event, steps: seq<Step>, next: Op, l: Ledger, heard: Ledger)
    requires Turn(p, c, op, event, steps, next) && Orderly(op, l) && Continues(l, heard)
    requires CompletedRow(op, event).Some? ==> CompletedRow(op, event).value in heard.completed
    ensures forall s | s in steps :: Fair(heard, s)
  {
    TurnSteps(p, c, op, event, steps, next);
    if event.HandlerCompleted? {
      CompletedSnoc(op);
      if |op.handlerCompleted| + 1 == |op.entries| {
        IdsCompleted(WithCompleted(op).handlerCompleted, heard.completed);
      }
    }
  }

  /** So does the turn of a handler that has settled. */
  lemma HandledTurnIsSound(
    p: Policy, c: Core, op: Op, event: Event, steps: seq<Step>, next: Op, heard: Ledger, end: Ledger)
    requires Turn(p, c, op, event, steps, next) && op.phase.Delivering? && Orderly(op, heard)
    requires CompletedRow(op, event).Some? ==> CompletedRow(op, event).value in heard.completed
    requires Continues(heard, end) && Records(end, steps)
    ensures Orderly(next, end) && !next.phase.Fresh?
  {
    CompletedSnoc(op);
    if event.HandlerCompleted? && |WithCompleted(op).handlerCompleted| == |op.entries| {
      var done := WithCompleted(op);
      assert done.handlerCompleted == op.entries;
      if k: nat :| GivesUp(p, done, steps, k, next) {
        assert steps == steps[..k] + steps[k..];
      }
    }
  }

  /** A turn leaves the operation in order: what it now reports has been done. */
  lemma TurnIsSound(
    p: Policy, c: Core, op: Op, event: Event, steps: seq<Step>, next: Op, l: Ledger, heard: Ledger, end: Ledger)
    requires Turn(p, c, op, event, steps, next) && Orderly(op, l) && Continues(l, heard)
    requires CompletedRow(op, event).Some? ==> CompletedRow(op, event).value in heard.completed
    requires Continues(heard, end) && Records(end, steps)
    ensures Orderly(next, end) && !next.phase.Fresh?
  {
    if op.phase.Delivering? {
      HandledTurnIsSound(p, c, op, event, steps, next, heard, end);
    }
  }

  lemma MovedIsKept(p: Policy, w: World, steps: seq<Step>)
    requires Kept(p, w.core, w.ledger) && Allowed(p, w.core, steps)
    requires forall s | s in steps :: Fair(w.ledger, s)
    ensures Kept(p, Moved(p, w, steps).core, Moved(p, w, steps).ledger)
    ensures Moved(p, w, steps).ledger.completed == w.ledger.completed
    ensures Continues(w.ledger, Moved(p, w, steps).ledger) && Records(Moved(p, w, steps).ledger, steps)
  {
    RunKeeps(p, w.core, steps, w.ledger);
    BookedRecords(p, w.core, steps, w.ledger);
  }

  lemma StillOrderly(ops: seq<Op>, before: Ledger, after: Ledger)
    requires forall op | op in ops :: Orderly(op, before)
    requires Continues(before, after)
    ensures forall op | op in ops :: Orderly(op, after)
  {
  }

  /** The operations once a new one has been started on a free slot. */
  lemma LatestAppended(w: World, next: Op, l: Ledger)
    requires Exclusive(w) && w.slot.None? && !next.phase.Fresh?
    requires Orderly(next, l) && forall op | op in w.ops :: Orderly(op, l)
    ensures var ops := w.ops + [next];
            Exclusive(w.(ops := ops, slot := Some(|w.ops|))) && forall op | op in ops :: Orderly(op, l)
  {
  }

  lemma StartIsSound(p: Policy, w: World, a: Piece)
    requires Sound(p, w) && a.Start? && Possible(p, w, a)
    ensures Sound(p, After(p, w, a))
  {
    var end := Moved(p, w, a.steps).ledger;
    TurnIsFair(p, w.core, FreshOp(a.pump), a.event, a.steps, a.next, w.ledger, w.ledger);
    MovedIsKept(p, w, a.steps);
    TurnIsSound(p, w.core, FreshOp(a.pump), a.event, a.steps, a.next, w.ledger, w.ledger, end);
    StillOrderly(w.ops, w.ledger, end);
    LatestAppended(w, a.next, end);
  }

  lemma HeardIsKept(p: Policy, w: World, op: Op, event: Event)
    requires Kept(p, w.core, w.ledger)
    ensures var heard := Heard(w, op, event);
            && Kept(p, heard.core, heard.ledger) && Continues(w.ledger, heard.ledger)
            && heard.core == w.core && heard.ops == w.ops && heard.slot == w.slot
            && (CompletedRow(op, event).Some? ==> CompletedRow(op, event).value in heard.ledger.completed)
  {
    if CompletedRow(op, event).Some? { CompletionKeeps(p, w.core, w.ledger, CompletedRow(op, event).value); }
  }

  /** The operations once the latest has taken its turn. */
  lemma LatestReplaced(w: World, next: Op, l: Ledger)
    requires Exclusive(w) && |w.ops| > 0 && Unsettled(Latest(w)) && !next.phase.Fresh?
    requires Orderly(next, l) && forall op | op in w.ops :: Orderly(op, l)
    ensures var ops := w.ops[|w.ops| - 1 := next];
            Exclusive(w.(ops := ops)) && forall op | op in ops :: Orderly(op, l)
  {
    var last := |w.ops| - 1;
    var ops := w.ops[last := next];
    forall op | op in ops ensures Orderly(op, l) && !op.phase.Fresh? {
      var i :| 0 <= i < |ops| && ops[i] == op;
      assert i == last || w.ops[i] in w.ops;
    }
  }

  lemma ResumeIsSound(p: Policy, w: World, heard: World, a: Piece)
    requires Sound(p, w) && a.Resume? && Possible(p, w, a) && heard == Heard(w, Latest(w), a.event)
    ensures Sound(p, After(p, w, a))
  {
    HeardIsKept(p, w, Latest(w), a.event);
    assert Latest(w) in w.ops;
    var end := Moved(p, heard, a.steps).ledger;
    TurnIsFair(p, w.core, Latest(w), a.event, a.steps, a.next, w.ledger, heard.ledger);
    MovedIsKept(p, heard, a.steps);
    TurnIsSound(p, w.core, Latest(w), a.event, a.steps, a.next, w.ledger, heard.ledger, end);
    StillOrderly(w.ops, w.ledger, heard.ledger);
    StillOrderly(w.ops, heard.ledger, end);
    LatestReplaced(w, a.next, end);
  }

  /** Every piece keeps the whole invariant: the ledger, the single operation, and each operation's account. */
  lemma PieceIsSound(p: Policy, w: World, a: Piece)
    requires Sound(p, w) && Possible(p, w, a)
    ensures Sound(p, After(p, w, a))
  {
    match a
    case Elsewhere(steps) =>
      MovedIsKept(p, w, steps);
      StillOrderly(w.ops, w.ledger, Moved(p, w, steps).ledger);
    case Admit(step, forward) =>
      RunsOnce(p, w.core, step);
      MovedIsKept(p, w, [step]);
      StillOrderly(w.ops, w.ledger, Moved(p, w, [step]).ledger);
    case LiveCompleted(row, steps) =>
      var heard := Completing(w, row);
      CompletionKeeps(p, w.core, w.ledger, row);
      MovedIsKept(p, heard, steps);
      StillOrderly(w.ops, w.ledger, heard.ledger);
      StillOrderly(w.ops, heard.ledger, Moved(p, heard, steps).ledger);
    case LiveRejected(row) =>
    case Start(_, _, _, _) => StartIsSound(p, w, a);
    case Resume(_, _, _) => ResumeIsSound(p, w, Heard(w, Latest(w), a.event), a);
    case Release =>
    case Crash(now) =>
      RunsOnce(p, w.core, Restart(now));
      MovedIsKept(p, w, [Restart(now)]);
  }

  // ---------------------------------------------------------------- a piece, by what it leaves behind

  /** What the steps of a piece leave of core and ledger. */
  ghost predicate Carried(p: Policy, before: World, steps: seq<Step>, core: Core, l: Ledger) {
    IsRun(p, before.core, steps, core) && l == Booked(p, before.core, steps, before.ledger)
  }

  lemma ElsewhereDone(p: Policy, before: World, after: World, steps: seq<Step>)
    requires Sound(p, before) && forall s | s in steps :: ByOthers(s)
    requires Carried(p, before, steps, after.core, after.ledger)
    requires after == before.(core := after.core, ledger := after.ledger)
    ensures Possible(p, before, Elsewhere(steps)) && after == After(p, before, Elsewhere(steps)) && Sound(p, after)
  {
    PieceIsSound(p, before, Elsewhere(steps));
  }

  lemma AdmitDone(p: Policy, before: World, after: World, step: Step, forward: bool)
    requires Sound(p, before) && Carried(p, before, [step], after.core, after.ledger)
    requires step.Append? && step.ingress.source.TransportStream? && Ordinary(step.ingress)
    requires var live := if forward then before.live + {before.core.nextId} else before.live;
             after == before.(core := after.core, ledger := after.ledger, live := live)
    ensures var piece := Admit(step, forward);
            Possible(p, before, piece) && after == After(p, before, piece) && Sound(p, after)
  {
    assert [step][..0] == [];
    PieceIsSound(p, before, Admit(step, forward));
  }

  lemma LiveDone(p: Policy, before: World, after: World, row: nat, steps: seq<Step>)
    requires Sound(p, before) && row in before.live
    requires forall s | s in steps :: s.Fault? || (s.Deliver? && s.ids == {row})
    requires Carried(p, Completing(before, row), steps, after.core, after.ledger)
    requires after == before.(core := after.core, ledger := after.ledger, live := before.live - {row})
    ensures var piece := LiveCompleted(row, steps);
            Possible(p, before, piece) && after == After(p, before, piece) && Sound(p, after)
  {
    PieceIsSound(p, before, LiveCompleted(row, steps));
  }

  lemma StartDone(p: Policy, before: World, after: World, pump: bool, event: Event, steps: seq<Step>, next: Op)
    requires Sound(p, before) && before.slot.None? && event.Begin?
    requires Turn(p, before.core, FreshOp(pump), event, steps, next)
    requires Carried(p, before, steps, after.core, after.ledger)
    requires after == before.(core := after.core, ledger := after.ledger, ops := before.ops + [next],
                              slot := Some(|before.ops|))
    ensures var piece := Start(pump, event, steps, next);
            Possible(p, before, piece) && after == After(p, before, piece) && Sound(p, after)
  {
    PieceIsSound(p, before, Start(pump, event, steps, next));
  }

  lemma ResumeDone(p: Policy, before: World, after: World, event: Event, steps: seq<Step>, next: Op)
    requires Sound(p, before) && |before.ops| > 0 && Unsettled(Latest(before)) && !event.Begin?
    requires Turn(p, before.core, Latest(before), event, steps, next)
    requires Carried(p, Heard(before, Latest(before), event), steps, after.core, after.ledger)
    requires after == before.(core := after.core, ledger := after.ledger, ops := before.ops[|before.ops| - 1 := next])
    ensures var piece := Resume(event, steps, next);
            Possible(p, before, piece) && after == After(p, before, piece) && Sound(p, after)
  {
    PieceIsSound(p, before, Resume(event, steps, next));
  }

  // ---------------------------------------------------------------- whole runs

  lemma {:induction false} RunIsSound(p: Policy, w: World, pieces: seq<Piece>)
    requires Sound(p, w) && PossibleAll(p, w, pieces)
    ensures Sound(p, AfterAll(p, w, pieces))
  {
    if |pieces| > 0 {
      RunIsSound(p, w, pieces[..|pieces| - 1]);
      PieceIsSound(p, AfterAll(p, w, pieces[..|pieces| - 1]), pieces[|pieces| - 1]);
    }
  }

  /** A world that starts on a new database. */
  function NewWorld(required: nat, clock: int): World {
    World(Core([], 1, IdleSession(required), clock, 0), Ledger({}, {}, {}, [], {}, {}), [], None, {})
  }

  lemma NewWorldIsSound(p: Policy, clock: int)
    ensures Sound(p, NewWorld(p.required, clock))
  {
  }

  lemma {:induction false} BookedGrows(p: Policy, c: Core, steps: seq<Step>, l: Ledger)
    ensures l.accepted <= Booked(p, c, steps, l).accepted
  {
    if |steps| > 0 {
      BookedGrows(p, c, steps[..|steps| - 1], l);
    }
  }

  lemma AcceptedGrows(p: Policy, w: World, a: Piece)
    ensures w.ledger.accepted <= After(p, w, a).ledger.accepted
  {
    match a
    case Elsewhere(steps) => BookedGrows(p, w.core, steps, w.ledger);
    case Admit(step, forward) => BookedGrows(p, w.core, [step], w.ledger);
    case LiveCompleted(row, steps) => BookedGrows(p, w.core, steps, Completing(w, row).ledger);
    case LiveRejected(row) =>
    case Start(_, _, steps, _) => BookedGrows(p, w.core, steps, w.ledger);
    case Resume(event, steps, _) =>
      if |w.ops| > 0 { BookedGrows(p, w.core, steps, Heard(w, Latest(w), event).ledger); }
    case Release =>
    case Crash(now) => BookedGrows(p, w.core, [Restart(now)], w.ledger);
  }

  lemma {:induction false} StaysAccepted(p: Policy, w: World, pieces: seq<Piece>, id: nat)
    requires id in w.ledger.accepted
    ensures id in AfterAll(p, w, pieces).ledger.accepted
  {
    if |pieces| > 0 {
      StaysAccepted(p, w, pieces[..|pieces| - 1], id);
      AcceptedGrows(p, AfterAll(p, w, pieces[..|pieces| - 1]), pieces[|pieces| - 1]);
    }
  }

  lemma AdmittedIsAccepted(p: Policy, w: World, admit: Piece)
    requires admit.Admit? && Possible(p, w, admit)
    ensures w.core.nextId in After(p, w, admit).ledger.accepted
  {
    assert [admit.step][..0] == [];
  }

  /**
   No accepted event is lost, whatever happens after `ingest` has committed it: handlers that complete, fail or never
   return, replay batches that fail part-way, storage faults, prunes, crashes and restarts. At the end it is one row in
   one state in the table, or it was deleted after being delivered or dead-lettered; delivered only if a delivery
   handler completed for it, dead-lettered only past the shorter retention window.
   */
  lemma AcceptedEventIsNeverLost(p: Policy, w: World, admit: Piece, pieces: seq<Piece>, end: World) returns (r: Row)
    requires Sound(p, w) && admit.Admit? && Possible(p, w, admit)
    requires PossibleAll(p, After(p, w, admit), pieces) && end == AfterAll(p, After(p, w, admit), pieces)
    ensures var id := w.core.nextId;
            if id in Ids(end.core.rows) then
              StandsFor(p, end.ledger, end.core.rows, id, r) && id !in Ids(end.ledger.deleted)
            else r in end.ledger.deleted && r.id == id && Truthful(p, end.ledger, r) && Terminal(r.state)
  {
    PieceIsSound(p, w, admit);
    RunIsSound(p, After(p, w, admit), pieces);
    AdmittedIsAccepted(p, w, admit);
    StaysAccepted(p, After(p, w, admit), pieces, w.core.nextId);
    r := AcceptedIsNeverLost(p, end.core, end.ledger, w.core.nextId);
  }

  /**
   What an operation answers is what it has done. `delivered(n)`: the handlers of all its `n` entries have completed and
   one commit has marked exactly these rows delivered. `failed(n)`: one commit has put back exactly the `n` rows it had
   attempted.
   */
  lemma OutcomesAreTrue(p: Policy, w: World, pieces: seq<Piece>, end: World, op: Op)
    requires Sound(p, w) && PossibleAll(p, w, pieces) && end == AfterAll(p, w, pieces)
    requires op in end.ops && op.phase.Settled?
    ensures op.phase.outcome.DeliveredBatch? ==>
              && op.phase.outcome.count == |op.entries| && Unique(RowIds(op.entries)) in end.ledger.delivered
              && Unique(RowIds(op.entries)) <= end.ledger.completed
    ensures op.phase.outcome.FailedBatch? ==>
              op.phase.outcome.count == |op.claimedRowIds| && Unique(op.claimedRowIds) in end.ledger.returned
  {
    RunIsSound(p, w, pieces);
    assert Orderly(op, end.ledger);
    if op.phase.outcome.DeliveredBatch? { IdsCompleted(op.entries, end.ledger.completed); }
  }

  /** Exclusive replay: of two unsettled operations one is the other, and it is the one every new caller is given. */
  lemma ReplayIsExclusive(p: Policy, w: World, pieces: seq<Piece>, end: World, i: nat, j: nat)
    requires Sound(p, w) && PossibleAll(p, w, pieces) && end == AfterAll(p, w, pieces)
    requires i < |end.ops| && j < |end.ops| && Unsettled(end.ops[i]) && Unsettled(end.ops[j])
    ensures i == j && end.slot == Some(i)
  {
    RunIsSound(p, w, pieces);
  }

  // ---------------------------------------------------------------- every operation ends

  /** How many turns an operation has before it, once its batch is known; before that, one for the claim besides. */
  function TurnsLeft(op: Op): int {
    match op.phase
    case Fresh(_) => |op.entries| + 5
    case Queueing => |op.entries| + 4
    case Claimed => |op.entries| - |op.handlerCompleted| + 3
    case Delivering => |op.entries| - |op.handlerCompleted| + 2
    case Emptied => 1
    case ReportingDelivery => 2
    case ReportingFailure => 1
    case Settled(_) => 0
  }

  /** Every turn uses up one of them, the claim included, which adds its batch to what is left. */
  lemma TurnAdvances(p: Policy, c: Core, op: Op, event: Event, steps: seq<Step>, next: Op, l: Ledger)
    requires Turn(p, c, op, event, steps, next) && Orderly(op, l)
    ensures TurnsLeft(next) - |next.entries| < TurnsLeft(op) - |op.entries|
    ensures TurnsLeft(op) > 0
    ensures next.phase.Claimed? || next.entries == op.entries
  {
  }

  function Resumes(pieces: seq<Piece>): nat {
    if |pieces| == 0 then 0
    else Resumes(pieces[..|pieces| - 1]) + if pieces[|pieces| - 1].Resume? then 1 else 0
  }

  /** A piece of the latest operation uses up a turn, and no other piece gives it one. */
  lemma PieceCounts(p: Policy, w: World, a: Piece)
    requires Sound(p, w) && |w.ops| > 0 && Possible(p, w, a) && !a.Start? && !a.Crash?
    ensures Sound(p, After(p, w, a)) && |After(p, w, a).ops| == |w.ops|
    ensures var before, after := Latest(w), Latest(After(p, w, a));
            (if a.Resume? then 1 else 0) + TurnsLeft(after) - |after.entries| <= TurnsLeft(before) - |before.entries|
  {
    PieceIsSound(p, w, a);
    if a.Resume? {
      assert Latest(w) in w.ops;
      TurnAdvances(p, w.core, Latest(w), a.event, a.steps, a.next, w.ledger);
    }
  }

  lemma {:induction false} TurnsAreCounted(p: Policy, w: World, pieces: seq<Piece>, end: World, credit: int)
    requires Sound(p, w) && |w.ops| > 0 && TurnsLeft(Latest(w)) - |Latest(w).entries| <= credit
    requires PossibleAll(p, w, pieces) && end == AfterAll(p, w, pieces)
    requires forall a | a in pieces :: !a.Start? && !a.Crash?
    ensures Sound(p, end) && |end.ops| == |w.ops|
    ensures Resumes(pieces) + TurnsLeft(Latest(end)) - |Latest(end).entries| <= credit
  {
    if |pieces| > 0 {
      var front, last := pieces[..|pieces| - 1], pieces[|pieces| - 1];
      var mid := AfterAll(p, w, front);
      assert last in pieces;
      TurnsAreCounted(p, w, front, mid, credit);
      PieceCounts(p, mid, last);
    }
  }

  /**
   Whatever else happens between them, an operation that is not crashed takes at most `n + 4` turns after its start,
   `n` being the size of its batch; after `n + 4` of them it has settled.
   */
  lemma OperationEnds(p: Policy, w: World, start: Piece, pieces: seq<Piece>, end: World)
    requires Sound(p, w) && start.Start? && Possible(p, w, start)
    requires PossibleAll(p, After(p, w, start), pieces) && end == AfterAll(p, After(p, w, start), pieces)
    requires forall a | a in pieces :: !a.Start? && !a.Crash?
    ensures |end.ops| == |w.ops| + 1
    ensures Resumes(pieces) + TurnsLeft(Latest(end)) <= |Latest(end).entries| + 4
    ensures Resumes(pieces) == |Latest(end).entries| + 4 ==> Latest(end).phase.Settled?
  {
    PieceIsSound(p, w, start);
    TurnAdvances(p, w.core, FreshOp(start.pump), start.event, start.steps, start.next, w.ledger);
    TurnsAreCounted(p, After(p, w, start), pieces, end, 4);
    assert Latest(end) in end.ops;
    LeftIsCounted(Latest(end), end.ledger);
  }

  lemma LeftIsCounted(op: Op, l: Ledger)
    requires Orderly(op, l)
    ensures TurnsLeft(op) >= 0 && (TurnsLeft(op) == 0 <==> op.phase.Settled?)
  {
  }

  /** A failure that goes through, as steps. */
  function Failure(p: Policy, op: Op, message: string, now: int): seq<Step> {
    [PutBack(Unique(op.claimedRowIds), Some(now + p.backoff), now), FailSession(message, now)]
  }

  lemma FailureTurn(p: Policy, c: Core, op: Op, message: string, now: int) returns (steps: seq<Step>, next: Op)
    requires c.clock <= now
    ensures steps == Failure(p, op, message, now) && next == op.(phase := ReportingFailure)
    ensures Allowed(p, c, steps) && FailTurn(p, op, steps, next) && forall s | s in steps :: !s.Fault?
    ensures Exec(p, c, steps).rows ==
            Update(c.rows, Unique(op.claimedRowIds), MoveTo(Pending, Some(now + p.backoff), now))
  {
    steps, next := Failure(p, op, message, now), op.(phase := ReportingFailure);
    var reset, fail := steps[0], steps[1];
    RunsOnce(p, c, reset);
    RunsOnce(p, Next(p, c, reset), fail);
    RunsThen(p, c, [reset], Next(p, c, reset), [fail], Next(p, Next(p, c, reset), fail));
    assert [reset] + [fail] == steps;
  }

  /** One of the turns of the latest operation has delivered, or has put back, exactly these rows in one commit. */
  ghost predicate HasDelivered(pieces: seq<Piece>, ids: set<nat>) {
    exists a, s :: a in pieces && a.Resume? && s in a.steps && s.Deliver? && s.ids == ids
  }

  ghost predicate HasPutBack(pieces: seq<Piece>, ids: set<nat>) {
    exists a, s :: a in pieces && a.Resume? && s in a.steps && s.PutBack? && s.ids == ids
  }

  /** The rows whose handlers the pieces report complete to the latest operation, in the order they do. */
  function HandledIn(p: Policy, w: World, pieces: seq<Piece>): seq<nat> {
    if |pieces| == 0 then [] else
      var front, last := pieces[..|pieces| - 1], pieces[|pieces| - 1];
      var before := AfterAll(p, w, front);
      var row := if last.Resume? && |before.ops| > 0 then CompletedRow(Latest(before), last.event) else None;
      HandledIn(p, w, front) + if row.Some? then [row.value] else []
  }

  /** What an operation says of itself is the work of these pieces. */
  ghost predicate OwnWork(op: Op, pieces: seq<Piece>, handled: seq<nat>) {
    && RowIds(op.handlerCompleted) == handled
    && (op.phase.ReportingDelivery? || (op.phase.Settled? && op.phase.outcome.DeliveredBatch?) ==>
          HasDelivered(pieces, Unique(op.claimedRowIds)))
    && (op.phase.ReportingFailure? || (op.phase.Settled? && op.phase.outcome.FailedBatch?) ==>
          HasPutBack(pieces, Unique(op.claimedRowIds)))
  }

  lemma HasKept(pieces: seq<Piece>, a: Piece, ids: set<nat>)
    ensures HasDelivered(pieces, ids) ==> HasDelivered(pieces + [a], ids)
    ensures HasPutBack(pieces, ids) ==> HasPutBack(pieces + [a], ids)
  {
    if b, s :| b in pieces && b.Resume? && s in b.steps && s.Deliver? && s.ids == ids {
      assert b in pieces + [a];
    }
    if b, s :| b in pieces && b.Resume? && s in b.steps && s.PutBack? && s.ids == ids {
      assert b in pieces + [a];
    }
  }

  /** A turn that has gone through has made, itself, the commit it reports. */
  lemma TurnHasReported(p: Policy, c: Core, op: Op, pieces: seq<Piece>, a: Piece)
    requires a in pieces && a.Resume? && Turn(p, c, op, a.event, a.steps, a.next) && op.phase.Delivering?
    ensures a.next.phase.ReportingDelivery? ==> HasDelivered(pieces, Unique(op.claimedRowIds))
    ensures a.next.phase.ReportingFailure? ==> HasPutBack(pieces, Unique(op.claimedRowIds))
    ensures a.next.phase.Settled? ==> a.next.phase.outcome.Rejected?
  {
    if a.event.HandlerRejected? {
      assert a.next.phase.ReportingFailure? ==> a.steps[0] in a.steps;
    } else if |WithCompleted(op).handlerCompleted| == |op.entries| {
      if a.next.phase.ReportingDelivery? {
        assert a.steps[0] in a.steps;
      } else {
        var k: nat :| GivesUp(p, WithCompleted(op), a.steps, k, a.next);
        assert a.next.phase.ReportingFailure? ==> a.steps[k..][0] == a.steps[k] && a.steps[k] in a.steps;
      }
    }
  }

  lemma TurnHandles(p: Policy, c: Core, op: Op, l: Ledger, a: Piece)
    requires a.Resume? && Turn(p, c, op, a.event, a.steps, a.next) && Orderly(op, l)
    ensures var row := CompletedRow(op, a.event);
            RowIds(a.next.handlerCompleted) == RowIds(op.handlerCompleted) + if row.Some? then [row.value] else []
    ensures a.next.claimedRowIds == op.claimedRowIds || a.next.phase.Delivering?
  {
    if a.event.HandlerCompleted? { CompletedSnoc(op); }
  }

  lemma TurnIsOwnWork(p: Policy, c: Core, op: Op, l: Ledger, pieces: seq<Piece>, handled: seq<nat>, a: Piece)
    requires a.Resume? && Turn(p, c, op, a.event, a.steps, a.next) && Orderly(op, l) && OwnWork(op, pieces, handled)
    ensures var row := CompletedRow(op, a.event);
            OwnWork(a.next, pieces + [a], handled + if row.Some? then [row.value] else [])
  {
    HasKept(pieces, a, Unique(op.claimedRowIds));
    TurnHandles(p, c, op, l, a);
    assert a in pieces + [a];
    if op.phase.Delivering? {
      TurnHasReported(p, c, op, pieces + [a], a);
    } else if a.next.phase.ReportingFailure? {
      assert a.steps[0] in a.steps;
    }
  }

  lemma PieceIsOwnWork(p: Policy, w: World, a: Piece, pieces: seq<Piece>, handled: seq<nat>)
    requires Sound(p, w) && Possible(p, w, a) && !a.Start? && !a.Crash? && |w.ops| > 0
    requires OwnWork(Latest(w), pieces, handled)
    ensures |After(p, w, a).ops| == |w.ops|
    ensures var row := if a.Resume? then CompletedRow(Latest(w), a.event) else None;
            OwnWork(Latest(After(p, w, a)), pieces + [a], handled + if row.Some? then [row.value] else [])
  {
    if a.Resume? {
      assert Latest(w) in w.ops;
      TurnIsOwnWork(p, w.core, Latest(w), w.ledger, pieces, handled, a);
    } else {
      assert After(p, w, a).ops == w.ops;
      HasKept(pieces, a, Unique(Latest(w).claimedRowIds));
    }
  }

  /** One more piece, and what it is told of. */
  lemma HandledSnoc(p: Policy, w: World, front: seq<Piece>, mid: World, last: Piece)
    requires mid == AfterAll(p, w, front) && |mid.ops| > 0
    ensures var row := if last.Resume? then CompletedRow(Latest(mid), last.event) else None;
            HandledIn(p, w, front + [last]) == HandledIn(p, w, front) + if row.Some? then [row.value] else []
  {
    var pieces := front + [last];
    assert pieces[..|pieces| - 1] == front && pieces[|pieces| - 1] == last;
  }

  lemma {:induction false} RunIsOwnWork(p: Policy, w: World, pieces: seq<Piece>, end: World)
    requires Sound(p, w) && |w.ops| > 0 && OwnWork(Latest(w), [], [])
    requires PossibleAll(p, w, pieces) && end == AfterAll(p, w, pieces)
    requires forall a | a in pieces :: !a.Start? && !a.Crash?
    ensures Sound(p, end) && |end.ops| == |w.ops| && OwnWork(Latest(end), pieces, HandledIn(p, w, pieces))
  {
    if |pieces| > 0 {
      var front, last := pieces[..|pieces| - 1], pieces[|pieces| - 1];
      var mid := AfterAll(p, w, front);
      assert last in pieces && front + [last] == pieces;
      RunIsOwnWork(p, w, front, mid);
      HandledSnoc(p, w, front, mid, last);
      PieceIsSound(p, mid, last);
      PieceIsOwnWork(p, mid, last, front, HandledIn(p, w, front));
    }
  }

  /** An operation that has just been started has no work to its name. */
  lemma StartHasNoWork(p: Policy, w: World, start: Piece)
    requires Sound(p, w) && start.Start? && Possible(p, w, start)
    ensures Sound(p, After(p, w, start)) && |After(p, w, start).ops| == |w.ops| + 1
    ensures OwnWork(Latest(After(p, w, start)), [], [])
  {
    PieceIsSound(p, w, start);
  }

  lemma OwnOutcome(op: Op, l: Ledger, pieces: seq<Piece>, handled: seq<nat>)
    requires Orderly(op, l) && OwnWork(op, pieces, handled) && op.phase.Settled?
    ensures op.phase.outcome.DeliveredBatch? ==>
              && op.phase.outcome.count == |op.entries| && handled == RowIds(op.entries)
              && HasDelivered(pieces, Unique(RowIds(op.entries)))
    ensures op.phase.outcome.FailedBatch? ==>
              op.phase.outcome.count == |op.claimedRowIds| && HasPutBack(pieces, Unique(op.claimedRowIds))
  {
  }

  /**
   And it is the operation's own doing. Between its start and the end, in which other pieces may come as they like, one
   of its own turns has committed what it answers: for `delivered` the delivery of exactly its rows, for `failed` the
   reset of exactly those it attempted. And the handlers that `delivered` counts are those its own turns were told of.
   */
  lemma OutcomesAreItsOwn(p: Policy, w: World, start: Piece, pieces: seq<Piece>, end: World)
    requires Sound(p, w) && start.Start? && Possible(p, w, start)
    requires PossibleAll(p, After(p, w, start), pieces) && end == AfterAll(p, After(p, w, start), pieces)
    requires forall a | a in pieces :: !a.Start? && !a.Crash?
    ensures |end.ops| > 0 && (Latest(end).phase.Settled? ==>
              var op := Latest(end);
              && (op.phase.outcome.DeliveredBatch? ==>
                    && op.phase.outcome.count == |op.entries|
                    && HandledIn(p, After(p, w, start), pieces) == RowIds(op.entries)
                    && HasDelivered(pieces, Unique(RowIds(op.entries))))
              && (op.phase.outcome.FailedBatch? ==>
                    && op.phase.outcome.count == |op.claimedRowIds|
                    && HasPutBack(pieces, Unique(op.claimedRowIds))))
  {
    StartHasNoWork(p, w, start);
    RunIsOwnWork(p, After(p, w, start), pieces, end);
    assert Latest(end) in end.ops;
    if Latest(end).phase.Settled? {
      OwnOutcome(Latest(end), end.ledger, pieces, HandledIn(p, After(p, w, start), pieces));
    }
  }

  /**
   What an operation answers, by the turn that settles it: `empty` for a batch that turned out empty, nothing for a
   reconcile that does not act or finds the session it queued no longer under way, and a batch for one that has been
   reported.
   */
  lemma AnswersExactly(p: Policy, c: Core, op: Op, event: Event, steps: seq<Step>, next: Op, l: Ledger)
    requires Turn(p, c, op, event, steps, next) && Orderly(op, l) && next.phase.Settled?
    requires next.phase.outcome != Rejected
    ensures steps == []
    ensures match next.phase.outcome
            case Empty => op.phase == Emptied && event.Notified? && op.entries == []
            case Nothing =>
              (op.phase == Fresh(false) && event.Begin?) ||
              (op.phase == Queueing && event.Notified? && c.session.state != Queued && c.session.state != Running)
            case DeliveredBatch(n) => op.phase == ReportingDelivery && event.Notified? && n == |op.entries|
            case FailedBatch(n) => op.phase == ReportingFailure && event.Notified? && n == |op.claimedRowIds|
            case Rejected => false
  {
  }

  /** The ways in which the await an operation is suspended at can end. */
  predicate CanEnd(c: Core, op: Op, event: Event) {
    match op.phase
    case Delivering => event.HandlerCompleted? || event.HandlerRejected?
    case Settled(_) => false
    case Fresh(_) => false
    case _ =>
      event.NotifyRejected? || (event.Notified? && InOrder(event.times) && c.clock <= event.times.queue)
  }

  /** Whether the claim of a resumed reconcile would find the session not running. */
  predicate ClaimIsBarred(p: Policy, c: Core, op: Op, event: Event) {
    op.phase.Queueing? && event.Notified? &&
    O.ClaimNextBatch(p, Next(p, c, QueueSession(event.times.queue)), event.limit, event.times).thrown
  }

  lemma NotifiedTurn(p: Policy, c: Core, op: Op, l: Ledger, limit: int, t: Times) returns (steps: seq<Step>, next: Op)
    requires Orderly(op, l) && Unsettled(op) && CanEnd(c, op, Notified(limit, t))
    ensures Allowed(p, c, steps) && Turn(p, c, op, Notified(limit, t), steps, next)
    ensures forall s | s in steps :: !s.Fault?
    ensures next == Settle(op, Rejected) ==> ClaimIsBarred(p, c, op, Notified(limit, t))
  {
    steps := [];
    match op.phase
    case Queueing =>
      next := Settle(op, Nothing);
      if c.session.state.Queued? || c.session.state.Running? {
        var result := O.ClaimNextBatch(p, Next(p, c, QueueSession(t.queue)), limit, t);
        steps := QueuedClaimRuns(p, c, limit, t);
        next := if result.thrown then Settle(op, Rejected) else op.(entries := result.entries, phase := Claimed);
        assert ClaimTurn(p, c, op, limit, t, steps, next);
      }
    case Claimed =>
      next := if |op.handlerCompleted| < |op.entries| then NextEntry(op) else op.(phase := Emptied);
    case Emptied => next := Settle(op, Empty);
    case ReportingDelivery => next := Settle(op, DeliveredBatch(|op.claimedRowIds|));
    case ReportingFailure => next := Settle(op, FailedBatch(|op.claimedRowIds|));
  }

  lemma CompletedTurn(p: Policy, c: Core, op: Op, l: Ledger) returns (steps: seq<Step>, next: Op)
    requires Orderly(op, l) && op.phase.Delivering?
    ensures Allowed(p, c, steps) && Turn(p, c, op, HandlerCompleted, steps, next)
    ensures (forall s | s in steps :: !s.Fault?) && !next.phase.Settled?
  {
    var done := WithCompleted(op);
    if |done.handlerCompleted| < |done.entries| {
      steps, next := [], NextEntry(done);
    } else {
      steps, next := AcknowledgeSteps(p, c, op.claimedRowIds, c.clock, c.clock), done.(phase := ReportingDelivery);
      AcknowledgeRuns(p, c, op.claimedRowIds, c.clock, c.clock);
      AcknowledgementGoesThrough(p, c, op.claimedRowIds, c.clock, c.clock);
    }
  }

  /**
   However its await ends, an unsettled operation can take its next turn with no fault of the storage; and such a turn
   rejects it only if a notification other than that of a delivery was rejected, or there is no running session to claim
   for.
   */
  lemma NeverStuck(p: Policy, c: Core, op: Op, l: Ledger, event: Event) returns (steps: seq<Step>, next: Op)
    requires Orderly(op, l) && Unsettled(op) && CanEnd(c, op, event)
    ensures Allowed(p, c, steps) && Turn(p, c, op, event, steps, next) && forall s | s in steps :: !s.Fault?
    ensures next == Settle(op, Rejected) ==>
              (event.NotifyRejected? && !op.phase.ReportingDelivery?) || ClaimIsBarred(p, c, op, event)
  {
    steps := [];
    match event
    case Notified(limit, t) => steps, next := NotifiedTurn(p, c, op, l, limit, t);
    case NotifyRejected =>
      if op.phase.ReportingDelivery? {
        steps, next := FailureTurn(p, c, op, "", c.clock);
      } else {
        next := Settle(op, Rejected);
      }
    case HandlerCompleted => steps, next := CompletedTurn(p, c, op, l);
    case HandlerRejected => steps, next := FailureTurn(p, c, op, "", c.clock);
  }

  /** Success or failure, a settled operation gives the slot back. */
  lemma SettledOperationFreesTheSlot(p: Policy, w: World)
    requires Sound(p, w) && |w.ops| > 0 && !Unsettled(Latest(w)) && w.slot.Some?
    ensures Possible(p, w, Release) && After(p, w, Release).slot == None
  {
  }

  /**
   Delivered rows can become pending again, with no fault in the storage: the catch block puts back all the attempted
   rows, also when only the notification after their acknowledgement fails, and also when a handler rejects a row that
   its live delivery has meanwhile completed.
   */
  lemma LateFailureRevivesDelivered(p: Policy, c: Core, op: Op, event: Event, r: Row, message: string, now: int)
    requires (op.phase.ReportingDelivery? && event.NotifyRejected?) || (op.phase.Delivering? && event.HandlerRejected?)
    requires c.clock <= now && r in c.rows && r.state.Delivered? && r.id in op.claimedRowIds
    ensures Turn(p, c, op, event, Failure(p, op, message, now), op.(phase := ReportingFailure))
    ensures Allowed(p, c, Failure(p, op, message, now))
    ensures Apply(MoveTo(Pending, Some(now + p.backoff), now), r) in Exec(p, c, Failure(p, op, message, now)).rows
  {
    var steps, next := FailureTurn(p, c, op, message, now);
    UpdateImage(c.rows, Unique(op.claimedRowIds), MoveTo(Pending, Some(now + p.backoff), now), r);
  }
}
