/**
 A run of the adapter, from a new database and with no fault of the storage, in which a delivered row becomes pending
 again and the reservoir ends up with more live rows than its limit allows.
 */
module Incidents {
  import opened Counters
  import opened Options
  import opened Rows
  import opened Ordering
  import opened Admission
  import opened Store
  import opened Session
  import opened Protocol
  import opened Operations
  import O = Operations
  import opened Bounds
  import opened Drain
  import opened Routing
  import opened Ledger
  import opened Adapter
  import opened AdapterRuns

  /** Room for one pending row, and no other limit. */
  predicate OneRow(p: Policy) {
    p.store.capacity.maxRows == Some(1) && p.store.capacity.maxBytes.None? && p.backoff >= 0
  }

  /** A transport event to be stored as pending. */
  predicate Plain(a: Ingress) {
    a.source.TransportStream? && InitialState(a).Pending? && a.retryAt.None?
  }

  lemma AdmitOne(p: Policy, w: World, a: Ingress, now: int)
    requires OneRow(p) && Plain(a) && w.core.clock <= now && LiveCount(w.core.rows) == 0
    ensures var piece := Admit(Append(a, now), false);
            && Possible(p, w, piece)
            && After(p, w, piece).core == Next(p, w.core, Append(a, now))
            && After(p, w, piece).ops == w.ops && After(p, w, piece).slot == w.slot
  {
    RunsOnce(p, w.core, Append(a, now));
  }

  predicate NoFault(steps: seq<Step>) {
    forall s | s in steps :: !s.Fault?
  }

  lemma OneLive(row: Row)
    ensures LiveCount([row]) == Weigh(LiveRows, row)
    ensures [row][..0] == []
  {
    SumSnoc(LiveRows, [], row);
    assert [] + [row] == [row];
  }

  lemma OrderedAlone(q: Query, row: Row)
    requires Matches(q, row)
    ensures Ordered(q, [row]) == [row]
  {
    assert [row][..0] == [];
    assert Insert(q, [], row) == [] + [row];
  }

  /** The table of one pending row once it has been claimed. */
  lemma ClaimedAlone(row: Row, now: int)
    requires Matches(Eligible(now), row)
    ensures Drainable([row], now)
    ensures Store.Claimed([row], 1, now, now, ReplayThroughDedupe) == [Apply(ClaimFor(now, ReplayThroughDedupe), row)]
  {
    OrderedAlone(Eligible(now), row);
    SingleId(row);
    assert Select(Eligible(now), [row], 1) == [row];
  }

  lemma ClaimOne(p: Policy, w: World, row: Row, now: int, flags: Flags) returns (piece: Piece)
    requires OneRow(p) && WellFormed(p, w.core) && w.core.rows == [row] && row.state.Pending? && row.retryAt.None?
    requires w.core.session.state.Idle? && w.core.drift == 0 && w.core.clock <= now && w.slot.None?
    ensures piece.Start? && Possible(p, w, piece) && NoFault(StepsOf(piece))
    ensures ClaimedWorld(p, w, After(p, w, piece), row, now)
  {
    var result := ClaimAlone(p, w.core, row, now);
    var steps := QueuedClaimRuns(p, w.core, 1, Fixed(now));
    piece := ClaimPiece(p, w, steps, result, Begin(1, Fixed(now), flags));
  }

  /** What the claim of the one row comes to. */
  lemma ClaimAlone(p: Policy, c: Core, row: Row, now: int) returns (result: O.ClaimResult)
    requires OneRow(p) && WellFormed(p, c) && c.rows == [row] && row.state.Pending? && row.retryAt.None?
    requires c.session.state.Idle? && c.drift == 0 && c.clock <= now
    ensures result == O.ClaimNextBatch(p, Next(p, c, QueueSession(now)), 1, Fixed(now)) && !result.thrown
    ensures result.core.rows == [Apply(ClaimFor(now, ReplayThroughDedupe), row)]
    ensures result.core.nextId == c.nextId && result.core.drift == 0 && result.core.clock == now
    ensures result.core.session.state.Running? && result.core.session.required == p.required
    ensures |result.entries| == 1 && result.entries[0].rowId == row.id
  {
    var queued := Next(p, c, QueueSession(now));
    OneLive(row);
    ClaimedAlone(row, now);
    RoundClaims(p, queued, 1, now);
    OrderedAlone(Eligible(now), row);
    result := O.ClaimNextBatch(p, queued, 1, Fixed(now));
    OneEntry(result.entries, row);
    ClaimClock(p, queued, now);
  }

  /** The piece in which an operation makes that claim. */
  lemma ClaimPiece(p: Policy, w: World, steps: seq<Step>, result: O.ClaimResult, event: Event) returns (piece: Piece)
    requires event.Begin? && w.slot.None? && !result.thrown
    requires result == O.ClaimNextBatch(p, Next(p, w.core, QueueSession(event.times.queue)), event.limit, event.times)
    requires IsRun(p, w.core, steps, result.core) && forall s | s in steps :: Claiming(s) && !s.Fault?
    requires steps == QueuedClaimSteps(p, w.core, event.limit, event.times)
    ensures piece.Start? && Possible(p, w, piece) && NoFault(StepsOf(piece))
    ensures var after := After(p, w, piece);
            && after.core == result.core && after.slot == Some(|w.ops|)
            && after.ops == w.ops + [FreshOp(true).(entries := result.entries, phase := Phase.Claimed)]
  {
    var next := FreshOp(true).(entries := result.entries, phase := Phase.Claimed);
    piece := Piece.Start(true, event, steps, next);
    assert ClaimTurn(p, w.core, FreshOp(true), event.limit, event.times, steps, next);
  }

  lemma OneEntry(entries: seq<Entry>, row: Row)
    requires RowIds(entries) == IdSeq([row][..1])
    ensures |entries| == 1 && entries[0].rowId == row.id
  {
    assert |RowIds(entries)| == 1 && RowIds(entries)[0] == row.id;
  }

  lemma ClaimClock(p: Policy, c: Core, now: int)
    requires UnderWay(p, c, now)
    ensures O.ClaimNextBatch(p, c, 1, Fixed(now)).core.clock == now
  {
    RoundClaims(p, c, 1, now);
  }

  /** The world in which the one row is claimed, and the operation that claimed it is about to report so. */
  ghost predicate ClaimedWorld(p: Policy, w: World, after: World, row: Row, now: int) {
    && after.core.rows == [Apply(ClaimFor(now, ReplayThroughDedupe), row)]
    && after.core.nextId == w.core.nextId && after.core.drift == 0 && after.core.clock == now
    && after.core.session.state.Running? && after.core.session.required == p.required
    && |after.ops| == |w.ops| + 1 && after.slot == Some(|w.ops|) && Latest(after).phase.Claimed?
    && Latest(after).claimedRowIds == [] && Latest(after).handlerCompleted == []
    && |Latest(after).entries| == 1 && Latest(after).entries[0].rowId == row.id
  }

  /** The notification of the claim goes through, and the one entry is handed to its handler. */
  lemma HandOver(p: Policy, w: World, now: int)
    requires |w.ops| > 0 && Latest(w).phase.Claimed? && |Latest(w).entries| == 1
    requires Latest(w).handlerCompleted == [] && Latest(w).claimedRowIds == []
    ensures var piece := Piece.Resume(Notified(1, Fixed(now)), [], NextEntry(Latest(w)));
            && Possible(p, w, piece) && After(p, w, piece).core == w.core
            && After(p, w, piece).slot == w.slot && |After(p, w, piece).ops| == |w.ops|
            && Latest(After(p, w, piece)) == NextEntry(Latest(w))
  {
  }

  /** The handler of the one entry completes: the row is delivered and the session done. */
  lemma DeliverOne(p: Policy, w: World, row: Row, now: int) returns (piece: Piece)
    requires WellFormed(p, w.core) && w.core.rows == [row] && row.state.Replaying?
    requires w.core.session.state.Running? && w.core.drift == 0 && w.core.clock <= now
    requires |w.ops| > 0 && Latest(w).phase.Delivering? && |Latest(w).entries| == 1
    requires Latest(w).handlerCompleted == [] && Latest(w).claimedRowIds == [row.id]
    ensures piece.Resume? && Possible(p, w, piece) && NoFault(StepsOf(piece))
    ensures var after := After(p, w, piece);
            && after.core.rows == [Apply(MoveTo(Delivered, None, now), row)]
            && after.core.nextId == w.core.nextId && after.core.drift == 0 && after.core.clock == now
            && after.core.session.required == p.required && |after.ops| == |w.ops| && after.slot == w.slot
            && Latest(after).phase.ReportingDelivery? && Latest(after).claimedRowIds == [row.id]
  {
    AcknowledgeRuns(p, w.core, [row.id], now, now);
    var end := AcknowledgedAlone(p, w.core, row, now);
    piece := AcknowledgePiece(p, w, AcknowledgeSteps(p, w.core, [row.id], now, now), end, now);
  }

  lemma AcknowledgedAlone(p: Policy, c: Core, row: Row, now: int) returns (end: Core)
    requires c.rows == [row] && c.session.state.Running? && c.drift == 0
    ensures end == O.AcknowledgeBatch(p, c, [row.id], now, now)
    ensures end.rows == [Apply(MoveTo(Delivered, None, now), row)] && end.clock == now
    ensures end.nextId == c.nextId && end.drift == 0 && end.session.required == c.session.required
  {
    end := O.AcknowledgeBatch(p, c, [row.id], now, now);
    AcknowledgeOutcome(p, c, [row.id], now);
    assert Unique([row.id]) == {row.id};
    assert Update([row], {row.id}, MoveTo(Delivered, None, now)) == [Apply(MoveTo(Delivered, None, now), row)];
  }

  lemma AcknowledgePiece(p: Policy, w: World, steps: seq<Step>, end: Core, now: int) returns (piece: Piece)
    requires |w.ops| > 0 && Latest(w).phase.Delivering? && |Latest(w).entries| == |Latest(w).handlerCompleted| + 1
    requires steps == AcknowledgeSteps(p, w.core, Latest(w).claimedRowIds, now, now) && IsRun(p, w.core, steps, end)
    ensures piece.Resume? && Possible(p, w, piece) && NoFault(StepsOf(piece))
    ensures var after := After(p, w, piece);
            && after.core == end && |after.ops| == |w.ops| && after.slot == w.slot
            && Latest(after) == WithCompleted(Latest(w)).(phase := ReportingDelivery)
  {
    var done := WithCompleted(Latest(w));
    AcknowledgementGoesThrough(p, w.core, Latest(w).claimedRowIds, now, now);
    piece := Piece.Resume(HandlerCompleted, steps, done.(phase := ReportingDelivery));
    assert AcknowledgeTurn(p, done, piece.steps, piece.next);
  }

  /** The notification after the acknowledgement fails, the failure goes through, and the row is pending again. */
  lemma FailLate(p: Policy, w: World, done: Row, row: Row, message: string, now: int) returns (piece: Piece)
    requires w.core.rows == [done, row] && done.state.Delivered? && done.id != row.id && w.core.clock <= now
    requires |w.ops| > 0 && Latest(w).phase.ReportingDelivery? && Latest(w).claimedRowIds == [done.id]
    ensures piece.Resume? && piece.event.NotifyRejected? && Possible(p, w, piece) && NoFault(StepsOf(piece))
    ensures After(p, w, piece).core.rows == [Apply(MoveTo(Pending, Some(now + p.backoff), now), done), row]
    ensures |After(p, w, piece).ops| > 0 && Latest(After(p, w, piece)).phase.ReportingFailure?
  {
    var steps, next := FailureTurn(p, w.core, Latest(w), message, now);
    assert Unique([done.id]) == {done.id};
    piece := Piece.Resume(NotifyRejected, steps, next);
  }

  /** A run made longer by one piece. */
  lemma OneMorePiece(p: Policy, w: World, pieces: seq<Piece>, piece: Piece)
    requires PossibleAll(p, w, pieces) && Possible(p, AfterAll(p, w, pieces), piece)
    requires NoFault(Trace(pieces)) && NoFault(StepsOf(piece))
    ensures PossibleAll(p, w, pieces + [piece]) && NoFault(Trace(pieces + [piece]))
    ensures AfterAll(p, w, pieces + [piece]) == After(p, AfterAll(p, w, pieces), piece)
  {
    assert (pieces + [piece])[..|pieces|] == pieces;
  }

  /** A new process stores one event and claims it. */
  lemma FirstClaim(p: Policy, a: Ingress, now: int, flags: Flags, row: Row) returns (pieces: seq<Piece>)
    requires OneRow(p) && Plain(a) && row == NewRow(p.store, 1, a, now)
    ensures PossibleAll(p, NewWorld(p.required, now), pieces) && NoFault(Trace(pieces)) && |pieces| == 2
    ensures var w := AfterAll(p, NewWorld(p.required, now), pieces);
            && WellFormed(p, w.core) && w.core.rows == [Apply(ClaimFor(now, ReplayThroughDedupe), row)]
            && w.core.session.state.Running? && w.core.nextId == 2 && w.core.drift == 0 && w.core.clock == now
            && |w.ops| > 0 && Latest(w).phase.Claimed? && |Latest(w).entries| == 1 && Latest(w).entries[0].rowId == 1
            && Latest(w).handlerCompleted == [] && Latest(w).claimedRowIds == []
  {
    var w0 := NewWorld(p.required, now);
    var admit := Admit(Append(a, now), false);
    AdmitOne(p, w0, a, now);
    OneMorePiece(p, w0, [], admit);
    var w1 := After(p, w0, admit);
    assert [] + [row] == [row] && [row][..0] == [];
    var claim := ClaimOne(p, w1, row, now, flags);
    OneMorePiece(p, w0, [] + [admit], claim);
    pieces := [] + [admit] + [claim];
    StepKeepsForm(p, w0.core, Append(a, now));
    PieceRuns(p, w1, claim);
    RunKeepsForm(p, w1.core, StepsOf(claim));
  }

  /** It hands the event to its handler, which completes: one delivered row. */
  lemma FirstDelivery(p: Policy, a: Ingress, now: int, flags: Flags, row: Row, delivered: Row)
    returns (pieces: seq<Piece>)
    requires OneRow(p) && Plain(a) && row == NewRow(p.store, 1, a, now)
    requires delivered == Apply(MoveTo(Delivered, None, now), Apply(ClaimFor(now, ReplayThroughDedupe), row))
    ensures PossibleAll(p, NewWorld(p.required, now), pieces) && NoFault(Trace(pieces)) && |pieces| == 4
    ensures var w := AfterAll(p, NewWorld(p.required, now), pieces);
            && w.core.rows == [delivered]
            && w.core.nextId == 2 && w.core.clock == now
            && |w.ops| > 0 && Latest(w).phase.ReportingDelivery? && Latest(w).claimedRowIds == [1]
  {
    var w0 := NewWorld(p.required, now);
    var first := FirstClaim(p, a, now, flags, row);
    var w2 := AfterAll(p, w0, first);
    var hand := Piece.Resume(Notified(1, Fixed(now)), [], NextEntry(Latest(w2)));
    HandOver(p, w2, now);
    OneMorePiece(p, w0, first, hand);
    var w3 := After(p, w2, hand);
    var deliver := DeliverOne(p, w3, Apply(ClaimFor(now, ReplayThroughDedupe), row), now);
    OneMorePiece(p, w0, first + [hand], deliver);
    pieces := first + [hand] + [deliver];
  }

  /** A second event takes the room that the delivered one has left. */
  lemma SecondEvent(p: Policy, w: World, b: Ingress, now: int, delivered: Row, second: Row)
    requires OneRow(p) && Plain(b) && w.core.rows == [delivered] && delivered.state.Delivered?
    requires w.core.clock <= now && second == NewRow(p.store, w.core.nextId, b, now)
    ensures var admit := Admit(Append(b, now), false);
            && Possible(p, w, admit) && After(p, w, admit).core.rows == [delivered, second]
            && After(p, w, admit).core.clock == now && After(p, w, admit).ops == w.ops
  {
    OneLive(delivered);
    AdmitOne(p, w, b, now);
    assert [delivered] + [second] == [delivered, second];
  }

  lemma TwoLive(a: Row, b: Row)
    ensures LiveCount([a, b]) == Weigh(LiveRows, a) + Weigh(LiveRows, b)
  {
    OneLive(a);
    SumSnoc(LiveRows, [a], b);
    assert [a] + [b] == [a, b];
  }

  lemma ThenItFails(
    p: Policy, w0: World, pieces: seq<Piece>, delivered: Row, second: Row, message: string, now: int)
    returns (late: Piece)
    requires OneRow(p) && Sound(p, w0) && PossibleAll(p, w0, pieces) && NoFault(Trace(pieces))
    requires delivered.state.Delivered? && second.state.Pending? && delivered.id != second.id
    requires var w := AfterAll(p, w0, pieces);
             && w.core.rows == [delivered, second] && w.core.clock <= now && |w.ops| > 0
             && Latest(w).phase.ReportingDelivery? && Latest(w).claimedRowIds == [delivered.id]
    ensures PossibleAll(p, w0, pieces + [late]) && NoFault(Trace(pieces + [late]))
    ensures late.Resume? && late.event.NotifyRejected?
    ensures var end := AfterAll(p, w0, pieces + [late]);
            && Sound(p, end) && |end.ops| > 0 && Latest(end).phase.ReportingFailure?
            && Apply(MoveTo(Pending, Some(now + p.backoff), now), delivered) in end.core.rows
            && LiveCount(end.core.rows) == 2 && !Within(p, end.core)
  {
    late := FailLate(p, AfterAll(p, w0, pieces), delivered, second, message, now);
    OneMorePiece(p, w0, pieces, late);
    TwoLive(Apply(MoveTo(Pending, Some(now + p.backoff), now), delivered), second);
    RunIsSound(p, w0, pieces + [late]);
  }

  /**
   The run. With room for one pending row: an event is stored, claimed, handled and acknowledged; a second event takes
   the room it has left; then the notification of the first one's delivery fails. The delivered row is pending again, to
   be handed out a second time, and the reservoir holds two live rows. Nothing in the storage has failed.
   */
  lemma DeliveredComesBackOverTheLimit(p: Policy, a: Ingress, b: Ingress, now: int, flags: Flags, message: string)
    returns (pieces: seq<Piece>, late: Piece, delivered: Row)
    requires OneRow(p) && Plain(a) && Plain(b)
    ensures PossibleAll(p, NewWorld(p.required, now), pieces + [late]) && NoFault(Trace(pieces + [late]))
    ensures var before := AfterAll(p, NewWorld(p.required, now), pieces);
            delivered in before.core.rows && delivered.state.Delivered? && Within(p, before.core)
    ensures late.Resume? && late.event.NotifyRejected?
    ensures var end := AfterAll(p, NewWorld(p.required, now), pieces + [late]);
            && Sound(p, end) && |end.ops| > 0 && Latest(end).phase.ReportingFailure?
            && Apply(MoveTo(Pending, Some(now + p.backoff), now), delivered) in end.core.rows
            && LiveCount(end.core.rows) == 2 && !Within(p, end.core)
  {
    var w0 := NewWorld(p.required, now);
    var row, second := NewRow(p.store, 1, a, now), NewRow(p.store, 2, b, now);
    delivered := Apply(MoveTo(Delivered, None, now), Apply(ClaimFor(now, ReplayThroughDedupe), row));
    var first := FirstDelivery(p, a, now, flags, row, delivered);
    SecondEvent(p, AfterAll(p, w0, first), b, now, delivered, second);
    OneMorePiece(p, w0, first, Admit(Append(b, now), false));
    pieces := first + [Admit(Append(b, now), false)];
    TwoLive(delivered, second);
    NewWorldIsSound(p, now);
    late := ThenItFails(p, w0, pieces, delivered, second, message, now);
  }
}
