/**
 The life of one row over a run, column by column: which columns never change, how often it has been claimed, and that
 everything else about it is what the last step to touch it wrote.
 */
module RowHistory {
  import opened Options
  import opened Rows
  import opened Ordering
  import opened Store
  import opened Protocol

  /** The step writes to the row: it names it, selects it, or finds it interrupted. */
  predicate Touches(p: Policy, c: Core, s: Step, r: Row) {
    match s
    case Deliver(ids, _) => r.id in ids
    case PutBack(ids, _, _) => r.id in ids
    case Reclaim(ids, _) => r.id in ids
    case Claim(limit, now, _) => r.id in ClaimIds(c.rows, limit, now)
    case MarkDead(outage, now, _) => r.id in ExpiredBatch(p.store, c.rows, outage, now)
    case Restart(_) => r.state == Replaying
    case _ => false
  }

  ghost predicate TouchesId(p: Policy, c: Core, s: Step, id: nat) {
    exists r :: r in c.rows && r.id == id && Touches(p, c, s, r)
  }

  /** The columns that tell where a row stands: state, retry time, claim time, terminal time. */
  datatype Standing = Standing(
    state: ReplayState, retryAt: Option<int>, claimedAt: Option<int>, terminalAt: Option<int>)

  function StandingOf(r: Row): Standing {
    Standing(r.state, r.retryAt, r.claimedAt, r.terminalAt)
  }

  /** What a step writes to the rows it touches. */
  function Written(s: Step): Option<Standing> {
    match s
    case Deliver(_, now) => Some(Standing(Delivered, None, None, Some(now)))
    case PutBack(_, retry, _) => Some(Standing(Pending, retry, None, None))
    case Reclaim(_, _) => Some(Standing(Pending, None, None, None))
    case Claim(_, _, stamp) => Some(Standing(Replaying, None, Some(stamp), None))
    case MarkDead(_, _, stamp) => Some(Standing(DeadLetter, None, None, Some(stamp)))
    case Restart(_) => Some(Standing(Pending, None, None, None))
    case _ => None
  }

  /** Terminal rows and only they have a terminal time, claimed ones a claim time; only pending ones a retry time. */
  predicate Stamped(r: Row) {
    && (r.terminalAt.Some? <==> r.state == Delivered || r.state == DeadLetter)
    && (r.claimedAt.Some? <==> r.state == Replaying)
    && (r.retryAt.Some? ==> r.state == Pending)
  }

  /** An UPDATE leaves one row for each id. */
  lemma UpdatedRow(rows: seq<Row>, nextId: nat, ids: set<nat>, change: Change, before: Row, after: Row)
    requires WellKeyed(rows, nextId) && before in rows && after in Update(rows, ids, change) && after.id == before.id
    ensures after == if before.id in ids then Apply(change, before) else before
  {
    UpdateImage(rows, ids, change, before);
    UpdateKeepsKeys(rows, nextId, ids, change);
    RowById(Update(rows, ids, change), nextId, after, if before.id in ids then Apply(change, before) else before);
  }

  /** The columns no step ever changes. */
  predicate SameIdentity(before: Row, after: Row) {
    && after.ingestAt == before.ingestAt && after.source == before.source && after.payload == before.payload
    && after.bytes == before.bytes && after.expiresAt == before.expiresAt
  }

  /** The row as a step that touches it leaves it. */
  predicate Changed(s: Step, before: Row, after: Row) {
    && Written(s) == Some(StandingOf(after)) && Stamped(after)
    && after.attempts == before.attempts + (if s.Claim? then 1 else 0)
    && after.mode == (if s.Claim? then ReplayThroughDedupe else before.mode)
  }

  lemma MovedByIds(p: Policy, c: Core, s: Step, before: Row, after: Row)
    requires WellFormed(p, c) && before in c.rows && after in NextRows(p, c, s) && after.id == before.id
    requires s.Deliver? || s.PutBack? || s.Reclaim?
    ensures SameIdentity(before, after)
    ensures if Touches(p, c, s, before) then Changed(s, before, after) else after == before
  {
    match s
    case Deliver(ids, now) => UpdatedRow(c.rows, c.nextId, ids, MoveTo(Delivered, None, now), before, after);
    case PutBack(ids, retry, now) => UpdatedRow(c.rows, c.nextId, ids, MoveTo(Pending, retry, now), before, after);
    case Reclaim(ids, now) => UpdatedRow(c.rows, c.nextId, ids, MoveTo(Pending, None, now), before, after);
  }

  lemma ClaimedRow(p: Policy, c: Core, s: Step, before: Row, after: Row)
    requires WellFormed(p, c) && before in c.rows && after in NextRows(p, c, s) && after.id == before.id
    requires s.Claim? && Stamped(before)
    ensures SameIdentity(before, after)
    ensures if Touches(p, c, s, before) then Changed(s, before, after) else after == before
  {
    SelectedById(Eligible(s.now), c.rows, c.nextId, s.limit, before);
    SelectedFromTable(Eligible(s.now), c.rows, c.nextId, s.limit);
    UpdatedRow(c.rows, c.nextId, ClaimIds(c.rows, s.limit, s.now), ClaimFor(s.stamp, ReplayThroughDedupe),
               before, after);
  }

  lemma DeadRow(p: Policy, c: Core, s: Step, before: Row, after: Row)
    requires WellFormed(p, c) && before in c.rows && after in NextRows(p, c, s) && after.id == before.id
    requires s.MarkDead?
    ensures SameIdentity(before, after)
    ensures if Touches(p, c, s, before) then Changed(s, before, after) else after == before
  {
    UpdatedRow(c.rows, c.nextId, ExpiredBatch(p.store, c.rows, s.outage, s.now), MoveTo(DeadLetter, None, s.stamp),
               before, after);
  }

  lemma RecoveredRow(p: Policy, c: Core, s: Step, before: Row, after: Row)
    requires WellFormed(p, c) && before in c.rows && after in NextRows(p, c, s) && after.id == before.id
    requires s.Restart? && Stamped(before)
    ensures SameIdentity(before, after)
    ensures if Touches(p, c, s, before) then Changed(s, before, after) else after == before
  {
    SelectedRowMatches(c.rows, c.nextId, InStates({Replaying}), before);
    UpdatedRow(c.rows, c.nextId, IdsWhere(c.rows, InStates({Replaying})), Recover, before, after);
  }

  /** One step on one row: untouched it stays as it is, and touched it changes in the columns of the step. */
  lemma StepOnRow(p: Policy, c: Core, s: Step, before: Row, after: Row)
    requires WellFormed(p, c) && before in c.rows && after in NextRows(p, c, s) && after.id == before.id
    requires Stamped(before)
    ensures SameIdentity(before, after)
    ensures if Touches(p, c, s, before) then Changed(s, before, after) else after == before
  {
    match s
    case Append(a, now) =>
      StepKeepsKeys(p, c, s);
      RowById(NextRows(p, c, s), c.nextId + 1, before, after);
    case Claim(_, _, _) => ClaimedRow(p, c, s, before, after);
    case MarkDead(_, _, _) => DeadRow(p, c, s, before, after);
    case Restart(_) => RecoveredRow(p, c, s, before, after);
    case Purge(now) =>
      RemoveMembers(c.rows, DeletableBatch(p.store, c.rows, now));
      RowById(c.rows, c.nextId, before, after);
    case _ =>
      if s.Deliver? || s.PutBack? || s.Reclaim? {
        MovedByIds(p, c, s, before, after);
      } else {
        RowById(c.rows, c.nextId, before, after);
      }
  }

  // ---------------------------------------------------------------- over a run

  /** How many claims of the run selected the row. */
  ghost function Claims(p: Policy, c: Core, steps: seq<Step>, id: nat): nat {
    if |steps| == 0 then 0 else
      var front, last := steps[..|steps| - 1], steps[|steps| - 1];
      Claims(p, c, front, id) + if last.Claim? && TouchesId(p, Exec(p, c, front), last, id) then 1 else 0
  }

  ghost function LastTouch(p: Policy, c: Core, steps: seq<Step>, id: nat): Option<Step> {
    if |steps| == 0 then None else
      var front, last := steps[..|steps| - 1], steps[|steps| - 1];
      if TouchesId(p, Exec(p, c, front), last, id) then Some(last) else LastTouch(p, c, front, id)
  }

  /** The row a row of the end was before the last step. */
  lemma RowBefore(p: Policy, c: Core, steps: seq<Step>, mid: Core, before: Row, after: Row) returns (r: Row)
    requires WellFormed(p, c) && Allowed(p, c, steps) && |steps| > 0 && before in c.rows
    requires after in Exec(p, c, steps).rows && after.id == before.id
    requires mid == Exec(p, c, steps[..|steps| - 1])
    ensures r in mid.rows && r.id == before.id && WellFormed(p, mid) && Enabled(p, mid, steps[|steps| - 1])
    ensures forall s: Step :: TouchesId(p, mid, s, before.id) <==> Touches(p, mid, s, r)
  {
    var front, last := steps[..|steps| - 1], steps[|steps| - 1];
    RunKeepsForm(p, c, front);
    var from := RowOrigin(p, mid, last, after);
    KeysAscend(c.rows, c.nextId);
    NextIdGrows(p, c, front);
    r := from.value;
    forall s: Step ensures TouchesId(p, mid, s, before.id) <==> Touches(p, mid, s, r) {
      if TouchesId(p, mid, s, before.id) {
        var q :| q in mid.rows && q.id == before.id && Touches(p, mid, s, q);
        RowById(mid.rows, mid.nextId, q, r);
      }
    }
  }

  /**
   Over any run a row keeps what was appended: its ingest time, source, payload, byte count and expiry. It has been
   attempted once more for every claim that took it, the first of which gives it the replay mode for good; and its state
   and its three times are those the last step to touch it has written.
   */
  lemma {:induction false} RowIsItsLastTouch(p: Policy, c: Core, steps: seq<Step>, before: Row, after: Row)
    requires WellFormed(p, c) && Allowed(p, c, steps) && before in c.rows && Stamped(before)
    requires after in Exec(p, c, steps).rows && after.id == before.id
    ensures after.ingestAt == before.ingestAt && after.source == before.source && after.payload == before.payload
    ensures after.bytes == before.bytes && after.expiresAt == before.expiresAt && Stamped(after)
    ensures after.attempts == before.attempts + Claims(p, c, steps, before.id)
    ensures after.mode == if Claims(p, c, steps, before.id) == 0 then before.mode else ReplayThroughDedupe
    ensures var touch := LastTouch(p, c, steps, before.id);
            if touch.None? then StandingOf(after) == StandingOf(before)
            else Written(touch.value) == Some(StandingOf(after))
  {
    if |steps| == 0 {
      RowById(c.rows, c.nextId, before, after);
    } else {
      var front, last := steps[..|steps| - 1], steps[|steps| - 1];
      var mid := Exec(p, c, front);
      var r := RowBefore(p, c, steps, mid, before, after);
      RowIsItsLastTouch(p, c, front, before, r);
      StepOnRow(p, mid, last, r, after);
    }
  }

  /** So the row of an appended event, however long ago, still tells what was appended. */
  lemma AppendedRowTells(p: Policy, c: Core, append: Step, steps: seq<Step>, after: Row)
    requires WellFormed(p, c) && append.Append? && Enabled(p, c, append) && Allowed(p, Next(p, c, append), steps)
    requires append.ingress.retryAt.Some? ==> append.ingress.state == Some(Pending) ||
                                              (append.ingress.state.None? && append.ingress.source.TransportStream?)
    requires append.ingress.state != Some(Replaying)
    requires after in Exec(p, Next(p, c, append), steps).rows && after.id == c.nextId
    ensures var a := append.ingress;
            var ingestAt := if a.ingestAt == None then append.now else a.ingestAt.value;
            var claims := Claims(p, Next(p, c, append), steps, c.nextId);
            && after.ingestAt == ingestAt && after.source == a.source && after.payload == a.payload
            && after.bytes == Utf8Length(a.payload) && after.attempts == claims
            && after.expiresAt - ingestAt == (if a.outage then p.store.outageWindow else p.store.rollingWindow)
            && after.mode == (if claims == 0 then a.mode else ReplayThroughDedupe)
            && (LastTouch(p, Next(p, c, append), steps, c.nextId).None? ==>
                  && (a.state != None ==> after.state == a.state.value)
                  && (a.state == None ==> after.state == if a.source == DedupedObservation then Delivered else Pending)
                  && after.retryAt == a.retryAt && after.claimedAt == None
                  && (after.terminalAt == if after.state == Pending then None else Some(ingestAt)))
  {
    var row := NewRow(p.store, c.nextId, append.ingress, append.now);
    assert row in c.rows + [row];
    StepKeepsForm(p, c, append);
    RowIsItsLastTouch(p, Next(p, c, append), steps, row, after);
  }
}
