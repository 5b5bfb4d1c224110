/**
 The `ingress_events` table as a value: rows in ascending rowid, the WHERE clauses the reservoir uses,
 the UPDATE and DELETE statements it issues, and the two totals it caches.
 */
module Rows {
  import opened Options

  datatype ReplayState = Pending | Replaying | Delivered | DeadLetter

  datatype DeliveryMode = Normal | DedupeBypass | OrderBufferOnly | FullOutageBuffer | ReplayThroughDedupe

  datatype SourcePath = TransportStream | DedupedObservation

  datatype Row = Row(
    id: nat,
    ingestAt: int,
    source: SourcePath,
    payload: string,
    bytes: nat,
    mode: DeliveryMode,
    state: ReplayState,
    attempts: nat,
    retryAt: Option<int>,
    claimedAt: Option<int>,
    terminalAt: Option<int>,
    expiresAt: int)

  /** A row that still has to reach dedupe; the two cached totals cover exactly these rows. */
  predicate Live(state: ReplayState) {
    state.Pending? || state.Replaying?
  }

  predicate Terminal(state: ReplayState) {
    state.Delivered? || state.DeadLetter?
  }

  /** Number of bytes of the UTF-8 encoding of a string. */
  function Utf8Length(s: string): nat {
    if |s| == 0 then 0 else
      Utf8Length(s[..|s| - 1]) +
      (var c := s[|s| - 1] as int;
       if c < 0x80 then 1 else if c < 0x800 then 2 else if c < 0x1_0000 then 3 else 4)
  }

  // ---------------------------------------------------------------- WHERE

  datatype Query =
    | Eligible(now: int)
    | Stale(cutoff: int)
    | Expired(hardCutoff: int, rollingCutoff: int)
    | Deletable(deliveredCutoff: int, deadLetterCutoff: int)
    | InStates(states: set<ReplayState>)
    | Waiting(now: int)
    | Everything

  predicate Matches(q: Query, r: Row) {
    match q
    case Eligible(now) => r.state.Pending? && (r.retryAt.None? || r.retryAt.value <= now)
    case Stale(cutoff) => r.state.Replaying? && (r.claimedAt.None? || r.claimedAt.value <= cutoff)
    case Expired(hard, rolling) =>
      r.state.Pending? && (r.ingestAt <= hard || (r.retryAt.None? && r.ingestAt <= rolling))
    case Deletable(delivered, dead) =>
      r.terminalAt.Some? &&
      ((r.state.Delivered? && r.terminalAt.value <= delivered) ||
       (r.state.DeadLetter? && r.terminalAt.value <= dead))
    case InStates(states) => r.state in states
    case Waiting(now) => r.state.Pending? && r.retryAt.Some? && r.retryAt.value > now
    case Everything => true
  }

  /** `new Set(rowIds)`: an id named twice is one id. */
  function Unique(ids: seq<nat>): set<nat> {
    set id | id in ids
  }

  function IdsWhere(rows: seq<Row>, q: Query): set<nat> {
    if |rows| == 0 then {} else
      IdsWhere(rows[..|rows| - 1], q) + (if Matches(q, rows[|rows| - 1]) then {rows[|rows| - 1].id} else {})
  }

  function Ids(rows: seq<Row>): set<nat> {
    IdsWhere(rows, Everything)
  }

  lemma {:induction false} IdsWhereComplete(rows: seq<Row>, q: Query)
    ensures forall r | r in rows && Matches(q, r) :: r.id in IdsWhere(rows, q)
  {
    if |rows| > 0 {
      IdsWhereComplete(rows[..|rows| - 1], q);
      assert forall r :: r in rows <==> r in rows[..|rows| - 1] || r == rows[|rows| - 1];
    }
  }

  lemma {:induction false} IdsWhereSound(rows: seq<Row>, q: Query, id: nat) returns (r: Row)
    requires id in IdsWhere(rows, q)
    ensures r in rows && Matches(q, r) && r.id == id
  {
    var last := rows[|rows| - 1];
    if Matches(q, last) && last.id == id {
      r := last;
    } else {
      r := IdsWhereSound(rows[..|rows| - 1], q, id);
    }
  }

  /** `INTEGER PRIMARY KEY AUTOINCREMENT`: rowids ascend and every one is below the next to be issued. */
  predicate WellKeyed(rows: seq<Row>, nextId: nat) {
    |rows| == 0 ||
    (rows[|rows| - 1].id < nextId && WellKeyed(rows[..|rows| - 1], rows[|rows| - 1].id))
  }

  lemma {:induction false} KeysAscend(rows: seq<Row>, nextId: nat)
    requires WellKeyed(rows, nextId)
    ensures forall i, j | 0 <= i < j < |rows| :: rows[i].id < rows[j].id
    ensures forall i | 0 <= i < |rows| :: rows[i].id < nextId
  {
    if |rows| > 0 {
      KeysAscend(rows[..|rows| - 1], rows[|rows| - 1].id);
    }
  }

  // ---------------------------------------------------------------- UPDATE and DELETE

  datatype Change =
    | ClaimFor(at: int, claimMode: DeliveryMode)
    | MoveTo(next: ReplayState, retry: Option<int>, at: int)
    | Recover
    | SetState(next: ReplayState)
    | BumpAttempts

  function Apply(c: Change, r: Row): Row {
    match c
    case ClaimFor(at, mode) =>
      r.(state := Replaying, attempts := r.attempts + 1, retryAt := None, claimedAt := Some(at), mode := mode)
    case MoveTo(next, retry, at) =>
      r.(state := next, retryAt := retry, claimedAt := None, terminalAt := if Terminal(next) then Some(at) else None)
    case Recover => r.(state := Pending, claimedAt := None)
    case SetState(next) => r.(state := next)
    case BumpAttempts => r.(attempts := r.attempts + 1)
  }

  function Update(rows: seq<Row>, ids: set<nat>, c: Change): (out: seq<Row>)
    ensures |out| == |rows|
    ensures forall i | 0 <= i < |rows| :: out[i] == (if rows[i].id in ids then Apply(c, rows[i]) else rows[i])
  {
    seq(|rows|, i requires 0 <= i < |rows| => if rows[i].id in ids then Apply(c, rows[i]) else rows[i])
  }

  function Remove(rows: seq<Row>, ids: set<nat>): seq<Row> {
    if |rows| == 0 then [] else
      var rest := Remove(rows[..|rows| - 1], ids);
      var last := rows[|rows| - 1];
      if last.id in ids then rest else rest + [last]
  }

  /** The rows an `... WHERE rowid IN (ids)` selection returns, in rowid order. */
  function Where(rows: seq<Row>, ids: set<nat>): seq<Row> {
    if |rows| == 0 then [] else
      var rest := Where(rows[..|rows| - 1], ids);
      var last := rows[|rows| - 1];
      if last.id in ids then rest + [last] else rest
  }

  // ---------------------------------------------------------------- COUNT and SUM

  datatype Weight =
    | LiveRows
    | LiveBytes
    | LiveFrom(source: SourcePath)
    | LiveUnder(mode: DeliveryMode)
    | Matching(q: Query)

  function Weigh(w: Weight, r: Row): nat {
    match w
    case LiveRows => if Live(r.state) then 1 else 0
    case LiveBytes => if Live(r.state) then r.bytes else 0
    case LiveFrom(source) => if Live(r.state) && r.source == source then 1 else 0
    case LiveUnder(mode) => if Live(r.state) && r.mode == mode then 1 else 0
    case Matching(q) => if Matches(q, r) then 1 else 0
  }

  function Sum(w: Weight, rows: seq<Row>): nat {
    if |rows| == 0 then 0 else Sum(w, rows[..|rows| - 1]) + Weigh(w, rows[|rows| - 1])
  }

  function LiveCount(rows: seq<Row>): nat {
    Sum(LiveRows, rows)
  }

  /** +1, 0 or -1: what moving one row to `next` does to the number of live rows. */
  function Direction(from: ReplayState, next: ReplayState): int {
    if Live(from) == Live(next) then 0 else if Live(next) then 1 else -1
  }

  /** The change an UPDATE of the selected rows to `next` makes to the count of live rows. */
  function DeltaRows(selected: seq<Row>, next: ReplayState): int {
    if |selected| == 0 then 0 else
      DeltaRows(selected[..|selected| - 1], next) + Direction(selected[|selected| - 1].state, next)
  }

  /** And to the sum of their bytes. */
  function DeltaBytes(selected: seq<Row>, next: ReplayState): int {
    if |selected| == 0 then 0 else
      var row := selected[|selected| - 1];
      DeltaBytes(selected[..|selected| - 1], next) + Direction(row.state, next) * row.bytes
  }

  // ---------------------------------------------------------------- facts about the statements

  lemma UpdateSnoc(rows: seq<Row>, ids: set<nat>, c: Change)
    requires |rows| > 0
    ensures Update(rows, ids, c)[..|rows| - 1] == Update(rows[..|rows| - 1], ids, c)
  {
  }

  lemma {:induction false} UpdateKeepsKeys(rows: seq<Row>, nextId: nat, ids: set<nat>, c: Change)
    requires WellKeyed(rows, nextId)
    ensures WellKeyed(Update(rows, ids, c), nextId)
    ensures Ids(Update(rows, ids, c)) == Ids(rows)
  {
    UpdateKeepsIds(rows, ids, c);
    if |rows| > 0 {
      UpdateSnoc(rows, ids, c);
      UpdateKeepsKeys(rows[..|rows| - 1], rows[|rows| - 1].id, ids, c);
    }
  }

  lemma {:induction false} UpdateKeepsIds(rows: seq<Row>, ids: set<nat>, c: Change)
    ensures Ids(Update(rows, ids, c)) == Ids(rows)
  {
    if |rows| > 0 {
      UpdateSnoc(rows, ids, c);
      UpdateKeepsIds(rows[..|rows| - 1], ids, c);
    }
  }

  /** Every row after an UPDATE comes from exactly one row before it. */
  lemma UpdateOrigin(rows: seq<Row>, ids: set<nat>, c: Change, r: Row) returns (from: Row)
    requires r in Update(rows, ids, c)
    ensures from in rows && from.id == r.id
    ensures r == if from.id in ids then Apply(c, from) else from
  {
    var i :| 0 <= i < |rows| && Update(rows, ids, c)[i] == r;
    from := rows[i];
  }

  lemma UpdateImage(rows: seq<Row>, ids: set<nat>, c: Change, r: Row)
    requires r in rows
    ensures (if r.id in ids then Apply(c, r) else r) in Update(rows, ids, c)
  {
    var i :| 0 <= i < |rows| && rows[i] == r;
    assert Update(rows, ids, c)[i] == if r.id in ids then Apply(c, r) else r;
  }

  lemma UpdateNothing(rows: seq<Row>, ids: set<nat>, c: Change)
    requires forall r | r in rows :: r.id !in ids
    ensures Update(rows, ids, c) == rows
  {
    assert forall i | 0 <= i < |rows| :: rows[i] in rows;
  }

  lemma RowById(rows: seq<Row>, nextId: nat, a: Row, b: Row)
    requires WellKeyed(rows, nextId) && a in rows && b in rows && a.id == b.id
    ensures a == b
  {
    KeysAscend(rows, nextId);
  }

  /** The ids a query selects are those of matching rows, and on well-keyed rows membership goes both ways. */
  lemma SelectedRowMatches(rows: seq<Row>, nextId: nat, q: Query, r: Row)
    requires WellKeyed(rows, nextId) && r in rows
    ensures r.id in IdsWhere(rows, q) <==> Matches(q, r)
  {
    IdsWhereComplete(rows, q);
    if r.id in IdsWhere(rows, q) {
      var s := IdsWhereSound(rows, q, r.id);
      RowById(rows, nextId, r, s);
    }
  }

  lemma {:induction false} RemoveMembers(rows: seq<Row>, ids: set<nat>)
    ensures forall r :: r in Remove(rows, ids) <==> r in rows && r.id !in ids
  {
    if |rows| > 0 {
      var front, last := rows[..|rows| - 1], rows[|rows| - 1];
      RemoveMembers(front, ids);
      assert forall r :: r in rows <==> r in front || r == last;
    }
  }

  lemma {:induction false} RemoveKeepsKeys(rows: seq<Row>, nextId: nat, ids: set<nat>)
    requires WellKeyed(rows, nextId)
    ensures WellKeyed(Remove(rows, ids), nextId)
  {
    if |rows| > 0 {
      var front, last := rows[..|rows| - 1], rows[|rows| - 1];
      RemoveKeepsKeys(front, last.id, ids);
      RaiseNextId(Remove(front, ids), last.id, nextId);
      assert (Remove(front, ids) + [last])[..|Remove(front, ids)|] == Remove(front, ids);
    }
  }

  lemma RaiseNextId(rows: seq<Row>, nextId: nat, later: nat)
    requires WellKeyed(rows, nextId) && nextId <= later
    ensures WellKeyed(rows, later)
  {
  }

  lemma {:induction false} WhereMembers(rows: seq<Row>, ids: set<nat>)
    ensures forall r :: r in Where(rows, ids) <==> r in rows && r.id in ids
  {
    if |rows| > 0 {
      var front, last := rows[..|rows| - 1], rows[|rows| - 1];
      WhereMembers(front, ids);
      assert forall r :: r in rows <==> r in front || r == last;
    }
  }

  lemma {:induction false} WhereNothing(rows: seq<Row>)
    ensures Where(rows, {}) == []
  {
    if |rows| > 0 {
      WhereNothing(rows[..|rows| - 1]);
    }
  }

  // ---------------------------------------------------------------- facts about the totals

  /** A pointwise inequality between two tables of the same length carries over to the total. */
  lemma {:induction false} SumMonotone(w: Weight, a: seq<Row>, b: seq<Row>)
    requires |a| == |b|
    requires forall i | 0 <= i < |a| :: Weigh(w, a[i]) <= Weigh(w, b[i])
    ensures Sum(w, a) <= Sum(w, b)
  {
    if |a| > 0 {
      SumMonotone(w, a[..|a| - 1], b[..|b| - 1]);
    }
  }

  lemma SumSame(w: Weight, a: seq<Row>, b: seq<Row>)
    requires |a| == |b|
    requires forall i | 0 <= i < |a| :: Weigh(w, a[i]) == Weigh(w, b[i])
    ensures Sum(w, a) == Sum(w, b)
  {
    SumMonotone(w, a, b);
    SumMonotone(w, b, a);
  }

  lemma {:induction false} SumRemove(w: Weight, rows: seq<Row>, ids: set<nat>)
    ensures Sum(w, Remove(rows, ids)) + Sum(w, Where(rows, ids)) == Sum(w, rows)
  {
    if |rows| > 0 {
      var front, last := rows[..|rows| - 1], rows[|rows| - 1];
      SumRemove(w, front, ids);
      SumSnoc(w, Remove(front, ids), last);
      SumSnoc(w, Where(front, ids), last);
    }
  }

  lemma SumSnoc(w: Weight, rows: seq<Row>, r: Row)
    ensures Sum(w, rows + [r]) == Sum(w, rows) + Weigh(w, r)
  {
    assert (rows + [r])[..|rows|] == rows;
  }

  lemma {:induction false} SumZero(w: Weight, rows: seq<Row>)
    ensures Sum(w, rows) == 0 <==> forall r | r in rows :: Weigh(w, r) == 0
  {
    if |rows| > 0 {
      var front, last := rows[..|rows| - 1], rows[|rows| - 1];
      SumZero(w, front);
      assert forall r :: r in rows <==> r in front || r == last;
    }
  }

  /**
   The incremental totals are right: the delta computed from the rows selected before an UPDATE is what a
   recount of the whole table finds after it, whatever the ids, whatever the target state.
   */
  lemma DeltaIsRecount(rows: seq<Row>, ids: set<nat>, c: Change)
    requires c.MoveTo? || c.SetState?
    ensures Sum(LiveRows, Update(rows, ids, c)) == Sum(LiveRows, rows) + DeltaRows(Where(rows, ids), c.next)
    ensures Sum(LiveBytes, Update(rows, ids, c)) == Sum(LiveBytes, rows) + DeltaBytes(Where(rows, ids), c.next)
  {
    DeltaRowsIsRecount(rows, ids, c);
    DeltaBytesIsRecount(rows, ids, c);
  }

  lemma {:induction false} DeltaRowsIsRecount(rows: seq<Row>, ids: set<nat>, c: Change)
    requires c.MoveTo? || c.SetState?
    ensures Sum(LiveRows, Update(rows, ids, c)) == Sum(LiveRows, rows) + DeltaRows(Where(rows, ids), c.next)
  {
    if |rows| > 0 {
      var front, last := rows[..|rows| - 1], rows[|rows| - 1];
      DeltaRowsIsRecount(front, ids, c);
      UpdateSnoc(rows, ids, c);
      MoveOne(last, c);
      DeltaSnoc(Where(front, ids), last, c.next);
    }
  }

  lemma {:induction false} DeltaBytesIsRecount(rows: seq<Row>, ids: set<nat>, c: Change)
    requires c.MoveTo? || c.SetState?
    ensures Sum(LiveBytes, Update(rows, ids, c)) == Sum(LiveBytes, rows) + DeltaBytes(Where(rows, ids), c.next)
  {
    if |rows| > 0 {
      var front, last := rows[..|rows| - 1], rows[|rows| - 1];
      DeltaBytesIsRecount(front, ids, c);
      UpdateSnoc(rows, ids, c);
      MoveOne(last, c);
      DeltaSnoc(Where(front, ids), last, c.next);
    }
  }

  lemma MoveOne(r: Row, c: Change)
    requires c.MoveTo? || c.SetState?
    ensures Weigh(LiveRows, Apply(c, r)) == Weigh(LiveRows, r) + Direction(r.state, c.next)
    ensures Weigh(LiveBytes, Apply(c, r)) == Weigh(LiveBytes, r) + Direction(r.state, c.next) * r.bytes
  {
  }

  lemma DeltaSnoc(selected: seq<Row>, r: Row, next: ReplayState)
    ensures DeltaRows(selected + [r], next) == DeltaRows(selected, next) + Direction(r.state, next)
    ensures DeltaBytes(selected + [r], next) == DeltaBytes(selected, next) + Direction(r.state, next) * r.bytes
  {
    assert (selected + [r])[..|selected|] == selected;
  }

  /** Claiming and recovering move rows between the two live states, so neither total changes. */
  lemma LiveMovesKeepTotals(rows: seq<Row>, ids: set<nat>, c: Change)
    requires c.ClaimFor? || c.Recover? || c.BumpAttempts?
    requires !c.BumpAttempts? ==> forall r | r in rows && r.id in ids :: Live(r.state)
    ensures Sum(LiveRows, Update(rows, ids, c)) == Sum(LiveRows, rows)
    ensures Sum(LiveBytes, Update(rows, ids, c)) == Sum(LiveBytes, rows)
  {
    forall i | 0 <= i < |rows|
      ensures Weigh(LiveRows, Update(rows, ids, c)[i]) == Weigh(LiveRows, rows[i])
      ensures Weigh(LiveBytes, Update(rows, ids, c)[i]) == Weigh(LiveBytes, rows[i])
    {
      assert rows[i] in rows;
    }
    SumSame(LiveRows, Update(rows, ids, c), rows);
    SumSame(LiveBytes, Update(rows, ids, c), rows);
  }
}
