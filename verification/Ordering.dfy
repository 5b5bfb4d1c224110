/** `SELECT ... WHERE q ORDER BY key ASC, rowid ASC LIMIT n`, and what such a selection returns. */
module Ordering {
  import opened Options
  import opened Rows

  /** The first ORDER BY column: terminal time for the deletion query, ingest time for every other. */
  function Key(q: Query, r: Row): int {
    if q.Deletable? && r.terminalAt.Some? then r.terminalAt.value else r.ingestAt
  }

  predicate Before(q: Query, a: Row, b: Row) {
    Key(q, a) < Key(q, b) || (Key(q, a) == Key(q, b) && a.id < b.id)
  }

  predicate Sorted(q: Query, s: seq<Row>) {
    forall i, j | 0 <= i < j < |s| :: Before(q, s[i], s[j])
  }

  function Insert(q: Query, s: seq<Row>, r: Row): seq<Row> {
    if |s| == 0 || Before(q, s[|s| - 1], r) then s + [r]
    else Insert(q, s[..|s| - 1], r) + [s[|s| - 1]]
  }

  function Ordered(q: Query, rows: seq<Row>): seq<Row> {
    if |rows| == 0 then [] else
      var rest := Ordered(q, rows[..|rows| - 1]);
      var last := rows[|rows| - 1];
      if Matches(q, last) then Insert(q, rest, last) else rest
  }

  /** LIMIT: a negative bound means no bound in SQLite. */
  function Limited(s: seq<Row>, limit: int): seq<Row> {
    if limit < 0 || limit >= |s| then s else s[..limit]
  }

  function Select(q: Query, rows: seq<Row>, limit: int): seq<Row> {
    Limited(Ordered(q, rows), limit)
  }

  lemma {:induction false} InsertMembers(q: Query, s: seq<Row>, r: Row)
    ensures |Insert(q, s, r)| == |s| + 1
    ensures forall x :: x in Insert(q, s, r) <==> x in s || x == r
  {
    if |s| > 0 && !Before(q, s[|s| - 1], r) {
      InsertMembers(q, s[..|s| - 1], r);
      assert forall x :: x in s <==> x in s[..|s| - 1] || x == s[|s| - 1];
    }
  }

  lemma {:induction false} InsertSorted(q: Query, s: seq<Row>, r: Row)
    requires Sorted(q, s)
    requires forall x | x in s :: x.id != r.id
    ensures Sorted(q, Insert(q, s, r))
  {
    if |s| > 0 && !Before(q, s[|s| - 1], r) {
      var front, last := s[..|s| - 1], s[|s| - 1];
      InsertSorted(q, front, r);
      InsertMembers(q, front, r);
      var inner := Insert(q, front, r);
      forall i | 0 <= i < |inner| ensures Before(q, inner[i], last) {
        assert inner[i] in inner;
      }
    }
  }

  /** The selection returns every matching row once, in order, and nothing else. */
  lemma {:induction false} OrderedIsSelection(q: Query, rows: seq<Row>, nextId: nat)
    requires WellKeyed(rows, nextId)
    ensures Sorted(q, Ordered(q, rows))
    ensures forall r :: r in Ordered(q, rows) <==> r in rows && Matches(q, r)
    ensures |Ordered(q, rows)| == Sum(Matching(q), rows)
  {
    if |rows| > 0 {
      var front, last := rows[..|rows| - 1], rows[|rows| - 1];
      OrderedIsSelection(q, front, last.id);
      KeysAscend(rows, nextId);
      var rest := Ordered(q, front);
      InsertMembers(q, rest, last);
      assert forall r :: r in rows <==> r in front || r == last;
      InsertSorted(q, rest, last);
    }
  }

  /** Order and membership determine the sequence. */
  lemma {:induction false} SortedIsUnique(q: Query, a: seq<Row>, b: seq<Row>)
    requires Sorted(q, a) && Sorted(q, b)
    requires forall r :: r in a <==> r in b
    ensures a == b
  {
    if |b| > 0 { assert b[0] in a; }
    if |a| > 0 {
      assert a[0] in b;
      assert a[0] == b[0];
      forall r ensures r in a[1..] <==> r in b[1..] {
        assert r in a <==> r == a[0] || r in a[1..];
        assert r in b <==> r == b[0] || r in b[1..];
        if r in a[1..] { var i :| 1 <= i < |a| && a[i] == r; assert Before(q, a[0], a[i]); }
        if r in b[1..] { var i :| 1 <= i < |b| && b[i] == r; assert Before(q, b[0], b[i]); }
      }
      SortedIsUnique(q, a[1..], b[1..]);
    }
  }

  /** Ids of a sorted selection are pairwise distinct rows of the table. */
  lemma SelectMembers(q: Query, rows: seq<Row>, nextId: nat, limit: int)
    requires WellKeyed(rows, nextId)
    ensures Select(q, rows, limit) <= Ordered(q, rows)
    ensures Sorted(q, Select(q, rows, limit))
    ensures forall r | r in Select(q, rows, limit) :: r in rows && Matches(q, r)
    ensures Ids(Select(q, rows, limit)) <= IdsWhere(rows, q)
    ensures limit >= 0 ==> |Select(q, rows, limit)| <= limit
    ensures |Select(q, rows, limit)| == 0 <==> limit == 0 || IdsWhere(rows, q) == {}
  {
    OrderedIsSelection(q, rows, nextId);
    var s := Select(q, rows, limit);
    forall r | r in s ensures r in Ordered(q, rows) { }
    SubsetIds(s, rows, q);
    SubsetIds(Ordered(q, rows), rows, q);
    forall id | id in IdsWhere(rows, q) ensures |Ordered(q, rows)| > 0 {
      var r := IdsWhereSound(rows, q, id);
      assert r in Ordered(q, rows);
    }
    if |s| > 0 {
      IdsWhereComplete(s, Everything);
      assert s[0].id in Ids(s);
    }
    if |Ordered(q, rows)| > 0 {
      IdsWhereComplete(rows, q);
      assert Ordered(q, rows)[0].id in IdsWhere(rows, q);
    }
  }

  lemma SelectedFromTable(q: Query, rows: seq<Row>, nextId: nat, limit: int)
    requires WellKeyed(rows, nextId)
    ensures forall r | r in Select(q, rows, limit) :: r in rows && Matches(q, r)
    ensures limit >= 0 ==> |Select(q, rows, limit)| <= limit
  {
    OrderedIsSelection(q, rows, nextId);
  }

  /** The ids of a limited selection: rows of the table, at most `limit` of them. */
  lemma BatchIds(q: Query, rows: seq<Row>, nextId: nat, limit: int)
    requires WellKeyed(rows, nextId)
    ensures Ids(Select(q, rows, limit)) <= IdsWhere(rows, q)
    ensures Ids(rows) * Ids(Select(q, rows, limit)) == Ids(Select(q, rows, limit))
    ensures limit >= 0 ==> |Ids(Select(q, rows, limit))| <= limit
  {
    SelectedFromTable(q, rows, nextId, limit);
    SubsetIds(Select(q, rows, limit), rows, q);
    WhereIsSubset(rows, q);
    IdsAtMost(Select(q, rows, limit));
  }

  lemma {:induction false} WhereIsSubset(rows: seq<Row>, q: Query)
    ensures IdsWhere(rows, q) <= Ids(rows)
  {
    if |rows| > 0 {
      WhereIsSubset(rows[..|rows| - 1], q);
    }
  }

  lemma {:induction false} IdsAtMost(s: seq<Row>)
    ensures |Ids(s)| <= |s|
  {
    if |s| > 0 {
      IdsAtMost(s[..|s| - 1]);
    }
  }

  lemma SubsetIds(s: seq<Row>, rows: seq<Row>, q: Query)
    requires forall r | r in s :: r in rows && Matches(q, r)
    ensures Ids(s) <= IdsWhere(rows, q)
  {
    forall id | id in Ids(s) ensures id in IdsWhere(rows, q) {
      var r := IdsWhereSound(s, Everything, id);
      IdsWhereComplete(rows, q);
    }
  }

  lemma DropIsRest(q: Query, s: seq<Row>, k: nat)
    requires Sorted(q, s) && k <= |s|
    ensures forall r :: r in s[k..] <==> r in s && r !in s[..k]
  {
    assert forall i, j | 0 <= i < k <= j < |s| :: s[i] != s[j] by {
      assert forall i, j | 0 <= i < k <= j < |s| :: Before(q, s[i], s[j]);
    }
    assert s == s[..k] + s[k..];
  }

  /** Changing or removing the rows of a selected prefix leaves exactly the rest of the selection. */
  lemma RestAfterPrefix(q: Query, rows: seq<Row>, later: seq<Row>, nextId: nat, k: nat)
    requires WellKeyed(rows, nextId) && WellKeyed(later, nextId)
    requires k <= |Ordered(q, rows)|
    requires forall r :: (r in later && Matches(q, r)) <==>
                         (r in rows && Matches(q, r) && r !in Ordered(q, rows)[..k])
    ensures Ordered(q, later) == Ordered(q, rows)[k..]
  {
    OrderedIsSelection(q, rows, nextId);
    OrderedIsSelection(q, later, nextId);
    var s := Ordered(q, rows);
    DropIsRest(q, s, k);
    SortedIsUnique(q, Ordered(q, later), s[k..]);
  }

  /** On rows of the table, being selected by id and being in the selection are the same. */
  lemma SelectedById(q: Query, rows: seq<Row>, nextId: nat, limit: int, r: Row)
    requires WellKeyed(rows, nextId) && r in rows
    ensures r.id in Ids(Select(q, rows, limit)) <==> r in Select(q, rows, limit)
  {
    var picked := Select(q, rows, limit);
    SelectedFromTable(q, rows, nextId, limit);
    IdsWhereComplete(picked, Everything);
    if r.id in Ids(picked) {
      var s := IdsWhereSound(picked, Everything, r.id);
      RowById(rows, nextId, r, s);
    }
  }

  /** A sorted selection names as many ids as it has rows. */
  lemma {:induction false} DistinctIds(q: Query, s: seq<Row>, rows: seq<Row>, nextId: nat)
    requires WellKeyed(rows, nextId) && Sorted(q, s) && forall r | r in s :: r in rows
    ensures |Ids(s)| == |s|
  {
    if |s| > 0 {
      var front, last := s[..|s| - 1], s[|s| - 1];
      DistinctIds(q, front, rows, nextId);
      assert last in s;
      forall id | id in Ids(front) ensures id != last.id {
        var r := IdsWhereSound(front, Everything, id);
        assert r in s && Before(q, r, last);
        if r.id == last.id { RowById(rows, nextId, r, last); }
      }
    }
  }
}
