/** The monitor's SQLite database as a value: the event table and the singleton row of cached totals. */
module Database {
  import opened Options
  import opened Rows

  datatype Totals = Totals(rows: int, bytes: int)

  /** `totals` is the row of `reservoir_capacity_state`; its primary key and CHECK admit at most one. */
  datatype Database = Database(rows: seq<Row>, nextId: nat, totals: Option<Totals>)

  function Recount(rows: seq<Row>): Totals {
    Totals(Sum(LiveRows, rows), Sum(LiveBytes, rows))
  }

  predicate MeasuredBytes(rows: seq<Row>) {
    |rows| == 0 ||
    (rows[|rows| - 1].bytes == Utf8Length(rows[|rows| - 1].payload) && MeasuredBytes(rows[..|rows| - 1]))
  }

  /** What every committed operation keeps: keys are keys, byte evidence is measured, totals are a recount. */
  predicate Accounted(db: Database) {
    && WellKeyed(db.rows, db.nextId)
    && MeasuredBytes(db.rows)
    && db.totals == Some(Recount(db.rows))
  }

  lemma {:induction false} IdsCount(rows: seq<Row>, nextId: nat)
    requires WellKeyed(rows, nextId)
    ensures |Ids(rows)| == |rows|
  {
    if |rows| > 0 {
      var front, last := rows[..|rows| - 1], rows[|rows| - 1];
      IdsCount(front, last.id);
      forall id | id in Ids(front) ensures id < last.id {
        var r := IdsWhereSound(front, Everything, id);
        KeysAscend(front, last.id);
      }
    }
  }

  lemma {:induction false} WhereKeepsKeys(rows: seq<Row>, nextId: nat, ids: set<nat>)
    requires WellKeyed(rows, nextId)
    ensures WellKeyed(Where(rows, ids), nextId)
  {
    if |rows| > 0 {
      var front, last := rows[..|rows| - 1], rows[|rows| - 1];
      WhereKeepsKeys(front, last.id, ids);
      RaiseNextId(Where(front, ids), last.id, nextId);
      assert (Where(front, ids) + [last])[..|Where(front, ids)|] == Where(front, ids);
    }
  }

  /** `changes` of an UPDATE or DELETE by rowid: the number of those ids that name a row. */
  lemma WhereCount(rows: seq<Row>, nextId: nat, ids: set<nat>)
    requires WellKeyed(rows, nextId)
    ensures |Where(rows, ids)| == |Ids(rows) * ids|
  {
    WhereKeepsKeys(rows, nextId, ids);
    WhereMembers(rows, ids);
    IdsCount(Where(rows, ids), nextId);
    forall id | id in Ids(Where(rows, ids)) ensures id in Ids(rows) * ids {
      var r := IdsWhereSound(Where(rows, ids), Everything, id);
      IdsWhereComplete(rows, Everything);
    }
    forall id | id in Ids(rows) * ids ensures id in Ids(Where(rows, ids)) {
      var r := IdsWhereSound(rows, Everything, id);
      IdsWhereComplete(Where(rows, ids), Everything);
    }
    assert Ids(Where(rows, ids)) == Ids(rows) * ids;
  }

  lemma {:induction false} UpdateKeepsBytes(rows: seq<Row>, ids: set<nat>, c: Change)
    requires MeasuredBytes(rows)
    ensures MeasuredBytes(Update(rows, ids, c))
  {
    if |rows| > 0 {
      UpdateSnoc(rows, ids, c);
      UpdateKeepsBytes(rows[..|rows| - 1], ids, c);
    }
  }

  lemma {:induction false} RemoveKeepsBytes(rows: seq<Row>, ids: set<nat>)
    requires MeasuredBytes(rows)
    ensures MeasuredBytes(Remove(rows, ids))
  {
    if |rows| > 0 {
      var rest := Remove(rows[..|rows| - 1], ids);
      RemoveKeepsBytes(rows[..|rows| - 1], ids);
      assert (rest + [rows[|rows| - 1]])[..|rest|] == rest;
    }
  }

  lemma UpdateTwice(rows: seq<Row>, a: set<nat>, b: set<nat>, next: ReplayState, retry: Option<int>, at: int)
    ensures var c := MoveTo(next, retry, at);
            Update(Update(rows, a, c), b, c) == Update(rows, a + b, c)
  {
  }

  /** Deleting terminal rows leaves both totals alone. */
  lemma RemoveTerminalKeepsTotals(rows: seq<Row>, nextId: nat, ids: set<nat>)
    requires WellKeyed(rows, nextId)
    requires forall r | r in rows && r.id in ids :: !Live(r.state)
    ensures Recount(Remove(rows, ids)) == Recount(rows)
  {
    WhereMembers(rows, ids);
    SumZero(LiveRows, Where(rows, ids));
    SumZero(LiveBytes, Where(rows, ids));
    SumRemove(LiveRows, rows, ids);
    SumRemove(LiveBytes, rows, ids);
  }

  /** Totals moved by a change of rows and bytes. */
  function Shifted(t: Totals, rows: int, bytes: int): Totals {
    Totals(t.rows + rows, t.bytes + bytes)
  }

  function Grown(t: Totals, row: Row): Totals {
    if Live(row.state) then Shifted(t, 1, row.bytes) else t
  }

  /** An UPDATE of the state of some rows together with the delta of the rows selected before it keeps the books. */
  lemma MoveKeepsAccounts(db: Database, ids: set<nat>, c: Change, selected: seq<Row>)
    requires Accounted(db) && (c.MoveTo? || c.SetState?) && selected == Where(db.rows, ids)
    ensures var totals := Shifted(db.totals.value, DeltaRows(selected, c.next), DeltaBytes(selected, c.next));
            Accounted(Database(Update(db.rows, ids, c), db.nextId, Some(totals)))
    ensures LiveCount(Update(db.rows, ids, c)) == LiveCount(db.rows) + DeltaRows(selected, c.next)
  {
    DeltaIsRecount(db.rows, ids, c);
    UpdateKeepsKeys(db.rows, db.nextId, ids, c);
    UpdateKeepsBytes(db.rows, ids, c);
  }

  /** So does a move between the two live states, and the counting of attempts, with no change of totals. */
  lemma LiveMoveKeepsAccounts(db: Database, ids: set<nat>, c: Change)
    requires Accounted(db) && (c.ClaimFor? || c.Recover? || c.BumpAttempts?)
    requires !c.BumpAttempts? ==> forall r | r in db.rows && r.id in ids :: Live(r.state)
    ensures Accounted(db.(rows := Update(db.rows, ids, c)))
    ensures LiveCount(Update(db.rows, ids, c)) == LiveCount(db.rows)
  {
    LiveMovesKeepTotals(db.rows, ids, c);
    UpdateKeepsKeys(db.rows, db.nextId, ids, c);
    UpdateKeepsBytes(db.rows, ids, c);
  }

  /** Ids selected by a query that only live rows match are ids of live rows. */
  lemma LiveSelection(db: Database, q: Query, ids: set<nat>)
    requires Accounted(db) && ids <= IdsWhere(db.rows, q)
    requires forall r :: Matches(q, r) ==> Live(r.state)
    ensures forall r | r in db.rows && r.id in ids :: Live(r.state)
  {
    forall r | r in db.rows && r.id in ids ensures Live(r.state) {
      SelectedRowMatches(db.rows, db.nextId, q, r);
    }
  }

  lemma DeleteKeepsAccounts(db: Database, q: Query, ids: set<nat>)
    requires Accounted(db) && ids <= IdsWhere(db.rows, q)
    requires forall r :: Matches(q, r) ==> !Live(r.state)
    ensures Accounted(db.(rows := Remove(db.rows, ids)))
    ensures LiveCount(Remove(db.rows, ids)) == LiveCount(db.rows)
  {
    forall r | r in db.rows && r.id in ids ensures !Live(r.state) {
      SelectedRowMatches(db.rows, db.nextId, q, r);
    }
    RemoveTerminalKeepsTotals(db.rows, db.nextId, ids);
    RemoveKeepsKeys(db.rows, db.nextId, ids);
    RemoveKeepsBytes(db.rows, ids);
  }

  lemma InsertKeepsAccounts(db: Database, row: Row)
    requires Accounted(db) && row.id == db.nextId && row.bytes == Utf8Length(row.payload)
    ensures Accounted(Database(db.rows + [row], db.nextId + 1, Some(Grown(db.totals.value, row))))
    ensures LiveCount(db.rows + [row]) == LiveCount(db.rows) + if Live(row.state) then 1 else 0
  {
    KeysSnoc(db.rows, db.nextId, row);
    BytesSnoc(db.rows, row);
    RecountSnoc(db.rows, row);
  }

  lemma KeysSnoc(rows: seq<Row>, nextId: nat, row: Row)
    requires WellKeyed(rows, nextId) && row.id == nextId
    ensures WellKeyed(rows + [row], nextId + 1)
  {
    assert (rows + [row])[..|rows|] == rows;
  }

  lemma BytesSnoc(rows: seq<Row>, row: Row)
    requires MeasuredBytes(rows) && row.bytes == Utf8Length(row.payload)
    ensures MeasuredBytes(rows + [row])
  {
    assert (rows + [row])[..|rows|] == rows;
  }

  lemma RecountSnoc(rows: seq<Row>, row: Row)
    ensures Recount(rows + [row]) == Grown(Recount(rows), row)
  {
    SumSnoc(LiveRows, rows, row);
    SumSnoc(LiveBytes, rows, row);
  }
}
