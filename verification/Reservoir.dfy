/**
 The SQLite-backed reservoir. Every SQL statement, ROLLBACK included, is a call of `Statement`, which fails when the
 environment says so. A transaction that fails anywhere is rolled back, and the in-memory counter is read back from the
 totals row - unless the ROLLBACK or that reading raises, and then the counter stays as the transaction left it.
 */
module Reservoir {
  import opened Counters
  import opened Options
  import opened Rows
  import opened Ordering
  import opened Database
  import opened Admission
  import opened Store

  datatype Failure = Closed | Storage | Refused(refusal: Refusal)

  /** Result of an update by ids: rows matched, and the ids whose state really changed. */
  datatype Updated = Updated(changes: nat, transitioned: set<nat>)

  datatype RestartState = RestartState(
    totalPending: int, retryWaiting: nat, earliestRetry: Option<int>, maxAttempts: nat, interrupted: nat)

  datatype PruneResult = PruneResult(markedDeadLetter: nat, deletedRows: nat)

  /** What a prune that completes reports: the sizes of its two batches. */
  function PruneCounts(cfg: Config, rows: seq<Row>, outage: bool, now: int, stamp: int): PruneResult {
    PruneResult(|ExpiredBatch(cfg, rows, outage, now)|,
                |DeletableBatch(cfg, DeadLettered(cfg, rows, outage, now, stamp), now)|)
  }

  /** `WHERE replay_state IN (...)`. */
  function InAnyOf(rows: seq<Row>, states: seq<ReplayState>): set<nat> {
    IdsWhere(rows, InStates(set s | s in states))
  }

  lemma InNoState(rows: seq<Row>, nextId: nat)
    requires WellKeyed(rows, nextId)
    ensures forall i | 0 <= i < |rows| :: rows[i].id !in InAnyOf(rows, [])
    ensures Where(rows, InAnyOf(rows, [])) == []
  {
    var ids := InAnyOf(rows, []);
    forall r | r in rows ensures r.id !in ids {
      SelectedRowMatches(rows, nextId, InStates(set s | s in []), r);
    }
    WhereMembers(rows, ids);
    FirstMember(Where(rows, ids));
  }

  /** Row by row, the bulk move sets the state where it is one of the named states, and changes nothing else. */
  lemma BulkMoveExactly(rows: seq<Row>, nextId: nat, states: seq<ReplayState>, next: ReplayState, i: nat)
    requires WellKeyed(rows, nextId) && i < |rows|
    ensures var r, after := rows[i], Update(rows, InAnyOf(rows, states), SetState(next))[i];
            after.state == (if r.state in states then next else r.state) && after == r.(state := after.state)
  {
    SelectedRowMatches(rows, nextId, InStates(set s | s in states), rows[i]);
  }

  lemma FirstMember(rows: seq<Row>)
    ensures |rows| > 0 ==> rows[0] in rows
  {
  }

  // ---------------------------------------------------------------- how a transaction ends

  /** The first of `n` statements, numbered from `from`, that raises; `from + n` if none does. */
  function FirstRaised(fails: iset<nat>, from: nat, n: nat): (k: nat)
    ensures from <= k <= from + n
    ensures forall i | from <= i < k :: i !in fails
    ensures k < from + n ==> k in fails
    decreases n
  {
    if n == 0 || from in fails then from else FirstRaised(fails, from + 1, n - 1)
  }

  /** `atCommit`: it was the COMMIT that raised; `reread`: ROLLBACK and the reading of the counter went through. */
  datatype Ending = Committed | NotBegun | Failed(atCommit: bool, reread: bool)

  /** The ending of a transaction whose BEGIN is statement `from` and whose COMMIT is statement `from + n`. */
  function EndingAt(fails: iset<nat>, from: nat, n: nat): Ending {
    var k := FirstRaised(fails, from, n + 1);
    if k == from then NotBegun
    else if k == from + n + 1 then Committed
    else Failed(k == from + n, k + 1 !in fails && k + 2 !in fails)
  }

  /** How far the counter is off after a transaction that moves `delta` rows into or out of the live states. */
  function DriftAfter(drift: int, delta: int, ending: Ending): int {
    match ending
    case Committed => drift
    case NotBegun => drift
    case Failed(atCommit, reread) => if reread then 0 else if atCommit then drift + delta else drift
  }

  ghost predicate NoneRaised(fails: iset<nat>, from: nat, to: nat) {
    forall i | from <= i < to :: i !in fails
  }

  lemma EndsCommitted(fails: iset<nat>, from: nat, n: nat)
    requires NoneRaised(fails, from, from + n + 1)
    ensures EndingAt(fails, from, n) == Committed
  {
  }

  /** The first statement that raises decides the ending. */
  lemma EndsFailed(fails: iset<nat>, from: nat, n: nat, k: nat)
    requires from < k <= from + n && NoneRaised(fails, from, k) && k in fails
    ensures EndingAt(fails, from, n) == Failed(k == from + n, k + 1 !in fails && k + 2 !in fails)
  {
    var first := FirstRaised(fails, from, n + 1);
    assert first <= k && !(first < k);
  }

  /**
   Starting from a counter that is right, a transaction leaves it wrong exactly when it was to change the number of
   live rows, everything up to its COMMIT went through, the COMMIT raised, and then the ROLLBACK or the reading raised.
   */
  lemma CounterGoesWrongExactly(fails: iset<nat>, from: nat, n: nat, delta: int)
    requires n >= 1
    ensures DriftAfter(0, delta, EndingAt(fails, from, n)) != 0 <==>
              && delta != 0 && from + n in fails && (from + n + 1 in fails || from + n + 2 in fails)
              && forall i | from <= i < from + n :: i !in fails
  {
    var k := FirstRaised(fails, from, n + 1);
  }

  /** One transaction of a series: the change it makes to the number of live rows, and how it ends. */
  datatype Transaction = Transaction(delta: int, ending: Ending)

  function DriftOver(drift: int, series: seq<Transaction>): int {
    if |series| == 0 then drift else
      var last := series[|series| - 1];
      DriftAfter(DriftOver(drift, series[..|series| - 1]), last.delta, last.ending)
  }

  predicate Harmful(t: Transaction) {
    t.delta != 0 && t.ending.Failed? && t.ending.atCommit && !t.ending.reread
  }

  /**
   However wrong the counter is, the first failing transaction that is read back puts it right, and it stays right, over
   any number of transactions, until one fails in the harmful way.
   */
  lemma {:induction false} ReadingBackHeals(drift: int, series: seq<Transaction>, k: nat)
    requires k < |series| && series[k].ending.Failed? && series[k].ending.reread
    requires forall j | k < j < |series| :: !Harmful(series[j])
    ensures DriftOver(drift, series) == 0
  {
    if k < |series| - 1 {
      ReadingBackHeals(drift, series[..|series| - 1], k);
    }
  }

  /** Statements of an update of the selected rows; the totals are touched only if they change. */
  function ChangeStatements(selected: seq<Row>, next: ReplayState): nat {
    2 + AdjustStatements(DeltaRows(selected, next), DeltaBytes(selected, next))
  }

  function UpdateStatements(ids: set<nat>, selected: seq<Row>, next: ReplayState): nat {
    if ids == {} then 0 else ChangeStatements(selected, next)
  }

  function AdjustStatements(rowDelta: int, byteDelta: int): nat {
    if rowDelta == 0 && byteDelta == 0 then 0 else 1
  }

  class SQLiteReservoir {
    const config: Config
    /** The environment: whether the n-th statement handed to SQLite raises. */
    const fails: iset<nat>
    var issued: nat
    /** How many of the statements issued so far raised. */
    var raised: nat
    var db: Database
    var pendingRowCount: int
    var latch: Latch
    var lastRefusal: Option<Refusal>
    var refusedTotal: nat
    var appendFailureTotal: nat
    var closed: bool

    ghost predicate Valid()
      reads this
    {
      Accounted(db) && ValidCapacity(config.capacity)
    }

    /** How far the in-memory counter is from the number of live rows. */
    ghost function Drift(): int
      reads this
    {
      pendingRowCount - LiveCount(db.rows)
    }

    /**
     A piece of a transaction took `all` statements at most, from `from`: either they all went through, or the last one
     issued is the first to have raised.
     */
    ghost predicate Took(from: nat, all: nat, ok: bool)
      reads this
    {
      if ok then issued == from + all && NoneRaised(fails, from, issued)
      else from < issued <= from + all && NoneRaised(fails, from, issued - 1) && issued - 1 in fails
    }

    /** Opens a database whose accounting has been validated. */
    constructor (config: Config, database: Database, fails: iset<nat>)
      requires Accounted(database) && ValidCapacity(config.capacity)
      ensures Valid() && !closed && db == database && this.config == config && this.fails == fails && Drift() == 0
      ensures !latch.on && refusedTotal == 0 && appendFailureTotal == 0 && issued == 0 && raised == 0
    {
      this.config := config;
      this.fails := fails;
      issued, raised := 0, 0;
      db := database;
      pendingRowCount := database.totals.value.rows;
      latch := Latch(false, None);
      lastRefusal := None;
      refusedTotal, appendFailureTotal := 0, 0;
      closed := false;
    }

    method Statement() returns (ok: bool)
      modifies this`issued, this`raised
      ensures issued == old(issued) + 1 && (ok <==> old(issued) !in fails)
      ensures raised == old(raised) + if ok then 0 else 1
    {
      ok := issued !in fails;
      issued := issued + 1;
      raised := raised + if ok then 0 else 1;
    }

    /**
     The catch block: ROLLBACK, then the counter is read back from the totals row. A ROLLBACK raises only when SQLite
     has already rolled the transaction back, so the database is restored either way; the counter is not.
     */
    method Rollback(before: Database)
      requires Accounted(before) && ValidCapacity(config.capacity)
      modifies this`db, this`pendingRowCount, this`issued, this`raised
      ensures Valid() && db == before && raised >= old(raised)
      ensures var reread := old(issued) !in fails && old(issued) + 1 !in fails;
              && Drift() == (if reread then 0 else old(pendingRowCount) - LiveCount(before.rows))
              && (reread <==> raised == old(raised))
    {
      db := before;
      var ok := Statement();                         // ROLLBACK
      if !ok { return; }
      ok := Statement();                             // SELECT pending_rows
      if ok { pendingRowCount := db.totals.value.rows; }
    }

    /**
     The end of a transaction whose BEGIN was statement `from` and whose COMMIT is statement `from + n`: the COMMIT if
     nothing has raised, and the rollback if something has, the COMMIT included.
     */
    method EndTransaction(ok: bool, before: Database, ghost from: nat, ghost n: nat, ghost drift: int, ghost delta: int)
      returns (committed: bool)
      requires Accounted(before) && ValidCapacity(config.capacity) && n > 0
      requires ok ==> Valid() && issued == from + n && NoneRaised(fails, from, issued) && Drift() == drift
      requires !ok ==> from + 1 < issued <= from + n && NoneRaised(fails, from, issued - 1) && issued - 1 in fails
      requires pendingRowCount - LiveCount(before.rows) == drift + if ok then delta else 0
      modifies this`db, this`pendingRowCount, this`issued, this`raised
      ensures Valid() && raised >= old(raised) && (committed <==> ok && raised == old(raised))
      ensures db == if committed then old(db) else before
      ensures var ending := EndingAt(fails, from, n);
              && !ending.NotBegun? && (committed <==> ending.Committed?)
              && Drift() == DriftAfter(drift, delta, ending)
    {
      committed := false;
      if ok { committed := Statement(); }            // COMMIT
      if committed {
        EndsCommitted(fails, from, n);
      } else {
        EndsFailed(fails, from, n, issued - 1);
        Rollback(before);
      }
    }

    /** The same when no row moves into or out of the live states: the counter stays as wrong as it was, or is right. */
    method EndLiveTransaction(ok: bool, before: Database, ghost drift: int) returns (committed: bool)
      requires Accounted(before) && ValidCapacity(config.capacity)
      requires ok ==> Valid() && Drift() == drift
      requires pendingRowCount - LiveCount(before.rows) == drift
      modifies this`db, this`pendingRowCount, this`issued, this`raised
      ensures Valid() && raised >= old(raised) && (committed <==> ok && raised == old(raised))
      ensures db == if committed then old(db) else before
      ensures Drift() == drift || (!committed && Drift() == 0)
    {
      committed := false;
      if ok { committed := Statement(); }            // COMMIT
      if !committed { Rollback(before); }
    }

    method CalculateCapacityDelta(selected: seq<Row>, next: ReplayState) returns (rowDelta: int, byteDelta: int)
      ensures rowDelta == DeltaRows(selected, next) && byteDelta == DeltaBytes(selected, next)
    {
      rowDelta, byteDelta := 0, 0;
      for i := 0 to |selected|
        invariant rowDelta == DeltaRows(selected[..i], next) && byteDelta == DeltaBytes(selected[..i], next)
      {
        assert selected[..i + 1][..i] == selected[..i];
        var row := selected[i];
        if Live(row.state) != Live(next) {
          var direction := if Live(next) then 1 else -1;
          rowDelta := rowDelta + direction;
          byteDelta := byteDelta + direction * row.bytes;
        }
      }
      assert selected[..|selected|] == selected;
    }

    /** Adds a delta to the persisted totals and to the in-memory counter; no statement when it is zero. */
    method AdjustCapacityAccounting(rowDelta: int, byteDelta: int) returns (ok: bool)
      requires db.totals.Some?
      modifies this`db, this`pendingRowCount, this`issued, this`raised
      ensures raised >= old(raised)
      ensures ok <==> raised == old(raised)
      ensures Took(old(issued), AdjustStatements(rowDelta, byteDelta), ok)
      ensures ok ==> db == old(db).(totals := Some(Shifted(old(db).totals.value, rowDelta, byteDelta)))
      ensures pendingRowCount == old(pendingRowCount) + if ok then rowDelta else 0
    {
      if rowDelta == 0 && byteDelta == 0 {
        return true;
      }
      ok := Statement();
      if ok {
        db := db.(totals := Some(Shifted(db.totals.value, rowDelta, byteDelta)));
        pendingRowCount := pendingRowCount + rowDelta;
      }
    }

    /** An UPDATE of the state of some rows and of the totals with it, inside a transaction. */
    method ChangeInTransaction(ids: set<nat>, c: Change, ghost selected: seq<Row>, ghost n: nat)
      returns (r: Result<nat, Failure>)
      requires Valid() && selected == Where(db.rows, ids) && (c.MoveTo? || c.SetState?)
      requires n == ChangeStatements(selected, c.next)
      modifies this`db, this`pendingRowCount, this`issued, this`raised
      ensures raised >= old(raised)
      ensures r.Ok? <==> raised == old(raised)
      ensures r.Ok? ==> Valid() && db.nextId == old(db).nextId && Drift() == old(Drift())
      ensures r.Ok? ==> db.rows == Update(old(db).rows, ids, c) && r.value == |selected|
      ensures r.Err? ==> r.error.Storage?
      ensures pendingRowCount == old(pendingRowCount) + if r.Ok? then DeltaRows(selected, c.next) else 0
      ensures Took(old(issued), n, r.Ok?)
    {
      var ok := Statement();                         // SELECT replay_state, serialized_event_bytes
      if !ok { return Err(Storage); }
      var chosen := Where(db.rows, ids);
      var rowDelta, byteDelta := CalculateCapacityDelta(chosen, c.next);
      ok := Statement();                             // UPDATE ingress_events
      if !ok { return Err(Storage); }
      MoveKeepsAccounts(db, ids, c, chosen);
      db := db.(rows := Update(db.rows, ids, c));
      ok := AdjustCapacityAccounting(rowDelta, byteDelta);
      if !ok { return Err(Storage); }
      r := Ok(|chosen|);
    }

    /** The UPDATE by ids shared by acknowledgement, reset, dead-lettering and reclaim, inside a transaction. */
    method UpdateInTransaction(
      ids: set<nat>, next: ReplayState, retry: Option<int>, now: int, ghost selected: seq<Row>)
      returns (r: Result<nat, Failure>)
      requires Valid() && selected == Where(db.rows, ids)
      modifies this`db, this`pendingRowCount, this`issued, this`raised
      ensures raised >= old(raised)
      ensures r.Ok? <==> raised == old(raised)
      ensures r.Ok? ==> Valid() && db.nextId == old(db).nextId && Drift() == old(Drift())
      ensures r.Ok? ==> db.rows == Update(old(db).rows, ids, MoveTo(next, retry, now))
      ensures r.Ok? ==> r.value == |Ids(old(db).rows) * ids|
      ensures r.Err? ==> r.error.Storage?
      ensures pendingRowCount == old(pendingRowCount) + if r.Ok? then DeltaRows(selected, next) else 0
      ensures Took(old(issued), UpdateStatements(ids, selected, next), r.Ok?)
    {
      if ids == {} {
        UpdateNothing(db.rows, ids, MoveTo(next, retry, now));
        WhereNothing(db.rows);
        return Ok(0);
      }
      WhereCount(db.rows, db.nextId, ids);
      r := ChangeInTransaction(
        ids, MoveTo(next, retry, now), selected, UpdateStatements(ids, selected, next));
    }

    /** The SELECT that finds the rows or their states, and the update, after BEGIN. */
    method SelectAndUpdate(
      ids: set<nat>, next: ReplayState, retry: Option<int>, now: int, ghost selected: seq<Row>,
      ghost n: nat, ghost delta: int)
      returns (r: Result<nat, Failure>)
      requires Valid() && selected == Where(db.rows, ids)
      requires n == 2 + UpdateStatements(ids, selected, next) && delta == DeltaRows(selected, next)
      modifies this`db, this`pendingRowCount, this`issued, this`raised
      ensures raised >= old(raised)
      ensures r.Ok? <==> raised == old(raised)
      ensures r.Ok? ==> Valid() && db.nextId == old(db).nextId && Drift() == old(Drift())
      ensures r.Ok? ==> db.rows == Update(old(db).rows, ids, MoveTo(next, retry, now))
      ensures r.Ok? ==> r.value == |Ids(old(db).rows) * ids|
      ensures pendingRowCount == old(pendingRowCount) + if r.Ok? then delta else 0
      ensures Took(old(issued), n - 1, r.Ok?)
    {
      var ok := Statement();
      if !ok { return Err(Storage); }
      r := UpdateInTransaction(ids, next, retry, now, selected);
    }

    /** The ending of a transaction that selects some rows and then updates them. */
    ghost function UpdateEnding(from: nat, ids: set<nat>, selected: seq<Row>, next: ReplayState): Ending {
      EndingAt(fails, from, 2 + UpdateStatements(ids, selected, next))
    }

    /** BEGIN, the SELECT, the update, COMMIT. */
    method UpdateInOneTransaction(
      ids: set<nat>, next: ReplayState, retry: Option<int>, now: int, ghost selected: seq<Row>)
      returns (r: Result<nat, Failure>)
      requires Valid() && !closed && selected == Where(db.rows, ids)
      modifies this`db, this`pendingRowCount, this`issued, this`raised
      ensures Valid() && raised >= old(raised) && db.nextId == old(db).nextId
      ensures r.Ok? <==> raised == old(raised)
      ensures r.Err? ==> r == Err(Storage) && db == old(db)
      ensures r.Ok? ==> db.rows == Update(old(db).rows, ids, MoveTo(next, retry, now))
      ensures r.Ok? ==> r.value == |Ids(old(db).rows) * ids|
      ensures var ending := UpdateEnding(old(issued), ids, selected, next);
              && (r.Ok? <==> ending.Committed?)
              && Drift() == DriftAfter(old(Drift()), DeltaRows(selected, next), ending)
    {
      var before := db;
      ghost var from, n := issued, 2 + UpdateStatements(ids, selected, next);
      ghost var drift, delta := Drift(), DeltaRows(selected, next);
      var ok := Statement();                         // BEGIN IMMEDIATE
      if !ok { return Err(Storage); }
      r := SelectAndUpdate(ids, next, retry, now, selected, n, delta);
      assert NoneRaised(fails, from, if r.Ok? then issued else issued - 1);
      var committed := EndTransaction(r.Ok?, before, from, n, drift, delta);
      if !committed { return Err(Storage); }
    }

    /** `#updateReplayRows`: duplicate ids count once, unknown ids match nothing, a failure leaves the rows alone. */
    method UpdateReplayRows(ids: seq<nat>, next: ReplayState, retry: Option<int>, now: int)
      returns (r: Result<Updated, Failure>)
      requires Valid()
      modifies this`db, this`pendingRowCount, this`issued, this`raised
      ensures Valid() && raised >= old(raised) && db.nextId == old(db).nextId
      ensures closed <==> r == Err(Closed)
      ensures !closed ==> (r.Ok? <==> raised == old(raised))
      ensures r.Err? ==> db == old(db)
      ensures r.Ok? ==> db.rows == Update(old(db).rows, Unique(ids), MoveTo(next, retry, now))
      ensures r.Ok? ==> r.value.changes == |Ids(old(db).rows) * Unique(ids)|
      ensures r.Ok? ==> r.value.transitioned == Transitioned(old(db).rows, Unique(ids), next)
      ensures closed || |ids| == 0 ==> Drift() == old(Drift()) && (closed || r.Ok?)
      ensures !closed && |ids| > 0 ==>
                var selected := Where(old(db).rows, Unique(ids));
                var ending := UpdateEnding(old(issued), Unique(ids), selected, next);
                && (r.Ok? <==> ending.Committed?)
                && Drift() == DriftAfter(old(Drift()), DeltaRows(selected, next), ending)
    {
      if closed { return Err(Closed); }
      var unique := Unique(ids);
      if |ids| == 0 {
        UpdateNothing(db.rows, unique, MoveTo(next, retry, now));
        return Ok(Updated(0, {}));
      }
      var transitioned := Transitioned(db.rows, unique, next);
      var changed := UpdateInOneTransaction(unique, next, retry, now, Where(db.rows, unique));
      r := if changed.Err? then Err(Storage) else Ok(Updated(changed.value, transitioned));
    }

    method MarkDelivered(ids: seq<nat>, now: int) returns (r: Result<Updated, Failure>)
      requires Valid()
      modifies this`db, this`pendingRowCount, this`issued, this`raised
      ensures Valid() && raised >= old(raised) && db.nextId == old(db).nextId
      ensures closed <==> r == Err(Closed)
      ensures !closed ==> (r.Ok? <==> raised == old(raised))
      ensures r.Err? ==> db == old(db)
      ensures r.Ok? ==> db.rows == Update(old(db).rows, Unique(ids), MoveTo(Delivered, None, now))
      ensures r.Ok? ==> r.value == Updated(|Ids(old(db).rows) * Unique(ids)|,
                                           Transitioned(old(db).rows, Unique(ids), Delivered))
      ensures closed || |ids| == 0 ==> Drift() == old(Drift()) && (closed || r.Ok?)
      ensures !closed && |ids| > 0 ==>
                var selected := Where(old(db).rows, Unique(ids));
                var ending := UpdateEnding(old(issued), Unique(ids), selected, Delivered);
                && (r.Ok? <==> ending.Committed?)
                && Drift() == DriftAfter(old(Drift()), DeltaRows(selected, Delivered), ending)
    {
      r := UpdateReplayRows(ids, Delivered, None, now);
    }

    method ResetToPending(ids: seq<nat>, retry: Option<int>, now: int) returns (r: Result<Updated, Failure>)
      requires Valid()
      modifies this`db, this`pendingRowCount, this`issued, this`raised
      ensures Valid() && raised >= old(raised) && db.nextId == old(db).nextId
      ensures closed <==> r == Err(Closed)
      ensures !closed ==> (r.Ok? <==> raised == old(raised))
      ensures r.Err? ==> db == old(db)
      ensures r.Ok? ==> db.rows == Update(old(db).rows, Unique(ids), MoveTo(Pending, retry, now))
      ensures r.Ok? ==> r.value == Updated(|Ids(old(db).rows) * Unique(ids)|,
                                           Transitioned(old(db).rows, Unique(ids), Pending))
      ensures closed || |ids| == 0 ==> Drift() == old(Drift()) && (closed || r.Ok?)
      ensures !closed && |ids| > 0 ==>
                var selected := Where(old(db).rows, Unique(ids));
                var ending := UpdateEnding(old(issued), Unique(ids), selected, Pending);
                && (r.Ok? <==> ending.Committed?)
                && Drift() == DriftAfter(old(Drift()), DeltaRows(selected, Pending), ending)
    {
      r := UpdateReplayRows(ids, Pending, retry, now);
    }

    /** The bulk UPDATE by state in its transaction. */
    method SetStateInOneTransaction(ids: set<nat>, next: ReplayState, ghost selected: seq<Row>)
      returns (r: Result<nat, Failure>)
      requires Valid() && !closed && selected == Where(db.rows, ids)
      modifies this`db, this`pendingRowCount, this`issued, this`raised
      ensures Valid() && raised >= old(raised) && db.nextId == old(db).nextId
      ensures r.Ok? <==> raised == old(raised)
      ensures r.Err? ==> r == Err(Storage) && db == old(db)
      ensures r.Ok? ==> db.rows == Update(old(db).rows, ids, SetState(next)) && r.value == |selected|
      ensures var ending := EndingAt(fails, old(issued), 1 + ChangeStatements(selected, next));
              && (r.Ok? <==> ending.Committed?)
              && Drift() == DriftAfter(old(Drift()), DeltaRows(selected, next), ending)
    {
      var before := db;
      ghost var from, n := issued, 1 + ChangeStatements(selected, next);
      ghost var drift, delta := Drift(), DeltaRows(selected, next);
      var ok := Statement();                         // BEGIN IMMEDIATE
      if !ok { return Err(Storage); }
      r := ChangeInTransaction(ids, SetState(next), selected, n - 1);
      ok := EndTransaction(r.Ok?, before, from, n, drift, delta);
      if !ok { r := Err(Storage); }
    }

    /** Bulk move of every row in some states. */
    method UpdateReplayState(from: seq<ReplayState>, next: ReplayState) returns (r: Result<nat, Failure>)
      requires Valid()
      modifies this`db, this`pendingRowCount, this`issued, this`raised
      ensures Valid() && raised >= old(raised) && db.nextId == old(db).nextId
      ensures closed <==> r == Err(Closed)
      ensures !closed ==> (r.Ok? <==> raised == old(raised))
      ensures r.Err? ==> db == old(db)
      ensures r.Ok? ==> db.rows == Update(old(db).rows, InAnyOf(old(db).rows, from), SetState(next))
      ensures r.Ok? ==> r.value == |Where(old(db).rows, InAnyOf(old(db).rows, from))|
      ensures closed || |from| == 0 ==> Drift() == old(Drift())
      ensures !closed && |from| > 0 ==>
                var selected := Where(old(db).rows, InAnyOf(old(db).rows, from));
                var ending := EndingAt(fails, old(issued), 1 + ChangeStatements(selected, next));
                (r.Ok? <==> ending.Committed?) && Drift() == DriftAfter(old(Drift()), DeltaRows(selected, next), ending)
    {
      if closed { return Err(Closed); }
      var ids := InAnyOf(db.rows, from);
      if |from| == 0 {
        InNoState(db.rows, db.nextId);
        assert Update(db.rows, ids, SetState(next)) == db.rows;
        return Ok(0);
      }
      r := SetStateInOneTransaction(ids, next, Where(db.rows, ids));
    }

    method BumpReplayAttempts(states: set<ReplayState>) returns (r: Result<nat, Failure>)
      requires Valid()
      modifies this`db, this`issued, this`raised
      ensures Valid() && raised >= old(raised) && db.nextId == old(db).nextId
      ensures closed <==> r == Err(Closed)
      ensures !closed ==> (r.Ok? <==> raised == old(raised))
      ensures r.Err? ==> db == old(db)
      ensures Drift() == old(Drift())
      ensures r.Ok? ==>
                var chosen := if states == {} then {Pending, Replaying} else states;
                var ids := IdsWhere(old(db).rows, InStates(chosen));
                db.rows == Update(old(db).rows, ids, BumpAttempts) && r.value == |Where(old(db).rows, ids)|
    {
      if closed { return Err(Closed); }
      var ok := Statement();
      if !ok { return Err(Storage); }
      var chosen := if states == {} then {Pending, Replaying} else states;
      var ids := IdsWhere(db.rows, InStates(chosen));
      LiveMoveKeepsAccounts(db, ids, BumpAttempts);
      r := Ok(|Where(db.rows, ids)|);
      db := db.(rows := Update(db.rows, ids, BumpAttempts));
    }

    /** The UPDATE of a claim, inside a transaction; no statement when nothing was selected. */
    method ClaimRows(ids: set<nat>, now: int, stamp: int, mode: DeliveryMode) returns (ok: bool)
      requires Valid() && ids <= IdsWhere(db.rows, Eligible(now))
      modifies this`db, this`issued, this`raised
      ensures raised >= old(raised) && (ok <==> raised == old(raised))
      ensures ok ==> Valid() && db.rows == Update(old(db).rows, ids, ClaimFor(stamp, mode))
      ensures ok ==> db.nextId == old(db).nextId && Drift() == old(Drift())
    {
      LiveSelection(db, Eligible(now), ids);
      LiveMoveKeepsAccounts(db, ids, ClaimFor(stamp, mode));
      ok := true;
      if ids != {} {
        ok := Statement();
      }
      if ok {
        db := db.(rows := Update(db.rows, ids, ClaimFor(stamp, mode)));
      }
    }

    /** BEGIN, the SELECT that picks the rows, the UPDATE, COMMIT. */
    method ClaimSelected(picked: seq<Row>, now: int, stamp: int, mode: DeliveryMode)
      returns (r: Result<seq<Entry>, Failure>)
      requires Valid() && !closed && Ids(picked) <= IdsWhere(db.rows, Eligible(now))
      modifies this`db, this`pendingRowCount, this`issued, this`raised
      ensures Valid() && raised >= old(raised) && db.nextId == old(db).nextId
      ensures r.Ok? <==> raised == old(raised)
      ensures r.Err? ==> r == Err(Storage) && db == old(db)
      ensures r.Ok? ==> db.rows == Update(old(db).rows, Ids(picked), ClaimFor(stamp, mode))
      ensures r.Ok? ==> r.value == EntriesOf(picked, mode)
      ensures Drift() == old(Drift()) || (r.Err? && Drift() == 0)
    {
      var before := db;
      ghost var drift := Drift();
      var ok := Statement();                         // BEGIN IMMEDIATE
      if !ok { return Err(Storage); }
      ok := Statement();                             // SELECT ... ORDER BY ... LIMIT
      if ok {
        ok := ClaimRows(Ids(picked), now, stamp, mode);
      }
      ok := EndLiveTransaction(ok, before, drift);
      r := if ok then Ok(EntriesOf(picked, mode)) else Err(Storage);
    }

    /** Claims the first eligible rows in order; the clock is read once to select and once to stamp. */
    method ClaimReplayBatch(limit: int, now: int, stamp: int, mode: DeliveryMode)
      returns (r: Result<seq<Entry>, Failure>)
      requires Valid()
      modifies this`db, this`pendingRowCount, this`issued, this`raised
      ensures Valid() && raised >= old(raised) && db.nextId == old(db).nextId
      ensures limit > 0 ==> (closed <==> r == Err(Closed))
      ensures limit <= 0 || !closed ==> (r.Ok? <==> raised == old(raised))
      ensures r.Err? ==> db == old(db)
      ensures r.Ok? ==> db.rows == Claimed(old(db).rows, limit, now, stamp, mode)
      ensures r.Ok? ==> r.value == Entries(old(db).rows, limit, now, mode)
      ensures Drift() == old(Drift()) || (r == Err(Storage) && Drift() == 0)
    {
      if limit <= 0 {
        UpdateNothing(db.rows, ClaimIds(db.rows, limit, now), ClaimFor(stamp, mode));
        return Ok([]);
      }
      if closed { return Err(Closed); }
      BatchIds(Eligible(now), db.rows, db.nextId, limit);
      r := ClaimSelected(Select(Eligible(now), db.rows, limit), now, stamp, mode);
    }

    /** One pass of the reclaim loop: at most a batch of the stale rows, selected and moved in one transaction. */
    method ReclaimPass(cutoff: int, now: int, ghost batch: set<nat>) returns (r: Result<nat, Failure>)
      requires Valid() && !closed && batch == Ids(Select(Stale(cutoff), db.rows, config.pruneBatch))
      modifies this`db, this`pendingRowCount, this`issued, this`raised
      ensures Valid() && raised >= old(raised) && db.nextId == old(db).nextId
      ensures r.Ok? <==> raised == old(raised)
      ensures r.Err? ==> r == Err(Storage) && db == old(db)
      ensures r.Ok? ==> r.value == |batch| && db.rows == Update(old(db).rows, batch, MoveTo(Pending, None, now))
      ensures Drift() == old(Drift()) || (r.Err? && Drift() == 0)
    {
      var ids := Ids(Select(Stale(cutoff), db.rows, config.pruneBatch));
      BatchIds(Stale(cutoff), db.rows, db.nextId, config.pruneBatch);
      LiveSelection(db, Stale(cutoff), ids);
      LiveMoveHasNoDelta(db.rows, ids);
      r := UpdateInOneTransaction(ids, Pending, None, now, Where(db.rows, ids));
    }

    /**
     The reclaim loop: batch by batch, one transaction each. It moves exactly the rows that were stale when it began;
     a failure part-way keeps the batches already committed, which are a subset of those rows.
     */
    method ReclaimLoop(cutoff: int, now: int, ghost stale: set<nat>)
      returns (r: Result<nat, Failure>, ghost moved: set<nat>)
      requires Valid() && !closed && stale == IdsWhere(db.rows, Stale(cutoff))
      modifies this`db, this`pendingRowCount, this`issued, this`raised
      ensures Valid() && raised >= old(raised) && db.nextId == old(db).nextId
      ensures r.Ok? <==> raised == old(raised)
      ensures r.Err? ==> r == Err(Storage)
      ensures db.rows == Update(old(db).rows, moved, MoveTo(Pending, None, now))
      ensures moved <= stale && (config.pruneBatch == 0 ==> moved == {})
      ensures r.Ok? ==> r.value == |moved| && (config.pruneBatch != 0 ==> moved == stale)
      ensures Drift() == old(Drift()) || (r.Err? && Drift() == 0)
    {
      moved := {};
      UpdateNothing(db.rows, moved, MoveTo(Pending, None, now));
      var total := 0;
      ghost var start := db.rows;
      while true
        invariant WellKeyed(start, db.nextId) && stale == IdsWhere(start, Stale(cutoff))
        invariant Valid() && db.nextId == old(db).nextId && raised == old(raised) && Drift() == old(Drift())
        invariant moved <= stale && total == |moved|
        invariant db.rows == Update(start, moved, MoveTo(Pending, None, now))
        invariant config.pruneBatch == 0 ==> moved == {}
        decreases |stale - moved|
      {
        ghost var ids := Ids(Select(Stale(cutoff), db.rows, config.pruneBatch));
        NextReclaim(start, db.nextId, moved, cutoff, now, config.pruneBatch);
        var pass := ReclaimPass(cutoff, now, ids);
        if pass.Err? { return Err(Storage), moved; }
        if pass.value == 0 { return Ok(total), moved; }
        moved := moved + ids;
        total := total + pass.value;
      }
    }

    /** Puts back every claim at least `maxAge` old; a negative age or an empty batch size does nothing. */
    method ReclaimStaleReplayRows(maxAge: int, now: int) returns (r: Result<nat, Failure>, ghost moved: set<nat>)
      requires Valid()
      modifies this`db, this`pendingRowCount, this`issued, this`raised
      ensures Valid() && raised >= old(raised) && db.nextId == old(db).nextId
      ensures closed <==> r == Err(Closed)
      ensures !closed ==> (r.Ok? <==> raised == old(raised))
      ensures db.rows == Update(old(db).rows, moved, MoveTo(Pending, None, now))
      ensures moved <= StaleIds(config, old(db).rows, maxAge, now)
      ensures r.Ok? ==> moved == StaleIds(config, old(db).rows, maxAge, now) && r.value == |moved|
      ensures Drift() == old(Drift()) || (r == Err(Storage) && Drift() == 0)
    {
      if closed || maxAge < 0 {
        moved := {};
        UpdateNothing(db.rows, moved, MoveTo(Pending, None, now));
        return (if closed then Err(Closed) else Ok(0)), moved;
      }
      r, moved := ReclaimLoop(now - maxAge, now, IdsWhere(db.rows, Stale(now - maxAge)));
    }

    /** The recovery UPDATE in its transaction. */
    method RecoverInterrupted() returns (r: Result<nat, Failure>)
      requires Valid() && !closed
      modifies this`db, this`issued, this`raised, this`pendingRowCount
      ensures Valid() && raised >= old(raised) && db.nextId == old(db).nextId
      ensures r.Ok? <==> raised == old(raised)
      ensures r.Err? ==> r == Err(Storage) && db == old(db)
      ensures r.Ok? ==> db.rows == Recovered(old(db).rows)
      ensures r.Ok? ==> r.value == |IdsWhere(old(db).rows, InStates({Replaying}))|
      ensures Drift() == old(Drift()) || (r.Err? && Drift() == 0)
    {
      var before := db;
      var ok := Statement();                         // BEGIN IMMEDIATE
      if !ok { return Err(Storage); }
      ghost var drift := Drift();
      ok := Statement();                             // UPDATE
      var ids := IdsWhere(db.rows, InStates({Replaying}));
      if ok {
        LiveSelection(db, InStates({Replaying}), ids);
        LiveMoveKeepsAccounts(db, ids, Recover);
        db := db.(rows := Update(db.rows, ids, Recover));
      }
      ok := EndLiveTransaction(ok, before, drift);
      r := if ok then Ok(|ids|) else Err(Storage);
    }

    /** Restart recovery: every interrupted claim goes back to pending; then the statistics are read. */
    method RecoverRestartState(now: int, later: int) returns (r: Result<RestartState, Failure>)
      requires Valid()
      modifies this`db, this`issued, this`raised, this`pendingRowCount
      ensures Valid() && raised >= old(raised) && db.nextId == old(db).nextId
      ensures closed <==> r == Err(Closed)
      ensures !closed ==> (r.Ok? <==> raised == old(raised))
      ensures r.Ok? ==> db.rows == Recovered(old(db).rows)
      ensures r.Err? ==> db.rows == old(db).rows || db.rows == Recovered(old(db).rows)
      ensures Drift() == old(Drift()) || (r == Err(Storage) && Drift() == 0)
      ensures r.Ok? ==> r.value == RestartState(pendingRowCount, Sum(Matching(Waiting(now)), db.rows),
                                                EarliestRetry(db.rows, now), MaxAttempts(db.rows),
                                                |IdsWhere(old(db).rows, InStates({Replaying}))|)
    {
      if closed { return Err(Closed); }
      var recovered := RecoverInterrupted();
      if recovered.Err? { return Err(Storage); }
      var stats := GetStats(now, later);
      if stats.Err? { return Err(Storage); }
      var ok := Statement();                         // SELECT MAX(replay_attempts)
      if !ok { return Err(Storage); }
      r := Ok(RestartState(stats.value.totalPending, stats.value.retryWaiting, stats.value.earliestRetry,
                           MaxAttempts(db.rows), recovered.value));
    }

    /** The statistics; the pending total is the in-memory counter, not a query. The clock is read twice. */
    method GetStats(now: int, later: int) returns (r: Result<Stats, Failure>)
      requires Valid()
      modifies this`issued, this`raised
      ensures raised >= old(raised)
      ensures closed <==> r == Err(Closed)
      ensures !closed ==> (r.Ok? <==> raised == old(raised))
      ensures r.Ok? ==> r.value == StatsOf(db.rows, pendingRowCount, now, later)
      ensures r.Ok? ==> (ReplayableIn(r.value.byMode) <==> HasReplayableBacklog(db.rows))
      ensures r.Err? ==> r.error.Closed? || r.error.Storage?
    {
      if closed { return Err(Closed); }
      var total := pendingRowCount;
      for i := 0 to 4                                // oldest, waiting, by source, by delivery mode
        invariant raised == old(raised)
      {
        var ok := Statement();
        if !ok { return Err(Storage); }
      }
      ReplayableByCounts(db.rows);
      r := Ok(Stats(total, OldestAge(db.rows, later), Sum(Matching(Waiting(now)), db.rows),
                    EarliestRetry(db.rows, now), SourceCountsOf(db.rows), ModeCountsOf(db.rows)));
    }

    /** Stores a replay-session snapshot or a health transition; only its possible failure matters to the callers. */
    method RecordLogEntry() returns (r: Result<(), Failure>)
      modifies this`issued, this`raised
      ensures raised >= old(raised)
      ensures closed <==> r == Err(Closed)
      ensures !closed ==> (r.Ok? <==> raised == old(raised))
    {
      if closed { return Err(Closed); }
      var ok := Statement();
      r := if ok then Ok(()) else Err(Storage);
    }

    /** Prune, first phase. */
    method MarkExpiredPendingRows(outage: bool, now: int, stamp: int) returns (r: Result<nat, Failure>)
      requires Valid() && !closed
      modifies this`db, this`pendingRowCount, this`issued, this`raised
      ensures Valid() && raised >= old(raised) && db.nextId == old(db).nextId
      ensures r.Ok? <==> raised == old(raised)
      ensures r.Err? ==> r == Err(Storage) && db == old(db)
      ensures r.Ok? ==> db.rows == DeadLettered(config, old(db).rows, outage, now, stamp)
      ensures r.Ok? ==> r.value == |ExpiredBatch(config, old(db).rows, outage, now)|
      ensures var ids := ExpiredBatch(config, old(db).rows, outage, now);
              var selected := Where(old(db).rows, ids);
              var ending := UpdateEnding(old(issued), ids, selected, DeadLetter);
              && (r.Ok? <==> ending.Committed?)
              && Drift() == DriftAfter(old(Drift()), DeltaRows(selected, DeadLetter), ending)
    {
      var ids := ExpiredBatch(config, db.rows, outage, now);
      BatchIds(ExpiredQuery(config, outage, now), db.rows, db.nextId, config.pruneBatch);
      r := UpdateInOneTransaction(ids, DeadLetter, None, stamp, Where(db.rows, ids));
    }

    /** The DELETE of a batch of old terminal rows, inside a transaction; no statement for an empty batch. */
    method DeleteRows(ids: set<nat>, now: int) returns (ok: bool)
      requires Valid() && ids <= IdsWhere(db.rows, DeletableQuery(config, now))
      modifies this`db, this`issued, this`raised
      ensures raised >= old(raised) && (ok <==> raised == old(raised))
      ensures ok ==> Valid() && db.rows == Remove(old(db).rows, ids) && db.nextId == old(db).nextId
      ensures ok ==> Drift() == old(Drift())
    {
      DeleteKeepsAccounts(db, DeletableQuery(config, now), ids);
      ok := true;
      if ids != {} {
        ok := Statement();
      }
      if ok {
        db := db.(rows := Remove(db.rows, ids));
      }
    }

    /** Prune, second phase. */
    method DeleteExpiredTerminalRows(now: int) returns (r: Result<nat, Failure>)
      requires Valid() && !closed
      modifies this`db, this`pendingRowCount, this`issued, this`raised
      ensures Valid() && raised >= old(raised) && db.nextId == old(db).nextId
      ensures r.Ok? <==> raised == old(raised)
      ensures r.Err? ==> r == Err(Storage) && db == old(db)
      ensures r.Ok? ==> db.rows == Purged(config, old(db).rows, now)
      ensures r.Ok? ==> r.value == |DeletableBatch(config, old(db).rows, now)|
      ensures Drift() == old(Drift()) || (r.Err? && Drift() == 0)
    {
      var before := db;
      var ok := Statement();                         // BEGIN IMMEDIATE
      if !ok { return Err(Storage); }
      ghost var drift := Drift();
      ok := Statement();                             // SELECT ... LIMIT pruneBatchSize
      var ids := DeletableBatch(config, db.rows, now);
      if ok {
        BatchIds(DeletableQuery(config, now), db.rows, db.nextId, config.pruneBatch);
        ok := DeleteRows(ids, now);
      }
      ok := EndLiveTransaction(ok, before, drift);
      r := if ok then Ok(|ids|) else Err(Storage);
    }

    /** Two bounded phases, each its own transaction: dead-letter expired pending rows, delete old terminal rows. */
    method PruneExpired(outage: bool, now: int, stamp: int) returns (r: Result<PruneResult, Failure>)
      requires Valid()
      modifies this`db, this`pendingRowCount, this`issued, this`raised
      ensures Valid() && raised >= old(raised) && db.nextId == old(db).nextId
      ensures closed <==> r == Err(Closed)
      ensures !closed ==> (r.Ok? <==> raised == old(raised))
      ensures r.Ok? ==> db.rows == Pruned(config, old(db).rows, outage, now, stamp)
      ensures r.Err? ==> db.rows == old(db).rows || db.rows == DeadLettered(config, old(db).rows, outage, now, stamp)
      ensures r.Ok? ==>
                r.value == PruneCounts(config, old(db).rows, outage, now, stamp) && Drift() == old(Drift())
      ensures r.Ok? && config.pruneBatch >= 0 ==>
                r.value.markedDeadLetter <= config.pruneBatch && r.value.deletedRows <= config.pruneBatch
      ensures r == Err(Storage) ==>
                var ids := ExpiredBatch(config, old(db).rows, outage, now);
                var selected := Where(old(db).rows, ids);
                var ending := UpdateEnding(old(issued), ids, selected, DeadLetter);
                if ending.Committed? then Drift() == old(Drift()) || Drift() == 0
                else Drift() == DriftAfter(old(Drift()), DeltaRows(selected, DeadLetter), ending)
      ensures r == Err(Closed) ==> Drift() == old(Drift()) && db == old(db)
    {
      if closed { return Err(Closed); }
      BatchIds(ExpiredQuery(config, outage, now), db.rows, db.nextId, config.pruneBatch);
      var marked := MarkExpiredPendingRows(outage, now, stamp);
      if marked.Err? { return Err(Storage); }
      BatchIds(DeletableQuery(config, now), db.rows, db.nextId, config.pruneBatch);
      var deleted := DeleteExpiredTerminalRows(now);
      if deleted.Err? { return Err(Storage); }
      r := Ok(PruneResult(marked.value, deleted.value));
    }

    /** The INSERT and its accounting, inside a transaction. */
    method InsertRow(row: Row) returns (ok: bool)
      requires Valid() && row.id == db.nextId && row.bytes == Utf8Length(row.payload)
      modifies this`db, this`pendingRowCount, this`issued, this`raised
      ensures raised >= old(raised) && (ok <==> raised == old(raised))
      ensures ok ==> Valid() && db.rows == old(db).rows + [row] && db.nextId == old(db).nextId + 1
      ensures ok ==> Drift() == old(Drift())
      ensures pendingRowCount == old(pendingRowCount) + if ok && Live(row.state) then 1 else 0
      ensures Took(old(issued), if Live(row.state) then 2 else 1, ok)
    {
      InsertKeepsAccounts(db, row);
      ok := Statement();
      if !ok { return; }
      db := db.(rows := db.rows + [row], nextId := db.nextId + 1);
      if Live(row.state) {
        ok := AdjustCapacityAccounting(1, row.bytes);
      }
    }

    method RefuseCapacity(refusal: Refusal)
      modifies this`refusedTotal, this`lastRefusal
      ensures refusedTotal == IncrementSaturating(old(refusedTotal)) && lastRefusal == Some(refusal)
    {
      refusedTotal := IncrementSaturating(refusedTotal);
      lastRefusal := Some(refusal);
    }

    /** A limit on pending rows or bytes is configured, and the row would be pending. */
    predicate ReadsTotals(live: bool) {
      live && (config.capacity.maxRows.Some? || config.capacity.maxBytes.Some?)
    }

    /** The verdict of the logical limits on the rows as they are. */
    ghost function LimitVerdict(row: Row): Option<Refusal>
      reads this
    {
      LogicalVerdict(config.capacity, Usage(LiveCount(db.rows), Sum(LiveBytes, db.rows)), Live(row.state), row.bytes)
    }

    /** The logical limits, read from the totals inside the transaction; a refusal is recorded at once. */
    method AssertPendingCapacity(row: Row) returns (r: Result<(), Failure>)
      requires Valid()
      modifies this`issued, this`raised, this`refusedTotal, this`lastRefusal
      ensures issued == old(issued) + if ReadsTotals(Live(row.state)) then 1 else 0
      ensures raised == old(raised) + if issued > old(issued) && old(issued) in fails then 1 else 0
      ensures r == if raised > old(raised) then Err(Storage)
                   else if LimitVerdict(row).Some? then Err(Refused(LimitVerdict(row).value))
                   else Ok(())
      ensures var refused := r.Err? && r.error.Refused?;
              && refusedTotal == (if refused then IncrementSaturating(old(refusedTotal)) else old(refusedTotal))
              && lastRefusal == (if refused then LimitVerdict(row) else old(lastRefusal))
    {
      if !ReadsTotals(Live(row.state)) {
        return Ok(());
      }
      var ok := Statement();                         // SELECT totals
      if !ok { return Err(Storage); }
      var usage := Usage(db.totals.value.rows, db.totals.value.bytes);
      var full := LogicalVerdict(config.capacity, usage, true, row.bytes);
      if full.Some? {
        RefuseCapacity(full.value);
        return Err(Refused(full.value));
      }
      r := Ok(());
    }

    /** Statements of an append up to its COMMIT. */
    function AppendStatements(live: bool): nat {
      2 + (if ReadsTotals(live) then 1 else 0) + if live then 1 else 0
    }

    /** The limits of this row are read and refuse it: no statement raises, and still the transaction is rolled back. */
    ghost predicate RefusesInside(row: Row, from: nat)
      reads this
    {
      LimitVerdict(row).Some? && from !in fails && from + 1 !in fails
    }

    /** How the transaction of an append ends if the limits do not refuse it. */
    ghost function AppendEnding(live: bool, from: nat): Ending {
      EndingAt(fails, from, AppendStatements(live))
    }

    /** How far the counter is off after the transaction of an append. */
    ghost function AppendDrift(row: Row, from: nat): int
      reads this
    {
      if RefusesInside(row, from) then DriftAfter(Drift(), 0, Failed(false, from + 2 !in fails && from + 3 !in fails))
      else DriftAfter(Drift(), if Live(row.state) then 1 else 0, AppendEnding(Live(row.state), from))
    }

    /**
     The transaction of an append: the two logical limits, the INSERT, the accounting. When the rollback of a refused
     append raises, that error takes the place of the refusal, which has been recorded all the same.
     */
    method AppendInTransaction(row: Row) returns (r: Result<nat, Failure>)
      requires Valid() && row.id == db.nextId && row.bytes == Utf8Length(row.payload)
      modifies this`db, this`pendingRowCount, this`issued, this`raised, this`refusedTotal, this`lastRefusal
      ensures Valid() && raised >= old(raised)
      ensures var full := old(LimitVerdict(row));
              && (r.Ok? ==> full.None?)
              && (r.Err? && r.error.Refused? ==> full == Some(r.error.refusal) && old(RefusesInside(row, issued)))
              && (raised == old(raised) <==> r != Err(Storage))
              && (raised == old(raised) ==> r == if full.Some? then Err(Refused(full.value)) else Ok(row.id))
      ensures r.Err? ==> db == old(db) && !r.error.Closed?
      ensures r.Ok? ==> db.rows == old(db).rows + [row] && db.nextId == old(db).nextId + 1 && r.value == row.id
      ensures r.Ok? ==> AppendEnding(Live(row.state), old(issued)).Committed? && Drift() == old(Drift())
      ensures var refused := old(RefusesInside(row, issued));
              && refusedTotal == (if refused then IncrementSaturating(old(refusedTotal)) else old(refusedTotal))
              && lastRefusal == (if refused then old(LimitVerdict(row)) else old(lastRefusal))
      ensures Drift() == old(AppendDrift(row, issued))
    {
      var before := db;
      ghost var from, n := issued, AppendStatements(Live(row.state));
      ghost var drift := Drift();
      var ok := Statement();                         // BEGIN IMMEDIATE
      if !ok { return Err(Storage); }
      var room := AssertPendingCapacity(row);
      if room.Err? && room.error.Refused? {
        var failures := raised;
        Rollback(before);
        return Err(if raised > failures then Storage else room.error);
      }
      ok := room.Ok?;
      if ok {
        ok := InsertRow(row);
      }
      ok := EndTransaction(ok, before, from, n, drift, if Live(row.state) then 1 else 0);
      r := if ok then Ok(row.id) else Err(Storage);
    }

    /** The checks before the transaction; the reading moves the latch unless the event itself is too large. */
    method AssertEarlyAdmission(bytes: nat, reading: Option<nat>) returns (refusal: Option<Refusal>)
      modifies this`latch, this`refusedTotal, this`lastRefusal
      ensures latch == LatchAfter(config.capacity, old(latch), reading, bytes)
      ensures refusal == EarlyVerdict(config.capacity, old(latch), reading, bytes)
      ensures refusedTotal == if refusal.Some? then IncrementSaturating(old(refusedTotal)) else old(refusedTotal)
      ensures lastRefusal == if refusal.Some? then refusal else old(lastRefusal)
    {
      refusal := EventVerdict(config.capacity, bytes);
      if refusal.None? && config.capacity.reserve.Some? {
        latch := NextLatch(config.capacity.reserve.value, latch, reading);
        refusal := ReserveVerdict(config.capacity.reserve.value, latch, reading);
      }
      if refusal.Some? { RefuseCapacity(refusal.value); }
    }

    /** The refusal an append records: an early one, or one inside its transaction. */
    ghost function RecordedRefusal(row: Row, reading: Option<nat>): Option<Refusal>
      reads this
    {
      var early := EarlyVerdict(config.capacity, latch, reading, row.bytes);
      if closed then None
      else if early.Some? then early
      else if RefusesInside(row, issued) then LimitVerdict(row)
      else None
    }

    ghost function DriftAfterAppend(row: Row, reading: Option<nat>): int
      reads this
    {
      if closed || EarlyVerdict(config.capacity, latch, reading, row.bytes).Some? then Drift()
      else AppendDrift(row, issued)
    }

    /** The verdict of all the admission checks on a row, as things are. */
    ghost function FullVerdict(row: Row, reading: Option<nat>): Option<Refusal>
      reads this
    {
      var usage := Usage(LiveCount(db.rows), Sum(LiveBytes, db.rows));
      Verdict(config.capacity, latch, reading, usage, Live(row.state), row.bytes)
    }

    /**
     The event fits: within the event limit, not held back by the filesystem, and a recount of the table with its row
     added stays within the two limits on live rows.
     */
    ghost predicate HasRoomFor(a: Ingress, reading: Option<nat>, now: int)
      reads this
    {
      var c := config.capacity;
      var row := NewRow(config, db.nextId, a, now);
      && (c.maxEventBytes == None || Utf8Length(a.payload) <= c.maxEventBytes.value)
      && (c.reserve == None || !HeldByFilesystem(c.reserve.value, latch.on, reading))
      && (row.state == Pending || row.state == Replaying ==>
            && (c.maxRows == None || LiveCount(db.rows + [row]) <= c.maxRows.value)
            && (c.maxBytes == None || Sum(LiveBytes, db.rows + [row]) <= c.maxBytes.value))
    }

    /** The admission checks let exactly the events pass that fit. */
    lemma AdmitsExactly(a: Ingress, reading: Option<nat>, now: int)
      requires Valid()
      ensures FullVerdict(NewRow(config, db.nextId, a, now), reading) == None <==> HasRoomFor(a, reading, now)
    {
      var row := NewRow(config, db.nextId, a, now);
      AcceptedExactly(config.capacity, latch, reading, Usage(LiveCount(db.rows), Sum(LiveBytes, db.rows)),
                      Live(row.state), row.bytes);
      SumSnoc(LiveRows, db.rows, row);
      SumSnoc(LiveBytes, db.rows, row);
    }

    /** The append of a row: early admission, the transaction, and the count of failures that are no refusals. */
    method AppendRow(row: Row, reading: Option<nat>) returns (r: Result<nat, Failure>)
      requires Valid() && !closed && row.id == db.nextId && row.bytes == Utf8Length(row.payload)
      modifies this`db, this`pendingRowCount, this`issued, this`raised, this`latch, this`refusedTotal,
               this`lastRefusal, this`appendFailureTotal
      ensures Valid() && raised >= old(raised)
      ensures latch == LatchAfter(config.capacity, old(latch), reading, row.bytes)
      ensures r.Ok? ==> old(FullVerdict(row, reading)).None?
      ensures r.Err? && r.error.Refused? ==> old(FullVerdict(row, reading)) == Some(r.error.refusal)
      ensures raised == old(raised) ==>
                var verdict := old(FullVerdict(row, reading));
                r == if verdict.Some? then Err(Refused(verdict.value)) else Ok(row.id)
      ensures r.Err? ==> db == old(db) && !r.error.Closed?
      ensures r.Ok? ==> db.rows == old(db).rows + [row] && db.nextId == old(db).nextId + 1 && r.value == row.id
      ensures r.Ok? ==> AppendEnding(Live(row.state), old(issued)).Committed? && Drift() == old(Drift())
      ensures var refused := old(RecordedRefusal(row, reading));
              && (r.Err? && r.error.Refused? ==> refused == Some(r.error.refusal))
              && refusedTotal ==
                 (if refused.Some? then IncrementSaturating(old(refusedTotal)) else old(refusedTotal))
              && lastRefusal == (if refused.Some? then refused else old(lastRefusal))
      ensures appendFailureTotal ==
              if r == Err(Storage) then IncrementSaturating(old(appendFailureTotal)) else old(appendFailureTotal)
      ensures Drift() == old(DriftAfterAppend(row, reading))
    {
      var refusal := AssertEarlyAdmission(row.bytes, reading);
      if refusal.Some? { return Err(Refused(refusal.value)); }
      r := AppendInTransaction(row);
      if r.Err? && !r.error.Refused? {
        appendFailureTotal := IncrementSaturating(appendFailureTotal);
      }
    }

    /**
     Appends one event. A refusal, by any check, persists nothing; an accepted event is one new row at the end with
     measured byte evidence.
     */
    method AppendIngressEvent(a: Ingress, reading: Option<nat>, now: int) returns (r: Result<nat, Failure>)
      requires Valid()
      modifies this`db, this`pendingRowCount, this`issued, this`raised, this`latch, this`refusedTotal,
               this`lastRefusal, this`appendFailureTotal
      ensures Valid() && raised >= old(raised)
      ensures closed <==> r == Err(Closed)
      ensures latch == if closed then old(latch)
                       else LatchAfter(config.capacity, old(latch), reading, Utf8Length(a.payload))
      ensures var row := NewRow(config, old(db).nextId, a, now);
              && (r.Ok? ==> old(FullVerdict(row, reading)).None?)
              && (r.Err? && r.error.Refused? ==> old(FullVerdict(row, reading)) == Some(r.error.refusal))
              && (!closed && raised == old(raised) ==>
                    var verdict := old(FullVerdict(row, reading));
                    r == if verdict.Some? then Err(Refused(verdict.value)) else Ok(row.id))
      ensures r.Ok? ==> old(HasRoomFor(a, reading, now))
      ensures !closed && raised == old(raised) ==> (r.Ok? <==> old(HasRoomFor(a, reading, now)))
      ensures r.Err? ==> db == old(db)
      ensures r.Ok? ==> db.rows == old(db).rows + [NewRow(config, old(db).nextId, a, now)]
      ensures r.Ok? ==> db.nextId == old(db).nextId + 1 && r.value == old(db).nextId
      ensures r.Ok? ==> AppendEnding(Live(InitialState(a)), old(issued)).Committed? && Drift() == old(Drift())
      ensures r.Ok? ==>
                var usage := Usage(LiveCount(old(db).rows), Sum(LiveBytes, old(db).rows));
                LogicalVerdict(config.capacity, usage, Live(InitialState(a)), Utf8Length(a.payload)).None?
      ensures var refused := old(RecordedRefusal(NewRow(config, db.nextId, a, now), reading));
              && (r.Err? && r.error.Refused? ==> refused == Some(r.error.refusal))
              && refusedTotal ==
                 (if refused.Some? then IncrementSaturating(old(refusedTotal)) else old(refusedTotal))
              && lastRefusal == (if refused.Some? then refused else old(lastRefusal))
      ensures appendFailureTotal ==
              if r == Err(Storage) then IncrementSaturating(old(appendFailureTotal)) else old(appendFailureTotal)
      ensures Drift() == old(DriftAfterAppend(NewRow(config, db.nextId, a, now), reading))
    {
      if closed { return Err(Closed); }
      AdmitsExactly(a, reading, now);
      r := AppendRow(NewRow(config, db.nextId, a, now), reading);
    }

    /** The append as the runtime sees it: nothing persisted, or one new row that the logical limits admitted. */
    method AppendEvent(a: Ingress, reading: Option<nat>, now: int) returns (r: Result<nat, Failure>)
      requires Valid()
      modifies this`db, this`pendingRowCount, this`issued, this`raised, this`latch, this`refusedTotal,
               this`lastRefusal, this`appendFailureTotal
      ensures Valid() && raised >= old(raised)
      ensures r.Err? ==> db == old(db)
      ensures r.Ok? ==>
                && db.rows == old(db).rows + [NewRow(config, old(db).nextId, a, now)]
                && db.nextId == old(db).nextId + 1 && r.value == old(db).nextId && Drift() == old(Drift())
      ensures r.Ok? ==>
                var usage := Usage(LiveCount(old(db).rows), Sum(LiveBytes, old(db).rows));
                LogicalVerdict(config.capacity, usage, Live(InitialState(a)), Utf8Length(a.payload)).None?
    {
      r := AppendIngressEvent(a, reading, now);
    }

    /** The admission part of the capacity snapshot, read from the persisted totals. */
    method GetCapacitySnapshot(reading: Option<nat>) returns (r: Result<Observation, Failure>)
      requires Valid()
      modifies this`issued, this`raised
      ensures raised >= old(raised)
      ensures closed <==> r == Err(Closed)
      ensures !closed ==> (r.Ok? <==> raised == old(raised))
      ensures r.Ok? ==> r.value == Observe(config.capacity, latch, reading,
                                           Usage(LiveCount(db.rows), Sum(LiveBytes, db.rows)))
    {
      if closed { return Err(Closed); }
      var ok := Statement();
      if !ok { return Err(Storage); }
      r := Ok(Observe(config.capacity, latch, reading, Usage(db.totals.value.rows, db.totals.value.bytes)));
    }

    method Close()
      modifies this`closed
      ensures closed
    {
      closed := true;
    }
  }

  /** An append into an empty table whose COMMIT raises, as does the reading of the counter after it. */
  method CounterLeftAhead() returns (reservoir: SQLiteReservoir)
    ensures reservoir.Valid() && reservoir.db.rows == [] && reservoir.pendingRowCount == 1
  {
    var config := Config(0, 0, 1, 0, 0, Capacity(None, None, None, None));
    var empty := Database([], 1, Some(Totals(0, 0)));
    reservoir := new SQLiteReservoir(config, empty, iset{3, 5});
    var event := Ingress("", TransportStream, Normal, None, None, None, false);
    EndsFailed(reservoir.fails, 0, 3, 3);
    var appended := reservoir.AppendIngressEvent(event, None, 0);
  }

  lemma OneClaimedRow(row: Row)
    requires row.state.Replaying? && row.bytes == Utf8Length(row.payload)
    ensures Accounted(Database([row], row.id + 1, Some(Totals(1, row.bytes))))
    ensures Where([row], {row.id}) == [row]
    ensures DeltaRows([row], Delivered) == -1 && ChangeStatements([row], Delivered) == 3
  {
    assert [row][..0] == [];
    SumSnoc(LiveRows, [], row);
    SumSnoc(LiveBytes, [], row);
    assert [] + [row] == [row];
  }

  /** An acknowledgement of the one claimed row, with the same two faults: the row is live and the counter reads 0. */
  method CounterLeftBehind(row: Row) returns (reservoir: SQLiteReservoir)
    requires row.state.Replaying? && row.bytes == Utf8Length(row.payload)
    ensures reservoir.Valid() && reservoir.db.rows == [row] && reservoir.pendingRowCount == 0
  {
    var config := Config(0, 0, 1, 0, 0, Capacity(None, None, None, None));
    OneClaimedRow(row);
    reservoir := new SQLiteReservoir(config, Database([row], row.id + 1, Some(Totals(1, row.bytes))), iset{5, 7});
    assert Unique([row.id]) == {row.id};
    assert reservoir.UpdateEnding(0, {row.id}, [row], Delivered) == Failed(true, false) by {
      EndsFailed(reservoir.fails, 0, 5, 5);
    }
    var acknowledged := reservoir.MarkDelivered([row.id], 0);
    assert reservoir.Drift() == -1;
    OneClaimedRow(row);
  }

  /** Moving rows from one live state to another adds and takes away nothing. */
  lemma {:induction false} LiveMoveHasNoDelta(rows: seq<Row>, ids: set<nat>)
    requires forall r | r in rows && r.id in ids :: Live(r.state)
    ensures DeltaRows(Where(rows, ids), Pending) == 0
  {
    if |rows| > 0 {
      var front, last := rows[..|rows| - 1], rows[|rows| - 1];
      LiveMoveHasNoDelta(front, ids);
      assert last in rows;
      DeltaSnoc(Where(front, ids), last, Pending);
    }
  }

  /** After putting some stale rows back, the stale rows left are the other ones. */
  lemma StillStale(start: seq<Row>, nextId: nat, moved: set<nat>, cutoff: int, now: int)
    requires WellKeyed(start, nextId)
    ensures IdsWhere(Update(start, moved, MoveTo(Pending, None, now)), Stale(cutoff)) ==
            IdsWhere(start, Stale(cutoff)) - moved
  {
    var c := MoveTo(Pending, None, now);
    var out := Update(start, moved, c);
    var stale := Stale(cutoff);
    forall id | id in IdsWhere(start, stale) && id !in moved ensures id in IdsWhere(out, stale) {
      var r := IdsWhereSound(start, stale, id);
      UpdateImage(start, moved, c, r);
      IdsWhereComplete(out, stale);
    }
    forall id | id in IdsWhere(out, stale) ensures id in IdsWhere(start, stale) - moved {
      var r := IdsWhereSound(out, stale, id);
      var from := UpdateOrigin(start, moved, c, r);
      IdsWhereComplete(start, stale);
    }
  }

  /** What one more pass does to the reclaim loop's account of itself. */
  lemma NextReclaim(start: seq<Row>, nextId: nat, moved: set<nat>, cutoff: int, now: int, batch: int)
    requires WellKeyed(start, nextId)
    requires moved <= IdsWhere(start, Stale(cutoff))
    ensures var c := MoveTo(Pending, None, now);
            var stale := IdsWhere(start, Stale(cutoff));
            var ids := Ids(Select(Stale(cutoff), Update(start, moved, c), batch));
            && ids <= stale && ids !! moved
            && Update(Update(start, moved, c), ids, c) == Update(start, moved + ids, c)
            && |moved + ids| == |moved| + |ids|
            && (|ids| == 0 && batch != 0 ==> moved == stale)
            && (|ids| > 0 ==> |stale - (moved + ids)| < |stale - moved|)
            && (batch == 0 ==> |ids| == 0)
  {
    var c := MoveTo(Pending, None, now);
    var stale := IdsWhere(start, Stale(cutoff));
    var rows := Update(start, moved, c);
    StillStale(start, nextId, moved, cutoff, now);
    UpdateKeepsKeys(start, nextId, moved, c);
    SelectMembers(Stale(cutoff), rows, nextId, batch);
    var ids := Ids(Select(Stale(cutoff), rows, batch));
    UpdateTwice(start, moved, ids, Pending, None, now);
    IdsEmpty(Select(Stale(cutoff), rows, batch));
    assert stale - (moved + ids) == (stale - moved) - ids;
  }

  lemma IdsEmpty(s: seq<Row>)
    ensures |Ids(s)| == 0 <==> |s| == 0
  {
    if |s| > 0 {
      IdsWhereComplete(s, Everything);
      assert s[0].id in Ids(s);
    }
  }
}
