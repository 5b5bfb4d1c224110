/**
 Opening a database: structure checks, the chain of migrations inside one transaction, and the accounting check. Every
 SQL statement may fail; what the transaction has done is then rolled back.
 */
module Schema {
  import opened Options
  import opened Rows
  import opened Database

  const LATEST := 3

  /** A table is missing, lacks a required column, or has all of them. */
  datatype Table = Absent | Partial | Whole

  /** The columns of `ingress_events` that older databases may lack. */
  datatype Column = RetryNotBefore | ReplayClaimedAt | TerminalAt | SerializedBytes

  /** `ingress` is about the columns every version has; `columns` lists which of the others are there. */
  datatype SchemaDb = SchemaDb(
    version: int, ingress: Table, columns: set<Column>, health: Table, outages: Table, sessions: Table,
    capacity: Table, unrelated: bool, rows: seq<Row>, nextId: nat, totals: Option<Totals>)

  datatype SchemaError = NewerThanSupported | Incompatible | MigrationFailed(from: int) | AccountingInvalid | Fault

  datatype SchemaInfo = SchemaInfo(currentVersion: int, migratedFromLegacy: bool)

  function AllColumns(): set<Column> {
    {RetryNotBefore, ReplayClaimedAt, TerminalAt, SerializedBytes}
  }

  /** The columns the schema script puts indexes on. */
  function IndexedColumns(): set<Column> {
    {RetryNotBefore, ReplayClaimedAt, TerminalAt}
  }

  predicate NoTables(db: SchemaDb) {
    db.ingress.Absent? && db.health.Absent? && db.outages.Absent? && db.sessions.Absent? && db.capacity.Absent? &&
    !db.unrelated
  }

  predicate CommonStructure(db: SchemaDb) {
    db.ingress.Whole? && db.health.Whole? && db.outages.Whole? && db.sessions.Whole?
  }

  /** The structure check before a migration. */
  predicate LegacyStructure(db: SchemaDb) {
    CommonStructure(db) && !db.capacity.Partial?
  }

  /** The structure check of a current database. */
  predicate CurrentStructure(db: SchemaDb) {
    CommonStructure(db) && db.capacity.Whole? && db.columns == AllColumns()
  }

  /** The accounting check, as its three queries have it. */
  predicate AccountingHolds(db: SchemaDb) {
    MeasuredBytes(db.rows) && db.totals == Some(Recount(db.rows))
  }

  // ---------------------------------------------------------------- what statements do to rows

  datatype Rewriting = Blank(column: Column) | FillTerminal | Measure

  function Rewrite(w: Rewriting, r: Row): Row {
    match w
    case Blank(RetryNotBefore) => r.(retryAt := None)
    case Blank(ReplayClaimedAt) => r.(claimedAt := None)
    case Blank(TerminalAt) => r.(terminalAt := None)
    case Blank(SerializedBytes) => r.(bytes := 0)
    case FillTerminal => if Terminal(r.state) && r.terminalAt.None? then r.(terminalAt := Some(r.ingestAt)) else r
    case Measure => r.(bytes := Utf8Length(r.payload))
  }

  function RewriteRows(w: Rewriting, rows: seq<Row>): (out: seq<Row>)
    ensures |out| == |rows|
    ensures forall i | 0 <= i < |rows| :: out[i] == Rewrite(w, rows[i])
  {
    seq(|rows|, i requires 0 <= i < |rows| => Rewrite(w, rows[i]))
  }

  /** `ALTER TABLE ... ADD COLUMN` when the column is missing: every row gets the default. */
  function WithColumn(db: SchemaDb, column: Column): SchemaDb {
    if column in db.columns then db
    else db.(columns := db.columns + {column}, rows := RewriteRows(Blank(column), db.rows))
  }

  /** The schema script, on a table that already exists: missing tables are created. */
  function WithTables(db: SchemaDb): SchemaDb {
    db.(capacity := if db.capacity.Absent? then Whole else db.capacity)
  }

  /** It also creates indexes, and fails if one names a column the table lacks. */
  predicate ScriptRuns(db: SchemaDb) {
    IndexedColumns() <= db.columns
  }

  function Version1(db: SchemaDb): SchemaDb {
    WithColumn(WithColumn(db, RetryNotBefore), ReplayClaimedAt).(version := 1)
  }

  function TerminalFilled(db: SchemaDb): SchemaDb {
    var wide := WithColumn(db, TerminalAt);
    wide.(rows := RewriteRows(FillTerminal, wide.rows))
  }

  function Version2(db: SchemaDb): SchemaDb {
    WithTables(TerminalFilled(db)).(version := 2)
  }

  function BytesMeasured(db: SchemaDb): SchemaDb {
    var wide := WithColumn(db, SerializedBytes);
    wide.(rows := RewriteRows(Measure, wide.rows))
  }

  function Version3(db: SchemaDb): SchemaDb {
    var measured := BytesMeasured(db);
    WithTables(measured).(totals := Some(Recount(measured.rows)), version := 3)
  }

  /** Where the chain of migrations leads from version `from`; `None` when a step cannot be taken. */
  function Migrated(db: SchemaDb, from: int): Option<SchemaDb>
    decreases LATEST - from
  {
    if from >= LATEST then Some(db)
    else if from == 0 then Migrated(Version1(db), 1)
    else if from == 1 then if ScriptRuns(TerminalFilled(db)) then Migrated(Version2(db), 2) else None
    else if from == 2 then Migrated(Version3(db), 3)
    else None
  }

  function Fresh(db: SchemaDb): SchemaDb {
    SchemaDb(LATEST, Whole, AllColumns(), Whole, Whole, Whole, Whole, db.unrelated, [], 1, Some(Recount([])))
  }

  datatype Outcome = Outcome(db: SchemaDb, result: Result<SchemaInfo, SchemaError>)

  /** The checks on a database that is at the latest version. */
  function Checked(db: SchemaDb, info: SchemaInfo): Result<SchemaInfo, SchemaError> {
    if !CurrentStructure(db) then Err(Incompatible)
    else if !AccountingHolds(db) then Err(AccountingInvalid)
    else Ok(info)
  }

  /** What opening a database comes to when no statement fails. */
  function Opened(db: SchemaDb): Outcome {
    if db.version > LATEST then Outcome(db, Err(NewerThanSupported))
    else if db.version == 0 && NoTables(db) then Outcome(Fresh(db), Ok(SchemaInfo(LATEST, false)))
    else if db.version == LATEST then Outcome(db, Checked(db, SchemaInfo(LATEST, false)))
    else if !LegacyStructure(db) then Outcome(db, Err(Incompatible))
    else
      match Migrated(db, db.version)
      case None => Outcome(db, Err(if db.version < 0 then Incompatible else MigrationFailed(1)))
      case Some(current) => Outcome(current, Checked(current, SchemaInfo(LATEST, db.version == 0)))
  }

  // ---------------------------------------------------------------- the code

  class SchemaConnection {
    const fails: iset<nat>
    var issued: nat
    var raised: nat
    var db: SchemaDb

    constructor (db: SchemaDb, fails: iset<nat>)
      ensures this.db == db && this.fails == fails && raised == 0
    {
      this.db := db;
      this.fails := fails;
      issued, raised := 0, 0;
    }

    method Exec() returns (ok: bool)
      modifies this`issued, this`raised
      ensures raised == old(raised) + if ok then 0 else 1
    {
      ok := issued !in fails;
      issued := issued + 1;
      raised := raised + if ok then 0 else 1;
    }

    method EnsureColumn(column: Column) returns (ok: bool)
      modifies this
      ensures raised >= old(raised) && (ok <==> raised == old(raised))
      ensures ok ==> db == WithColumn(old(db), column)
    {
      ok := true;
      if column !in db.columns {
        ok := Exec();                                // ALTER TABLE ... ADD COLUMN
        if ok { db := WithColumn(db, column); }
      }
    }

    method Migrate0To1() returns (ok: bool)
      modifies this
      ensures raised >= old(raised) && (ok <==> raised == old(raised))
      ensures ok ==> db.(version := 1) == Version1(old(db))
    {
      ok := Exec();                                  // PRAGMA table_info
      if !ok { return; }
      ok := EnsureColumn(RetryNotBefore);
      if !ok { return; }
      ok := EnsureColumn(ReplayClaimedAt);
      if !ok { return; }
      ok := Exec();                                  // CREATE INDEX on (replay_state, retry_not_before_ms)
      if !ok { return; }
      ok := Exec();                                  // CREATE INDEX on (replay_state, replay_claimed_at_ms)
    }

    method Migrate1To2() returns (ok: bool)
      modifies this
      ensures raised >= old(raised)
      ensures ok ==> raised == old(raised) && ScriptRuns(TerminalFilled(old(db)))
      ensures !ok && raised == old(raised) ==> !ScriptRuns(TerminalFilled(old(db)))
      ensures ok ==> db.(version := 2) == Version2(old(db))
    {
      ok := Exec();                                  // PRAGMA table_info
      if !ok { return; }
      ok := EnsureColumn(TerminalAt);
      if !ok { return; }
      ok := Exec();                                  // UPDATE ... SET terminal_at_ms = monitor_ingest_at_ms
      if !ok { return; }
      db := db.(rows := RewriteRows(FillTerminal, db.rows));
      ok := Exec();                                  // the schema script
      if !ok { return; }
      if !ScriptRuns(db) { return false; }
      db := WithTables(db);
    }

    method Migrate2To3() returns (ok: bool)
      modifies this
      ensures raised >= old(raised) && (ok <==> raised == old(raised))
      ensures ok ==> db.(version := 3) == Version3(old(db))
    {
      ok := Exec();                                  // PRAGMA table_info
      if !ok { return; }
      ok := EnsureColumn(SerializedBytes);
      if !ok { return; }
      ok := Exec();                                  // UPDATE ... SET serialized_event_bytes = length(...)
      if !ok { return; }
      db := db.(rows := RewriteRows(Measure, db.rows));
      ok := Exec();                                  // CREATE TABLE IF NOT EXISTS reservoir_capacity_state
      if !ok { return; }
      db := WithTables(db);
      ok := Exec();                                  // INSERT ... ON CONFLICT DO UPDATE
      if !ok { return; }
      db := db.(totals := Some(Recount(db.rows)));
    }

    /** The migration loop, inside its transaction. */
    method MigrateToLatest(from: int) returns (r: Result<(), SchemaError>)
      requires from < LATEST && db.version == from
      modifies this
      ensures raised >= old(raised)
      ensures r.Ok? ==> raised == old(raised) && Migrated(old(db), from) == Some(db)
      ensures r.Err? && raised == old(raised) ==>
                Migrated(old(db), from) == None && r == Err(if from < 0 then Incompatible else MigrationFailed(1))
    {
      var current := from;
      while current < LATEST
        invariant from <= current <= LATEST && (from < 0 ==> current == from)
        invariant raised == old(raised)
        invariant Migrated(db, current) == Migrated(old(db), from)
        decreases LATEST - current
      {
        var ok;
        if current == 0 {
          ok := Migrate0To1();
        } else if current == 1 {
          ok := Migrate1To2();
        } else if current == 2 {
          ok := Migrate2To3();
        } else {
          return Err(Incompatible);
        }
        if !ok { return Err(MigrationFailed(current)); }
        ok := Exec();                                // PRAGMA user_version
        if !ok { return Err(MigrationFailed(current)); }
        db := db.(version := current + 1);
        current := current + 1;
      }
      r := Ok(());
    }

    /** BEGIN, the migrations, COMMIT; any failure restores the database. */
    method MigrateInTransaction() returns (r: Result<(), SchemaError>)
      requires db.version < LATEST
      modifies this
      ensures raised >= old(raised)
      ensures r.Ok? ==> raised == old(raised) && Migrated(old(db), old(db).version) == Some(db)
      ensures r.Err? ==> db == old(db)
      ensures r.Err? && raised == old(raised) ==>
                && Migrated(db, db.version) == None
                && r == Err(if db.version < 0 then Incompatible else MigrationFailed(1))
    {
      var before := db;
      var ok := Exec();                              // BEGIN IMMEDIATE
      if !ok { return Err(Fault); }
      r := MigrateToLatest(db.version);
      if r.Err? { db := before; return; }            // ROLLBACK
      ok := Exec();                                  // COMMIT
      if !ok { db := before; return Err(Fault); }
    }

    /** The accounting check only reads: rows with false byte evidence, the singleton row, the authoritative counts. */
    method ValidateCapacityAccounting() returns (r: Result<(), SchemaError>)
      modifies this`issued, this`raised
      ensures raised >= old(raised)
      ensures r.Ok? ==> raised == old(raised) && AccountingHolds(db)
      ensures r.Err? && raised == old(raised) ==> r == Err(AccountingInvalid) && !AccountingHolds(db)
    {
      var ok := Exec();
      if !ok { return Err(Fault); }
      for i := 0 to |db.rows|
        invariant MeasuredBytes(db.rows[..i])
        invariant raised == old(raised)
      {
        if db.rows[i].bytes != Utf8Length(db.rows[i].payload) {
          UnmeasuredRow(db.rows, i);
          return Err(AccountingInvalid);
        }
        assert db.rows[..i + 1][..i] == db.rows[..i];
      }
      assert db.rows[..|db.rows|] == db.rows;
      ok := Exec();
      if !ok { return Err(Fault); }
      if db.totals.None? { return Err(AccountingInvalid); }
      ok := Exec();
      if !ok { return Err(Fault); }
      var rows, bytes := CountLive();
      if db.totals.value.rows != rows || db.totals.value.bytes != bytes { return Err(AccountingInvalid); }
      r := Ok(());
    }

    method CountLive() returns (rows: nat, bytes: nat)
      ensures Totals(rows, bytes) == Recount(db.rows)
    {
      rows, bytes := 0, 0;
      for i := 0 to |db.rows|
        invariant rows == Sum(LiveRows, db.rows[..i]) && bytes == Sum(LiveBytes, db.rows[..i])
      {
        assert db.rows[..i + 1][..i] == db.rows[..i];
        if Live(db.rows[i].state) {
          rows, bytes := rows + 1, bytes + db.rows[i].bytes;
        }
      }
      assert db.rows[..|db.rows|] == db.rows;
    }

    method Validate(info: SchemaInfo) returns (r: Result<SchemaInfo, SchemaError>)
      modifies this`issued, this`raised
      ensures raised >= old(raised)
      ensures raised == old(raised) ==> r == Checked(db, info)
      ensures raised != old(raised) ==> r.Err?
    {
      var ok := Exec();                              // sqlite_schema, PRAGMA table_info
      if !ok { return Err(Fault); }
      if !CurrentStructure(db) { return Err(Incompatible); }
      var accounting := ValidateCapacityAccounting();
      r := if accounting.Err? then Err(accounting.error) else Ok(info);
    }

    /**
     Opens the database. Without faults the outcome is the specified one; a fault anywhere leaves the starting database
     or, once the migration has committed, the migrated one.
     */
    method ApplyMonitorSchema() returns (r: Result<SchemaInfo, SchemaError>)
      modifies this
      ensures raised >= old(raised)
      ensures raised == old(raised) ==> Opened(old(db)) == Outcome(db, r)
      ensures raised != old(raised) ==> r.Err? && (db == old(db) || db == Opened(old(db)).db)
    {
      var ok := Exec();                              // PRAGMA user_version
      if !ok { return Err(Fault); }
      if db.version > LATEST { return Err(NewerThanSupported); }
      ok := Exec();                                  // sqlite_schema
      if !ok { return Err(Fault); }
      var detected := db.version;
      if detected == 0 && NoTables(db) {
        ok := Exec();                                // one transaction: script, totals row, user_version
        if !ok { return Err(Fault); }
        db := Fresh(db);
        return Ok(SchemaInfo(LATEST, false));
      }
      if detected < LATEST {
        ok := Exec();
        if !ok { return Err(Fault); }
        if !LegacyStructure(db) { return Err(Incompatible); }
        var migrated := MigrateInTransaction();
        if migrated.Err? { return Err(migrated.error); }
        r := Validate(SchemaInfo(LATEST, detected == 0));
        return;
      }
      r := Validate(SchemaInfo(LATEST, false));
      if r.Ok? {
        ok := Exec();                                // the schema script, with nothing left to create
        if !ok { return Err(Fault); }
      }
    }
  }

  lemma {:induction false} UnmeasuredRow(rows: seq<Row>, i: nat)
    requires i < |rows| && rows[i].bytes != Utf8Length(rows[i].payload)
    ensures !MeasuredBytes(rows)
  {
    if i < |rows| - 1 {
      UnmeasuredRow(rows[..|rows| - 1], i);
    }
  }

  // ---------------------------------------------------------------- when the chain goes through

  /** The columns a database must already have for the chain to end in a current structure. */
  function NeededColumns(version: int): set<Column> {
    if version == 0 then {}
    else if version == 1 then {RetryNotBefore, ReplayClaimedAt}
    else {RetryNotBefore, ReplayClaimedAt, TerminalAt}
  }

  lemma {:induction false} MeasureIsMeasured(rows: seq<Row>)
    ensures MeasuredBytes(RewriteRows(Measure, rows))
  {
    if |rows| > 0 {
      MeasureIsMeasured(rows[..|rows| - 1]);
      assert RewriteRows(Measure, rows)[..|rows| - 1] == RewriteRows(Measure, rows[..|rows| - 1]);
    }
  }

  lemma Version3IsCurrent(db: SchemaDb)
    requires LegacyStructure(db)
    ensures AccountingHolds(Version3(db)) && Version3(db).version == LATEST
    ensures CurrentStructure(Version3(db)) <==> IndexedColumns() <= db.columns
  {
    MeasureIsMeasured(WithColumn(db, SerializedBytes).rows);
    assert Version3(db).columns == db.columns + {SerializedBytes};
    assert AllColumns() == IndexedColumns() + {SerializedBytes};
    forall c: Column ensures c in AllColumns() {
      assert c.RetryNotBefore? || c.ReplayClaimedAt? || c.TerminalAt? || c.SerializedBytes?;
    }
  }

  /** The chain ends at version 3 whenever it ends, with the accounting established. */
  lemma {:induction false} ChainOutcome(db: SchemaDb, from: int)
    requires LegacyStructure(db) && 0 <= from < LATEST
    ensures Migrated(db, from).None? <==> from == 1 && !(NeededColumns(1) <= db.columns)
    ensures Migrated(db, from).Some? ==>
              var m := Migrated(db, from).value;
              && m.version == LATEST && AccountingHolds(m)
              && (CurrentStructure(m) <==> NeededColumns(from) <= db.columns)
    decreases LATEST - from
  {
    if from == 0 {
      ChainOutcome(Version1(db), 1);
    } else if from == 1 {
      assert ScriptRuns(TerminalFilled(db)) <==> NeededColumns(1) <= db.columns;
      ChainOutcome(Version2(db), 2);
    } else {
      Version3IsCurrent(db);
    }
  }

  /** A database opens exactly when it is empty, current and consistent, or old with the columns its version needs. */
  predicate Openable(db: SchemaDb) {
    || (db.version == 0 && NoTables(db))
    || (db.version == LATEST && CurrentStructure(db) && AccountingHolds(db))
    || (0 <= db.version < LATEST && LegacyStructure(db) && NeededColumns(db.version) <= db.columns)
  }

  /**
   Opening succeeds exactly on these databases, and what it leaves is a current database that opens again unchanged.
   */
  lemma OpensExactly(db: SchemaDb, outcome: Outcome)
    requires outcome == Opened(db)
    ensures outcome.result.Ok? <==> Openable(db)
    ensures outcome.result.Ok? ==>
              && outcome.db.version == LATEST && CurrentStructure(outcome.db) && AccountingHolds(outcome.db)
              && Opened(outcome.db) == Outcome(outcome.db, Ok(SchemaInfo(LATEST, false)))
  {
    if 0 <= db.version < LATEST && LegacyStructure(db) {
      ChainOutcome(db, db.version);
    }
  }

  /**
   A failed opening leaves the database as it was, with one exception: a version 2 database that lacks one of the
   indexed columns is migrated and committed before the structure check refuses it, and every later opening refuses
   it too.
   */
  lemma FailureRestoresExactly(db: SchemaDb, outcome: Outcome)
    requires outcome == Opened(db) && outcome.result.Err?
    ensures outcome.db == db <==> !(db.version == 2 && LegacyStructure(db))
    ensures outcome.db != db ==>
              && !(IndexedColumns() <= db.columns) && outcome.db.version == LATEST
              && Opened(outcome.db) == Outcome(outcome.db, Err(Incompatible))
  {
    if 0 <= db.version < LATEST && LegacyStructure(db) {
      ChainOutcome(db, db.version);
    }
  }

  /** A version 2 database with all tables in place and these of the later columns. */
  function VersionTwo(columns: set<Column>, rows: seq<Row>, nextId: nat): SchemaDb {
    SchemaDb(2, Whole, columns, Whole, Whole, Whole, Whole, false, rows, nextId, None)
  }

  /** The exception is real: without the indexed columns and without a row, the database is refused and changed. */
  lemma RefusedButChanged(db: SchemaDb)
    requires db == VersionTwo({}, [], 1)
    ensures Opened(db).result == Err(Incompatible) && Opened(db).db != db && Opened(db).db.version == LATEST
  {
    ChainOutcome(db, 2);
    assert RetryNotBefore in IndexedColumns();
  }

  // ---------------------------------------------------------------- what the chain keeps

  /** The same event: everything a migration has no business changing. */
  predicate SameEvent(a: Row, b: Row) {
    && a.id == b.id && a.ingestAt == b.ingestAt && a.source == b.source && a.payload == b.payload
    && a.mode == b.mode && a.state == b.state && a.attempts == b.attempts && a.expiresAt == b.expiresAt
  }

  /** A row before and after a migration from a database of the given version and columns. */
  predicate MigratedRow(version: int, columns: set<Column>, before: Row, after: Row) {
    && SameEvent(before, after)
    && after.retryAt == (if RetryNotBefore in columns then before.retryAt else None)
    && after.claimedAt == (if ReplayClaimedAt in columns then before.claimedAt else None)
    && after.bytes == Utf8Length(before.payload)
    && after.terminalAt ==
       var kept := if TerminalAt in columns then before.terminalAt else None;
       if version < 2 && Terminal(before.state) && kept.None? then Some(before.ingestAt) else kept
  }

  function FilledTime(columns: set<Column>, r: Row): Option<int> {
    var kept := if TerminalAt in columns then r.terminalAt else None;
    if Terminal(r.state) && kept.None? then Some(r.ingestAt) else kept
  }

  lemma Version1Row(db: SchemaDb, i: nat)
    requires i < |db.rows|
    ensures |Version1(db).rows| == |db.rows| && Version1(db).nextId == db.nextId
    ensures Version1(db).columns == db.columns + {RetryNotBefore, ReplayClaimedAt}
    ensures Version1(db).rows[i] ==
            db.rows[i].(retryAt := if RetryNotBefore in db.columns then db.rows[i].retryAt else None,
                        claimedAt := if ReplayClaimedAt in db.columns then db.rows[i].claimedAt else None)
  {
  }

  lemma Version2Row(db: SchemaDb, i: nat)
    requires i < |db.rows|
    ensures |Version2(db).rows| == |db.rows| && Version2(db).nextId == db.nextId
    ensures Version2(db).columns == db.columns + {TerminalAt}
    ensures Version2(db).rows[i] == db.rows[i].(terminalAt := FilledTime(db.columns, db.rows[i]))
  {
  }

  lemma Version3Row(db: SchemaDb, i: nat)
    requires i < |db.rows|
    ensures |Version3(db).rows| == |db.rows| && Version3(db).nextId == db.nextId
    ensures Version3(db).rows[i] == db.rows[i].(bytes := Utf8Length(db.rows[i].payload))
  {
  }

  /** The last two migrations together, on one row. */
  lemma FromVersion1Row(db: SchemaDb, two: SchemaDb, current: SchemaDb, i: nat)
    requires i < |db.rows| && two == Version2(db) && current == Version3(two)
    ensures |current.rows| == |db.rows|
    ensures current.rows[i] == db.rows[i].(terminalAt := FilledTime(db.columns, db.rows[i]),
                                           bytes := Utf8Length(db.rows[i].payload))
  {
    Version2Row(db, i);
    Version3Row(two, i);
  }

  /** All three. */
  lemma FromVersion0Row(db: SchemaDb, one: SchemaDb, two: SchemaDb, current: SchemaDb, i: nat)
    requires i < |db.rows| && one == Version1(db) && two == Version2(one) && current == Version3(two)
    ensures |current.rows| == |db.rows| && MigratedRow(0, db.columns, db.rows[i], current.rows[i])
  {
    Version1Row(db, i);
    FromVersion1Row(one, two, current, i);
  }

  lemma ChainEnds(db: SchemaDb, current: SchemaDb)
    requires 0 <= db.version < LATEST && Migrated(db, db.version) == Some(current)
    ensures db.version == 0 ==> current == Version3(Version2(Version1(db)))
    ensures db.version == 1 ==> current == Version3(Version2(db))
    ensures db.version == 2 ==> current == Version3(db)
  {
    if db.version == 0 {
      assert Migrated(db, 0) == Migrated(Version1(db), 1) == Migrated(Version2(Version1(db)), 2);
    } else if db.version == 1 {
      assert Migrated(db, 1) == Migrated(Version2(db), 2);
    }
  }

  lemma MigrationPreservesRow(db: SchemaDb, current: SchemaDb, i: nat)
    requires 0 <= db.version < LATEST && i < |db.rows|
    requires NeededColumns(db.version) <= db.columns && Migrated(db, db.version) == Some(current)
    ensures |current.rows| == |db.rows| && MigratedRow(db.version, db.columns, db.rows[i], current.rows[i])
  {
    ChainEnds(db, current);
    if db.version == 0 {
      FromVersion0Row(db, Version1(db), Version2(Version1(db)), current, i);
    } else if db.version == 1 {
      FromVersion1Row(db, Version2(db), current, i);
    } else {
      Version3Row(db, i);
    }
  }

  /**
   The chain preserves every row - identity, payload, state, attempts, order key - and establishes byte evidence;
   from version 0 or 1 every terminal row ends with a terminal time.
   */
  lemma MigrationPreservesRows(db: SchemaDb, outcome: Outcome)
    requires 0 <= db.version < LATEST && LegacyStructure(db) && outcome == Opened(db) && outcome.result.Ok?
    ensures |outcome.db.rows| == |db.rows|
    ensures forall i | 0 <= i < |db.rows| :: MigratedRow(db.version, db.columns, db.rows[i], outcome.db.rows[i])
  {
    OpensExactly(db, outcome);
    MigrationKeepsLength(db);
    forall i | 0 <= i < |db.rows|
      ensures MigratedRow(db.version, db.columns, db.rows[i], outcome.db.rows[i])
    {
      MigrationPreservesRow(db, outcome.db, i);
    }
  }

  lemma {:induction false} MigrationKeepsLength(db: SchemaDb)
    requires 0 <= db.version < LATEST && Migrated(db, db.version).Some?
    ensures |Migrated(db, db.version).value.rows| == |db.rows|
    ensures Migrated(db, db.version).value.nextId == db.nextId
    decreases LATEST - db.version
  {
    if db.version == 0 {
      MigrationKeepsLength(Version1(db));
    } else if db.version == 1 {
      MigrationKeepsLength(Version2(db));
    }
  }

  lemma {:induction false} SameIdsKeepKeys(before: seq<Row>, after: seq<Row>, nextId: nat)
    requires WellKeyed(before, nextId) && |after| == |before|
    requires forall i | 0 <= i < |before| :: after[i].id == before[i].id
    ensures WellKeyed(after, nextId)
  {
    if |before| > 0 {
      SameIdsKeepKeys(before[..|before| - 1], after[..|before| - 1], before[|before| - 1].id);
    }
  }

  /** The event table and totals the reservoir works on. */
  function Contents(db: SchemaDb): Database {
    Database(db.rows, db.nextId, db.totals)
  }

  /** After a successful opening the reservoir starts from a database whose books are right. */
  lemma OpenedIsAccounted(db: SchemaDb)
    requires WellKeyed(db.rows, db.nextId) && Opened(db).result.Ok?
    ensures Accounted(Contents(Opened(db).db))
  {
    OpensExactly(db, Opened(db));
    if 0 <= db.version < LATEST && LegacyStructure(db) {
      MigrationPreservesRows(db, Opened(db));
      MigrationKeepsLength(db);
      SameIdsKeepKeys(db.rows, Opened(db).db.rows, db.nextId);
    }
  }

  /** And any database the reservoir has committed opens again, unchanged. */
  lemma CommittedReopens(db: SchemaDb, committed: Database)
    requires db.version == LATEST && CurrentStructure(db) && Accounted(committed)
    ensures var reopened := db.(rows := committed.rows, nextId := committed.nextId, totals := committed.totals);
            Opened(reopened) == Outcome(reopened, Ok(SchemaInfo(LATEST, false)))
  {
  }

  /** A version 2 database with a delivered row and no terminal times: the row keeps none, so it is never deleted. */
  lemma Version2TerminalTimesAreNotFilled(db: SchemaDb, i: nat)
    requires db.version == 2 && LegacyStructure(db) && Opened(db).result.Ok?
    requires i < |db.rows| && Terminal(db.rows[i].state) && db.rows[i].terminalAt.None?
    ensures var after := Opened(db).db.rows;
            i < |after| && forall now, dead :: !Matches(Deletable(now, dead), after[i])
  {
    OpensExactly(db, Opened(db));
    MigrationPreservesRows(db, Opened(db));
  }

  /** There is such a database: one delivered row without a time. It opens, and no deletion query ever finds the row. */
  lemma DeliveredForEver(db: SchemaDb, row: Row)
    requires db == VersionTwo(IndexedColumns(), [row], row.id + 1)
    requires row.state.Delivered? && row.terminalAt.None?
    ensures Opened(db).result.Ok? && |Opened(db).db.rows| == 1 && Opened(db).db.rows[0].id == row.id
    ensures forall now, dead :: !Matches(Deletable(now, dead), Opened(db).db.rows[0])
  {
    OpensExactly(db, Opened(db));
    MigrationPreservesRows(db, Opened(db));
    Version2TerminalTimesAreNotFilled(db, 0);
  }

  // ---------------------------------------------------------------- the same in columns

  lemma {:induction false} MeasuredIsEveryRow(rows: seq<Row>)
    ensures MeasuredBytes(rows) <==> forall r | r in rows :: r.bytes == Utf8Length(r.payload)
  {
    if |rows| > 0 {
      var front, last := rows[..|rows| - 1], rows[|rows| - 1];
      MeasuredIsEveryRow(front);
      assert forall r :: r in rows <==> r in front || r == last;
    }
  }

  /** A database opens if it has no table at all. */
  predicate New(db: SchemaDb) {
    && db.version == 0 && !db.unrelated && db.ingress == Absent && db.health == Absent && db.outages == Absent
    && db.sessions == Absent && db.capacity == Absent
  }

  /** It opens if it is at version 3 with every table and column, measured bytes and totals that are a recount. */
  ghost predicate UpToDate(db: SchemaDb) {
    && db.version == 3 && db.ingress == Whole && db.health == Whole && db.outages == Whole && db.sessions == Whole
    && db.capacity == Whole
    && RetryNotBefore in db.columns && ReplayClaimedAt in db.columns && TerminalAt in db.columns
    && SerializedBytes in db.columns
    && (forall r | r in db.rows :: r.bytes == Utf8Length(r.payload))
    && db.totals == Some(Totals(Sum(LiveRows, db.rows), Sum(LiveBytes, db.rows)))
  }

  /** Older, it opens if the tables are there, but for that of the totals, and the columns its version brought in. */
  predicate Upgradable(db: SchemaDb) {
    && 0 <= db.version <= 2 && db.ingress == Whole && db.health == Whole && db.outages == Whole && db.sessions == Whole
    && db.capacity != Partial
    && (db.version >= 1 ==> RetryNotBefore in db.columns && ReplayClaimedAt in db.columns)
    && (db.version == 2 ==> TerminalAt in db.columns)
  }

  /** Which databases open, and what is said of them: version 3, migrated from a legacy one or not. */
  lemma OpensInColumns(db: SchemaDb)
    ensures Opened(db).result.Ok? <==> New(db) || UpToDate(db) || Upgradable(db)
    ensures Opened(db).result.Ok? ==> Opened(db).result.value == SchemaInfo(3, db.version == 0 && !New(db))
    ensures var after := Opened(db).db;
            New(db) ==> after.rows == [] && after.nextId == 1 && after.totals == Some(Totals(0, 0))
    ensures UpToDate(db) ==> Opened(db).db == db
  {
    OpensExactly(db, Opened(db));
    MeasuredIsEveryRow(db.rows);
    EveryColumn(db);
  }

  lemma EveryColumn(db: SchemaDb)
    ensures db.columns == AllColumns() <==>
              RetryNotBefore in db.columns && ReplayClaimedAt in db.columns && TerminalAt in db.columns &&
              SerializedBytes in db.columns
  {
    forall c: Column ensures c in AllColumns() {
      assert c.RetryNotBefore? || c.ReplayClaimedAt? || c.TerminalAt? || c.SerializedBytes?;
    }
  }

  /** And why the others do not. */
  lemma RefusedInColumns(db: SchemaDb)
    requires Opened(db).result.Err?
    ensures var whole := db.ingress == Whole && db.health == Whole && db.outages == Whole && db.sessions == Whole;
            Opened(db).result.error ==
            if db.version > 3 then NewerThanSupported
            else if db.version == 3 && whole && db.capacity == Whole && RetryNotBefore in db.columns &&
                    ReplayClaimedAt in db.columns && TerminalAt in db.columns && SerializedBytes in db.columns
            then AccountingInvalid
            else if db.version == 1 && whole && db.capacity != Partial then MigrationFailed(1)
            else Incompatible
  {
    OpensExactly(db, Opened(db));
    EveryColumn(db);
    if 0 <= db.version < LATEST && LegacyStructure(db) {
      ChainOutcome(db, db.version);
    }
  }
}
