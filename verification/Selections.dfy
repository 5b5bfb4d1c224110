/**
 What the ordered selections pick, read off the columns of the rows: which rows a claim, a reclaim, an expiry and a
 deletion select, in which order, and which of them a limit leaves for later.
 */
module Selections {
  import opened Counters
  import opened Options
  import opened Rows
  import opened Ordering
  import opened Database
  import opened Store

  /** Two rows of a selection stand in the order of ingest times, or terminal times for deletions; ties by rowid. */
  lemma SelectAscends(q: Query, rows: seq<Row>, nextId: nat, limit: int, i: nat, j: nat)
    requires WellKeyed(rows, nextId) && i < j < |Select(q, rows, limit)|
    ensures var a, b := Select(q, rows, limit)[i], Select(q, rows, limit)[j];
            if q.Deletable? then
              && a.terminalAt.Some? && b.terminalAt.Some?
              && (a.terminalAt.value < b.terminalAt.value ||
                  (a.terminalAt.value == b.terminalAt.value && a.id < b.id))
            else a.ingestAt < b.ingestAt || (a.ingestAt == b.ingestAt && a.id < b.id)
  {
    SelectMembers(q, rows, nextId, limit);
    assert Select(q, rows, limit)[i] in Select(q, rows, limit) && Select(q, rows, limit)[j] in Select(q, rows, limit);
  }

  /** A matching row that the limit leaves out comes after every row it lets in, and the limit is used up. */
  lemma SelectLeavesLater(q: Query, rows: seq<Row>, nextId: nat, limit: int, taken: Row, left: Row)
    requires WellKeyed(rows, nextId) && taken in Select(q, rows, limit)
    requires left in rows && Matches(q, left) && left !in Select(q, rows, limit)
    ensures if q.Deletable? then
              && taken.terminalAt.Some? && left.terminalAt.Some?
              && (taken.terminalAt.value < left.terminalAt.value ||
                  (taken.terminalAt.value == left.terminalAt.value && taken.id < left.id))
            else taken.ingestAt < left.ingestAt || (taken.ingestAt == left.ingestAt && taken.id < left.id)
  {
    OrderedIsSelection(q, rows, nextId);
    var all := Ordered(q, rows);
    var i :| 0 <= i < |Select(q, rows, limit)| && Select(q, rows, limit)[i] == taken;
    var j :| 0 <= j < |all| && all[j] == left;
    assert Select(q, rows, limit) == all[..|Select(q, rows, limit)|];
    assert j >= |Select(q, rows, limit)|;
    SelectAscends(q, rows, nextId, -1, i, j);
  }

  lemma SelectUsesLimit(q: Query, rows: seq<Row>, nextId: nat, limit: int, left: Row)
    requires WellKeyed(rows, nextId) && left in rows && Matches(q, left) && left !in Select(q, rows, limit)
    ensures limit >= 0 && |Ids(Select(q, rows, limit))| == limit
  {
    OrderedIsSelection(q, rows, nextId);
    SelectedDistinct(q, rows, nextId, limit);
  }

  /** As many ids as rows are selected. */
  lemma SelectedDistinct(q: Query, rows: seq<Row>, nextId: nat, limit: int)
    requires WellKeyed(rows, nextId)
    ensures |Ids(Select(q, rows, limit))| == |Select(q, rows, limit)|
  {
    OrderedIsSelection(q, rows, nextId);
    SelectMembers(q, rows, nextId, limit);
    DistinctIds(q, Select(q, rows, limit), rows, nextId);
  }

  /** A selection by a query, as ids: rows that match it, all of them unless the limit is used up. */
  lemma BatchExactly(q: Query, rows: seq<Row>, nextId: nat, limit: int, r: Row)
    requires WellKeyed(rows, nextId) && r in rows
    ensures var ids := Ids(Select(q, rows, limit));
            && (r.id in ids <==> r in Select(q, rows, limit)) && (r.id in ids ==> Matches(q, r))
            && (Matches(q, r) && r.id !in ids ==> limit >= 0 && |ids| == limit)
            && (limit >= 0 ==> |ids| <= limit)
  {
    SelectedById(q, rows, nextId, limit, r);
    SelectedFromTable(q, rows, nextId, limit);
    SelectedDistinct(q, rows, nextId, limit);
    if Matches(q, r) && r !in Select(q, rows, limit) {
      SelectUsesLimit(q, rows, nextId, limit, r);
    }
  }

  // ---------------------------------------------------------------- claims

  /** A claim takes pending rows whose retry time has come, at most `limit`, and leaves one only when it has as many. */
  lemma ClaimExactly(rows: seq<Row>, nextId: nat, limit: int, now: int, r: Row)
    requires WellKeyed(rows, nextId) && r in rows
    ensures var ids := ClaimIds(rows, limit, now);
            var eligible := r.state == Pending && (r.retryAt == None || r.retryAt.value <= now);
            && (r.id in ids ==> eligible) && |ids| <= Max(limit, 0)
            && (eligible && limit > 0 && r.id !in ids ==> |ids| == limit)
  {
    BatchExactly(Eligible(now), rows, nextId, limit, r);
  }

  /** And it takes the oldest: an eligible row it leaves comes later in the order of (ingest time, rowid). */
  lemma ClaimTakesOldest(rows: seq<Row>, nextId: nat, limit: int, now: int, taken: Row, left: Row)
    requires WellKeyed(rows, nextId) && taken in rows && left in rows
    requires taken.id in ClaimIds(rows, limit, now) && left.id !in ClaimIds(rows, limit, now)
    requires left.state == Pending && (left.retryAt == None || left.retryAt.value <= now)
    ensures taken.ingestAt < left.ingestAt || (taken.ingestAt == left.ingestAt && taken.id < left.id)
  {
    BatchExactly(Eligible(now), rows, nextId, limit, taken);
    BatchExactly(Eligible(now), rows, nextId, limit, left);
    SelectLeavesLater(Eligible(now), rows, nextId, limit, taken, left);
  }

  /** The row behind an entry of a claim. */
  lemma EntryRow(rows: seq<Row>, nextId: nat, limit: int, now: int, mode: DeliveryMode, i: nat) returns (r: Row)
    requires WellKeyed(rows, nextId) && i < |Entries(rows, limit, now, mode)|
    ensures limit > 0 && |Entries(rows, limit, now, mode)| == |Select(Eligible(now), rows, limit)|
    ensures r == Select(Eligible(now), rows, limit)[i] && r in rows && r.id in ClaimIds(rows, limit, now)
    ensures var e := Entries(rows, limit, now, mode)[i];
            && e.rowId == r.id && e.payload == r.payload && e.source == r.source
            && e.mode == mode && e.attempts == r.attempts + 1
  {
    r := Select(Eligible(now), rows, limit)[i];
    SelectedFromTable(Eligible(now), rows, nextId, limit);
    SelectedById(Eligible(now), rows, nextId, limit, r);
  }

  /** The entries of a claim stand oldest first, and there is one for every row claimed. */
  lemma EntriesAscend(rows: seq<Row>, nextId: nat, limit: int, now: int, mode: DeliveryMode, i: nat, j: nat)
    returns (a: Row, b: Row)
    requires WellKeyed(rows, nextId) && i < j < |Entries(rows, limit, now, mode)|
    ensures a in rows && b in rows
    ensures var entries := Entries(rows, limit, now, mode);
            && entries[i] == Entry(a.id, a.payload, a.source, mode, a.attempts + 1)
            && entries[j] == Entry(b.id, b.payload, b.source, mode, b.attempts + 1)
            && |entries| == |ClaimIds(rows, limit, now)|
    ensures a.ingestAt < b.ingestAt || (a.ingestAt == b.ingestAt && a.id < b.id)
  {
    a := EntryRow(rows, nextId, limit, now, mode, i);
    b := EntryRow(rows, nextId, limit, now, mode, j);
    SelectAscends(Eligible(now), rows, nextId, limit, i, j);
    SelectedDistinct(Eligible(now), rows, nextId, limit);
  }

  /** A reclaim puts back the claims that are `maxAge` old, and those without a claim time. */
  lemma StaleExactly(cfg: Config, rows: seq<Row>, nextId: nat, maxAge: int, now: int, r: Row)
    requires WellKeyed(rows, nextId) && r in rows
    ensures r.id in StaleIds(cfg, rows, maxAge, now) <==>
            && maxAge >= 0 && cfg.pruneBatch != 0 && r.state == Replaying
            && (r.claimedAt == None || now - r.claimedAt.value >= maxAge)
  {
    SelectedRowMatches(rows, nextId, Stale(now - maxAge), r);
  }

  // ---------------------------------------------------------------- retention

  /**
   Which rows have expired: during an outage the pending rows of the age of the outage window; otherwise these, and of
   the pending rows without a retry time also those of the age of the rolling window.
   */
  lemma ExpiredExactly(cfg: Config, outage: bool, now: int, r: Row)
    ensures Matches(ExpiredQuery(cfg, outage, now), r) <==>
            && r.state == Pending
            && (now - r.ingestAt >= cfg.outageWindow ||
                (!outage && r.retryAt == None && now - r.ingestAt >= cfg.rollingWindow))
  {
  }

  /** Which rows can be deleted: terminal ones whose own retention has passed since their terminal time. */
  lemma DeletableExactly(cfg: Config, now: int, r: Row)
    ensures Matches(DeletableQuery(cfg, now), r) <==>
            && r.terminalAt != None
            && ((r.state == Delivered && now - r.terminalAt.value >= cfg.deliveredRetention) ||
                (r.state == DeadLetter && now - r.terminalAt.value >= cfg.deadLetterRetention))
  {
  }

  /** One batch of the first prune phase: expired rows, all of them unless it is full, and then the oldest. */
  lemma DeadLettersOldest(cfg: Config, rows: seq<Row>, nextId: nat, outage: bool, now: int, r: Row, other: Row)
    requires WellKeyed(rows, nextId) && r in rows && other in rows
    ensures var ids := ExpiredBatch(cfg, rows, outage, now);
            var expired := r.state == Pending &&
                           (now - r.ingestAt >= cfg.outageWindow ||
                            (!outage && r.retryAt == None && now - r.ingestAt >= cfg.rollingWindow));
            && (r.id in ids ==> expired) && (cfg.pruneBatch >= 0 ==> |ids| <= cfg.pruneBatch)
            && (expired && r.id !in ids ==>
                  && cfg.pruneBatch >= 0 && |ids| == cfg.pruneBatch
                  && (other.id in ids ==> other.ingestAt < r.ingestAt ||
                                          (other.ingestAt == r.ingestAt && other.id < r.id)))
  {
    var q := ExpiredQuery(cfg, outage, now);
    BatchExactly(q, rows, nextId, cfg.pruneBatch, r);
    BatchExactly(q, rows, nextId, cfg.pruneBatch, other);
    if Matches(q, r) && r !in Select(q, rows, cfg.pruneBatch) && other in Select(q, rows, cfg.pruneBatch) {
      SelectLeavesLater(q, rows, nextId, cfg.pruneBatch, other, r);
    }
  }

  /** One batch of the second: deletable rows, all of them unless it is full, and then the longest terminal. */
  lemma DeletesLongestTerminal(cfg: Config, rows: seq<Row>, nextId: nat, now: int, r: Row, other: Row)
    requires WellKeyed(rows, nextId) && r in rows && other in rows
    ensures var ids := DeletableBatch(cfg, rows, now);
            var kept := if r.state == Delivered then cfg.deliveredRetention else cfg.deadLetterRetention;
            var deletable := (r.state == Delivered || r.state == DeadLetter) && r.terminalAt != None &&
                             now - r.terminalAt.value >= kept;
            && (r.id in ids ==> deletable) && (cfg.pruneBatch >= 0 ==> |ids| <= cfg.pruneBatch)
            && (deletable && r.id !in ids ==>
                  && cfg.pruneBatch >= 0 && |ids| == cfg.pruneBatch
                  && (other.id in ids ==>
                        && other.terminalAt != None
                        && (other.terminalAt.value < r.terminalAt.value ||
                            (other.terminalAt.value == r.terminalAt.value && other.id < r.id))))
  {
    var q := DeletableQuery(cfg, now);
    BatchExactly(q, rows, nextId, cfg.pruneBatch, r);
    BatchExactly(q, rows, nextId, cfg.pruneBatch, other);
    if Matches(q, r) && r !in Select(q, rows, cfg.pruneBatch) && other in Select(q, rows, cfg.pruneBatch) {
      SelectLeavesLater(q, rows, nextId, cfg.pruneBatch, other, r);
    }
  }

  // ---------------------------------------------------------------- updates

  /** The ids an update by ids reports as moved are those of the rows whose state is another one afterwards. */
  lemma TransitionedExactly(
    rows: seq<Row>, nextId: nat, ids: set<nat>, next: ReplayState, retry: Option<int>, now: int, i: nat)
    requires WellKeyed(rows, nextId) && i < |rows|
    ensures rows[i].id in Transitioned(rows, ids, next) <==>
            Update(rows, ids, MoveTo(next, retry, now))[i].state != rows[i].state
  {
    if rows[i].id in Transitioned(rows, ids, next) {
      var r :| r in rows && r.id in ids && r.state != next && r.id == rows[i].id;
      RowById(rows, nextId, r, rows[i]);
    }
  }

  /** Attempt counting adds one to the rows in the named states, and changes nothing else. */
  lemma BumpExactly(rows: seq<Row>, nextId: nat, states: set<ReplayState>, i: nat)
    requires WellKeyed(rows, nextId) && i < |rows|
    ensures var r, after := rows[i], Update(rows, IdsWhere(rows, InStates(states)), BumpAttempts)[i];
            && after.attempts - r.attempts == (if r.state in states then 1 else 0)
            && after == r.(attempts := after.attempts)
  {
    SelectedRowMatches(rows, nextId, InStates(states), rows[i]);
  }
}
