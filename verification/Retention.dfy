/** Pruning in bounded batches: how many calls it takes, and that in the end it is the one-shot update. */
module Retention {
  import opened Counters
  import opened Options
  import opened Rows
  import opened Ordering
  import opened Database
  import opened Store

  /** Repeated prunes at one clock reading. */
  function PruneTimes(cfg: Config, rows: seq<Row>, outage: bool, now: int, k: nat): seq<Row> {
    if k == 0 then rows else Pruned(cfg, PruneTimes(cfg, rows, outage, now, k - 1), outage, now, now)
  }

  function ToDeadLetter(now: int): Change {
    MoveTo(DeadLetter, None, now)
  }

  /** What the batches amount to: dead-letter every expired row, then delete every old terminal row. */
  function PruneAtOnce(cfg: Config, rows: seq<Row>, outage: bool, now: int): seq<Row> {
    var marked := Update(rows, IdsWhere(rows, ExpiredQuery(cfg, outage, now)), ToDeadLetter(now));
    Remove(marked, IdsWhere(marked, DeletableQuery(cfg, now)))
  }

  function ExpiredCount(cfg: Config, rows: seq<Row>, outage: bool, now: int): nat {
    Sum(Matching(ExpiredQuery(cfg, outage, now)), rows)
  }

  function DeletableCount(cfg: Config, rows: seq<Row>, now: int): nat {
    Sum(Matching(DeletableQuery(cfg, now)), rows)
  }

  /** `max(0, n - m)`: what is left of `n` things after taking up to `m` of them. */
  function Left(n: nat, m: nat): nat {
    if n >= m then n - m else 0
  }

  // ---------------------------------------------------------------- one call

  lemma BatchRest(cfg: Config, q: Query, rows: seq<Row>, later: seq<Row>, nextId: nat)
    requires WellKeyed(rows, nextId) && WellKeyed(later, nextId) && cfg.pruneBatch >= 1
    requires forall r :: (r in later && Matches(q, r)) <==>
                         (r in rows && Matches(q, r) && r.id !in Ids(Select(q, rows, cfg.pruneBatch)))
    ensures Sum(Matching(q), later) == Left(Sum(Matching(q), rows), cfg.pruneBatch)
    ensures |Ids(Select(q, rows, cfg.pruneBatch))| == Min(cfg.pruneBatch, Sum(Matching(q), rows))
  {
    var picked := Select(q, rows, cfg.pruneBatch);
    OrderedIsSelection(q, rows, nextId);
    OrderedIsSelection(q, later, nextId);
    assert picked == Ordered(q, rows)[..|picked|];
    forall r | r in rows ensures r.id in Ids(picked) <==> r in Ordered(q, rows)[..|picked|] {
      SelectedById(q, rows, nextId, cfg.pruneBatch, r);
    }
    RestAfterPrefix(q, rows, later, nextId, |picked|);
    DistinctIds(q, picked, rows, nextId);
  }

  lemma MarkPhase(cfg: Config, rows: seq<Row>, nextId: nat, outage: bool, now: int)
    requires WellKeyed(rows, nextId) && cfg.pruneBatch >= 1
    ensures var out := DeadLettered(cfg, rows, outage, now, now);
            var n := ExpiredCount(cfg, rows, outage, now);
            var newly := if cfg.deadLetterRetention <= 0 then Min(cfg.pruneBatch, n) else 0;
            && WellKeyed(out, nextId)
            && ExpiredCount(cfg, out, outage, now) == Left(n, cfg.pruneBatch)
            && DeletableCount(cfg, out, now) == DeletableCount(cfg, rows, now) + newly
  {
    var q := ExpiredQuery(cfg, outage, now);
    var ids := ExpiredBatch(cfg, rows, outage, now);
    var out := DeadLettered(cfg, rows, outage, now, now);
    UpdateKeepsKeys(rows, nextId, ids, ToDeadLetter(now));
    BatchIds(q, rows, nextId, cfg.pruneBatch);
    forall r ensures (r in out && Matches(q, r)) <==> (r in rows && Matches(q, r) && r.id !in ids) {
      if r in out && Matches(q, r) {
        var from := UpdateOrigin(rows, ids, ToDeadLetter(now), r);
      }
      if r in rows && r.id !in ids {
        UpdateImage(rows, ids, ToDeadLetter(now), r);
      }
    }
    BatchRest(cfg, q, rows, out, nextId);
    forall r | r in rows && r.id in ids ensures r.state.Pending? {
      SelectedRowMatches(rows, nextId, q, r);
    }
    FreshlyDeletable(cfg, rows, ids, now);
    WhereCount(rows, nextId, ids);
  }

  /** A row dead-lettered now can be deleted at once only when dead-letter retention is zero. */
  lemma {:induction false} FreshlyDeletable(cfg: Config, rows: seq<Row>, ids: set<nat>, now: int)
    requires forall r | r in rows && r.id in ids :: r.state.Pending?
    ensures DeletableCount(cfg, Update(rows, ids, ToDeadLetter(now)), now) ==
            DeletableCount(cfg, rows, now) + if cfg.deadLetterRetention <= 0 then |Where(rows, ids)| else 0
  {
    if |rows| > 0 {
      var front, last := rows[..|rows| - 1], rows[|rows| - 1];
      FreshlyDeletable(cfg, front, ids, now);
      UpdateSnoc(rows, ids, ToDeadLetter(now));
      assert last in rows;
    }
  }

  lemma PurgePhase(cfg: Config, rows: seq<Row>, nextId: nat, outage: bool, now: int)
    requires WellKeyed(rows, nextId) && cfg.pruneBatch >= 1
    ensures var out := Purged(cfg, rows, now);
            && WellKeyed(out, nextId)
            && ExpiredCount(cfg, out, outage, now) == ExpiredCount(cfg, rows, outage, now)
            && DeletableCount(cfg, out, now) == Left(DeletableCount(cfg, rows, now), cfg.pruneBatch)
  {
    var ids := DeletableBatch(cfg, rows, now);
    RemoveKeepsKeys(rows, nextId, ids);
    RemoveMembers(rows, ids);
    BatchRest(cfg, DeletableQuery(cfg, now), rows, Purged(cfg, rows, now), nextId);
    PurgeSparesExpired(cfg, rows, nextId, ids, ExpiredQuery(cfg, outage, now), now);
  }

  /** No row of the deletion batch is waiting to be dead-lettered. */
  lemma PurgeSparesExpired(cfg: Config, rows: seq<Row>, nextId: nat, ids: set<nat>, expired: Query, now: int)
    requires WellKeyed(rows, nextId) && ids == DeletableBatch(cfg, rows, now) && expired.Expired?
    ensures Sum(Matching(expired), Remove(rows, ids)) == Sum(Matching(expired), rows)
  {
    BatchIds(DeletableQuery(cfg, now), rows, nextId, cfg.pruneBatch);
    WhereMembers(rows, ids);
    forall r | r in Where(rows, ids) ensures Weigh(Matching(expired), r) == 0 {
      SelectedRowMatches(rows, nextId, DeletableQuery(cfg, now), r);
    }
    SumZero(Matching(expired), Where(rows, ids));
    SumRemove(Matching(expired), rows, ids);
  }

  /** Each call takes one batch off the expired rows and one batch off the deletable ones. */
  lemma PruneStep(cfg: Config, rows: seq<Row>, nextId: nat, outage: bool, now: int)
    requires WellKeyed(rows, nextId) && cfg.pruneBatch >= 1
    ensures var b := cfg.pruneBatch;
            var out := Pruned(cfg, rows, outage, now, now);
            var n, m := ExpiredCount(cfg, rows, outage, now), DeletableCount(cfg, rows, now);
            var newly := if cfg.deadLetterRetention <= 0 then Min(b, n) else 0;
            && WellKeyed(out, nextId)
            && ExpiredCount(cfg, out, outage, now) == Left(n, b)
            && DeletableCount(cfg, out, now) == Left(m + newly, b)
  {
    MarkPhase(cfg, rows, nextId, outage, now);
    PurgePhase(cfg, DeadLettered(cfg, rows, outage, now, now), nextId, outage, now);
  }

  /**
   Repeated prunes at a fixed clock: after `k` calls exactly `max(0, n - k*b)` rows are still to be dead-lettered, so
   `ceil(n/b)` calls suffice and fewer do not. With a positive dead-letter retention the deletions run down the same
   way on their own; with none, the two phases together take one batch off their common total.
   */
  lemma PruneCalls(cfg: Config, rows: seq<Row>, nextId: nat, outage: bool, now: int, k: nat)
    requires WellKeyed(rows, nextId) && cfg.pruneBatch >= 1
    ensures var end := PruneTimes(cfg, rows, outage, now, k);
            && WellKeyed(end, nextId)
            && RunDown(cfg.deadLetterRetention, ExpiredCount(cfg, rows, outage, now), DeletableCount(cfg, rows, now),
                       ExpiredCount(cfg, end, outage, now), DeletableCount(cfg, end, now), k * cfg.pruneBatch)
  {
    PruneCallsInBatches(cfg, rows, nextId, outage, now, k);
    BatchesIsProduct(cfg.pruneBatch, k);
  }

  /** From `n` expired and `m` deletable rows to `n'` and `m'`, once each phase had room for `taken` rows. */
  predicate RunDown(retention: int, n: nat, m: nat, n': nat, m': nat, taken: int) {
    && taken >= 0
    && n' == Left(n, taken)
    && (retention > 0 ==> m' == Left(m, taken))
    && (retention <= 0 ==> n' + m' == Left(n + m, taken))
  }

  lemma RunDownOnce(retention: int, n: nat, m: nat, n': nat, m': nat, a: nat, b: nat)
    requires RunDown(retention, n, m, n', m', a)
    ensures var newly := if retention <= 0 then Min(b, n') else 0;
            RunDown(retention, n, m, Left(n', b), Left(m' + newly, b), a + b)
  {
    CountBoth(n', m', b);
  }

  /** `k` batches, added up. */
  function Batches(b: nat, k: nat): nat {
    if k == 0 then 0 else Batches(b, k - 1) + b
  }

  lemma {:induction false} BatchesIsProduct(b: nat, k: nat)
    ensures Batches(b, k) == k * b
  {
    if k > 0 {
      BatchesIsProduct(b, k - 1);
    }
  }

  lemma {:induction false} PruneCallsInBatches(
    cfg: Config, rows: seq<Row>, nextId: nat, outage: bool, now: int, k: nat)
    requires WellKeyed(rows, nextId) && cfg.pruneBatch >= 1
    ensures var end := PruneTimes(cfg, rows, outage, now, k);
            && WellKeyed(end, nextId)
            && RunDown(cfg.deadLetterRetention, ExpiredCount(cfg, rows, outage, now), DeletableCount(cfg, rows, now),
                       ExpiredCount(cfg, end, outage, now), DeletableCount(cfg, end, now), Batches(cfg.pruneBatch, k))
  {
    if k > 0 {
      PruneCallsInBatches(cfg, rows, nextId, outage, now, k - 1);
      OnePruneMore(cfg, PruneTimes(cfg, rows, outage, now, k - 1), nextId, outage, now,
                   ExpiredCount(cfg, rows, outage, now), DeletableCount(cfg, rows, now),
                   Batches(cfg.pruneBatch, k - 1));
    }
  }

  lemma OnePruneMore(cfg: Config, rows: seq<Row>, nextId: nat, outage: bool, now: int, n: nat, m: nat, taken: nat)
    requires WellKeyed(rows, nextId) && cfg.pruneBatch >= 1
    requires RunDown(cfg.deadLetterRetention, n, m, ExpiredCount(cfg, rows, outage, now),
                     DeletableCount(cfg, rows, now), taken)
    ensures var end := Pruned(cfg, rows, outage, now, now);
            && WellKeyed(end, nextId)
            && RunDown(cfg.deadLetterRetention, n, m, ExpiredCount(cfg, end, outage, now),
                       DeletableCount(cfg, end, now), taken + cfg.pruneBatch)
  {
    PruneStep(cfg, rows, nextId, outage, now);
    RunDownOnce(cfg.deadLetterRetention, n, m, ExpiredCount(cfg, rows, outage, now), DeletableCount(cfg, rows, now),
                taken, cfg.pruneBatch);
  }

  /** A batch that moves from the first count to the second, and a batch taken off the second. */
  lemma CountBoth(n: nat, m: nat, b: nat)
    ensures Left(n, b) + Left(m + Min(b, n), b) == Left(n + m, b)
  {
  }

  /**
   A row is dead-lettered only as a pending one past the outage window, or past the rolling window when there is no
   outage and it is not waiting for a retry.
   */
  lemma RetryStampDelaysExpiry(cfg: Config, rows: seq<Row>, nextId: nat, outage: bool, now: int, r: Row)
    requires WellKeyed(rows, nextId) && r in rows && r.id in ExpiredBatch(cfg, rows, outage, now)
    ensures r.state == Pending
    ensures now - r.ingestAt >= cfg.outageWindow ||
            (!outage && r.retryAt == None && now - r.ingestAt >= cfg.rollingWindow)
  {
    BatchIds(ExpiredQuery(cfg, outage, now), rows, nextId, cfg.pruneBatch);
    SelectedRowMatches(rows, nextId, ExpiredQuery(cfg, outage, now), r);
  }

  // ---------------------------------------------------------------- the batches amount to one update

  /** The table with some rows dead-lettered and some gone. */
  function Partly(rows: seq<Row>, marked: set<nat>, gone: set<nat>, now: int): seq<Row> {
    Remove(Update(rows, marked, ToDeadLetter(now)), gone)
  }

  lemma {:induction false} UpdateRemoveCommute(rows: seq<Row>, ids: set<nat>, gone: set<nat>, c: Change)
    requires c.MoveTo?
    ensures Update(Remove(rows, gone), ids, c) == Remove(Update(rows, ids, c), gone)
  {
    if |rows| > 0 {
      var front, last := rows[..|rows| - 1], rows[|rows| - 1];
      UpdateRemoveCommute(front, ids, gone, c);
      UpdateSnoc(rows, ids, c);
      var rest := Remove(front, gone);
      assert Update(rest + [last], ids, c) == Update(rest, ids, c) + [if last.id in ids then Apply(c, last) else last];
    }
  }

  lemma {:induction false} RemoveTwice(rows: seq<Row>, a: set<nat>, b: set<nat>)
    ensures Remove(Remove(rows, a), b) == Remove(rows, a + b)
  {
    if |rows| > 0 {
      var front, last := rows[..|rows| - 1], rows[|rows| - 1];
      RemoveTwice(front, a, b);
      assert (Remove(front, a) + [last])[..|Remove(front, a)|] == Remove(front, a);
    }
  }

  /** What `k` calls have marked and deleted, and why no id is in either set by accident. */
  ghost predicate Underway(
    cfg: Config, rows: seq<Row>, outage: bool, now: int, end: seq<Row>, marked: set<nat>, gone: set<nat>)
  {
    && end == Partly(rows, marked, gone, now)
    && marked <= IdsWhere(rows, ExpiredQuery(cfg, outage, now))
    && gone <= IdsWhere(Update(rows, marked, ToDeadLetter(now)), DeletableQuery(cfg, now))
  }

  lemma KeptOutside(rows: seq<Row>, a: set<nat>, b: set<nat>, c: Change, r: Row)
    requires r in Update(rows, a, c) && r.id !in b && c.MoveTo?
    ensures r in Update(rows, a + b, c)
  {
    var i :| 0 <= i < |rows| && Update(rows, a, c)[i] == r;
    assert Update(rows, a + b, c)[i] == r;
  }

  lemma MarkMore(
    cfg: Config, rows: seq<Row>, nextId: nat, outage: bool, now: int, end: seq<Row>, marked: set<nat>, gone: set<nat>)
    requires WellKeyed(rows, nextId) && WellKeyed(end, nextId)
    requires Underway(cfg, rows, outage, now, end, marked, gone)
    ensures Underway(cfg, rows, outage, now, DeadLettered(cfg, end, outage, now, now),
                     marked + ExpiredBatch(cfg, end, outage, now), gone)
  {
    var q, d, c := ExpiredQuery(cfg, outage, now), DeletableQuery(cfg, now), ToDeadLetter(now);
    var ids := ExpiredBatch(cfg, end, outage, now);
    var table := Update(rows, marked, c);
    BatchIds(q, end, nextId, cfg.pruneBatch);
    RemoveMembers(table, gone);
    UpdateRemoveCommute(table, ids, gone, c);
    UpdateTwice(rows, marked, ids, DeadLetter, None, now);
    IdsWhereComplete(rows, q);
    forall id | id in ids ensures id in IdsWhere(rows, q) && id !in gone {
      var r := IdsWhereSound(end, q, id);
      var from := UpdateOrigin(rows, marked, c, r);
    }
    forall id | id in gone ensures id in IdsWhere(Update(rows, marked + ids, c), d) {
      var r := IdsWhereSound(table, d, id);
      KeptOutside(rows, marked, ids, c, r);
      IdsWhereComplete(Update(rows, marked + ids, c), d);
    }
  }

  lemma PurgeMore(
    cfg: Config, rows: seq<Row>, nextId: nat, outage: bool, now: int, end: seq<Row>, marked: set<nat>, gone: set<nat>)
    requires WellKeyed(end, nextId) && Underway(cfg, rows, outage, now, end, marked, gone)
    ensures Underway(cfg, rows, outage, now, Purged(cfg, end, now), marked, gone + DeletableBatch(cfg, end, now))
  {
    var d := DeletableQuery(cfg, now);
    var table := Update(rows, marked, ToDeadLetter(now));
    var ids := DeletableBatch(cfg, end, now);
    BatchIds(d, end, nextId, cfg.pruneBatch);
    RemoveTwice(table, gone, ids);
    RemoveMembers(table, gone);
    IdsWhereComplete(table, d);
    forall id | id in ids ensures id in IdsWhere(table, d) {
      var r := IdsWhereSound(end, d, id);
    }
  }

  lemma {:induction false} CallsUnderway(cfg: Config, rows: seq<Row>, nextId: nat, outage: bool, now: int, k: nat)
    returns (marked: set<nat>, gone: set<nat>)
    requires WellKeyed(rows, nextId) && cfg.pruneBatch >= 1
    ensures Underway(cfg, rows, outage, now, PruneTimes(cfg, rows, outage, now, k), marked, gone)
  {
    if k == 0 {
      marked, gone := {}, {};
      assert Update(rows, {}, ToDeadLetter(now)) == rows;
      RemoveNothing(rows);
    } else {
      marked, gone := CallsUnderway(cfg, rows, nextId, outage, now, k - 1);
      var end := PruneTimes(cfg, rows, outage, now, k - 1);
      PruneCalls(cfg, rows, nextId, outage, now, k - 1);
      MarkMore(cfg, rows, nextId, outage, now, end, marked, gone);
      MarkPhase(cfg, end, nextId, outage, now);
      var mid := DeadLettered(cfg, end, outage, now, now);
      marked := marked + ExpiredBatch(cfg, end, outage, now);
      PurgeMore(cfg, rows, nextId, outage, now, mid, marked, gone);
      gone := gone + DeletableBatch(cfg, mid, now);
    }
  }

  lemma {:induction false} RemoveNothing(rows: seq<Row>)
    ensures Remove(rows, {}) == rows
  {
    if |rows| > 0 {
      RemoveNothing(rows[..|rows| - 1]);
    }
  }

  /** An expired row is not among the deletable ones, so deletions leave it where it is. */
  lemma ExpiredStays(cfg: Config, table: seq<Row>, nextId: nat, outage: bool, now: int, gone: set<nat>, r: Row)
    requires WellKeyed(table, nextId) && gone <= IdsWhere(table, DeletableQuery(cfg, now))
    requires r in table && Matches(ExpiredQuery(cfg, outage, now), r)
    ensures r in Remove(table, gone)
  {
    SelectedRowMatches(table, nextId, DeletableQuery(cfg, now), r);
    RemoveMembers(table, gone);
  }

  /** When no expired row is left, every expired row has been marked. */
  lemma AllMarked(
    cfg: Config, rows: seq<Row>, nextId: nat, outage: bool, now: int, end: seq<Row>, marked: set<nat>, gone: set<nat>,
    id: nat)
    requires WellKeyed(rows, nextId) && Underway(cfg, rows, outage, now, end, marked, gone)
    requires forall r | r in end :: !Matches(ExpiredQuery(cfg, outage, now), r)
    requires id in IdsWhere(rows, ExpiredQuery(cfg, outage, now))
    ensures id in marked
  {
    var r := IdsWhereSound(rows, ExpiredQuery(cfg, outage, now), id);
    if id !in marked {
      UpdateKeepsKeys(rows, nextId, marked, ToDeadLetter(now));
      UpdateImage(rows, marked, ToDeadLetter(now), r);
      ExpiredStays(cfg, Update(rows, marked, ToDeadLetter(now)), nextId, outage, now, gone, r);
      assert false;
    }
  }

  /** When no deletable row is left, every deletable row is gone. */
  lemma AllGone(cfg: Config, table: seq<Row>, gone: set<nat>, now: int, id: nat)
    requires forall r | r in Remove(table, gone) :: !Matches(DeletableQuery(cfg, now), r)
    requires id in IdsWhere(table, DeletableQuery(cfg, now))
    ensures id in gone
  {
    var r := IdsWhereSound(table, DeletableQuery(cfg, now), id);
    RemoveMembers(table, gone);
  }

  lemma NoneLeft(q: Query, rows: seq<Row>)
    requires Sum(Matching(q), rows) == 0
    ensures forall r | r in rows :: !Matches(q, r)
  {
    SumZero(Matching(q), rows);
    forall r | r in rows ensures !Matches(q, r) {
      assert Weigh(Matching(q), r) == 0;
    }
  }

  /** When nothing is left to do, the batches have done exactly the one-shot prune. */
  lemma BatchesAmountToOneUpdate(
    cfg: Config, rows: seq<Row>, nextId: nat, outage: bool, now: int, k: nat, end: seq<Row>)
    requires WellKeyed(rows, nextId) && cfg.pruneBatch >= 1 && end == PruneTimes(cfg, rows, outage, now, k)
    requires ExpiredCount(cfg, end, outage, now) == 0 && DeletableCount(cfg, end, now) == 0
    ensures end == PruneAtOnce(cfg, rows, outage, now)
  {
    var marked, gone := CallsUnderway(cfg, rows, nextId, outage, now, k);
    NoneLeft(ExpiredQuery(cfg, outage, now), end);
    NoneLeft(DeletableQuery(cfg, now), end);
    forall id | id in IdsWhere(rows, ExpiredQuery(cfg, outage, now)) ensures id in marked {
      AllMarked(cfg, rows, nextId, outage, now, end, marked, gone, id);
    }
    var table := Update(rows, marked, ToDeadLetter(now));
    forall id | id in IdsWhere(table, DeletableQuery(cfg, now)) ensures id in gone {
      AllGone(cfg, table, gone, now, id);
    }
    assert marked == IdsWhere(rows, ExpiredQuery(cfg, outage, now));
    assert gone == IdsWhere(table, DeletableQuery(cfg, now));
  }

  /** So enough calls - `ceil` of the larger count, or of the sum without dead-letter retention - are the one-shot. */
  lemma RepeatedPruneRefinesOneShot(cfg: Config, rows: seq<Row>, nextId: nat, outage: bool, now: int, k: nat)
    requires WellKeyed(rows, nextId) && cfg.pruneBatch >= 1
    requires var n, m := ExpiredCount(cfg, rows, outage, now), DeletableCount(cfg, rows, now);
             if cfg.deadLetterRetention > 0 then n <= k * cfg.pruneBatch && m <= k * cfg.pruneBatch
             else n + m <= k * cfg.pruneBatch
    ensures PruneTimes(cfg, rows, outage, now, k) == PruneAtOnce(cfg, rows, outage, now)
  {
    PruneCalls(cfg, rows, nextId, outage, now, k);
    BatchesAmountToOneUpdate(cfg, rows, nextId, outage, now, k, PruneTimes(cfg, rows, outage, now, k));
  }

  /** A row that has neither expired nor outlived its retention is kept as it is; one that has outlived it is gone. */
  lemma UnexpiredRow(cfg: Config, rows: seq<Row>, nextId: nat, outage: bool, now: int, r: Row, out: seq<Row>)
    requires WellKeyed(rows, nextId) && r in rows && out == PruneAtOnce(cfg, rows, outage, now)
    requires !Matches(ExpiredQuery(cfg, outage, now), r)
    ensures if Matches(DeletableQuery(cfg, now), r) then r.id !in Ids(out) else r in out
  {
    var expired := IdsWhere(rows, ExpiredQuery(cfg, outage, now));
    var marked := Update(rows, expired, ToDeadLetter(now));
    var gone := IdsWhere(marked, DeletableQuery(cfg, now));
    SelectedRowMatches(rows, nextId, ExpiredQuery(cfg, outage, now), r);
    UpdateImage(rows, expired, ToDeadLetter(now), r);
    UpdateKeepsKeys(rows, nextId, expired, ToDeadLetter(now));
    SelectedRowMatches(marked, nextId, DeletableQuery(cfg, now), r);
    RemoveMembers(marked, gone);
    if r.id in Ids(out) {
      var left := IdsWhereSound(out, Everything, r.id);
      RowById(marked, nextId, r, left);
    }
  }

  /** An expired row ends as a dead letter of this time, or is gone if dead letters are not retained. */
  lemma ExpiredRow(cfg: Config, rows: seq<Row>, nextId: nat, outage: bool, now: int, r: Row, out: seq<Row>)
    requires WellKeyed(rows, nextId) && r in rows && out == PruneAtOnce(cfg, rows, outage, now)
    requires Matches(ExpiredQuery(cfg, outage, now), r)
    ensures if cfg.deadLetterRetention <= 0 then r.id !in Ids(out)
            else r.(state := DeadLetter, retryAt := None, claimedAt := None, terminalAt := Some(now)) in out
  {
    var expired := IdsWhere(rows, ExpiredQuery(cfg, outage, now));
    var marked := Update(rows, expired, ToDeadLetter(now));
    var gone := IdsWhere(marked, DeletableQuery(cfg, now));
    SelectedRowMatches(rows, nextId, ExpiredQuery(cfg, outage, now), r);
    UpdateImage(rows, expired, ToDeadLetter(now), r);
    UpdateKeepsKeys(rows, nextId, expired, ToDeadLetter(now));
    var dead := Apply(ToDeadLetter(now), r);
    SelectedRowMatches(marked, nextId, DeletableQuery(cfg, now), dead);
    RemoveMembers(marked, gone);
    if r.id in Ids(out) {
      var left := IdsWhereSound(out, Everything, r.id);
      RowById(marked, nextId, dead, left);
    }
  }

  /**
   What enough prunes come to, row by row and in the windows of the configuration. A pending row ends as a dead letter
   once it is as old as the outage window, or, with no outage and no retry time, as the rolling window - and is gone if
   dead letters are not retained; a delivered row
   and a dead letter are gone once their own retention has passed since their terminal time; all others stay.
   */
  lemma PruneInColumns(
    cfg: Config, rows: seq<Row>, nextId: nat, outage: bool, now: int, k: nat, r: Row, out: seq<Row>)
    requires WellKeyed(rows, nextId) && cfg.pruneBatch >= 1 && r in rows
    requires var n, m := ExpiredCount(cfg, rows, outage, now), DeletableCount(cfg, rows, now);
             if cfg.deadLetterRetention > 0 then n <= k * cfg.pruneBatch && m <= k * cfg.pruneBatch
             else n + m <= k * cfg.pruneBatch
    requires out == PruneTimes(cfg, rows, outage, now, k)
    ensures var age := now - r.ingestAt;
            var expired := r.state == Pending &&
                           (age >= cfg.outageWindow || (!outage && r.retryAt == None && age >= cfg.rollingWindow));
            var kept := if r.state == Delivered then cfg.deliveredRetention else cfg.deadLetterRetention;
            var outlived := (r.state == Delivered || r.state == DeadLetter) && r.terminalAt != None &&
                            now - r.terminalAt.value >= kept;
            && (expired && cfg.deadLetterRetention <= 0 ==> r.id !in Ids(out))
            && (expired && cfg.deadLetterRetention > 0 ==>
                  r.(state := DeadLetter, retryAt := None, claimedAt := None, terminalAt := Some(now)) in out)
            && (outlived ==> r.id !in Ids(out))
            && (!expired && !outlived ==> r in out)
  {
    RepeatedPruneRefinesOneShot(cfg, rows, nextId, outage, now, k);
    if Matches(ExpiredQuery(cfg, outage, now), r) {
      ExpiredRow(cfg, rows, nextId, outage, now, r, out);
    } else {
      UnexpiredRow(cfg, rows, nextId, outage, now, r, out);
    }
  }
}
