/** Draining a backlog: claim, acknowledge, and again until nothing is left. */
module Drain {
  import opened Counters
  import opened Options
  import opened Rows
  import opened Ordering
  import opened Database
  import opened Selections
  import opened Store
  import opened Session
  import opened Protocol
  import opened Operations

  /** Every live row can be claimed at `now`: none is waiting for a retry and none is claimed already. */
  ghost predicate Drainable(rows: seq<Row>, now: int) {
    forall r | r in rows && Live(r.state) :: Matches(Eligible(now), r)
  }

  function Fixed(now: int): Times {
    Times(now, now, now, now, now, now)
  }

  /** One round at a fixed clock: the next batch is claimed and all of it acknowledged. */
  function Round(p: Policy, c: Core, limit: int, now: int): Core {
    var claimed := ClaimNextBatch(p, c, limit, Fixed(now));
    AcknowledgeBatch(p, claimed.core, RowIds(claimed.entries), now, now)
  }

  function Rounds(p: Policy, c: Core, limit: int, now: int, k: nat): Core {
    if k == 0 then c else Round(p, Rounds(p, c, limit, now, k - 1), limit, now)
  }

  /** Everything `k` rounds have claimed, in the order of the claims. */
  function ClaimedIn(p: Policy, c: Core, limit: int, now: int, k: nat): seq<nat> {
    if k == 0 then [] else
      ClaimedIn(p, c, limit, now, k - 1) +
      RowIds(ClaimNextBatch(p, Rounds(p, c, limit, now, k - 1), limit, Fixed(now)).entries)
  }

  function IdSeq(rows: seq<Row>): seq<nat> {
    seq(|rows|, i requires 0 <= i < |rows| => rows[i].id)
  }

  lemma {:induction false} UniqueIsIds(rows: seq<Row>)
    ensures Unique(IdSeq(rows)) == Ids(rows)
  {
    if |rows| > 0 {
      var front, last := rows[..|rows| - 1], rows[|rows| - 1];
      UniqueIsIds(front);
      assert IdSeq(rows) == IdSeq(front) + [last.id];
    }
  }

  /** When every live row is eligible, the selection is the backlog and its length the live count. */
  lemma BacklogIsSelection(rows: seq<Row>, nextId: nat, now: int)
    requires WellKeyed(rows, nextId) && Drainable(rows, now)
    ensures |Ordered(Eligible(now), rows)| == LiveCount(rows)
  {
    OrderedIsSelection(Eligible(now), rows, nextId);
    forall i | 0 <= i < |rows|
      ensures Weigh(LiveRows, rows[i]) == Weigh(Matching(Eligible(now)), rows[i])
    {
      assert rows[i] in rows;
    }
    SameWeight(rows, now);
  }

  lemma {:induction false} SameWeight(rows: seq<Row>, now: int)
    requires forall i | 0 <= i < |rows| :: Weigh(LiveRows, rows[i]) == Weigh(Matching(Eligible(now)), rows[i])
    ensures Sum(LiveRows, rows) == Sum(Matching(Eligible(now)), rows)
  {
    if |rows| > 0 {
      SameWeight(rows[..|rows| - 1], now);
    }
  }

  /** The table after one claim and its acknowledgement, as one update. */
  function Drained(rows: seq<Row>, limit: int, now: int): seq<Row> {
    Update(Claimed(rows, limit, now, now, ReplayThroughDedupe), ClaimIds(rows, limit, now),
           MoveTo(Delivered, None, now))
  }

  lemma DrainedRow(rows: seq<Row>, limit: int, now: int, r: Row) returns (from: Row)
    requires r in Drained(rows, limit, now)
    ensures from in rows && from.id == r.id
    ensures if from.id in ClaimIds(rows, limit, now) then r.state.Delivered? else r == from
  {
    var mid := UpdateOrigin(Claimed(rows, limit, now, now, ReplayThroughDedupe), ClaimIds(rows, limit, now),
                            MoveTo(Delivered, None, now), r);
    from := UpdateOrigin(rows, ClaimIds(rows, limit, now), ClaimFor(now, ReplayThroughDedupe), mid);
  }

  lemma UntouchedRow(rows: seq<Row>, limit: int, now: int, r: Row)
    requires r in rows && r.id !in ClaimIds(rows, limit, now)
    ensures r in Drained(rows, limit, now)
  {
    var i :| 0 <= i < |rows| && rows[i] == r;
    assert Drained(rows, limit, now)[i] == r;
  }

  /** A round takes exactly the first `limit` rows off the ordered backlog. */
  lemma RoundTakesPrefix(rows: seq<Row>, nextId: nat, limit: nat, now: int)
    requires WellKeyed(rows, nextId) && Drainable(rows, now) && limit >= 1
    ensures var all := Ordered(Eligible(now), rows);
            var k := Min(limit, |all|);
            && WellKeyed(Drained(rows, limit, now), nextId)
            && Drainable(Drained(rows, limit, now), now)
            && Select(Eligible(now), rows, limit) == all[..k]
            && Ordered(Eligible(now), Drained(rows, limit, now)) == all[k..]
  {
    var q := Eligible(now);
    var all := Ordered(q, rows);
    var k := Min(limit, |all|);
    var out := Drained(rows, limit, now);
    var ids := ClaimIds(rows, limit, now);
    assert Select(q, rows, limit) == all[..k];
    UpdateKeepsKeys(rows, nextId, ids, ClaimFor(now, ReplayThroughDedupe));
    UpdateKeepsKeys(Claimed(rows, limit, now, now, ReplayThroughDedupe), nextId, ids, MoveTo(Delivered, None, now));
    forall r | r in out && Live(r.state) ensures Matches(q, r) {
      var from := DrainedRow(rows, limit, now, r);
    }
    forall r ensures (r in out && Matches(q, r)) <==> (r in rows && Matches(q, r) && r !in all[..k]) {
      if r in out && Matches(q, r) {
        var from := DrainedRow(rows, limit, now, r);
        SelectedById(q, rows, nextId, limit, from);
      }
      if r in rows && Matches(q, r) && r !in all[..k] {
        SelectedById(q, rows, nextId, limit, r);
        UntouchedRow(rows, limit, now, r);
      }
    }
    RestAfterPrefix(q, rows, out, nextId, k);
  }

  /** A backlog to drain, and a counter that says how large it is. */
  ghost predicate UnderWay(p: Policy, c: Core, now: int) {
    && WellFormed(p, c) && Drainable(c.rows, now) && LiveCount(c.rows) > 0 && c.drift == 0
    && (c.session.state.Queued? || c.session.state.Running?)
  }

  function DeliveredSoFar(c: Core): int {
    if c.session.state.Queued? then 0 else c.session.delivered
  }

  /** Without live claims there is nothing to reclaim. */
  lemma NothingToSweep(p: Policy, c: Core, now: int)
    requires WellFormed(p, c) && Drainable(c.rows, now)
    ensures Swept(p, c, Fixed(now)).rows == c.rows
  {
    forall r | r in c.rows ensures r.id !in StaleIds(p.store, c.rows, p.backoff, now) {
      SelectedRowMatches(c.rows, c.nextId, Stale(now - p.backoff), r);
    }
    UpdateNothing(c.rows, StaleIds(p.store, c.rows, p.backoff, now), MoveTo(Pending, None, now));
  }

  lemma RoundClaims(p: Policy, c: Core, limit: nat, now: int)
    requires UnderWay(p, c, now) && limit >= 1
    ensures var all := Ordered(Eligible(now), c.rows);
            var result := ClaimNextBatch(p, c, limit, Fixed(now));
            && !result.thrown && !result.drained
            && RowIds(result.entries) == IdSeq(all[..Min(limit, |all|)])
            && result.core.rows == Claimed(c.rows, limit, now, now, ReplayThroughDedupe)
            && result.core.session.state.Running? && result.core.session.delivered == DeliveredSoFar(c)
            && result.core.nextId == c.nextId && result.core.session.required == p.required
            && result.core.drift == 0
  {
    NothingToSweep(p, c, now);
    BacklogIsSelection(c.rows, c.nextId, now);
    RoundTakesPrefix(c.rows, c.nextId, limit, now);
  }

  /** `end` is the core once the first `done` rows of the backlog `all` are delivered. */
  ghost predicate DrainedTo(end: Core, all: seq<Row>, done: nat, base: int, now: int) {
    && done <= |all|
    && Drainable(end.rows, now)
    && Ordered(Eligible(now), end.rows) == all[done..]
    && LiveCount(end.rows) == |all| - done && end.drift == 0
    && end.session.delivered == base + done
    && end.session.queued == end.session.delivered + LiveCount(end.rows)
    && end.session.state == if done == |all| then Completed else Running
  }

  /** The ids of a claimed prefix: as many as its rows, and all in the table. */
  lemma PrefixIds(rows: seq<Row>, nextId: nat, limit: nat, now: int)
    requires WellKeyed(rows, nextId) && Drainable(rows, now) && limit >= 1
    ensures var all := Ordered(Eligible(now), rows);
            && Unique(IdSeq(all[..Min(limit, |all|)])) == ClaimIds(rows, limit, now)
            && |Ids(Claimed(rows, limit, now, now, ReplayThroughDedupe)) * ClaimIds(rows, limit, now)| ==
               Min(limit, |all|)
  {
    var all := Ordered(Eligible(now), rows);
    var picked := all[..Min(limit, |all|)];
    RoundTakesPrefix(rows, nextId, limit, now);
    UniqueIsIds(picked);
    UpdateKeepsIds(rows, ClaimIds(rows, limit, now), ClaimFor(now, ReplayThroughDedupe));
    BatchIds(Eligible(now), rows, nextId, limit);
    OrderedIsSelection(Eligible(now), rows, nextId);
    DistinctIds(Eligible(now), picked, rows, nextId);
  }

  /** Acknowledging a claimed prefix: the tally, the remaining backlog and the state of the session. */
  lemma AcknowledgedPrefix(p: Policy, rows: seq<Row>, mid: Core, limit: nat, now: int)
    requires WellKeyed(rows, mid.nextId) && Drainable(rows, now) && limit >= 1
    requires mid.rows == Claimed(rows, limit, now, now, ReplayThroughDedupe)
    requires mid.session.state.Running? && mid.session.required == p.required && mid.drift == 0
    ensures var all := Ordered(Eligible(now), rows);
            var k := Min(limit, |all|);
            var end := AcknowledgeBatch(p, mid, IdSeq(all[..k]), now, now);
            WellFormed(p, end) && DrainedTo(end, all, k, mid.session.delivered, now)
  {
    var all := Ordered(Eligible(now), rows);
    var k := Min(limit, |all|);
    var ids := IdSeq(all[..k]);
    PrefixIds(rows, mid.nextId, limit, now);
    DrainedBacklog(rows, mid.nextId, limit, now);
    AcknowledgeOutcome(p, mid, ids, now);
    assert Update(mid.rows, Unique(ids), MoveTo(Delivered, None, now)) == Drained(rows, limit, now);
  }

  lemma DrainedBacklog(rows: seq<Row>, nextId: nat, limit: nat, now: int)
    requires WellKeyed(rows, nextId) && Drainable(rows, now) && limit >= 1
    ensures var all := Ordered(Eligible(now), rows);
            var k := Min(limit, |all|);
            var out := Drained(rows, limit, now);
            && WellKeyed(out, nextId) && Drainable(out, now)
            && Ordered(Eligible(now), out) == all[k..] && LiveCount(out) == |all| - k
  {
    RoundTakesPrefix(rows, nextId, limit, now);
    BacklogIsSelection(Drained(rows, limit, now), nextId, now);
  }

  /**
   What an acknowledgement leaves, read off the table it produces: it completes the session exactly when the live rows
   and the error of the counter cancel out.
   */
  lemma AcknowledgeOutcome(p: Policy, c: Core, ids: seq<nat>, now: int)
    requires c.session.state.Running?
    ensures var rows := Update(c.rows, Unique(ids), MoveTo(Delivered, None, now));
            var delivered := c.session.delivered + |Ids(c.rows) * Unique(ids)|;
            var end := AcknowledgeBatch(p, c, ids, now, now);
            && end.rows == rows && end.nextId == c.nextId && end.session.required == c.session.required
            && end.session.delivered == delivered && end.drift == c.drift
            && end.session.state == (if LiveCount(rows) + c.drift == 0 then Completed else Running)
            && end.session.queued == if end.session.state.Completed? then delivered
                                     else delivered + LiveCount(rows) + c.drift
  {
  }

  /** One round. */
  lemma RoundAdvances(p: Policy, c: Core, limit: nat, now: int)
    requires UnderWay(p, c, now) && limit >= 1
    ensures var all := Ordered(Eligible(now), c.rows);
            && WellFormed(p, Round(p, c, limit, now))
            && DrainedTo(Round(p, c, limit, now), all, Min(limit, |all|), DeliveredSoFar(c), now)
  {
    RoundClaims(p, c, limit, now);
    var claimed := ClaimNextBatch(p, c, limit, Fixed(now));
    AcknowledgedPrefix(p, c.rows, claimed.core, limit, now);
  }

  /** After `k` rounds the first `done` rows of the backlog are claimed, in order, and delivered. */
  ghost predicate Progress(p: Policy, c: Core, limit: nat, now: int, k: nat, all: seq<Row>, done: nat) {
    && done <= |all|
    && ClaimedIn(p, c, limit, now, k) == IdSeq(all[..done])
    && DrainedTo(Rounds(p, c, limit, now, k), all, done, DeliveredSoFar(c), now)
    && WellFormed(p, Rounds(p, c, limit, now, k))
  }

  lemma FirstRound(p: Policy, c: Core, limit: nat, now: int)
    requires UnderWay(p, c, now) && limit >= 1
    ensures var all := Ordered(Eligible(now), c.rows);
            Progress(p, c, limit, now, 1, all, Min(|all|, limit))
  {
    OneMoreRound(p, c, limit, now, 1);
    RoundClaims(p, c, limit, now);
    RoundAdvances(p, c, limit, now);
  }

  lemma OneMoreRound(p: Policy, c: Core, limit: nat, now: int, k: nat)
    requires k >= 1
    ensures Rounds(p, c, limit, now, k) == Round(p, Rounds(p, c, limit, now, k - 1), limit, now)
    ensures ClaimedIn(p, c, limit, now, k) == ClaimedIn(p, c, limit, now, k - 1) +
              RowIds(ClaimNextBatch(p, Rounds(p, c, limit, now, k - 1), limit, Fixed(now)).entries)
    ensures k == 1 ==> Rounds(p, c, limit, now, k - 1) == c && ClaimedIn(p, c, limit, now, k - 1) == []
  {
  }

  lemma IdSlices(all: seq<Row>, m: nat, done: nat)
    requires m <= done <= |all|
    ensures IdSeq(all[..m]) + IdSeq(all[m..done]) == IdSeq(all[..done])
  {
  }

  /** The next round claims the next slice of the backlog. */
  lemma NextClaims(p: Policy, c: Core, mid: Core, limit: nat, now: int, k: nat, all: seq<Row>, m: nat, done: nat)
    requires limit >= 1 && k >= 1 && mid == Rounds(p, c, limit, now, k - 1)
    requires m < |all| && done == Min(|all|, m + limit)
    requires ClaimedIn(p, c, limit, now, k - 1) == IdSeq(all[..m])
    requires WellFormed(p, mid) && DrainedTo(mid, all, m, DeliveredSoFar(c), now)
    ensures ClaimedIn(p, c, limit, now, k) == IdSeq(all[..done])
  {
    OneMoreRound(p, c, limit, now, k);
    LaterClaims(p, mid, all, limit, now, m, done, DeliveredSoFar(c));
    IdSlices(all, m, done);
  }

  /** And it leaves the rest. */
  lemma NextLeaves(p: Policy, c: Core, mid: Core, limit: nat, now: int, k: nat, all: seq<Row>, m: nat, done: nat)
    requires limit >= 1 && k >= 1 && mid == Rounds(p, c, limit, now, k - 1)
    requires m < |all| && done == Min(|all|, m + limit)
    requires WellFormed(p, mid) && DrainedTo(mid, all, m, DeliveredSoFar(c), now)
    ensures WellFormed(p, Rounds(p, c, limit, now, k))
    ensures DrainedTo(Rounds(p, c, limit, now, k), all, done, DeliveredSoFar(c), now)
  {
    OneMoreRound(p, c, limit, now, k);
    LaterLeaves(p, mid, all, limit, now, m, done, DeliveredSoFar(c));
  }

  lemma NextRound(p: Policy, c: Core, limit: nat, now: int, k: nat, all: seq<Row>, m: nat, done: nat)
    requires limit >= 1 && k >= 1 && m < |all| && Progress(p, c, limit, now, k - 1, all, m)
    requires done == Min(|all|, m + limit)
    ensures Progress(p, c, limit, now, k, all, done)
  {
    var mid := Rounds(p, c, limit, now, k - 1);
    NextClaims(p, c, mid, limit, now, k, all, m, done);
    NextLeaves(p, c, mid, limit, now, k, all, m, done);
  }

  lemma LaterClaims(p: Policy, mid: Core, all: seq<Row>, limit: nat, now: int, m: nat, done: nat, base: int)
    requires limit >= 1 && WellFormed(p, mid) && m < |all| && DrainedTo(mid, all, m, base, now)
    requires done == Min(|all|, m + limit)
    ensures RowIds(ClaimNextBatch(p, mid, limit, Fixed(now)).entries) == IdSeq(all[m..done])
  {
    RoundClaims(p, mid, limit, now);
    assert all[m..][..Min(limit, |all| - m)] == all[m..done];
  }

  lemma LaterLeaves(p: Policy, mid: Core, all: seq<Row>, limit: nat, now: int, m: nat, done: nat, base: int)
    requires limit >= 1 && WellFormed(p, mid) && m < |all| && DrainedTo(mid, all, m, base, now)
    requires done == Min(|all|, m + limit)
    ensures WellFormed(p, Round(p, mid, limit, now)) && DrainedTo(Round(p, mid, limit, now), all, done, base, now)
  {
    MidWay(p, mid, all, m, base, now);
    RoundAdvances(p, mid, limit, now);
    LaterPart(Round(p, mid, limit, now), all, m, done, base, now);
  }

  /** A drain that has come this far is under way. */
  lemma MidWay(p: Policy, mid: Core, all: seq<Row>, m: nat, base: int, now: int)
    requires WellFormed(p, mid) && m < |all| && DrainedTo(mid, all, m, base, now)
    ensures UnderWay(p, mid, now) && DeliveredSoFar(mid) == base + m && Ordered(Eligible(now), mid.rows) == all[m..]
  {
  }

  /** Part of the rest of a backlog drained is more of the backlog drained. */
  lemma LaterPart(end: Core, all: seq<Row>, m: nat, done: nat, base: int, now: int)
    requires m <= done <= |all| && DrainedTo(end, all[m..], done - m, base + m, now)
    ensures DrainedTo(end, all, done, base, now)
  {
    assert all[m..][done - m..] == all[done..];
  }

  /** How many of `n` rows `k` rounds take. */
  function Taken(n: nat, limit: nat, k: nat): nat {
    if k == 0 then 0 else Min(n, Taken(n, limit, k - 1) + limit)
  }

  lemma {:induction false} TakenExactly(n: nat, limit: nat, k: nat)
    ensures Taken(n, limit, k) == Min(n, k * limit)
  {
    if k > 0 {
      TakenExactly(n, limit, k - 1);
      assert k * limit == (k - 1) * limit + limit;
    }
  }

  lemma {:induction false} DrainRounds(p: Policy, c: Core, limit: nat, now: int, k: nat, all: seq<Row>)
    requires UnderWay(p, c, now) && limit >= 1 && k >= 1 && all == Ordered(Eligible(now), c.rows)
    requires Taken(|all|, limit, k - 1) < |all|
    ensures Progress(p, c, limit, now, k, all, Taken(|all|, limit, k))
  {
    if k == 1 {
      FirstRound(p, c, limit, now);
    } else {
      DrainRounds(p, c, limit, now, k - 1, all);
      NextRound(p, c, limit, now, k, all, Taken(|all|, limit, k - 1), Taken(|all|, limit, k));
    }
  }

  /**
   Ordered drain. From a backlog of `n` rows none of which waits for a retry or is claimed, `k` rounds, as long as
   the previous ones left something, have claimed exactly the first `min(n, k * limit)` rows in
   (ingest time, rowid) order, each once; the session always satisfies queued = delivered + remaining, and it is
   `completed` exactly when nothing remains - that is, after `ceil(n / limit)` rounds and not before.
   */
  lemma OrderedDrain(p: Policy, c: Core, limit: nat, now: int, k: nat, all: seq<Row>)
    requires UnderWay(p, c, now) && limit >= 1 && k >= 1 && all == Ordered(Eligible(now), c.rows)
    requires (k - 1) * limit < LiveCount(c.rows)
    ensures |all| == LiveCount(c.rows) && Progress(p, c, limit, now, k, all, Min(|all|, k * limit))
  {
    BacklogIsSelection(c.rows, c.nextId, now);
    TakenExactly(|all|, limit, k - 1);
    TakenExactly(|all|, limit, k);
    DrainRounds(p, c, limit, now, k, all);
  }

  /** In columns: of two claims of the drain the earlier is of the row with the smaller (ingest time, rowid). */
  lemma DrainsOldestFirst(p: Policy, c: Core, limit: nat, now: int, k: nat, i: nat, j: nat) returns (a: Row, b: Row)
    requires UnderWay(p, c, now) && limit >= 1 && k >= 1 && (k - 1) * limit < LiveCount(c.rows)
    requires i < j < |ClaimedIn(p, c, limit, now, k)|
    ensures a in c.rows && b in c.rows
    ensures ClaimedIn(p, c, limit, now, k)[i] == a.id && ClaimedIn(p, c, limit, now, k)[j] == b.id
    ensures a.ingestAt < b.ingestAt || (a.ingestAt == b.ingestAt && a.id < b.id)
  {
    var all := Ordered(Eligible(now), c.rows);
    OrderedDrain(p, c, limit, now, k, all);
    OrderedIsSelection(Eligible(now), c.rows, c.nextId);
    a, b := all[i], all[j];
    assert a in all && b in all;
    assert Select(Eligible(now), c.rows, -1) == all;
    SelectAscends(Eligible(now), c.rows, c.nextId, -1, i, j);
  }

  /** And a row still live after the drain is younger than every row it has claimed. */
  lemma DrainLeavesYounger(p: Policy, c: Core, limit: nat, now: int, k: nat, i: nat, left: Row) returns (a: Row)
    requires UnderWay(p, c, now) && limit >= 1 && k >= 1 && (k - 1) * limit < LiveCount(c.rows)
    requires i < |ClaimedIn(p, c, limit, now, k)| && left in c.rows && Live(left.state)
    requires left.id !in ClaimedIn(p, c, limit, now, k)
    ensures a in c.rows && ClaimedIn(p, c, limit, now, k)[i] == a.id
    ensures a.ingestAt < left.ingestAt || (a.ingestAt == left.ingestAt && a.id < left.id)
  {
    var all := Ordered(Eligible(now), c.rows);
    OrderedDrain(p, c, limit, now, k, all);
    OrderedIsSelection(Eligible(now), c.rows, c.nextId);
    a := all[i];
    assert a in all;
    assert Select(Eligible(now), c.rows, -1) == all;
    var j :| 0 <= j < |all| && all[j] == left;
    var done := Min(|all|, k * limit);
    assert ClaimedIn(p, c, limit, now, k) == IdSeq(all[..done]);
    assert forall m | 0 <= m < done :: IdSeq(all[..done])[m] == all[m].id;
    SelectAscends(Eligible(now), c.rows, c.nextId, -1, i, j);
  }

  /** The whole drain, at its last round: every pending row once and in order, and a session that says so. */
  lemma DrainCompletes(p: Policy, c: Core, limit: nat, now: int, k: nat, all: seq<Row>, end: Core)
    requires UnderWay(p, c, now) && limit >= 1 && k >= 1 && c.session.state.Queued?
    requires (k - 1) * limit < LiveCount(c.rows) <= k * limit
    requires all == Ordered(Eligible(now), c.rows) && end == Rounds(p, c, limit, now, k)
    ensures ClaimedIn(p, c, limit, now, k) == IdSeq(all) && LiveCount(end.rows) == 0
    ensures end.session.state.Completed? && end.session.delivered == LiveCount(c.rows)
  {
    OrderedDrain(p, c, limit, now, k, all);
    assert all[..|all|] == all;
  }
}
