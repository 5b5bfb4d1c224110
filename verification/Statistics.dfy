/** What the counts and sums come to: cardinalities of sets of rows, bytes of texts, least and greatest of columns. */
module Statistics {
  import opened Counters
  import opened Options
  import opened Rows
  import opened Database
  import opened Store

  /** A weight of one for the rows of a set and none for the others adds up to the size of the set. */
  lemma {:induction false} SumIsCardinality(w: Weight, rows: seq<Row>, nextId: nat, s: set<Row>)
    requires WellKeyed(rows, nextId)
    requires forall r :: r in s ==> r in rows
    requires forall r | r in rows :: Weigh(w, r) == if r in s then 1 else 0
    ensures Sum(w, rows) == |s|
  {
    if |rows| == 0 {
      assert s == {};
    } else {
      var front, last := rows[..|rows| - 1], rows[|rows| - 1];
      assert last in rows && forall r | r in front :: r in rows;
      KeysAscend(rows, nextId);
      assert last !in front;
      SumIsCardinality(w, front, last.id, s - {last});
    }
  }

  /** The live rows are the pending and the replaying ones, and the first total counts them. */
  lemma LiveCountIsCardinality(rows: seq<Row>, nextId: nat)
    requires WellKeyed(rows, nextId)
    ensures Recount(rows).rows == |set r | r in rows && (r.state == Pending || r.state == Replaying)|
  {
    SumIsCardinality(LiveRows, rows, nextId, set r | r in rows && (r.state == Pending || r.state == Replaying));
  }

  /** The payloads of the live rows, one after another. */
  function LivePayloads(rows: seq<Row>): string {
    if |rows| == 0 then "" else
      var last := rows[|rows| - 1];
      LivePayloads(rows[..|rows| - 1]) +
      if last.state == Pending || last.state == Replaying then last.payload else ""
  }

  lemma {:induction false} Utf8LengthAdds(a: string, b: string)
    ensures Utf8Length(a + b) == Utf8Length(a) + Utf8Length(b)
  {
    if |b| == 0 {
      assert a + b == a;
    } else {
      var n := |b| - 1;
      Utf8LengthAdds(a, b[..n]);
      assert (a + b)[..|a + b| - 1] == a + b[..n];
    }
  }

  function PowerOf2(n: nat): nat {
    if n == 0 then 1 else 2 * PowerOf2(n - 1)
  }

  /** A character takes the fewest bytes whose payload bits, 7 in one byte and 5n + 1 in n, can hold it. */
  lemma Utf8LengthOfOne(c: char)
    ensures var n := Utf8Length([c]);
            && 1 <= n <= 4
            && (c as int) < PowerOf2(if n == 1 then 7 else 5 * n + 1)
            && (n > 1 ==> (c as int) >= PowerOf2(if n == 2 then 7 else 5 * (n - 1) + 1))
  {
    assert [c][..0] == [];
    assert PowerOf2(7) == 0x80 && PowerOf2(11) == 0x800 && PowerOf2(16) == 0x1_0000 && PowerOf2(21) == 0x20_0000;
  }

  /** The second total is the number of bytes of all live payloads together. */
  lemma {:induction false} LiveBytesAreMeasured(rows: seq<Row>)
    requires MeasuredBytes(rows)
    ensures Recount(rows).bytes == Utf8Length(LivePayloads(rows))
  {
    if |rows| > 0 {
      var last := rows[|rows| - 1];
      LiveBytesAreMeasured(rows[..|rows| - 1]);
      Utf8LengthAdds(LivePayloads(rows[..|rows| - 1]), last.payload);
      Utf8LengthAdds(LivePayloads(rows[..|rows| - 1]), "");
    }
  }

  /** The oldest live row is at most as young as any other. */
  lemma {:induction false} OldestLiveIsOldest(rows: seq<Row>)
    ensures var oldest := OldestLive(rows);
            && (forall r | r in rows && (r.state == Pending || r.state == Replaying) ::
                  oldest != None && oldest.value <= r.ingestAt)
            && (oldest != None ==>
                  exists r :: r in rows && (r.state == Pending || r.state == Replaying) && r.ingestAt == oldest.value)
  {
    if |rows| > 0 {
      var front, last := rows[..|rows| - 1], rows[|rows| - 1];
      OldestLiveIsOldest(front);
      assert forall r :: r in rows <==> r in front || r == last;
      if OldestLive(rows) != None && OldestLive(rows) == OldestLive(front) {
        var r :| r in front && (r.state == Pending || r.state == Replaying) && r.ingestAt == OldestLive(front).value;
        assert r in rows;
      }
    }
  }

  /** The statistics report the age of the oldest live row; none is 0, and so is one that was taken in at time 0. */
  lemma OldestAgeExactly(rows: seq<Row>, counter: int, now: int, later: int, oldest: Row)
    requires oldest in rows && (oldest.state == Pending || oldest.state == Replaying)
    requires forall r | r in rows && (r.state == Pending || r.state == Replaying) :: oldest.ingestAt <= r.ingestAt
    ensures StatsOf(rows, counter, now, later).oldestAge == if oldest.ingestAt == 0 then 0 else later - oldest.ingestAt
  {
    OldestLiveIsOldest(rows);
  }

  lemma NoLiveRowHasNoAge(rows: seq<Row>, counter: int, now: int, later: int)
    requires forall r | r in rows :: r.state == Delivered || r.state == DeadLetter
    ensures StatsOf(rows, counter, now, later).oldestAge == 0
  {
    OldestLiveIsOldest(rows);
  }

  /** The rows waiting for a retry are the pending ones whose retry time is still to come. */
  lemma WaitingIsCardinality(rows: seq<Row>, nextId: nat, counter: int, now: int, later: int)
    requires WellKeyed(rows, nextId)
    ensures StatsOf(rows, counter, now, later).retryWaiting ==
            |set r | r in rows && r.state == Pending && r.retryAt != None && r.retryAt.value > now|
    ensures StatsOf(rows, counter, now, later).totalPending == counter
  {
    SumIsCardinality(Matching(Waiting(now)), rows, nextId,
                     set r | r in rows && r.state == Pending && r.retryAt != None && r.retryAt.value > now);
  }

  /** Live rows by source path. */
  lemma SourcesAreCardinalities(rows: seq<Row>, nextId: nat, counter: int, now: int, later: int, live: set<Row>)
    requires WellKeyed(rows, nextId)
    requires live == set r | r in rows && (r.state == Pending || r.state == Replaying)
    ensures var counts := StatsOf(rows, counter, now, later).bySource;
            && counts.transport == |set r | r in live && r.source == TransportStream|
            && counts.observations == |set r | r in live && r.source == DedupedObservation|
  {
    SumIsCardinality(LiveFrom(TransportStream), rows, nextId, set r | r in live && r.source == TransportStream);
    SumIsCardinality(LiveFrom(DedupedObservation), rows, nextId, set r | r in live && r.source == DedupedObservation);
  }

  /** Live rows by delivery mode. */
  lemma ModesAreCardinalities(
    rows: seq<Row>, nextId: nat, counter: int, now: int, later: int, live: set<Row>, mode: DeliveryMode)
    requires WellKeyed(rows, nextId)
    requires live == set r | r in rows && (r.state == Pending || r.state == Replaying)
    ensures var counts := StatsOf(rows, counter, now, later).byMode;
            var counted := match mode
                           case Normal => counts.normal
                           case DedupeBypass => counts.bypass
                           case OrderBufferOnly => counts.orderBuffer
                           case FullOutageBuffer => counts.outage
                           case ReplayThroughDedupe => counts.replay;
            counted == |set r | r in live && r.mode == mode|
  {
    SumIsCardinality(LiveUnder(mode), rows, nextId, set r | r in live && r.mode == mode);
  }

  /** The saturating counters count up to the largest integer whose neighbours a double still tells apart. */
  lemma SaturatesAtSafeInteger(n: nat)
    ensures MAX_SAFE_INTEGER + 1 == PowerOf2(53)
    ensures IncrementSaturating(n) == if n + 1 < PowerOf2(53) then n + 1 else PowerOf2(53) - 1
  {
    PowerOfSum(21, 21);
    PowerOfSum(42, 11);
    assert PowerOf2(21) == 0x20_0000 && PowerOf2(11) == 0x800;
  }

  lemma {:induction false} PowerOfSum(a: nat, b: nat)
    ensures PowerOf2(a + b) == PowerOf2(a) * PowerOf2(b)
  {
    if b > 0 {
      PowerOfSum(a, b - 1);
      assert PowerOf2(a) * (2 * PowerOf2(b - 1)) == 2 * (PowerOf2(a) * PowerOf2(b - 1));
    }
  }
}
