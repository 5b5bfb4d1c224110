/** What each reservoir operation does to the event table when it commits. */
module Store {
  import opened Options
  import opened Rows
  import opened Ordering
  import opened Admission

  datatype Config = Config(
    rollingWindow: int, outageWindow: int, pruneBatch: int,
    deliveredRetention: int, deadLetterRetention: int, capacity: Capacity)

  /** An append request: the serialized envelope and the options that go with it. */
  datatype Ingress = Ingress(
    payload: string, source: SourcePath, mode: DeliveryMode, state: Option<ReplayState>,
    retryAt: Option<int>, ingestAt: Option<int>, outage: bool)

  datatype Entry = Entry(rowId: nat, payload: string, source: SourcePath, mode: DeliveryMode, attempts: nat)

  function Window(cfg: Config, outage: bool): int {
    if outage then cfg.outageWindow else cfg.rollingWindow
  }

  function InitialState(a: Ingress): ReplayState {
    match a.state
    case Some(s) => s
    case None => if a.source.DedupedObservation? then Delivered else Pending
  }

  function NewRow(cfg: Config, id: nat, a: Ingress, now: int): Row {
    var ingestAt := if a.ingestAt.Some? then a.ingestAt.value else now;
    var state := InitialState(a);
    Row(id, ingestAt, a.source, a.payload, Utf8Length(a.payload), a.mode, state, 0, a.retryAt, None,
        if Terminal(state) then Some(ingestAt) else None, ingestAt + Window(cfg, a.outage))
  }

  /** The rows an update by ids really moves, as opposed to the rows it matches. */
  function Transitioned(rows: seq<Row>, ids: set<nat>, next: ReplayState): set<nat> {
    set row | row in rows && row.id in ids && row.state != next :: row.id
  }

  // ---------------------------------------------------------------- claims

  function ClaimIds(rows: seq<Row>, limit: int, now: int): set<nat> {
    if limit <= 0 then {} else Ids(Select(Eligible(now), rows, limit))
  }

  function Claimed(rows: seq<Row>, limit: int, now: int, stamp: int, mode: DeliveryMode): seq<Row> {
    Update(rows, ClaimIds(rows, limit, now), ClaimFor(stamp, mode))
  }

  function EntryOf(r: Row, mode: DeliveryMode): Entry {
    Entry(r.id, r.payload, r.source, mode, r.attempts + 1)
  }

  function EntriesOf(picked: seq<Row>, mode: DeliveryMode): (out: seq<Entry>) {
    seq(|picked|, i requires 0 <= i < |picked| => EntryOf(picked[i], mode))
  }

  function Entries(rows: seq<Row>, limit: int, now: int, mode: DeliveryMode): (out: seq<Entry>) {
    if limit <= 0 then [] else EntriesOf(Select(Eligible(now), rows, limit), mode)
  }

  /** What a claim returns are the rows as they stand once it has committed. */
  lemma EntriesDescribeClaimedRows(
    rows: seq<Row>, nextId: nat, limit: int, now: int, stamp: int, mode: DeliveryMode, i: nat) returns (r: Row)
    requires WellKeyed(rows, nextId) && i < |Entries(rows, limit, now, mode)|
    ensures r in Claimed(rows, limit, now, stamp, mode)
    ensures r.state.Replaying? && r.claimedAt == Some(stamp) && r.retryAt.None?
    ensures Entries(rows, limit, now, mode)[i] == Entry(r.id, r.payload, r.source, r.mode, r.attempts)
  {
    var picked := Select(Eligible(now), rows, limit);
    SelectedFromTable(Eligible(now), rows, nextId, limit);
    IdsWhereComplete(picked, Everything);
    UpdateImage(rows, ClaimIds(rows, limit, now), ClaimFor(stamp, mode), picked[i]);
    r := Apply(ClaimFor(stamp, mode), picked[i]);
  }

  /** The claims a reclaim puts back: all stale ones, but none for a negative age or an empty batch size. */
  function StaleIds(cfg: Config, rows: seq<Row>, maxAge: int, now: int): set<nat> {
    if maxAge < 0 || cfg.pruneBatch == 0 then {} else IdsWhere(rows, Stale(now - maxAge))
  }

  function Reclaimed(cfg: Config, rows: seq<Row>, maxAge: int, now: int): seq<Row> {
    Update(rows, StaleIds(cfg, rows, maxAge, now), MoveTo(Pending, None, now))
  }

  function Recovered(rows: seq<Row>): seq<Row> {
    Update(rows, IdsWhere(rows, InStates({Replaying})), Recover)
  }

  // ---------------------------------------------------------------- retention

  function ExpiredQuery(cfg: Config, outage: bool, now: int): Query {
    Expired(now - cfg.outageWindow, now - Window(cfg, outage))
  }

  function DeletableQuery(cfg: Config, now: int): Query {
    Deletable(now - cfg.deliveredRetention, now - cfg.deadLetterRetention)
  }

  function ExpiredBatch(cfg: Config, rows: seq<Row>, outage: bool, now: int): set<nat> {
    Ids(Select(ExpiredQuery(cfg, outage, now), rows, cfg.pruneBatch))
  }

  function DeletableBatch(cfg: Config, rows: seq<Row>, now: int): set<nat> {
    Ids(Select(DeletableQuery(cfg, now), rows, cfg.pruneBatch))
  }

  /** First phase of a prune; `stamp` is the clock reading that becomes the terminal time. */
  function DeadLettered(cfg: Config, rows: seq<Row>, outage: bool, now: int, stamp: int): seq<Row> {
    Update(rows, ExpiredBatch(cfg, rows, outage, now), MoveTo(DeadLetter, None, stamp))
  }

  /** Second phase of a prune. */
  function Purged(cfg: Config, rows: seq<Row>, now: int): seq<Row> {
    Remove(rows, DeletableBatch(cfg, rows, now))
  }

  function Pruned(cfg: Config, rows: seq<Row>, outage: bool, now: int, stamp: int): seq<Row> {
    Purged(cfg, DeadLettered(cfg, rows, outage, now, stamp), now)
  }

  // ---------------------------------------------------------------- statistics

  function LeastRetry(waiting: seq<Row>): Option<int> {
    if |waiting| == 0 then None else
      var rest := LeastRetry(waiting[..|waiting| - 1]);
      var last := waiting[|waiting| - 1].retryAt;
      if rest.None? then last else if last.Some? && last.value < rest.value then last else rest
  }

  /** `MIN(retry_not_before_ms)` of the waiting rows; the statistics read a stored 0 back as "none". */
  function EarliestRetry(rows: seq<Row>, now: int): Option<int> {
    var least := LeastRetry(Where(rows, IdsWhere(rows, Waiting(now))));
    if least == Some(0) then None else least
  }

  function MaxAttempts(rows: seq<Row>): nat {
    if |rows| == 0 then 0 else
      var rest := MaxAttempts(rows[..|rows| - 1]);
      var last := rows[|rows| - 1];
      if last.state.Pending? && last.attempts > rest then last.attempts else rest
  }

  /** Live rows by source path, and by delivery mode. */
  datatype SourceCounts = SourceCounts(transport: nat, observations: nat)

  datatype ModeCounts = ModeCounts(normal: nat, bypass: nat, orderBuffer: nat, outage: nat, replay: nat)

  datatype Stats = Stats(
    totalPending: int, oldestAge: int, retryWaiting: nat, earliestRetry: Option<int>,
    bySource: SourceCounts, byMode: ModeCounts)

  function SourceCountsOf(rows: seq<Row>): SourceCounts {
    SourceCounts(Sum(LiveFrom(TransportStream), rows), Sum(LiveFrom(DedupedObservation), rows))
  }

  function ModeCountsOf(rows: seq<Row>): ModeCounts {
    ModeCounts(Sum(LiveUnder(Normal), rows), Sum(LiveUnder(DedupeBypass), rows), Sum(LiveUnder(OrderBufferOnly), rows),
               Sum(LiveUnder(FullOutageBuffer), rows), Sum(LiveUnder(ReplayThroughDedupe), rows))
  }

  /** `MIN(monitor_ingest_at_ms)` of the live rows. */
  function OldestLive(rows: seq<Row>): Option<int> {
    if |rows| == 0 then None else
      var rest := OldestLive(rows[..|rows| - 1]);
      var last := rows[|rows| - 1];
      if Live(last.state) && (rest.None? || last.ingestAt < rest.value) then Some(last.ingestAt) else rest
  }

  /** The statistics read a stored 0 as "no row". */
  function OldestAge(rows: seq<Row>, now: int): int {
    var oldest := OldestLive(rows);
    if oldest.None? || oldest.value == 0 then 0 else now - oldest.value
  }

  /** A delivery mode other than `normal` and `dedupe_bypass` has a count above zero. */
  predicate ReplayableIn(counts: ModeCounts) {
    counts.orderBuffer > 0 || counts.outage > 0 || counts.replay > 0
  }

  /** Live rows buffered under a mode that recovery replays. */
  predicate HasReplayableBacklog(rows: seq<Row>) {
    exists r :: r in rows && Live(r.state) && !r.mode.Normal? && !r.mode.DedupeBypass?
  }

  /** The pending total is the in-memory counter; everything else is counted in the table. */
  function StatsOf(rows: seq<Row>, counter: int, now: int, later: int): Stats {
    Stats(counter, OldestAge(rows, later), Sum(Matching(Waiting(now)), rows), EarliestRetry(rows, now),
          SourceCountsOf(rows), ModeCountsOf(rows))
  }

  lemma CountedUnder(rows: seq<Row>, mode: DeliveryMode)
    ensures Sum(LiveUnder(mode), rows) > 0 <==> exists r :: r in rows && Live(r.state) && r.mode == mode
  {
    SumZero(LiveUnder(mode), rows);
    if Sum(LiveUnder(mode), rows) > 0 {
      var r :| r in rows && Weigh(LiveUnder(mode), r) != 0;
    }
    if r :| r in rows && Live(r.state) && r.mode == mode {
      assert Weigh(LiveUnder(mode), r) == 1;
    }
  }

  /** The counts by mode tell whether there is a backlog to replay. */
  lemma ReplayableByCounts(rows: seq<Row>)
    ensures ReplayableIn(ModeCountsOf(rows)) <==> HasReplayableBacklog(rows)
  {
    CountedUnder(rows, OrderBufferOnly);
    CountedUnder(rows, FullOutageBuffer);
    CountedUnder(rows, ReplayThroughDedupe);
  }

  /** The counts by source path add up to the live rows, and so do the counts by mode. */
  lemma {:induction false} CountsAddUp(rows: seq<Row>)
    ensures SourceCountsOf(rows).transport + SourceCountsOf(rows).observations == LiveCount(rows)
    ensures var m := ModeCountsOf(rows);
            m.normal + m.bypass + m.orderBuffer + m.outage + m.replay == LiveCount(rows)
  {
    if |rows| > 0 {
      CountsAddUp(rows[..|rows| - 1]);
    }
  }
}
