/**
 The ingress decision read off what goes in: health, session, backlog and flags. Which route an event takes, the mode
 its row is stored under, how fast it may go, and when it is accepted, buffered or refused.
 */
module Decisions {
  import opened Options
  import opened Rows
  import opened Store
  import opened Session
  import opened Protocol
  import opened Routing
  import opened Runtime

  /** A replay is under way, or over but not yet confirmed and drained. */
  predicate ReplayInTheWay(s: Session, pending: int) {
    s.state == Queued || s.state == Running || s.state == Failed ||
    (s.state == Completed && (s.heartbeats < s.required || pending > 0))
  }

  /** Neither target is offline, but the transport is, over a backlog. */
  predicate CutOffOverBacklog(h: Health, pending: int) {
    h.transport == Offline && h.dedupe != Offline && h.order != Offline && pending > 0
  }

  /** The route, and with it the mode of the stored row, by health alone once no replay is in the way. */
  lemma RouteExactly(cfg: FlowConfig, h: Health, s: Session, f: Flags, rows: seq<Row>, pending: int)
    ensures var d := IngressDecision(cfg, h, s, f, rows, pending);
            if ReplayInTheWay(s, pending) then d.routing == ReplayThrough && d.mode == ReplayThroughDedupe
            else if h.dedupe == Offline && h.order == Offline then d.routing == FullOutage && d.mode == FullOutageBuffer
            else if h.dedupe == Offline then d.routing == DedupeBypassThrottled && d.mode == DedupeBypass
            else if h.order == Offline || CutOffOverBacklog(h, pending) then
              d.routing == OrderBuffer && d.mode == OrderBufferOnly
            else d.routing == NormalFlow && d.mode == Normal
  {
  }

  /** Live flow is held back: a configured pause during a replay, or before one while recovery is not confirmed. */
  ghost predicate HeldBack(cfg: FlowConfig, h: Health, s: Session, f: Flags, rows: seq<Row>, pending: int) {
    cfg.pauseLive &&
    (ReplayInTheWay(s, pending) ||
     (h.dedupe == Online && h.order == Online && f.recoveryNeeded && f.transitionSeen && s.heartbeats < s.required &&
      exists r :: r in rows && (r.state == Pending || r.state == Replaying) &&
                  r.mode in {OrderBufferOnly, FullOutageBuffer, ReplayThroughDedupe}))
  }

  /** Somewhere to go: a replay in the way aside, causal-order is up and the event can reach it. */
  predicate HasDestination(h: Health, s: Session, pending: int) {
    ReplayInTheWay(s, pending) || (h.order != Offline && !CutOffOverBacklog(h, pending))
  }

  /** Too much is pending for the bypass, or the configured tier itself is paused. */
  predicate Overloaded(cfg: FlowConfig, h: Health, s: Session, pending: int) {
    !ReplayInTheWay(s, pending) &&
    if h.dedupe == Offline then pending >= 10_000 else pending < 5_000 && cfg.defaultTier == Paused
  }

  /**
   An event is accepted exactly when it has a destination, nothing holds live flow back, startup is over, and the route
   is not overloaded; it is refused exactly when only the overload stands against it; otherwise it is buffered.
   */
  lemma ActionExactly(cfg: FlowConfig, h: Health, s: Session, f: Flags, rows: seq<Row>, pending: int)
    ensures var action := IngressDecision(cfg, h, s, f, rows, pending).action;
            var free := HasDestination(h, s, pending) && !HeldBack(cfg, h, s, f, rows, pending) &&
                        (!cfg.conservative || f.startupReady);
            && (action == Accept <==> free && !Overloaded(cfg, h, s, pending))
            && (action == Pause <==> free && Overloaded(cfg, h, s, pending))
            && (action == BufferOnly <==> !free)
  {
  }

  /** So nothing is forwarded to causal-order while it is down, unless a replay is in the way and does not pause it. */
  lemma NeverIntoADownTarget(cfg: FlowConfig, h: Health, s: Session, f: Flags, rows: seq<Row>, pending: int)
    requires h.order == Offline && (cfg.pauseLive || !ReplayInTheWay(s, pending))
    ensures IngressDecision(cfg, h, s, f, rows, pending).action == BufferOnly
  {
    ActionExactly(cfg, h, s, f, rows, pending);
  }

  /** The tier by route and backlog. */
  lemma TierExactly(cfg: FlowConfig, h: Health, s: Session, f: Flags, rows: seq<Row>, pending: int)
    ensures var tier := IngressDecision(cfg, h, s, f, rows, pending).tier;
            if ReplayInTheWay(s, pending) then tier == VerySlow
            else if !HasDestination(h, s, pending) then tier == Paused
            else if h.dedupe == Offline then
              && (tier == Slow <==> pending < 2_000)
              && (tier == VerySlow <==> 2_000 <= pending < 10_000)
              && (tier == Paused <==> 10_000 <= pending)
            else
              && (pending < 5_000 ==> tier == cfg.defaultTier)
              && (5_000 <= pending < 20_000 ==> tier == Slow)
              && (20_000 <= pending ==> tier == VerySlow)
  {
  }

  /**
   An event that is stored because it has no destination, or because a replay is in the way, is stored so that a
   reconcile will see it; an event stored on any other route is not something to replay.
   */
  lemma StoredForReplay(
    p: Policy, c: Core, cfg: FlowConfig, h: Health, f: Flags, payload: string, at: Option<int>, now: int)
    requires !HasReplayableBacklog(c.rows)
    ensures var d := IngressDecision(cfg, h, c.session, f, c.rows, Counter(c));
            var rows := NextRows(p, c, Step.Append(TransportIngress(payload, at, d, FullOutageActive(h)), now));
            HasReplayableBacklog(rows) <==>
              ReplayInTheWay(c.session, Counter(c)) || !HasDestination(h, c.session, Counter(c))
  {
    var d := IngressDecision(cfg, h, c.session, f, c.rows, Counter(c));
    var row := NewRow(p.store, c.nextId, TransportIngress(payload, at, d, FullOutageActive(h)), now);
    RouteExactly(cfg, h, c.session, f, c.rows, Counter(c));
    assert row in c.rows + [row] && Live(row.state);
    assert forall r :: r in c.rows + [row] <==> r in c.rows || r == row;
  }

  /** What a transport event is stored as: its own payload and time, pending, and kept for as long as health says. */
  lemma StoredTransportEvent(p: Policy, c: Core, h: Health, d: Decision, payload: string, at: Option<int>, now: int)
    ensures var row := NewRow(p.store, c.nextId, TransportIngress(payload, at, d, FullOutageActive(h)), now);
            && row.payload == payload && row.source == TransportStream && row.mode == d.mode && row.state == Pending
            && row.ingestAt == (if at == None then now else at.value)
            && row.retryAt == None && row.claimedAt == None && row.terminalAt == None && row.attempts == 0
            && row.expiresAt == row.ingestAt + if h.dedupe == Offline && h.order == Offline then p.store.outageWindow
                                               else p.store.rollingWindow
  {
  }

  /** An observation is stored as delivered at its own time; it never counts as pending. */
  lemma StoredObservation(p: Policy, c: Core, payload: string, at: Option<int>, now: int)
    ensures var next := Next(p, c, Step.Append(ObservationIngress(payload, at), now));
            && |next.rows| == |c.rows| + 1 && next.rows[..|c.rows|] == c.rows && Counter(next) == Counter(c)
            && var row := next.rows[|c.rows|];
               row.payload == payload && row.source == DedupedObservation && row.mode == Normal &&
               row.state == Delivered && row.terminalAt == Some(row.ingestAt) &&
               row.ingestAt == (if at == None then now else at.value) &&
               row.expiresAt == row.ingestAt + p.store.rollingWindow
  {
    SumSnoc(LiveRows, c.rows, NewRow(p.store, c.nextId, ObservationIngress(payload, at), now));
  }
}
