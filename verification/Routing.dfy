/** How health, backlog and the replay gate decide what happens to an ingress event. */
module Routing {
  import opened Options
  import opened Rows
  import opened Store
  import opened Session

  datatype Health = Health(transport: HealthState, dedupe: HealthState, order: HealthState)

  datatype RoutingMode = NormalFlow | DedupeBypassThrottled | OrderBuffer | FullOutage | ReplayThrough

  datatype Tier = OpenTier | Slow | VerySlow | Paused

  datatype Action = Accept | BufferOnly | Pause

  datatype Decision = Decision(action: Action, routing: RoutingMode, mode: DeliveryMode, tier: Tier)

  /** The runtime's own flags besides the session and the rows. */
  datatype Flags = Flags(recoveryNeeded: bool, transitionSeen: bool, startupReady: bool)

  datatype FlowConfig = FlowConfig(pauseLive: bool, conservative: bool, defaultTier: Tier)

  predicate TargetsHealthy(h: Health) {
    h.dedupe.Online? && h.order.Online?
  }

  predicate FullOutageActive(h: Health) {
    h.dedupe.Offline? && h.order.Offline?
  }

  function DeriveRoutingMode(h: Health, gateClosed: bool, pending: int): RoutingMode {
    if gateClosed then ReplayThrough
    else if h.dedupe.Offline? && h.order.Offline? then FullOutage
    else if h.order.Offline? then OrderBuffer
    else if h.dedupe.Offline? then DedupeBypassThrottled
    else if h.transport.Offline? && pending > 0 then OrderBuffer
    else NormalFlow
  }

  function DecideThrottle(routing: RoutingMode, pending: int, defaultTier: Tier): Tier {
    match routing
    case FullOutage => Paused
    case OrderBuffer => Paused
    case ReplayThrough => VerySlow
    case DedupeBypassThrottled => if pending >= 10_000 then Paused else if pending >= 2_000 then VerySlow else Slow
    case NormalFlow => if pending >= 20_000 then VerySlow else if pending >= 5_000 then Slow else defaultTier
  }

  function ResolveDeliveryMode(routing: RoutingMode): DeliveryMode {
    match routing
    case DedupeBypassThrottled => DedupeBypass
    case OrderBuffer => OrderBufferOnly
    case FullOutage => FullOutageBuffer
    case ReplayThrough => ReplayThroughDedupe
    case NormalFlow => Normal
  }

  function DecideIngress(routing: RoutingMode, pending: int, defaultTier: Tier): Decision {
    var tier := DecideThrottle(routing, pending, defaultTier);
    var action := if routing.FullOutage? || routing.OrderBuffer? then BufferOnly
                  else if tier.Paused? then Pause
                  else Accept;
    Decision(action, routing, ResolveDeliveryMode(routing), tier)
  }

  /** Live flow waits before a replay starts, while recovery is not confirmed and there is something to replay. */
  predicate HoldsForConfirmation(h: Health, s: Session, f: Flags, rows: seq<Row>) {
    TargetsHealthy(h) && f.recoveryNeeded && f.transitionSeen && !Confirmed(s) && HasReplayableBacklog(rows)
  }

  /** `pending` is the in-memory counter; only the kind of backlog is looked up in the table. */
  function IngressDecision(
    cfg: FlowConfig, h: Health, s: Session, f: Flags, rows: seq<Row>, pending: int): Decision
  {
    var gate := GateClosed(s, pending);
    var decision := DecideIngress(DeriveRoutingMode(h, gate, pending), pending, cfg.defaultTier);
    var gated :=
      if cfg.pauseLive && (gate || HoldsForConfirmation(h, s, f, rows)) then decision.(action := BufferOnly)
      else decision;
    if cfg.conservative && !f.startupReady then gated.(action := BufferOnly) else gated
  }

  /**
   Buffering for lack of a destination never drops an event: the routes that cannot deliver never refuse it, and an
   event is refused only on the bypass route under a heavy backlog or by a configured paused tier.
   */
  lemma RefusalOnlyUnderPressure(
    cfg: FlowConfig, h: Health, s: Session, f: Flags, rows: seq<Row>, pending: int)
    ensures var d := IngressDecision(cfg, h, s, f, rows, pending);
            && (d.routing.FullOutage? || d.routing.OrderBuffer? ==> d.action.BufferOnly?)
            && (d.action.Pause? ==> (d.routing.DedupeBypassThrottled? && pending >= 10_000) ||
                                    (d.routing.NormalFlow? && cfg.defaultTier.Paused? && pending < 5_000))
  {
  }

  function Slowness(t: Tier): nat {
    match t
    case OpenTier => 0
    case Slow => 1
    case VerySlow => 2
    case Paused => 3
  }

  ghost predicate NeverFaster(routing: RoutingMode, defaultTier: Tier) {
    forall a, b: int | a <= b ::
      Slowness(DecideThrottle(routing, a, defaultTier)) <= Slowness(DecideThrottle(routing, b, defaultTier))
  }

  /** A heavier backlog never gets a faster tier - unless the configured default is slower than `slow`. */
  lemma HeavierBacklogIsNeverFaster(routing: RoutingMode, defaultTier: Tier)
    ensures NeverFaster(routing, defaultTier) <==> !routing.NormalFlow? || Slowness(defaultTier) <= Slowness(Slow)
  {
    if routing.NormalFlow? && Slowness(defaultTier) > Slowness(Slow) {
      assert DecideThrottle(routing, 0, defaultTier) == defaultTier;
      assert DecideThrottle(routing, 5_000, defaultTier) == Slow;
    }
  }
}
