/**
 What the runtime keeps in memory besides the session - health, throttle tier, flags and startup evidence - and what the
 reports it receives make of it, one by one and over a whole series.
 */
module Panels {
  import opened Options
  import opened Rows
  import opened Session
  import opened Routing

  /** What the runtime keeps in memory besides the session. */
  datatype Panel = Panel(health: Health, tier: Tier, flags: Flags, evidence: set<Component>)

  function StateOf(h: Health, component: Component): HealthState {
    match component
    case Transport => h.transport
    case Dedupe => h.dedupe
    case CausalOrder => h.order
  }

  function WithState(h: Health, component: Component, state: HealthState): Health {
    match component
    case Transport => h.(transport := state)
    case Dedupe => h.(dedupe := state)
    case CausalOrder => h.(order := state)
  }

  /** Under conservative startup every component must have been seen online once. */
  function WithEvidence(flow: FlowConfig, panel: Panel, component: Component, state: HealthState): Panel {
    var evidence := if flow.conservative && state.Online? then panel.evidence + {component} else panel.evidence;
    panel.(evidence := evidence,
           flags := panel.flags.(startupReady := panel.flags.startupReady || (flow.conservative && |evidence| == 3)))
  }

  function UpdatedTier(flow: FlowConfig, tier: Tier, component: Component, h: Health, live: int): Tier {
    if h.transport.Online? && h.dedupe.Online? && h.order.Online? then flow.defaultTier
    else
      var state := StateOf(h, component);
      if component.Dedupe? && state.Offline? then Slow
      else if component.CausalOrder? && state.Offline? then Paused
      else if component.Transport? && state.Offline? && live == 0 then Paused
      else tier
  }

  /** A health update up to the point where the coordinator hears of it. */
  function HealthUpdated(flow: FlowConfig, panel: Panel, component: Component, state: HealthState, live: int): Panel {
    var h := WithState(panel.health, component, state);
    var noted := WithEvidence(flow, panel.(health := h), component, state);
    noted.(tier := UpdatedTier(flow, panel.tier, component, h, live),
           flags := noted.flags.(
             transitionSeen := noted.flags.transitionSeen ||
                               (!component.Transport? && StateOf(panel.health, component) != state),
             recoveryNeeded := noted.flags.recoveryNeeded || (!component.Transport? && state.Offline?)))
  }

  function HeartbeatObserved(flow: FlowConfig, panel: Panel, component: Component, state: HealthState): Panel {
    WithEvidence(flow, panel.(health := WithState(panel.health, component, state)), component, state)
  }

  /** The recovery flag is taken down once the targets are healthy, the session idle and the reservoir empty. */
  function Reconciled(panel: Panel, s: Session, live: int): Panel {
    if TargetsHealthy(panel.health) && s.state.Idle? && live == 0 then
      panel.(flags := panel.flags.(recoveryNeeded := false))
    else panel
  }

  // ---------------------------------------------------------------- one report

  /**
   How far a report has come before a fault cut it short: health and evidence are noted first, then the flags of an
   update are set, and last of all the recovery flag is reconciled.
   */
  datatype Reach = Noted | Taken | Reconciling

  /** A health update, a heartbeat, a refresh of the tracked health, or a new throttle tier. */
  datatype Report =
    | Update(component: Component, state: HealthState, reach: Reach, session: Session, live: int)
    | Heartbeat(component: Component, state: HealthState, reach: Reach, session: Session, live: int)
    | Refresh(health: Health, session: Session, live: int)
    | Throttled(tier: Tier)

  function PanelAfter(flow: FlowConfig, panel: Panel, r: Report): Panel {
    match r
    case Update(component, state, reach, session, live) =>
      var taken := HealthUpdated(flow, panel, component, state, live);
      if reach.Noted? then HeartbeatObserved(flow, panel, component, state)
      else if reach.Taken? then taken
      else Reconciled(taken, session, live)
    case Heartbeat(component, state, reach, session, live) =>
      var noted := HeartbeatObserved(flow, panel, component, state);
      if reach.Reconciling? then Reconciled(noted, session, live) else noted
    case Refresh(health, session, live) => Reconciled(panel.(health := health), session, live)
    case Throttled(tier) => panel.(tier := tier)
  }

  ghost predicate IsUpdate(flow: FlowConfig, before: Panel, component: Component, state: HealthState, after: Panel) {
    exists reach, session, live :: after == PanelAfter(flow, before, Update(component, state, reach, session, live))
  }

  ghost predicate IsHeartbeat(flow: FlowConfig, before: Panel, component: Component, state: HealthState, after: Panel) {
    exists reach, session, live :: after == PanelAfter(flow, before, Heartbeat(component, state, reach, session, live))
  }

  // ---------------------------------------------------------------- a series of reports

  function PanelAfterAll(flow: FlowConfig, panel: Panel, reports: seq<Report>): Panel {
    if |reports| == 0 then panel
    else PanelAfter(flow, PanelAfterAll(flow, panel, reports[..|reports| - 1]), reports[|reports| - 1])
  }

  predicate SaysOnline(r: Report, component: Component) {
    (r.Update? || r.Heartbeat?) && r.component == component && r.state.Online?
  }

  /** Some report of the series says that the component is online. */
  predicate HasBeenOnline(reports: seq<Report>, component: Component) {
    exists r :: r in reports && SaysOnline(r, component)
  }

  predicate AllHaveBeenOnline(reports: seq<Report>) {
    HasBeenOnline(reports, Transport) && HasBeenOnline(reports, Dedupe) && HasBeenOnline(reports, CausalOrder)
  }

  predicate HasAll(s: set<Component>) {
    Transport in s && Dedupe in s && CausalOrder in s
  }

  lemma AllThree(s: set<Component>)
    ensures |s| == 3 <==> HasAll(s)
  {
    var all := {Transport, Dedupe, CausalOrder};
    forall c | c in s ensures c in all {
      assert c.Transport? || c.Dedupe? || c.CausalOrder?;
    }
    assert all == s + (all - s);
    if HasAll(s) {
      assert s == all;
    } else {
      var missing :| missing in all && missing !in s;
      assert missing in all - s;
    }
  }

  lemma OnlineSnoc(reports: seq<Report>, component: Component)
    requires |reports| > 0
    ensures HasBeenOnline(reports, component) <==>
              HasBeenOnline(reports[..|reports| - 1], component) || SaysOnline(reports[|reports| - 1], component)
  {
    var front, last := reports[..|reports| - 1], reports[|reports| - 1];
    assert forall r :: r in reports <==> r in front || r == last;
  }

  /** One report adds whom it says online. */
  lemma EvidenceStep(flow: FlowConfig, panel: Panel, r: Report)
    requires flow.conservative
    ensures forall c :: c in PanelAfter(flow, panel, r).evidence <==> c in panel.evidence || SaysOnline(r, c)
  {
  }

  /** And it ends startup with the third. */
  lemma ReadyStep(flow: FlowConfig, panel: Panel, r: Report, after: Panel)
    requires flow.conservative && (panel.flags.startupReady <==> HasAll(panel.evidence))
    requires after == PanelAfter(flow, panel, r)
    ensures after.flags.startupReady <==> HasAll(after.evidence)
  {
    AllThree(after.evidence);
  }

  /** Under conservative startup the evidence is exactly who has been online, and startup is over once all have. */
  lemma {:induction false} StartupEvidence(flow: FlowConfig, panel: Panel, reports: seq<Report>)
    requires flow.conservative && panel.evidence == {} && !panel.flags.startupReady
    ensures var after := PanelAfterAll(flow, panel, reports);
            && (forall c :: c in after.evidence <==> HasBeenOnline(reports, c))
            && (after.flags.startupReady <==> HasAll(after.evidence))
  {
    if |reports| > 0 {
      var front, last := reports[..|reports| - 1], reports[|reports| - 1];
      StartupEvidence(flow, panel, front);
      EvidenceStep(flow, PanelAfterAll(flow, panel, front), last);
      ReadyStep(flow, PanelAfterAll(flow, panel, front), last, PanelAfterAll(flow, panel, reports));
      forall c ensures c in PanelAfterAll(flow, panel, reports).evidence <==> HasBeenOnline(reports, c) {
        OnlineSnoc(reports, c);
      }
    }
  }

  /**
   Conservative startup over any series of reports: nothing is accepted before each of the three components has been
   online, and from then on it holds nothing back.
   */
  lemma NothingAcceptedBeforeStartup(
    flow: FlowConfig, panel: Panel, reports: seq<Report>, after: Panel, s: Session, rows: seq<Row>, pending: int)
    requires flow.conservative && panel.evidence == {} && !panel.flags.startupReady
    requires after == PanelAfterAll(flow, panel, reports)
    ensures var decision := IngressDecision(flow, after.health, s, after.flags, rows, pending);
            if AllHaveBeenOnline(reports) then
              decision == IngressDecision(flow.(conservative := false), after.health, s, after.flags, rows, pending)
            else decision.action.BufferOnly?
  {
    StartupEvidence(flow, panel, reports);
  }

  // ---------------------------------------------------------------- the recovery flag

  /** The report takes the recovery flag down: it finds the targets healthy, the session idle and nothing live. */
  predicate Clears(flow: FlowConfig, before: Panel, r: Report) {
    match r
    case Throttled(_) => false
    case Refresh(health, session, live) => TargetsHealthy(health) && session.state.Idle? && live == 0
    case _ =>
      r.reach.Reconciling? && r.session.state.Idle? && r.live == 0
      && TargetsHealthy(WithState(before.health, r.component, r.state))
  }

  /** The report puts it up: an update that takes a target offline. */
  predicate Raises(r: Report) {
    r.Update? && !r.reach.Noted? && !r.component.Transport? && r.state.Offline?
  }

  /** What the last report to move the flag has made of it. */
  function LastSignal(flow: FlowConfig, panel: Panel, reports: seq<Report>): Option<bool> {
    if |reports| == 0 then None else
      var front, last := reports[..|reports| - 1], reports[|reports| - 1];
      if Raises(last) then Some(true)
      else if Clears(flow, PanelAfterAll(flow, panel, front), last) then Some(false)
      else LastSignal(flow, panel, front)
  }

  /**
   Recovery is needed exactly if the last report that raised or cleared the flag raised it, or there was none and it was
   needed before. So it goes down only with healthy targets, an idle session and nothing live.
   */
  lemma {:induction false} RecoveryFlagExactly(flow: FlowConfig, panel: Panel, reports: seq<Report>)
    ensures var signal := LastSignal(flow, panel, reports);
            PanelAfterAll(flow, panel, reports).flags.recoveryNeeded ==
            if signal.Some? then signal.value else panel.flags.recoveryNeeded
  {
    if |reports| > 0 {
      RecoveryFlagExactly(flow, panel, reports[..|reports| - 1]);
    }
  }

  // ---------------------------------------------------------------- health, tier and the seen transition

  /** What a report says about the health of a component, if anything. */
  function Says(r: Report, component: Component): Option<HealthState> {
    match r
    case Update(c, state, _, _, _) => if c == component then Some(state) else None
    case Heartbeat(c, state, _, _, _) => if c == component then Some(state) else None
    case Refresh(health, _, _) =>
      Some(if component == Transport then health.transport
           else if component == Dedupe then health.dedupe
           else health.order)
    case Throttled(_) => None
  }

  function LastSaid(reports: seq<Report>, component: Component): Option<HealthState> {
    if |reports| == 0 then None else
      var said := Says(reports[|reports| - 1], component);
      if said != None then said else LastSaid(reports[..|reports| - 1], component)
  }

  /** What was said of a component, if anything was. */
  function Told(said: Option<HealthState>, before: HealthState): HealthState {
    if said == None then before else said.value
  }

  lemma HealthStep(flow: FlowConfig, panel: Panel, r: Report)
    ensures var before, after := panel.health, PanelAfter(flow, panel, r).health;
            && after.transport == Told(Says(r, Transport), before.transport)
            && after.dedupe == Told(Says(r, Dedupe), before.dedupe)
            && after.order == Told(Says(r, CausalOrder), before.order)
  {
  }

  /** Of each component the panel shows what the last report about it said. */
  lemma {:induction false} HealthIsLastReport(flow: FlowConfig, panel: Panel, reports: seq<Report>)
    ensures var before, after := panel.health, PanelAfterAll(flow, panel, reports).health;
            && after.transport == Told(LastSaid(reports, Transport), before.transport)
            && after.dedupe == Told(LastSaid(reports, Dedupe), before.dedupe)
            && after.order == Told(LastSaid(reports, CausalOrder), before.order)
  {
    if |reports| > 0 {
      var front, last := reports[..|reports| - 1], reports[|reports| - 1];
      HealthIsLastReport(flow, panel, front);
      HealthStep(flow, PanelAfterAll(flow, panel, front), last);
    }
  }

  /** An update that was taken in and found a target in another state than it now reports. */
  predicate ShowsTransition(before: Health, r: Report) {
    r.Update? && r.reach != Noted &&
    ((r.component == Dedupe && before.dedupe != r.state) || (r.component == CausalOrder && before.order != r.state))
  }

  predicate ShownAt(flow: FlowConfig, panel: Panel, reports: seq<Report>, i: nat)
    requires i < |reports|
  {
    ShowsTransition(PanelAfterAll(flow, panel, reports[..i]).health, reports[i])
  }

  lemma SeenStep(flow: FlowConfig, panel: Panel, r: Report)
    ensures PanelAfter(flow, panel, r).flags.transitionSeen <==>
              panel.flags.transitionSeen || ShowsTransition(panel.health, r)
  {
  }

  /** A transition has been seen exactly if it had been before, or some report of the series showed one. */
  lemma {:induction false} TransitionSeenExactly(flow: FlowConfig, panel: Panel, reports: seq<Report>)
    ensures PanelAfterAll(flow, panel, reports).flags.transitionSeen <==>
              panel.flags.transitionSeen || exists i :: 0 <= i < |reports| && ShownAt(flow, panel, reports, i)
  {
    if |reports| > 0 {
      var n := |reports| - 1;
      var front := reports[..n];
      TransitionSeenExactly(flow, panel, front);
      SeenStep(flow, PanelAfterAll(flow, panel, front), reports[n]);
      forall i | 0 <= i < n ensures ShownAt(flow, panel, front, i) <==> ShownAt(flow, panel, reports, i) {
        assert front[..i] == reports[..i];
      }
      assert ShownAt(flow, panel, reports, n) <==>
             ShowsTransition(PanelAfterAll(flow, panel, front).health, reports[n]);
    }
  }

  /**
   The tier a report sets, if any. A new tier sets itself. An update that is taken in sets the default once everything
   is online, `paused` for an offline causal-order and for a transport that goes offline over an empty reservoir, and
   `slow` for an offline dedupe; a heartbeat and a refresh set none.
   */
  function TierSet(flow: FlowConfig, before: Health, r: Report): Option<Tier> {
    match r
    case Throttled(tier) => Some(tier)
    case Update(component, state, reach, _, live) =>
      var restored :=
        && (if component == Transport then state == Online else before.transport == Online)
        && (if component == Dedupe then state == Online else before.dedupe == Online)
        && (if component == CausalOrder then state == Online else before.order == Online);
      if reach == Noted then None
      else if restored then Some(flow.defaultTier)
      else if state == Offline && (component == CausalOrder || (component == Transport && live == 0)) then Some(Paused)
      else if state == Offline && component == Dedupe then Some(Slow)
      else None
    case _ => None
  }

  function LastTier(flow: FlowConfig, panel: Panel, reports: seq<Report>): Option<Tier> {
    if |reports| == 0 then None else
      var front := reports[..|reports| - 1];
      var tier := TierSet(flow, PanelAfterAll(flow, panel, front).health, reports[|reports| - 1]);
      if tier != None then tier else LastTier(flow, panel, front)
  }

  lemma TierStep(flow: FlowConfig, panel: Panel, r: Report)
    ensures var tier := TierSet(flow, panel.health, r);
            PanelAfter(flow, panel, r).tier == if tier == None then panel.tier else tier.value
  {
  }

  /** Between two decisions the tier is the one the last report to set any has set. */
  lemma {:induction false} TierIsTheLastSet(flow: FlowConfig, panel: Panel, reports: seq<Report>)
    ensures var tier := LastTier(flow, panel, reports);
            PanelAfterAll(flow, panel, reports).tier == if tier == None then panel.tier else tier.value
  {
    if |reports| > 0 {
      var front, last := reports[..|reports| - 1], reports[|reports| - 1];
      TierIsTheLastSet(flow, panel, front);
      TierStep(flow, PanelAfterAll(flow, panel, front), last);
    }
  }
}
