/**
 The monitor runtime: health, flags and ownership around the reservoir and the coordinator. Every call is a run of the
 protocol machine, also when a storage fault or a refusal cuts it short.
 */
module Runtime {
  import opened Options
  import opened Rows
  import opened Ordering
  import opened Database
  import opened Admission
  import opened Store
  import opened Session
  import opened Protocol
  import opened Operations
  import O = Operations
  import opened Routing
  import opened Panels
  import opened Reservoir
  import opened Coordinator

  datatype Owner = Manual | Adapter

  datatype RuntimeError =
    | ClosedRuntime
    | OwnedBy(owner: Owner)
    | TargetsUnhealthy
    | AdmissionRefused(decision: Decision)
    | ReplayFailure(replay: ReplayError)
    | StorageFailure(storage: Failure)

  predicate Bars(e: RuntimeError) {
    e.ClosedRuntime? || e.OwnedBy?
  }

  /** The request a transport event becomes under a decision; a stamp the event brings along wins over the clock. */
  function TransportIngress(payload: string, ingestedAt: Option<int>, decision: Decision, outage: bool): Ingress {
    Ingress(payload, TransportStream, decision.mode, None, None, ingestedAt, outage)
  }

  function ObservationIngress(payload: string, ingestedAt: Option<int>): Ingress {
    Ingress(payload, DedupedObservation, Normal, Some(Delivered), None, ingestedAt, false)
  }

  /** An append the reservoir admits is a step of the protocol. */
  lemma DoneAppend(p: Policy, c: Core, end: Core, a: Ingress, now: int) returns (steps: seq<Step>)
    requires c.clock <= now
    requires LogicalVerdict(p.store.capacity, UsageOf(c.rows), Live(InitialState(a)), Utf8Length(a.payload)).None?
    requires end == Core(c.rows + [NewRow(p.store, c.nextId, a, now)], c.nextId + 1, c.session, now, c.drift)
    ensures steps == [Step.Append(a, now)] && end == Next(p, c, Step.Append(a, now)) && IsRun(p, c, steps, end)
  {
    steps := [Step.Append(a, now)];
    RunsOnce(p, c, Step.Append(a, now));
  }

  /** A call that leaves nothing behind, unless it is a wrong counter. */
  lemma FailedCall(p: Policy, c: Core, end: Core) returns (steps: seq<Step>)
    requires end == c.(drift := end.drift)
    ensures steps == [Fault(end.drift)] && end == Next(p, c, Fault(end.drift)) && IsRun(p, c, steps, end)
  {
    steps := [Fault(end.drift)];
    RunsOnce(p, c, Fault(end.drift));
  }

  lemma PruneRuns(p: Policy, c: Core, outage: bool, now: int, stamp: int)
    requires c.clock <= now <= stamp
    ensures var marked := Next(p, c, MarkDead(outage, now, stamp));
            IsRun(p, c, [MarkDead(outage, now, stamp), Purge(now)], Next(p, marked, Purge(now)))
  {
    var mark, purge := MarkDead(outage, now, stamp), Purge(now);
    var marked := Next(p, c, mark);
    RunsOnce(p, c, mark);
    RunsOnce(p, marked, purge);
    RunsThen(p, c, [mark], marked, [purge], Next(p, marked, purge));
    assert [mark] + [purge] == [mark, purge];
  }

  /** A prune that fails is a run of its first phase, or of none, and of the failure. */
  lemma PruneStops(p: Policy, c: Core, outage: bool, now: int, stamp: int, rows: seq<Row>, drift: int)
    returns (steps: seq<Step>, clock: int)
    requires c.clock <= now <= stamp
    requires rows == c.rows || rows == DeadLettered(p.store, c.rows, outage, now, stamp)
    ensures IsRun(p, c, steps, Core(rows, c.nextId, c.session, clock, drift)) && clock <= stamp
    ensures forall s | s in steps :: s.MarkDead? || s.Fault?
  {
    var mark, fault := MarkDead(outage, now, stamp), Fault(drift);
    if rows == c.rows {
      RunsOnce(p, c, fault);
      steps, clock := [fault], c.clock;
    } else {
      var marked := Next(p, c, mark);
      RunsOnce(p, c, mark);
      RunsOnce(p, marked, fault);
      RunsThen(p, c, [mark], marked, [fault], Next(p, marked, fault));
      steps, clock := [mark] + [fault], stamp;
    }
  }

  class MonitorRuntime {
    const policy: Policy
    const flow: FlowConfig
    const reservoir: SQLiteReservoir
    const replay: ReplayCoordinator
    var health: Health
    var throttleTier: Tier
    var recoveryReplayNeeded: bool
    var observedRecoveryTransition: bool
    var startupHealthReady: bool
    var startupHealthEvidence: set<Component>
    var replayOwner: Option<Owner>
    var closed: bool

    ghost predicate Valid()
      reads this, reservoir, replay, replay.reservoir
    {
      replay.Valid() && replay.reservoir == reservoir && replay.policy == policy && (closed ==> reservoir.closed)
    }

    ghost function View(): Core
      reads replay, replay.reservoir
    {
      replay.View()
    }

    ghost function Faults(): nat
      reads reservoir
    {
      reservoir.raised
    }

    function CurrentFlags(): Flags
      reads this
    {
      Flags(recoveryReplayNeeded, observedRecoveryTransition, startupHealthReady)
    }

    function CurrentPanel(): Panel
      reads this
    {
      Panel(health, throttleTier, CurrentFlags(), startupHealthEvidence)
    }

    /** Starts with every component taken for online, and with recovery needed when there is a backlog. */
    constructor (policy: Policy, flow: FlowConfig, reservoir: SQLiteReservoir, replay: ReplayCoordinator)
      requires replay.Valid() && replay.reservoir == reservoir && replay.policy == policy
      ensures Valid() && !closed && replayOwner == None && this.reservoir == reservoir && this.replay == replay
      ensures this.policy == policy && this.flow == flow
      ensures CurrentPanel() == Panel(Health(Online, Online, Online), flow.defaultTier,
                                      Flags(reservoir.pendingRowCount > 0, reservoir.pendingRowCount > 0,
                                            !flow.conservative), {})
    {
      this.policy, this.flow, this.reservoir, this.replay := policy, flow, reservoir, replay;
      health := Health(Online, Online, Online);
      throttleTier := flow.defaultTier;
      recoveryReplayNeeded := reservoir.pendingRowCount > 0;
      observedRecoveryTransition := reservoir.pendingRowCount > 0;
      startupHealthReady := !flow.conservative;
      startupHealthEvidence := {};
      replayOwner := None;
      closed := false;
    }

    // ------------------------------------------------------------ ingress

    method ShouldHoldLiveFlow(now: int) returns (r: Result<bool, Failure>)
      requires Valid()
      modifies reservoir`issued, reservoir`raised
      ensures Faults() >= old(Faults())
      ensures r.Ok? ==> r.value == HoldsForConfirmation(health, replay.session, CurrentFlags(), reservoir.db.rows)
      ensures r.Err? ==> reservoir.closed || Faults() > old(Faults())
    {
      if !TargetsHealthy(health) || !recoveryReplayNeeded || !observedRecoveryTransition || Confirmed(replay.session) {
        return Ok(false);
      }
      var stats := reservoir.GetStats(now, now);
      r := if stats.Err? then Err(stats.error) else Ok(ReplayableIn(stats.value.byMode));
    }

    /** The decision, and the throttle tier that goes with it. */
    method GetIngressDecision(now: int) returns (r: Result<Decision, RuntimeError>)
      requires Valid()
      modifies this`throttleTier, reservoir`issued, reservoir`raised
      ensures Valid() && View() == old(View()) && Faults() >= old(Faults())
      ensures r.Ok? ==> r.value == IngressDecision(flow, health, replay.session, CurrentFlags(), reservoir.db.rows,
                                                   Counter(View()))
      ensures r.Ok? ==> throttleTier == r.value.tier
      ensures r.Err? ==> throttleTier == old(throttleTier) && (reservoir.closed || Faults() > old(Faults()))
    {
      if closed { return Err(ClosedRuntime); }
      var pending := reservoir.pendingRowCount;
      var gate := replay.IsGateClosed(now);
      if gate.Err? { return Err(StorageFailure(gate.error)); }
      var decision := DecideIngress(DeriveRoutingMode(health, gate.value, pending), pending, flow.defaultTier);
      if flow.pauseLive {
        gate := replay.IsGateClosed(now);
        if gate.Err? { return Err(StorageFailure(gate.error)); }
        var hold := gate.value;
        if !hold {
          var confirmation := ShouldHoldLiveFlow(now);
          if confirmation.Err? { return Err(StorageFailure(confirmation.error)); }
          hold := confirmation.value;
        }
        if hold { decision := decision.(action := BufferOnly); }
      }
      if flow.conservative && !startupHealthReady { decision := decision.(action := BufferOnly); }
      throttleTier := decision.tier;
      r := Ok(decision);
    }

    /** One append, as a step of the protocol; a refused one is no step. */
    method Append(a: Ingress, reading: Option<nat>, now: int)
      returns (r: Result<nat, RuntimeError>, ghost steps: seq<Step>)
      requires Valid() && replay.clock <= now
      modifies replay`clock, reservoir
      ensures Valid() && IsRun(policy, old(View()), steps, View()) && Faults() >= old(Faults())
      ensures reservoir.closed == old(reservoir.closed)
      ensures steps == [if r.Ok? then Step.Append(a, now) else Fault(View().drift)]
      ensures View() == Next(policy, old(View()), steps[0]) && (r.Ok? ==> r.value == old(View()).nextId)
      ensures r.Err? ==> r.error.StorageFailure?
    {
      ghost var before := View();
      var appended := reservoir.AppendEvent(a, reading, now);
      if appended.Err? {
        r := Err(StorageFailure(appended.error));
        steps := FailedCall(policy, before, View());
      } else {
        replay.clock := now;
        r := Ok(appended.value);
        steps := DoneAppend(policy, before, View(), a, now);
      }
    }

    /** Takes in a transport event: a paused route refuses it, every other persists it before anything else happens. */
    method IngestTransportEvent(payload: string, ingestedAt: Option<int>, reading: Option<nat>, now: int)
      returns (r: Result<(nat, Decision), RuntimeError>, ghost steps: seq<Step>)
      requires Valid() && replay.clock <= now
      modifies this`throttleTier, replay`clock, reservoir
      ensures Valid() && IsRun(policy, old(View()), steps, View()) && reservoir.closed == old(reservoir.closed)
      ensures r.Ok? ==>
                var decision := IngressDecision(flow, health, replay.session, CurrentFlags(), old(View()).rows,
                                                 Counter(old(View())));
                var ingress := TransportIngress(payload, ingestedAt, decision, FullOutageActive(health));
                var step := Step.Append(ingress, now);
                && r.value == (old(View()).nextId, decision) && !decision.action.Pause?
                && steps == [step] && View() == Next(policy, old(View()), step)
      ensures r.Err? ==> steps == [Fault(View().drift)] && View() == Next(policy, old(View()), steps[0])
      ensures r.Err? && r.error.AdmissionRefused? ==> View() == old(View())
    {
      steps := [Fault(reservoir.Drift())];
      RunsOnce(policy, View(), steps[0]);
      if closed { return Err(ClosedRuntime), steps; }
      var decision := GetIngressDecision(now);
      if decision.Err? { return Err(decision.error), steps; }
      if decision.value.action.Pause? { return Err(AdmissionRefused(decision.value)), steps; }
      var row;
      var ingress := TransportIngress(payload, ingestedAt, decision.value, FullOutageActive(health));
      row, steps := Append(ingress, reading, now);
      r := if row.Err? then Err(row.error) else Ok((row.value, decision.value));
    }

    method ObserveDedupeEvent(payload: string, ingestedAt: Option<int>, reading: Option<nat>, now: int)
      returns (r: Result<nat, RuntimeError>, ghost steps: seq<Step>)
      requires Valid() && replay.clock <= now
      modifies replay`clock, reservoir
      ensures Valid() && IsRun(policy, old(View()), steps, View()) && reservoir.closed == old(reservoir.closed)
      ensures r.Ok? ==>
                && r.value == old(View()).nextId && steps == [Step.Append(ObservationIngress(payload, ingestedAt), now)]
                && View() == Next(policy, old(View()), steps[0])
      ensures r.Err? ==> steps == [Fault(View().drift)] && View() == Next(policy, old(View()), steps[0])
    {
      if closed {
        RunsOnce(policy, View(), Fault(reservoir.Drift()));
        return Err(ClosedRuntime), [Fault(reservoir.Drift())];
      }
      r, steps := Append(ObservationIngress(payload, ingestedAt), reading, now);
    }

    method AcknowledgeIngressDelivery(ids: seq<nat>, now: int)
      returns (r: Result<nat, RuntimeError>, ghost steps: seq<Step>)
      requires Valid() && replay.clock <= now
      modifies replay`clock, reservoir`db, reservoir`pendingRowCount, reservoir`issued, reservoir`raised
      ensures Valid() && IsRun(policy, old(View()), steps, View())
      ensures steps == [if r.Ok? then Deliver(Unique(ids), now) else Fault(View().drift)]
      ensures View() == Next(policy, old(View()), steps[0])
      ensures r.Ok? ==> r.value == |Ids(old(View()).rows) * Unique(ids)|
    {
      if closed {
        RunsOnce(policy, View(), Fault(reservoir.Drift()));
        return Err(ClosedRuntime), [Fault(reservoir.Drift())];
      }
      var marked := reservoir.MarkDelivered(ids, now);
      if marked.Err? {
        RunsOnce(policy, old(View()), Fault(reservoir.Drift()));
        return Err(StorageFailure(marked.error)), [Fault(reservoir.Drift())];
      }
      replay.clock := now;
      RunsOnce(policy, old(View()), Deliver(Unique(ids), now));
      r, steps := Ok(marked.value.changes), [Deliver(Unique(ids), now)];
    }

    // ------------------------------------------------------------ health

    method RecordStartupEvidence(component: Component, state: HealthState)
      modifies this`startupHealthEvidence, this`startupHealthReady
      ensures CurrentPanel() == WithEvidence(flow, old(CurrentPanel()), component, state)
    {
      if !flow.conservative { return; }
      if state.Online? { startupHealthEvidence := startupHealthEvidence + {component}; }
      if |startupHealthEvidence| == 3 { startupHealthReady := true; }
    }

    method ReconcileReplayQueue(now: int) returns (r: Result<(), RuntimeError>)
      requires Valid()
      modifies this`recoveryReplayNeeded, reservoir`issued, reservoir`raised
      ensures Valid() && View() == old(View()) && Faults() >= old(Faults())
      ensures r.Ok? ==> CurrentPanel() == Reconciled(old(CurrentPanel()), replay.session, Counter(View()))
      ensures r.Err? ==> CurrentPanel() == old(CurrentPanel())
    {
      if closed { return Err(ClosedRuntime); }
      var stats := reservoir.GetStats(now, now);
      if stats.Err? { return Err(StorageFailure(stats.error)); }
      if TargetsHealthy(health) && replay.session.state.Idle? {
        stats := reservoir.GetStats(now, now);
        if stats.Err? { return Err(StorageFailure(stats.error)); }
        if stats.value.totalPending == 0 { recoveryReplayNeeded := false; }
      }
      r := Ok(());
    }

    /** The part of a health update that only concerns the panel. */
    method TakeHealth(component: Component, state: HealthState, now: int) returns (r: Result<(), RuntimeError>)
      requires Valid() && !closed
      modifies this`health, this`throttleTier, this`observedRecoveryTransition, this`recoveryReplayNeeded,
               this`startupHealthEvidence, this`startupHealthReady, reservoir`issued, reservoir`raised
      ensures Valid() && View() == old(View()) && Faults() >= old(Faults())
      ensures r.Ok? ==>
                CurrentPanel() == HealthUpdated(flow, old(CurrentPanel()), component, state, Counter(View()))
      ensures r.Err? ==> CurrentPanel() == HeartbeatObserved(flow, old(CurrentPanel()), component, state)
    {
      var previous := StateOf(health, component);
      health := WithState(health, component, state);
      RecordStartupEvidence(component, state);
      var recorded := reservoir.RecordLogEntry();
      if recorded.Err? { return Err(StorageFailure(recorded.error)); }
      if !component.Transport? && previous != state { observedRecoveryTransition := true; }
      if component.Dedupe? && state.Offline? { throttleTier := Slow; }
      if component.CausalOrder? && state.Offline? { throttleTier := Paused; }
      if !component.Transport? && state.Offline? { recoveryReplayNeeded := true; }
      if component.Transport? && state.Offline? {
        var stats := reservoir.GetStats(now, now);
        if stats.Err? { return Err(StorageFailure(stats.error)); }
        if stats.value.totalPending == 0 { throttleTier := Paused; }
      }
      if health.transport.Online? && health.dedupe.Online? && health.order.Online? { throttleTier := flow.defaultTier; }
      r := Ok(());
    }

    /** The part of a health observation that concerns the replay: the heartbeat, then the recovery flag. */
    method NotifyReplay(component: Component, state: HealthState, now: int)
      returns (r: Result<(), RuntimeError>, ghost steps: seq<Step>)
      requires Valid()
      modifies this`recoveryReplayNeeded, replay`session, replay`clock, reservoir`issued, reservoir`raised
      ensures Valid() && IsRun(policy, old(View()), steps, View()) && (forall s | s in steps :: Confirming(s))
      ensures reservoir.db == old(reservoir.db)
      ensures r.Ok? ==>
                var live := Counter(View());
                var healthy := TargetsHealthy(health);
                && replay.session == O.HeardBy(policy, old(replay.session), component, state, healthy, live)
                && CurrentPanel() == Reconciled(old(CurrentPanel()), replay.session, live)
      ensures r.Err? ==> CurrentPanel() == old(CurrentPanel())
    {
      var heard;
      heard, steps := replay.ObserveRecoveryHeartbeat(component, state, TargetsHealthy(health), now);
      if heard.Err? { return Err(ReplayFailure(heard.error)), steps; }
      r := ReconcileReplayQueue(now);
    }

    method UpdateComponentHealth(component: Component, state: HealthState, now: int)
      returns (r: Result<(), RuntimeError>, ghost steps: seq<Step>)
      requires Valid()
      modifies this`health, this`throttleTier, this`observedRecoveryTransition, this`recoveryReplayNeeded,
               this`startupHealthEvidence, this`startupHealthReady,
               replay`session, replay`clock, reservoir`issued, reservoir`raised
      ensures Valid() && IsRun(policy, old(View()), steps, View()) && (forall s | s in steps :: Confirming(s))
      ensures reservoir.db == old(reservoir.db)
      ensures r.Ok? ==>
                var live := Counter(View());
                var updated := HealthUpdated(flow, old(CurrentPanel()), component, state, live);
                var healthy := TargetsHealthy(updated.health);
                && replay.session == O.HeardBy(policy, old(replay.session), component, state, healthy, live)
                && CurrentPanel() == Reconciled(updated, replay.session, live)
      ensures if closed then r == Err(ClosedRuntime) && CurrentPanel() == old(CurrentPanel())
              else IsUpdate(flow, old(CurrentPanel()), component, state, CurrentPanel())
    {
      steps := [];
      if closed { return Err(ClosedRuntime), steps; }
      ghost var before, live := CurrentPanel(), Counter(View());
      r := TakeHealth(component, state, now);
      ghost var reach := if r.Ok? then Taken else Noted;
      if r.Ok? {
        r, steps := NotifyReplay(component, state, now);
        reach := if r.Ok? then Reconciling else Taken;
      }
      assert CurrentPanel() == PanelAfter(flow, before, Update(component, state, reach, replay.session, live));
    }

    /** A heartbeat; the health tracker says which state it leaves the component in. */
    method ObserveHeartbeat(component: Component, state: HealthState, now: int)
      returns (r: Result<(), RuntimeError>, ghost steps: seq<Step>)
      requires Valid()
      modifies this`health, this`recoveryReplayNeeded, this`startupHealthEvidence, this`startupHealthReady,
               replay`session, replay`clock, reservoir`issued, reservoir`raised
      ensures Valid() && IsRun(policy, old(View()), steps, View()) && (forall s | s in steps :: Confirming(s))
      ensures reservoir.db == old(reservoir.db)
      ensures r.Ok? ==>
                var live := Counter(View());
                var observed := HeartbeatObserved(flow, old(CurrentPanel()), component, state);
                var healthy := TargetsHealthy(observed.health);
                && replay.session == O.HeardBy(policy, old(replay.session), component, state, healthy, live)
                && CurrentPanel() == Reconciled(observed, replay.session, live)
      ensures if closed then r == Err(ClosedRuntime) && CurrentPanel() == old(CurrentPanel())
              else IsHeartbeat(flow, old(CurrentPanel()), component, state, CurrentPanel())
    {
      steps := [];
      if closed { return Err(ClosedRuntime), steps; }
      ghost var before, live := CurrentPanel(), Counter(View());
      var previous := StateOf(health, component);
      health := WithState(health, component, state);
      RecordStartupEvidence(component, state);
      r := Ok(());
      if previous != state {
        var recorded := reservoir.RecordLogEntry();
        r := if recorded.Err? then Err(StorageFailure(recorded.error)) else Ok(());
      }
      if r.Ok? {
        r, steps := NotifyReplay(component, state, now);
      }
      ghost var reach := if r.Ok? then Reconciling else Noted;
      assert CurrentPanel() == PanelAfter(flow, before, Heartbeat(component, state, reach, replay.session, live));
    }

    // ------------------------------------------------------------ replay, by its owner

    method AssertReplayOwnership(owner: Owner) returns (r: Result<(), RuntimeError>)
      modifies this`replayOwner
      ensures r.Ok? <==> old(replayOwner) == None || old(replayOwner) == Some(owner)
      ensures r.Ok? ==> replayOwner == Some(owner)
      ensures r.Err? ==> replayOwner == old(replayOwner) && r == Err(OwnedBy(replayOwner.value))
    {
      if replayOwner == None {
        replayOwner := Some(owner);
        return Ok(());
      }
      r := if replayOwner == Some(owner) then Ok(()) else Err(OwnedBy(replayOwner.value));
    }

    /** What keeps a caller from the replay commands: a closed runtime, or another owner. */
    function Barrier(owner: Owner): Option<RuntimeError>
      reads this
    {
      if closed then Some(ClosedRuntime)
      else if replayOwner.Some? && replayOwner.value != owner then Some(OwnedBy(replayOwner.value))
      else None
    }

    /** Neither the core nor the owner has changed. */
    twostate predicate Untouched()
      reads this, replay, replay.reservoir
    {
      View() == old(View()) && replayOwner == old(replayOwner)
    }

    method Enter(owner: Owner) returns (r: Result<(), RuntimeError>)
      modifies this`replayOwner
      ensures old(Barrier(owner)) == if r.Ok? then None else Some(r.error)
      ensures replayOwner == if r.Ok? then Some(owner) else old(replayOwner)
    {
      if closed { return Err(ClosedRuntime); }
      r := AssertReplayOwnership(owner);
    }

    method QueueReplay(owner: Owner, now: int) returns (r: Result<Session, RuntimeError>, ghost steps: seq<Step>)
      requires Valid() && replay.clock <= now
      modifies this`replayOwner, replay`session, replay`clock, reservoir`issued, reservoir`raised
      ensures Valid() && IsRun(policy, old(View()), steps, View())
      ensures old(Barrier(owner)).Some? ==>
                r == Err(old(Barrier(owner)).value) && steps == [] && Untouched()
      ensures old(Barrier(owner)).None? ==> replayOwner == Some(owner) && (r.Err? ==> !Bars(r.error))
      ensures steps == if r.Ok? then [QueueSession(now)] else []
      ensures r.Ok? ==> View() == Next(policy, old(View()), QueueSession(now)) && r.value == replay.session
      ensures r.Err? ==> View() == old(View())
    {
      steps := [];
      var entered := Enter(owner);
      if entered.Err? { return Err(entered.error), steps; }
      var queued;
      queued, steps := replay.QueueIfNeeded(now);
      r := if queued.Err? then Err(ReplayFailure(queued.error)) else Ok(queued.value);
    }

    /** Manual control only: an adapter-managed runtime never starts a session this way. */
    method StartReplay(queue: int, start: int) returns (r: Result<Session, RuntimeError>, ghost steps: seq<Step>)
      requires Valid() && replay.clock <= queue <= start
      modifies this`replayOwner, replay`session, replay`clock, reservoir`issued, reservoir`raised
      ensures Valid() && IsRun(policy, old(View()), steps, View())
      ensures old(Barrier(Manual)).Some? ==>
                r == Err(old(Barrier(Manual)).value) && steps == [] && Untouched()
      ensures old(Barrier(Manual)).None? ==> replayOwner == Some(Manual) && (r.Err? ==> !Bars(r.error))
      ensures r.Ok? ==> TargetsHealthy(health)
      ensures r.Ok? ==>
                View() == Next(policy, Next(policy, old(View()), QueueSession(queue)), StartSession(start, true))
    {
      steps := [];
      var entered := Enter(Manual);
      if entered.Err? { return Err(entered.error), steps; }
      if !TargetsHealthy(health) { return Err(TargetsUnhealthy), steps; }
      var queued; var started; ghost var more;
      queued, steps := replay.QueueIfNeeded(queue);
      if queued.Err? { return Err(ReplayFailure(queued.error)), steps; }
      ghost var mid := View();
      started, more := replay.Start(start, true);
      RunsThen(policy, old(View()), steps, mid, more, View());
      steps := steps + more;
      r := if started.Err? then Err(ReplayFailure(started.error)) else Ok(started.value);
    }

    /** A claim by the owner: only with healthy targets, and after queueing what needs it. */
    method ClaimReplayBatch(owner: Owner, limit: int, t: Times)
      returns (r: Result<Batch, RuntimeError>, ghost steps: seq<Step>)
      requires Valid() && InOrder(t) && replay.clock <= t.queue
      modifies this`replayOwner, replay`session, replay`clock,
               reservoir`db, reservoir`pendingRowCount, reservoir`issued, reservoir`raised
      ensures Valid() && IsRun(policy, old(View()), steps, View()) && (forall s | s in steps :: Claiming(s))
      ensures old(Barrier(owner)).Some? ==>
                r == Err(old(Barrier(owner)).value) && steps == [] && Untouched()
      ensures old(Barrier(owner)).None? ==> replayOwner == Some(owner) && (r.Err? ==> !Bars(r.error))
      ensures r.Ok? ==> TargetsHealthy(health)
      ensures r.Ok? ==>
                var queued := Next(policy, old(View()), QueueSession(t.queue));
                var result := O.ClaimNextBatch(policy, queued, limit, t);
                && View() == result.core && !result.thrown
                && r.value == Batch(replay.session, result.entries, result.drained)
      ensures r.Ok? ==> steps == QueuedClaimSteps(policy, old(View()), limit, t)
    {
      steps := [];
      var entered := Enter(owner);
      if entered.Err? { return Err(entered.error), steps; }
      r, steps := ClaimReplayBatchInternal(limit, t);
    }

    /** Queues what needs it, then claims. */
    method QueueAndClaim(limit: int, t: Times) returns (r: Result<Batch, ReplayError>, ghost steps: seq<Step>)
      requires Valid() && InOrder(t) && replay.clock <= t.queue
      modifies replay`session, replay`clock,
               reservoir`db, reservoir`pendingRowCount, reservoir`issued, reservoir`raised
      ensures Valid() && IsRun(policy, old(View()), steps, View()) && (forall s | s in steps :: Claiming(s))
      ensures r.Ok? ==>
                var queued := Next(policy, old(View()), QueueSession(t.queue));
                var result := O.ClaimNextBatch(policy, queued, limit, t);
                && View() == result.core && !result.thrown
                && r.value == Batch(replay.session, result.entries, result.drained)
      ensures r.Ok? ==> steps == QueuedClaimSteps(policy, old(View()), limit, t)
    {
      var queued; ghost var more;
      queued, steps := replay.QueueIfNeeded(t.queue);
      if queued.Err? { return Err(queued.error), steps; }
      r, more := replay.ClaimNextBatch(limit, t);
      QueuedRuns(policy, old(View()), t.queue, more, View());
      steps := [QueueSession(t.queue)] + more;
    }

    method ClaimReplayBatchInternal(limit: int, t: Times)
      returns (r: Result<Batch, RuntimeError>, ghost steps: seq<Step>)
      requires Valid() && InOrder(t) && replay.clock <= t.queue
      modifies replay`session, replay`clock,
               reservoir`db, reservoir`pendingRowCount, reservoir`issued, reservoir`raised
      ensures Valid() && IsRun(policy, old(View()), steps, View()) && (forall s | s in steps :: Claiming(s))
      ensures r.Err? ==> !Bars(r.error)
      ensures r.Ok? ==> TargetsHealthy(health)
      ensures r.Ok? ==>
                var queued := Next(policy, old(View()), QueueSession(t.queue));
                var result := O.ClaimNextBatch(policy, queued, limit, t);
                && View() == result.core && !result.thrown
                && r.value == Batch(replay.session, result.entries, result.drained)
      ensures r.Ok? ==> steps == QueuedClaimSteps(policy, old(View()), limit, t)
    {
      steps := [];
      if !TargetsHealthy(health) { return Err(TargetsUnhealthy), steps; }
      var claimed;
      claimed, steps := QueueAndClaim(limit, t);
      r := if claimed.Err? then Err(ReplayFailure(claimed.error)) else Ok(claimed.value);
    }

    method AcknowledgeReplayBatch(owner: Owner, ids: seq<nat>, now: int, finish: int)
      returns (r: Result<Session, RuntimeError>, ghost steps: seq<Step>)
      requires Valid() && replay.clock <= now <= finish
      modifies this`replayOwner, replay`session, replay`clock,
               reservoir`db, reservoir`pendingRowCount, reservoir`issued, reservoir`raised
      ensures Valid() && IsRun(policy, old(View()), steps, View())
      ensures old(Barrier(owner)).Some? ==>
                r == Err(old(Barrier(owner)).value) && steps == [] && Untouched()
      ensures old(Barrier(owner)).None? ==> replayOwner == Some(owner) && (r.Err? ==> !Bars(r.error))
      ensures (forall s | s in steps :: Acknowledging(s, Unique(ids))) && replay.clock <= finish
      ensures r.Ok? ==> View() == O.AcknowledgeBatch(policy, old(View()), ids, now, finish) && r.value == replay.session
      ensures r.Ok? ==> steps == AcknowledgeSteps(policy, old(View()), ids, now, finish)
    {
      steps := [];
      var entered := Enter(owner);
      if entered.Err? { return Err(entered.error), steps; }
      var acknowledged;
      acknowledged, steps := replay.AcknowledgeBatch(ids, now, finish);
      r := if acknowledged.Err? then Err(ReplayFailure(acknowledged.error)) else Ok(acknowledged.value);
    }

    method FailReplay(owner: Owner, error: string, ids: seq<nat>, now: int)
      returns (r: Result<Session, RuntimeError>, ghost steps: seq<Step>, ghost reset: Step)
      requires Valid() && replay.clock <= now
      modifies this`replayOwner, replay`session, replay`clock,
               reservoir`db, reservoir`pendingRowCount, reservoir`issued, reservoir`raised
      ensures Valid() && IsRun(policy, old(View()), steps, View())
      ensures old(Barrier(owner)).Some? ==>
                r == Err(old(Barrier(owner)).value) && steps == [] && Untouched()
      ensures old(Barrier(owner)).None? ==> replayOwner == Some(owner) && (r.Err? ==> !Bars(r.error))
      ensures forall s | s in steps :: Failing(policy, s, Unique(ids))
      ensures reset == PutBack(Unique(ids), Some(now + policy.backoff), now)
      ensures r.Ok? ==> steps == [reset, FailSession(error, now)]
      ensures r.Ok? ==> View() == Next(policy, Next(policy, old(View()), reset), FailSession(error, now))
      ensures r.Ok? ==> r.value == replay.session
    {
      steps, reset := [], PutBack(Unique(ids), Some(now + policy.backoff), now);
      var entered := Enter(owner);
      if entered.Err? { return Err(entered.error), steps, reset; }
      var failed;
      failed, steps, reset := replay.Fail(error, ids, now);
      r := if failed.Err? then Err(ReplayFailure(failed.error)) else Ok(failed.value);
    }

    method AbortReplay(owner: Owner, reason: string, ids: seq<nat>, now: int, end: int)
      returns (r: Result<Session, RuntimeError>, ghost steps: seq<Step>)
      requires Valid() && replay.clock <= now <= end
      modifies this`replayOwner, replay`session, replay`clock,
               reservoir`db, reservoir`pendingRowCount, reservoir`issued, reservoir`raised
      ensures Valid() && IsRun(policy, old(View()), steps, View())
      ensures old(Barrier(owner)).Some? ==>
                r == Err(old(Barrier(owner)).value) && steps == [] && Untouched()
      ensures old(Barrier(owner)).None? ==> replayOwner == Some(owner) && (r.Err? ==> !Bars(r.error))
      ensures r.Ok? ==> View() == Next(policy, Next(policy, old(View()), PutBack(Unique(ids), None, now)),
                                       AbortSession(reason, end))
    {
      steps := [];
      var entered := Enter(owner);
      if entered.Err? { return Err(entered.error), steps; }
      var aborted;
      aborted, steps := replay.Abort(reason, ids, now, end);
      r := if aborted.Err? then Err(ReplayFailure(aborted.error)) else Ok(aborted.value);
    }

    // ------------------------------------------------------------ retention

    /** Reclaims stale claims, then prunes; each part commits on its own. */
    method PruneReservoir(reclaim: int, now: int, stamp: int)
      returns (r: Result<PruneResult, RuntimeError>, ghost steps: seq<Step>)
      requires Valid() && replay.clock <= reclaim <= now <= stamp
      modifies replay`clock, reservoir`db, reservoir`pendingRowCount, reservoir`issued, reservoir`raised
      ensures Valid() && IsRun(policy, old(View()), steps, View())
      ensures forall s | s in steps :: s.Reclaim? || s.MarkDead? || s.Purge? || s.Fault?
      ensures closed ==> r == Err(ClosedRuntime) && View() == old(View())
      ensures r.Ok? ==>
                var rows := Reclaimed(policy.store, old(View()).rows, policy.backoff, reclaim);
                && View().rows == Pruned(policy.store, rows, FullOutageActive(health), now, stamp)
                && r.value == PruneCounts(policy.store, rows, FullOutageActive(health), now, stamp)
                && View().drift == old(View()).drift && View().session == old(View()).session
    {
      steps := [];
      if closed { return Err(ClosedRuntime), steps; }
      var swept; ghost var more;
      swept, steps := Sweep(reclaim);
      if swept.Err? { return Err(swept.error), steps; }
      ghost var mid := View();
      r, more := Prune(FullOutageActive(health), now, stamp);
      RunsThen(policy, old(View()), steps, mid, more, View());
      steps := steps + more;
    }

    method Sweep(now: int) returns (r: Result<nat, RuntimeError>, ghost steps: seq<Step>)
      requires Valid() && replay.clock <= now
      modifies replay`clock, reservoir`db, reservoir`pendingRowCount, reservoir`issued, reservoir`raised
      ensures Valid() && IsRun(policy, old(View()), steps, View())
      ensures (forall s | s in steps :: s.Reclaim? || s.Fault?) && replay.clock == now
      ensures r.Ok? ==> View().rows == Reclaimed(policy.store, old(View()).rows, policy.backoff, now)
      ensures r.Ok? ==> View().drift == old(View()).drift && View().session == old(View()).session
    {
      var reclaimed; ghost var moved;
      reclaimed, moved := reservoir.ReclaimStaleReplayRows(policy.backoff, now);
      replay.clock := now;
      ghost var swept := Next(policy, old(View()), Reclaim(moved, now));
      steps := [Reclaim(moved, now)];
      RunsOnce(policy, old(View()), Reclaim(moved, now));
      if reclaimed.Err? {
        RunsOnce(policy, swept, Fault(reservoir.Drift()));
        RunsThen(policy, old(View()), steps, swept, [Fault(reservoir.Drift())], View());
        return Err(StorageFailure(reclaimed.error)), steps + [Fault(reservoir.Drift())];
      }
      r := Ok(reclaimed.value);
    }

    method Prune(outage: bool, now: int, stamp: int)
      returns (r: Result<PruneResult, RuntimeError>, ghost steps: seq<Step>)
      requires Valid() && replay.clock <= now <= stamp
      modifies replay`clock, reservoir`db, reservoir`pendingRowCount, reservoir`issued, reservoir`raised
      ensures Valid() && IsRun(policy, old(View()), steps, View())
      ensures forall s | s in steps :: s.MarkDead? || s.Purge? || s.Fault?
      ensures r.Ok? ==>
                && View().rows == Pruned(policy.store, old(View()).rows, outage, now, stamp)
                && r.value == PruneCounts(policy.store, old(View()).rows, outage, now, stamp)
                && View().drift == old(View()).drift && View().session == old(View()).session
    {
      ghost var before := View();
      var pruned := reservoir.PruneExpired(outage, now, stamp);
      if pruned.Err? {
        ghost var end;
        steps, end := PruneStops(policy, before, outage, now, stamp, reservoir.db.rows, reservoir.Drift());
        replay.clock := end;
        return Err(StorageFailure(pruned.error)), steps;
      }
      PruneRuns(policy, before, outage, now, stamp);
      steps := [MarkDead(outage, now, stamp), Purge(now)];
      replay.clock := stamp;
      r := Ok(pruned.value);
    }

    method Close()
      requires Valid()
      modifies this`closed, reservoir`closed
      ensures Valid() && closed && View() == old(View())
    {
      if closed { return; }
      reservoir.Close();
      closed := true;
    }
  }
}
