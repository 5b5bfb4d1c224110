/**
 The replay protocol as a machine. One step is one atomic commit: a transaction on the rows or a committed session
 snapshot; or it is a transaction that has failed, of which nothing is left but perhaps a wrong counter. Every public
 operation, complete or cut short by a storage fault, is a sequence of these steps, and so is any interleaving of
 ingress, pruning, reclaim, health updates, replay and restarts.
 */
module Protocol {
  import opened Counters
  import opened Options
  import opened Rows
  import opened Ordering
  import opened Admission
  import opened Store
  import opened Session

  datatype Policy = Policy(store: Config, backoff: int, required: nat)

  /**
   `clock` is the latest reading any step has used. `drift` is how far the in-memory counter of pending rows is from the
   number of live rows: zero unless a transaction has failed and the counter could not be read back.
   */
  datatype Core = Core(rows: seq<Row>, nextId: nat, session: Session, clock: int, drift: int)

  datatype Step =
    | Append(ingress: Ingress, now: int)
    | Deliver(ids: set<nat>, now: int)
    | PutBack(ids: set<nat>, retry: Option<int>, now: int)
    | Reclaim(ids: set<nat>, now: int)
    | Claim(limit: int, now: int, stamp: int)
    | MarkDead(outage: bool, now: int, stamp: int)
    | Purge(now: int)
    | QueueSession(now: int)
    | StartSession(now: int, manual: bool)
    | TallySession(delivered: nat)
    | FinishSession(now: int)
    | FailSession(error: string, now: int)
    | AbortSession(reason: string, now: int)
    | HeartbeatSession(component: Component, state: HealthState, allHealthy: bool)
    | ConfirmSession
    | Restart(now: int)
    | Fault(drift: int)

  /** What the session code takes for the number of pending rows. */
  function Counter(c: Core): int {
    LiveCount(c.rows) + c.drift
  }

  function UsageOf(rows: seq<Row>): Usage {
    Usage(Sum(LiveRows, rows), Sum(LiveBytes, rows))
  }

  /**
   First and last clock reading of a step; steps that read no clock leave it where it is. A purge may work with the
   reading its prune began with, which can lie before the latest one.
   */
  function FirstReading(c: Core, s: Step): int {
    if s.TallySession? || s.HeartbeatSession? || s.ConfirmSession? || s.Purge? || s.Fault? then c.clock else s.now
  }

  function LastReading(c: Core, s: Step): int {
    match s
    case Claim(_, _, stamp) => stamp
    case MarkDead(_, _, stamp) => stamp
    case Purge(now) => Max(c.clock, now)
    case _ => FirstReading(c, s)
  }

  /** The guard under which the code takes a step, and a clock that never runs backwards. */
  predicate Enabled(p: Policy, c: Core, s: Step) {
    && c.clock <= FirstReading(c, s) <= LastReading(c, s)
    && match s
       case Append(a, now) =>
         LogicalVerdict(p.store.capacity, UsageOf(c.rows), Live(InitialState(a)), Utf8Length(a.payload)).None?
       case Reclaim(ids, now) => ids <= StaleIds(p.store, c.rows, p.backoff, now)
       case Claim(limit, now, stamp) => c.session.state.Running?
       case StartSession(now, manual) =>
         CanStart(c.session, Counter(c)) && (manual || c.session.state.Queued?)
       case FinishSession(now) => c.session.state.Running? && Counter(c) == 0
       case ConfirmSession => c.session.state.Completed? && Confirmed(c.session) && Counter(c) == 0
       case _ => true
  }

  function NextRows(p: Policy, c: Core, s: Step): seq<Row> {
    match s
    case Append(a, now) => c.rows + [NewRow(p.store, c.nextId, a, now)]
    case Deliver(ids, now) => Update(c.rows, ids, MoveTo(Delivered, None, now))
    case PutBack(ids, retry, now) => Update(c.rows, ids, MoveTo(Pending, retry, now))
    case Reclaim(ids, now) => Update(c.rows, ids, MoveTo(Pending, None, now))
    case Claim(limit, now, stamp) => Claimed(c.rows, limit, now, stamp, ReplayThroughDedupe)
    case MarkDead(outage, now, stamp) => DeadLettered(p.store, c.rows, outage, now, stamp)
    case Purge(now) => Purged(p.store, c.rows, now)
    case Restart(now) => Recovered(c.rows)
    case _ => c.rows
  }

  function RebuiltSession(p: Policy, rows: seq<Row>, now: int): Session {
    RestartSession(p.required, LiveCount(rows), Sum(Matching(Waiting(now)), rows), EarliestRetry(rows, now),
                   MaxAttempts(rows))
  }

  function NextSession(p: Policy, c: Core, s: Step): Session {
    var live := Counter(c);
    match s
    case QueueSession(now) => QueueIfNeeded(c.session, live, now, p.required)
    case StartSession(now, _) => Start(c.session, live, now, p.required)
    case TallySession(delivered) => Tally(c.session, delivered, live)
    case FinishSession(now) => Complete(c.session, now)
    case FailSession(error, now) => Fail(c.session, error, now, p.backoff)
    case AbortSession(reason, now) => Abort(c.session, reason, now)
    case HeartbeatSession(component, state, allHealthy) =>
      CountHeartbeat(c.session, component, state, allHealthy, p.required)
    case ConfirmSession => IdleSession(p.required)
    case Restart(now) => RebuiltSession(p, Recovered(c.rows), now)
    case _ => c.session
  }

  /** A committed transaction moves counter and rows together; a new process reads the counter from the totals. */
  function NextDrift(c: Core, s: Step): int {
    match s
    case Fault(drift) => drift
    case Restart(_) => 0
    case _ => c.drift
  }

  function Next(p: Policy, c: Core, s: Step): Core {
    Core(NextRows(p, c, s), if s.Append? then c.nextId + 1 else c.nextId, NextSession(p, c, s), LastReading(c, s),
         NextDrift(c, s))
  }

  /** What an adapter-owned process without abort can do: no manual start, no abort, no restart. */
  predicate AdapterOwned(s: Step) {
    !s.AbortSession? && !s.Restart? && !(s.StartSession? && s.manual)
  }

  /** The steps a claim is made of, those of an acknowledgement and of a failure of some rows, and of a heartbeat. */
  predicate Claiming(s: Step) {
    s.QueueSession? || (s.StartSession? && !s.manual) || s.Reclaim? || s.Claim? || s.FinishSession? || s.Fault?
  }

  predicate Acknowledging(s: Step, ids: set<nat>) {
    (s.Deliver? && s.ids == ids) || s.TallySession? || s.FinishSession? || s.Fault?
  }

  predicate Failing(p: Policy, s: Step, ids: set<nat>) {
    (s.PutBack? && s.ids == ids && s.retry == Some(s.now + p.backoff)) || s.FailSession? || s.Fault?
  }

  predicate Confirming(s: Step) {
    s.HeartbeatSession? || s.ConfirmSession?
  }

  // ---------------------------------------------------------------- runs

  function Exec(p: Policy, c: Core, steps: seq<Step>): Core {
    if |steps| == 0 then c else Next(p, Exec(p, c, steps[..|steps| - 1]), steps[|steps| - 1])
  }

  /** A run: every step is enabled where it is taken. */
  predicate Allowed(p: Policy, c: Core, steps: seq<Step>) {
    |steps| == 0 ||
    (Allowed(p, c, steps[..|steps| - 1]) && Enabled(p, Exec(p, c, steps[..|steps| - 1]), steps[|steps| - 1]))
  }

  /** `steps` is a run of the protocol from `c` to `end`. */
  ghost predicate IsRun(p: Policy, c: Core, steps: seq<Step>, end: Core) {
    Allowed(p, c, steps) && Exec(p, c, steps) == end
  }

  lemma RunsOnce(p: Policy, c: Core, s: Step)
    requires Enabled(p, c, s)
    ensures IsRun(p, c, [s], Next(p, c, s))
  {
    assert [s][..0] == [];
  }

  lemma {:induction false} RunsThen(p: Policy, c: Core, first: seq<Step>, mid: Core, second: seq<Step>, end: Core)
    requires IsRun(p, c, first, mid) && IsRun(p, mid, second, end)
    ensures IsRun(p, c, first + second, end)
  {
    if |second| == 0 {
      assert first + second == first;
    } else {
      var front, last := second[..|second| - 1], second[|second| - 1];
      RunsThen(p, c, first, mid, front, Exec(p, mid, front));
      assert (first + second)[..|first + second| - 1] == first + front;
    }
  }

  predicate WellFormed(p: Policy, c: Core) {
    WellKeyed(c.rows, c.nextId) && c.session.required == p.required
  }

  lemma StepKeepsKeys(p: Policy, c: Core, s: Step)
    requires WellKeyed(c.rows, c.nextId)
    ensures WellKeyed(NextRows(p, c, s), Next(p, c, s).nextId)
  {
    match s
    case Append(a, now) => assert (c.rows + [NewRow(p.store, c.nextId, a, now)])[..|c.rows|] == c.rows;
    case Deliver(ids, now) => UpdateKeepsKeys(c.rows, c.nextId, ids, MoveTo(Delivered, None, now));
    case PutBack(ids, retry, now) => UpdateKeepsKeys(c.rows, c.nextId, ids, MoveTo(Pending, retry, now));
    case Reclaim(ids, now) => UpdateKeepsKeys(c.rows, c.nextId, ids, MoveTo(Pending, None, now));
    case Claim(limit, now, stamp) =>
      UpdateKeepsKeys(c.rows, c.nextId, ClaimIds(c.rows, limit, now), ClaimFor(stamp, ReplayThroughDedupe));
    case MarkDead(outage, now, stamp) =>
      UpdateKeepsKeys(c.rows, c.nextId, ExpiredBatch(p.store, c.rows, outage, now), MoveTo(DeadLetter, None, stamp));
    case Purge(now) => RemoveKeepsKeys(c.rows, c.nextId, DeletableBatch(p.store, c.rows, now));
    case Restart(now) => UpdateKeepsKeys(c.rows, c.nextId, IdsWhere(c.rows, InStates({Replaying})), Recover);
    case _ =>
  }

  lemma StepKeepsForm(p: Policy, c: Core, s: Step)
    requires WellFormed(p, c)
    ensures WellFormed(p, Next(p, c, s))
  {
    StepKeepsKeys(p, c, s);
  }

  lemma {:induction false} RunKeepsForm(p: Policy, c: Core, steps: seq<Step>)
    requires WellFormed(p, c)
    ensures WellFormed(p, Exec(p, c, steps))
  {
    if |steps| > 0 {
      var front := steps[..|steps| - 1];
      RunKeepsForm(p, c, front);
      StepKeepsForm(p, Exec(p, c, front), steps[|steps| - 1]);
    }
  }

  lemma {:induction false} ClockAdvances(p: Policy, c: Core, steps: seq<Step>)
    requires Allowed(p, c, steps)
    ensures c.clock <= Exec(p, c, steps).clock
  {
    if |steps| > 0 {
      ClockAdvances(p, c, steps[..|steps| - 1]);
    }
  }

  lemma {:induction false} NextIdGrows(p: Policy, c: Core, steps: seq<Step>)
    ensures c.nextId <= Exec(p, c, steps).nextId
  {
    if |steps| > 0 {
      NextIdGrows(p, c, steps[..|steps| - 1]);
    }
  }

  /**
   Every row after a step is either the appended one or an earlier row, untouched or changed in the step's own way;
   this is the only case analysis on steps the row invariants need.
   */
  lemma RowOrigin(p: Policy, c: Core, s: Step, r: Row) returns (from: Option<Row>)
    requires WellFormed(p, c) && Enabled(p, c, s) && r in NextRows(p, c, s)
    ensures from.None? ==> s.Append? && r == NewRow(p.store, c.nextId, s.ingress, s.now)
    ensures from.Some? ==> from.value in c.rows && from.value.id == r.id
    ensures from.Some? && r != from.value ==>
              match s
              case Deliver(ids, now) => r.id in ids && r == Apply(MoveTo(Delivered, None, now), from.value)
              case PutBack(ids, retry, now) => r.id in ids && r == Apply(MoveTo(Pending, retry, now), from.value)
              case Reclaim(ids, now) =>
                r.id in ids && from.value.state.Replaying? && r == Apply(MoveTo(Pending, None, now), from.value)
              case Claim(limit, now, stamp) =>
                Matches(Eligible(now), from.value) && r == Apply(ClaimFor(stamp, ReplayThroughDedupe), from.value)
              case MarkDead(outage, now, stamp) =>
                Matches(ExpiredQuery(p.store, outage, now), from.value) &&
                r == Apply(MoveTo(DeadLetter, None, stamp), from.value)
              case Restart(now) => from.value.state.Replaying? && r == Apply(Recover, from.value)
              case _ => false
  {
    match s
    case Append(a, now) =>
      from := if r in c.rows then Some(r) else None;
    case Deliver(ids, now) =>
      var f := UpdateOrigin(c.rows, ids, MoveTo(Delivered, None, now), r);
      from := Some(f);
    case PutBack(ids, retry, now) =>
      var f := UpdateOrigin(c.rows, ids, MoveTo(Pending, retry, now), r);
      from := Some(f);
    case Reclaim(ids, now) =>
      var f := UpdateOrigin(c.rows, ids, MoveTo(Pending, None, now), r);
      SelectedRowMatches(c.rows, c.nextId, Stale(now - p.backoff), f);
      from := Some(f);
    case Claim(limit, now, stamp) =>
      var f := UpdateOrigin(c.rows, ClaimIds(c.rows, limit, now), ClaimFor(stamp, ReplayThroughDedupe), r);
      BatchIds(Eligible(now), c.rows, c.nextId, limit);
      SelectedRowMatches(c.rows, c.nextId, Eligible(now), f);
      from := Some(f);
    case MarkDead(outage, now, stamp) =>
      var q := ExpiredQuery(p.store, outage, now);
      var f := UpdateOrigin(c.rows, ExpiredBatch(p.store, c.rows, outage, now), MoveTo(DeadLetter, None, stamp), r);
      BatchIds(q, c.rows, c.nextId, p.store.pruneBatch);
      SelectedRowMatches(c.rows, c.nextId, q, f);
      from := Some(f);
    case Purge(now) =>
      RemoveMembers(c.rows, DeletableBatch(p.store, c.rows, now));
      from := Some(r);
    case Restart(now) =>
      var f := UpdateOrigin(c.rows, IdsWhere(c.rows, InStates({Replaying})), Recover, r);
      SelectedRowMatches(c.rows, c.nextId, InStates({Replaying}), f);
      from := Some(f);
    case _ => from := Some(r);
  }

  /** A row leaves the table only by a purge, and then it was delivered or dead-lettered before. */
  lemma RowSurvives(p: Policy, c: Core, s: Step, r: Row)
    requires WellFormed(p, c) && r in c.rows
    ensures r.id in Ids(NextRows(p, c, s)) || (s.Purge? && Matches(DeletableQuery(p.store, s.now), r))
  {
    var rows := NextRows(p, c, s);
    IdsWhereComplete(rows, Everything);
    IdsWhereComplete(c.rows, Everything);
    match s
    case Append(a, now) => assert r in rows;
    case Deliver(ids, now) => UpdateKeepsIds(c.rows, ids, MoveTo(Delivered, None, now));
    case PutBack(ids, retry, now) => UpdateKeepsIds(c.rows, ids, MoveTo(Pending, retry, now));
    case Reclaim(ids, now) => UpdateKeepsIds(c.rows, ids, MoveTo(Pending, None, now));
    case Claim(limit, now, stamp) =>
      UpdateKeepsIds(c.rows, ClaimIds(c.rows, limit, now), ClaimFor(stamp, ReplayThroughDedupe));
    case MarkDead(outage, now, stamp) =>
      UpdateKeepsIds(c.rows, ExpiredBatch(p.store, c.rows, outage, now), MoveTo(DeadLetter, None, stamp));
    case Purge(now) =>
      var q := DeletableQuery(p.store, now);
      BatchIds(q, c.rows, c.nextId, p.store.pruneBatch);
      SelectedRowMatches(c.rows, c.nextId, q, r);
      RemoveMembers(c.rows, DeletableBatch(p.store, c.rows, now));
    case Restart(now) => UpdateKeepsIds(c.rows, IdsWhere(c.rows, InStates({Replaying})), Recover);
    case _ =>
  }
}
