/** What holds over whole runs of the protocol: backoff, deliveries, failures, recovery of a failed batch. */
module Runs {
  import opened Options
  import opened Rows
  import opened Ordering
  import opened Admission
  import opened Store
  import opened Session
  import opened Protocol
  import opened Operations
  import O = Operations

  /** A surviving row, followed through one step. */
  lemma RowImage(p: Policy, c: Core, s: Step, r: Row) returns (after: Row)
    requires WellFormed(p, c) && Enabled(p, c, s) && r in c.rows && !s.Purge?
    ensures after in Next(p, c, s).rows && after.id == r.id && after.ingestAt == r.ingestAt
    ensures after != r ==>
              match s
              case Deliver(ids, now) => r.id in ids && after == Apply(MoveTo(Delivered, None, now), r)
              case PutBack(ids, retry, now) => r.id in ids && after == Apply(MoveTo(Pending, retry, now), r)
              case Reclaim(ids, now) => r.state.Replaying? && after == Apply(MoveTo(Pending, None, now), r)
              case Claim(limit, now, stamp) => after == Apply(ClaimFor(stamp, ReplayThroughDedupe), r)
              case MarkDead(outage, now, stamp) => after == Apply(MoveTo(DeadLetter, None, stamp), r)
              case Restart(now) => r.state.Replaying? && after == Apply(Recover, r)
              case _ => false
  {
    RowSurvives(p, c, s, r);
    after := IdsWhereSound(NextRows(p, c, s), Everything, r.id);
    KeysAscend(c.rows, c.nextId);
    var from := RowOrigin(p, c, s, after);
    RowById(c.rows, c.nextId, r, from.value);
  }

  // ---------------------------------------------------------------- backoff of a row

  /** The step names this row in an update by ids. */
  predicate Rewrites(s: Step, id: nat) {
    (s.Deliver? || s.PutBack?) && id in s.ids
  }

  ghost predicate HeldBack(c: Core, id: nat, deadline: int) {
    c.clock >= deadline ||
    forall r | r in c.rows && r.id == id :: Terminal(r.state) || (r.state.Pending? && r.retryAt == Some(deadline))
  }

  lemma HeldBackStep(p: Policy, c: Core, s: Step, id: nat, deadline: int)
    requires WellFormed(p, c) && Enabled(p, c, s) && id < c.nextId
    requires HeldBack(c, id, deadline) && !Rewrites(s, id)
    ensures HeldBack(Next(p, c, s), id, deadline)
  {
    var c' := Next(p, c, s);
    if c'.clock < deadline {
      forall r | r in c'.rows && r.id == id
        ensures Terminal(r.state) || (r.state.Pending? && r.retryAt == Some(deadline))
      {
        var from := RowOrigin(p, c, s, r);
      }
    }
  }

  lemma {:induction false} HeldBackRun(p: Policy, c: Core, steps: seq<Step>, id: nat, deadline: int)
    requires WellFormed(p, c) && Allowed(p, c, steps) && id < c.nextId
    requires HeldBack(c, id, deadline) && forall s | s in steps :: !Rewrites(s, id)
    ensures HeldBack(Exec(p, c, steps), id, deadline) && id < Exec(p, c, steps).nextId
  {
    if |steps| > 0 {
      var front := steps[..|steps| - 1];
      HeldBackRun(p, c, front, id, deadline);
      RunKeepsForm(p, c, front);
      assert steps[|steps| - 1] in steps;
      HeldBackStep(p, Exec(p, c, front), steps[|steps| - 1], id, deadline);
    }
  }

  lemma PutBackHolds(p: Policy, c: Core, put: Step, id: nat, deadline: int)
    requires WellFormed(p, c) && put.PutBack? && put.retry == Some(deadline) && id in put.ids
    ensures HeldBack(Next(p, c, put), id, deadline)
  {
    forall r | r in NextRows(p, c, put) && r.id == id ensures r.state.Pending? && r.retryAt == Some(deadline) {
      var from := UpdateOrigin(c.rows, put.ids, MoveTo(Pending, Some(deadline), put.now), r);
    }
  }

  lemma HeldBackIsNotClaimed(p: Policy, c: Core, id: nat, deadline: int, limit: int, now: int)
    requires WellFormed(p, c) && HeldBack(c, id, deadline) && c.clock <= now < deadline
    ensures id !in ClaimIds(c.rows, limit, now)
  {
    BatchIds(Eligible(now), c.rows, c.nextId, limit);
    if id in IdsWhere(c.rows, Eligible(now)) {
      var r := IdsWhereSound(c.rows, Eligible(now), id);
      assert false;
    }
  }

  /**
   Row backoff: once a failure puts a row back with a deadline, no claim whose clock is below the deadline selects
   it, through any run of appends, claims, reclaims, prunes, acknowledgements and failures of other rows, session
   changes and restarts.
   */
  lemma RowBackoff(
    p: Policy, c: Core, put: Step, id: nat, deadline: int, steps: seq<Step>, end: Core, limit: int, now: int)
    requires WellFormed(p, c) && id < c.nextId
    requires put.PutBack? && put.retry == Some(deadline) && id in put.ids
    requires Allowed(p, Next(p, c, put), steps) && forall s | s in steps :: !Rewrites(s, id)
    requires end == Exec(p, Next(p, c, put), steps) && end.clock <= now < deadline
    ensures id !in ClaimIds(end.rows, limit, now)
  {
    StepKeepsForm(p, c, put);
    PutBackHolds(p, c, put, id, deadline);
    HeldBackRun(p, Next(p, c, put), steps, id, deadline);
    RunKeepsForm(p, Next(p, c, put), steps);
    HeldBackIsNotClaimed(p, end, id, deadline, limit, now);
  }

  // ---------------------------------------------------------------- what delivered means

  /**
   One row through one step: delivered afterwards exactly if the step marks it so, or it was delivered before and the
   step does not put it back. No claim, reclaim, prune, restart or fault takes it out of `delivered`.
   */
  lemma DeliveredAfterStep(p: Policy, c: Core, s: Step, r: Row, after: Row)
    requires WellFormed(p, c) && Enabled(p, c, s) && r in c.rows && after in Next(p, c, s).rows && after.id == r.id
    ensures after.state.Delivered? <==> if Rewrites(s, r.id) then s.Deliver? else r.state.Delivered?
  {
    match s
    case Deliver(ids, now) => RewrittenRow(c, ids, MoveTo(Delivered, None, now), r, after);
    case PutBack(ids, retry, now) => RewrittenRow(c, ids, MoveTo(Pending, retry, now), r, after);
    case _ =>
      KeysAscend(c.rows, c.nextId);
      var from := RowOrigin(p, c, s, after);
      RowById(c.rows, c.nextId, r, from.value);
  }

  lemma RewrittenRow(c: Core, ids: set<nat>, change: Change, r: Row, after: Row)
    requires WellKeyed(c.rows, c.nextId) && r in c.rows && after in Update(c.rows, ids, change) && after.id == r.id
    requires change.MoveTo?
    ensures after == if r.id in ids then Apply(change, r) else r
  {
    var from := UpdateOrigin(c.rows, ids, change, after);
    RowById(c.rows, c.nextId, r, from);
  }

  /** The last step of a run that names the row in an update by ids. */
  function LastWord(steps: seq<Step>, id: nat): Option<Step> {
    if |steps| == 0 then None
    else if Rewrites(steps[|steps| - 1], id) then Some(steps[|steps| - 1])
    else LastWord(steps[..|steps| - 1], id)
  }

  lemma {:induction false} LastWordIsOne(steps: seq<Step>, id: nat)
    ensures var last := LastWord(steps, id);
            if last.Some? then last.value in steps && Rewrites(last.value, id)
            else forall s | s in steps :: !Rewrites(s, id)
  {
    if |steps| > 0 {
      LastWordIsOne(steps[..|steps| - 1], id);
    }
  }

  lemma {:induction false} LastWordOfSum(a: seq<Step>, b: seq<Step>, id: nat)
    ensures LastWord(a + b, id) == if LastWord(b, id).Some? then LastWord(b, id) else LastWord(a, id)
  {
    if |b| == 0 {
      assert a + b == a;
    } else {
      LastWordOfSum(a, b[..|b| - 1], id);
      assert (a + b)[..|a + b| - 1] == a + b[..|b| - 1];
    }
  }

  /** A row of the table, as it stood before the last step of a run that it has survived. */
  lemma RowBefore(p: Policy, c: Core, steps: seq<Step>, id: nat, after: Row) returns (mid: Row)
    requires WellFormed(p, c) && |steps| > 0 && Allowed(p, c, steps) && id < c.nextId
    requires after in Exec(p, c, steps).rows && after.id == id
    ensures mid in Exec(p, c, steps[..|steps| - 1]).rows && mid.id == id
  {
    var front := steps[..|steps| - 1];
    RunKeepsForm(p, c, front);
    NextIdGrows(p, c, front);
    var from := RowOrigin(p, Exec(p, c, front), steps[|steps| - 1], after);
    mid := from.value;
  }

  /**
   The row through a whole run, as long as it is in the table: it is delivered exactly if the last update that named it
   delivered it - or if none did and it was delivered to begin with.
   */
  lemma {:induction false} DeliveredExactly(p: Policy, c: Core, steps: seq<Step>, r: Row, after: Row)
    requires WellFormed(p, c) && Allowed(p, c, steps)
    requires r in c.rows && after in Exec(p, c, steps).rows && after.id == r.id
    ensures var last := LastWord(steps, r.id);
            after.state.Delivered? <==> if last.Some? then last.value.Deliver? else r.state.Delivered?
  {
    KeysAscend(c.rows, c.nextId);
    if |steps| == 0 {
      RowById(c.rows, c.nextId, r, after);
    } else {
      var front := steps[..|steps| - 1];
      var mid := RowBefore(p, c, steps, r.id, after);
      DeliveredExactly(p, c, front, r, mid);
      RunKeepsForm(p, c, front);
      DeliveredAfterStep(p, Exec(p, c, front), steps[|steps| - 1], mid, after);
    }
  }

  // ---------------------------------------------------------------- backoff of the session

  predicate Waits(p: Policy, c: Core, until: int) {
    c.clock >= until ||
    (c.session.state.Failed? && c.session.nextRetryAt.Some? && c.session.nextRetryAt.value >= until &&
     until <= c.clock + p.backoff)
  }

  lemma {:induction false} WaitsRun(p: Policy, c: Core, steps: seq<Step>, until: int)
    requires Waits(p, c, until) && Allowed(p, c, steps) && forall s | s in steps :: AdapterOwned(s)
    ensures Waits(p, Exec(p, c, steps), until)
  {
    if |steps| > 0 {
      assert steps[|steps| - 1] in steps;
      WaitsRun(p, c, steps[..|steps| - 1], until);
    }
  }

  lemma WaitingSessionClaimsNothing(p: Policy, c: Core, until: int, claim: Step)
    requires Waits(p, c, until) && claim.Claim? && Enabled(p, c, claim)
    ensures claim.now >= until
  {
  }

  lemma FailureWaits(p: Policy, c: Core, error: string, at: int)
    ensures Next(p, c, FailSession(error, at)).session.nextRetryAt == Some(at + p.backoff)
    ensures Waits(p, Next(p, c, FailSession(error, at)), at + p.backoff)
  {
  }

  /** Session backoff: after a failure nothing at all is claimed in that process before its `nextRetryAt`. */
  lemma SessionBackoff(p: Policy, c: Core, failed: Core, error: string, at: int, steps: seq<Step>, claim: Step)
    requires failed == Next(p, c, FailSession(error, at)) && claim.Claim?
    requires Allowed(p, failed, steps) && (forall s | s in steps :: AdapterOwned(s))
    requires Enabled(p, Exec(p, failed, steps), claim)
    ensures failed.session.nextRetryAt == Some(at + p.backoff)
    ensures claim.now >= at + p.backoff
  {
    FailureWaits(p, c, error, at);
    WaitsRun(p, failed, steps, at + p.backoff);
    WaitingSessionClaimsNothing(p, Exec(p, failed, steps), at + p.backoff, claim);
  }

  // ---------------------------------------------------------------- the count of consecutive failures

  predicate FreshWhenRunning(s: Session) {
    s.state.Running? ==> s.failures == 0
  }

  lemma {:induction false} RunningSessionIsFresh(p: Policy, c: Core, steps: seq<Step>)
    requires FreshWhenRunning(c.session) && Allowed(p, c, steps)
    requires forall s | s in steps :: !(s.StartSession? && s.manual)
    ensures FreshWhenRunning(Exec(p, c, steps).session)
  {
    if |steps| > 0 {
      assert steps[|steps| - 1] in steps;
      RunningSessionIsFresh(p, c, steps[..|steps| - 1]);
    }
  }

  /**
   Without manual starts the count of consecutive failures does not accumulate: a session is started from `queued`,
   which forgets it, so whenever a running session fails - the first time or the hundredth in a row - it reads one.
   */
  lemma FailureCountIsOne(p: Policy, c: Core, steps: seq<Step>, end: Core, error: string, now: int)
    requires FreshWhenRunning(c.session) && Allowed(p, c, steps) && end == Exec(p, c, steps)
    requires forall s | s in steps :: !(s.StartSession? && s.manual)
    requires end.session.state.Running?
    ensures Next(p, end, FailSession(error, now)).session.failures == 1
  {
    RunningSessionIsFresh(p, c, steps);
  }

  /** The core from which the session was last started, if the run started it at all. */
  function LastStart(p: Policy, c: Core, steps: seq<Step>): Option<Core> {
    if |steps| == 0 then None else
      var front := Exec(p, c, steps[..|steps| - 1]);
      if steps[|steps| - 1].StartSession? && !front.session.state.Running? then Some(front)
      else LastStart(p, c, steps[..|steps| - 1])
  }

  /** A start over a backlog keeps the count exactly if it is taken from `failed`, or there is nothing to forget. */
  lemma StartKeepsCount(p: Policy, c: Core, start: Step)
    requires start.StartSession? && Enabled(p, c, start) && !c.session.state.Running? && Counter(c) != 0
    ensures Next(p, c, start).session.state.Running?
    ensures Next(p, c, start).session.failures == c.session.failures <==>
              c.session.state.Failed? || c.session.failures == 0
  {
    assert CanStart(c.session, Counter(c));
  }

  /** While the session runs the count stands as its start left it. */
  lemma {:induction false} RunningCount(p: Policy, c: Core, steps: seq<Step>)
    requires Allowed(p, c, steps) && Exec(p, c, steps).session.state.Running?
    ensures var start := LastStart(p, c, steps);
            Exec(p, c, steps).session.failures ==
            if start.None? then c.session.failures
            else if start.value.session.state.Failed? then start.value.session.failures
            else 0
    ensures LastStart(p, c, steps).None? ==> c.session.state.Running?
  {
    if |steps| > 0 {
      var front, last := steps[..|steps| - 1], steps[|steps| - 1];
      if Exec(p, c, front).session.state.Running? {
        RunningCount(p, c, front);
      }
    }
  }

  /**
   When the count accumulates: a running session that fails reads more than one exactly if it was last started out of
   `failed`, by hand, with a count that was already positive.
   */
  lemma FailureCountExactly(p: Policy, c: Core, steps: seq<Step>, end: Core, error: string, now: int)
    requires Allowed(p, c, steps) && end == Exec(p, c, steps) && end.session.state.Running?
    requires FreshWhenRunning(c.session)
    ensures var start := LastStart(p, c, steps);
            && (Next(p, end, FailSession(error, now)).session.failures > 1 <==>
                start.Some? && start.value.session.state.Failed? && start.value.session.failures > 0)
            && Next(p, end, FailSession(error, now)).session.failures >= 1
  {
    RunningCount(p, c, steps);
  }

  /** A start by the claim, and the failure of its batch. */
  function Attempt(error: string, now: int): seq<Step> {
    [StartSession(now, false), FailSession(error, now)]
  }

  lemma StartThenFail(p: Policy, c: Core, error: string, now: int)
    requires c.session.state.Queued? && Counter(c) != 0 && c.clock <= now
    ensures var failed := Next(p, Next(p, c, StartSession(now, false)), FailSession(error, now));
            && IsRun(p, c, Attempt(error, now), failed)
            && failed.session.state.Failed? && failed.session.failures == 1 && failed.clock == now
            && failed.session.nextRetryAt == Some(now + p.backoff) && Counter(failed) == Counter(c)
  {
    var start, fail := StartSession(now, false), FailSession(error, now);
    RunsOnce(p, c, start);
    RunsOnce(p, Next(p, c, start), fail);
    RunsThen(p, c, [start], Next(p, c, start), [fail], Next(p, Next(p, c, start), fail));
    assert [start] + [fail] == [start, fail];
  }

  /** Two attempts of a queued session fail, one after the other, and both times the count reads one. */
  lemma TwoFailuresReadOne(p: Policy, c: Core, error: string, now: int, later: int)
    requires c.session.state.Queued? && Counter(c) != 0 && c.clock <= now && now + p.backoff <= later && now <= later
    ensures var once := Attempt(error, now);
            var twice := once + [QueueSession(later)] + Attempt(error, later);
            && Allowed(p, c, twice)
            && Exec(p, c, once).session.state.Failed? && Exec(p, c, once).session.failures == 1
            && Exec(p, c, twice).session.state.Failed? && Exec(p, c, twice).session.failures == 1
  {
    var once, again, queue := Attempt(error, now), Attempt(error, later), QueueSession(later);
    StartThenFail(p, c, error, now);
    var failed := Exec(p, c, once);
    var queued := Next(p, failed, queue);
    RunsOnce(p, failed, queue);
    RunsThen(p, c, once, failed, [queue], queued);
    StartThenFail(p, queued, error, later);
    RunsThen(p, c, once + [queue], queued, again, Exec(p, queued, again));
  }

  /** A manual start straight from `failed` is what carries it over. */
  lemma ManualRetryCounts(p: Policy, c: Core, start: int, error: string, now: int)
    requires c.session.state.Failed? && Counter(c) != 0
    ensures var running := Next(p, c, StartSession(start, true));
            && CanStart(c.session, Counter(c)) && running.session.state.Running?
            && Next(p, running, FailSession(error, now)).session.failures == c.session.failures + 1
  {
  }

  // ---------------------------------------------------------------- a failed batch is never stranded

  /** Delivered, or sure to be eligible at any claim at or after the deadline. */
  predicate Recoverable(p: Policy, r: Row, deadline: int) {
    match r.state
    case Delivered => true
    case Pending => r.retryAt.None? || r.retryAt.value <= deadline
    case Replaying => r.retryAt.None? && r.claimedAt.Some? && r.claimedAt.value + p.backoff <= deadline
    case DeadLetter => false
  }

  /** The row itself, as it now stands in the table. */
  ghost predicate Stands(p: Policy, c: Core, r: Row, deadline: int) {
    exists now :: now in c.rows && now.id == r.id && now.ingestAt == r.ingestAt && Recoverable(p, now, deadline)
  }

  /** Between the claim and the retry: no other claim, no prune, and rows put back only with the deadline or none. */
  predicate Undisturbed(s: Step, deadline: int) {
    && !s.Claim? && !s.MarkDead? && !s.Purge?
    && (s.PutBack? ==> s.retry.None? || s.retry.value <= deadline)
  }

  lemma {:induction false} StandsRun(p: Policy, c: Core, steps: seq<Step>, r: Row, deadline: int)
    requires WellFormed(p, c) && Allowed(p, c, steps) && Stands(p, c, r, deadline)
    requires forall s | s in steps :: Undisturbed(s, deadline)
    ensures Stands(p, Exec(p, c, steps), r, deadline)
  {
    if |steps| > 0 {
      var front, last := steps[..|steps| - 1], steps[|steps| - 1];
      StandsRun(p, c, front, r, deadline);
      RunKeepsForm(p, c, front);
      var mid := Exec(p, c, front);
      var now :| now in mid.rows && now.id == r.id && now.ingestAt == r.ingestAt && Recoverable(p, now, deadline);
      assert last in steps;
      var after := RowImage(p, mid, last, now);
      assert Recoverable(p, after, deadline);
    }
  }

  /** The rows a retry can select, once it has reclaimed stale claims at `reclaim`. */
  function RetryRows(p: Policy, c: Core, reclaim: int): seq<Row> {
    Reclaimed(p.store, c.rows, p.backoff, reclaim)
  }

  /** A configuration under which claims are reclaimed at all. */
  predicate Reclaims(p: Policy) {
    p.backoff >= 0 && p.store.pruneBatch != 0
  }

  lemma StandingRowIsEligible(p: Policy, c: Core, r: Row, deadline: int, reclaim: int, select: int)
    returns (now: Row)
    requires WellFormed(p, c) && Reclaims(p) && Stands(p, c, r, deadline) && deadline <= reclaim <= select
    ensures now in RetryRows(p, c, reclaim) && now.id == r.id && now.ingestAt == r.ingestAt
    ensures now.state.Delivered? || Matches(Eligible(select), now)
  {
    var was :| was in c.rows && was.id == r.id && was.ingestAt == r.ingestAt && Recoverable(p, was, deadline);
    var ids := StaleIds(p.store, c.rows, p.backoff, reclaim);
    SelectedRowMatches(c.rows, c.nextId, Stale(reclaim - p.backoff), was);
    UpdateImage(c.rows, ids, MoveTo(Pending, None, reclaim), was);
    now := if was.id in ids then Apply(MoveTo(Pending, None, reclaim), was) else was;
  }

  /** Without reclaiming, a row left claimed by a failed batch is not eligible at any retry. */
  lemma UnreclaimedRowIsStranded(p: Policy, c: Core, r: Row, reclaim: int, select: int)
    requires !Reclaims(p) && r in c.rows && r.state.Replaying?
    ensures r in RetryRows(p, c, reclaim) && !Matches(Eligible(select), r)
  {
    UpdateImage(c.rows, StaleIds(p.store, c.rows, p.backoff, reclaim), MoveTo(Pending, None, reclaim), r);
  }

  lemma ClaimedRowStands(p: Policy, c: Core, claim: Step, deadline: int, r: Row)
    requires WellFormed(p, c) && claim.Claim? && claim.limit > 0 && claim.stamp + p.backoff <= deadline
    requires r in Select(Eligible(claim.now), c.rows, claim.limit)
    ensures Stands(p, Next(p, c, claim), r, deadline)
  {
    var batch := Select(Eligible(claim.now), c.rows, claim.limit);
    SelectedFromTable(Eligible(claim.now), c.rows, c.nextId, claim.limit);
    IdsWhereComplete(batch, Everything);
    UpdateImage(c.rows, ClaimIds(c.rows, claim.limit, claim.now), ClaimFor(claim.stamp, ReplayThroughDedupe), r);
    assert Recoverable(p, Apply(ClaimFor(claim.stamp, ReplayThroughDedupe), r), deadline);
  }

  /** The core once a batch has been claimed and a run has followed. */
  function AfterClaim(p: Policy, c: Core, claim: Step, steps: seq<Step>): Core {
    Exec(p, Next(p, c, claim), steps)
  }

  lemma BatchRowStands(p: Policy, c: Core, claim: Step, steps: seq<Step>, deadline: int, r: Row)
    requires WellFormed(p, c) && claim.Claim? && claim.limit > 0 && claim.stamp + p.backoff <= deadline
    requires Allowed(p, Next(p, c, claim), steps)
    requires forall s | s in steps :: Undisturbed(s, deadline)
    requires r in Select(Eligible(claim.now), c.rows, claim.limit)
    ensures Stands(p, AfterClaim(p, c, claim, steps), r, deadline) && WellFormed(p, AfterClaim(p, c, claim, steps))
  {
    StepKeepsForm(p, c, claim);
    RunKeepsForm(p, Next(p, c, claim), steps);
    ClaimedRowStands(p, c, claim, deadline, r);
    StandsRun(p, Next(p, c, claim), steps, r, deadline);
  }

  /** The row a standing row is at the retry: delivered, or somewhere in the sorted selection. */
  lemma StandingRowIsSelected(p: Policy, c: Core, r: Row, deadline: int, reclaim: int, select: int)
    returns (now: Row)
    requires WellFormed(p, c) && Reclaims(p) && Stands(p, c, r, deadline) && deadline <= reclaim <= select
    ensures now in RetryRows(p, c, reclaim) && now.id == r.id && now.ingestAt == r.ingestAt
    ensures now.state.Delivered? || now in Ordered(Eligible(select), RetryRows(p, c, reclaim))
    ensures Sorted(Eligible(select), Ordered(Eligible(select), RetryRows(p, c, reclaim)))
  {
    now := StandingRowIsEligible(p, c, r, deadline, reclaim, select);
    UpdateKeepsKeys(c.rows, c.nextId, StaleIds(p.store, c.rows, p.backoff, reclaim), MoveTo(Pending, None, reclaim));
    OrderedIsSelection(Eligible(select), RetryRows(p, c, reclaim), c.nextId);
  }

  /**
   No row of a failed batch is stranded. A batch is claimed; later a failure puts back some of it with the deadline
   `failAt + backoff`; nothing is pruned or claimed meanwhile. At the first claim whose readings are past the
   deadline, every row of the batch is still in the table and is either delivered or eligible - attempted rows
   because their deadline has passed, unattempted ones because their claim is stale by then.
   */
  lemma FailedBatchIsNotStranded(
    p: Policy, c: Core, claim: Step, steps: seq<Step>, failAt: int, reclaim: int, select: int, r: Row)
    returns (now: Row)
    requires WellFormed(p, c) && Reclaims(p) && claim.Claim? && claim.limit > 0 && claim.stamp <= failAt
    requires failAt + p.backoff <= reclaim <= select
    requires Allowed(p, Next(p, c, claim), steps) && forall s | s in steps :: Undisturbed(s, failAt + p.backoff)
    requires r in Select(Eligible(claim.now), c.rows, claim.limit)
    ensures var rows := RetryRows(p, AfterClaim(p, c, claim, steps), reclaim);
            && now in rows && now.id == r.id && now.ingestAt == r.ingestAt
            && (now.state.Delivered? || now in Ordered(Eligible(select), rows))
  {
    BatchRowStands(p, c, claim, steps, failAt + p.backoff, r);
    now := StandingRowIsSelected(p, AfterClaim(p, c, claim, steps), r, failAt + p.backoff, reclaim, select);
  }

  /** And any two rows of the batch that are eligible again stand in the selection in the order they were claimed in. */
  lemma FailedBatchReturnsInOrder(
    p: Policy, c: Core, claim: Step, batch: seq<Row>, steps: seq<Step>, later: Core,
    failAt: int, reclaim: int, select: int, i: nat, j: nat)
    requires WellFormed(p, c) && Reclaims(p) && claim.Claim? && claim.limit > 0 && claim.stamp <= failAt
    requires batch == Select(Eligible(claim.now), c.rows, claim.limit) && i < j < |batch|
    requires failAt + p.backoff <= reclaim <= select
    requires Allowed(p, Next(p, c, claim), steps) && later == AfterClaim(p, c, claim, steps)
    requires forall s | s in steps :: Undisturbed(s, failAt + p.backoff)
    ensures ReturnInOrder(batch[i], batch[j], RetryRows(p, later, reclaim), select)
  {
    BatchRowStands(p, c, claim, steps, failAt + p.backoff, batch[i]);
    BatchRowStands(p, c, claim, steps, failAt + p.backoff, batch[j]);
    var a := StandingRowIsSelected(p, later, batch[i], failAt + p.backoff, reclaim, select);
    var b := StandingRowIsSelected(p, later, batch[j], failAt + p.backoff, reclaim, select);
    BatchIsSorted(c, claim, i, j);
    OrderIsKept(batch[i], batch[j], RetryRows(p, later, reclaim), claim.now, select, a, b);
  }

  lemma OrderIsKept(first: Row, second: Row, rows: seq<Row>, before: int, select: int, a: Row, b: Row)
    requires a in rows && b in rows && a.id == first.id && b.id == second.id
    requires a.ingestAt == first.ingestAt && b.ingestAt == second.ingestAt
    requires Before(Eligible(before), first, second)
    requires a.state.Delivered? || a in Ordered(Eligible(select), rows)
    requires b.state.Delivered? || b in Ordered(Eligible(select), rows)
    requires Sorted(Eligible(select), Ordered(Eligible(select), rows))
    ensures ReturnInOrder(first, second, rows, select)
  {
    if a in Ordered(Eligible(select), rows) && b in Ordered(Eligible(select), rows) {
      SortedPrecedes(Eligible(select), Ordered(Eligible(select), rows), a, b);
    }
  }

  /** Two claimed rows, first and second, as a later table holds them: delivered or selected, in that order. */
  ghost predicate ReturnInOrder(first: Row, second: Row, rows: seq<Row>, select: int) {
    exists a, b :: a in rows && b in rows && a.id == first.id && b.id == second.id
                   && (a.state.Delivered? || a in Ordered(Eligible(select), rows))
                   && (b.state.Delivered? || b in Ordered(Eligible(select), rows))
                   && (a in Ordered(Eligible(select), rows) && b in Ordered(Eligible(select), rows) ==>
                         Precedes(Ordered(Eligible(select), rows), a, b))
  }

  lemma BatchIsSorted(c: Core, claim: Step, i: nat, j: nat)
    requires WellKeyed(c.rows, c.nextId) && claim.Claim?
    requires i < j < |Select(Eligible(claim.now), c.rows, claim.limit)|
    ensures var batch := Select(Eligible(claim.now), c.rows, claim.limit);
            Before(Eligible(claim.now), batch[i], batch[j])
  {
    OrderedIsSelection(Eligible(claim.now), c.rows, c.nextId);
  }

  ghost predicate Precedes(s: seq<Row>, a: Row, b: Row) {
    exists i, j :: 0 <= i < j < |s| && s[i] == a && s[j] == b
  }

  lemma SortedPrecedes(q: Query, s: seq<Row>, a: Row, b: Row)
    requires Sorted(q, s) && a in s && b in s && Before(q, a, b)
    ensures Precedes(s, a, b)
  {
    var i :| 0 <= i < |s| && s[i] == a;
    var j :| 0 <= j < |s| && s[j] == b;
    assert i < j;
  }

  /** A claim that a failed session admits, queued first as the runtime does it, is no earlier than its deadline. */
  lemma RetryIsLate(p: Policy, c: Core, limit: int, t: Times, deadline: int)
    requires c.session.state.Failed? && c.session.nextRetryAt == Some(deadline)
    requires !O.ClaimNextBatch(p, Next(p, c, QueueSession(t.queue)), limit, t).thrown
    ensures deadline <= t.queue
  {
  }

  /** The row is delivered, or among the entries, or the entries are full of rows that come before it. */
  ghost predicate Returned(r: Row, rows: seq<Row>, entries: seq<Entry>, limit: int, select: int) {
    exists now :: now in rows && now.id == r.id && now.ingestAt == r.ingestAt
                  && ReturnedAs(now, rows, entries, limit, select)
  }

  ghost predicate ReturnedAs(now: Row, rows: seq<Row>, entries: seq<Entry>, limit: int, select: int) {
    || now.state.Delivered?
    || (exists e :: e in entries && e.rowId == now.id)
    || (|entries| == limit == |Select(Eligible(select), rows, limit)| &&
        forall first | first in Select(Eligible(select), rows, limit) :: Before(Eligible(select), first, now))
  }

  /** A row of the selection is among the first `limit`, or comes after all of them. */
  lemma SelectedOrLater(rows: seq<Row>, nextId: nat, limit: nat, select: int, now: Row, entries: seq<Entry>)
    requires WellKeyed(rows, nextId) && limit > 0 && now in Ordered(Eligible(select), rows)
    requires entries == Entries(rows, limit, select, ReplayThroughDedupe)
    ensures ReturnedAs(now, rows, entries, limit, select)
  {
    OrderedIsSelection(Eligible(select), rows, nextId);
    var all := Ordered(Eligible(select), rows);
    var i :| 0 <= i < |all| && all[i] == now;
    if i < limit {
      assert entries[i].rowId == now.id;
    }
  }

  /**
   The claim after a failed batch. The session has failed at `failAt`; the next claim that goes through returns the
   rows of the batch that are not delivered, as far as its limit and the rows before them allow.
   */
  lemma RetryReturnsBatch(
    p: Policy, c: Core, claim: Step, steps: seq<Step>, failed: Core, failAt: int, limit: nat, t: Times, r: Row)
    requires WellFormed(p, c) && Reclaims(p) && claim.Claim? && claim.limit > 0 && claim.stamp <= failAt
    requires Allowed(p, Next(p, c, claim), steps) && forall s | s in steps :: Undisturbed(s, failAt + p.backoff)
    requires failed == AfterClaim(p, c, claim, steps)
    requires failed.session.state.Failed? && failed.session.nextRetryAt == Some(failAt + p.backoff)
    requires r in Select(Eligible(claim.now), c.rows, claim.limit) && limit > 0 && InOrder(t)
    requires !O.ClaimNextBatch(p, Next(p, failed, QueueSession(t.queue)), limit, t).thrown
    ensures var result := O.ClaimNextBatch(p, Next(p, failed, QueueSession(t.queue)), limit, t);
            Returned(r, RetryRows(p, failed, t.reclaim), result.entries, limit, t.select)
  {
    var now := RetriedRow(p, c, claim, steps, failed, failAt, limit, t, r);
    EntriesOfRetry(p, failed, limit, t);
    RetrySelects(p, failed, limit, t, now);
  }

  /** The row of the batch as that claim finds it. */
  lemma RetriedRow(
    p: Policy, c: Core, claim: Step, steps: seq<Step>, failed: Core, failAt: int, limit: nat, t: Times, r: Row)
    returns (now: Row)
    requires WellFormed(p, c) && Reclaims(p) && claim.Claim? && claim.limit > 0 && claim.stamp <= failAt
    requires Allowed(p, Next(p, c, claim), steps) && forall s | s in steps :: Undisturbed(s, failAt + p.backoff)
    requires failed == AfterClaim(p, c, claim, steps)
    requires failed.session.state.Failed? && failed.session.nextRetryAt == Some(failAt + p.backoff)
    requires r in Select(Eligible(claim.now), c.rows, claim.limit) && limit > 0 && InOrder(t)
    requires !O.ClaimNextBatch(p, Next(p, failed, QueueSession(t.queue)), limit, t).thrown
    ensures WellFormed(p, failed)
    ensures now in RetryRows(p, failed, t.reclaim) && now.id == r.id && now.ingestAt == r.ingestAt
    ensures now.state.Delivered? || now in Ordered(Eligible(t.select), RetryRows(p, failed, t.reclaim))
  {
    RetryIsLate(p, failed, limit, t, failAt + p.backoff);
    StepKeepsForm(p, c, claim);
    RunKeepsForm(p, Next(p, c, claim), steps);
    now := FailedBatchIsNotStranded(p, c, claim, steps, failAt, t.reclaim, t.select, r);
  }

  lemma EntriesOfRetry(p: Policy, c: Core, limit: nat, t: Times)
    requires limit > 0 && !O.ClaimNextBatch(p, Next(p, c, QueueSession(t.queue)), limit, t).thrown
    ensures O.ClaimNextBatch(p, Next(p, c, QueueSession(t.queue)), limit, t).entries ==
            Entries(RetryRows(p, c, t.reclaim), limit, t.select, ReplayThroughDedupe)
  {
  }

  lemma RetrySelects(p: Policy, c: Core, limit: nat, t: Times, now: Row)
    requires WellFormed(p, c) && limit > 0
    requires now.state.Delivered? || now in Ordered(Eligible(t.select), RetryRows(p, c, t.reclaim))
    ensures var rows := RetryRows(p, c, t.reclaim);
            ReturnedAs(now, rows, Entries(rows, limit, t.select, ReplayThroughDedupe), limit, t.select)
  {
    var rows := RetryRows(p, c, t.reclaim);
    if !now.state.Delivered? {
      UpdateKeepsKeys(c.rows, c.nextId, StaleIds(p.store, c.rows, p.backoff, t.reclaim),
                      MoveTo(Pending, None, t.reclaim));
      SelectedOrLater(rows, c.nextId, limit, t.select, now, Entries(rows, limit, t.select, ReplayThroughDedupe));
    }
  }
}
