/**
 The admission limits over whole runs. They are enforced when a row is appended; the one other thing that can load the
 reservoir is a reset by ids, which checks no limit.
 */
module Bounds {
  import opened Options
  import opened Rows
  import opened Ordering
  import opened Admission
  import opened Store
  import opened Session
  import opened Protocol

  predicate WithinLimits(cap: Capacity, u: Usage) {
    && (cap.maxRows.Some? ==> u.rows <= cap.maxRows.value)
    && (cap.maxBytes.Some? ==> u.bytes <= cap.maxBytes.value)
  }

  predicate Within(p: Policy, c: Core) {
    WithinLimits(p.store.capacity, UsageOf(c.rows))
  }

  function Terminals(rows: seq<Row>): seq<Row> {
    if |rows| == 0 then [] else
      var rest := Terminals(rows[..|rows| - 1]);
      if Terminal(rows[|rows| - 1].state) then rest + [rows[|rows| - 1]] else rest
  }

  function BytesOf(rows: seq<Row>): nat {
    if |rows| == 0 then 0 else BytesOf(rows[..|rows| - 1]) + rows[|rows| - 1].bytes
  }

  /** The delivered and dead-lettered rows that these ids name. */
  function Revived(c: Core, ids: set<nat>): seq<Row> {
    Terminals(Where(c.rows, ids))
  }

  /** A reset fits if there is room for the terminal rows it names. */
  predicate Fits(p: Policy, c: Core, s: Step) {
    s.PutBack? ==>
      var load, revived := UsageOf(c.rows), Revived(c, s.ids);
      WithinLimits(p.store.capacity, Usage(load.rows + |revived|, load.bytes + BytesOf(revived)))
  }

  lemma {:induction false} RevivedLoad(selected: seq<Row>)
    ensures DeltaRows(selected, Pending) == |Terminals(selected)|
    ensures DeltaBytes(selected, Pending) == BytesOf(Terminals(selected))
  {
    if |selected| > 0 {
      var front, last := selected[..|selected| - 1], selected[|selected| - 1];
      RevivedLoad(front);
      assert (Terminals(front) + [last])[..|Terminals(front)|] == Terminals(front);
    }
  }

  lemma UpdateAddsNoLoad(rows: seq<Row>, ids: set<nat>, c: Change)
    requires forall r | r in rows && r.id in ids && Live(Apply(c, r).state) :: Live(r.state)
    ensures Sum(LiveRows, Update(rows, ids, c)) <= Sum(LiveRows, rows)
    ensures Sum(LiveBytes, Update(rows, ids, c)) <= Sum(LiveBytes, rows)
  {
    forall i | 0 <= i < |rows|
      ensures Weigh(LiveRows, Update(rows, ids, c)[i]) <= Weigh(LiveRows, rows[i])
      ensures Weigh(LiveBytes, Update(rows, ids, c)[i]) <= Weigh(LiveBytes, rows[i])
    {
      assert rows[i] in rows;
    }
    SumMonotone(LiveRows, Update(rows, ids, c), rows);
    SumMonotone(LiveBytes, Update(rows, ids, c), rows);
  }

  lemma OnlyMatching(p: Policy, c: Core, ids: set<nat>, q: Query)
    requires WellFormed(p, c) && ids <= IdsWhere(c.rows, q)
    ensures forall r | r in c.rows && r.id in ids :: Matches(q, r)
  {
    forall r | r in c.rows && r.id in ids ensures Matches(q, r) {
      SelectedRowMatches(c.rows, c.nextId, q, r);
    }
  }

  lemma StepAddsNoLoad(p: Policy, c: Core, s: Step)
    requires WellFormed(p, c) && Enabled(p, c, s) && !s.PutBack? && !s.Append?
    ensures UsageOf(Next(p, c, s).rows).rows <= UsageOf(c.rows).rows
    ensures UsageOf(Next(p, c, s).rows).bytes <= UsageOf(c.rows).bytes
  {
    match s
    case Deliver(ids, now) => UpdateAddsNoLoad(c.rows, ids, MoveTo(Delivered, None, now));
    case Reclaim(ids, now) =>
      OnlyMatching(p, c, ids, Stale(now - p.backoff));
      UpdateAddsNoLoad(c.rows, ids, MoveTo(Pending, None, now));
    case Claim(limit, now, stamp) =>
      BatchIds(Eligible(now), c.rows, c.nextId, limit);
      OnlyMatching(p, c, ClaimIds(c.rows, limit, now), Eligible(now));
      UpdateAddsNoLoad(c.rows, ClaimIds(c.rows, limit, now), ClaimFor(stamp, ReplayThroughDedupe));
    case MarkDead(outage, now, stamp) =>
      UpdateAddsNoLoad(c.rows, ExpiredBatch(p.store, c.rows, outage, now), MoveTo(DeadLetter, None, stamp));
    case Purge(now) =>
      SumRemove(LiveRows, c.rows, DeletableBatch(p.store, c.rows, now));
      SumRemove(LiveBytes, c.rows, DeletableBatch(p.store, c.rows, now));
    case Restart(now) =>
      OnlyMatching(p, c, IdsWhere(c.rows, InStates({Replaying})), InStates({Replaying}));
      UpdateAddsNoLoad(c.rows, IdsWhere(c.rows, InStates({Replaying})), Recover);
    case _ =>
  }

  /** From within the limits a step stays within them - unless it is a reset for which there is no room. */
  lemma StepWithinExactly(p: Policy, c: Core, s: Step)
    requires WellFormed(p, c) && Enabled(p, c, s) && Within(p, c)
    ensures Within(p, Next(p, c, s)) <==> Fits(p, c, s)
  {
    match s
    case Append(a, now) =>
      SumSnoc(LiveRows, c.rows, NewRow(p.store, c.nextId, a, now));
      SumSnoc(LiveBytes, c.rows, NewRow(p.store, c.nextId, a, now));
    case PutBack(ids, retry, now) =>
      DeltaIsRecount(c.rows, ids, MoveTo(Pending, retry, now));
      RevivedLoad(Where(c.rows, ids));
    case _ => StepAddsNoLoad(p, c, s);
  }

  /** Within the limits at the end of the run, and at every point before it. */
  predicate AlwaysWithin(p: Policy, c: Core, steps: seq<Step>) {
    Within(p, Exec(p, c, steps)) && (|steps| > 0 ==> AlwaysWithin(p, c, steps[..|steps| - 1]))
  }

  /** Every reset of the run fits where it is taken. */
  predicate AllFit(p: Policy, c: Core, steps: seq<Step>) {
    |steps| == 0 ||
    (AllFit(p, c, steps[..|steps| - 1]) && Fits(p, Exec(p, c, steps[..|steps| - 1]), steps[|steps| - 1]))
  }

  /** A run that begins within the limits stays within them throughout exactly when all its resets fit. */
  lemma {:induction false} AdmissionBoundExactly(p: Policy, c: Core, steps: seq<Step>)
    requires WellFormed(p, c) && Allowed(p, c, steps) && Within(p, c)
    ensures AlwaysWithin(p, c, steps) <==> AllFit(p, c, steps)
  {
    if |steps| > 0 {
      var front, last := steps[..|steps| - 1], steps[|steps| - 1];
      AdmissionBoundExactly(p, c, front);
      RunKeepsForm(p, c, front);
      if AlwaysWithin(p, c, front) {
        StepWithinExactly(p, Exec(p, c, front), last);
      }
    }
  }

  /** No reset of the run names a delivered or dead-lettered row. */
  predicate NoRevival(p: Policy, c: Core, steps: seq<Step>) {
    |steps| == 0 ||
    (NoRevival(p, c, steps[..|steps| - 1]) &&
     (steps[|steps| - 1].PutBack? ==> Revived(Exec(p, c, steps[..|steps| - 1]), steps[|steps| - 1].ids) == []))
  }

  /** In particular, within the limits for ever as long as no terminal row is revived. */
  lemma {:induction false} AdmissionBound(p: Policy, c: Core, steps: seq<Step>)
    requires WellFormed(p, c) && Allowed(p, c, steps) && Within(p, c) && NoRevival(p, c, steps)
    ensures Within(p, Exec(p, c, steps))
  {
    if |steps| > 0 {
      var front := steps[..|steps| - 1];
      AdmissionBound(p, c, front);
      RunKeepsForm(p, c, front);
      StepWithinExactly(p, Exec(p, c, front), steps[|steps| - 1]);
    }
  }
}
