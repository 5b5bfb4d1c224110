/**
 What became of every accepted event. The ledger remembers, beside the rows, which appends were accepted, which were
 mere observations, for which rows a delivery handler has completed, every row as it was when it was deleted, and which
sets of ids have been marked delivered or put back in one commit.
 */
module Ledger {
  import opened Options
  import opened Rows
  import opened Ordering
  import opened Store
  import opened Session
  import opened Protocol

  datatype Ledger = Ledger(
    accepted: set<nat>, observed: set<nat>, completed: set<nat>, deleted: seq<Row>,
    delivered: set<set<nat>>, returned: set<set<nat>>)

  function Book(p: Policy, c: Core, s: Step, l: Ledger): Ledger {
    match s
    case Append(a, now) =>
      l.(accepted := l.accepted + {c.nextId},
         observed := if a.source.DedupedObservation? then l.observed + {c.nextId} else l.observed)
    case Deliver(ids, now) => l.(delivered := l.delivered + {ids})
    case PutBack(ids, retry, now) => l.(returned := l.returned + {ids})
    case Purge(now) => l.(deleted := l.deleted + Where(c.rows, DeletableBatch(p.store, c.rows, now)))
    case _ => l
  }

  /** The ledger after a run. */
  function Booked(p: Policy, c: Core, steps: seq<Step>, l: Ledger): Ledger {
    if |steps| == 0 then l else
      var front := steps[..|steps| - 1];
      Book(p, Exec(p, c, front), steps[|steps| - 1], Booked(p, c, front, l))
  }

  lemma BookedOnce(p: Policy, c: Core, s: Step, l: Ledger)
    ensures Booked(p, c, [s], l) == Book(p, c, s, l)
  {
    assert [s][..0] == [];
  }

  /** The later ledger has everything the earlier one had of handlers and updates by ids. */
  predicate Continues(l: Ledger, later: Ledger) {
    l.completed <= later.completed && l.delivered <= later.delivered && l.returned <= later.returned
  }

  /** The updates by ids among these steps are on record. */
  ghost predicate Records(l: Ledger, steps: seq<Step>) {
    forall s | s in steps :: (s.Deliver? ==> s.ids in l.delivered) && (s.PutBack? ==> s.ids in l.returned)
  }

  lemma {:induction false} BookedRecords(p: Policy, c: Core, steps: seq<Step>, l: Ledger)
    ensures Continues(l, Booked(p, c, steps, l)) && Records(Booked(p, c, steps, l), steps)
    ensures Booked(p, c, steps, l).completed == l.completed
  {
    if |steps| > 0 {
      var front, last := steps[..|steps| - 1], steps[|steps| - 1];
      BookedRecords(p, c, front, l);
      assert forall s :: s in steps <==> s in front || s == last;
    }
  }

  /** An event is accepted pending, unless it only reports what dedupe has already let through. */
  predicate Ordinary(a: Ingress) {
    InitialState(a).Pending? || (InitialState(a).Delivered? && a.source.DedupedObservation?)
  }

  /** Only rows whose delivery handler has completed are ever marked delivered. */
  predicate Fair(l: Ledger, s: Step) {
    match s
    case Append(a, now) => Ordinary(a)
    case Deliver(ids, now) => ids <= l.completed
    case _ => true
  }

  function ShorterWindow(cfg: Config): int {
    if cfg.rollingWindow <= cfg.outageWindow then cfg.rollingWindow else cfg.outageWindow
  }

  /** A delivered row was delivered; a dead-lettered one was old enough by its ingest stamp when it was given up. */
  predicate Truthful(p: Policy, l: Ledger, r: Row) {
    && (r.state.Delivered? ==> r.id in l.completed || r.id in l.observed)
    && (r.state.DeadLetter? ==> r.terminalAt.Some? && r.terminalAt.value - r.ingestAt >= ShorterWindow(p.store))
  }

  predicate AcceptedStands(c: Core, l: Ledger, id: nat) {
    id < c.nextId && (id in Ids(c.rows) || id in Ids(l.deleted))
  }

  ghost predicate Kept(p: Policy, c: Core, l: Ledger) {
    && WellFormed(p, c)
    && (forall id | id in l.accepted :: AcceptedStands(c, l, id))
    && (forall id | id in Ids(l.deleted) :: id !in Ids(c.rows) && id < c.nextId)
    && (forall r | r in c.rows :: Truthful(p, l, r))
    && (forall r | r in l.deleted :: Truthful(p, l, r) && Terminal(r.state))
  }

  lemma RowsStayTruthful(p: Policy, c: Core, s: Step, l: Ledger, r: Row)
    requires Kept(p, c, l) && Enabled(p, c, s) && Fair(l, s) && r in NextRows(p, c, s)
    ensures Truthful(p, Book(p, c, s, l), r)
  {
    var from := RowOrigin(p, c, s, r);
  }

  lemma IdsOfSum(a: seq<Row>, b: seq<Row>)
    ensures Ids(a + b) == Ids(a) + Ids(b)
  {
    IdsWhereComplete(a + b, Everything);
    IdsWhereComplete(a, Everything);
    IdsWhereComplete(b, Everything);
    forall id | id in Ids(a + b) ensures id in Ids(a) + Ids(b) {
      var r := IdsWhereSound(a + b, Everything, id);
    }
    forall id | id in Ids(a) ensures id in Ids(a + b) {
      var r := IdsWhereSound(a, Everything, id);
      assert r in a + b;
    }
    forall id | id in Ids(b) ensures id in Ids(a + b) {
      var r := IdsWhereSound(b, Everything, id);
      assert r in a + b;
    }
  }

  /** A purge takes rows out of the table and into the ledger, whole. */
  lemma PurgeMovesRows(p: Policy, c: Core, now: int)
    requires WellFormed(p, c)
    ensures var gone := Where(c.rows, DeletableBatch(p.store, c.rows, now));
            var rest := Purged(p.store, c.rows, now);
            && Ids(rest) + Ids(gone) == Ids(c.rows) && Ids(rest) !! Ids(gone)
            && (forall r | r in gone :: r in c.rows && Terminal(r.state))
  {
    var ids := DeletableBatch(p.store, c.rows, now);
    var gone, rest := Where(c.rows, ids), Purged(p.store, c.rows, now);
    WhereMembers(c.rows, ids);
    RemoveMembers(c.rows, ids);
    BatchIds(DeletableQuery(p.store, now), c.rows, c.nextId, p.store.pruneBatch);
    forall r | r in gone ensures Terminal(r.state) {
      SelectedRowMatches(c.rows, c.nextId, DeletableQuery(p.store, now), r);
    }
    IdsWhereComplete(rest, Everything);
    IdsWhereComplete(gone, Everything);
    IdsWhereComplete(c.rows, Everything);
    forall id | id in Ids(c.rows) ensures id in Ids(rest) + Ids(gone) {
      var r := IdsWhereSound(c.rows, Everything, id);
    }
    forall id | id in Ids(rest) ensures id in Ids(c.rows) && id !in Ids(gone) {
      var r := IdsWhereSound(rest, Everything, id);
      if id in Ids(gone) {
        var g := IdsWhereSound(gone, Everything, id);
        assert false;
      }
    }
    forall id | id in Ids(gone) ensures id in Ids(c.rows) {
      var r := IdsWhereSound(gone, Everything, id);
    }
  }

  /** Every other step keeps the ids in the table; an append adds its own. */
  lemma OtherStepsKeepIds(p: Policy, c: Core, s: Step)
    requires WellFormed(p, c) && !s.Purge?
    ensures Ids(NextRows(p, c, s)) == if s.Append? then Ids(c.rows) + {c.nextId} else Ids(c.rows)
  {
    match s
    case Append(a, now) =>
      IdsOfSum(c.rows, [NewRow(p.store, c.nextId, a, now)]);
      SingleId(NewRow(p.store, c.nextId, a, now));
    case Deliver(ids, now) => UpdateKeepsIds(c.rows, ids, MoveTo(Delivered, None, now));
    case PutBack(ids, retry, now) => UpdateKeepsIds(c.rows, ids, MoveTo(Pending, retry, now));
    case Reclaim(ids, now) => UpdateKeepsIds(c.rows, ids, MoveTo(Pending, None, now));
    case Claim(limit, now, stamp) =>
      UpdateKeepsIds(c.rows, ClaimIds(c.rows, limit, now), ClaimFor(stamp, ReplayThroughDedupe));
    case MarkDead(outage, now, stamp) =>
      UpdateKeepsIds(c.rows, ExpiredBatch(p.store, c.rows, outage, now), MoveTo(DeadLetter, None, stamp));
    case Restart(now) => UpdateKeepsIds(c.rows, IdsWhere(c.rows, InStates({Replaying})), Recover);
    case _ =>
  }

  lemma SingleId(r: Row)
    ensures Ids([r]) == {r.id}
  {
    assert IdsWhere([r][..0], Everything) == {};
  }

  lemma IdsBelow(rows: seq<Row>, nextId: nat)
    requires WellKeyed(rows, nextId)
    ensures forall id | id in Ids(rows) :: id < nextId
  {
    KeysAscend(rows, nextId);
    forall id | id in Ids(rows) ensures id < nextId {
      var r := IdsWhereSound(rows, Everything, id);
    }
  }

  lemma StepKeepsIds(p: Policy, c: Core, s: Step, l: Ledger)
    requires Kept(p, c, l) && Enabled(p, c, s)
    ensures var c', l' := Next(p, c, s), Book(p, c, s, l);
            && (forall id | id in l'.accepted :: AcceptedStands(c', l', id))
            && (forall id | id in Ids(l'.deleted) :: id !in Ids(c'.rows) && id < c'.nextId)
            && (forall r | r in l'.deleted :: r in l.deleted || (r in c.rows && Terminal(r.state)))
  {
    IdsBelow(c.rows, c.nextId);
    if s.Purge? {
      var gone := Where(c.rows, DeletableBatch(p.store, c.rows, s.now));
      PurgeMovesRows(p, c, s.now);
      IdsOfSum(l.deleted, gone);
    } else {
      OtherStepsKeepIds(p, c, s);
    }
  }

  lemma StepKeeps(p: Policy, c: Core, s: Step, l: Ledger)
    requires Kept(p, c, l) && Enabled(p, c, s) && Fair(l, s)
    ensures Kept(p, Next(p, c, s), Book(p, c, s, l))
  {
    StepKeepsForm(p, c, s);
    StepKeepsIds(p, c, s, l);
    forall r | r in NextRows(p, c, s) ensures Truthful(p, Book(p, c, s, l), r) {
      RowsStayTruthful(p, c, s, l, r);
    }
  }

  /** The ledger keeps its word over every run whose deliveries follow completed handlers. */
  lemma {:induction false} RunKeeps(p: Policy, c: Core, steps: seq<Step>, l: Ledger)
    requires Kept(p, c, l) && Allowed(p, c, steps)
    requires forall s | s in steps :: Fair(l, s)
    ensures Kept(p, Exec(p, c, steps), Booked(p, c, steps, l))
    ensures Booked(p, c, steps, l).completed == l.completed
  {
    if |steps| > 0 {
      var front, last := steps[..|steps| - 1], steps[|steps| - 1];
      RunKeeps(p, c, front, l);
      assert last in steps;
      StepKeeps(p, Exec(p, c, front), last, Booked(p, c, front, l));
    }
  }

  /** A handler that completes only adds to what the ledger may rely on. */
  lemma CompletionKeeps(p: Policy, c: Core, l: Ledger, id: nat)
    requires Kept(p, c, l)
    ensures Kept(p, c, l.(completed := l.completed + {id}))
  {
    var l' := l.(completed := l.completed + {id});
    assert forall r | r in c.rows :: Truthful(p, l, r) ==> Truthful(p, l', r);
    assert forall r | r in l.deleted :: Truthful(p, l, r) ==> Truthful(p, l', r);
  }

  /** `r` is the one row that stands for `id`, and what it says of itself is true. */
  ghost predicate StandsFor(p: Policy, l: Ledger, rows: seq<Row>, id: nat, r: Row) {
    && r in rows && r.id == id && Truthful(p, l, r)
    && forall other | other in rows && other.id == id :: other == r
  }

  /**
   No accepted event is lost: it is one row, in one state, in the table - or it was deleted, delivered or
   dead-lettered. Delivered means its handler completed, dead-lettered that it was old enough.
   */
  lemma AcceptedIsNeverLost(p: Policy, c: Core, l: Ledger, id: nat) returns (r: Row)
    requires Kept(p, c, l) && id in l.accepted
    ensures if id in Ids(c.rows) then StandsFor(p, l, c.rows, id, r) && id !in Ids(l.deleted)
            else r in l.deleted && r.id == id && Truthful(p, l, r) && Terminal(r.state)
  {
    if id in Ids(c.rows) {
      r := IdsWhereSound(c.rows, Everything, id);
      forall other | other in c.rows && other.id == id ensures other == r {
        RowById(c.rows, c.nextId, r, other);
      }
    } else {
      r := IdsWhereSound(l.deleted, Everything, id);
    }
  }
}
