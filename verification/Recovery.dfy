/** Restart: recovery as a function of the rows, and the session rebuilt from them. */
module Recovery {
  import Admission
  import opened Options
  import opened Rows
  import opened Database
  import opened Store
  import opened Session
  import opened Protocol

  /** Recovery moves exactly the interrupted rows, and of them changes only the state and the claim stamp. */
  lemma RecoveryIsExact(rows: seq<Row>, nextId: nat)
    requires WellKeyed(rows, nextId)
    ensures |Recovered(rows)| == |rows|
    ensures forall i | 0 <= i < |rows| ::
              Recovered(rows)[i] ==
              if rows[i].state.Replaying? then rows[i].(state := Pending, claimedAt := None) else rows[i]
    ensures Recount(Recovered(rows)) == Recount(rows)
  {
    var ids := IdsWhere(rows, InStates({Replaying}));
    forall i | 0 <= i < |rows|
      ensures rows[i].id in ids <==> rows[i].state.Replaying?
    {
      SelectedRowMatches(rows, nextId, InStates({Replaying}), rows[i]);
    }
    forall r | r in rows && r.id in ids ensures Live(r.state) {
      SelectedRowMatches(rows, nextId, InStates({Replaying}), r);
    }
    LiveMovesKeepTotals(rows, ids, Recover);
  }

  /** So recovering twice is recovering once. */
  lemma RecoveryIsIdempotent(rows: seq<Row>, nextId: nat)
    requires WellKeyed(rows, nextId)
    ensures Recovered(Recovered(rows)) == Recovered(rows)
  {
    RecoveryIsExact(rows, nextId);
    UpdateKeepsKeys(rows, nextId, IdsWhere(rows, InStates({Replaying})), Recover);
    RecoveryIsExact(Recovered(rows), nextId);
  }

  // ---------------------------------------------------------------- the waiting rows

  predicate AllWait(rows: seq<Row>, now: int) {
    forall r | r in rows && Live(r.state) :: Matches(Waiting(now), r)
  }

  /** Counting agrees with quantifying: the two counts are equal exactly when every live row waits. */
  lemma {:induction false} WaitingCount(rows: seq<Row>, now: int)
    ensures Sum(Matching(Waiting(now)), rows) <= LiveCount(rows)
    ensures Sum(Matching(Waiting(now)), rows) == LiveCount(rows) <==> AllWait(rows, now)
  {
    if |rows| > 0 {
      var front, last := rows[..|rows| - 1], rows[|rows| - 1];
      WaitingCount(front, now);
      assert forall r :: r in rows <==> r in front || r == last;
    }
  }

  lemma {:induction false} LeastRetryIsLeast(waiting: seq<Row>)
    requires forall r | r in waiting :: r.retryAt.Some?
    ensures |waiting| > 0 ==> LeastRetry(waiting).Some? && exists r :: r in waiting && r.retryAt == LeastRetry(waiting)
    ensures forall r | r in waiting :: LeastRetry(waiting).Some? && LeastRetry(waiting).value <= r.retryAt.value
  {
    if |waiting| > 0 {
      var front, last := waiting[..|waiting| - 1], waiting[|waiting| - 1];
      assert last in waiting;
      forall r | r in front ensures r in waiting { }
      LeastRetryIsLeast(front);
      assert forall r :: r in waiting <==> r in front || r == last;
      if |front| > 0 && LeastRetry(waiting) == LeastRetry(front) {
        var r :| r in front && r.retryAt == LeastRetry(front);
        assert r in waiting;
      }
    }
  }

  /** The earliest deadline among the rows waiting for a retry. */
  ghost predicate IsEarliest(rows: seq<Row>, now: int, deadline: int) {
    && (exists r :: r in rows && Matches(Waiting(now), r) && r.retryAt == Some(deadline))
    && forall r | r in rows && Matches(Waiting(now), r) :: deadline <= r.retryAt.value
  }

  lemma EarliestRetryIsEarliest(rows: seq<Row>, nextId: nat, now: int, some: Row)
    requires WellKeyed(rows, nextId) && some in rows && Matches(Waiting(now), some)
    ensures var least := LeastRetry(Where(rows, IdsWhere(rows, Waiting(now))));
            && least.Some? && IsEarliest(rows, now, least.value)
            && EarliestRetry(rows, now) == if least.value == 0 then None else least
  {
    var ids := IdsWhere(rows, Waiting(now));
    var waiting := Where(rows, ids);
    WhereMembers(rows, ids);
    forall r | r in rows ensures r.id in ids <==> Matches(Waiting(now), r) {
      SelectedRowMatches(rows, nextId, Waiting(now), r);
    }
    LeastRetryIsLeast(waiting);
    assert some in waiting;
  }

  /** The failure count a restart begins with is the largest number of attempts on a pending row. */
  lemma {:induction false} MaxAttemptsIsMax(rows: seq<Row>)
    ensures forall r | r in rows && r.state.Pending? :: r.attempts <= MaxAttempts(rows)
    ensures MaxAttempts(rows) > 0 ==> exists r :: r in rows && r.state.Pending? && r.attempts == MaxAttempts(rows)
  {
    if |rows| > 0 {
      var front, last := rows[..|rows| - 1], rows[|rows| - 1];
      MaxAttemptsIsMax(front);
      assert forall r :: r in rows <==> r in front || r == last;
      if MaxAttempts(rows) > 0 && MaxAttempts(rows) == MaxAttempts(front) {
        var r :| r in front && r.state.Pending? && r.attempts == MaxAttempts(front);
        assert r in rows;
      }
    }
  }

  // ---------------------------------------------------------------- the rebuilt session

  /**
   The session after a restart is a function of the recovered rows: idle exactly when none is live; failed, waiting
   for the earliest deadline, exactly when all live rows wait for a retry (and that deadline is not the number 0,
   which the statistics read as "no deadline"); queued otherwise.
   */
  lemma RebuiltSessionState(p: Policy, rows: seq<Row>, nextId: nat, now: int)
    requires WellKeyed(rows, nextId)
    ensures var s := RebuiltSession(p, rows, now);
            && (s.state.Idle? <==> LiveCount(rows) == 0)
            && (s.state.Failed? <==> LiveCount(rows) > 0 && AllWait(rows, now) && !IsEarliest(rows, now, 0))
            && (s.state.Failed? || s.state.Idle? || s.state.Queued?)
            && (s.state.Failed? ==> s.nextRetryAt.Some? && IsEarliest(rows, now, s.nextRetryAt.value))
            && (!s.state.Failed? ==> s.nextRetryAt.None?)
            && s.queued == LiveCount(rows)
  {
    WaitingCount(rows, now);
    if LiveCount(rows) > 0 && AllWait(rows, now) {
      SumZero(LiveRows, rows);
      var some :| some in rows && Live(some.state);
      EarliestRetryIsEarliest(rows, nextId, now, some);
    }
  }

  /** With a clock that has not gone negative the exception cannot arise: failed exactly when all live rows wait. */
  lemma RebuiltSessionOnPositiveClock(p: Policy, rows: seq<Row>, nextId: nat, now: int)
    requires WellKeyed(rows, nextId) && now >= 0
    ensures RebuiltSession(p, rows, now).state.Failed? <==> LiveCount(rows) > 0 && AllWait(rows, now)
  {
    RebuiltSessionState(p, rows, nextId, now);
    assert forall r | r in rows && Matches(Waiting(now), r) :: r.retryAt.value > 0;
  }

  /** Before the epoch it can: one row waiting for time 0 is taken for a row that does not wait. */
  lemma ZeroDeadlineIsLost()
    ensures exists p, rows, nextId, now ::
              WellKeyed(rows, nextId) && LiveCount(rows) > 0 && AllWait(rows, now)
              && RebuiltSession(p, rows, now).state.Queued?
  {
    var row := Row(1, -10, TransportStream, "", 0, Normal, Pending, 1, Some(0), None, None, 0);
    var rows := [row];
    var p := Policy(Config(0, 0, 1, 0, 0, Admission.Capacity(None, None, None, None)), 5, 2);
    SumSnoc(LiveRows, [], row);
    assert [] + [row] == rows;
    assert WellKeyed(rows, 2) && row in rows && AllWait(rows, -5);
    EarliestRetryIsEarliest(rows, 2, -5, row);
    RebuiltSessionState(p, rows, 2, -5);
    assert IsEarliest(rows, -5, 0);
  }
}
