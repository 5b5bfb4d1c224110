/**
 The dispatcher's history, entry by entry: which fate each step gives to which events, why a flush promise is answered
 and with what, and what the record of drops says.
 */
module LifecycleHistory {
  import opened Counters
  import opened Options
  import opened Lifecycle

  /** `n` events in a row, all with the same fate. */
  predicate AllOf(fates: seq<Fate>, fate: Fate, n: nat) {
    |fates| == n && forall i | 0 <= i < n :: fates[i] == fate
  }

  lemma {:induction false} DropAllShutsDown(s: State)
    ensures s.fates <= DropAll(s).fates && AllOf(DropAll(s).fates[|s.fates|..], ShutDown, |s.queue|)
    ensures DropAll(s).accepted == s.accepted && DropAll(s).closed == s.closed && DropAll(s).handed == s.handed
    decreases |s.queue|
  {
    if |s.queue| > 0 {
      DropAllShutsDown(DropOldest(s, ShutDown));
    }
  }

  /**
   The fates a step adds: a publication into a full queue drops one event to make room, a microtask dispatches one, a
   close shuts down all that are queued, and nothing else takes an event off the queue. A publication is taken in
   exactly while the dispatcher is open, and only a close closes it.
   */
  lemma FatesExactly(s: State, capacity: nat, step: Step)
    requires capacity > 0 && Valid(s, capacity) && Lifecycle.Enabled(s, step)
    ensures s.fates <= Next(s, capacity, step).fates
    ensures var t := Next(s, capacity, step);
            var taken := t.fates[|s.fates|..];
            && (t.closed <==> s.closed || step == Close)
            && t.accepted == (if step.Publish? && !s.closed then s.accepted + [step.event] else s.accepted)
            && match step
               case Publish(_) => AllOf(taken, Overflowed, if !s.closed && |s.queue| == capacity then 1 else 0)
               case Microtask => AllOf(taken, Dispatched, if s.closed then 0 else 1)
               case Close => AllOf(taken, ShutDown, |s.queue|)
               case _ => taken == []
  {
    if step.Close? && !s.closed {
      DropAllShutsDown(s.(closed := true));
    }
  }

  /**
   Why a promise is answered: `timed_out` exactly when its own timer has run out, `closed` exactly when the dispatcher
   is closed, and `drained` when, open, nothing is queued or active any more. The answer reports what is queued and
   active right after the step.
   */
  lemma AnswerExactly(s: State, capacity: nat, step: Step, w: nat)
    requires capacity > 0 && Valid(s, capacity) && Lifecycle.Enabled(s, step)
    requires w !in s.answers && w in Next(s, capacity, step).answers
    ensures var t := Next(s, capacity, step);
            var answer := t.answers[w];
            && (answer.status == TimedOut <==> step == Expire(w))
            && (answer.status == ClosedDown <==> t.closed)
            && (answer.status == DrainedOut ==> !t.closed && t.queue == [] && !t.active)
            && answer.depth == |t.queue| && answer.active == t.active
  {
    if step.Close? && !s.closed {
      DropAllConserves(s.(closed := true));
    }
  }

  /** A promise waits on exactly as long as the dispatcher is open and busy and its timer has not run out. */
  lemma WaitsExactly(s: State, capacity: nat, step: Step, w: nat)
    requires capacity > 0 && Valid(s, capacity) && Lifecycle.Enabled(s, step)
    requires w in s.waiters || (step == Flush && w == s.promises)
    ensures var t := Next(s, capacity, step);
            && (w in t.waiters <==> !t.closed && (t.queue != [] || t.active) && step != Expire(w))
            && (w in t.waiters <==> w !in t.answers)
  {
    StepKeepsValid(s, capacity, step);
    if step.Close? && !s.closed {
      DropAllConserves(s.(closed := true));
    }
  }

  // ---------------------------------------------------------------- the record of drops

  /** The last of the fates that is a drop, as the record shows it. */
  function LastLoss(accepted: seq<Event>, fates: seq<Fate>): Option<Drop>
    requires |fates| <= |accepted|
  {
    if |fates| == 0 then None else
      var n := |fates| - 1;
      if fates[n] == Dispatched then LastLoss(accepted, fates[..n])
      else Some(Drop(accepted[n].kind, fates[n]))
  }

  lemma {:induction false} LossSnoc(accepted: seq<Event>, fates: seq<Fate>, fate: Fate)
    requires |fates| < |accepted|
    ensures LastLoss(accepted, fates + [fate]) ==
            if fate == Dispatched then LastLoss(accepted, fates) else Some(Drop(accepted[|fates|].kind, fate))
  {
    assert (fates + [fate])[..|fates|] == fates;
  }

  lemma {:induction false} LossOfMore(accepted: seq<Event>, e: Event, fates: seq<Fate>)
    requires |fates| <= |accepted|
    ensures LastLoss(accepted + [e], fates) == LastLoss(accepted, fates)
  {
    if |fates| > 0 {
      LossOfMore(accepted, e, fates[..|fates| - 1]);
    }
  }

  lemma DropIsRecorded(s: State, reason: Fate)
    requires Conserved(s) && |s.queue| > 0 && reason != Dispatched
    ensures var t := DropOldest(s, reason);
            && Conserved(t) && t.lastDrop == LastLoss(t.accepted, t.fates)
  {
    DropOldestConserves(s, reason);
    LossSnoc(s.accepted, s.fates, reason);
  }

  lemma {:induction false} DropsAreRecorded(s: State)
    requires Conserved(s) && s.lastDrop == LastLoss(s.accepted, s.fates)
    ensures Conserved(DropAll(s)) && DropAll(s).lastDrop == LastLoss(DropAll(s).accepted, DropAll(s).fates)
    decreases |s.queue|
  {
    if |s.queue| > 0 {
      DropIsRecorded(s, ShutDown);
      DropsAreRecorded(DropOldest(s, ShutDown));
    }
  }

  /** What a publication does to the record. */
  lemma PublishRecords(s: State, capacity: nat, e: Event)
    requires Valid(s, capacity) && capacity > 0 && !s.closed && s.lastDrop == LastLoss(s.accepted, s.fates)
    ensures var t := AfterPublish(s, capacity, e);
            |t.fates| <= |t.accepted| && t.lastDrop == LastLoss(t.accepted, t.fates)
  {
    if |s.queue| >= capacity { DropIsRecorded(s, Overflowed); }
    var room := MakeRoom(s, capacity);
    LossOfMore(room.accepted, e, room.fates);
  }

  lemma StepRecords(s: State, capacity: nat, step: Step)
    requires capacity > 0 && Valid(s, capacity) && Lifecycle.Enabled(s, step)
    requires s.lastDrop == LastLoss(s.accepted, s.fates)
    ensures var t := Next(s, capacity, step);
            |t.fates| <= |t.accepted| && t.lastDrop == LastLoss(t.accepted, t.fates)
  {
    match step
    case Publish(e) => if !s.closed { PublishRecords(s, capacity, e); }
    case Microtask => if !s.closed { LossSnoc(s.accepted, s.fates, Dispatched); }
    case Close => if !s.closed { DropsAreRecorded(s.(closed := true)); }
    case _ =>
  }

  /** Over any run the record shows the last event dropped and why, and none exactly if none has been. */
  lemma {:induction false} LastDropIsLast(capacity: nat, steps: seq<Step>)
    requires capacity > 0 && Lifecycle.Allowed(Initial(), capacity, steps)
    ensures var s := Lifecycle.Exec(Initial(), capacity, steps);
            && |s.fates| <= |s.accepted|
            && s.lastDrop == LastLoss(s.accepted, s.fates)
            && (s.lastDrop == None <==> s.handed == s.accepted[..|s.fates|])
  {
    if |steps| > 0 {
      var front, last := steps[..|steps| - 1], steps[|steps| - 1];
      LastDropIsLast(capacity, front);
      RunKeepsValid(Initial(), capacity, front);
      StepRecords(Lifecycle.Exec(Initial(), capacity, front), capacity, last);
    }
    RunKeepsValid(Initial(), capacity, steps);
    var s := Lifecycle.Exec(Initial(), capacity, steps);
    NoLossHandsAll(s.accepted, s.fates);
  }

  lemma {:induction false} NoLossHandsAll(accepted: seq<Event>, fates: seq<Fate>)
    requires |fates| <= |accepted|
    ensures |WithFate(accepted, fates, Dispatched)| <= |fates|
    ensures LastLoss(accepted, fates) == None <==> WithFate(accepted, fates, Dispatched) == accepted[..|fates|]
  {
    if |fates| > 0 {
      var n := |fates| - 1;
      NoLossHandsAll(accepted, fates[..n]);
      assert accepted[..n + 1] == accepted[..n] + [accepted[n]];
      if WithFate(accepted, fates, Dispatched) == accepted[..n + 1] {
        assert |WithFate(accepted, fates, Dispatched)| == n + 1;
        assert accepted[..n + 1][..n] == accepted[..n];
      }
    }
  }
}
