/**
 The lifecycle dispatcher as a machine: a bounded drop-oldest queue, one dispatch at a time, a scheduled microtask,
 and flush calls waiting for the queue to drain. One step is one uninterrupted piece of code; whatever happens while a
 dispatch is awaited, a microtask is pending or a timer runs is some sequence of steps.
 */
module Lifecycle {
  import opened Counters
  import opened Options

  /** The supported event names; any other string is `Unsupported`. */
  datatype EventName =
    | IngressAttempted | IngressAccepted | IngressRefused | StorageAppendFailed | StorageCheckpointCompleted
    | DeliveryAttempted | DeliveryHandlerCompleted | DeliveryAcknowledged | DeliveryFailed | DeliveryIndeterminate
    | ReplayStateChanged | ReplayBatchClaimed | ReplayBatchAcknowledged | ReplayBatchFailed
    | RetentionDeadLettered | RetentionDeleted | HealthChanged | StoragePressureObserved
    | CapacityPressureChanged | OperationDurationObserved
    | Unsupported(text: string)

  datatype Event = Event(kind: EventName, occurredAtMs: string, detail: string)

  /** What `publish` demands of an event: a known name and an unsigned decimal time. */
  predicate WellShaped(e: Event) {
    && !e.kind.Unsupported?
    && |e.occurredAtMs| > 0
    && forall i | 0 <= i < |e.occurredAtMs| :: '0' <= e.occurredAtMs[i] <= '9'
  }

  /** What became of an accepted event that has left the queue. */
  datatype Fate = Dispatched | Overflowed | ShutDown

  datatype Status = DrainedOut | TimedOut | ClosedDown

  datatype FlushResult = FlushResult(status: Status, depth: nat, active: bool)

  datatype Drop = Drop(kind: EventName, reason: Fate)

  /**
   The dispatcher's fields, and its history: `accepted` lists the events whose publication returned true, `fates` what
   became of the first of them, `handed` the events given to listeners, `answers` the results of the flush promises.
   */
  datatype State = State(
    queue: seq<Event>, active: bool, scheduled: bool, closed: bool,
    waiters: set<nat>, droppedTotal: nat, lastDrop: Option<Drop>,
    accepted: seq<Event>, fates: seq<Fate>, handed: seq<Event>, promises: nat, answers: map<nat, FlushResult>)

  datatype Step = Publish(event: Event) | Flush | Expire(waiter: nat) | Microtask | Settle | Close

  function Initial(): State {
    State([], false, false, false, {}, 0, None, [], [], [], 0, map[])
  }

  function ResultNow(s: State, status: Status): FlushResult {
    FlushResult(status, |s.queue|, s.active)
  }

  // ---------------------------------------------------------------- steps

  function DropOldest(s: State, reason: Fate): State
    requires |s.queue| > 0
  {
    s.(queue := s.queue[1..], fates := s.fates + [reason],
       droppedTotal := IncrementSaturating(s.droppedTotal),
       lastDrop := Some(Drop(s.queue[0].kind, reason)))
  }

  function ScheduleDrain(s: State): State {
    if s.scheduled || s.active || s.closed then s else s.(scheduled := true)
  }

  function MakeRoom(s: State, capacity: nat): State {
    if |s.queue| >= capacity && |s.queue| > 0 then DropOldest(s, Overflowed) else s
  }

  function Enqueue(s: State, e: Event): State {
    s.(queue := s.queue + [e], accepted := s.accepted + [e])
  }

  function AfterPublish(s: State, capacity: nat, e: Event): State {
    if s.closed then s else ScheduleDrain(Enqueue(MakeRoom(s, capacity), e))
  }

  /** `flush`: a promise answered at once, or a waiter. */
  function AfterFlush(s: State): State {
    var id := s.promises;
    if s.closed then s.(promises := id + 1, answers := s.answers[id := ResultNow(s, ClosedDown)])
    else if !s.active && |s.queue| == 0 then
      s.(promises := id + 1, answers := s.answers[id := ResultNow(s, DrainedOut)])
    else s.(promises := id + 1, waiters := s.waiters + {id})
  }

  function AfterExpiry(s: State, waiter: nat): State {
    if waiter !in s.waiters then s
    else s.(waiters := s.waiters - {waiter}, answers := s.answers[waiter := ResultNow(s, TimedOut)])
  }

  /** Every waiter gets the same answer. */
  function AnswerAll(s: State, status: Status): State {
    s.(waiters := {}, answers := s.answers + map w | w in s.waiters :: ResultNow(s, status))
  }

  function HandOldest(s: State): State
    requires |s.queue| > 0
  {
    s.(queue := s.queue[1..], active := true, fates := s.fates + [Dispatched], handed := s.handed + [s.queue[0]])
  }

  /** The drain up to its `await`: the oldest event is handed to the listeners. */
  function DrainNext(s: State): State {
    if s.active || s.closed then s
    else if |s.queue| == 0 then AnswerAll(s, DrainedOut)
    else HandOldest(s)
  }

  function AfterMicrotask(s: State): State {
    DrainNext(s.(scheduled := false))
  }

  /** The rest of the drain, once every listener has settled. */
  function AfterSettle(s: State): State {
    var done := s.(active := false);
    if s.closed then done
    else if |s.queue| == 0 then AnswerAll(done, DrainedOut)
    else ScheduleDrain(done)
  }

  /** `close` drops what is queued, one event after another. */
  function DropAll(s: State): State
    decreases |s.queue|
  {
    if |s.queue| == 0 then s else DropAll(DropOldest(s, ShutDown))
  }

  function AfterClose(s: State): State {
    if s.closed then s else AnswerAll(DropAll(s.(closed := true)), ClosedDown)
  }

  /** The runtime runs a microtask only once it has been queued, and settles only an outstanding dispatch. */
  predicate Enabled(s: State, step: Step) {
    match step
    case Microtask => s.scheduled
    case Settle => s.active
    case _ => true
  }

  function Next(s: State, capacity: nat, step: Step): State {
    match step
    case Publish(e) => AfterPublish(s, capacity, e)
    case Flush => AfterFlush(s)
    case Expire(w) => AfterExpiry(s, w)
    case Microtask => AfterMicrotask(s)
    case Settle => AfterSettle(s)
    case Close => AfterClose(s)
  }

  function Exec(s: State, capacity: nat, steps: seq<Step>): State {
    if |steps| == 0 then s else Next(Exec(s, capacity, steps[..|steps| - 1]), capacity, steps[|steps| - 1])
  }

  predicate Allowed(s: State, capacity: nat, steps: seq<Step>) {
    |steps| == 0 ||
    (Allowed(s, capacity, steps[..|steps| - 1]) &&
     Enabled(Exec(s, capacity, steps[..|steps| - 1]), steps[|steps| - 1]))
  }

  // ---------------------------------------------------------------- the books

  function Count(fates: seq<Fate>, fate: Fate): nat {
    if |fates| == 0 then 0 else Count(fates[..|fates| - 1], fate) + if fates[|fates| - 1] == fate then 1 else 0
  }

  /** The accepted events with a given fate, in the order they were accepted in. */
  function WithFate(accepted: seq<Event>, fates: seq<Fate>, fate: Fate): seq<Event>
    requires |fates| <= |accepted|
  {
    if |fates| == 0 then [] else
      var n := |fates| - 1;
      WithFate(accepted, fates[..n], fate) + if fates[n] == fate then [accepted[n]] else []
  }

  function Lost(fates: seq<Fate>): nat {
    Count(fates, Overflowed) + Count(fates, ShutDown)
  }

  /** Every accepted event is either still queued or has exactly one fate; queue and fates keep the order. */
  ghost predicate Conserved(s: State) {
    && |s.fates| <= |s.accepted|
    && s.queue == s.accepted[|s.fates|..]
    && s.handed == WithFate(s.accepted, s.fates, Dispatched)
    && s.droppedTotal == Min(MAX_SAFE_INTEGER, Lost(s.fates))
  }

  /** While open: work that remains is scheduled or in progress, never both, and only remaining work is waited for. */
  ghost predicate Live(s: State, capacity: nat) {
    && |s.queue| <= capacity
    && !(s.scheduled && s.active)
    && (|s.queue| > 0 ==> s.scheduled || s.active)
    && (s.scheduled ==> |s.queue| > 0)
    && (s.waiters != {} ==> s.active || |s.queue| > 0)
  }

  /** A flush promise is waiting or answered, not both; `drained` is answered only for a dispatcher that is. */
  ghost predicate Answered(s: State) {
    && (forall w | w in s.waiters :: w < s.promises && w !in s.answers)
    && (forall w | w in s.answers :: w < s.promises)
    && (forall w | w in s.answers && s.answers[w].status.DrainedOut? ::
          s.answers[w] == FlushResult(DrainedOut, 0, false))
    && (forall w: nat | w < s.promises :: w in s.waiters || w in s.answers)
  }

  ghost predicate Valid(s: State, capacity: nat) {
    && Conserved(s) && Answered(s)
    && if s.closed then s.queue == [] && s.waiters == {} else Live(s, capacity)
  }

  lemma SnocFate(accepted: seq<Event>, fates: seq<Fate>, fate: Fate, kind: Fate)
    requires |fates| < |accepted|
    ensures Count(fates + [fate], kind) == Count(fates, kind) + if fate == kind then 1 else 0
    ensures WithFate(accepted, fates + [fate], kind) ==
            WithFate(accepted, fates, kind) + if fate == kind then [accepted[|fates|]] else []
  {
    assert (fates + [fate])[..|fates|] == fates;
  }

  lemma {:induction false} MoreAccepted(accepted: seq<Event>, e: Event, fates: seq<Fate>, kind: Fate)
    requires |fates| <= |accepted|
    ensures WithFate(accepted + [e], fates, kind) == WithFate(accepted, fates, kind)
  {
    if |fates| > 0 {
      MoreAccepted(accepted, e, fates[..|fates| - 1], kind);
    }
  }

  /** Taking the oldest event off the queue, whatever for, keeps the books. */
  lemma TakeOldest(s: State, fate: Fate)
    requires Conserved(s) && |s.queue| > 0
    ensures var fates := s.fates + [fate];
            && |fates| <= |s.accepted|
            && s.queue[1..] == s.accepted[|fates|..]
            && s.queue[0] == s.accepted[|s.fates|]
            && WithFate(s.accepted, fates, Dispatched) == s.handed + (if fate.Dispatched? then [s.queue[0]] else [])
            && Lost(fates) == Lost(s.fates) + if fate.Dispatched? then 0 else 1
  {
    SnocFate(s.accepted, s.fates, fate, Dispatched);
    SnocFate(s.accepted, s.fates, fate, Overflowed);
    SnocFate(s.accepted, s.fates, fate, ShutDown);
  }

  lemma DropOldestConserves(s: State, reason: Fate)
    requires Conserved(s) && |s.queue| > 0 && !reason.Dispatched?
    ensures Conserved(DropOldest(s, reason))
  {
    TakeOldest(s, reason);
  }

  lemma EnqueueConserves(s: State, e: Event)
    requires Conserved(s)
    ensures Conserved(Enqueue(s, e))
  {
    MoreAccepted(s.accepted, e, s.fates, Dispatched);
  }

  lemma {:induction false} DropAllConserves(s: State)
    requires Conserved(s)
    ensures Conserved(DropAll(s))
    ensures DropAll(s).queue == [] && DropAll(s) == s.(queue := [], fates := DropAll(s).fates,
              droppedTotal := DropAll(s).droppedTotal, lastDrop := DropAll(s).lastDrop)
    decreases |s.queue|
  {
    if |s.queue| > 0 {
      DropOldestConserves(s, ShutDown);
      DropAllConserves(DropOldest(s, ShutDown));
    }
  }

  lemma AnswerAllAnswers(s: State, status: Status)
    requires Answered(s) && (status.DrainedOut? ==> |s.queue| == 0 && !s.active)
    ensures Answered(AnswerAll(s, status))
  {
  }

  lemma StepConserves(s: State, capacity: nat, step: Step)
    requires Valid(s, capacity) && capacity > 0
    ensures Conserved(Next(s, capacity, step))
  {
    match step
    case Publish(e) =>
      if !s.closed {
        if |s.queue| >= capacity { DropOldestConserves(s, Overflowed); }
        EnqueueConserves(MakeRoom(s, capacity), e);
      }
    case Microtask => if |s.queue| > 0 { TakeOldest(s, Dispatched); }
    case Close => DropAllConserves(s.(closed := true));
    case _ =>
  }

  lemma StepAnswers(s: State, capacity: nat, step: Step)
    requires Valid(s, capacity)
    ensures Answered(Next(s, capacity, step))
  {
    match step
    case Microtask => if !s.active && !s.closed && |s.queue| == 0 { AnswerAllAnswers(s, DrainedOut); }
    case Settle =>
      if !s.closed && |s.queue| == 0 { AnswerAllAnswers(s.(active := false), DrainedOut); }
    case Close =>
      if !s.closed {
        DropAllConserves(s.(closed := true));
        AnswerAllAnswers(DropAll(s.(closed := true)), ClosedDown);
      }
    case Publish(e) => assert Next(s, capacity, step).waiters == s.waiters;
    case Flush =>
    case Expire(w) =>
  }

  /** No step takes an answer back or changes it. */
  lemma StepAnswersOnce(s: State, capacity: nat, step: Step, w: nat)
    requires Valid(s, capacity) && w in s.answers
    ensures w in Next(s, capacity, step).answers && Next(s, capacity, step).answers[w] == s.answers[w]
  {
    if step.Close? && !s.closed {
      DropAllConserves(s.(closed := true));
    }
  }

  lemma StepKeepsValid(s: State, capacity: nat, step: Step)
    requires Valid(s, capacity) && capacity > 0 && Enabled(s, step)
    ensures Valid(Next(s, capacity, step), capacity)
  {
    StepConserves(s, capacity, step);
    StepAnswers(s, capacity, step);
    if step.Close? && !s.closed {
      DropAllConserves(s.(closed := true));
    }
  }

  /** Every run from a valid state, in particular from the initial one, keeps the books and the answers straight. */
  lemma {:induction false} RunKeepsValid(s: State, capacity: nat, steps: seq<Step>)
    requires capacity > 0 && Valid(s, capacity) && Allowed(s, capacity, steps)
    ensures Valid(Exec(s, capacity, steps), capacity)
  {
    if |steps| > 0 {
      RunKeepsValid(s, capacity, steps[..|steps| - 1]);
      StepKeepsValid(Exec(s, capacity, steps[..|steps| - 1]), capacity, steps[|steps| - 1]);
    }
  }

  // ---------------------------------------------------------------- what a run can rely on

  lemma {:induction false} FatesAddUp(fates: seq<Fate>)
    ensures Count(fates, Dispatched) + Lost(fates) == |fates|
  {
    if |fates| > 0 {
      FatesAddUp(fates[..|fates| - 1]);
    }
  }

  lemma {:induction false} WithFateCount(accepted: seq<Event>, fates: seq<Fate>, fate: Fate)
    requires |fates| <= |accepted|
    ensures |WithFate(accepted, fates, fate)| == Count(fates, fate)
  {
    if |fates| > 0 {
      WithFateCount(accepted, fates[..|fates| - 1], fate);
    }
  }

  /** Conservation: what was accepted was dispatched, is queued, or was dropped; the counter says how many were. */
  lemma NothingUnaccounted(capacity: nat, steps: seq<Step>)
    requires capacity > 0 && Allowed(Initial(), capacity, steps)
    ensures var s := Exec(Initial(), capacity, steps);
            && |s.accepted| == |s.handed| + |s.queue| + Lost(s.fates)
            && (Lost(s.fates) <= MAX_SAFE_INTEGER ==> s.droppedTotal == Lost(s.fates))
            && (!s.closed ==> |s.queue| <= capacity)
  {
    RunKeepsValid(Initial(), capacity, steps);
    var s := Exec(Initial(), capacity, steps);
    FatesAddUp(s.fates);
    WithFateCount(s.accepted, s.fates, Dispatched);
  }

  /** Where the events with a fate stand among the accepted ones. */
  function Positions(fates: seq<Fate>, fate: Fate): seq<nat> {
    if |fates| == 0 then [] else
      var n := |fates| - 1;
      Positions(fates[..n], fate) + if fates[n] == fate then [n] else []
  }

  ghost predicate Ascending(positions: seq<nat>, bound: nat) {
    && (forall i, j | 0 <= i < j < |positions| :: positions[i] < positions[j])
    && forall i | 0 <= i < |positions| :: positions[i] < bound
  }

  lemma {:induction false} WithFateIsSubsequence(accepted: seq<Event>, fates: seq<Fate>, fate: Fate)
    requires |fates| <= |accepted|
    ensures var at, picked := Positions(fates, fate), WithFate(accepted, fates, fate);
            && Ascending(at, |fates|) && |picked| == |at|
            && (forall i | 0 <= i < |at| :: fates[at[i]] == fate && picked[i] == accepted[at[i]])
  {
    if |fates| > 0 {
      WithFateIsSubsequence(accepted, fates[..|fates| - 1], fate);
    }
  }

  /**
   Order: the events handed to listeners are a subsequence of the accepted ones, and every one of them, like every one
   dropped, was accepted before everything still queued.
   */
  lemma HandedInOrder(capacity: nat, steps: seq<Step>)
    requires capacity > 0 && Allowed(Initial(), capacity, steps)
    ensures var s := Exec(Initial(), capacity, steps);
            var at := Positions(s.fates, Dispatched);
            && Ascending(at, |s.fates|) && |s.handed| == |at|
            && |s.fates| <= |s.accepted| && s.queue == s.accepted[|s.fates|..]
            && forall i | 0 <= i < |at| :: s.handed[i] == s.accepted[at[i]]
  {
    RunKeepsValid(Initial(), capacity, steps);
    var s := Exec(Initial(), capacity, steps);
    WithFateIsSubsequence(s.accepted, s.fates, Dispatched);
  }

  lemma {:induction false} DropAllGrows(s: State)
    ensures |DropAll(s).fates| == |s.fates| + |s.queue|
    decreases |s.queue|
  {
    if |s.queue| > 0 {
      DropAllGrows(DropOldest(s, ShutDown));
    }
  }

  /** The history only grows. */
  lemma StepGrows(s: State, capacity: nat, step: Step)
    requires Valid(s, capacity)
    ensures |s.fates| <= |Next(s, capacity, step).fates|
    ensures s.promises <= Next(s, capacity, step).promises
  {
    if step.Close? && !s.closed {
      DropAllGrows(s.(closed := true));
      DropAllConserves(s.(closed := true));
    }
  }

  /** Each flush promise is answered at most once: an answer never changes. */
  lemma {:induction false} AnswersAreFinal(s: State, capacity: nat, steps: seq<Step>, w: nat)
    requires capacity > 0 && Valid(s, capacity) && Allowed(s, capacity, steps) && w in s.answers
    ensures w in Exec(s, capacity, steps).answers && Exec(s, capacity, steps).answers[w] == s.answers[w]
  {
    if |steps| > 0 {
      AnswersAreFinal(s, capacity, steps[..|steps| - 1], w);
      RunKeepsValid(s, capacity, steps[..|steps| - 1]);
      StepAnswersOnce(Exec(s, capacity, steps[..|steps| - 1]), capacity, steps[|steps| - 1], w);
    }
  }

  /** The promise is still open, or was answered, and if with `drained` then the first `n` accepted events are out. */
  ghost predicate Honest(s: State, w: nat, n: nat) {
    && w < s.promises && n <= |s.accepted|
    && (w in s.answers && s.answers[w].status.DrainedOut? ==> n <= |s.fates|)
  }

  lemma StepStaysHonest(s: State, capacity: nat, step: Step, w: nat, n: nat)
    requires capacity > 0 && Valid(s, capacity) && Enabled(s, step) && Honest(s, w, n)
    ensures Honest(Next(s, capacity, step), w, n)
  {
    StepKeepsValid(s, capacity, step);
    if w in s.answers { StepAnswersOnce(s, capacity, step, w); }
    StepGrows(s, capacity, step);
    if step.Close? && !s.closed {
      DropAllConserves(s.(closed := true));
    }
  }

  lemma {:induction false} RunStaysHonest(s: State, capacity: nat, steps: seq<Step>, w: nat, n: nat)
    requires capacity > 0 && Valid(s, capacity) && Allowed(s, capacity, steps) && Honest(s, w, n)
    ensures Honest(Exec(s, capacity, steps), w, n)
  {
    if |steps| > 0 {
      RunStaysHonest(s, capacity, steps[..|steps| - 1], w, n);
      RunKeepsValid(s, capacity, steps[..|steps| - 1]);
      StepStaysHonest(Exec(s, capacity, steps[..|steps| - 1]), capacity, steps[|steps| - 1], w, n);
    }
  }

  /**
   What `drained` means: when the promise of a `flush` is answered so, however much later, every event accepted before
   that call has left the queue - dispatched, or dropped to make room.
   */
  lemma DrainedMeansDrained(s: State, capacity: nat, steps: seq<Step>)
    requires capacity > 0 && Valid(s, capacity) && Allowed(AfterFlush(s), capacity, steps)
    ensures var t := Exec(AfterFlush(s), capacity, steps);
            s.promises in t.answers && t.answers[s.promises].status.DrainedOut? ==> |s.accepted| <= |t.fates|
  {
    StepKeepsValid(s, capacity, Flush);
    RunStaysHonest(AfterFlush(s), capacity, steps, s.promises, |s.accepted|);
  }

  // ---------------------------------------------------------------- left to itself, it drains

  /** Pieces of code still to run before everything is drained. */
  function Work(s: State): nat {
    2 * |s.queue| + if s.active then 1 else 0
  }

  /** What runs next when nobody publishes: the outstanding dispatch settles, or the pending microtask runs. */
  function Internal(s: State): Step {
    if s.active then Settle else Microtask
  }

  function RunDown(s: State, capacity: nat, k: nat): State
    decreases k
  {
    if k == 0 then s else RunDown(Next(s, capacity, Internal(s)), capacity, k - 1)
  }

  lemma InternalStep(s: State, capacity: nat)
    requires capacity > 0 && Valid(s, capacity) && !s.closed && Work(s) > 0
    ensures var t := Next(s, capacity, Internal(s));
            && Enabled(s, Internal(s)) && Valid(t, capacity) && !t.closed
            && Work(t) == Work(s) - 1 && t.accepted == s.accepted && t.promises == s.promises
            && Lost(t.fates) == Lost(s.fates)
            && (forall w | w in t.answers :: w in s.answers || t.answers[w].status.DrainedOut?)
            && (forall w | w in s.answers :: w in t.answers && t.answers[w] == s.answers[w])
  {
    StepKeepsValid(s, capacity, Internal(s));
    if !s.active { TakeOldest(s, Dispatched); }
  }

  /**
   Liveness: an open dispatcher left to itself always has its next piece of code pending, and after exactly `Work`
   pieces every accepted event is dispatched or was dropped before, and every flush promise is answered - those that
   were waiting, with `drained`.
   */
  lemma {:induction false} DrainsByItself(s: State, capacity: nat)
    requires capacity > 0 && Valid(s, capacity) && !s.closed
    ensures var t := RunDown(s, capacity, Work(s));
            && Valid(t, capacity) && t.queue == [] && !t.active && t.waiters == {}
            && Lost(t.fates) == Lost(s.fates) && |t.handed| == |s.accepted| - Lost(s.fates)
            && (forall w | w in s.waiters :: w in t.answers && t.answers[w].status.DrainedOut?)
    decreases Work(s)
  {
    if Work(s) == 0 {
      FatesAddUp(s.fates);
      WithFateCount(s.accepted, s.fates, Dispatched);
    } else {
      var t := Next(s, capacity, Internal(s));
      InternalStep(s, capacity);
      DrainsByItself(t, capacity);
      StillAnswered(t, capacity, Work(t));
    }
  }

  lemma {:induction false} StillAnswered(s: State, capacity: nat, k: nat)
    requires capacity > 0 && Valid(s, capacity) && !s.closed && k <= Work(s)
    ensures forall w | w in s.answers ::
              w in RunDown(s, capacity, k).answers && RunDown(s, capacity, k).answers[w] == s.answers[w]
    decreases k
  {
    if k > 0 {
      InternalStep(s, capacity);
      StillAnswered(Next(s, capacity, Internal(s)), capacity, k - 1);
    }
  }
}
