/** The dispatcher object: the fields the repository's class has, updated in place; each piece is a machine step. */
module Dispatcher {
  import opened Counters
  import opened Options
  import opened Lifecycle

  datatype Failure = ClosedError | UnsupportedEvent | NotAnEvent | NegativeTimeout

  /** The listeners an event goes to. */
  function Listening(subscriptions: map<nat, EventName>, kind: EventName): set<nat> {
    set id | id in subscriptions && subscriptions[id] == kind
  }

  class LifecycleDispatcher {
    const capacity: nat
    var queue: seq<Event>
    var flushWaiters: set<nat>
    var active: bool
    var scheduled: bool
    var closed: bool
    var droppedTotal: nat
    var lastDrop: Option<Drop>
    var listenerFailureTotal: nat
    var subscriberCount: int
    /** Subscriptions not yet given up, with the event each is for; ids are never used twice. */
    var subscriptions: map<nat, EventName>
    var nextSubscription: nat
    /** Listeners of the current dispatch that have not settled. */
    var running: set<nat>

    /** Promises `flush` has handed out, and what those resolved so far resolved to. */
    var promises: nat
    var answers: map<nat, FlushResult>

    ghost var accepted: seq<Event>
    ghost var fates: seq<Fate>
    ghost var handed: seq<Event>
    /** The subscriptions there were when the dispatcher closed. */
    ghost var heldAtClose: set<nat>

    ghost function View(): State
      reads this
    {
      State(queue, active, scheduled, closed, flushWaiters, droppedTotal, lastDrop,
            accepted, fates, handed, promises, answers)
    }

    /** While open the count is that of the subscriptions; closing zeroes it, and giving one up still counts down. */
    ghost predicate Counted()
      reads this
    {
      && (forall id | id in subscriptions :: id < nextSubscription)
      && subscriberCount == |subscriptions| - (if closed then |heldAtClose| else 0)
      && (closed ==> subscriptions.Keys <= heldAtClose)
    }

    /**
     The reported count is below zero exactly when the dispatcher has closed and one of the subscriptions it closed with
     has been given up since.
     */
    lemma CountBelowZeroExactly()
      requires Valid()
      ensures subscriberCount < 0 <==> closed && exists id :: id in heldAtClose && id !in subscriptions
      ensures closed ==> subscriberCount == -|heldAtClose - subscriptions.Keys|
    {
      var held := subscriptions.Keys;
      assert |held| == |subscriptions|;
      if closed {
        assert heldAtClose == held + (heldAtClose - held);
        if id :| id in heldAtClose && id !in subscriptions {
          assert id in heldAtClose - held;
        }
        if heldAtClose - held != {} {
          var id :| id in heldAtClose - held;
        }
      }
    }

    ghost predicate Valid()
      reads this
    {
      capacity > 0 && Lifecycle.Valid(View(), capacity) && Counted() && (!active ==> running == {})
    }

    constructor (capacity: nat)
      requires capacity > 0
      ensures Valid() && View() == Initial() && this.capacity == capacity && subscriberCount == 0
    {
      this.capacity := capacity;
      queue, flushWaiters, active, scheduled, closed := [], {}, false, false, false;
      droppedTotal, lastDrop, listenerFailureTotal := 0, None, 0;
      subscriberCount, subscriptions, nextSubscription, running := 0, map[], 0, {};
      accepted, fates, handed, promises, answers, heldAtClose := [], [], [], 0, map[], {};
    }

    method Subscribe(eventName: EventName) returns (r: Result<nat, Failure>)
      requires Valid()
      modifies this`subscriptions, this`nextSubscription, this`subscriberCount
      ensures Valid() && View() == old(View())
      ensures r.Ok? <==> !closed && !eventName.Unsupported?
      ensures r.Ok? ==> r.value !in old(subscriptions) && subscriptions == old(subscriptions)[r.value := eventName]
      ensures r.Ok? ==> subscriberCount == old(subscriberCount) + 1
      ensures r.Err? ==> subscriptions == old(subscriptions) && subscriberCount == old(subscriberCount)
    {
      if closed { return Err(ClosedError); }
      if eventName.Unsupported? { return Err(UnsupportedEvent); }
      r := Ok(nextSubscription);
      subscriptions := subscriptions[nextSubscription := eventName];
      nextSubscription := nextSubscription + 1;
      subscriberCount := subscriberCount + 1;
    }

    /** The function `subscribe` returns; calling it again does nothing. */
    method Unsubscribe(id: nat)
      requires Valid()
      modifies this`subscriptions, this`subscriberCount
      ensures Valid() && View() == old(View())
      ensures subscriptions == old(subscriptions) - {id}
      ensures subscriberCount == old(subscriberCount) - if id in old(subscriptions) then 1 else 0
    {
      if id in subscriptions {
        ghost var before := subscriptions;
        subscriptions := subscriptions - {id};
        subscriberCount := subscriberCount - 1;
        assert before == subscriptions[id := before[id]];
      }
      assert subscriptions == old(subscriptions) - {id};
    }

    /** Takes the oldest event off the queue and records why. */
    method DropFirst(reason: Fate)
      requires |queue| > 0
      modifies this`queue, this`droppedTotal, this`lastDrop, this`fates
      ensures View() == DropOldest(old(View()), reason)
    {
      var dropped := queue[0];
      queue := queue[1..];
      droppedTotal := IncrementSaturating(droppedTotal);
      lastDrop := Some(Drop(dropped.kind, reason));
      fates := fates + [reason];
    }

    method Push(event: Event)
      modifies this`queue, this`accepted
      ensures View() == Enqueue(old(View()), event)
    {
      queue := queue + [event];
      accepted := accepted + [event];
    }

    /** Takes the oldest event off the queue and hands it to its listeners. */
    method Dispatch()
      requires |queue| > 0
      modifies this`queue, this`active, this`running, this`fates, this`handed
      ensures View() == HandOldest(old(View()))
      ensures running == Listening(subscriptions, old(queue)[0].kind)
    {
      var event := queue[0];
      queue := queue[1..];
      active := true;
      running := Listening(subscriptions, event.kind);
      fates := fates + [Dispatched];
      handed := handed + [event];
    }

    method ScheduleDrain()
      modifies this`scheduled
      ensures View() == Lifecycle.ScheduleDrain(old(View()))
    {
      if scheduled || active || closed { return; }
      scheduled := true;
    }

    method Accept(event: Event)
      requires !closed && capacity > 0
      modifies this`queue, this`droppedTotal, this`lastDrop, this`scheduled, this`accepted, this`fates
      ensures View() == AfterPublish(old(View()), capacity, event)
    {
      if |queue| >= capacity {
        DropFirst(Overflowed);
      }
      Push(event);
      ScheduleDrain();
    }

    /** Accepts an event, at the price of the oldest one when the queue is full. */
    method Publish(event: Event) returns (r: Result<bool, Failure>)
      requires Valid()
      modifies this`queue, this`droppedTotal, this`lastDrop, this`scheduled, this`accepted, this`fates
      ensures Valid()
      ensures r == if closed then Ok(false) else if WellShaped(event) then Ok(true) else Err(NotAnEvent)
      ensures r.Err? <==>
                !closed && (event.kind.Unsupported? || event.occurredAtMs == "" ||
                            exists i :: 0 <= i < |event.occurredAtMs| && !('0' <= event.occurredAtMs[i] <= '9'))
      ensures View() == if r == Ok(true) then AfterPublish(old(View()), capacity, event) else old(View())
    {
      if closed { return Ok(false); }
      if !WellShaped(event) { return Err(NotAnEvent); }
      StepKeepsValid(View(), capacity, Lifecycle.Publish(event));
      Accept(event);
      r := Ok(true);
    }

    /** A new promise: answered at once, or registered as a waiter. */
    method NewPromise() returns (promise: nat)
      modifies this`flushWaiters, this`promises, this`answers
      ensures View() == AfterFlush(old(View())) && promise == old(promises)
    {
      promise := promises;
      promises := promises + 1;
      if closed {
        answers := answers[promise := FlushResult(ClosedDown, |queue|, active)];
      } else if !active && |queue| == 0 {
        answers := answers[promise := FlushResult(DrainedOut, |queue|, active)];
      } else {
        flushWaiters := flushWaiters + {promise};
      }
    }

    method Flush(timeoutMs: int) returns (r: Result<nat, Failure>)
      requires Valid()
      modifies this`flushWaiters, this`promises, this`answers
      ensures Valid()
      ensures timeoutMs < 0 ==> r == Err(NegativeTimeout) && View() == old(View())
      ensures timeoutMs >= 0 ==> r == Ok(old(promises)) && View() == AfterFlush(old(View()))
    {
      if timeoutMs < 0 { return Err(NegativeTimeout); }
      StepKeepsValid(View(), capacity, Lifecycle.Flush);
      var promise := NewPromise();
      r := Ok(promise);
    }

    /** The timer of a flush runs out. */
    method Expire(promise: nat)
      requires Valid()
      modifies this`flushWaiters, this`answers
      ensures Valid() && View() == AfterExpiry(old(View()), promise)
    {
      StepKeepsValid(View(), capacity, Lifecycle.Expire(promise));
      if promise in flushWaiters {
        flushWaiters := flushWaiters - {promise};
        answers := answers[promise := FlushResult(TimedOut, |queue|, active)];
      }
    }

    method ResolveWaiters(status: Status)
      modifies this`flushWaiters, this`answers
      ensures View() == AnswerAll(old(View()), status)
    {
      var result := FlushResult(status, |queue|, active);
      ghost var all, before := flushWaiters, answers;
      while flushWaiters != {}
        invariant flushWaiters <= all
        invariant forall w | w in answers :: w in before || w in all - flushWaiters
        invariant forall w | w in all - flushWaiters :: w in answers && answers[w] == result
        invariant forall w | w in before && w !in all :: w in answers && answers[w] == before[w]
        decreases |flushWaiters|
      {
        var waiter :| waiter in flushWaiters;
        flushWaiters := flushWaiters - {waiter};
        answers := answers[waiter := result];
      }
      assert answers == before + map w | w in all :: result;
    }

    /** The queued microtask runs: one event goes to its listeners, and the call suspends until they settle. */
    method RunMicrotask()
      requires Valid() && scheduled
      modifies this`queue, this`active, this`scheduled, this`running, this`fates, this`handed,
               this`flushWaiters, this`answers
      ensures Valid() && View() == AfterMicrotask(old(View()))
      ensures !closed ==>
                |old(queue)| > 0 &&
                forall id :: id in running <==> id in subscriptions && subscriptions[id] == old(queue)[0].kind
    {
      StepKeepsValid(View(), capacity, Microtask);
      scheduled := false;
      if active || closed { return; }
      Dispatch();
      assert View() == AfterMicrotask(old(View()));
    }

    /** One listener of the current dispatch settles; a rejection is counted while the dispatcher is open. */
    method ListenerSettles(id: nat, failed: bool)
      requires Valid() && id in running
      modifies this`running, this`listenerFailureTotal
      ensures Valid() && View() == old(View()) && running == old(running) - {id}
      ensures listenerFailureTotal ==
              if failed && !closed then IncrementSaturating(old(listenerFailureTotal)) else old(listenerFailureTotal)
    {
      running := running - {id};
      if failed && !closed {
        listenerFailureTotal := IncrementSaturating(listenerFailureTotal);
      }
    }

    /** The suspended dispatch resumes once every listener has settled. */
    method FinishDispatch()
      requires Valid() && active && running == {}
      modifies this`active, this`scheduled, this`flushWaiters, this`answers
      ensures Valid() && View() == AfterSettle(old(View()))
    {
      StepKeepsValid(View(), capacity, Settle);
      active := false;
      if closed { return; }
      if |queue| == 0 {
        ResolveWaiters(DrainedOut);
      } else {
        ScheduleDrain();
      }
    }

    method DropQueue()
      modifies this`queue, this`droppedTotal, this`lastDrop, this`fates
      ensures View() == DropAll(old(View()))
    {
      ghost var start := View();
      while |queue| > 0
        invariant DropAll(View()) == DropAll(start)
        decreases |queue|
      {
        DropFirst(ShutDown);
      }
    }

    method ShutDownQueue()
      requires !closed
      modifies this`queue, this`closed, this`droppedTotal, this`lastDrop, this`fates, this`flushWaiters, this`answers
      ensures closed && View() == AfterClose(old(View()))
    {
      closed := true;
      DropQueue();
      ResolveWaiters(ClosedDown);
    }

    method ForgetListeners()
      modifies this`subscriberCount, this`heldAtClose
      ensures subscriberCount == 0 && heldAtClose == subscriptions.Keys && View() == old(View())
    {
      heldAtClose := subscriptions.Keys;
      subscriberCount := 0;
    }

    method CloseDown()
      requires !closed
      modifies this`queue, this`closed, this`droppedTotal, this`lastDrop, this`fates, this`flushWaiters, this`answers,
               this`subscriberCount, this`heldAtClose
      ensures closed && View() == AfterClose(old(View()))
      ensures subscriberCount == 0 && heldAtClose == subscriptions.Keys
    {
      ShutDownQueue();
      ForgetListeners();
    }

    method Close()
      requires Valid()
      modifies this`queue, this`closed, this`droppedTotal, this`lastDrop, this`fates, this`flushWaiters, this`answers,
               this`subscriberCount, this`heldAtClose
      ensures Valid() && closed && View() == AfterClose(old(View()))
      ensures subscriberCount == if old(closed) then old(subscriberCount) else 0
      ensures heldAtClose == if old(closed) then old(heldAtClose) else subscriptions.Keys
    {
      if closed { return; }
      StepKeepsValid(View(), capacity, Lifecycle.Close);
      CloseDown();
    }
  }

  /** Giving up a subscription after the dispatcher has closed takes the reported count below zero. */
  method UnsubscribeAfterClose(capacity: nat) returns (count: int)
    requires capacity > 0
    ensures count == -1
  {
    var dispatcher := new LifecycleDispatcher(capacity);
    var subscription := dispatcher.Subscribe(HealthChanged);
    dispatcher.Close();
    dispatcher.Unsubscribe(subscription.value);
    count := dispatcher.subscriberCount;
  }
}
