/**
 The timer as the program keeps it, with the events in a heap-ordered vector that is updated
 in place, proved to behave as the sorted-queue timer of `Timing`.
 */
module HeapTimers {
  import opened Timing
  import opened TimingProof
  import opened EventHeap

  lemma {:induction false} WithoutCounts(q: seq<Event>, target: Target, e: Event)
    ensures multiset(Without(q, target))[e] == if Hit(target, e) then 0 else multiset(q)[e]
  {
    if q != [] {
      WithoutCounts(q[1..], target, e);
      assert q == [q[0]] + q[1..];
    }
  }

  lemma WithoutAgree(q: seq<Event>, p: seq<Event>, target: Target)
    requires multiset(q) == multiset(p)
    ensures multiset(Without(q, target)) == multiset(Without(p, target))
  {
    forall e ensures multiset(Without(q, target))[e] == multiset(Without(p, target))[e] {
      WithoutCounts(q, target, e);
      WithoutCounts(p, target, e);
    }
  }

  lemma {:induction false} WithoutNothing(q: seq<Event>, target: Target)
    requires |Without(q, target)| == |q|
    ensures Without(q, target) == q
  {
    if q != [] {
      WithoutMembers(q[1..], target);
      WithoutNothing(q[1..], target);
    }
  }

  /** The front of a heap is the front of the sorted queue over the same events. */
  lemma FrontsAgree(q: seq<Event>, p: seq<Event>)
    requires IsHeap(q) && Sorted(p) && multiset(q) == multiset(p)
    ensures |q| == |p| && (q != [] ==> q[0] == p[0])
  {
    assert |q| == |multiset(q)| && |p| == |multiset(p)|;
    if q != [] {
      assert p[0] in multiset(p) && q[0] in multiset(q);
      var k :| 0 <= k < |q| && q[k] == p[0];
      var i :| 0 <= i < |p| && p[i] == q[0];
      FrontIsLeast(q, k);
    }
  }

  /** Popping the heap takes out the front of the sorted queue. */
  lemma PopsAgree(q: seq<Event>, p: seq<Event>, bound: nat)
    requires IsHeap(q) && q != [] && Sorted(p) && FifosBelow(p, bound) && multiset(q) == multiset(p)
    ensures p != [] && q[0] == p[0] && Sorted(p[1..]) && FifosBelow(p[1..], bound)
    ensures IsHeap(Pop(q)) && multiset(Pop(q)) == multiset(p[1..])
  {
    FrontsAgree(q, p);
    PopOk(q);
    assert p == [p[0]] + p[1..];
  }

  /** Removing events from the heap agrees with removing them from the sorted queue. */
  lemma RemovalsAgree(q: seq<Event>, p: seq<Event>, target: Target, bound: nat)
    requires Sorted(p) && FifosBelow(p, bound) && multiset(q) == multiset(p)
    ensures multiset(Without(q, target)) == multiset(Without(p, target))
    ensures |Without(q, target)| == |q| ==> Without(q, target) == q
    ensures Sorted(Without(p, target)) && FifosBelow(Without(p, target), bound)
  {
    WithoutAgree(q, p, target);
    if |Without(q, target)| == |q| { WithoutNothing(q, target); }
    WithoutSorted(p, target);
    WithoutMembers(p, target);
    forall i | 0 <= i < |Without(p, target)| ensures Without(p, target)[i].fifo < bound {
      assert Without(p, target)[i] in Without(p, target);
    }
  }

  /** `remove_if`, `erase` and, when something went, `make_heap`. */
  method EraseFrom(q: seq<Event>, target: Target, ghost p: seq<Event>, ghost bound: nat)
    returns (r: seq<Event>, ghost left: seq<Event>)
    requires IsHeap(q) && Sorted(p) && FifosBelow(p, bound) && multiset(q) == multiset(p)
    ensures IsHeap(r) && multiset(r) == multiset(left) && left == Without(p, target)
    ensures Sorted(left) && FifosBelow(left, bound)
  {
    RemovalsAgree(q, p, target, bound);
    var kept := Without(q, target);
    left := Without(p, target);
    if |kept| == |q| {
      r := q;
    } else {
      MakeHeapOk(kept);
      r := MakeHeap(kept);
    }
  }

  // ---------- callbacks ----------

  /** What a callback does to the timer of its core. What it does to other timers is not seen
      here: it posts into their inboxes, or removes events from their queues. */
  datatype Command =
    | Schedule(delay: int, userData: nat, kind: nat, current: bool, threadSafe: bool)
    | Cancel(target: Target)

  /** Callbacks, as a function of how many were called before, the event and its lateness. */
  type Callback = (nat, Event, int) -> seq<Command>

  function Do(t: Timer, c: Command): Timer {
    match c
    case Schedule(delay, userData, kind, current, threadSafe) =>
      Timing.ScheduleEvent(t, delay, userData, kind, current, threadSafe)
    case Cancel(target) => Remove(t, target)
  }

  function DoAll(t: Timer, commands: seq<Command>): Timer {
    if commands == [] then t
    else Do(DoAll(t, commands[..|commands| - 1]), commands[|commands| - 1])
  }

  /** A local event without delay is due in the very `Advance` that schedules it. */
  predicate LandsDue(c: Command) { c.Schedule? && c.current && !c.threadSafe && c.delay <= 0 }

  /** How many firings an event may set off, itself included, after so many calls. */
  type Cost = (nat, nat, nat) -> nat

  function CommandsCost(commands: seq<Command>, calls: nat, cost: Cost): nat {
    if commands == [] then 0
    else
      var last := commands[|commands| - 1];
      CommandsCost(commands[..|commands| - 1], calls, cost)
      + if LandsDue(last) then cost(calls, last.userData, last.kind) else 0
  }

  /** Callbacks may schedule without delay, as long as what that sets off costs less than the
      event itself, and costs do not rise. */
  ghost predicate Settles(callback: Callback, cost: Cost) {
    && (forall calls: nat, userData: nat, kind: nat ::
          cost(calls + 1, userData, kind) <= cost(calls, userData, kind))
    && forall calls: nat, e: Event, late: int ::
         CommandsCost(callback(calls, e, late), calls + 1, cost) < cost(calls, e.userData, e.kind)
  }

  ghost predicate SchedulesAhead(callback: Callback) {
    forall calls: nat, e, late, i :: 0 <= i < |callback(calls, e, late)| ==>
      callback(calls, e, late)[i].Schedule? && !LandsDue(callback(calls, e, late)[i])
  }

  const ONE_EACH: Cost := (calls: nat, userData: nat, kind: nat) => 1

  lemma {:induction false} AheadCostsNothing(commands: seq<Command>, calls: nat, cost: Cost)
    requires forall i :: 0 <= i < |commands| ==> !LandsDue(commands[i])
    ensures CommandsCost(commands, calls, cost) == 0
  {
    if commands != [] { AheadCostsNothing(commands[..|commands| - 1], calls, cost); }
  }

  lemma AheadSettles(callback: Callback)
    requires SchedulesAhead(callback)
    ensures Settles(callback, ONE_EACH)
  {
    forall calls: nat, e: Event, late: int ensures CommandsCost(callback(calls, e, late), calls + 1, ONE_EACH) == 0 {
      AheadCostsNothing(callback(calls, e, late), calls + 1, ONE_EACH);
    }
  }

  /** What the due events of a queue cost together. */
  function DueCost(queue: seq<Event>, executed: int, calls: nat, cost: Cost): nat {
    if queue == [] then 0
    else (if queue[0].time <= executed then cost(calls, queue[0].userData, queue[0].kind) else 0)
         + DueCost(queue[1..], executed, calls, cost)
  }

  lemma {:induction false} InsertCosts(queue: seq<Event>, e: Event, executed: int, calls: nat, cost: Cost)
    ensures DueCost(Insert(queue, e), executed, calls, cost)
            == DueCost(queue, executed, calls, cost) + if e.time <= executed then cost(calls, e.userData, e.kind) else 0
  {
    if queue != [] && !Before(e, queue[0]) {
      InsertCosts(queue[1..], e, executed, calls, cost);
    } else {
      assert ([e] + queue)[1..] == queue;
    }
  }

  lemma {:induction false} WithoutCosts(queue: seq<Event>, target: Target, executed: int, calls: nat, cost: Cost)
    ensures DueCost(Without(queue, target), executed, calls, cost) <= DueCost(queue, executed, calls, cost)
  {
    if queue != [] {
      WithoutCosts(queue[1..], target, executed, calls, cost);
      var rest := Without(queue[1..], target);
      assert [] + rest == rest && ([queue[0]] + rest)[1..] == rest;
    }
  }

  lemma {:induction false} LaterCosts(queue: seq<Event>, executed: int, calls: nat, callback: Callback, cost: Cost)
    requires Settles(callback, cost)
    ensures DueCost(queue, executed, calls + 1, cost) <= DueCost(queue, executed, calls, cost)
  {
    if queue != [] { LaterCosts(queue[1..], executed, calls, callback, cost); }
  }

  /** Inside `Advance`: at the boundary, in order, and nothing else of the clock moves. */
  ghost predicate Same(t: Timer, u: Timer) {
    u.sane && u.executed == t.executed && u.sliceLength == t.sliceLength && u.downcount == t.downcount && QueueOk(u)
  }

  lemma DoCosts(t: Timer, c: Command, calls: nat, cost: Cost)
    requires t.sane && QueueOk(t)
    ensures Same(t, Do(t, c))
    ensures DueCost(Do(t, c).queue, t.executed, calls, cost)
            <= DueCost(t.queue, t.executed, calls, cost) + if LandsDue(c) then cost(calls, c.userData, c.kind) else 0
  {
    match c {
      case Schedule(delay, userData, kind, current, threadSafe) =>
        if current && !threadSafe {
          var e := Event(Ticks(t) + delay, 0, userData, kind);
          EnqueueOk(t, e);
          InsertCosts(t.queue, e.(fifo := t.nextFifo), t.executed, calls, cost);
        }
      case Cancel(target) =>
        RemovalsAgree(t.queue, t.queue, target, t.nextFifo);
        WithoutCosts(t.queue, target, t.executed, calls, cost);
    }
  }

  lemma {:induction false} DoAllCosts(t: Timer, commands: seq<Command>, calls: nat, cost: Cost)
    requires t.sane && QueueOk(t)
    ensures Same(t, DoAll(t, commands))
    ensures DueCost(DoAll(t, commands).queue, t.executed, calls, cost)
            <= DueCost(t.queue, t.executed, calls, cost) + CommandsCost(commands, calls, cost)
  {
    if commands != [] {
      var most := commands[..|commands| - 1];
      DoAllCosts(t, most, calls, cost);
      DoCosts(DoAll(t, most), commands[|commands| - 1], calls, cost);
    }
  }

  lemma FireOk(t: Timer)
    requires QueueOk(t) && HasDue(t)
    ensures QueueOk(Fire(t))
  {
  }

  /** One firing and its callback. */
  function FireAndCall(t: Timer, calls: nat, callback: Callback): Timer
    requires HasDue(t)
  {
    DoAll(Fire(t), callback(calls, t.queue[0], t.executed - t.queue[0].time))
  }

  lemma FiringCosts(t: Timer, calls: nat, callback: Callback, cost: Cost)
    requires t.sane && QueueOk(t) && HasDue(t) && Settles(callback, cost)
    ensures var u := FireAndCall(t, calls, callback);
            Same(t, u) && DueCost(u.queue, t.executed, calls + 1, cost) < DueCost(t.queue, t.executed, calls, cost)
  {
    FireOk(t);
    var commands := callback(calls, t.queue[0], t.executed - t.queue[0].time);
    DoAllCosts(Fire(t), commands, calls + 1, cost);
    LaterCosts(t.queue[1..], t.executed, calls, callback, cost);
  }

  /** The loop of `Advance` on the sorted queue: the timer it leaves, and the calls made. */
  ghost function RunDue(t: Timer, calls: nat, callback: Callback, cost: Cost): (Timer, nat)
    requires t.sane && QueueOk(t) && Settles(callback, cost)
    decreases DueCost(t.queue, t.executed, calls, cost)
  {
    if !HasDue(t) then (t, calls)
    else
      FiringCosts(t, calls, callback, cost);
      RunDue(FireAndCall(t, calls, callback), calls + 1, callback, cost)
  }

  lemma RunDueStep(t: Timer, calls: nat, callback: Callback, cost: Cost)
    requires t.sane && QueueOk(t) && Settles(callback, cost) && HasDue(t)
    ensures var u := FireAndCall(t, calls, callback);
            Same(t, u) && RunDue(u, calls + 1, callback, cost) == RunDue(t, calls, callback, cost)
  {
    FiringCosts(t, calls, callback, cost);
  }

  /** The loop leaves nothing due and does not move the clock, whatever callbacks schedule,
      with delay or without, post or cancel. */
  lemma {:induction false} AdvanceLeavesNoneDue(t: Timer, calls: nat, callback: Callback, cost: Cost)
    requires t.sane && QueueOk(t) && Settles(callback, cost)
    ensures var r := RunDue(t, calls, callback, cost).0; Same(t, r) && !HasDue(r)
    decreases DueCost(t.queue, t.executed, calls, cost)
  {
    if HasDue(t) {
      FiringCosts(t, calls, callback, cost);
      AdvanceLeavesNoneDue(FireAndCall(t, calls, callback), calls + 1, callback, cost);
    }
  }

  /** The events of a sorted queue that are due, in order. */
  function Due(queue: seq<Event>, executed: int): seq<Event> {
    if queue == [] || queue[0].time > executed then [] else [queue[0]] + Due(queue[1..], executed)
  }

  lemma {:induction false} InsertKeepsDue(queue: seq<Event>, e: Event, executed: int)
    requires e.time > executed
    ensures Due(Insert(queue, e), executed) == Due(queue, executed)
  {
    if queue != [] && !Before(e, queue[0]) {
      InsertKeepsDue(queue[1..], e, executed);
    }
  }

  lemma {:induction false} AheadKeepsDue(t: Timer, commands: seq<Command>)
    requires t.sane && QueueOk(t) && forall i :: 0 <= i < |commands| ==> commands[i].Schedule? && !LandsDue(commands[i])
    ensures Same(t, DoAll(t, commands)) && Due(DoAll(t, commands).queue, t.executed) == Due(t.queue, t.executed)
  {
    DoAllCosts(t, commands, 0, ONE_EACH);
    if commands != [] {
      var most, last := commands[..|commands| - 1], commands[|commands| - 1];
      AheadKeepsDue(t, most);
      if last.current && !last.threadSafe {
        var u := DoAll(t, most);
        InsertKeepsDue(u.queue, Event(Ticks(u) + last.delay, u.nextFifo, last.userData, last.kind), u.executed);
      }
    }
  }

  /** The events the loop hands to callbacks, in order. */
  ghost function FiredBy(t: Timer, calls: nat, callback: Callback, cost: Cost): seq<Event>
    requires t.sane && QueueOk(t) && Settles(callback, cost)
    decreases DueCost(t.queue, t.executed, calls, cost)
  {
    if !HasDue(t) then []
    else
      FiringCosts(t, calls, callback, cost);
      [t.queue[0]] + FiredBy(FireAndCall(t, calls, callback), calls + 1, callback, cost)
  }

  /** With callbacks that only schedule ahead, one `Advance` fires exactly the events that were
      due when it began, in order. */
  lemma {:induction false} AdvanceFiresExactlyTheDue(t: Timer, calls: nat, callback: Callback)
    requires t.sane && QueueOk(t) && SchedulesAhead(callback)
    ensures Settles(callback, ONE_EACH) && FiredBy(t, calls, callback, ONE_EACH) == Due(t.queue, t.executed)
    decreases DueCost(t.queue, t.executed, calls, ONE_EACH)
  {
    AheadSettles(callback);
    if HasDue(t) {
      FiringCosts(t, calls, callback, ONE_EACH);
      FireOk(t);
      AheadKeepsDue(Fire(t), callback(calls, t.queue[0], t.executed - t.queue[0].time));
      AdvanceFiresExactlyTheDue(FireAndCall(t, calls, callback), calls + 1, callback);
    }
  }

  // ---------- the timer ----------

  class HeapTimer {
    var eventQueue: seq<Event>
    var eventFifoId: nat
    var tsQueue: seq<Event>
    var isTimerSane: bool
    var sliceLength: int
    var downcount: int
    var executedTicks: int
    ghost var pending: seq<Event>      // the same events, sorted

    ghost predicate Valid()
      reads this
    {
      && IsHeap(eventQueue) && multiset(eventQueue) == multiset(pending)
      && Sorted(pending) && FifosBelow(pending, eventFifoId)
    }

    ghost function Value(): Timer
      reads this
    {
      Timer(pending, eventFifoId, tsQueue, isTimerSane, sliceLength, downcount, executedTicks)
    }

    constructor (baseTicks: int)
      ensures Valid() && Value() == Fresh(baseTicks)
    {
      eventQueue, eventFifoId, tsQueue, isTimerSane := [], 0, [], true;
      sliceLength, downcount, executedTicks := MAX_SLICE_LENGTH, MAX_SLICE_LENGTH, baseTicks;
      pending := [];
    }

    method GetTicks() returns (ticks: int)
      ensures ticks == Ticks(Value())
    {
      ticks := executedTicks;
      if !isTimerSane {
        ticks := ticks + (sliceLength - downcount);
      }
    }

    method AddTicks(scaled: nat)
      requires Valid()
      modifies this
      ensures Valid() && Value() == Timing.AddTicks(old(Value()), scaled)
    {
      downcount := downcount - scaled;
    }

    method ForceExceptionCheck(cycles: int)
      requires Valid()
      modifies this
      ensures Valid() && Value() == Timing.ForceExceptionCheck(old(Value()), cycles)
    {
      var c := Max(0, cycles);
      if downcount > c {
        sliceLength := sliceLength - (downcount - c);
        downcount := c;
      }
    }

    method PushEvent(e: Event)
      requires Valid()
      modifies this
      ensures Valid() && Value() == Enqueue(old(Value()), e)
    {
      var event := e.(fifo := eventFifoId);
      eventFifoId := eventFifoId + 1;
      PushOk(eventQueue, event);
      eventQueue := EventHeap.Push(eventQueue, event);
      EnqueueOk(Value().(nextFifo := old(eventFifoId)), e);
      InsertMembers(pending, event);
      pending := Insert(pending, event);
    }

    method MoveEvents()
      requires Valid()
      modifies this
      ensures Valid() && Value() == Timing.MoveEvents(old(Value()))
    {
      while tsQueue != []
        invariant Valid() && Timing.MoveEvents(Value()) == Timing.MoveEvents(old(Value()))
        decreases |tsQueue|
      {
        var e := tsQueue[0];
        tsQueue := tsQueue[1..];
        PushEvent(e);
      }
    }

    /** `Timing::ScheduleEvent` once the timer is chosen. */
    method ScheduleEvent(locked: bool, delay: int, userData: nat, kind: nat, current: bool, threadSafe: bool)
      requires Valid()
      modifies this
      ensures Valid()
      ensures Value() == if locked then old(Value())
                         else Timing.ScheduleEvent(old(Value()), delay, userData, kind, current, threadSafe)
    {
      if locked {
        return;
      }
      var ticks := GetTicks();
      if threadSafe {
        tsQueue := tsQueue + [Event(ticks + Max(MAX_SLICE_LENGTH * 2, delay), 0, userData, kind)];
      } else if current {
        if !isTimerSane {
          ForceExceptionCheck(delay);
        }
        PushEvent(Event(ticks + delay, 0, userData, kind));
      } else {
        tsQueue := tsQueue + [Event(ticks + delay, 0, userData, kind)];
      }
    }

    /** The loop body of `UnscheduleEvent` and of `RemoveEvent`. */
    method RemoveEvents(locked: bool, target: Target)
      requires Valid()
      modifies this
      ensures Valid() && Value() == if locked then old(Value()) else Remove(old(Value()), target)
    {
      if locked {
        return;
      }
      eventQueue, pending := EraseFrom(eventQueue, target, pending, eventFifoId);
    }

    method GetMaxSliceLength() returns (r: MaxSlice)
      requires Valid()
      ensures r == Timing.GetMaxSliceLength(Value())
    {
      FrontsAgree(eventQueue, pending);
      if eventQueue == [] {
        return Length(MAX_SLICE_LENGTH);
      }
      var ahead := eventQueue[0].time - executedTicks;
      r := if ahead > 0 then Length(ahead) else Fail;
    }

    method PopFront() returns (e: Event)
      requires Valid() && eventQueue != []
      modifies this
      ensures Valid() && old(Value()).queue != [] && e == old(Value()).queue[0]
      ensures Value() == old(Value()).(queue := old(Value()).queue[1..])
    {
      PopsAgree(eventQueue, pending, eventFifoId);
      e := eventQueue[0];
      eventQueue := EventHeap.Pop(eventQueue);
      pending := pending[1..];
    }

    /** `Advance`: fires what is due, also what callbacks make due meanwhile. `calls` counts the
        callbacks of all `Advance`s. */
    method Advance(callback: Callback, calls: nat, ghost cost: Cost) returns (total: nat)
      requires Valid() && Settles(callback, cost)
      modifies this
      ensures Valid() && QueueOk(BeginAdvance(old(Value())))
      ensures var r := RunDue(BeginAdvance(old(Value())), calls, callback, cost);
              Value() == EndAdvance(r.0) && total == r.1
    {
      MoveEvents();
      MoveKeepsRest(old(Value()));
      var cyclesExecuted := sliceLength - downcount;
      executedTicks := executedTicks + cyclesExecuted;
      sliceLength := 0;
      downcount := 0;
      isTimerSane := true;
      assert Value() == BeginAdvance(old(Value()));
      total := FireDueEvents(callback, calls, cost);
      isTimerSane := false;
    }

    /** The loop of `Advance`. */
    method FireDueEvents(callback: Callback, calls: nat, ghost cost: Cost) returns (total: nat)
      requires Valid() && isTimerSane && Settles(callback, cost)
      modifies this
      ensures Valid() && (Value(), total) == RunDue(old(Value()), calls, callback, cost)
    {
      total := calls;
      FrontsAgree(eventQueue, pending);
      while eventQueue != [] && eventQueue[0].time <= executedTicks
        invariant Valid() && isTimerSane && |eventQueue| == |pending|
        invariant eventQueue != [] ==> eventQueue[0] == pending[0]
        invariant RunDue(Value(), total, callback, cost) == RunDue(old(Value()), calls, callback, cost)
        decreases DueCost(pending, executedTicks, total, cost)
      {
        FiringCosts(Value(), total, callback, cost);
        RunDueStep(Value(), total, callback, cost);
        FireOne(callback, total);
        total := total + 1;
        FrontsAgree(eventQueue, pending);
      }
    }

    method FireOne(callback: Callback, calls: nat)
      requires Valid() && isTimerSane && HasDue(Value()) && eventQueue != []
      modifies this
      ensures Valid() && Value() == FireAndCall(old(Value()), calls, callback)
    {
      var e := PopFront();
      CallBack(callback(calls, e, executedTicks - e.time));
    }

    /** What one callback does to this timer. */
    method CallBack(commands: seq<Command>)
      requires Valid()
      modifies this
      ensures Valid() && Value() == DoAll(old(Value()), commands)
    {
      for i := 0 to |commands|
        invariant Valid() && Value() == DoAll(old(Value()), commands[..i])
      {
        assert commands[..i + 1][..i] == commands[..i];
        match commands[i] {
          case Schedule(delay, userData, kind, current, threadSafe) =>
            ScheduleEvent(false, delay, userData, kind, current, threadSafe);
          case Cancel(target) => RemoveEvents(false, target);
        }
      }
      assert commands[..|commands|] == commands;
    }

    method SetNextSlice(maxSlice: int)
      requires Valid()
      modifies this
      ensures Valid() && Value() == Timing.SetNextSlice(old(Value()), maxSlice)
    {
      FrontsAgree(eventQueue, pending);
      sliceLength := maxSlice;
      if eventQueue != [] {
        sliceLength := ToInt32(Min(eventQueue[0].time - executedTicks, maxSlice));
      }
      downcount := sliceLength;
    }

    method Idle()
      requires Valid()
      modifies this
      ensures Valid() && Value() == Timing.Idle(old(Value()))
    {
      downcount := 0;
    }
  }
}
