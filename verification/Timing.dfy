/**
 The event timer of one core as a value: a queue of events sorted by (time, fifo order), an
 inbox for events from other cores and threads, and the slice arithmetic. `HeapTimer.dfy`
 proves that the heap-based timer refines it.
 */
module Timing {

  /** Events are kept sorted by time, and by insertion order among equal times. */
  datatype Event = Event(time: int, fifo: nat, userData: nat, kind: nat)

  predicate Before(a: Event, b: Event) {
    a.time < b.time || (a.time == b.time && a.fifo < b.fifo)
  }

  const MAX_SLICE_LENGTH: int := 268111856 / 234

  datatype Timer = Timer(
    queue: seq<Event>,
    nextFifo: nat,
    inbox: seq<Event>,        // ts_queue
    sane: bool,               // is_timer_sane: at a slice boundary
    sliceLength: int,
    downcount: int,
    executed: int)

  function Fresh(baseTicks: int): Timer {
    Timer([], 0, [], true, MAX_SLICE_LENGTH, MAX_SLICE_LENGTH, baseTicks)
  }

  function Max(a: int, b: int): int { if a < b then b else a }

  function Min(a: int, b: int): int { if b < a then b else a }

  /** `static_cast<int>`: keep the low 32 bits, read as two's complement. */
  function ToInt32(x: int): int {
    var low := x % 0x1_0000_0000;
    if low < 0x8000_0000 then low else low - 0x1_0000_0000
  }

  function Insert(queue: seq<Event>, e: Event): seq<Event> {
    if queue == [] || Before(e, queue[0]) then [e] + queue else [queue[0]] + Insert(queue[1..], e)
  }

  function Ticks(t: Timer): int {
    if t.sane then t.executed else t.executed + t.sliceLength - t.downcount
  }

  function ForceExceptionCheck(t: Timer, cycles: int): Timer {
    var c := Max(0, cycles);
    if t.downcount > c then t.(sliceLength := t.sliceLength - (t.downcount - c), downcount := c) else t
  }

  /** `emplace_back` with the next fifo number, then `push_heap`. */
  function Enqueue(t: Timer, e: Event): Timer {
    t.(queue := Insert(t.queue, e.(fifo := t.nextFifo)), nextFifo := t.nextFifo + 1)
  }

  function ScheduleLocal(t: Timer, delay: int, userData: nat, kind: nat): Timer {
    Enqueue(if t.sane then t else ForceExceptionCheck(t, delay), Event(Ticks(t) + delay, 0, userData, kind))
  }

  function Post(t: Timer, delay: int, userData: nat, kind: nat): Timer {
    t.(inbox := t.inbox + [Event(Ticks(t) + delay, 0, userData, kind)])
  }

  /** `Timing::ScheduleEvent` on the chosen timer; `current` says it is the running core's. */
  function ScheduleEvent(t: Timer, delay: int, userData: nat, kind: nat, current: bool, threadSafe: bool): Timer {
    if threadSafe then Post(t, Max(MAX_SLICE_LENGTH * 2, delay), userData, kind)
    else if current then ScheduleLocal(t, delay, userData, kind)
    else Post(t, delay, userData, kind)
  }

  /** Which events `UnscheduleEvent` and `RemoveEvent` take out. */
  datatype Target = OfKind(kind: nat) | Exactly(kind: nat, userData: nat)

  predicate Hit(target: Target, e: Event) {
    e.kind == target.kind && (target.Exactly? ==> e.userData == target.userData)
  }

  function Without(queue: seq<Event>, target: Target): seq<Event> {
    if queue == [] then []
    else (if Hit(target, queue[0]) then [] else [queue[0]]) + Without(queue[1..], target)
  }

  function Remove(t: Timer, target: Target): Timer { t.(queue := Without(t.queue, target)) }

  function MoveEvents(t: Timer): Timer
    decreases |t.inbox|
  {
    if t.inbox == [] then t
    else MoveEvents(Enqueue(t.(inbox := t.inbox[1..]), t.inbox[0]))
  }

  /** `Advance` up to its loop. */
  function BeginAdvance(t: Timer): Timer {
    MoveEvents(t).(executed := t.executed + (t.sliceLength - t.downcount),
                   sliceLength := 0, downcount := 0, sane := true)
  }

  /** The loop condition of `Advance`. */
  predicate HasDue(t: Timer) { t.queue != [] && t.queue[0].time <= t.executed }

  /** The loop takes the front event out, before it calls the callback. */
  function Fire(t: Timer): Timer
    requires HasDue(t)
  {
    t.(queue := t.queue[1..])
  }

  function EndAdvance(t: Timer): Timer { t.(sane := false) }

  function SetNextSlice(t: Timer, maxSlice: int): Timer {
    var slice := if t.queue == [] then maxSlice else ToInt32(Min(t.queue[0].time - t.executed, maxSlice));
    t.(sliceLength := slice, downcount := slice)
  }

  function Idle(t: Timer): Timer { t.(downcount := 0) }

  function AddTicks(t: Timer, scaled: nat): Timer { t.(downcount := t.downcount - scaled) }

  /** `GetMaxSliceLength`; `Fail` is its assertion. */
  datatype MaxSlice = Length(value: int) | Fail

  function GetMaxSliceLength(t: Timer): MaxSlice {
    if t.queue == [] then Length(MAX_SLICE_LENGTH)
    else if t.queue[0].time - t.executed > 0 then Length(t.queue[0].time - t.executed)
    else Fail
  }

  // ---------- runs ----------

  datatype Op =
    | Schedule(delay: int, userData: nat, kind: nat, current: bool, threadSafe: bool)
    | Cancel(target: Target)
    | Begin
    | FireNext                // the callback's own steps follow
    | End
    | SetSlice(maxSlice: int)
    | GoIdle
    | Spend(ticks: nat)       // the core executes: `AddTicks`

  /** One event handed to its callback (history). */
  datatype Firing = Firing(
    event: Event,
    late: int,
    arrived: bool,            // it came through the inbox in this very `Advance`
    safe: bool,               // and was scheduled in thread-safe mode
    overrun: int,
    elapsed: int,
    slice: int)

  datatype Sim = Sim(
    timer: Timer,
    advancing: bool,
    fired: seq<Firing>,
    scheduled: nat,
    removed: nat,
    overrun: int,             // how far the downcount was below zero when `Advance` began
    firstArrived: nat,        // the fifo numbers given when the last `Advance` emptied the inbox
    afterArrived: nat,
    posted: seq<bool>,        // which events of the inbox were scheduled in thread-safe mode
    moved: seq<bool>,         // the same of the events that the last `Advance` took from it
    elapsed: int,             // the ticks executed in the slice that `Advance` ended,
    slice: int)               // and its length

  function Initial(baseTicks: int): Sim { Sim(Fresh(baseTicks), false, [], 0, 0, 0, 0, 0, [], [], 0, 0) }

  /** The event came through the inbox, in thread-safe mode. */
  predicate WasSafe(s: Sim, e: Event) {
    s.firstArrived <= e.fifo < s.afterArrived && e.fifo - s.firstArrived < |s.moved| && s.moved[e.fifo - s.firstArrived]
  }

  predicate Enabled(s: Sim, op: Op) {
    match op
    case Schedule(_, _, _, _, _) => true
    case Cancel(_) => true
    case Begin => !s.advancing
    case FireNext => s.advancing && HasDue(s.timer)
    case End => s.advancing && !HasDue(s.timer)
    case SetSlice(maxSlice) => !s.advancing && !s.timer.sane && 0 <= maxSlice < 0x8000_0000
    case GoIdle => !s.advancing && !s.timer.sane
    case Spend(_) => !s.timer.sane
  }

  function Apply(s: Sim, op: Op): Sim
    requires Enabled(s, op)
  {
    match op
    case Schedule(delay, userData, kind, current, threadSafe) =>
      s.(timer := ScheduleEvent(s.timer, delay, userData, kind, current, threadSafe), scheduled := s.scheduled + 1,
         posted := if threadSafe || !current then s.posted + [threadSafe] else s.posted)
    case Cancel(target) =>
      var t := Remove(s.timer, target);
      s.(timer := t, removed := s.removed + Max(0, |s.timer.queue| - |t.queue|))
    case Begin =>
      s.(timer := BeginAdvance(s.timer), advancing := true,
         overrun := Max(0, -s.timer.downcount), firstArrived := s.timer.nextFifo,
         afterArrived := s.timer.nextFifo + |s.timer.inbox|, posted := [], moved := s.posted,
         elapsed := s.timer.sliceLength - s.timer.downcount, slice := s.timer.sliceLength)
    case FireNext =>
      var e := s.timer.queue[0];
      s.(timer := Fire(s.timer),
         fired := s.fired + [Firing(e, s.timer.executed - e.time, s.firstArrived <= e.fifo < s.afterArrived,
                                    WasSafe(s, e), s.overrun, s.elapsed, s.slice)])
    case End => s.(timer := EndAdvance(s.timer), advancing := false)
    case SetSlice(maxSlice) => s.(timer := SetNextSlice(s.timer, maxSlice))
    case GoIdle => s.(timer := Idle(s.timer))
    case Spend(ticks) => s.(timer := AddTicks(s.timer, ticks))
  }

  ghost predicate IsRun(run: seq<Sim>, ops: seq<Op>) {
    && |run| == |ops| + 1
    && (exists base :: run[0] == Initial(base))
    && forall i {:trigger ops[i]} :: 0 <= i < |ops| ==> Enabled(run[i], ops[i]) && run[i + 1] == Apply(run[i], ops[i])
  }

  ghost predicate NonNegativeDelays(ops: seq<Op>) {
    forall i :: 0 <= i < |ops| && ops[i].Schedule? ==> ops[i].delay >= 0
  }
}
