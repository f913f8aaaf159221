/**
 How `RunLoop` shares time between the cores: cores that lag behind catch up one at a time,
 otherwise all run one after the other with a common slice. What `Advance` and a core's
 execution do is a parameter, constrained to what every run of one timer is proved to do.
 */
module CoreSlicing {
  import opened Timing
  import opened TimingProof
  import HeapTimers

  const MIN_DELAY: int := 100

  // ---------- what a step of one core may do ----------

  predicate ClockOk(t: Timer) { t.sane ==> t.sliceLength == t.downcount }

  ghost predicate TimerOk(t: Timer) { ClockOk(t) && QueueOk(t) }

  /** Another core can post events here and remove events, but not touch the clock. */
  ghost predicate Untouched(t: Timer, u: Timer) {
    && u.sane == t.sane && u.executed == t.executed && u.sliceLength == t.sliceLength && u.downcount == t.downcount
    && (forall e :: e in u.queue ==> e in t.queue)
    && (QueueOk(t) ==> QueueOk(u))
  }

  ghost predicate OthersUntouched(ts: seq<Timer>, us: seq<Timer>, c: nat) {
    |us| == |ts| && forall i :: 0 <= i < |ts| && i != c ==> Untouched(ts[i], us[i])
  }

  /** At a slice boundary with everything due already fired. */
  ghost predicate Ready(t: Timer) {
    !t.sane && t.sliceLength == t.downcount && AllAtLeast(t.queue, t.executed + 1)
  }

  ghost predicate Advanced(t: Timer, u: Timer) { Ready(u) && QueueOk(u) && Ticks(u) == Ticks(t) }

  /** Execution without overrun: the clock moves forward, at most to the end of the slice. */
  ghost predicate Executed(t: Timer, u: Timer) {
    TimerOk(u) && Ticks(t) <= Ticks(u) <= Ticks(t) + t.downcount
  }

  /** What a core does to all timers, as a function of them. */
  type Behaviour = (seq<Timer>, nat) -> seq<Timer>

  /** `Advance` with its callbacks, and rescheduling, on core `c`. */
  ghost predicate Advances(advance: Behaviour) {
    forall ts: seq<Timer>, c: nat :: c < |ts| && TimerOk(ts[c]) ==>
      OthersUntouched(ts, advance(ts, c), c) && Advanced(ts[c], advance(ts, c)[c])
  }

  /** A slice is set and the core is inside it. */
  ghost predicate CanRun(t: Timer) { !t.sane && 0 <= t.downcount <= t.sliceLength && QueueOk(t) }

  /** `Run`, `Step` or `Idle` on core `c`. */
  ghost predicate Executes(run: Behaviour) {
    forall ts: seq<Timer>, c: nat :: c < |ts| && CanRun(ts[c]) ==>
      OthersUntouched(ts, run(ts, c), c) && Executed(ts[c], run(ts, c)[c])
  }

  // ---------- the two assumptions follow from the runs of one timer ----------

  ghost predicate NoBoundary(ops: seq<Op>, i: nat, j: nat)
    requires i <= j <= |ops|
  {
    forall k :: i <= k < j ==> !ops[k].Begin? && !ops[k].End?
  }

  lemma {:induction false} AdvancingStays(run: seq<Sim>, ops: seq<Op>, i: nat, j: nat)
    requires IsRun(run, ops) && NonNegativeDelays(ops) && i <= j <= |ops|
    requires run[i].advancing && NoBoundary(ops, i, j)
    ensures run[j].advancing && Ticks(run[j].timer) == Ticks(run[i].timer)
    decreases j
  {
    RunInv(run, ops, j);
    if i < j {
      AdvancingStays(run, ops, i, j - 1);
      RunInv(run, ops, j - 1);
      ClockMovesIff(run[j - 1], ops[j - 1]);
    }
  }

  /** `Advance`, from its first statement to its last, with any callbacks in between. */
  lemma AdvanceIsAdvanced(run: seq<Sim>, ops: seq<Op>, i: nat, j: nat)
    requires IsRun(run, ops) && NonNegativeDelays(ops) && i < j < |ops|
    requires ops[i].Begin? && ops[j].End? && NoBoundary(ops, i + 1, j)
    ensures Advanced(run[i].timer, run[j + 1].timer)
  {
    RunInv(run, ops, i);
    RunInv(run, ops, j);
    RunInv(run, ops, j + 1);
    ClockMovesIff(run[i], ops[i]);
    AdvancingStays(run, ops, i + 1, j);
    ClockMovesIff(run[j], ops[j]);
    var q := run[j].timer.queue;
    forall e | e in q ensures run[j].timer.executed < e.time {
      var k :| 0 <= k < |q| && q[k] == e;
    }
  }

  /** The steps of an executing core. */
  predicate IsExecution(op: Op) { op.Schedule? || op.Cancel? || op.GoIdle? || op.Spend? }

  /** Executing without overrun is `Executed`. */
  lemma {:induction false} ExecutionIsExecuted(run: seq<Sim>, ops: seq<Op>, i: nat, j: nat)
    requires IsRun(run, ops) && NonNegativeDelays(ops) && i <= j <= |ops| && !run[i].timer.sane
    requires forall k :: i <= k < j ==> IsExecution(ops[k])
    requires forall k :: i <= k <= j ==> run[k].timer.downcount >= 0
    ensures Executed(run[i].timer, run[j].timer) && !run[j].timer.sane
    ensures Ticks(run[j].timer) + run[j].timer.downcount <= Ticks(run[i].timer) + run[i].timer.downcount
    decreases j
  {
    RunInv(run, ops, j);
    if i < j {
      ExecutionIsExecuted(run, ops, i, j - 1);
      assert IsExecution(ops[j - 1]) && run[j] == Apply(run[j - 1], ops[j - 1]);
    }
  }

  // ---------- the modelled `Advance` and execution are such behaviours ----------

  lemma {:induction false} MovedQueueOk(t: Timer)
    requires QueueOk(t)
    ensures QueueOk(MoveEvents(t))
    decreases |t.inbox|
  {
    if t.inbox != [] {
      var u := t.(inbox := t.inbox[1..]);
      EnqueueOk(u, t.inbox[0]);
      MovedQueueOk(Enqueue(u, t.inbox[0]));
    }
  }

  lemma BegunOk(t: Timer)
    requires TimerOk(t)
    ensures var u := BeginAdvance(t); u.sane && QueueOk(u) && u.executed == Ticks(t)
  {
    MovedQueueOk(t);
    MoveKeepsRest(t);
  }

  lemma NoneDue(t: Timer)
    requires QueueOk(t) && !HasDue(t)
    ensures AllAtLeast(t.queue, t.executed + 1)
  {
    forall e | e in t.queue ensures t.executed < e.time {
      var k :| 0 <= k < |t.queue| && t.queue[k] == e;
    }
  }

  /** `Advance` of one timer, whatever its callbacks do to it, as long as they settle. */
  lemma AdvanceOfOne(t: Timer, calls: nat, callback: HeapTimers.Callback, cost: HeapTimers.Cost)
    requires TimerOk(t) && HeapTimers.Settles(callback, cost)
    ensures var u := BeginAdvance(t);
            u.sane && QueueOk(u) && Advanced(t, EndAdvance(HeapTimers.RunDue(u, calls, callback, cost).0))
  {
    BegunOk(t);
    HeapTimers.AdvanceLeavesNoneDue(BeginAdvance(t), calls, callback, cost);
    NoneDue(HeapTimers.RunDue(BeginAdvance(t), calls, callback, cost).0);
  }

  /** Core `c` does `Advance` with some callbacks, which touch other cores as they may. */
  ghost predicate IsAdvance(ts: seq<Timer>, us: seq<Timer>, c: nat)
    requires c < |ts| && TimerOk(ts[c])
  {
    && OthersUntouched(ts, us, c)
    && exists calls: nat, callback: HeapTimers.Callback, cost: HeapTimers.Cost ::
         HeapTimers.Settles(callback, cost) && IsAdvanceOf(ts[c], us[c], calls, callback, cost)
  }

  ghost predicate IsAdvanceOf(t: Timer, u: Timer, calls: nat, callback: HeapTimers.Callback, cost: HeapTimers.Cost)
    requires TimerOk(t) && HeapTimers.Settles(callback, cost)
  {
    AdvanceOfOne(t, calls, callback, cost);
    u == EndAdvance(HeapTimers.RunDue(BeginAdvance(t), calls, callback, cost).0)
  }

  lemma ModelAdvances(advance: Behaviour)
    requires forall ts: seq<Timer>, c: nat :: c < |ts| && TimerOk(ts[c]) ==> IsAdvance(ts, advance(ts, c), c)
    ensures Advances(advance)
  {
    forall ts: seq<Timer>, c: nat | c < |ts| && TimerOk(ts[c])
      ensures OthersUntouched(ts, advance(ts, c), c) && Advanced(ts[c], advance(ts, c)[c])
    {
      assert IsAdvance(ts, advance(ts, c), c);
      var calls: nat, callback: HeapTimers.Callback, cost: HeapTimers.Cost :|
        HeapTimers.Settles(callback, cost) && IsAdvanceOf(ts[c], advance(ts, c)[c], calls, callback, cost);
      AdvanceOfOne(ts[c], calls, callback, cost);
    }
  }

  /** There are such behaviours, for any callbacks that settle. */
  lemma SomeAdvance(callback: HeapTimers.Callback, cost: HeapTimers.Cost) returns (advance: Behaviour)
    requires HeapTimers.Settles(callback, cost)
    ensures Advances(advance)
    ensures forall ts: seq<Timer>, c: nat :: c < |ts| && TimerOk(ts[c]) ==>
              |advance(ts, c)| == |ts| && IsAdvanceOf(ts[c], advance(ts, c)[c], 0, callback, cost)
  {
    advance := (ts: seq<Timer>, c: nat) =>
      if c < |ts| && TimerOk(ts[c]) then
        AdvanceOfOne(ts[c], 0, callback, cost);
        ts[c := EndAdvance(HeapTimers.RunDue(BeginAdvance(ts[c]), 0, callback, cost).0)]
      else ts;
    forall ts: seq<Timer>, c: nat | c < |ts| && TimerOk(ts[c]) ensures IsAdvance(ts, advance(ts, c), c) {
      AdvanceOfOne(ts[c], 0, callback, cost);
      assert IsAdvanceOf(ts[c], advance(ts, c)[c], 0, callback, cost);
    }
    ModelAdvances(advance);
  }

  /** What a running core does: it executes for some ticks, idles, or schedules and removes. */
  datatype Act = Execute(ticks: nat) | GoIdle | Command(command: HeapTimers.Command)

  function ActOn(t: Timer, a: Act): Timer {
    match a
    case Execute(ticks) => AddTicks(t, ticks)
    case GoIdle => Timing.Idle(t)
    case Command(command) => HeapTimers.Do(t, command)
  }

  function ActAll(t: Timer, acts: seq<Act>): Timer {
    if acts == [] then t else ActOn(ActAll(t, acts[..|acts| - 1]), acts[|acts| - 1])
  }

  /** No act executes past the slice. */
  predicate Within(t: Timer, acts: seq<Act>) {
    acts == []
    || (&& Within(t, acts[..|acts| - 1])
        && (acts[|acts| - 1].Execute? ==> acts[|acts| - 1].ticks <= ActAll(t, acts[..|acts| - 1]).downcount))
  }

  lemma ActStays(t: Timer, a: Act)
    requires CanRun(t) && (a.Execute? ==> a.ticks <= t.downcount)
    ensures var u := ActOn(t, a);
            CanRun(u) && Ticks(t) <= Ticks(u) && Ticks(u) + u.downcount <= Ticks(t) + t.downcount
  {
    if a.Command? {
      match a.command {
        case Schedule(delay, userData, kind, current, threadSafe) =>
          if current && !threadSafe {
            EnqueueOk(Timing.ForceExceptionCheck(t, delay), Event(Ticks(t) + delay, 0, userData, kind));
          }
        case Cancel(target) => HeapTimers.RemovalsAgree(t.queue, t.queue, target, t.nextFifo);
      }
    }
  }

  /** Any acts within the slice, scheduling with any delays. */
  lemma {:induction false} ExecutionOfOne(t: Timer, acts: seq<Act>)
    requires CanRun(t) && Within(t, acts)
    ensures var u := ActAll(t, acts);
            CanRun(u) && Executed(t, u) && Ticks(u) + u.downcount <= Ticks(t) + t.downcount
  {
    if acts != [] {
      ExecutionOfOne(t, acts[..|acts| - 1]);
      ActStays(ActAll(t, acts[..|acts| - 1]), acts[|acts| - 1]);
    }
  }

  lemma ModelExecutes(run: Behaviour)
    requires forall ts: seq<Timer>, c: nat :: c < |ts| && CanRun(ts[c]) ==>
               OthersUntouched(ts, run(ts, c), c)
               && exists acts :: Within(ts[c], acts) && run(ts, c)[c] == ActAll(ts[c], acts)
    ensures Executes(run)
  {
    forall ts: seq<Timer>, c: nat | c < |ts| && CanRun(ts[c])
      ensures OthersUntouched(ts, run(ts, c), c) && Executed(ts[c], run(ts, c)[c])
    {
      var acts :| Within(ts[c], acts) && run(ts, c)[c] == ActAll(ts[c], acts);
      ExecutionOfOne(ts[c], acts);
    }
  }

  // ---------- the cores together ----------

  function GlobalTicks(ts: seq<Timer>): (g: int)
    requires ts != []
    ensures forall i :: 0 <= i < |ts| ==> Ticks(ts[i]) <= g
    ensures exists i :: 0 <= i < |ts| && Ticks(ts[i]) == g
  {
    if |ts| == 1 then Ticks(ts[0])
    else
      var rest := GlobalTicks(ts[..|ts| - 1]);
      assert forall i :: 0 <= i < |ts| - 1 ==> ts[..|ts| - 1][i] == ts[i];
      Max(rest, Ticks(ts[|ts| - 1]))
  }

  ghost predicate SpreadWithin(ts: seq<Timer>, bound: int) {
    forall i, j :: 0 <= i < |ts| && 0 <= j < |ts| ==> Ticks(ts[i]) - Ticks(ts[j]) <= bound
  }

  ghost predicate TimersOk(ts: seq<Timer>) { forall i :: 0 <= i < |ts| ==> TimerOk(ts[i]) }

  ghost predicate SameTicks(ts: seq<Timer>, us: seq<Timer>) {
    |us| == |ts| && forall i :: 0 <= i < |ts| ==> Ticks(us[i]) == Ticks(ts[i])
  }

  /** A slice set at a boundary is not negative and moves no clock. */
  lemma SliceFits(t: Timer, maxSlice: int)
    requires Ready(t) && 0 <= maxSlice < 0x8000_0000
    ensures var u := SetNextSlice(t, maxSlice);
            !u.sane && Ticks(u) == Ticks(t) && 0 <= u.downcount == u.sliceLength <= maxSlice
  {
    if t.queue != [] { assert t.queue[0] in t.queue; }
  }

  /** A slice of at most `delay` is set. */
  predicate HasSlice(t: Timer, delay: int) {
    !t.sane && 0 <= t.downcount <= t.sliceLength && t.downcount <= delay
  }

  /** Among the first `n` cores `chosen` is the first that lags most behind `globalTicks`, by
      `maxDelay`; with `maxDelay` zero none of them lags. */
  ghost predicate Lags(ts: seq<Timer>, globalTicks: int, n: nat, maxDelay: int, chosen: nat) {
    && n <= |ts| && maxDelay >= 0
    && (forall i :: 0 <= i < n ==> globalTicks - Ticks(ts[i]) <= maxDelay)
    && (maxDelay > 0 ==>
          && chosen < n && globalTicks - Ticks(ts[chosen]) == maxDelay
          && forall i :: 0 <= i < chosen ==> globalTicks - Ticks(ts[i]) < maxDelay)
  }

  lemma KeepsTicks(ts: seq<Timer>, us: seq<Timer>, vs: seq<Timer>, c: nat)
    requires SameTicks(ts, us) && OthersUntouched(us, vs, c) && c < |us| && Ticks(vs[c]) == Ticks(us[c])
    requires TimersOk(us) && TimerOk(vs[c])
    ensures SameTicks(ts, vs) && TimersOk(vs)
    ensures forall i :: 0 <= i < |us| && i != c && Ready(us[i]) ==> Ready(vs[i])
    ensures forall i, delay :: 0 <= i < |us| && i != c && HasSlice(us[i], delay) ==> HasSlice(vs[i], delay)
  {
  }

  class System {
    var timers: seq<Timer>

    ghost predicate Valid()
      reads this
    {
      timers != [] && TimersOk(timers) && SpreadWithin(timers, MAX_SLICE_LENGTH + MIN_DELAY)
    }

    constructor (numCores: nat, baseTicks: int)
      requires numCores > 0
      ensures Valid() && |timers| == numCores && SpreadWithin(timers, 0)
    {
      timers := seq(numCores, _ => Fresh(baseTicks));
    }

    /** A lagging core is advanced and given a slice up to the leader. */
    method PrepareLaggard(advance: Behaviour, c: nat, delay: int)
      requires Advances(advance) && c < |timers| && TimerOk(timers[c]) && 0 < delay < 0x8000_0000
      modifies this
      ensures OthersUntouched(old(timers), timers, c) && QueueOk(timers[c])
      ensures HasSlice(timers[c], delay) && Ticks(timers[c]) == Ticks(old(timers)[c])
    {
      timers := advance(timers, c);
      SliceFits(timers[c], delay);
      timers := timers[c := SetNextSlice(timers[c], delay)];
    }

    /** Preparing core `c` leaves the chosen core before it with its slice. */
    method PrepareNext(advance: Behaviour, c: nat, delay: int, ghost maxDelay: int, ghost chosen: nat,
                       ghost ts: seq<Timer>)
      requires Advances(advance) && SameTicks(ts, timers) && TimersOk(timers) && c < |timers| && 0 < delay < 0x8000_0000
      requires maxDelay > 0 ==> chosen < c && HasSlice(timers[chosen], maxDelay)
      modifies this
      ensures SameTicks(ts, timers) && TimersOk(timers) && HasSlice(timers[c], delay)
      ensures maxDelay > 0 ==> HasSlice(timers[chosen], maxDelay)
    {
      ghost var before := timers;
      PrepareLaggard(advance, c, delay);
      KeepsTicks(ts, before, timers, c);
      assert maxDelay > 0 ==> HasSlice(before[chosen], maxDelay);
    }

    /** The first loop: all lagging cores are prepared; the first one that lags most is chosen. */
    method PrepareLaggards(advance: Behaviour, globalTicks: int) returns (maxDelay: int, chosen: nat)
      requires Valid() && Advances(advance) && globalTicks == GlobalTicks(timers)
      modifies this
      ensures SameTicks(old(timers), timers) && TimersOk(timers)
      ensures Lags(old(timers), globalTicks, |timers|, maxDelay, chosen)
      ensures maxDelay > 0 ==> HasSlice(timers[chosen], maxDelay)
    {
      maxDelay, chosen := 0, 0;
      for c := 0 to |timers|
        invariant SameTicks(old(timers), timers) && TimersOk(timers)
        invariant Lags(old(timers), globalTicks, c, maxDelay, chosen)
        invariant maxDelay > 0 ==> HasSlice(timers[chosen], maxDelay)
      {
        LagsOne(old(timers), globalTicks, c, maxDelay, chosen);
        if Ticks(timers[c]) < globalTicks {
          var delay := globalTicks - Ticks(timers[c]);
          Lag(old(timers), globalTicks, c);
          PrepareNext(advance, c, delay, maxDelay, chosen, old(timers));
          if maxDelay < delay {
            maxDelay := delay;
            chosen := c;
          }
        }
      }
    }

    method PrepareOne(advance: Behaviour, c: nat) returns (length: int)
      requires Advances(advance) && c < |timers| && TimerOk(timers[c])
      modifies this
      ensures OthersUntouched(old(timers), timers, c)
      ensures Ready(timers[c]) && QueueOk(timers[c]) && Ticks(timers[c]) == Ticks(old(timers)[c]) && length > 0
    {
      timers := advance(timers, c);
      if timers[c].queue != [] { assert timers[c].queue[0] in timers[c].queue; }
      length := GetMaxSliceLength(timers[c]).value;
    }

    /** All cores are advanced; the common slice is the shortest way to a next event. */
    method PrepareAll(advance: Behaviour) returns (maxSlice: int)
      requires TimersOk(timers) && Advances(advance)
      modifies this
      ensures SameTicks(old(timers), timers) && TimersOk(timers)
      ensures forall i :: 0 <= i < |timers| ==> Ready(timers[i])
      ensures 0 < maxSlice <= MAX_SLICE_LENGTH
    {
      maxSlice := MAX_SLICE_LENGTH;
      for c := 0 to |timers|
        invariant SameTicks(old(timers), timers) && TimersOk(timers)
        invariant forall i :: 0 <= i < c ==> Ready(timers[i])
        invariant 0 < maxSlice <= MAX_SLICE_LENGTH
      {
        ghost var before := timers;
        var length := PrepareOne(advance, c);
        KeepsTicks(old(timers), before, timers, c);
        maxSlice := Min(maxSlice, length);
      }
    }

    /** The cores run in turn, each for at most what the one before it executed. */
    method RunAll(run: Behaviour, firstSlice: int)
      requires timers != [] && Executes(run) && 0 < firstSlice <= MAX_SLICE_LENGTH
      requires TimersOk(timers) && forall i :: 0 <= i < |timers| ==> Ready(timers[i])
      modifies this
      ensures |timers| == |old(timers)| && TimersOk(timers)
      ensures forall i :: 0 <= i < |timers| ==> 0 <= Ticks(timers[i]) - Ticks(old(timers)[i]) <= firstSlice
      ensures forall i, j :: 0 <= i < j < |timers| ==>
                Ticks(timers[j]) - Ticks(old(timers)[j]) <= Ticks(timers[i]) - Ticks(old(timers)[i])
    {
      var maxSlice := firstSlice;
      for c := 0 to |timers|
        invariant |timers| == |old(timers)| && TimersOk(timers)
        invariant 0 <= maxSlice <= firstSlice
        invariant forall i :: c <= i < |timers| ==> Ready(timers[i]) && Ticks(timers[i]) == Ticks(old(timers)[i])
        invariant forall i :: 0 <= i < c ==>
                    maxSlice <= Ticks(timers[i]) - Ticks(old(timers)[i]) <= firstSlice
        invariant forall i, j :: 0 <= i < j < c ==>
                    Ticks(timers[j]) - Ticks(old(timers)[j]) <= Ticks(timers[i]) - Ticks(old(timers)[i])
      {
        SliceFits(timers[c], maxSlice);
        timers := timers[c := SetNextSlice(timers[c], maxSlice)];
        var startTicks := Ticks(timers[c]);
        timers := run(timers, c);
        maxSlice := Ticks(timers[c]) - startTicks;
      }
    }

    /** Only the chosen core runs, not past the leader. */
    method CatchUp(run: Behaviour, maxDelay: int, chosen: nat, ghost ts: seq<Timer>)
      requires Executes(run) && maxDelay > 0
      requires ts != [] && SameTicks(ts, timers) && TimersOk(timers) && SpreadWithin(ts, MAX_SLICE_LENGTH + MIN_DELAY)
      requires Lags(ts, GlobalTicks(ts), |ts|, maxDelay, chosen) && HasSlice(timers[chosen], maxDelay)
      modifies this
      ensures Valid() && CaughtUp(ts, timers, chosen)
    {
      ghost var before := timers;
      timers := run(timers, chosen);
      CatchUpOk(ts, before, timers, maxDelay, chosen);
    }

    /** All cores are advanced, and run in turn. */
    method GoForward(advance: Behaviour, run: Behaviour, ghost ts: seq<Timer>)
      requires Advances(advance) && Executes(run)
      requires ts != [] && SameTicks(ts, timers) && TimersOk(timers) && SpreadWithin(ts, MIN_DELAY)
      modifies this
      ensures Valid() && ForwardBy(ts, timers, MAX_SLICE_LENGTH)
    {
      var maxSlice := PrepareAll(advance);
      RunAll(run, maxSlice);
      ForwardOk(ts, timers);
    }

    /** One pass of `RunLoop` over the cores. With a core more than 100 ticks behind, only the
        first of those most behind runs, and not past the leader. */
    method RunLoop(advance: Behaviour, run: Behaviour)
      requires Valid() && Advances(advance) && Executes(run)
      modifies this
      ensures Valid() && |timers| == |old(timers)|
      ensures if SpreadWithin(old(timers), MIN_DELAY) then ForwardBy(old(timers), timers, MAX_SLICE_LENGTH)
              else GlobalTicks(timers) == GlobalTicks(old(timers)) && exists c :: CaughtUp(old(timers), timers, c)
    {
      var globalTicks := GlobalTicks(timers);
      var maxDelay, chosen := PrepareLaggards(advance, globalTicks);
      LagsIsSpread(old(timers), maxDelay, chosen);
      if maxDelay > MIN_DELAY {
        CatchUp(run, maxDelay, chosen, old(timers));
        CatchUpKeepsGlobal(old(timers), timers, chosen);
      } else {
        GoForward(advance, run, old(timers));
      }
    }

    /** Any number of passes, each with its own behaviour, keeps the clocks together. */
    method Emulate(advances: seq<Behaviour>, runs: seq<Behaviour>)
      requires Valid() && |advances| == |runs|
      requires forall n :: 0 <= n < |runs| ==> Advances(advances[n]) && Executes(runs[n])
      modifies this
      ensures Valid() && |timers| == |old(timers)|
      ensures forall i :: 0 <= i < |timers| ==> Ticks(old(timers)[i]) <= Ticks(timers[i])
    {
      for n := 0 to |runs|
        invariant Valid() && |timers| == |old(timers)|
        invariant forall i :: 0 <= i < |timers| ==> Ticks(old(timers)[i]) <= Ticks(timers[i])
      {
        RunLoop(advances[n], runs[n]);
      }
    }
  }

  /** Core `c`, the first of those that lag most, ran, at most up to the leader. */
  ghost predicate CaughtUp(ts: seq<Timer>, us: seq<Timer>, c: nat) {
    && |us| == |ts| && c < |ts|
    && (forall i :: 0 <= i < |ts| ==> Ticks(ts[c]) <= Ticks(ts[i]))
    && (forall i :: 0 <= i < c ==> Ticks(ts[c]) < Ticks(ts[i]))
    && (forall i :: 0 <= i < |ts| && i != c ==> Ticks(us[i]) == Ticks(ts[i]))
    && Ticks(ts[c]) <= Ticks(us[c]) <= GlobalTicks(ts)
  }

  /** All cores ran, each at most as far as the one before it and as `bound`. */
  ghost predicate ForwardBy(ts: seq<Timer>, us: seq<Timer>, bound: int) {
    && |us| == |ts|
    && (forall i :: 0 <= i < |ts| ==> 0 <= Ticks(us[i]) - Ticks(ts[i]) <= bound)
    && (forall i, j :: 0 <= i < j < |ts| ==> Ticks(us[j]) - Ticks(ts[j]) <= Ticks(us[i]) - Ticks(ts[i]))
  }

  lemma Lag(ts: seq<Timer>, globalTicks: int, c: nat)
    requires ts != [] && c < |ts| && SpreadWithin(ts, MAX_SLICE_LENGTH + MIN_DELAY) && globalTicks == GlobalTicks(ts)
    ensures globalTicks - Ticks(ts[c]) <= MAX_SLICE_LENGTH + MIN_DELAY
  {
  }

  lemma LagsOne(ts: seq<Timer>, globalTicks: int, n: nat, maxDelay: int, chosen: nat)
    requires Lags(ts, globalTicks, n, maxDelay, chosen) && n < |ts|
    ensures globalTicks - Ticks(ts[n]) <= maxDelay ==> Lags(ts, globalTicks, n + 1, maxDelay, chosen)
    ensures maxDelay < globalTicks - Ticks(ts[n]) ==> Lags(ts, globalTicks, n + 1, globalTicks - Ticks(ts[n]), n)
  {
  }

  lemma LagsIsSpread(ts: seq<Timer>, maxDelay: int, chosen: nat)
    requires ts != [] && Lags(ts, GlobalTicks(ts), |ts|, maxDelay, chosen)
    ensures SpreadWithin(ts, MIN_DELAY) <==> maxDelay <= MIN_DELAY
  {
  }

  lemma CatchUpOk(ts: seq<Timer>, us: seq<Timer>, vs: seq<Timer>, maxDelay: int, chosen: nat)
    requires ts != [] && SameTicks(ts, us) && TimersOk(us) && SpreadWithin(ts, MAX_SLICE_LENGTH + MIN_DELAY)
    requires Lags(ts, GlobalTicks(ts), |ts|, maxDelay, chosen) && maxDelay > 0
    requires HasSlice(us[chosen], maxDelay)
    requires OthersUntouched(us, vs, chosen) && Executed(us[chosen], vs[chosen])
    ensures CaughtUp(ts, vs, chosen) && TimersOk(vs) && SpreadWithin(vs, MAX_SLICE_LENGTH + MIN_DELAY)
  {
  }

  lemma ForwardOk(ts: seq<Timer>, us: seq<Timer>)
    requires SpreadWithin(ts, MIN_DELAY) && ForwardBy(ts, us, MAX_SLICE_LENGTH)
    ensures SpreadWithin(us, MAX_SLICE_LENGTH + MIN_DELAY)
  {
  }

  /** Catching up does not move the global clock. */
  lemma CatchUpKeepsGlobal(ts: seq<Timer>, us: seq<Timer>, c: nat)
    requires ts != [] && CaughtUp(ts, us, c) && !SpreadWithin(ts, MIN_DELAY)
    ensures GlobalTicks(us) == GlobalTicks(ts)
  {
    var lead :| 0 <= lead < |ts| && Ticks(ts[lead]) == GlobalTicks(ts);
    var top :| 0 <= top < |us| && Ticks(us[top]) == GlobalTicks(us);
    assert lead != c;
    assert Ticks(us[lead]) == Ticks(ts[lead]);
  }
}
