/**
 Every run of one timer: events fire in (time, fifo) order, a local event is never later than
 the core overran its slice, no event is lost, and the clock does not move by itself.
 */
module TimingProof {
  import opened Timing

  // ---------- the sorted queue ----------

  ghost predicate Sorted(queue: seq<Event>) {
    forall i, j :: 0 <= i < j < |queue| ==> Before(queue[i], queue[j])
  }

  ghost predicate FifosBelow(queue: seq<Event>, bound: nat) {
    forall i :: 0 <= i < |queue| ==> queue[i].fifo < bound
  }

  lemma {:induction false} InsertMembers(queue: seq<Event>, e: Event)
    ensures multiset(Insert(queue, e)) == multiset(queue) + multiset{e}
    ensures |Insert(queue, e)| == |queue| + 1
    ensures forall x :: x in Insert(queue, e) <==> x in queue || x == e
  {
    if queue != [] && !Before(e, queue[0]) {
      InsertMembers(queue[1..], e);
      assert queue == [queue[0]] + queue[1..];
    }
  }

  lemma {:induction false} InsertSorted(queue: seq<Event>, e: Event)
    requires Sorted(queue) && FifosBelow(queue, e.fifo)
    ensures Sorted(Insert(queue, e))
  {
    if queue != [] && !Before(e, queue[0]) {
      InsertSorted(queue[1..], e);
      InsertMembers(queue[1..], e);
      var tail := Insert(queue[1..], e);
      forall j | 0 <= j < |tail| ensures Before(queue[0], tail[j]) {
        assert tail[j] in tail;
      }
    }
  }

  lemma {:induction false} WithoutMembers(queue: seq<Event>, target: Target)
    ensures |Without(queue, target)| <= |queue|
    ensures forall x :: x in Without(queue, target) <==> x in queue && !Hit(target, x)
  {
    if queue != [] { WithoutMembers(queue[1..], target); }
  }

  lemma {:induction false} WithoutSorted(queue: seq<Event>, target: Target)
    requires Sorted(queue)
    ensures Sorted(Without(queue, target))
  {
    if queue != [] {
      WithoutSorted(queue[1..], target);
      WithoutMembers(queue[1..], target);
      var tail := Without(queue[1..], target);
      forall j | 0 <= j < |tail| ensures Before(queue[0], tail[j]) {
        assert tail[j] in tail;
      }
    }
  }

  /** A queue whose events satisfy `Above` is kept by every operation below. */
  ghost predicate AllAtLeast(queue: seq<Event>, time: int) {
    forall e :: e in queue ==> time <= e.time
  }

  lemma EnqueueOk(t: Timer, e: Event)
    requires Sorted(t.queue) && FifosBelow(t.queue, t.nextFifo)
    ensures var r := Enqueue(t, e);
            && Sorted(r.queue) && FifosBelow(r.queue, r.nextFifo) && |r.queue| == |t.queue| + 1
            && (forall x :: x in r.queue <==> x in t.queue || x == e.(fifo := t.nextFifo))
  {
    InsertSorted(t.queue, e.(fifo := t.nextFifo));
    InsertMembers(t.queue, e.(fifo := t.nextFifo));
    var r := Enqueue(t, e);
    forall i | 0 <= i < |r.queue| ensures r.queue[i].fifo < r.nextFifo {
      assert r.queue[i] in r.queue;
    }
  }

  /** Moving the inbox gives its events fresh numbers; their times stay. */
  lemma {:induction false} MoveOk(t: Timer, floor: int)
    requires Sorted(t.queue) && FifosBelow(t.queue, t.nextFifo) && AllAtLeast(t.inbox, floor)
    ensures var r := MoveEvents(t);
            && Sorted(r.queue) && FifosBelow(r.queue, r.nextFifo)
            && r == t.(queue := r.queue, nextFifo := t.nextFifo + |t.inbox|, inbox := [])
            && |r.queue| == |t.queue| + |t.inbox|
            && (forall x :: x in r.queue && x !in t.queue ==> t.nextFifo <= x.fifo < r.nextFifo && floor <= x.time)
    decreases |t.inbox|
  {
    if t.inbox != [] {
      var u := Enqueue(t.(inbox := t.inbox[1..]), t.inbox[0]);
      EnqueueOk(t.(inbox := t.inbox[1..]), t.inbox[0]);
      assert t.inbox[0] in t.inbox;
      MoveOk(u, floor);
    }
  }

  // ---------- the invariant ----------

  ghost predicate QueueOk(t: Timer) { Sorted(t.queue) && FifosBelow(t.queue, t.nextFifo) }

  ghost predicate SliceOk(s: Sim) {
    && (s.advancing ==> s.timer.sane)
    && (s.timer.sane && !s.advancing ==> s.timer.sliceLength == s.timer.downcount)
    && s.timer.sliceLength >= 0 && s.timer.downcount <= s.timer.sliceLength
    && (s.advancing ==> s.timer.sliceLength == 0 && s.timer.downcount == 0)
  }

  /** The slice never reaches past a queued event, nor the clock past the bound on lateness. */
  ghost predicate TimeOk(s: Sim) {
    && s.overrun >= 0
    && s.afterArrived <= s.timer.nextFifo
    && AllAtLeast(s.timer.inbox, s.timer.executed)
    && (!s.advancing && s.timer.sane ==> AllAtLeast(s.timer.queue, s.timer.executed))
    && (!s.timer.sane ==> AllAtLeast(s.timer.queue, s.timer.executed + s.timer.sliceLength))
    && (s.advancing ==>
          forall e :: e in s.timer.queue && !(s.firstArrived <= e.fifo < s.afterArrived) ==>
            s.timer.executed - s.overrun <= e.time)
  }

  ghost predicate FiredOk(s: Sim) {
    && (forall k :: 0 <= k < |s.fired| ==>
          s.fired[k].late >= 0 && (!s.fired[k].arrived ==> s.fired[k].late <= s.fired[k].overrun))
    && (forall j, k :: 0 <= j < k < |s.fired| ==> Before(s.fired[j].event, s.fired[k].event))
    && (|s.fired| > 0 ==>
          var last := s.fired[|s.fired| - 1].event;
          && last.time <= s.timer.executed && last.fifo < s.timer.nextFifo
          && (forall e :: e in s.timer.queue ==> Before(last, e))
          && AllAtLeast(s.timer.inbox, last.time))
  }

  ghost predicate Inv(s: Sim) { QueueOk(s.timer) && SliceOk(s) && TimeOk(s) && FiredOk(s) }

  ghost predicate Conserved(s: Sim) {
    s.scheduled == |s.fired| + |s.timer.queue| + |s.timer.inbox| + s.removed
  }

  /** `ScheduleEvent` with a non-negative delay: the event is not before the slice end. */
  lemma ScheduleLocalOk(s: Sim, delay: int, userData: nat, kind: nat)
    requires Inv(s) && delay >= 0
    ensures Inv(s.(timer := ScheduleLocal(s.timer, delay, userData, kind)))
  {
    var t := if s.timer.sane then s.timer else ForceExceptionCheck(s.timer, delay);
    EnqueueOk(t, Event(Ticks(s.timer) + delay, 0, userData, kind));
  }

  lemma ScheduleKeepsInv(s: Sim, op: Op)
    requires Inv(s) && op.Schedule? && op.delay >= 0
    ensures Inv(Apply(s, op))
  {
    if op.current && !op.threadSafe {
      ScheduleLocalOk(s, op.delay, op.userData, op.kind);
    }
  }

  lemma CancelKeepsInv(s: Sim, target: Target)
    requires Inv(s)
    ensures Inv(Apply(s, Cancel(target)))
  {
    WithoutSorted(s.timer.queue, target);
    WithoutMembers(s.timer.queue, target);
    var queue := Without(s.timer.queue, target);
    forall i | 0 <= i < |queue| ensures queue[i].fifo < s.timer.nextFifo {
      assert queue[i] in queue;
    }
  }

  lemma BeginKeepsTime(s: Sim)
    requires Inv(s) && Enabled(s, Begin)
    ensures QueueOk(Apply(s, Begin).timer) && SliceOk(Apply(s, Begin)) && TimeOk(Apply(s, Begin))
  {
    MoveOk(s.timer, s.timer.executed);
  }

  lemma BeginKeepsFired(s: Sim)
    requires Inv(s) && Enabled(s, Begin)
    ensures FiredOk(Apply(s, Begin))
  {
    if |s.fired| > 0 { MoveOk(s.timer, s.fired[|s.fired| - 1].event.time); } else { MoveOk(s.timer, s.timer.executed); }
  }

  lemma BeginKeepsInv(s: Sim)
    requires Inv(s) && Enabled(s, Begin)
    ensures Inv(Apply(s, Begin))
  {
    BeginKeepsTime(s);
    BeginKeepsFired(s);
  }

  lemma FireKeepsInv(s: Sim)
    requires Inv(s) && Enabled(s, FireNext)
    ensures Inv(Apply(s, FireNext))
  {
    var e := s.timer.queue[0];
    assert e in s.timer.queue;
    forall x | x in s.timer.queue[1..] ensures Before(e, x) && x in s.timer.queue {
      var i :| 0 <= i < |s.timer.queue[1..]| && s.timer.queue[1..][i] == x;
    }
  }

  lemma SliceKeepsInv(s: Sim, op: Op)
    requires Inv(s) && Enabled(s, op) && (op.End? || op.SetSlice? || op.GoIdle? || op.Spend?)
    ensures Inv(Apply(s, op))
  {
    if s.timer.queue != [] {
      forall e | e in s.timer.queue ensures s.timer.queue[0].time <= e.time {
        var i :| 0 <= i < |s.timer.queue| && s.timer.queue[i] == e;
      }
      assert s.timer.queue[0] in s.timer.queue;
    }
  }

  lemma KeepsInv(s: Sim, op: Op)
    requires Inv(s) && Enabled(s, op) && (op.Schedule? ==> op.delay >= 0)
    ensures Inv(Apply(s, op))
  {
    match op {
      case Schedule(_, _, _, _, _) => ScheduleKeepsInv(s, op);
      case Cancel(target) => CancelKeepsInv(s, target);
      case Begin => BeginKeepsInv(s);
      case FireNext => FireKeepsInv(s);
      case _ => SliceKeepsInv(s, op);
    }
  }

  lemma {:induction false} RunInv(run: seq<Sim>, ops: seq<Op>, i: nat)
    requires IsRun(run, ops) && NonNegativeDelays(ops) && i < |run|
    ensures Inv(run[i])
  {
    if i > 0 {
      RunInv(run, ops, i - 1);
      KeepsInv(run[i - 1], ops[i - 1]);
    }
  }

  // ---------- what holds over every run ----------

  /** Moved events keep the order of the inbox. */
  lemma {:induction false} MovedAt(t: Timer, e: Event)
    requires FifosBelow(t.queue, t.nextFifo) && e in MoveEvents(t).queue && e !in t.queue
    ensures t.nextFifo <= e.fifo < t.nextFifo + |t.inbox| && e.time == t.inbox[e.fifo - t.nextFifo].time
    decreases |t.inbox|
  {
    if t.inbox != [] {
      var first := t.inbox[0].(fifo := t.nextFifo);
      var u := Enqueue(t.(inbox := t.inbox[1..]), t.inbox[0]);
      InsertMembers(t.queue, first);
      forall i | 0 <= i < |u.queue| ensures u.queue[i].fifo < u.nextFifo {
        assert u.queue[i] in u.queue;
      }
      if e != first { MovedAt(u, e); }
    }
  }

  const SAFE_DELAY: int := MAX_SLICE_LENGTH * 2

  /** Events in the inbox are not in the past, thread-safe ones far ahead; so what came through it
      is not later than the slice that ended was long. */
  ghost predicate InboxOk(s: Sim) {
    && |s.posted| == |s.timer.inbox| && s.firstArrived + |s.moved| == s.afterArrived
    && (forall i :: 0 <= i < |s.posted| && s.posted[i] ==> s.timer.executed + SAFE_DELAY <= s.timer.inbox[i].time)
    && s.elapsed <= s.slice + s.overrun
    && (s.advancing ==>
          forall e :: e in s.timer.queue && s.firstArrived <= e.fifo < s.afterArrived ==> NotTooLate(s, e))
  }

  predicate NotTooLate(s: Sim, e: Event) {
    && s.timer.executed - s.elapsed <= e.time
    && (WasSafe(s, e) ==> s.timer.executed - s.elapsed + SAFE_DELAY <= e.time)
  }

  ghost predicate ArrivedOk(fired: seq<Firing>) {
    forall k :: 0 <= k < |fired| && fired[k].arrived ==>
      && fired[k].late <= fired[k].elapsed <= fired[k].slice + fired[k].overrun
      && (fired[k].safe ==> fired[k].late <= fired[k].elapsed - SAFE_DELAY)
  }

  /** Steps that leave clock, inbox and history alone, and give the queue nothing that arrived. */
  lemma InboxFrame(s: Sim, r: Sim)
    requires InboxOk(s) && r.posted == s.posted && r.timer.inbox == s.timer.inbox && r.moved == s.moved
    requires r.timer.executed == s.timer.executed && r.elapsed == s.elapsed && r.slice == s.slice && r.overrun == s.overrun
    requires r.firstArrived == s.firstArrived && r.afterArrived == s.afterArrived
    requires r.advancing ==> s.advancing
    requires forall e :: e in r.timer.queue && e.fifo < r.afterArrived ==> e in s.timer.queue
    ensures InboxOk(r)
  {
    if r.advancing {
      forall e | e in r.timer.queue && r.firstArrived <= e.fifo < r.afterArrived ensures NotTooLate(r, e) {
        assert NotTooLate(s, e);
      }
    }
  }

  lemma LocalKeepsInbox(s: Sim, op: Op)
    requires TimeOk(s) && InboxOk(s) && op.Schedule? && op.current && !op.threadSafe
    ensures InboxOk(Apply(s, op))
  {
    InsertMembers(s.timer.queue, Event(Ticks(s.timer) + op.delay, s.timer.nextFifo, op.userData, op.kind));
    InboxFrame(s, Apply(s, op));
  }

  /** A posted event lies behind the clock by its delay. */
  lemma PostedTime(s: Sim, op: Op)
    requires SliceOk(s) && op.Schedule? && op.delay >= 0 && !(op.current && !op.threadSafe)
    ensures var r := Apply(s, op);
            && r.timer.inbox == s.timer.inbox + [r.timer.inbox[|s.timer.inbox|]]
            && r.posted == s.posted + [op.threadSafe] && r.timer.queue == s.timer.queue
            && s.timer.executed + (if op.threadSafe then SAFE_DELAY else 0) <= r.timer.inbox[|s.timer.inbox|].time
  {
  }

  lemma PostKeepsInbox(s: Sim, op: Op)
    requires SliceOk(s) && InboxOk(s) && op.Schedule? && op.delay >= 0 && !(op.current && !op.threadSafe)
    ensures InboxOk(Apply(s, op))
  {
    PostedTime(s, op);
    var r := Apply(s, op);
    if r.advancing {
      forall e | e in r.timer.queue && r.firstArrived <= e.fifo < r.afterArrived ensures NotTooLate(r, e) {
        assert NotTooLate(s, e);
      }
    }
  }

  lemma BeginKeepsInbox(s: Sim)
    requires Inv(s) && InboxOk(s) && Enabled(s, Begin)
    ensures InboxOk(Apply(s, Begin))
  {
    var r := Apply(s, Begin);
    MoveKeepsRest(s.timer);
    forall e | e in r.timer.queue && r.firstArrived <= e.fifo < r.afterArrived ensures NotTooLate(r, e) {
      MovedAt(s.timer, e);
      assert s.timer.inbox[e.fifo - s.timer.nextFifo] in s.timer.inbox;
    }
  }

  /** Nothing else touches the inbox. */
  lemma OtherFrame(s: Sim, op: Op)
    requires Enabled(s, op) && !op.Schedule? && !op.Begin?
    ensures var r := Apply(s, op);
            && r.posted == s.posted && r.timer.inbox == s.timer.inbox && r.moved == s.moved
            && r.timer.executed == s.timer.executed && r.elapsed == s.elapsed && r.slice == s.slice
            && r.overrun == s.overrun && r.firstArrived == s.firstArrived && r.afterArrived == s.afterArrived
            && (r.advancing ==> s.advancing) && forall e :: e in r.timer.queue ==> e in s.timer.queue
  {
    if op.Cancel? { WithoutMembers(s.timer.queue, op.target); }
  }

  lemma KeepsInbox(s: Sim, op: Op)
    requires Inv(s) && InboxOk(s) && Enabled(s, op) && (op.Schedule? ==> op.delay >= 0)
    ensures InboxOk(Apply(s, op))
  {
    if op.Begin? {
      BeginKeepsInbox(s);
    } else if !op.Schedule? {
      OtherFrame(s, op);
      InboxFrame(s, Apply(s, op));
    } else if op.current && !op.threadSafe {
      LocalKeepsInbox(s, op);
    } else {
      PostKeepsInbox(s, op);
    }
  }

  lemma FireKeepsArrived(s: Sim)
    requires InboxOk(s) && ArrivedOk(s.fired) && Enabled(s, FireNext)
    ensures ArrivedOk(Apply(s, FireNext).fired)
  {
    assert s.timer.queue[0] in s.timer.queue;
  }

  lemma {:induction false} RunInbox(run: seq<Sim>, ops: seq<Op>, i: nat)
    requires IsRun(run, ops) && NonNegativeDelays(ops) && i < |run|
    ensures InboxOk(run[i]) && ArrivedOk(run[i].fired)
  {
    if i > 0 {
      RunInbox(run, ops, i - 1);
      RunInv(run, ops, i - 1);
      KeepsInbox(run[i - 1], ops[i - 1]);
      if ops[i - 1].FireNext? { FireKeepsArrived(run[i - 1]); }
    }
  }

  /** With non-negative delays an event fires late by at most the overrun of the core, and
      exactly on time without one. If it came through the inbox in that very `Advance`, it is late
      by at most what was executed in the slice just ended; in thread-safe mode, by two maximal
      slices less, that is by at most the overrun too if that slice was no longer. */
  lemma LateByOverrunAtMost(run: seq<Sim>, ops: seq<Op>, i: nat, k: nat)
    requires IsRun(run, ops) && NonNegativeDelays(ops) && i < |run| && k < |run[i].fired|
    ensures var f := run[i].fired[k];
            && 0 <= f.late
            && (!f.arrived ==> f.late <= f.overrun && (f.overrun == 0 ==> f.late == 0))
            && (f.arrived ==> f.late <= f.elapsed <= f.slice + f.overrun)
            && (f.arrived && f.safe ==> f.late <= f.elapsed - SAFE_DELAY && (f.slice <= SAFE_DELAY ==> f.late <= f.overrun))
  {
    RunInv(run, ops, i);
    RunInbox(run, ops, i);
  }

  /** With non-negative delays a timer fires its events in strictly increasing (time, fifo)
      order, over the whole run. */
  lemma FiresInOrder(run: seq<Sim>, ops: seq<Op>, i: nat, j: nat, k: nat)
    requires IsRun(run, ops) && NonNegativeDelays(ops) && i < |run| && j < k < |run[i].fired|
    ensures Before(run[i].fired[j].event, run[i].fired[k].event)
  {
    RunInv(run, ops, i);
  }

  lemma {:induction false} MoveLength(t: Timer)
    ensures |MoveEvents(t).queue| == |t.queue| + |t.inbox| && MoveEvents(t).inbox == []
    decreases |t.inbox|
  {
    if t.inbox != [] {
      InsertMembers(t.queue, t.inbox[0].(fifo := t.nextFifo));
      MoveLength(Enqueue(t.(inbox := t.inbox[1..]), t.inbox[0]));
    }
  }

  lemma KeepsConserved(s: Sim, op: Op)
    requires Enabled(s, op) && Conserved(s)
    ensures Conserved(Apply(s, op))
  {
    match op {
      case Schedule(delay, userData, kind, _, _) =>
        InsertMembers(s.timer.queue, Event(Ticks(s.timer) + delay, s.timer.nextFifo, userData, kind));
      case Cancel(target) => WithoutMembers(s.timer.queue, target);
      case Begin => MoveLength(s.timer);
      case _ =>
    }
  }

  /** Every scheduled event has fired, was removed, or is still in one of the two queues,
      whatever the delays are. */
  lemma {:induction false} NoEventIsLost(run: seq<Sim>, ops: seq<Op>, i: nat)
    requires IsRun(run, ops) && i < |run|
    ensures run[i].scheduled
            == |run[i].fired| + |run[i].timer.queue| + |run[i].timer.inbox| + run[i].removed
  {
    if i > 0 {
      NoEventIsLost(run, ops, i - 1);
      assert Conserved(run[i - 1]);
      KeepsConserved(run[i - 1], ops[i - 1]);
    }
  }

  /** Scheduling into the running slice shortens it so that the new event is not inside:
      for a negative delay exactly when the core had already overrun that far. */
  lemma ScheduleFitsSliceIff(t: Timer, delay: int, userData: nat, kind: nat)
    requires !t.sane
    ensures var r := ScheduleLocal(t, delay, userData, kind);
            var e := Event(Ticks(t) + delay, t.nextFifo, userData, kind);
            && e in r.queue
            && (r.executed + r.sliceLength <= e.time <==> delay >= 0 || t.downcount <= delay)
  {
    InsertMembers(t.queue, Event(Ticks(t) + delay, t.nextFifo, userData, kind));
  }

  /** What moves the clock of a timer: only executing, idling, and leaving a slice boundary
      at which ticks were spent. `Advance` as a whole does not. */
  lemma ClockMovesIff(s: Sim, op: Op)
    requires Enabled(s, op) && SliceOk(s)
    ensures var r := Apply(s, op);
            Ticks(r.timer) == Ticks(s.timer)
            <==> match op
                 case SetSlice(_) => s.timer.downcount == s.timer.sliceLength
                 case GoIdle => s.timer.downcount == 0
                 case Spend(n) => n == 0
                 case _ => true
  {
    if op.Begin? { MoveKeepsRest(s.timer); }
  }

  lemma {:induction false} MoveKeepsRest(t: Timer)
    ensures var r := MoveEvents(t);
            r == t.(queue := r.queue, nextFifo := t.nextFifo + |t.inbox|, inbox := [])
    decreases |t.inbox|
  {
    if t.inbox != [] { MoveKeepsRest(Enqueue(t.(inbox := t.inbox[1..]), t.inbox[0])); }
  }

  // ---------- how long `Advance` takes ----------

  function DueCount(queue: seq<Event>, executed: int): nat {
    if queue == [] then 0 else (if queue[0].time <= executed then 1 else 0) + DueCount(queue[1..], executed)
  }

  lemma {:induction false} InsertDue(queue: seq<Event>, e: Event, executed: int)
    ensures DueCount(Insert(queue, e), executed) == DueCount(queue, executed) + DueCount([e], executed)
  {
    if queue != [] && !Before(e, queue[0]) {
      InsertDue(queue[1..], e, executed);
    }
  }

  /** Inside `Advance` a callback that reschedules with a positive delay adds nothing to
      what is due, and each firing takes one away: the loop ends. */
  lemma DueGoesDown(t: Timer, delay: int, userData: nat, kind: nat)
    requires t.sane && HasDue(t) && delay >= 1
    ensures DueCount(Fire(t).queue, t.executed) == DueCount(t.queue, t.executed) - 1
    ensures DueCount(ScheduleLocal(Fire(t), delay, userData, kind).queue, t.executed)
            == DueCount(t.queue, t.executed) - 1
  {
    InsertDue(t.queue[1..], Event(t.executed + delay, t.nextFifo, userData, kind), t.executed);
  }

  /** A callback that reschedules some event with a fixed delay. */
  function Reschedule(n: nat, delay: int, userData: nat, kind: nat): seq<Op> {
    if n == 0 then []
    else [FireNext, Schedule(delay, userData, kind, true, false)] + Reschedule(n - 1, delay, userData, kind)
  }

  function Play(s: Sim, ops: seq<Op>): seq<Sim>
    decreases |ops|
  {
    if ops == [] || !Enabled(s, ops[0]) then [s] else [s] + Play(Apply(s, ops[0]), ops[1..])
  }

  lemma StaysDue(t: Timer, delay: int, userData: nat, kind: nat)
    requires t.sane && HasDue(t) && delay <= 0
    ensures HasDue(ScheduleLocal(Fire(t), delay, userData, kind))
  {
  }

  /** The loop of `Advance` does not end while every callback reschedules without delay, or into
      the past: after any number of rounds there is again a due event, whatever else is queued. */
  lemma {:induction false} NoDelayNeverEnds(s: Sim, n: nat, delay: int, userData: nat, kind: nat)
    requires s.advancing && s.timer.sane && HasDue(s.timer) && delay <= 0
    ensures var run := Play(s, Reschedule(n, delay, userData, kind));
            |run| == 2 * n + 1 && Enabled(run[2 * n], FireNext) && |run[2 * n].fired| == |s.fired| + n
    decreases n
  {
    if n > 0 {
      StaysDue(s.timer, delay, userData, kind);
      var u := Apply(s, FireNext);
      var v := Apply(u, Schedule(delay, userData, kind, true, false));
      NoDelayNeverEnds(v, n - 1, delay, userData, kind);
      var rest := Reschedule(n - 1, delay, userData, kind);
      var ops := Reschedule(n, delay, userData, kind);
      assert ops[1..] == [Schedule(delay, userData, kind, true, false)] + rest && ops[1..][1..] == rest;
      assert Play(s, ops) == [s] + ([u] + Play(v, rest));
    }
  }

  /** One pass of the loop with a callback that reschedules its own event with a fixed delay. */
  function Round(t: Timer, delay: int): Timer {
    if HasDue(t) then ScheduleLocal(Fire(t), delay, t.queue[0].userData, t.queue[0].kind) else t
  }

  function Rounds(t: Timer, delay: int, n: nat): Timer
    decreases n
  {
    if n == 0 then t else Rounds(Round(t, delay), delay, n - 1)
  }

  lemma {:induction false} RoundsEnd(t: Timer, delay: int) returns (n: nat)
    requires t.sane && delay >= 1
    ensures !HasDue(Rounds(t, delay, n))
    decreases DueCount(t.queue, t.executed)
  {
    n := 0;
    if HasDue(t) {
      DueGoesDown(t, delay, t.queue[0].userData, t.queue[0].kind);
      var m := RoundsEnd(Round(t, delay), delay);
      n := m + 1;
    }
  }

  lemma {:induction false} RoundsStayDue(t: Timer, delay: int, n: nat)
    requires t.sane && HasDue(t) && delay <= 0
    ensures HasDue(Rounds(t, delay, n))
    decreases n
  {
    if n > 0 {
      StaysDue(t, delay, t.queue[0].userData, t.queue[0].kind);
      RoundsStayDue(Round(t, delay), delay, n - 1);
    }
  }

  /** With callbacks that reschedule their events with a fixed delay, the loop of `Advance` ends
      exactly when the delay is positive, or nothing is due to begin with; for any queue. */
  lemma FixedDelayEndsIff(t: Timer, delay: int)
    requires t.sane
    ensures (exists n: nat :: !HasDue(Rounds(t, delay, n))) <==> delay >= 1 || !HasDue(t)
  {
    if delay >= 1 {
      var n := RoundsEnd(t, delay);
    } else if HasDue(t) {
      forall n: nat ensures HasDue(Rounds(t, delay, n)) {
        RoundsStayDue(t, delay, n);
      }
    } else {
      assert !HasDue(Rounds(t, delay, 0));
    }
  }
}
