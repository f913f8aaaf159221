/**
 The log flush handshake of the logging backend: any number of threads push entries
 into a bounded single-consumer queue or ask for a flush, one backend thread pops the
 queue, writes entries and services the flush sentinels. Every shared access (an atomic
 operation, a queue operation, a mutex operation) is one step, and the steps of all
 threads interleave freely.
 */
module LogFlush {
  import opened Common

  /** What sits in `message_queue`: a log line, the "logging dropped n entries" report,
      or a flush sentinel. All sentinels look alike: the ticket is not part of the entry. */
  datatype Item = Line(id: nat) | Report(dropped: nat) | Sentinel

  /** One thing the backends did, in order. */
  datatype Output = Written(item: Item) | Flushed

  /** Where a producer or flusher thread stands between two shared accesses. */
  datatype Phase =
    | Idle
    | Entered                               // its line is queued, `dropped_entries.exchange(0)` is next
    | Reporting(dropped: nat)               // took the drop count, the report line is next
    | Restoring(dropped: nat)               // the report did not fit, `fetch_add(dropped)` is next
    | Losing                                // its line did not fit, `fetch_add(1)` is next
    | Trying(ticket: nat)                   // has a ticket, the sentinel is not in yet
    | Locking(ticket: nat, expired: bool)   // wants `flush_mutex` to evaluate the predicate
    | Holding(ticket: nat, expired: bool)   // holds `flush_mutex`
    | Drowsy(ticket: nat)                   // found the predicate false, still holds `flush_mutex`
    | Asleep(ticket: nat)                   // inside `flush_cv`
    | Released(ticket: nat)                 // found the predicate true

  /** What became of a ticket (history, read by nobody). */
  datatype Fate = Undecided | QueuedAt(index: nat) | Abandoned

  datatype Mutex = Free | HeldByBackend | HeldBy(thread: nat)

  /** The backend thread: the live loop, or the drain with the pops it has left. */
  datatype Mode = Live | Drain(budget: nat)

  datatype Stage =
    | Checking                  // about to test the stop token
    | Popping                   // inside `PopWait`
    | Dispatching(mode: Mode)   // about to look at `entry`
    | Acquiring(mode: Mode)     // the backends were flushed, `flush_mutex` is next
    | Counting(mode: Mode)      // holds `flush_mutex`, the increment is next
    | Unlocking(mode: Mode)     // incremented, still holds `flush_mutex`
    | Notifying(mode: Mode)     // `notify_all` is next
    | Resetting                 // `entry = Entry{}` is next (live loop only)
    | Draining(budget: nat)     // about to `TryPop`
    | Stopped

  datatype State = State(
    capacity: nat,
    queue: seq<Item>,
    entry: Option<Item>,
    stage: Stage,
    stopRequested: bool,
    flushRequested: nat,
    flushCompleted: nat,
    droppedEntries: nat,
    flushMutex: Mutex,
    threads: seq<Phase>,
    outputs: seq<Output>,
    // history variables
    pushed: seq<Item>,      // every item the queue ever accepted, in order
    owners: seq<nat>,       // the ticket behind each accepted sentinel
    popped: nat,
    marks: seq<nat>,        // |pushed| when each ticket was taken
    fates: seq<Fate>,
    losses: nat)            // lines that did not fit

  /** The steps of a thread inside `PushEntry` or `FlushBackends`. */
  datatype ThreadOp =
    | PushLine(id: nat)
    | CountLoss
    | TakeDropped
    | PushReport
    | RestoreDropped
    | TakeTicket
    | TryPushSentinel
    | GiveUp
    | LockFlush
    | Evaluate
    | FallAsleep
    | WakeUp(expired: bool)
    | Leave

  /** The steps of the backend thread, and the stop request it obeys. */
  datatype BackendOp =
    | RequestStop
    | CheckStop(drainBudget: nat)
    | PopEntry
    | StopWake
    | Dispatch
    | LockByBackend
    | Increment
    | UnlockByBackend
    | NotifyAll
    | ResetEntry
    | TryPop

  datatype Action = OfThread(thread: nat, op: ThreadOp) | OfBackend(step: BackendOp)

  function Initial(capacity: nat, threadCount: nat): State {
    State(capacity, [], None, Checking, false, 0, 0, 0, Free,
          seq(threadCount, _ => Idle), [], [], [], 0, [], [], 0)
  }

  predicate ThreadEnabled(s: State, p: nat, op: ThreadOp) {
    && p < |s.threads|
    && match op
       case PushLine(_) => s.threads[p].Idle?
       case CountLoss => s.threads[p].Losing?
       case TakeDropped => s.threads[p].Entered?
       case PushReport => s.threads[p].Reporting?
       case RestoreDropped => s.threads[p].Restoring?
       case TakeTicket => s.threads[p].Idle?
       case TryPushSentinel => s.threads[p].Trying?
       case GiveUp => s.threads[p].Trying?
       case LockFlush => s.threads[p].Locking? && s.flushMutex.Free?
       case Evaluate => s.threads[p].Holding?
       case FallAsleep => s.threads[p].Drowsy?
       case WakeUp(_) => s.threads[p].Asleep?
       case Leave => s.threads[p].Released?
  }

  predicate BackendEnabled(s: State, op: BackendOp) {
    match op
    case RequestStop => true
    case CheckStop(_) => s.stage.Checking?
    case PopEntry => s.stage.Popping? && s.queue != []
    case StopWake => s.stage.Popping? && s.stopRequested
    case Dispatch => s.stage.Dispatching?
    case LockByBackend => s.stage.Acquiring? && s.flushMutex.Free?
    case Increment => s.stage.Counting?
    case UnlockByBackend => s.stage.Unlocking?
    case NotifyAll => s.stage.Notifying?
    case ResetEntry => s.stage.Resetting?
    case TryPop => s.stage.Draining?
  }

  function Move(s: State, thread: nat, phase: Phase): State
    requires thread < |s.threads|
  {
    s.(threads := s.threads[thread := phase])
  }

  /** `TryEmplace` on a queue with room; `owner` is the ticket behind a sentinel. */
  function Accept(s: State, item: Item, owner: nat): State {
    s.(queue := s.queue + [item], pushed := s.pushed + [item], owners := s.owners + [owner])
  }

  predicate HasRoom(s: State) { |s.queue| < s.capacity }

  /** Where the backend thread goes after it is done with an entry. */
  function AfterEntry(mode: Mode): Stage {
    match mode
    case Live => Resetting
    case Drain(budget) => Draining(budget)
  }

  function Pop(s: State, mode: Mode): State
    requires s.queue != []
  {
    s.(queue := s.queue[1..], popped := s.popped + 1, entry := Some(s.queue[0]),
       stage := Dispatching(mode))
  }

  /** `notify_all`: every sleeper has to take the mutex again and look. */
  function Awake(threads: seq<Phase>): (r: seq<Phase>)
    ensures |r| == |threads|
    ensures forall i :: 0 <= i < |r| ==>
                          r[i] == if threads[i].Asleep? then Locking(threads[i].ticket, false) else threads[i]
  {
    seq(|threads|, i requires 0 <= i < |threads| =>
      if threads[i].Asleep? then Locking(threads[i].ticket, false) else threads[i])
  }

  function Decide(fates: seq<Fate>, ticket: nat, fate: Fate): (r: seq<Fate>)
    ensures |r| == |fates|
    ensures forall k :: 0 <= k < |r| ==> r[k] == if k + 1 == ticket then fate else fates[k]
  {
    if 0 < ticket <= |fates| then fates[ticket - 1 := fate] else fates
  }

  function ThreadStep(s: State, p: nat, op: ThreadOp): State
    requires ThreadEnabled(s, p, op)
  {
    match op
    case PushLine(id) =>
      if HasRoom(s) then Move(Accept(s, Line(id), 0), p, Entered)
      else Move(s.(losses := s.losses + 1), p, Losing)
    case CountLoss => Move(s.(droppedEntries := s.droppedEntries + 1), p, Idle)
    case TakeDropped =>
      Move(s.(droppedEntries := 0), p,
           if s.droppedEntries == 0 then Idle else Reporting(s.droppedEntries))
    case PushReport =>
      var d := s.threads[p].dropped;
      if HasRoom(s) then Move(Accept(s, Report(d), 0), p, Idle) else Move(s, p, Restoring(d))
    case RestoreDropped =>
      Move(s.(droppedEntries := s.droppedEntries + s.threads[p].dropped), p, Idle)
    case TakeTicket =>
      Move(s.(flushRequested := s.flushRequested + 1, marks := s.marks + [|s.pushed|],
              fates := s.fates + [Undecided]), p, Trying(s.flushRequested + 1))
    case TryPushSentinel =>
      var t := s.threads[p].ticket;
      if HasRoom(s) then
        Move(Accept(s.(fates := Decide(s.fates, t, QueuedAt(|s.pushed|))), Sentinel, t),
             p, Locking(t, false))
      else s
    case GiveUp =>
      Move(s.(fates := Decide(s.fates, s.threads[p].ticket, Abandoned)), p, Idle)
    case LockFlush =>
      Move(s.(flushMutex := HeldBy(p)), p, Holding(s.threads[p].ticket, s.threads[p].expired))
    case Evaluate =>
      var t := s.threads[p].ticket;
      if s.flushCompleted >= t then Move(s.(flushMutex := Free), p, Released(t))
      else if s.threads[p].expired then Move(s.(flushMutex := Free), p, Idle)
      else Move(s, p, Drowsy(t))
    case FallAsleep => Move(s.(flushMutex := Free), p, Asleep(s.threads[p].ticket))
    case WakeUp(expired) => Move(s, p, Locking(s.threads[p].ticket, expired))
    case Leave => Move(s, p, Idle)
  }

  function BackendStep(s: State, op: BackendOp): State
    requires BackendEnabled(s, op)
  {
    match op
    case RequestStop => s.(stopRequested := true)
    case CheckStop(b) => s.(stage := if s.stopRequested then Draining(b) else Popping)
    case PopEntry => Pop(s, Live)
    case StopWake => s.(stage := Dispatching(Live))
    case Dispatch =>
      if s.entry == None then s.(stage := AfterEntry(s.stage.mode))
      else if s.entry.value.Sentinel? then
        s.(stage := Acquiring(s.stage.mode), outputs := s.outputs + [Flushed])
      else
        s.(stage := AfterEntry(s.stage.mode), outputs := s.outputs + [Written(s.entry.value)])
    case LockByBackend => s.(stage := Counting(s.stage.mode), flushMutex := HeldByBackend)
    case Increment => s.(stage := Unlocking(s.stage.mode), flushCompleted := s.flushCompleted + 1)
    case UnlockByBackend => s.(stage := Notifying(s.stage.mode), flushMutex := Free)
    case NotifyAll => s.(stage := AfterEntry(s.stage.mode), threads := Awake(s.threads))
    case ResetEntry => s.(stage := Checking, entry := None)
    case TryPop =>
      if s.stage.budget == 0 || s.queue == [] then s.(stage := Stopped)
      else Pop(s, Drain(s.stage.budget - 1))
  }

  predicate Enabled(s: State, a: Action) {
    match a
    case OfThread(p, op) => ThreadEnabled(s, p, op)
    case OfBackend(op) => BackendEnabled(s, op)
  }

  function Apply(s: State, a: Action): State
    requires Enabled(s, a)
  {
    match a
    case OfThread(p, op) => ThreadStep(s, p, op)
    case OfBackend(op) => BackendStep(s, op)
  }

  /** A run: the states the system passes through under any schedule of enabled actions. */
  ghost predicate IsRun(run: seq<State>, acts: seq<Action>) {
    && |run| == |acts| + 1
    && (exists c, n :: run[0] == Initial(c, n))
    && forall i {:trigger acts[i]} :: 0 <= i < |acts| ==> Enabled(run[i], acts[i]) && run[i + 1] == Apply(run[i], acts[i])
  }
}
