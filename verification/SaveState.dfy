/**
 The save-state request protocol of `System`: frontend threads queue, refuse and cancel
 Save/Load requests while the emulation thread consumes, defers, executes or drops them
 inside `RunLoop`. One step is one shared access; `signal_mutex` is explicit, the
 callback mutex protects single-step sections. Time only moves forward.
 */
module SaveState {
  import opened Common

  datatype Signal = NoSignal | Shutdown | Reset | Save | Load

  datatype Status = Idle | Saving | Loading

  datatype Outcome = Success | TransientFailure | PermanentFailure

  /** One call of `NotifySaveStateResult`. `id` is history: it names the request. */
  datatype Note = Note(id: nat, isLoad: bool, outcome: Outcome)

  datatype Mutex = Free | HeldByEmulation | HeldBy(thread: nat)

  /** Where `NotifySaveStateResult` returns to. */
  datatype Next = ToOffStatus | ToOutside | ToUnmark

  /** The emulation thread inside `RunLoop`. */
  datatype EmuPhase =
    | Outside
    | OffLocking                              // not powered on: wants `signal_mutex`
    | OffTaking
    | OffReleasing(taken: Option<Note>)
    | OffStatus                               // looks at the pending request
    | Gated                                   // powered on, at the debugger gate
    | CancelTest                              // `exchange` of the cancel latch is next
    | ConsumeLocking
    | Consuming
    | Publishing(signal: Signal, param: nat, id: nat)   // signal cleared, mirror not set yet
    | ConsumeReleasing(signal: Signal, param: nat, id: nat)
    | Switching(signal: Signal, param: nat, id: nat)
    | Resolving
    | Starting(isLoad: bool, id: nat)         // status cleared, mirror is next
    | Marking(isLoad: bool, id: nat)          // mirror cleared, executing flag is next
    | Running(isLoad: bool, id: nat)          // inside LoadState/SaveState
    | ClearingMirror(note: Note)              // status cleared without executing
    | Notifying(note: Note, next: Next)
    | Calling(note: Note, next: Next)         // inside the callback
    | Unmarking                               // scope exit: executing flag off

  /** A frontend thread inside `SendSignal`, `CancelPendingSaveStateOperation` or
      `SetSaveStateCallback`. `held` says it still holds `signal_mutex`. */
  datatype FrontPhase =
    | Elsewhere
    | SendLocking(signal: Signal, param: nat)
    | Sending(signal: Signal, param: nat)
    | SendReleasing
    | CancelLocking
    | CancelLooking
    | CancelArming(target: nat)               // saw the mirror set, the store is next
    | CancelReleasing(taken: Option<Note>)
    | FrontNotifying(note: Note, held: bool)
    | FrontCalling(note: Note, held: bool)
    | Delivering(note: Note)

  datatype Thread = Emulation | Frontend(thread: nat)

  /** Where a request is (history). */
  datatype Place =
    | Queued
    | InHand
    | Pending
    | Executing
    | Reporting(holder: Thread)
    | Noted(index: nat)

  /** `current_signal`, `signal_param` and `signal_mutex`. */
  datatype Inbox = Inbox(signal: Signal, param: nat, mutex: Mutex)

  /** The emulation-owned request (`save_state_request_status`, `_slot`, `_request_time`)
      and the three atomics the frontend may look at. */
  datatype Request = Request(
    status: Status,
    slot: nat,
    time: nat,
    pending: bool,            // save_state_request_pending, the mirror
    cancelRequested: bool,
    executing: bool)

  /** The outcome channel; `notes`, `handedOver` and `lost` are history. */
  datatype Mailbox = Mailbox(
    callback: bool,
    undelivered: Option<Note>,
    notes: seq<Note>,
    handedOver: nat,          // notes given to a callback
    lost: nat)                // latched notes overwritten or dropped

  /** History variables: nothing in the protocol reads them. */
  datatype History = History(
    places: seq<Place>,
    params: seq<nat>,         // the parameter of the last send of each request
    kinds: seq<bool>,         // whether each request is a load
    queuedId: nat,
    pendingId: nat,
    mirrorId: nat,            // the request the mirror stands for
    latchId: nat,             // the request the last cancel saw
    runCounts: seq<nat>,      // how often each request entered LoadState/SaveState
    runSlots: seq<nat>,       // the slot of its last run
    latchLate: bool)          // the last arming store came too late, see `ArmsLate`

  datatype State = State(
    poweredOn: bool,
    now: nat,
    inbox: Inbox,
    req: Request,
    mail: Mailbox,
    emu: EmuPhase,
    fronts: seq<FrontPhase>,
    log: History)

  const DEADLINE: nat := 5000

  datatype EmuOp =
    | Enter | OffLock | OffTake | OffRelease | CheckOffStatus
    | GateReturn | GatePass | ExchangeCancel
    | ConsumeLock | Consume | Publish | ConsumeRelease | Switch
    | Resolve(ready: bool) | ClearForStart | MarkExecuting | Finish(ok: bool)
    | ClearMirror | Notify | ReturnFromCallback | Unmark | Restamp

  datatype FrontOp =
    | CallSend(signal: Signal, param: nat) | SendLock | Decide | SendRelease
    | CallCancel | CancelLock | Look | Arm | CancelRelease
    | FrontNotify | FrontReturn
    | SetCallback(install: bool) | Deliver

  datatype Action =
    | OfEmulation(emuOp: EmuOp)
    | OfFrontend(thread: nat, frontOp: FrontOp)
    | SetPower(on: bool)
    | Tick(time: nat)

  function Initial(threadCount: nat): State {
    State(false, 0, Inbox(NoSignal, 0, Free), Request(Idle, 0, 0, false, false, false),
          Mailbox(false, None, [], 0, 0), Outside, seq(threadCount, _ => Elsewhere),
          History([], [], [], 0, 0, 0, 0, [], [], false))
  }

  predicate IsRequest(signal: Signal) { signal.Save? || signal.Load? }

  function Put(log: History, id: nat, place: Place): History {
    if id < |log.places| then log.(places := log.places[id := place]) else log
  }

  function Run(log: History, id: nat, slot: nat): History {
    if id < |log.runCounts| && id < |log.runSlots| then
      log.(runCounts := log.runCounts[id := log.runCounts[id] + 1], runSlots := log.runSlots[id := slot])
    else log
  }

  function After(next: Next): EmuPhase {
    match next
    case ToOffStatus => OffStatus
    case ToOutside => Outside
    case ToUnmark => Unmarking
  }

  /** The locked half of `NotifySaveStateResult`: count the note, then either copy the
      callback or latch the outcome, newest wins. */
  function Record(mail: Mailbox, note: Note): Mailbox {
    if mail.callback then mail.(notes := mail.notes + [note], handedOver := mail.handedOver + 1)
    else mail.(notes := mail.notes + [note], undelivered := Some(note),
               lost := mail.lost + if mail.undelivered.Some? then 1 else 0)
  }

  predicate EmuEnabled(s: State, op: EmuOp) {
    match op
    case Enter => s.emu.Outside?
    case OffLock => s.emu.OffLocking? && s.inbox.mutex.Free?
    case OffTake => s.emu.OffTaking?
    case OffRelease => s.emu.OffReleasing?
    case CheckOffStatus => s.emu.OffStatus?
    case GateReturn => s.emu.Gated?
    case GatePass => s.emu.Gated?
    case ExchangeCancel => s.emu.CancelTest?
    case ConsumeLock => s.emu.ConsumeLocking? && s.inbox.mutex.Free?
    case Consume => s.emu.Consuming?
    case Publish => s.emu.Publishing?
    case ConsumeRelease => s.emu.ConsumeReleasing?
    case Switch => s.emu.Switching?
    case Resolve(_) => s.emu.Resolving?
    case ClearForStart => s.emu.Starting?
    case MarkExecuting => s.emu.Marking?
    case Finish(_) => s.emu.Running?
    case ClearMirror => s.emu.ClearingMirror?
    case Notify => s.emu.Notifying?
    case ReturnFromCallback => s.emu.Calling?
    case Unmark => s.emu.Unmarking?
    case Restamp => s.emu.Outside?
  }

  /** Drops the pending request without executing it; its mirror is cleared next. */
  function DropPending(s: State): State {
    s.(req := s.req.(status := Idle),
       log := Put(s.log, s.log.pendingId, Reporting(Emulation)),
       emu := ClearingMirror(Note(s.log.pendingId, s.req.status.Loading?, TransientFailure)))
  }

  function SwitchStep(s: State, signal: Signal, param: nat, id: nat): State {
    if signal.Reset? || signal.Shutdown? then s.(emu := Outside)
    else if !IsRequest(signal) then s.(emu := Resolving)
    else if !s.req.status.Idle? then
      s.(log := Put(s.log, id, Reporting(Emulation)),
         emu := Notifying(Note(id, signal.Load?, TransientFailure), ToOutside))
    else
      s.(log := Put(s.log, id, Pending).(pendingId := id),
         req := s.req.(status := if signal.Load? then Loading else Saving, slot := param, time := s.now),
         emu := Resolving)
  }

  function ResolveStep(s: State, ready: bool): State {
    if s.req.status.Idle? then s.(emu := Outside)
    else if ready then
      s.(log := Put(s.log, s.log.pendingId, Executing), req := s.req.(status := Idle),
         emu := Starting(s.req.status.Loading?, s.log.pendingId))
    else if s.now - s.req.time > DEADLINE then DropPending(s)
    else s.(emu := Outside)
  }

  function EmuStep(s: State, op: EmuOp): State
    requires EmuEnabled(s, op)
  {
    match op
    case Enter => s.(emu := if s.poweredOn then Gated else OffLocking)
    case OffLock => s.(emu := OffTaking, inbox := s.inbox.(mutex := HeldByEmulation))
    case OffTake =>
      if IsRequest(s.inbox.signal) then
        s.(log := Put(s.log, s.log.queuedId, Reporting(Emulation)),
           inbox := s.inbox.(signal := NoSignal),
           emu := OffReleasing(Some(Note(s.log.queuedId, s.inbox.signal.Load?, TransientFailure))))
      else s.(emu := OffReleasing(None))
    case OffRelease =>
      s.(inbox := s.inbox.(mutex := Free),
         emu := if s.emu.taken.Some? then Notifying(s.emu.taken.value, ToOffStatus) else OffStatus)
    case CheckOffStatus => if s.req.status.Idle? then s.(emu := Outside) else DropPending(s)
    case GateReturn => s.(emu := Outside)
    case GatePass => s.(emu := CancelTest)
    case ExchangeCancel =>
      var r := s.(req := s.req.(cancelRequested := false));
      if s.req.cancelRequested && !s.req.status.Idle? then DropPending(r)
      else r.(emu := ConsumeLocking)
    case ConsumeLock => s.(emu := Consuming, inbox := s.inbox.(mutex := HeldByEmulation))
    case Consume =>
      if IsRequest(s.inbox.signal) then
        s.(log := Put(s.log, s.log.queuedId, InHand),
           inbox := s.inbox.(signal := NoSignal),
           emu := Publishing(s.inbox.signal, s.inbox.param, s.log.queuedId))
      else
        s.(inbox := s.inbox.(signal := NoSignal),
           emu := ConsumeReleasing(s.inbox.signal, s.inbox.param, 0))
    case Publish =>
      s.(req := s.req.(pending := true),
         log := if s.req.status.Idle? then s.log.(mirrorId := s.emu.id) else s.log,
         emu := ConsumeReleasing(s.emu.signal, s.emu.param, s.emu.id))
    case ConsumeRelease =>
      s.(inbox := s.inbox.(mutex := Free), emu := Switching(s.emu.signal, s.emu.param, s.emu.id))
    case Switch => SwitchStep(s, s.emu.signal, s.emu.param, s.emu.id)
    case Resolve(ready) => ResolveStep(s, ready)
    case ClearForStart => s.(req := s.req.(pending := false), emu := Marking(s.emu.isLoad, s.emu.id))
    case MarkExecuting =>
      s.(req := s.req.(executing := true), log := Run(s.log, s.emu.id, s.req.slot),
         emu := Running(s.emu.isLoad, s.emu.id))
    case Finish(ok) =>
      s.(log := Put(s.log, s.emu.id, Reporting(Emulation)),
         emu := Notifying(Note(s.emu.id, s.emu.isLoad, if ok then Success else PermanentFailure), ToUnmark))
    case ClearMirror => s.(req := s.req.(pending := false), emu := Notifying(s.emu.note, ToOutside))
    case Notify =>
      s.(log := Put(s.log, s.emu.note.id, Noted(|s.mail.notes|)), mail := Record(s.mail, s.emu.note),
         emu := if s.mail.callback then Calling(s.emu.note, s.emu.next) else After(s.emu.next))
    case ReturnFromCallback => s.(emu := After(s.emu.next))
    case Unmark => s.(req := s.req.(executing := false), emu := Outside)
    case Restamp => if s.req.status.Idle? then s else s.(req := s.req.(time := s.now))
  }

  predicate FrontEnabled(s: State, f: nat, op: FrontOp) {
    && f < |s.fronts|
    && match op
       case CallSend(signal, _) => s.fronts[f].Elsewhere? && !signal.NoSignal?
       case SendLock => s.fronts[f].SendLocking? && s.inbox.mutex.Free?
       case Decide => s.fronts[f].Sending?
       case SendRelease => s.fronts[f].SendReleasing?
       case CallCancel => s.fronts[f].Elsewhere?
       case CancelLock => s.fronts[f].CancelLocking? && s.inbox.mutex.Free?
       case Look => s.fronts[f].CancelLooking?
       case Arm => s.fronts[f].CancelArming?
       case CancelRelease => s.fronts[f].CancelReleasing?
       case FrontNotify => s.fronts[f].FrontNotifying?
       case FrontReturn => s.fronts[f].FrontCalling?
       case SetCallback(_) => s.fronts[f].Elsewhere?
       case Deliver => s.fronts[f].Delivering?
  }

  /** The mirror was cleared between the look and the store, and `RunLoop` has already
      passed its latch test: it waits for `signal_mutex` to consume a signal that is still
      to be sent. */
  predicate ArmsLate(s: State) { !s.req.pending && s.emu.ConsumeLocking? && s.inbox.signal.NoSignal? }

  /** A new request: an accepted first send, or a refused one that is reported at once. */
  function Issue(log: History, isLoad: bool, param: nat, place: Place): History {
    log.(places := log.places + [place], params := log.params + [param], kinds := log.kinds + [isLoad],
         runCounts := log.runCounts + [0], runSlots := log.runSlots + [0])
  }

  /** `SendSignal` under the mutex: `f` is the sender. */
  function SendStep(s: State, f: nat, signal: Signal, param: nat): State
    requires f < |s.fronts|
  {
    if s.inbox.signal != signal && !s.inbox.signal.NoSignal? then
      if IsRequest(signal) then
        s.(log := Issue(s.log, signal.Load?, param, Reporting(Frontend(f))),
           fronts := s.fronts[f := FrontNotifying(Note(|s.log.places|, signal.Load?, TransientFailure), true)])
      else s.(fronts := s.fronts[f := SendReleasing])
    else
      s.(inbox := s.inbox.(signal := signal, param := param),
         fronts := s.fronts[f := SendReleasing],
         log := if !IsRequest(signal) then s.log
                else if s.inbox.signal == signal then
                  s.log.(params := if s.log.queuedId < |s.log.params| then s.log.params[s.log.queuedId := param]
                                   else s.log.params)
                else Issue(s.log, signal.Load?, param, Queued).(queuedId := |s.log.places|))
  }

  function LookStep(s: State, f: nat): State
    requires f < |s.fronts|
  {
    if IsRequest(s.inbox.signal) then
      s.(log := Put(s.log, s.log.queuedId, Reporting(Frontend(f))),
         inbox := s.inbox.(signal := NoSignal),
         fronts := s.fronts[f := CancelReleasing(
           Some(Note(s.log.queuedId, s.inbox.signal.Load?, TransientFailure)))])
    else
      s.(fronts := s.fronts[f := if s.req.pending then CancelArming(s.log.mirrorId) else CancelReleasing(None)])
  }

  function SetCallbackStep(s: State, f: nat, install: bool): State
    requires f < |s.fronts|
  {
    if install && s.mail.undelivered.Some? then
      s.(mail := s.mail.(callback := true, undelivered := None, handedOver := s.mail.handedOver + 1),
         fronts := s.fronts[f := Delivering(s.mail.undelivered.value)])
    else if install then s.(mail := s.mail.(callback := true))
    else s.(mail := s.mail.(callback := false, undelivered := None,
                            lost := s.mail.lost + if s.mail.undelivered.Some? then 1 else 0))
  }

  function FrontStep(s: State, f: nat, op: FrontOp): State
    requires FrontEnabled(s, f, op)
  {
    match op
    case CallSend(signal, param) => s.(fronts := s.fronts[f := SendLocking(signal, param)])
    case SendLock =>
      s.(inbox := s.inbox.(mutex := HeldBy(f)),
         fronts := s.fronts[f := Sending(s.fronts[f].signal, s.fronts[f].param)])
    case Decide => SendStep(s, f, s.fronts[f].signal, s.fronts[f].param)
    case SendRelease => s.(inbox := s.inbox.(mutex := Free), fronts := s.fronts[f := Elsewhere])
    case CallCancel => s.(fronts := s.fronts[f := CancelLocking])
    case CancelLock => s.(inbox := s.inbox.(mutex := HeldBy(f)), fronts := s.fronts[f := CancelLooking])
    case Look => LookStep(s, f)
    case Arm =>
      s.(req := s.req.(cancelRequested := true),
         log := s.log.(latchId := s.fronts[f].target, latchLate := ArmsLate(s)),
         fronts := s.fronts[f := CancelReleasing(None)])
    case CancelRelease =>
      s.(inbox := s.inbox.(mutex := Free),
         fronts := s.fronts[f := if s.fronts[f].taken.Some? then FrontNotifying(s.fronts[f].taken.value, false)
                                 else Elsewhere])
    case FrontNotify =>
      s.(log := Put(s.log, s.fronts[f].note.id, Noted(|s.mail.notes|)),
         mail := Record(s.mail, s.fronts[f].note),
         fronts := s.fronts[f := if s.mail.callback then FrontCalling(s.fronts[f].note, s.fronts[f].held)
                                 else if s.fronts[f].held then SendReleasing else Elsewhere])
    case FrontReturn => s.(fronts := s.fronts[f := if s.fronts[f].held then SendReleasing else Elsewhere])
    case SetCallback(install) => SetCallbackStep(s, f, install)
    case Deliver => s.(fronts := s.fronts[f := Elsewhere])
  }

  predicate Enabled(s: State, a: Action) {
    match a
    case OfEmulation(op) => EmuEnabled(s, op)
    case OfFrontend(f, op) => FrontEnabled(s, f, op)
    case SetPower(_) => true
    case Tick(time) => s.now <= time
  }

  function Apply(s: State, a: Action): State
    requires Enabled(s, a)
  {
    match a
    case OfEmulation(op) => EmuStep(s, op)
    case OfFrontend(f, op) => FrontStep(s, f, op)
    case SetPower(on) => s.(poweredOn := on)
    case Tick(time) => s.(now := time)
  }

  /** A run: the states the system passes through under any schedule of enabled actions. */
  ghost predicate IsRun(run: seq<State>, acts: seq<Action>) {
    && |run| == |acts| + 1
    && (exists n :: run[0] == Initial(n))
    && forall i {:trigger acts[i]} :: 0 <= i < |acts| ==> Enabled(run[i], acts[i]) && run[i + 1] == Apply(run[i], acts[i])
  }
}
