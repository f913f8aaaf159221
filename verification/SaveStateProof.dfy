/**
 What every interleaving of the save-state request protocol keeps: each request is
 resolved exactly once, a cancel sees what it may cancel, and exactly when the cancel
 latch can hit a request that was queued after the cancel.
 */
module SaveStateProof {
  import opened Common
  import opened SaveState

  // ---------- the invariant ----------

  predicate EmuHoldsMutex(emu: EmuPhase) {
    emu.OffTaking? || emu.OffReleasing? || emu.Consuming? || emu.Publishing? || emu.ConsumeReleasing?
  }

  predicate FrontHoldsMutex(phase: FrontPhase) {
    || phase.Sending? || phase.SendReleasing? || phase.CancelLooking? || phase.CancelArming?
    || phase.CancelReleasing? || ((phase.FrontNotifying? || phase.FrontCalling?) && phase.held)
  }

  ghost predicate MutexOk(s: State) {
    && (EmuHoldsMutex(s.emu) <==> s.inbox.mutex.HeldByEmulation?)
    && (forall f :: 0 <= f < |s.fronts| ==> (FrontHoldsMutex(s.fronts[f]) <==> s.inbox.mutex == HeldBy(f)))
  }

  /** The request the emulation thread has in its hands, and in which capacity. */
  function EmuHolds(emu: EmuPhase): Option<(nat, Place)> {
    match emu
    case OffReleasing(Some(n)) => Some((n.id, Reporting(Emulation)))
    case ClearingMirror(n) => Some((n.id, Reporting(Emulation)))
    case Notifying(n, _) => Some((n.id, Reporting(Emulation)))
    case Publishing(sig, _, id) => if IsRequest(sig) then Some((id, InHand)) else None
    case ConsumeReleasing(sig, _, id) => if IsRequest(sig) then Some((id, InHand)) else None
    case Switching(sig, _, id) => if IsRequest(sig) then Some((id, InHand)) else None
    case Starting(_, id) => Some((id, Executing))
    case Marking(_, id) => Some((id, Executing))
    case Running(_, id) => Some((id, Executing))
    case _ => None
  }

  function FrontHolds(phase: FrontPhase): Option<nat> {
    match phase
    case CancelReleasing(Some(n)) => Some(n.id)
    case FrontNotifying(n, _) => Some(n.id)
    case _ => None
  }

  predicate OfEmu(place: Place) {
    place.InHand? || place.Executing? || place == Reporting(Emulation)
  }

  function QueuedNow(s: State): Option<nat> {
    if IsRequest(s.inbox.signal) then Some(s.log.queuedId) else None
  }

  function PendingNow(s: State): Option<nat> {
    if s.req.status.Idle? then None else Some(s.log.pendingId)
  }

  // Each place of `places` has one counterpart in the concrete state, and back.

  ghost predicate QueuedAt(places: seq<Place>, queued: Option<nat>) {
    && (queued.Some? ==> queued.value < |places|)
    && (forall id :: 0 <= id < |places| ==> (places[id].Queued? <==> queued == Some(id)))
  }

  ghost predicate PendingAt(places: seq<Place>, pending: Option<nat>) {
    && (pending.Some? ==> pending.value < |places|)
    && (forall id :: 0 <= id < |places| ==> (places[id].Pending? <==> pending == Some(id)))
  }

  ghost predicate EmuAt(places: seq<Place>, held: Option<(nat, Place)>) {
    && (held.Some? ==> held.value.0 < |places| && OfEmu(held.value.1))
    && (forall id :: 0 <= id < |places| ==>
          if held.Some? && held.value.0 == id then places[id] == held.value.1 else !OfEmu(places[id]))
  }

  ghost predicate FrontAt(places: seq<Place>, fronts: seq<FrontPhase>) {
    && (forall f :: 0 <= f < |fronts| && FrontHolds(fronts[f]).Some? ==>
          && FrontHolds(fronts[f]).value < |places|
          && places[FrontHolds(fronts[f]).value] == Reporting(Frontend(f)))
    && (forall id :: 0 <= id < |places| && places[id].Reporting? && places[id].holder.Frontend? ==>
          && places[id].holder.thread < |fronts|
          && FrontHolds(fronts[places[id].holder.thread]) == Some(id))
  }

  ghost predicate NotedAt(places: seq<Place>, notes: seq<Note>) {
    && (forall k :: 0 <= k < |notes| ==> notes[k].id < |places| && places[notes[k].id] == Noted(k))
    && (forall id :: 0 <= id < |places| && places[id].Noted? ==>
          places[id].index < |notes| && notes[places[id].index].id == id)
  }

  ghost predicate PlacesOk(s: State) {
    Everywhere(s.log.places, QueuedNow(s), PendingNow(s), EmuHolds(s.emu), s.fronts, s.mail.notes)
  }

  predicate InsideExecution(emu: EmuPhase) {
    || emu.Running? || emu.Unmarking?
    || ((emu.Notifying? || emu.Calling?) && emu.next.ToUnmark?)
  }

  predicate ConsumedIdle(s: State) {
    s.req.status.Idle? && (s.emu.ConsumeReleasing? || s.emu.Switching?) && IsRequest(s.emu.signal)
  }

  /** The mirror is set exactly while a request is consumed and not yet resolved or started. */
  ghost predicate MirrorSet(s: State) {
    && (s.req.pending <==> !s.req.status.Idle? || s.emu.Starting? || s.emu.ClearingMirror? || ConsumedIdle(s))
    && (s.emu.Publishing? ==> IsRequest(s.emu.signal))
    && (s.emu.Starting? || s.emu.ClearingMirror? || s.emu.Marking? || InsideExecution(s.emu) ==>
          s.req.status.Idle?)
    && (s.req.executing <==> InsideExecution(s.emu))
  }

  /** The request the mirror stands for. */
  ghost predicate MirrorNames(s: State) {
    && (!s.req.status.Idle? ==> s.log.mirrorId == s.log.pendingId)
    && (s.emu.Starting? ==> s.log.mirrorId == s.emu.id)
    && (s.emu.ClearingMirror? ==> s.log.mirrorId == s.emu.note.id)
    && (ConsumedIdle(s) ==> s.log.mirrorId == s.emu.id)
  }

  ghost predicate MirrorOk(s: State) { MirrorSet(s) && MirrorNames(s) }

  ghost predicate DeliveryOk(s: State) {
    && |s.mail.notes| == s.mail.handedOver + (if s.mail.undelivered.Some? then 1 else 0) + s.mail.lost
    && (s.mail.undelivered.Some? ==>
          !s.mail.callback && |s.mail.notes| > 0 && s.mail.undelivered.value == s.mail.notes[|s.mail.notes| - 1])
  }

  ghost predicate TargetsOk(s: State) {
    forall f :: 0 <= f < |s.fronts| && s.fronts[f].CancelArming? ==>
      && s.fronts[f].target < |s.log.places|
      && (s.req.pending ==> s.fronts[f].target == s.log.mirrorId)
      && !IsRequest(s.inbox.signal)
  }

  /** Unless it was armed late, a set latch is aimed at the request it will meet. */
  ghost predicate AimOk(s: State) {
    s.req.cancelRequested && !s.log.latchLate ==>
      && (!s.req.status.Idle? ==> s.log.latchId == s.log.pendingId)
      && (s.emu.ConsumeLocking? || s.emu.Consuming? ==>
            !s.req.status.Idle? || s.inbox.signal.Shutdown? || s.inbox.signal.Reset?)
      && (s.emu.Publishing? ==> !s.req.status.Idle?)
      && (ConsumedIdle(s) ==> s.emu.Switching? && s.log.latchId == s.emu.id)
  }

  /** A note tells the kind of its request, and `TransientFailure` says it never ran. */
  ghost predicate Fits(log: History, note: Note) {
    && note.id < |log.kinds| == |log.runCounts|
    && note.isLoad == log.kinds[note.id]
    && (note.outcome.TransientFailure? <==> log.runCounts[note.id] == 0)
  }

  ghost predicate Sized(log: History) {
    |log.params| == |log.kinds| == |log.runCounts| == |log.runSlots| == |log.places|
  }

  /** A request that waits carries the kind and the parameter of its last send. */
  ghost predicate Carries(log: History, id: nat, isLoad: bool, param: nat) {
    id < |log.kinds| && id < |log.params| && log.kinds[id] == isLoad && log.params[id] == param
  }

  predicate HasSignal(emu: EmuPhase) {
    (emu.Publishing? || emu.ConsumeReleasing? || emu.Switching?) && IsRequest(emu.signal)
  }

  function EmuNote(emu: EmuPhase): Option<Note> {
    match emu
    case OffReleasing(taken) => taken
    case ClearingMirror(n) => Some(n)
    case Notifying(n, _) => Some(n)
    case _ => None
  }

  function FrontNote(phase: FrontPhase): Option<Note> {
    match phase
    case CancelReleasing(taken) => taken
    case FrontNotifying(n, _) => Some(n)
    case _ => None
  }

  predicate HasRun(place: Place, count: nat) {
    if place.Queued? || place.InHand? || place.Pending? then count == 0 else count <= 1
  }

  ghost predicate LogOk(log: History) {
    && Sized(log)
    && (forall id :: 0 <= id < |log.places| ==>
          && HasRun(log.places[id], log.runCounts[id])
          && (log.runCounts[id] > 0 ==> log.runSlots[id] == log.params[id]))
  }

  ghost predicate RunsOk(s: State) {
    && LogOk(s.log)
    && (s.emu.Starting? || s.emu.Marking? ==>
          s.emu.id < |s.log.runCounts| && s.log.runCounts[s.emu.id] == 0)
    && (s.emu.Running? ==> s.emu.id < |s.log.runCounts| && s.log.runCounts[s.emu.id] == 1)
  }

  ghost predicate NotesOk(s: State) {
    && (forall k :: 0 <= k < |s.mail.notes| ==> Fits(s.log, s.mail.notes[k]))
    && (EmuNote(s.emu).Some? ==> Fits(s.log, EmuNote(s.emu).value))
    && (forall f :: 0 <= f < |s.fronts| && FrontNote(s.fronts[f]).Some? ==>
          Fits(s.log, FrontNote(s.fronts[f]).value))
  }

  ghost predicate SignalOk(s: State) {
    && (IsRequest(s.inbox.signal) ==> Carries(s.log, s.log.queuedId, s.inbox.signal.Load?, s.inbox.param))
    && (HasSignal(s.emu) ==> Carries(s.log, s.emu.id, s.emu.signal.Load?, s.emu.param))
  }

  ghost predicate SlotOk(s: State) {
    && (!s.req.status.Idle? ==> Carries(s.log, s.log.pendingId, s.req.status.Loading?, s.req.slot))
    && (s.emu.Starting? || s.emu.Marking? ==> Carries(s.log, s.emu.id, s.emu.isLoad, s.req.slot))
    && (s.emu.Running? ==> s.emu.id < |s.log.kinds| && s.log.kinds[s.emu.id] == s.emu.isLoad)
  }

  ghost predicate ValuesOk(s: State) { SignalOk(s) && SlotOk(s) }

  ghost predicate Inv(s: State) {
    && MutexOk(s) && PlacesOk(s) && MirrorOk(s) && DeliveryOk(s) && TargetsOk(s) && AimOk(s)
    && RunsOk(s) && NotesOk(s) && ValuesOk(s)
  }

  /** The steps of `RunLoop` up to the consumption of the signal. */
  predicate Early(op: EmuOp) {
    || op.Enter? || op.OffLock? || op.OffTake? || op.OffRelease? || op.CheckOffStatus?
    || op.GateReturn? || op.GatePass? || op.ExchangeCancel? || op.ConsumeLock? || op.Consume?
  }

  lemma EmuKeepsMutex(s: State, op: EmuOp)
    requires EmuEnabled(s, op) && MutexOk(s)
    ensures MutexOk(EmuStep(s, op))
  {
  }

  lemma FrontKeepsMutex(s: State, f: nat, op: FrontOp)
    requires FrontEnabled(s, f, op) && MutexOk(s)
    ensures MutexOk(FrontStep(s, f, op))
  {
  }

  // Requests change places one at a time.

  ghost predicate Everywhere(places: seq<Place>, queued: Option<nat>, pending: Option<nat>,
                             held: Option<(nat, Place)>, fronts: seq<FrontPhase>, notes: seq<Note>) {
    && QueuedAt(places, queued)
    && PendingAt(places, pending)
    && EmuAt(places, held)
    && FrontAt(places, fronts)
    && NotedAt(places, notes)
  }

  predicate OfFront(place: Place) { place.Reporting? && place.holder.Frontend? }

  function Without(held: Option<(nat, Place)>, id: nat): Option<(nat, Place)> {
    if held.Some? && held.value.0 == id then None else held
  }

  function Drop(held: Option<nat>, id: nat): Option<nat> {
    if held == Some(id) then None else held
  }

  /** The request `id` leaves its place for one the emulation thread has room for. */
  lemma MoveToEmu(places: seq<Place>, queued: Option<nat>, pending: Option<nat>, held: Option<(nat, Place)>,
                  fronts: seq<FrontPhase>, notes: seq<Note>, id: nat, place: Place)
    requires Everywhere(places, queued, pending, held, fronts, notes)
    requires id < |places| && !places[id].Noted? && !OfFront(places[id])
    requires OfEmu(place) && Without(held, id).None?
    ensures Everywhere(places[id := place], Drop(queued, id), Drop(pending, id), Some((id, place)), fronts, notes)
  {
  }

  lemma MoveToPending(places: seq<Place>, queued: Option<nat>, pending: Option<nat>, held: Option<(nat, Place)>,
                      fronts: seq<FrontPhase>, notes: seq<Note>, id: nat)
    requires Everywhere(places, queued, pending, held, fronts, notes)
    requires id < |places| && !places[id].Noted? && !OfFront(places[id]) && pending.None?
    ensures Everywhere(places[id := Pending], Drop(queued, id), Some(id), Without(held, id), fronts, notes)
  {
  }

  lemma MoveToNoted(places: seq<Place>, queued: Option<nat>, pending: Option<nat>, held: Option<(nat, Place)>,
                    fronts: seq<FrontPhase>, notes: seq<Note>, note: Note)
    requires Everywhere(places, queued, pending, held, fronts, notes)
    requires note.id < |places| && !places[note.id].Noted? && !OfFront(places[note.id])
    ensures Everywhere(places[note.id := Noted(|notes|)], Drop(queued, note.id), Drop(pending, note.id),
                       Without(held, note.id), fronts, notes + [note])
  {
  }

  /** A frontend takes the queued request out to report it cancelled. */
  lemma MoveToFront(places: seq<Place>, queued: Option<nat>, pending: Option<nat>, held: Option<(nat, Place)>,
                    fronts: seq<FrontPhase>, notes: seq<Note>, id: nat, f: nat, phase: FrontPhase)
    requires Everywhere(places, queued, pending, held, fronts, notes)
    requires queued == Some(id) && f < |fronts| && FrontHolds(fronts[f]).None? && FrontHolds(phase) == Some(id)
    ensures Everywhere(places[id := Reporting(Frontend(f))], None, pending, held, fronts[f := phase], notes)
  {
  }

  lemma NotedByFront(places: seq<Place>, queued: Option<nat>, pending: Option<nat>, held: Option<(nat, Place)>,
                     fronts: seq<FrontPhase>, notes: seq<Note>, f: nat, note: Note, phase: FrontPhase)
    requires Everywhere(places, queued, pending, held, fronts, notes)
    requires f < |fronts| && FrontHolds(fronts[f]) == Some(note.id) && FrontHolds(phase).None?
    ensures note.id < |places|
    ensures Everywhere(places[note.id := Noted(|notes|)], queued, pending, held, fronts[f := phase], notes + [note])
  {
  }

  lemma IssueQueued(places: seq<Place>, pending: Option<nat>, held: Option<(nat, Place)>,
                    fronts: seq<FrontPhase>, notes: seq<Note>)
    requires Everywhere(places, None, pending, held, fronts, notes)
    ensures Everywhere(places + [Queued], Some(|places|), pending, held, fronts, notes)
  {
  }

  lemma IssueRefused(places: seq<Place>, queued: Option<nat>, pending: Option<nat>, held: Option<(nat, Place)>,
                     fronts: seq<FrontPhase>, notes: seq<Note>, f: nat, phase: FrontPhase)
    requires Everywhere(places, queued, pending, held, fronts, notes)
    requires f < |fronts| && FrontHolds(fronts[f]).None? && FrontHolds(phase) == Some(|places|)
    ensures Everywhere(places + [Reporting(Frontend(f))], queued, pending, held, fronts[f := phase], notes)
  {
  }

  /** A frontend moves on with the same request, or none, in its hands. */
  lemma FrontMoves(places: seq<Place>, fronts: seq<FrontPhase>, f: nat, phase: FrontPhase)
    requires FrontAt(places, fronts)
    requires f < |fronts| && FrontHolds(phase) == FrontHolds(fronts[f])
    ensures FrontAt(places, fronts[f := phase])
  {
  }

  lemma DropKeepsPlaces(s: State)
    requires PlacesOk(s) && !s.req.status.Idle? && EmuHolds(s.emu).None?
    ensures PlacesOk(DropPending(s))
  {
    MoveToEmu(s.log.places, QueuedNow(s), PendingNow(s), None, s.fronts, s.mail.notes,
              s.log.pendingId, Reporting(Emulation));
  }

  lemma TakeKeepsPlaces(s: State, op: EmuOp)
    requires EmuEnabled(s, op) && PlacesOk(s) && (op.OffTake? || op.Consume?)
    ensures PlacesOk(EmuStep(s, op))
  {
    if IsRequest(s.inbox.signal) {
      MoveToEmu(s.log.places, QueuedNow(s), PendingNow(s), None, s.fronts, s.mail.notes,
                s.log.queuedId, if op.OffTake? then Reporting(Emulation) else InHand);
    }
  }

  /** A request in the hands of the emulation thread is nowhere else. */
  lemma HeldIsElsewhere(s: State, id: nat)
    requires PlacesOk(s) && EmuHolds(s.emu).Some? && EmuHolds(s.emu).value.0 == id
    ensures id < |s.log.places| && s.log.places[id] == EmuHolds(s.emu).value.1
    ensures Drop(QueuedNow(s), id) == QueuedNow(s) && Drop(PendingNow(s), id) == PendingNow(s)
    ensures Without(EmuHolds(s.emu), id).None?
  {
  }

  lemma AcceptKeepsPlaces(s: State, signal: Signal, param: nat, id: nat)
    requires PlacesOk(s) && IsRequest(signal) && EmuHolds(s.emu) == Some((id, InHand)) && s.req.status.Idle?
    ensures PlacesOk(SwitchStep(s, signal, param, id))
  {
    HeldIsElsewhere(s, id);
    MoveToPending(s.log.places, QueuedNow(s), None, EmuHolds(s.emu), s.fronts, s.mail.notes, id);
  }

  lemma RejectKeepsPlaces(s: State, signal: Signal, param: nat, id: nat)
    requires PlacesOk(s) && IsRequest(signal) && EmuHolds(s.emu) == Some((id, InHand)) && !s.req.status.Idle?
    ensures PlacesOk(SwitchStep(s, signal, param, id))
  {
    HeldIsElsewhere(s, id);
    MoveToEmu(s.log.places, QueuedNow(s), PendingNow(s), EmuHolds(s.emu), s.fronts, s.mail.notes,
              id, Reporting(Emulation));
  }

  lemma SwitchKeepsPlaces(s: State)
    requires EmuEnabled(s, Switch) && PlacesOk(s)
    ensures PlacesOk(EmuStep(s, Switch))
  {
    if IsRequest(s.emu.signal) {
      if s.req.status.Idle? {
        AcceptKeepsPlaces(s, s.emu.signal, s.emu.param, s.emu.id);
      } else {
        RejectKeepsPlaces(s, s.emu.signal, s.emu.param, s.emu.id);
      }
    }
  }

  lemma ResolveKeepsPlaces(s: State, ready: bool)
    requires EmuEnabled(s, Resolve(ready)) && PlacesOk(s)
    ensures PlacesOk(EmuStep(s, Resolve(ready)))
  {
    if !s.req.status.Idle? {
      DropKeepsPlaces(s);
      MoveToEmu(s.log.places, QueuedNow(s), PendingNow(s), None, s.fronts, s.mail.notes,
                s.log.pendingId, Executing);
    }
  }

  lemma FinishKeepsPlaces(s: State, ok: bool)
    requires EmuEnabled(s, Finish(ok)) && PlacesOk(s)
    ensures PlacesOk(EmuStep(s, Finish(ok)))
  {
    HeldIsElsewhere(s, s.emu.id);
    MoveToEmu(s.log.places, QueuedNow(s), PendingNow(s), EmuHolds(s.emu), s.fronts, s.mail.notes,
              s.emu.id, Reporting(Emulation));
  }

  lemma NotifyKeepsPlaces(s: State)
    requires EmuEnabled(s, Notify) && PlacesOk(s)
    ensures PlacesOk(EmuStep(s, Notify))
  {
    HeldIsElsewhere(s, s.emu.note.id);
    MoveToNoted(s.log.places, QueuedNow(s), PendingNow(s), EmuHolds(s.emu), s.fronts, s.mail.notes, s.emu.note);
  }

  predicate MovesRequest(op: EmuOp) {
    || op.OffTake? || op.Consume? || op.CheckOffStatus? || op.ExchangeCancel? || op.Switch?
    || op.Resolve? || op.Finish? || op.Notify?
  }

  lemma EmuPlacesFrame(s: State, op: EmuOp)
    requires EmuEnabled(s, op) && !MovesRequest(op)
    ensures var r := EmuStep(s, op);
            && r.log.places == s.log.places && QueuedNow(r) == QueuedNow(s) && PendingNow(r) == PendingNow(s)
            && EmuHolds(r.emu) == EmuHolds(s.emu) && r.fronts == s.fronts && r.mail == s.mail
  {
  }

  lemma EmuKeepsPlaces(s: State, op: EmuOp)
    requires EmuEnabled(s, op) && PlacesOk(s)
    ensures PlacesOk(EmuStep(s, op))
  {
    if !MovesRequest(op) {
      EmuPlacesFrame(s, op);
    } else if op.OffTake? || op.Consume? {
      TakeKeepsPlaces(s, op);
    } else if op.Switch? {
      SwitchKeepsPlaces(s);
    } else if op.Resolve? {
      ResolveKeepsPlaces(s, op.ready);
    } else if op.Finish? {
      FinishKeepsPlaces(s, op.ok);
    } else if op.Notify? {
      NotifyKeepsPlaces(s);
    } else if !s.req.status.Idle? {
      DropKeepsPlaces(if op.ExchangeCancel? then s.(req := s.req.(cancelRequested := false)) else s);
    }
  }

  lemma FrontPlacesFrame(s: State, f: nat, op: FrontOp)
    requires FrontEnabled(s, f, op) && !op.Decide? && !op.Look? && !op.FrontNotify?
    ensures var r := FrontStep(s, f, op);
            && r.log.places == s.log.places && QueuedNow(r) == QueuedNow(s) && PendingNow(r) == PendingNow(s)
            && r.emu == s.emu && r.mail.notes == s.mail.notes
            && r.fronts == s.fronts[f := r.fronts[f]] && FrontHolds(r.fronts[f]) == FrontHolds(s.fronts[f])
  {
  }

  lemma RefusedKeepsPlaces(s: State, f: nat, signal: Signal, param: nat)
    requires PlacesOk(s) && f < |s.fronts| && FrontHolds(s.fronts[f]).None?
    requires s.inbox.signal != signal && !s.inbox.signal.NoSignal? && IsRequest(signal)
    ensures PlacesOk(SendStep(s, f, signal, param))
  {
    var phase := SendStep(s, f, signal, param).fronts[f];
    IssueRefused(s.log.places, QueuedNow(s), PendingNow(s), EmuHolds(s.emu), s.fronts, s.mail.notes, f, phase);
  }

  lemma AcceptedKeepsPlaces(s: State, f: nat, signal: Signal, param: nat)
    requires PlacesOk(s) && f < |s.fronts| && FrontHolds(s.fronts[f]).None?
    requires s.inbox.signal.NoSignal? && IsRequest(signal)
    ensures PlacesOk(SendStep(s, f, signal, param))
  {
    var fronts := SendStep(s, f, signal, param).fronts;
    FrontMoves(s.log.places, s.fronts, f, fronts[f]);
    IssueQueued(s.log.places, PendingNow(s), EmuHolds(s.emu), fronts, s.mail.notes);
  }

  lemma SendPlacesFrame(s: State, f: nat, signal: Signal, param: nat)
    requires f < |s.fronts|
    requires !IsRequest(signal) || s.inbox.signal == signal
    ensures var r := SendStep(s, f, signal, param);
            && r.log.places == s.log.places && QueuedNow(r) == QueuedNow(s) && r.req == s.req && r.emu == s.emu
            && r.log.pendingId == s.log.pendingId && r.mail == s.mail && r.fronts == s.fronts[f := SendReleasing]
  {
  }

  lemma SendKeepsPlaces(s: State, f: nat, signal: Signal, param: nat)
    requires PlacesOk(s) && f < |s.fronts| && FrontHolds(s.fronts[f]).None?
    ensures PlacesOk(SendStep(s, f, signal, param))
  {
    if !IsRequest(signal) || s.inbox.signal == signal {
      SendPlacesFrame(s, f, signal, param);
      FrontMoves(s.log.places, s.fronts, f, SendReleasing);
    } else if s.inbox.signal.NoSignal? {
      AcceptedKeepsPlaces(s, f, signal, param);
    } else {
      RefusedKeepsPlaces(s, f, signal, param);
    }
  }

  lemma FrontKeepsPlaces(s: State, f: nat, op: FrontOp)
    requires FrontEnabled(s, f, op) && PlacesOk(s)
    ensures PlacesOk(FrontStep(s, f, op))
  {
    var r := FrontStep(s, f, op);
    if op.Decide? {
      SendKeepsPlaces(s, f, s.fronts[f].signal, s.fronts[f].param);
    } else if op.FrontNotify? {
      NotedByFront(s.log.places, QueuedNow(s), PendingNow(s), EmuHolds(s.emu), s.fronts, s.mail.notes, f,
                   s.fronts[f].note, r.fronts[f]);
    } else if op.Look? && IsRequest(s.inbox.signal) {
      MoveToFront(s.log.places, QueuedNow(s), PendingNow(s), EmuHolds(s.emu), s.fronts, s.mail.notes,
                  s.log.queuedId, f, r.fronts[f]);
    } else {
      if !op.Look? { FrontPlacesFrame(s, f, op); }
      FrontMoves(s.log.places, s.fronts, f, r.fronts[f]);
    }
  }

  lemma EarlyKeepsMirrorSet(s: State, op: EmuOp)
    requires EmuEnabled(s, op) && Early(op) && MirrorSet(s)
    ensures MirrorSet(EmuStep(s, op))
  {
  }

  lemma EmuKeepsMirrorSet(s: State, op: EmuOp)
    requires EmuEnabled(s, op) && MirrorSet(s)
    ensures MirrorSet(EmuStep(s, op))
  {
    if Early(op) { EarlyKeepsMirrorSet(s, op); } else { LateKeepsMirrorSet(s, op); }
  }

  lemma LateKeepsMirrorSet(s: State, op: EmuOp)
    requires EmuEnabled(s, op) && !Early(op) && MirrorSet(s)
    ensures MirrorSet(EmuStep(s, op))
  {
  }

  lemma EarlyKeepsMirrorNames(s: State, op: EmuOp)
    requires EmuEnabled(s, op) && Early(op) && MirrorOk(s)
    ensures MirrorNames(EmuStep(s, op))
  {
  }

  lemma EmuKeepsMirrorNames(s: State, op: EmuOp)
    requires EmuEnabled(s, op) && MirrorOk(s)
    ensures MirrorNames(EmuStep(s, op))
  {
    if Early(op) { EarlyKeepsMirrorNames(s, op); } else { LateKeepsMirrorNames(s, op); }
  }

  lemma LateKeepsMirrorNames(s: State, op: EmuOp)
    requires EmuEnabled(s, op) && !Early(op) && MirrorOk(s)
    ensures MirrorNames(EmuStep(s, op))
  {
  }

  lemma FrontKeepsMirror(s: State, f: nat, op: FrontOp)
    requires FrontEnabled(s, f, op) && MirrorOk(s)
    ensures MirrorOk(FrontStep(s, f, op))
  {
  }

  lemma EmuKeepsDelivery(s: State, op: EmuOp)
    requires EmuEnabled(s, op) && DeliveryOk(s)
    ensures DeliveryOk(EmuStep(s, op))
  {
  }

  lemma FrontKeepsDelivery(s: State, f: nat, op: FrontOp)
    requires FrontEnabled(s, f, op) && DeliveryOk(s)
    ensures DeliveryOk(FrontStep(s, f, op))
  {
  }

  lemma EmuKeepsTargets(s: State, op: EmuOp)
    requires EmuEnabled(s, op) && TargetsOk(s) && MutexOk(s)
    ensures TargetsOk(EmuStep(s, op))
  {
    var r := EmuStep(s, op);
    assert r.fronts == s.fronts && |r.log.places| == |s.log.places|;
    forall f | 0 <= f < |s.fronts| && s.fronts[f].CancelArming? && r.req.pending
      ensures s.fronts[f].target == r.log.mirrorId
    {
      assert FrontHoldsMutex(s.fronts[f]);
    }
  }

  /** The mirror always stands for a request that was issued. */
  lemma MirrorIssued(s: State)
    requires MirrorOk(s) && PlacesOk(s) && s.req.pending
    ensures s.log.mirrorId < |s.log.places|
  {
  }

  lemma FrontTargetsFrame(s: State, f: nat, op: FrontOp)
    requires FrontEnabled(s, f, op)
    ensures var r := FrontStep(s, f, op);
            && r.req.pending == s.req.pending && r.log.mirrorId == s.log.mirrorId
            && |s.log.places| <= |r.log.places| && r.fronts == s.fronts[f := r.fronts[f]]
            && (r.fronts[f].CancelArming? ==> op.Look? && s.req.pending && r.fronts[f].target == s.log.mirrorId
                                              && r.inbox.signal == s.inbox.signal && !IsRequest(s.inbox.signal))
            && (r.inbox.signal == s.inbox.signal || r.inbox.signal.NoSignal? || FrontHoldsMutex(s.fronts[f]))
  {
  }

  lemma FrontKeepsTargets(s: State, f: nat, op: FrontOp)
    requires FrontEnabled(s, f, op) && TargetsOk(s) && MirrorOk(s) && PlacesOk(s) && MutexOk(s)
    ensures TargetsOk(FrontStep(s, f, op))
  {
    if s.req.pending { MirrorIssued(s); }
    FrontTargetsFrame(s, f, op);
    forall g | 0 <= g < |s.fronts| && s.fronts[g].CancelArming? && g != f ensures !FrontHoldsMutex(s.fronts[f]) {
      assert FrontHoldsMutex(s.fronts[g]);
    }
  }

  lemma EarlyKeepsAim(s: State, op: EmuOp)
    requires EmuEnabled(s, op) && Early(op) && AimOk(s) && MirrorOk(s)
    ensures AimOk(EmuStep(s, op))
  {
  }

  lemma LateKeepsAim(s: State, op: EmuOp)
    requires EmuEnabled(s, op) && !Early(op) && AimOk(s) && MirrorOk(s)
    ensures AimOk(EmuStep(s, op))
  {
  }

  lemma EmuKeepsAim(s: State, op: EmuOp)
    requires EmuEnabled(s, op) && AimOk(s) && MirrorOk(s)
    ensures AimOk(EmuStep(s, op))
  {
    if Early(op) { EarlyKeepsAim(s, op); } else { LateKeepsAim(s, op); }
  }

  lemma ArmKeepsAim(s: State, f: nat)
    requires FrontEnabled(s, f, Arm) && TargetsOk(s) && MirrorOk(s) && MutexOk(s)
    ensures AimOk(FrontStep(s, f, Arm))
  {
    assert FrontHoldsMutex(s.fronts[f]);
  }

  lemma FrontKeepsAim(s: State, f: nat, op: FrontOp)
    requires FrontEnabled(s, f, op) && AimOk(s) && TargetsOk(s) && MirrorOk(s) && MutexOk(s)
    ensures AimOk(FrontStep(s, f, op))
  {
    if op.Arm? { ArmKeepsAim(s, f); }
  }

  /** The request a step of the emulation thread moves, and where to. */
  function EmuMove(s: State, op: EmuOp): Option<(nat, Place)>
    requires EmuEnabled(s, op)
  {
    match op
    case OffTake => if IsRequest(s.inbox.signal) then Some((s.log.queuedId, Reporting(Emulation))) else None
    case Consume => if IsRequest(s.inbox.signal) then Some((s.log.queuedId, InHand)) else None
    case CheckOffStatus => if s.req.status.Idle? then None else Some((s.log.pendingId, Reporting(Emulation)))
    case ExchangeCancel =>
      if s.req.cancelRequested && !s.req.status.Idle? then Some((s.log.pendingId, Reporting(Emulation))) else None
    case Switch =>
      if !IsRequest(s.emu.signal) then None
      else Some((s.emu.id, if s.req.status.Idle? then Pending else Reporting(Emulation)))
    case Resolve(ready) =>
      if s.req.status.Idle? then None
      else if ready then Some((s.log.pendingId, Executing))
      else if s.now - s.req.time > DEADLINE then Some((s.log.pendingId, Reporting(Emulation)))
      else None
    case Finish(_) => Some((s.emu.id, Reporting(Emulation)))
    case Notify => Some((s.emu.note.id, Noted(|s.mail.notes|)))
    case _ => None
  }

  /** The step from `s` to `r` changes the log by one move, or not at all. */
  ghost predicate MovesLog(log: History, r: History, move: Option<(nat, Place)>) {
    && r.kinds == log.kinds && r.params == log.params
    && r.runCounts == log.runCounts && r.runSlots == log.runSlots
    && r.places == if move.Some? then Put(log, move.value.0, move.value.1).places else log.places
  }

  lemma EarlyMoves(s: State, op: EmuOp)
    requires EmuEnabled(s, op) && Early(op)
    ensures MovesLog(s.log, EmuStep(s, op).log, EmuMove(s, op))
  {
  }

  lemma LateMoves(s: State, op: EmuOp)
    requires EmuEnabled(s, op) && !Early(op) && !op.MarkExecuting?
    ensures MovesLog(s.log, EmuStep(s, op).log, EmuMove(s, op))
  {
  }

  lemma EmuMoves(s: State, op: EmuOp)
    requires EmuEnabled(s, op) && !op.MarkExecuting?
    ensures MovesLog(s.log, EmuStep(s, op).log, EmuMove(s, op))
  {
    if Early(op) { EarlyMoves(s, op); } else { LateMoves(s, op); }
  }

  lemma EmuMoveAllowed(s: State, op: EmuOp)
    requires EmuEnabled(s, op) && LogOk(s.log) && PlacesOk(s) && EmuMove(s, op).Some?
    ensures var m := EmuMove(s, op).value;
            m.0 < |s.log.places| && HasRun(m.1, s.log.runCounts[m.0])
  {
    var m := EmuMove(s, op).value;
    assert m.0 < |s.log.places|;
    assert HasRun(s.log.places[m.0], s.log.runCounts[m.0]);
  }

  lemma MoveKeepsLog(log: History, r: History, id: nat, place: Place)
    requires LogOk(log) && id < |log.places| && HasRun(place, log.runCounts[id])
    requires r.kinds == log.kinds && r.params == log.params
    requires r.runCounts == log.runCounts && r.runSlots == log.runSlots
    requires r.places == log.places[id := place]
    ensures LogOk(r)
  {
  }

  lemma EmuKeepsLog(s: State, op: EmuOp)
    requires EmuEnabled(s, op) && LogOk(s.log) && PlacesOk(s) && !op.MarkExecuting?
    ensures LogOk(EmuStep(s, op).log)
  {
    EmuMoves(s, op);
    var m := EmuMove(s, op);
    if m.Some? {
      EmuMoveAllowed(s, op);
      MoveKeepsLog(s.log, EmuStep(s, op).log, m.value.0, m.value.1);
    }
  }

  lemma MarkKeepsRuns(s: State)
    requires EmuEnabled(s, MarkExecuting) && RunsOk(s) && PlacesOk(s) && ValuesOk(s)
    ensures RunsOk(EmuStep(s, MarkExecuting))
  {
    assert s.log.places[s.emu.id].Executing?;
  }

  lemma EmuStarts(s: State, op: EmuOp)
    requires EmuEnabled(s, op) && !op.MarkExecuting? && !op.Resolve?
    ensures var r := EmuStep(s, op);
            !r.emu.Running? && (r.emu.Starting? || r.emu.Marking? ==> s.emu.Starting? && r.emu.id == s.emu.id)
  {
  }

  lemma ResolveCounts(s: State, ready: bool)
    requires EmuEnabled(s, Resolve(ready)) && RunsOk(s) && PlacesOk(s)
    ensures var r := EmuStep(s, Resolve(ready));
            && !r.emu.Running? && !r.emu.Marking?
            && (r.emu.Starting? ==> r.emu.id < |s.log.runCounts| && s.log.runCounts[r.emu.id] == 0)
  {
    if !s.req.status.Idle? {
      assert HasRun(s.log.places[s.log.pendingId], s.log.runCounts[s.log.pendingId]);
    }
  }

  lemma EmuKeepsCounts(s: State, op: EmuOp)
    requires EmuEnabled(s, op) && RunsOk(s) && PlacesOk(s) && !op.MarkExecuting?
    ensures var r := EmuStep(s, op);
            && (r.emu.Starting? || r.emu.Marking? ==>
                  r.emu.id < |s.log.runCounts| && s.log.runCounts[r.emu.id] == 0)
            && !r.emu.Running?
  {
    if op.Resolve? { ResolveCounts(s, op.ready); } else { EmuStarts(s, op); }
  }

  lemma EmuKeepsRuns(s: State, op: EmuOp)
    requires EmuEnabled(s, op) && RunsOk(s) && PlacesOk(s) && ValuesOk(s)
    ensures RunsOk(EmuStep(s, op))
  {
    if op.MarkExecuting? {
      MarkKeepsRuns(s);
    } else {
      EmuKeepsLog(s, op);
      EmuMoves(s, op);
      EmuKeepsCounts(s, op);
    }
  }

  lemma IssueKeepsLog(log: History, isLoad: bool, param: nat, place: Place)
    requires LogOk(log) && HasRun(place, 0)
    ensures LogOk(Issue(log, isLoad, param, place))
  {
  }

  lemma ResendKeepsLog(log: History, id: nat, param: nat)
    requires LogOk(log) && id < |log.params| && log.runCounts[id] == 0
    ensures LogOk(log.(params := log.params[id := param]))
  {
  }

  /** What a send does to the history. */
  lemma SendLog(s: State, f: nat, signal: Signal, param: nat)
    requires f < |s.fronts|
    ensures var r := SendStep(s, f, signal, param).log;
            || r == s.log
            || r == Issue(s.log, signal.Load?, param, Reporting(Frontend(f)))
            || r == Issue(s.log, signal.Load?, param, Queued).(queuedId := |s.log.places|)
            || (&& IsRequest(s.inbox.signal) && s.log.queuedId < |s.log.params|
                && r == s.log.(params := s.log.params[s.log.queuedId := param]))
  {
  }

  lemma SendKeepsLog(s: State, f: nat, signal: Signal, param: nat)
    requires LogOk(s.log) && PlacesOk(s) && f < |s.fronts|
    ensures LogOk(SendStep(s, f, signal, param).log)
    ensures s.log.kinds <= SendStep(s, f, signal, param).log.kinds
    ensures s.log.runCounts <= SendStep(s, f, signal, param).log.runCounts
  {
    SendLog(s, f, signal, param);
    IssueKeepsLog(s.log, signal.Load?, param, Reporting(Frontend(f)));
    IssueKeepsLog(s.log, signal.Load?, param, Queued);
    if IsRequest(s.inbox.signal) {
      assert HasRun(s.log.places[s.log.queuedId], s.log.runCounts[s.log.queuedId]);
      ResendKeepsLog(s.log, s.log.queuedId, param);
    }
  }

  lemma FrontLogFrame(s: State, f: nat, op: FrontOp)
    requires FrontEnabled(s, f, op) && !op.Decide? && LogOk(s.log) && PlacesOk(s)
    ensures var r := FrontStep(s, f, op);
            && LogOk(r.log) && r.log.kinds == s.log.kinds && r.log.params == s.log.params
            && r.log.runCounts == s.log.runCounts
  {
    if op.Look? && IsRequest(s.inbox.signal) {
      MoveKeepsLog(s.log, LookStep(s, f).log, s.log.queuedId, Reporting(Frontend(f)));
    } else if op.FrontNotify? {
      var id := s.fronts[f].note.id;
      assert FrontHolds(s.fronts[f]) == Some(id);
      assert s.log.places[id] == Reporting(Frontend(f));
      assert HasRun(s.log.places[id], s.log.runCounts[id]);
      MoveKeepsLog(s.log, FrontStep(s, f, op).log, id, Noted(|s.mail.notes|));
    }
  }

  lemma FrontKeepsRuns(s: State, f: nat, op: FrontOp)
    requires FrontEnabled(s, f, op) && RunsOk(s) && PlacesOk(s)
    ensures RunsOk(FrontStep(s, f, op))
    ensures s.log.kinds <= FrontStep(s, f, op).log.kinds
    ensures s.log.runCounts <= FrontStep(s, f, op).log.runCounts
  {
    assert FrontStep(s, f, op).emu == s.emu;
    if op.Decide? {
      SendKeepsLog(s, f, s.fronts[f].signal, s.fronts[f].param);
    } else {
      FrontLogFrame(s, f, op);
    }
  }

  /** Notes stay right while kinds and run counts of known requests do not change. */
  ghost predicate Grows(log: History, r: History) {
    log.kinds <= r.kinds && log.runCounts <= r.runCounts && |r.kinds| == |r.runCounts|
  }

  lemma FitsGrows(log: History, r: History, note: Note)
    requires Fits(log, note) && Grows(log, r)
    ensures Fits(r, note)
  {
  }

  lemma FitsRun(s: State, note: Note)
    requires EmuEnabled(s, MarkExecuting) && PlacesOk(s) && Fits(s.log, note)
    requires note.id < |s.log.places| && !s.log.places[note.id].Executing?
    ensures Fits(EmuStep(s, MarkExecuting).log, note)
  {
  }

  lemma MarkKeepsNotes(s: State)
    requires EmuEnabled(s, MarkExecuting) && NotesOk(s) && PlacesOk(s)
    ensures NotesOk(EmuStep(s, MarkExecuting))
  {
    var r := EmuStep(s, MarkExecuting);
    forall k | 0 <= k < |s.mail.notes| ensures Fits(r.log, s.mail.notes[k]) {
      FitsRun(s, s.mail.notes[k]);
    }
    forall f | 0 <= f < |s.fronts| && FrontNote(s.fronts[f]).Some?
      ensures Fits(r.log, FrontNote(s.fronts[f]).value)
    {
      assert FrontHolds(s.fronts[f]) == Some(FrontNote(s.fronts[f]).value.id);
      FitsRun(s, FrontNote(s.fronts[f]).value);
    }
  }

  predicate TakesNote(op: EmuOp) {
    op.OffTake? || op.Switch? || op.CheckOffStatus? || op.ExchangeCancel? || op.Resolve? || op.Finish?
  }

  lemma EmuNoteKept(s: State, op: EmuOp)
    requires EmuEnabled(s, op) && !TakesNote(op)
    ensures EmuNote(EmuStep(s, op).emu).Some? ==> EmuNote(EmuStep(s, op).emu) == EmuNote(s.emu)
  {
  }

  lemma TakenFits(s: State)
    requires EmuEnabled(s, OffTake) && RunsOk(s) && PlacesOk(s) && ValuesOk(s)
    ensures var note := EmuNote(EmuStep(s, OffTake).emu); note.Some? ==> Fits(s.log, note.value)
  {
    if IsRequest(s.inbox.signal) {
      assert HasRun(s.log.places[s.log.queuedId], s.log.runCounts[s.log.queuedId]);
    }
  }

  lemma RejectedFits(s: State)
    requires EmuEnabled(s, Switch) && RunsOk(s) && PlacesOk(s) && ValuesOk(s)
    ensures var note := EmuNote(EmuStep(s, Switch).emu); note.Some? ==> Fits(s.log, note.value)
  {
    if IsRequest(s.emu.signal) {
      HeldIsElsewhere(s, s.emu.id);
      assert HasRun(s.log.places[s.emu.id], s.log.runCounts[s.emu.id]);
    }
  }

  lemma DroppedFits(s: State)
    requires RunsOk(s) && PlacesOk(s) && ValuesOk(s) && !s.req.status.Idle?
    ensures Fits(s.log, Note(s.log.pendingId, s.req.status.Loading?, TransientFailure))
  {
    assert HasRun(s.log.places[s.log.pendingId], s.log.runCounts[s.log.pendingId]);
  }

  lemma DropNote(s: State, op: EmuOp)
    requires EmuEnabled(s, op) && (op.CheckOffStatus? || op.ExchangeCancel? || op.Resolve?)
    ensures var note := EmuNote(EmuStep(s, op).emu);
            note.Some? ==> !s.req.status.Idle?
                           && note.value == Note(s.log.pendingId, s.req.status.Loading?, TransientFailure)
  {
  }

  /** A note the emulation thread starts to report fits its request. */
  lemma EmuNoteFits(s: State, op: EmuOp)
    requires EmuEnabled(s, op) && NotesOk(s) && RunsOk(s) && PlacesOk(s) && ValuesOk(s) && !op.MarkExecuting?
    ensures var note := EmuNote(EmuStep(s, op).emu); note.Some? ==> Fits(s.log, note.value)
  {
    if !TakesNote(op) {
      EmuNoteKept(s, op);
    } else if op.OffTake? {
      TakenFits(s);
    } else if op.Switch? {
      RejectedFits(s);
    } else if !op.Finish? {
      DropNote(s, op);
      if !s.req.status.Idle? { DroppedFits(s); }
    }
  }

  lemma EmuNotesGrow(s: State, op: EmuOp)
    requires EmuEnabled(s, op)
    ensures var r := EmuStep(s, op);
            && r.fronts == s.fronts
            && (r.mail.notes == s.mail.notes
                || (EmuNote(s.emu).Some? && r.mail.notes == s.mail.notes + [EmuNote(s.emu).value]))
  {
  }

  lemma EmuKeepsNotes(s: State, op: EmuOp)
    requires EmuEnabled(s, op) && NotesOk(s) && RunsOk(s) && PlacesOk(s) && ValuesOk(s)
    ensures NotesOk(EmuStep(s, op))
  {
    if op.MarkExecuting? {
      MarkKeepsNotes(s);
    } else {
      var r := EmuStep(s, op);
      EmuMoves(s, op);
      EmuNoteFits(s, op);
      EmuNotesGrow(s, op);
      NotesGrow(s, r);
    }
  }

  lemma NotesGrow(s: State, r: State)
    requires NotesOk(s) && Grows(s.log, r.log)
    requires EmuNote(r.emu).Some? ==> Fits(r.log, EmuNote(r.emu).value)
    requires r.fronts == s.fronts
    requires r.mail.notes == s.mail.notes
             || (EmuNote(s.emu).Some? && r.mail.notes == s.mail.notes + [EmuNote(s.emu).value])
    ensures NotesOk(r)
  {
    forall k | 0 <= k < |r.mail.notes| ensures Fits(r.log, r.mail.notes[k]) {
      FitsGrows(s.log, r.log, r.mail.notes[k]);
    }
    forall f | 0 <= f < |s.fronts| && FrontNote(s.fronts[f]).Some?
      ensures Fits(r.log, FrontNote(s.fronts[f]).value)
    {
      FitsGrows(s.log, r.log, FrontNote(s.fronts[f]).value);
    }
  }

  lemma FrontNotesFrame(s: State, f: nat, op: FrontOp)
    requires FrontEnabled(s, f, op)
    ensures var r := FrontStep(s, f, op);
            && r.fronts == s.fronts[f := r.fronts[f]] && r.emu == s.emu
            && (r.mail.notes == s.mail.notes
                || (FrontNote(s.fronts[f]).Some? && r.mail.notes == s.mail.notes + [FrontNote(s.fronts[f]).value]))
  {
  }

  lemma RefusedFits(s: State, f: nat, signal: Signal, param: nat)
    requires f < |s.fronts| && Sized(s.log)
    ensures var r := SendStep(s, f, signal, param);
            FrontNote(r.fronts[f]).Some? ==> Fits(r.log, FrontNote(r.fronts[f]).value)
  {
  }

  lemma CancelledFits(s: State, f: nat)
    requires RunsOk(s) && PlacesOk(s) && ValuesOk(s) && f < |s.fronts|
    ensures var r := LookStep(s, f);
            FrontNote(r.fronts[f]).Some? ==> Fits(r.log, FrontNote(r.fronts[f]).value)
  {
    if IsRequest(s.inbox.signal) {
      assert HasRun(s.log.places[s.log.queuedId], s.log.runCounts[s.log.queuedId]);
    }
  }

  lemma FrontNoteKept(s: State, f: nat, op: FrontOp)
    requires FrontEnabled(s, f, op) && !op.Decide? && !op.Look?
    ensures var r := FrontStep(s, f, op);
            && (FrontNote(r.fronts[f]).Some? ==> FrontNote(r.fronts[f]) == FrontNote(s.fronts[f]))
            && r.log.kinds == s.log.kinds && r.log.runCounts == s.log.runCounts
  {
  }

  lemma FrontNoteFits(s: State, f: nat, op: FrontOp)
    requires FrontEnabled(s, f, op) && NotesOk(s) && RunsOk(s) && PlacesOk(s) && ValuesOk(s)
    ensures var r := FrontStep(s, f, op);
            FrontNote(r.fronts[f]).Some? ==> Fits(r.log, FrontNote(r.fronts[f]).value)
  {
    if op.Decide? {
      RefusedFits(s, f, s.fronts[f].signal, s.fronts[f].param);
    } else if op.Look? {
      CancelledFits(s, f);
    } else {
      FrontNoteKept(s, f, op);
    }
  }

  lemma FrontKeepsNotes(s: State, f: nat, op: FrontOp)
    requires FrontEnabled(s, f, op) && NotesOk(s) && RunsOk(s) && PlacesOk(s) && ValuesOk(s)
    ensures NotesOk(FrontStep(s, f, op))
  {
    var r := FrontStep(s, f, op);
    FrontKeepsRuns(s, f, op);
    FrontNotesFrame(s, f, op);
    FrontNoteFits(s, f, op);
    assert Grows(s.log, r.log);
    forall k | 0 <= k < |r.mail.notes| ensures Fits(r.log, r.mail.notes[k]) {
      FitsGrows(s.log, r.log, r.mail.notes[k]);
    }
    if EmuNote(s.emu).Some? { FitsGrows(s.log, r.log, EmuNote(s.emu).value); }
    forall g | 0 <= g < |r.fronts| && FrontNote(r.fronts[g]).Some?
      ensures Fits(r.log, FrontNote(r.fronts[g]).value)
    {
      if g != f { FitsGrows(s.log, r.log, FrontNote(s.fronts[g]).value); }
    }
  }

  lemma EarlyKeepsSignal(s: State, op: EmuOp)
    requires EmuEnabled(s, op) && Early(op) && SignalOk(s)
    ensures SignalOk(EmuStep(s, op))
  {
  }

  lemma EmuKeepsSignal(s: State, op: EmuOp)
    requires EmuEnabled(s, op) && SignalOk(s)
    ensures SignalOk(EmuStep(s, op))
  {
    if Early(op) { EarlyKeepsSignal(s, op); } else { LateKeepsSignal(s, op); }
  }

  lemma SignalFrame(s: State, r: State)
    requires SignalOk(s) && r.inbox.signal == s.inbox.signal && r.inbox.param == s.inbox.param
    requires r.log.queuedId == s.log.queuedId && r.log.kinds == s.log.kinds && r.log.params == s.log.params
    requires HasSignal(r.emu) ==> HasSignal(s.emu) && r.emu.id == s.emu.id
                                  && r.emu.signal == s.emu.signal && r.emu.param == s.emu.param
    ensures SignalOk(r)
  {
  }

  lemma LateSignalFrame(s: State, op: EmuOp)
    requires EmuEnabled(s, op) && !Early(op)
    ensures var r := EmuStep(s, op);
            && r.inbox.signal == s.inbox.signal && r.inbox.param == s.inbox.param
            && r.log.queuedId == s.log.queuedId && r.log.kinds == s.log.kinds && r.log.params == s.log.params
            && (HasSignal(r.emu) ==> HasSignal(s.emu) && r.emu.id == s.emu.id
                                     && r.emu.signal == s.emu.signal && r.emu.param == s.emu.param)
  {
  }

  lemma LateKeepsSignal(s: State, op: EmuOp)
    requires EmuEnabled(s, op) && !Early(op) && SignalOk(s)
    ensures SignalOk(EmuStep(s, op))
  {
    LateSignalFrame(s, op);
    SignalFrame(s, EmuStep(s, op));
  }

  /** The steps that hand a request from one place to the next. */
  predicate HandsOver(op: EmuOp) { op.Switch? || op.Resolve? || op.ClearForStart? || op.MarkExecuting? }

  lemma EmuSlotFrame(s: State, op: EmuOp)
    requires EmuEnabled(s, op) && !HandsOver(op)
    ensures var r := EmuStep(s, op);
            && (r.req.status == s.req.status || r.req.status.Idle?) && r.req.slot == s.req.slot
            && r.log.pendingId == s.log.pendingId && r.log.kinds == s.log.kinds && r.log.params == s.log.params
            && !r.emu.Starting? && !r.emu.Marking? && !r.emu.Running?
  {
  }

  lemma SwitchKeepsSlot(s: State)
    requires EmuEnabled(s, Switch) && SignalOk(s) && SlotOk(s)
    ensures SlotOk(EmuStep(s, Switch))
  {
  }

  lemma ResolveKeepsSlot(s: State, ready: bool)
    requires EmuEnabled(s, Resolve(ready)) && SlotOk(s)
    ensures SlotOk(EmuStep(s, Resolve(ready)))
  {
  }

  lemma StartKeepsSlot(s: State, op: EmuOp)
    requires EmuEnabled(s, op) && (op.ClearForStart? || op.MarkExecuting?) && SlotOk(s) && MirrorSet(s)
    ensures SlotOk(EmuStep(s, op))
  {
  }

  lemma EmuKeepsSlot(s: State, op: EmuOp)
    requires EmuEnabled(s, op) && SignalOk(s) && SlotOk(s) && MirrorOk(s)
    ensures SlotOk(EmuStep(s, op))
  {
    if !HandsOver(op) {
      EmuSlotFrame(s, op);
    } else if op.Switch? {
      SwitchKeepsSlot(s);
    } else if op.Resolve? {
      ResolveKeepsSlot(s, op.ready);
    } else {
      StartKeepsSlot(s, op);
    }
  }

  /** A send touches the parameter of the queued request only. */
  lemma SendCarries(s: State, f: nat, signal: Signal, param: nat, id: nat, isLoad: bool, slot: nat)
    requires PlacesOk(s) && f < |s.fronts| && Sized(s.log)
    requires Carries(s.log, id, isLoad, slot) && !s.log.places[id].Queued?
    ensures Carries(SendStep(s, f, signal, param).log, id, isLoad, slot)
  {
  }

  lemma SendKeepsSlot(s: State, f: nat, signal: Signal, param: nat)
    requires SlotOk(s) && PlacesOk(s) && Sized(s.log) && MirrorSet(s) && f < |s.fronts|
    ensures SlotOk(SendStep(s, f, signal, param))
  {
    assert SendStep(s, f, signal, param).emu == s.emu && SendStep(s, f, signal, param).req == s.req;
    assert s.log.kinds <= SendStep(s, f, signal, param).log.kinds;
    if !s.req.status.Idle? {
      SendCarries(s, f, signal, param, s.log.pendingId, s.req.status.Loading?, s.req.slot);
    } else if s.emu.Starting? || s.emu.Marking? {
      SendCarries(s, f, signal, param, s.emu.id, s.emu.isLoad, s.req.slot);
    }
  }

  lemma SentIsCarried(s: State, f: nat, signal: Signal, param: nat)
    requires SignalOk(s) && Sized(s.log) && f < |s.fronts|
    ensures var r := SendStep(s, f, signal, param);
            IsRequest(r.inbox.signal) ==> Carries(r.log, r.log.queuedId, r.inbox.signal.Load?, r.inbox.param)
  {
  }

  lemma SendKeepsSignal(s: State, f: nat, signal: Signal, param: nat)
    requires SignalOk(s) && PlacesOk(s) && Sized(s.log) && f < |s.fronts|
    ensures SignalOk(SendStep(s, f, signal, param))
  {
    SentIsCarried(s, f, signal, param);
    if HasSignal(s.emu) {
      HeldIsElsewhere(s, s.emu.id);
      SendCarries(s, f, signal, param, s.emu.id, s.emu.signal.Load?, s.emu.param);
    }
    SendEmuFrame(s, f, signal, param);
  }

  lemma SendEmuFrame(s: State, f: nat, signal: Signal, param: nat)
    requires f < |s.fronts|
    ensures SendStep(s, f, signal, param).emu == s.emu
  {
  }

  lemma FrontKeepsValues(s: State, f: nat, op: FrontOp)
    requires FrontEnabled(s, f, op) && ValuesOk(s) && PlacesOk(s) && MirrorSet(s) && RunsOk(s)
    ensures ValuesOk(FrontStep(s, f, op))
  {
    if op.Decide? {
      SendKeepsSlot(s, f, s.fronts[f].signal, s.fronts[f].param);
      SendKeepsSignal(s, f, s.fronts[f].signal, s.fronts[f].param);
    } else {
      FrontLogFrame(s, f, op);
    }
  }

  // ---------- the accounting equation ----------

  function One(b: bool): nat { if b then 1 else 0 }

  function Holding(fronts: seq<FrontPhase>): nat {
    if fronts == [] then 0
    else Holding(fronts[..|fronts| - 1]) + One(FrontHolds(fronts[|fronts| - 1]).Some?)
  }

  lemma {:induction false} HoldingMove(fronts: seq<FrontPhase>, f: nat, phase: FrontPhase)
    requires f < |fronts|
    ensures Holding(fronts[f := phase]) + One(FrontHolds(fronts[f]).Some?)
            == Holding(fronts) + One(FrontHolds(phase).Some?)
  {
    var n := |fronts| - 1;
    if f < n {
      HoldingMove(fronts[..n], f, phase);
      assert fronts[f := phase][..n] == fronts[..n][f := phase];
    } else {
      assert fronts[f := phase][..n] == fronts[..n];
    }
  }

  lemma {:induction false} HoldingNothing(fronts: seq<FrontPhase>)
    requires forall f :: 0 <= f < |fronts| ==> FrontHolds(fronts[f]).None?
    ensures Holding(fronts) == 0
  {
    if fronts != [] { HoldingNothing(fronts[..|fronts| - 1]); }
  }

  /** Requests issued = outcomes notified + queued + pending + in the hands of a thread. */
  ghost predicate Balanced(s: State) {
    |s.log.places| == |s.mail.notes| + One(IsRequest(s.inbox.signal)) + One(!s.req.status.Idle?)
                      + One(EmuHolds(s.emu).Some?) + Holding(s.fronts)
  }

  lemma EarlyKeepsBalance(s: State, op: EmuOp)
    requires EmuEnabled(s, op) && Early(op) && Balanced(s)
    ensures Balanced(EmuStep(s, op))
  {
  }

  lemma SwitchKeepsBalance(s: State)
    requires EmuEnabled(s, Switch) && Balanced(s)
    ensures Balanced(EmuStep(s, Switch))
  {
  }

  lemma ResolveKeepsBalance(s: State, ready: bool)
    requires EmuEnabled(s, Resolve(ready)) && Balanced(s)
    ensures Balanced(EmuStep(s, Resolve(ready)))
  {
  }

  lemma LateKeepsBalance(s: State, op: EmuOp)
    requires EmuEnabled(s, op) && !Early(op) && !op.Switch? && !op.Resolve? && Balanced(s)
    ensures Balanced(EmuStep(s, op))
  {
  }

  lemma EmuKeepsBalance(s: State, op: EmuOp)
    requires EmuEnabled(s, op) && Balanced(s)
    ensures Balanced(EmuStep(s, op))
  {
    match op {
      case Switch => SwitchKeepsBalance(s);
      case Resolve(ready) => ResolveKeepsBalance(s, ready);
      case _ => if Early(op) { EarlyKeepsBalance(s, op); } else { LateKeepsBalance(s, op); }
    }
  }

  lemma FrontBalance(s: State, f: nat, op: FrontOp)
    requires FrontEnabled(s, f, op)
    ensures var r := FrontStep(s, f, op);
            && r.fronts == s.fronts[f := r.fronts[f]] && r.emu == s.emu && r.req.status == s.req.status
            && |r.log.places| - |s.log.places| == |r.mail.notes| - |s.mail.notes|
                 + One(IsRequest(r.inbox.signal)) - One(IsRequest(s.inbox.signal))
                 + One(FrontHolds(r.fronts[f]).Some?) - One(FrontHolds(s.fronts[f]).Some?)
  {
  }

  lemma FrontKeepsBalance(s: State, f: nat, op: FrontOp)
    requires FrontEnabled(s, f, op) && Balanced(s)
    ensures Balanced(FrontStep(s, f, op))
  {
    FrontBalance(s, f, op);
    HoldingMove(s.fronts, f, FrontStep(s, f, op).fronts[f]);
  }

  // ---------- every run ----------

  ghost predicate Good(s: State) { Inv(s) && Balanced(s) }

  lemma InitialGood(n: nat)
    ensures Good(Initial(n))
  {
    HoldingNothing(Initial(n).fronts);
  }

  lemma EmuKeepsInv(s: State, op: EmuOp)
    requires EmuEnabled(s, op) && Good(s)
    ensures Good(EmuStep(s, op))
  {
    EmuKeepsMutex(s, op);
    EmuKeepsPlaces(s, op);
    EmuKeepsMirrorSet(s, op);
    EmuKeepsMirrorNames(s, op);
    EmuKeepsDelivery(s, op);
    EmuKeepsTargets(s, op);
    EmuKeepsAim(s, op);
    EmuKeepsRuns(s, op);
    EmuKeepsNotes(s, op);
    EmuKeepsSignal(s, op);
    EmuKeepsSlot(s, op);
    EmuKeepsBalance(s, op);
  }

  lemma FrontKeepsInv(s: State, f: nat, op: FrontOp)
    requires FrontEnabled(s, f, op) && Good(s)
    ensures Good(FrontStep(s, f, op))
  {
    FrontKeepsMutex(s, f, op);
    FrontKeepsPlaces(s, f, op);
    FrontKeepsMirror(s, f, op);
    FrontKeepsDelivery(s, f, op);
    FrontKeepsTargets(s, f, op);
    FrontKeepsAim(s, f, op);
    FrontKeepsRuns(s, f, op);
    FrontKeepsNotes(s, f, op);
    FrontKeepsValues(s, f, op);
    FrontKeepsBalance(s, f, op);
  }

  lemma EnvironmentKeepsInv(s: State, a: Action)
    requires Enabled(s, a) && Good(s) && (a.SetPower? || a.Tick?)
    ensures Good(Apply(s, a))
  {
  }

  lemma KeepsInv(s: State, a: Action)
    requires Enabled(s, a) && Good(s)
    ensures Good(Apply(s, a))
  {
    match a {
      case OfEmulation(op) => EmuKeepsInv(s, op);
      case OfFrontend(f, op) => FrontKeepsInv(s, f, op);
      case _ => EnvironmentKeepsInv(s, a);
    }
  }

  lemma {:induction false} RunInv(run: seq<State>, acts: seq<Action>, i: nat)
    requires IsRun(run, acts) && i < |run|
    ensures Good(run[i])
  {
    if i == 0 {
      var n :| run[0] == Initial(n);
      InitialGood(n);
    } else {
      RunInv(run, acts, i - 1);
      KeepsInv(run[i - 1], acts[i - 1]);
    }
  }
}
