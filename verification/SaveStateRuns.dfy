/**
 The save-state protocol over whole runs: accounting, what a cancel sees, whom the cancel
 latch hits, and what the outcomes say.
 */
module SaveStateRuns {
  import opened Common
  import opened SaveState
  import opened SaveStateProof

  // ---------- accounting ----------

  predicate SendsRequest(s: State, a: Action) {
    && a.OfFrontend? && a.frontOp.Decide? && a.thread < |s.fronts|
    && s.fronts[a.thread].Sending? && IsRequest(s.fronts[a.thread].signal)
  }

  /** `current_signal` goes from None to Save or Load. */
  predicate StartsEpisode(s: State, a: Action) { SendsRequest(s, a) && s.inbox.signal.NoSignal? }

  predicate IsRefused(s: State, a: Action) {
    SendsRequest(s, a) && !s.inbox.signal.NoSignal? && s.inbox.signal != s.fronts[a.thread].signal
  }

  /** A call of `NotifySaveStateResult`. */
  predicate Notifies(s: State, a: Action) {
    (a.OfEmulation? && a.emuOp.Notify?) || (a.OfFrontend? && a.frontOp.FrontNotify?)
  }

  function Occurrences(run: seq<State>, acts: seq<Action>, p: (State, Action) -> bool, i: nat): nat
    requires i <= |acts| < |run|
  {
    if i == 0 then 0
    else Occurrences(run, acts, p, i - 1) + if p(run[i - 1], acts[i - 1]) then 1 else 0
  }

  lemma EmuStepCounts(s: State, op: EmuOp)
    requires EmuEnabled(s, op)
    ensures |EmuStep(s, op).log.places| == |s.log.places|
    ensures |EmuStep(s, op).mail.notes| == |s.mail.notes| + One(op.Notify?)
  {
  }

  lemma StepCounts(s: State, a: Action)
    requires Enabled(s, a)
    ensures |Apply(s, a).log.places| == |s.log.places| + One(StartsEpisode(s, a)) + One(IsRefused(s, a))
    ensures |Apply(s, a).mail.notes| == |s.mail.notes| + One(Notifies(s, a))
  {
    if a.OfEmulation? { EmuStepCounts(s, a.emuOp); }
  }

  lemma {:induction false} RunCounts(run: seq<State>, acts: seq<Action>, i: nat)
    requires IsRun(run, acts) && i < |run|
    ensures |run[i].log.places| == Occurrences(run, acts, StartsEpisode, i) + Occurrences(run, acts, IsRefused, i)
    ensures |run[i].mail.notes| == Occurrences(run, acts, Notifies, i)
  {
    if i > 0 {
      RunCounts(run, acts, i - 1);
      StepCounts(run[i - 1], acts[i - 1]);
    }
  }

  /** Episodes and refused sends are either notified, queued, pending, or in the hands of
      one thread, in every state of every run. */
  lemma EpisodesAreAccountedFor(run: seq<State>, acts: seq<Action>, i: nat)
    requires IsRun(run, acts) && i < |run|
    ensures Occurrences(run, acts, StartsEpisode, i) + Occurrences(run, acts, IsRefused, i)
            == Occurrences(run, acts, Notifies, i)
               + One(IsRequest(run[i].inbox.signal)) + One(!run[i].req.status.Idle?)
               + One(EmuHolds(run[i].emu).Some?) + Holding(run[i].fronts)
  {
    RunInv(run, acts, i);
    RunCounts(run, acts, i);
  }

  predicate IsExecuting(emu: EmuPhase) { emu.Starting? || emu.Marking? || emu.Running? }

  predicate Started(place: Place) { place.Pending? || place.Executing? }

  /** No request is resolved twice, and at most one is pending or executing. */
  lemma ResolvedAtMostOnce(run: seq<State>, acts: seq<Action>, i: nat)
    requires IsRun(run, acts) && i < |run|
    ensures forall j, k :: 0 <= j < k < |run[i].mail.notes| ==> run[i].mail.notes[j].id != run[i].mail.notes[k].id
    ensures run[i].req.status.Idle? || !IsExecuting(run[i].emu)
    ensures forall p, q | 0 <= p < |run[i].log.places| && 0 <= q < |run[i].log.places| ::
              Started(run[i].log.places[p]) && Started(run[i].log.places[q]) ==> p == q
  {
    RunInv(run, acts, i);
    var s := run[i];
    forall j, k | 0 <= j < k < |s.mail.notes| ensures s.mail.notes[j].id != s.mail.notes[k].id {
      assert s.log.places[s.mail.notes[j].id] == Noted(j);
      assert s.log.places[s.mail.notes[k].id] == Noted(k);
    }
    forall p | 0 <= p < |s.log.places| && Started(s.log.places[p])
      ensures if s.req.status.Idle? then EmuHolds(s.emu) == Some((p, Executing)) else p == s.log.pendingId
    {
      if s.log.places[p].Executing? { assert OfEmu(s.log.places[p]); }
    }
  }

  predicate NothingInFlight(s: State) {
    && !IsRequest(s.inbox.signal) && s.req.status.Idle? && EmuHolds(s.emu).None?
    && forall f :: 0 <= f < |s.fronts| ==> FrontHolds(s.fronts[f]).None?
  }

  /** Once nothing is in flight, every request has been resolved, exactly once. */
  lemma ResolvedExactlyOnce(run: seq<State>, acts: seq<Action>, i: nat, id: nat)
    requires IsRun(run, acts) && i < |run| && NothingInFlight(run[i])
    requires id < Occurrences(run, acts, StartsEpisode, i) + Occurrences(run, acts, IsRefused, i)
    ensures exists k :: 0 <= k < |run[i].mail.notes| && run[i].mail.notes[k].id == id
              && forall j :: 0 <= j < |run[i].mail.notes| && run[i].mail.notes[j].id == id ==> j == k
  {
    RunInv(run, acts, i);
    RunCounts(run, acts, i);
    ResolvedAtMostOnce(run, acts, i);
    var place := run[i].log.places[id];
    assert place.Noted? by {
      assert !place.Queued? && !place.Pending?;
      assert !OfEmu(place);
      assert !OfFront(place);
    }
    assert run[i].mail.notes[place.index].id == id;
  }

  // ---------- what a cancel and the diagnostics see ----------

  predicate Unresolved(place: Place) { place.Queued? || place.InHand? || place.Pending? }

  /** A cancel finds nothing exactly when no accepted request waits and no mirror is about
      to be cleared. Otherwise it takes the queued request, or aims at the consumed one. */
  lemma CancelSeesWhatWaits(run: seq<State>, acts: seq<Action>, i: nat, f: nat)
    requires IsRun(run, acts) && i < |run| && FrontEnabled(run[i], f, Look)
    ensures var s, r := run[i], FrontStep(run[i], f, Look);
            && (r.fronts[f] == CancelReleasing(None) <==>
                  && (forall id :: 0 <= id < |s.log.places| ==> !Unresolved(s.log.places[id]))
                  && !s.emu.Starting? && !s.emu.ClearingMirror?)
            && (forall id :: 0 <= id < |s.log.places| && s.log.places[id].Queued? ==>
                  r.fronts[f].CancelReleasing? && r.fronts[f].taken.Some? && r.fronts[f].taken.value.id == id)
            && (r.fronts[f].CancelArming? ==>
                  forall id :: 0 <= id < |s.log.places| && s.log.places[id].Pending? ==> r.fronts[f].target == id)
  {
    RunInv(run, acts, i);
    var s := run[i];
    assert FrontHoldsMutex(s.fronts[f]);
    assert !EmuHoldsMutex(s.emu);
    if IsRequest(s.inbox.signal) {
      assert s.log.places[s.log.queuedId].Queued?;
    } else if s.req.pending {
      if !s.req.status.Idle? {
        assert s.log.places[s.log.pendingId].Pending?;
      } else if ConsumedIdle(s) {
        assert s.log.places[s.emu.id].InHand?;
      }
    } else {
      forall id | 0 <= id < |s.log.places| ensures !Unresolved(s.log.places[id]) {
        if s.log.places[id].InHand? { assert OfEmu(s.log.places[id]); }
      }
    }
  }

  /** No frontend-visible variable tells that a request is in flight. */
  predicate Invisible(s: State) { !IsRequest(s.inbox.signal) && !s.req.pending && !s.req.executing }

  /** An unresolved request hides from the signal, the mirror and the executing flag in two
      windows only: between clearing the mirror and raising the flag, and between clearing
      the signal and setting the mirror (where `signal_mutex` is held). */
  lemma WhenARequestIsInvisible(run: seq<State>, acts: seq<Action>, i: nat)
    requires IsRun(run, acts) && i < |run|
    ensures var s := run[i];
            && (exists id :: 0 <= id < |s.log.places| && (Unresolved(s.log.places[id]) || s.log.places[id].Executing?))
            && Invisible(s)
            <==> !IsRequest(s.inbox.signal) && (s.emu.Marking? || (s.emu.Publishing? && !s.req.pending))
  {
    RunInv(run, acts, i);
    var s := run[i];
    if s.emu.Marking? {
      assert s.log.places[s.emu.id].Executing?;
    } else if s.emu.Publishing? {
      assert s.log.places[s.emu.id].InHand?;
    } else if Invisible(s) {
      assert s.req.status.Idle?;
      forall id | 0 <= id < |s.log.places|
        ensures !Unresolved(s.log.places[id]) && !s.log.places[id].Executing?
      {
        assert !s.log.places[id].Queued? && !s.log.places[id].Pending?;
        if OfEmu(s.log.places[id]) { assert EmuHolds(s.emu).Some? && EmuHolds(s.emu).value.0 == id; }
      }
    }
  }

  // ---------- whom the latch hits ----------

  /** The latch drops a pending request in the next step. */
  predicate Drops(s: State) { s.emu.CancelTest? && s.req.cancelRequested && !s.req.status.Idle? }

  /** A latch that was not armed late drops the request the cancel saw. */
  lemma LatchHitsItsTarget(run: seq<State>, acts: seq<Action>, i: nat)
    requires IsRun(run, acts) && i < |run| && Drops(run[i]) && !run[i].log.latchLate
    ensures run[i].log.pendingId == run[i].log.latchId
  {
    RunInv(run, acts, i);
  }

  predicate Arms(a: Action) { a.OfFrontend? && a.frontOp.Arm? }

  /** `run` is what the schedule `acts` does from `s`, to `t`, and no step of it arms the latch. */
  ghost predicate Unarmed(s: State, run: seq<State>, acts: seq<Action>, t: State) {
    && |run| == |acts| + 1 && run[0] == s && run[|acts|] == t
    && forall i :: 0 <= i < |acts| ==> !Arms(acts[i]) && Enabled(run[i], acts[i]) && run[i + 1] == Apply(run[i], acts[i])
  }

  /** Some schedule without an arming store takes `s` to `t`. */
  ghost predicate Leads(s: State, t: State) { exists run, acts :: Unarmed(s, run, acts, t) }

  lemma LeadsNowhere(s: State)
    ensures Leads(s, s)
  {
    assert Unarmed(s, [s], [], s);
  }

  lemma LeadsOn(s: State, t: State, a: Action)
    requires Leads(s, t) && Enabled(t, a) && !Arms(a)
    ensures Leads(s, Apply(t, a))
  {
    var run, acts :| Unarmed(s, run, acts, t);
    assert Unarmed(s, run + [Apply(t, a)], acts + [a], Apply(t, a));
  }

  lemma LeadsEmu(s: State, t: State, op: EmuOp)
    requires Leads(s, t) && EmuEnabled(t, op)
    ensures Leads(s, EmuStep(t, op))
  {
    LeadsOn(s, t, OfEmulation(op));
  }

  lemma LeadsFront(s: State, t: State, f: nat, op: FrontOp)
    requires Leads(s, t) && FrontEnabled(t, f, op) && !op.Arm?
    ensures Leads(s, FrontStep(t, f, op))
  {
    LeadsOn(s, t, OfFrontend(f, op));
  }

  /** After `f` arms the latch in `s`, a schedule without another arming store leads to the
      latch dropping a request that did not exist in `s`. */
  ghost predicate HitsLaterRequest(s: State, f: nat) {
    && FrontEnabled(s, f, Arm)
    && exists t :: Leads(FrontStep(s, f, Arm), t) && Drops(t) && t.log.pendingId >= |s.log.places|
  }

  predicate SameLatch(s: State, t: State) {
    s.log.latchId == t.log.latchId && s.log.latchLate == t.log.latchLate
  }

  lemma EmuKeepsLatch(s: State, op: EmuOp)
    requires EmuEnabled(s, op)
    ensures SameLatch(s, EmuStep(s, op))
  {
  }

  lemma FrontKeepsLatch(s: State, f: nat, op: FrontOp)
    requires FrontEnabled(s, f, op) && !op.Arm?
    ensures SameLatch(s, FrontStep(s, f, op))
  {
  }

  lemma KeepsLatch(s: State, a: Action)
    requires Enabled(s, a) && !Arms(a)
    ensures SameLatch(s, Apply(s, a))
  {
    match a {
      case OfEmulation(op) => EmuKeepsLatch(s, op);
      case OfFrontend(f, op) => FrontKeepsLatch(s, f, op);
      case _ =>
    }
  }

  lemma {:induction false} UnarmedKeeps(s: State, run: seq<State>, acts: seq<Action>, t: State, i: nat)
    requires Good(s) && Unarmed(s, run, acts, t) && i <= |acts|
    ensures Good(run[i]) && SameLatch(s, run[i])
  {
    if i > 0 {
      UnarmedKeeps(s, run, acts, t, i - 1);
      KeepsInv(run[i - 1], acts[i - 1]);
      KeepsLatch(run[i - 1], acts[i - 1]);
    }
  }

  function Resent(s: State, f: nat): State
    requires f < |s.fronts|
  {
    s.(inbox := Inbox(Load, 0, Free), fronts := s.fronts[f := Elsewhere],
       log := Issue(s.log, true, 0, Queued).(queuedId := |s.log.places|))
  }

  /** An idle `f` sends a load, which is accepted. */
  lemma SendLeads(o: State, s: State, f: nat)
    requires Leads(o, s) && f < |s.fronts| && s.fronts[f].Elsewhere?
    requires s.inbox.signal.NoSignal? && s.inbox.mutex.Free?
    ensures Leads(o, Resent(s, f))
  {
    LeadsFront(o, s, f, CallSend(Load, 0));
    var s2 := s.(fronts := s.fronts[f := SendLocking(Load, 0)]);
    LeadsFront(o, s2, f, SendLock);
    var s3 := s.(fronts := s.fronts[f := Sending(Load, 0)], inbox := s.inbox.(mutex := HeldBy(f)));
    assert FrontStep(s2, f, SendLock) == s3;
    LeadsFront(o, s3, f, Decide);
    var s4 := FrontStep(s3, f, Decide);
    LeadsFront(o, s4, f, SendRelease);
    assert FrontStep(s4, f, SendRelease) == Resent(s, f);
  }

  function Consumed(s: State): State {
    s.(inbox := s.inbox.(signal := NoSignal),
       req := s.req.(status := Loading, slot := s.inbox.param, time := s.now, pending := true),
       log := Put(Put(s.log, s.log.queuedId, InHand).(mirrorId := s.log.queuedId),
                  s.log.queuedId, Pending).(pendingId := s.log.queuedId),
       emu := Resolving)
  }

  lemma ConsumeLeads(o: State, s: State)
    requires Leads(o, s)
    requires s.emu.ConsumeLocking? && s.inbox.mutex.Free? && s.inbox.signal.Load? && s.req.status.Idle?
    ensures Leads(o, Consumed(s))
  {
    LeadsEmu(o, s, ConsumeLock);
    var s1 := EmuStep(s, ConsumeLock);
    LeadsEmu(o, s1, Consume);
    var s2 := EmuStep(s1, Consume);
    LeadsEmu(o, s2, Publish);
    var s3 := EmuStep(s2, Publish);
    LeadsEmu(o, s3, ConsumeRelease);
    var s4 := EmuStep(s3, ConsumeRelease);
    LeadsEmu(o, s4, Switch);
    assert EmuStep(s4, Switch) == Consumed(s);
  }

  /** `RunLoop` comes back to its latch test. */
  lemma ReenterLeads(o: State, s: State)
    requires Leads(o, s) && s.emu.Outside?
    ensures Leads(o, s.(emu := CancelTest, poweredOn := true))
  {
    LeadsOn(o, s, SetPower(true));
    var s1 := s.(poweredOn := true);
    LeadsEmu(o, s1, Enter);
    LeadsEmu(o, s1.(emu := Gated), GatePass);
    assert EmuStep(s1.(emu := Gated), GatePass) == s.(emu := CancelTest, poweredOn := true);
  }

  lemma LateArmMisfires(s: State, f: nat)
    requires Good(s) && FrontEnabled(s, f, Arm) && ArmsLate(s)
    ensures HitsLaterRequest(s, f)
  {
    var a := FrontStep(s, f, Arm);
    LeadsNowhere(a);
    LeadsFront(a, a, f, CancelRelease);
    var b := FrontStep(a, f, CancelRelease);
    SendLeads(a, b, f);
    ConsumeLeads(a, Resent(b, f));
    var c := Consumed(Resent(b, f));
    LeadsEmu(a, c, Resolve(false));
    var d := c.(emu := Outside);
    assert EmuStep(c, Resolve(false)) == d;
    ReenterLeads(a, d);
    assert Drops(d.(emu := CancelTest, poweredOn := true));
  }

  lemma TimelyArmNeverMisfires(s: State, f: nat)
    requires Good(s) && FrontEnabled(s, f, Arm) && !ArmsLate(s)
    ensures !HitsLaterRequest(s, f)
  {
    var a := FrontStep(s, f, Arm);
    FrontKeepsInv(s, f, Arm);
    assert a.log.latchId < |s.log.places| && !a.log.latchLate;
    forall t | Leads(a, t) && Drops(t) ensures t.log.pendingId < |s.log.places| {
      var run, acts :| Unarmed(a, run, acts, t);
      UnarmedKeeps(a, run, acts, t, |acts|);
    }
  }

  /** A cancel latch can resolve a request issued after it was armed exactly when the
      arming store found the mirror cleared and `RunLoop` past its latch test, waiting for
      `signal_mutex` with no signal queued. */
  lemma LatchMisfiresIff(s: State, f: nat)
    requires Good(s) && FrontEnabled(s, f, Arm)
    ensures HitsLaterRequest(s, f) <==> ArmsLate(s)
  {
    if ArmsLate(s) { LateArmMisfires(s, f); } else { TimelyArmNeverMisfires(s, f); }
  }

  lemma LookLeads(o: State, s: State)
    requires Leads(o, s)
    requires s.fronts == [Elsewhere] && s.inbox.mutex.Free? && s.inbox.signal.NoSignal? && s.req.pending
    ensures Leads(o, s.(inbox := s.inbox.(mutex := HeldBy(0)), fronts := [CancelArming(s.log.mirrorId)]))
  {
    LeadsFront(o, s, 0, CallCancel);
    var s1 := s.(fronts := [CancelLocking]);
    assert FrontStep(s, 0, CallCancel) == s1;
    LeadsFront(o, s1, 0, CancelLock);
    var s2 := s.(inbox := s.inbox.(mutex := HeldBy(0)), fronts := [CancelLooking]);
    assert FrontStep(s1, 0, CancelLock) == s2;
    LeadsFront(o, s2, 0, Look);
    assert FrontStep(s2, 0, Look)
           == s.(inbox := s.inbox.(mutex := HeldBy(0)), fronts := [CancelArming(s.log.mirrorId)]);
  }

  /** A whole load runs without `signal_mutex`. */
  lemma LoadLeads(o: State, s: State) returns (t: State)
    requires Leads(o, s) && s.emu.Resolving? && s.req.status.Loading? && !s.mail.callback
    ensures Leads(o, t) && t.inbox == s.inbox && t.fronts == s.fronts && t.emu.Outside?
    ensures !t.req.pending && t.req.cancelRequested == s.req.cancelRequested
  {
    LeadsEmu(o, s, Resolve(true));
    var s1 := EmuStep(s, Resolve(true));
    LeadsEmu(o, s1, ClearForStart);
    var s2 := EmuStep(s1, ClearForStart);
    LeadsEmu(o, s2, MarkExecuting);
    var s3 := EmuStep(s2, MarkExecuting);
    t := RunLeads(o, s3);
  }

  lemma RunLeads(o: State, s: State) returns (t: State)
    requires Leads(o, s) && s.emu.Running? && !s.mail.callback
    ensures Leads(o, t) && t.inbox == s.inbox && t.fronts == s.fronts && t.emu.Outside?
    ensures t.req.pending == s.req.pending && t.req.cancelRequested == s.req.cancelRequested
  {
    LeadsEmu(o, s, Finish(true));
    var s1 := EmuStep(s, Finish(true));
    LeadsEmu(o, s1, Notify);
    var s2 := EmuStep(s1, Notify);
    LeadsEmu(o, s2, Unmark);
    t := EmuStep(s2, Unmark);
  }

  /** A load is sent and consumed, and a cancel that saw it waits before its arming store. */
  lemma AimedLeads(o: State) returns (t: State)
    requires o == Initial(1)
    ensures Leads(o, t) && t.inbox.signal.NoSignal? && t.fronts == [CancelArming(t.log.mirrorId)]
    ensures t.emu.Resolving? && t.req.status.Loading? && !t.mail.callback && !t.req.cancelRequested
  {
    LeadsNowhere(o);
    ReenterLeads(o, o);
    var s1 := o.(emu := CancelTest, poweredOn := true);
    LeadsEmu(o, s1, ExchangeCancel);
    var s2 := s1.(emu := ConsumeLocking);
    assert EmuStep(s1, ExchangeCancel) == s2;
    SendLeads(o, s2, 0);
    ConsumeLeads(o, Resent(s2, 0));
    var s3 := Consumed(Resent(s2, 0));
    assert s3.fronts == [Elsewhere];
    LookLeads(o, s3);
    t := s3.(inbox := s3.inbox.(mutex := HeldBy(0)), fronts := [CancelArming(s3.log.mirrorId)]);
  }

  /** Late arming stores happen: a load that was seen pending completes, and `RunLoop` comes
      round again, between the look and the store. */
  lemma LateArmIsReachable()
    ensures exists run, acts :: IsRun(run, acts) && FrontEnabled(run[|acts|], 0, Arm) && ArmsLate(run[|acts|])
  {
    var o := Initial(1);
    var s := AimedLeads(o);
    var t := LoadLeads(o, s);
    ReenterLeads(o, t);
    var u := t.(emu := CancelTest, poweredOn := true);
    LeadsEmu(o, u, ExchangeCancel);
    var v := EmuStep(u, ExchangeCancel);
    assert FrontEnabled(v, 0, Arm) && ArmsLate(v);
    var run, acts :| Unarmed(o, run, acts, v);
    assert IsRun(run, acts);
  }

  // ---------- the outcomes ----------

  /** An outcome tells the kind of its request; it is a transient failure exactly when the
      request never ran; a request that ran did so once, with its last sent parameter. */
  lemma OutcomesTellTheTruth(run: seq<State>, acts: seq<Action>, i: nat, k: nat)
    requires IsRun(run, acts) && i < |run| && k < |run[i].mail.notes|
    ensures var note, log := run[i].mail.notes[k], run[i].log;
            && note.id < |log.kinds| == |log.runCounts| == |log.params| == |log.runSlots|
            && note.isLoad == log.kinds[note.id]
            && (note.outcome.TransientFailure? <==> log.runCounts[note.id] == 0)
            && (!note.outcome.TransientFailure? ==>
                  log.runCounts[note.id] == 1 && log.runSlots[note.id] == log.params[note.id])
  {
    RunInv(run, acts, i);
    var s := run[i];
    assert Fits(s.log, s.mail.notes[k]);
    assert HasRun(s.log.places[s.mail.notes[k].id], s.log.runCounts[s.mail.notes[k].id]);
  }

  /** Every outcome was handed to a callback, is latched, or was superseded; what is latched
      is the newest outcome, and only while no callback is installed. */
  lemma NewestOutcomeIsKept(run: seq<State>, acts: seq<Action>, i: nat)
    requires IsRun(run, acts) && i < |run|
    ensures var mail := run[i].mail;
            && Occurrences(run, acts, Notifies, i)
               == mail.handedOver + One(mail.undelivered.Some?) + mail.lost
            && (mail.undelivered.Some? ==>
                  !mail.callback && |mail.notes| > 0 && mail.undelivered.value == mail.notes[|mail.notes| - 1])
  {
    RunInv(run, acts, i);
    RunCounts(run, acts, i);
  }

  // ---------- callbacks under `signal_mutex` ----------

  predicate InReport(phase: FrontPhase) { phase.FrontNotifying? || phase.FrontCalling? }

  /** Thread `f` is inside the `NotifySaveStateResult` that step `j` led it into. */
  ghost predicate ReportsSince(run: seq<State>, j: nat, i: nat, f: nat) {
    && j < i < |run| && (forall k :: j <= k <= i ==> f < |run[k].fronts|)
    && !InReport(run[j].fronts[f]) && forall k :: j < k <= i ==> InReport(run[k].fronts[f])
  }

  lemma EmuFrontsStay(s: State, op: EmuOp)
    requires EmuEnabled(s, op)
    ensures EmuStep(s, op).fronts == s.fronts
  {
  }

  lemma OtherFrontsStay(s: State, f: nat, op: FrontOp)
    requires FrontEnabled(s, f, op)
    ensures FrontStep(s, f, op).fronts == s.fronts[f := FrontStep(s, f, op).fronts[f]]
  {
  }

  /** A step changes at most the phase of the thread that does it. */
  lemma FrontsStay(s: State, a: Action)
    requires Enabled(s, a)
    ensures var r := Apply(s, a);
            r.fronts == if a.OfFrontend? then s.fronts[a.thread := r.fronts[a.thread]] else s.fronts
  {
    match a {
      case OfEmulation(op) => EmuFrontsStay(s, op);
      case OfFrontend(f, op) => OtherFrontsStay(s, f, op);
      case _ =>
    }
  }

  lemma FrontReports(s: State, f: nat, op: FrontOp)
    requires FrontEnabled(s, f, op) && InReport(FrontStep(s, f, op).fronts[f])
    ensures if InReport(s.fronts[f]) then FrontStep(s, f, op).fronts[f].held == s.fronts[f].held
            else (op == Decide || op == CancelRelease)
                 && (FrontStep(s, f, op).fronts[f].held <==> IsRefused(s, OfFrontend(f, op)))
  {
  }

  /** A thread comes into it by a refused send, under the mutex, or by a cancel, after the mutex. */
  lemma EntersReport(s: State, a: Action, f: nat)
    requires Enabled(s, a) && f < |s.fronts| && f < |Apply(s, a).fronts|
    requires !InReport(s.fronts[f]) && InReport(Apply(s, a).fronts[f])
    ensures a == OfFrontend(f, Decide) || a == OfFrontend(f, CancelRelease)
    ensures Apply(s, a).fronts[f].held <==> IsRefused(s, a)
  {
    FrontsStay(s, a);
    FrontReports(s, f, a.frontOp);
  }

  lemma StaysInReport(s: State, a: Action, f: nat)
    requires Enabled(s, a) && f < |s.fronts| && f < |Apply(s, a).fronts|
    requires InReport(s.fronts[f]) && InReport(Apply(s, a).fronts[f])
    ensures Apply(s, a).fronts[f].held == s.fronts[f].held
  {
    FrontsStay(s, a);
    if a.OfFrontend? && a.thread == f { FrontReports(s, f, a.frontOp); }
  }

  lemma {:induction false} ReportStart(run: seq<State>, acts: seq<Action>, i: nat, f: nat) returns (j: nat)
    requires IsRun(run, acts) && i < |run| && f < |run[i].fronts| && InReport(run[i].fronts[f])
    ensures ReportsSince(run, j, i, f)
  {
    FrontsStay(run[i - 1], acts[i - 1]);
    if InReport(run[i - 1].fronts[f]) {
      j := ReportStart(run, acts, i - 1, f);
    } else {
      j := i - 1;
    }
  }

  lemma {:induction false} HeldSince(run: seq<State>, acts: seq<Action>, j: nat, i: nat, f: nat)
    requires IsRun(run, acts) && ReportsSince(run, j, i, f)
    ensures acts[j] == OfFrontend(f, Decide) || acts[j] == OfFrontend(f, CancelRelease)
    ensures run[i].fronts[f].held <==> IsRefused(run[j], acts[j])
    decreases i
  {
    if i == j + 1 {
      EntersReport(run[j], acts[j], f);
    } else {
      HeldSince(run, acts, j, i - 1, f);
      assert run[i] == Apply(run[i - 1], acts[i - 1]);
      assert f < |run[i - 1].fronts| && InReport(run[i - 1].fronts[f]);
      assert f < |run[i].fronts| && InReport(run[i].fronts[f]);
      StaysInReport(run[i - 1], acts[i - 1], f);
    }
  }

  /** The callback runs under `signal_mutex` exactly when the step that led to it was a refused
      send; and then no thread can enter `SendSignal` or a cancel, nor `RunLoop` its signal block. */
  lemma RefusalBlocksSignals(run: seq<State>, acts: seq<Action>, i: nat, f: nat, g: nat)
    requires IsRun(run, acts) && i < |run| && f < |run[i].fronts| && run[i].fronts[f].FrontCalling?
    ensures exists j: nat :: ReportsSince(run, j, i, f)
    ensures forall j: nat :: ReportsSince(run, j, i, f) ==>
              && (acts[j] == OfFrontend(f, Decide) || acts[j] == OfFrontend(f, CancelRelease))
              && (run[i].inbox.mutex == HeldBy(f) <==> IsRefused(run[j], acts[j]))
    ensures run[i].inbox.mutex == HeldBy(f) ==>
              && !FrontEnabled(run[i], g, SendLock) && !FrontEnabled(run[i], g, CancelLock)
              && !EmuEnabled(run[i], ConsumeLock) && !EmuEnabled(run[i], OffLock)
  {
    RunInv(run, acts, i);
    assert FrontHoldsMutex(run[i].fronts[f]) <==> run[i].fronts[f].held;
    var start := ReportStart(run, acts, i, f);
    forall j: nat | ReportsSince(run, j, i, f)
      ensures acts[j] == OfFrontend(f, Decide) || acts[j] == OfFrontend(f, CancelRelease)
      ensures run[i].inbox.mutex == HeldBy(f) <==> IsRefused(run[j], acts[j])
    {
      HeldSince(run, acts, j, i, f);
    }
  }

  // ---------- these things happen ----------

  /** Some run comes to a state with the property. */
  ghost predicate Reachable(p: State -> bool) {
    exists run, acts :: IsRun(run, acts) && p(run[|acts|])
  }

  lemma LeadsIsReachable(s: State, p: State -> bool)
    requires Leads(Initial(1), s) && p(s)
    ensures Reachable(p)
  {
    var run, acts :| Unarmed(Initial(1), run, acts, s);
    assert IsRun(run, acts) && p(run[|acts|]);
  }

  predicate CallsUnderMutex(s: State) {
    |s.fronts| > 0 && s.fronts[0].FrontCalling? && s.inbox.mutex == HeldBy(0)
  }

  /** The second send of a thread is refused, and its callback runs under the mutex. */
  lemma RefusalLeads(o: State, s: State) returns (t: State)
    requires Leads(o, s) && s.fronts == [Elsewhere] && s.inbox.signal.Load? && s.inbox.mutex.Free? && s.mail.callback
    ensures Leads(o, t) && CallsUnderMutex(t)
  {
    LeadsFront(o, s, 0, CallSend(Save, 0));
    var s1 := s.(fronts := [SendLocking(Save, 0)]);
    assert FrontStep(s, 0, CallSend(Save, 0)) == s1;
    LeadsFront(o, s1, 0, SendLock);
    var s2 := s.(fronts := [Sending(Save, 0)], inbox := s.inbox.(mutex := HeldBy(0)));
    assert FrontStep(s1, 0, SendLock) == s2;
    LeadsFront(o, s2, 0, Decide);
    var s3 := FrontStep(s2, 0, Decide);
    LeadsFront(o, s3, 0, FrontNotify);
    t := FrontStep(s3, 0, FrontNotify);
  }

  lemma CallbackUnderMutexHappens()
    ensures Reachable(CallsUnderMutex)
  {
    var o := Initial(1);
    LeadsNowhere(o);
    LeadsFront(o, o, 0, SetCallback(true));
    var s := o.(mail := o.mail.(callback := true));
    assert FrontStep(o, 0, SetCallback(true)) == s;
    SendLeads(o, s, 0);
    var t := RefusalLeads(o, Resent(s, 0));
    LeadsIsReachable(t, CallsUnderMutex);
  }

  /** The two windows in which a request is invisible. */
  predicate HiddenAtConsume(s: State) { s.emu.Publishing? && !IsRequest(s.inbox.signal) && !s.req.pending }

  predicate HiddenAtStart(s: State) { s.emu.Marking? && !IsRequest(s.inbox.signal) }

  /** A first load waits, and `RunLoop` is about to take it. */
  lemma QueuedLeads() returns (s: State)
    ensures Leads(Initial(1), s) && s.emu.ConsumeLocking? && s.inbox.mutex.Free? && s.inbox.signal.Load?
    ensures s.req.status.Idle? && !s.req.pending
  {
    var o := Initial(1);
    LeadsNowhere(o);
    ReenterLeads(o, o);
    var s1 := o.(emu := CancelTest, poweredOn := true);
    LeadsEmu(o, s1, ExchangeCancel);
    var s2 := s1.(emu := ConsumeLocking);
    assert EmuStep(s1, ExchangeCancel) == s2;
    SendLeads(o, s2, 0);
    s := Resent(s2, 0);
  }

  lemma HiddenAtConsumeHappens()
    ensures Reachable(HiddenAtConsume)
  {
    var o := Initial(1);
    var s := QueuedLeads();
    LeadsEmu(o, s, ConsumeLock);
    var s1 := EmuStep(s, ConsumeLock);
    LeadsEmu(o, s1, Consume);
    LeadsIsReachable(EmuStep(s1, Consume), HiddenAtConsume);
  }

  lemma HiddenAtStartHappens()
    ensures Reachable(HiddenAtStart)
  {
    var o := Initial(1);
    var s := QueuedLeads();
    ConsumeLeads(o, s);
    var s1 := Consumed(s);
    LeadsEmu(o, s1, Resolve(true));
    var s2 := EmuStep(s1, Resolve(true));
    LeadsEmu(o, s2, ClearForStart);
    LeadsIsReachable(EmuStep(s2, ClearForStart), HiddenAtStart);
  }
}
