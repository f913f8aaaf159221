/**
 What every interleaving of the log flush handshake keeps, and what a flusher whose
 wait predicate came true may rely on.
 */
module LogFlushProof {
  import opened Common
  import opened LogFlush

  // ---------- counting ----------

  function Sentinels(items: seq<Item>): nat {
    if items == [] then 0
    else Sentinels(items[..|items| - 1]) + if items[|items| - 1].Sentinel? then 1 else 0
  }

  function Reported(items: seq<Item>): nat {
    if items == [] then 0
    else Reported(items[..|items| - 1]) +
         if items[|items| - 1].Report? then items[|items| - 1].dropped else 0
  }

  function Tally(fates: seq<Fate>, kind: Fate -> bool): nat {
    if fates == [] then 0
    else Tally(fates[..|fates| - 1], kind) + if kind(fates[|fates| - 1]) then 1 else 0
  }

  predicate IsQueued(f: Fate) { f.QueuedAt? }
  predicate IsAbandoned(f: Fate) { f.Abandoned? }
  predicate IsUndecided(f: Fate) { f.Undecided? }

  /** Lost lines a thread has taken note of but not yet put anywhere. */
  function Carried(phase: Phase): nat {
    match phase
    case Losing => 1
    case Reporting(d) => d
    case Restoring(d) => d
    case _ => 0
  }

  function CarriedBy(threads: seq<Phase>): nat {
    if threads == [] then 0
    else CarriedBy(threads[..|threads| - 1]) + Carried(threads[|threads| - 1])
  }

  // ---------- the invariant ----------

  ghost predicate QueueOk(s: State) {
    && s.popped <= |s.pushed|
    && s.queue == s.pushed[s.popped..]
    && |s.queue| <= s.capacity
    && |s.owners| == |s.pushed|
  }

  /** What a ticket was taken behind never shrinks from one ticket to the next. */
  ghost predicate MarksOk(marks: seq<nat>, n: nat) {
    && (forall k :: 0 <= k < |marks| ==> marks[k] <= n)
    && (forall j, k :: 0 <= j <= k < |marks| ==> marks[j] <= marks[k])
  }

  /** A sentinel in the queue's history stands there for a ticket taken before. */
  ghost predicate OwnersOk(pushed: seq<Item>, owners: seq<nat>, marks: seq<nat>, fates: seq<Fate>)
    requires |owners| == |pushed| && |marks| == |fates|
  {
    forall i :: 0 <= i < |pushed| && pushed[i].Sentinel? ==> Owned(owners[i], i, marks, fates)
  }

  predicate Owned(ticket: nat, i: nat, marks: seq<nat>, fates: seq<Fate>)
    requires |marks| == |fates|
  {
    1 <= ticket <= |fates| && fates[ticket - 1] == QueuedAt(i) && marks[ticket - 1] <= i
  }

  /** A queued ticket has its sentinel there. */
  ghost predicate FatesOk(pushed: seq<Item>, owners: seq<nat>, fates: seq<Fate>)
    requires |owners| == |pushed|
  {
    forall k :: 0 <= k < |fates| && fates[k].QueuedAt? ==>
      fates[k].index < |pushed| && pushed[fates[k].index].Sentinel? && owners[fates[k].index] == k + 1
  }

  ghost predicate Tickets(pushed: seq<Item>, owners: seq<nat>, marks: seq<nat>, fates: seq<Fate>) {
    && |owners| == |pushed|
    && |marks| == |fates|
    && MarksOk(marks, |pushed|)
    && OwnersOk(pushed, owners, marks, fates)
    && FatesOk(pushed, owners, fates)
    && Tally(fates, IsQueued) == Sentinels(pushed)
  }

  ghost predicate TicketsOk(s: State) {
    |s.fates| == s.flushRequested && Tickets(s.pushed, s.owners, s.marks, s.fates)
  }

  predicate Waiting(phase: Phase) {
    phase.Locking? || phase.Holding? || phase.Drowsy? || phase.Asleep? || phase.Released?
  }

  ghost predicate Claims(threads: seq<Phase>, fates: seq<Fate>) {
    && (forall p :: 0 <= p < |threads| && threads[p].Trying? ==>
          1 <= threads[p].ticket <= |fates| && fates[threads[p].ticket - 1].Undecided?)
    && (forall p, q :: 0 <= p < q < |threads| && threads[p].Trying? && threads[q].Trying? ==>
          threads[p].ticket != threads[q].ticket)
    && (forall k :: 0 <= k < |fates| && fates[k].Undecided? ==> Trying(k + 1) in threads)
    && (forall p :: 0 <= p < |threads| && Waiting(threads[p]) ==>
          1 <= threads[p].ticket <= |fates| && fates[threads[p].ticket - 1].QueuedAt?)
  }

  ghost predicate ThreadsOk(s: State) {
    && Claims(s.threads, s.fates)
    && (forall p :: 0 <= p < |s.threads| && s.threads[p].Released? ==>
          s.flushCompleted >= s.threads[p].ticket)
  }

  /** `flush_mutex` excludes, and no sleeper has missed the increment it waits for
      unless the backend thread still owes it a `notify_all`. */
  ghost predicate MutexOk(s: State) {
    && (forall p :: 0 <= p < |s.threads| ==>
          (s.threads[p].Holding? || s.threads[p].Drowsy? <==> s.flushMutex == HeldBy(p)))
    && (s.stage.Counting? || s.stage.Unlocking? <==> s.flushMutex.HeldByBackend?)
    && (forall p :: 0 <= p < |s.threads| && s.threads[p].Drowsy? ==>
          s.flushCompleted < s.threads[p].ticket)
    && (forall p :: 0 <= p < |s.threads| && s.threads[p].Asleep? ==>
          s.flushCompleted < s.threads[p].ticket || s.stage.Unlocking? || s.stage.Notifying?)
  }

  function Render(item: Item): Output {
    if item.Sentinel? then Flushed else Written(item)
  }

  /** How many of the handled items have also been counted in `flush_completed`. */
  function Settled(s: State): int {
    if s.stage.Acquiring? || s.stage.Counting? then |s.outputs| - 1 else |s.outputs|
  }

  /** What was written and flushed is what was queued, in order. */
  ghost predicate HandledOk(s: State) {
    && |s.outputs| <= s.popped <= |s.pushed|
    && forall i :: 0 <= i < |s.outputs| ==> s.outputs[i] == Render(s.pushed[i])
  }

  /** At most one popped entry is in hand, and it is the one popped last. */
  ghost predicate InHandOk(s: State)
    requires HandledOk(s)
  {
    && (s.stage.Checking? || s.stage.Popping? ==> s.entry == None)
    && (s.stage.Dispatching? && s.entry.Some? ==>
          s.popped == |s.outputs| + 1 && s.pushed[s.popped - 1] == s.entry.value)
    && (!(s.stage.Dispatching? && s.entry.Some?) ==> s.popped == |s.outputs|)
    && (s.stage.Acquiring? || s.stage.Counting? ==>
          s.popped > 0 && s.pushed[s.popped - 1].Sentinel?)
  }

  ghost predicate BackendOk(s: State) {
    && HandledOk(s)
    && InHandOk(s)
    && s.flushCompleted == Sentinels(s.pushed[..Settled(s)])
  }

  ghost predicate Losses(losses: nat, dropped: nat, threads: seq<Phase>, pushed: seq<Item>) {
    losses == dropped + CarriedBy(threads) + Reported(pushed)
  }

  ghost predicate LossesOk(s: State) {
    Losses(s.losses, s.droppedEntries, s.threads, s.pushed)
  }

  ghost predicate Inv(s: State) {
    QueueOk(s) && TicketsOk(s) && ThreadsOk(s) && MutexOk(s) && BackendOk(s) && LossesOk(s)
  }

  // ---------- helpers ----------

  lemma {:induction false} TallyDecide(fates: seq<Fate>, k: nat, fate: Fate, kind: Fate -> bool)
    requires k < |fates|
    ensures Tally(fates[k := fate], kind) + (if kind(fates[k]) then 1 else 0)
            == Tally(fates, kind) + (if kind(fate) then 1 else 0)
  {
    var n := |fates| - 1;
    if k < n {
      TallyDecide(fates[..n], k, fate, kind);
      assert fates[k := fate][..n] == fates[..n][k := fate];
    } else {
      assert fates[k := fate][..n] == fates[..n];
    }
  }

  lemma {:induction false} TallySplit(fates: seq<Fate>)
    ensures |fates| == Tally(fates, IsQueued) + Tally(fates, IsAbandoned) + Tally(fates, IsUndecided)
  {
    if fates != [] { TallySplit(fates[..|fates| - 1]); }
  }

  lemma {:induction false} TallyNone(fates: seq<Fate>)
    requires forall k :: 0 <= k < |fates| ==> !fates[k].Undecided?
    ensures Tally(fates, IsUndecided) == 0
  {
    if fates != [] { TallyNone(fates[..|fates| - 1]); }
  }

  lemma {:induction false} CarriedMove(threads: seq<Phase>, p: nat, phase: Phase)
    requires p < |threads|
    ensures CarriedBy(threads[p := phase]) + Carried(threads[p]) == CarriedBy(threads) + Carried(phase)
  {
    var n := |threads| - 1;
    if p < n {
      CarriedMove(threads[..n], p, phase);
      assert threads[p := phase][..n] == threads[..n][p := phase];
    } else {
      assert threads[p := phase][..n] == threads[..n];
    }
  }

  lemma {:induction false} CarriedAwake(threads: seq<Phase>)
    ensures CarriedBy(Awake(threads)) == CarriedBy(threads)
  {
    if threads != [] {
      var n := |threads| - 1;
      CarriedAwake(threads[..n]);
      assert Awake(threads)[..n] == Awake(threads[..n]);
    }
  }

  lemma {:induction false} CarriedNothing(threads: seq<Phase>)
    requires forall p :: 0 <= p < |threads| ==> Carried(threads[p]) == 0
    ensures CarriedBy(threads) == 0
  {
    if threads != [] { CarriedNothing(threads[..|threads| - 1]); }
  }

  // ---------- the invariant is inductive ----------

  lemma NoTickets()
    ensures Tickets([], [], [], [])
  {
  }

  lemma NoClaims(threads: seq<Phase>)
    requires forall p :: 0 <= p < |threads| ==> threads[p].Idle?
    ensures Claims(threads, [])
    ensures Losses(0, 0, threads, [])
  {
    CarriedNothing(threads);
  }

  lemma InitialQueue(capacity: nat, threadCount: nat)
    ensures var s := Initial(capacity, threadCount); QueueOk(s) && MutexOk(s)
  {
  }

  lemma InitialBackend(capacity: nat, threadCount: nat)
    ensures BackendOk(Initial(capacity, threadCount))
  {
  }

  lemma InitialThreads(capacity: nat, threadCount: nat)
    ensures var s := Initial(capacity, threadCount); TicketsOk(s) && ThreadsOk(s) && LossesOk(s)
  {
    NoTickets();
    NoClaims(Initial(capacity, threadCount).threads);
  }

  lemma InitialInv(capacity: nat, threadCount: nat)
    ensures Inv(Initial(capacity, threadCount))
  {
    InitialQueue(capacity, threadCount);
    InitialBackend(capacity, threadCount);
    InitialThreads(capacity, threadCount);
  }

  lemma AcceptGrows(s: State, item: Item, owner: nat)
    ensures var r := Accept(s, item, owner);
            && r.pushed[..|s.pushed|] == s.pushed
            && Sentinels(r.pushed) == Sentinels(s.pushed) + (if item.Sentinel? then 1 else 0)
            && Reported(r.pushed) == Reported(s.pushed) + (if item.Report? then item.dropped else 0)
  {
    assert (s.pushed + [item])[..|s.pushed|] == s.pushed;
  }

  lemma SentinelsGrow(pushed: seq<Item>, item: Item)
    ensures Sentinels(pushed + [item]) == Sentinels(pushed) + if item.Sentinel? then 1 else 0
  {
    assert (pushed + [item])[..|pushed|] == pushed;
  }

  lemma TicketsEntry(pushed: seq<Item>, owners: seq<nat>, marks: seq<nat>, fates: seq<Fate>, item: Item)
    requires Tickets(pushed, owners, marks, fates) && !item.Sentinel?
    ensures Tickets(pushed + [item], owners + [0], marks, fates)
  {
    SentinelsGrow(pushed, item);
  }

  lemma OwnersSentinel(pushed: seq<Item>, owners: seq<nat>, marks: seq<nat>, fates: seq<Fate>, t: nat)
    requires Tickets(pushed, owners, marks, fates) && 1 <= t <= |fates| && fates[t - 1].Undecided?
    ensures OwnersOk(pushed + [Sentinel], owners + [t], marks, fates[t - 1 := QueuedAt(|pushed|)])
  {
    var n := |pushed|;
    forall i | 0 <= i < n && pushed[i].Sentinel? ensures Owned(owners[i], i, marks, fates[t - 1 := QueuedAt(n)]) {
      StillOwned(owners[i], i, marks, fates, t, n);
    }
    assert Owned(t, n, marks, fates[t - 1 := QueuedAt(n)]);
  }

  lemma StillOwned(ticket: nat, i: nat, marks: seq<nat>, fates: seq<Fate>, t: nat, n: nat)
    requires |marks| == |fates| && Owned(ticket, i, marks, fates) && 1 <= t <= |fates| && fates[t - 1].Undecided?
    ensures Owned(ticket, i, marks, fates[t - 1 := QueuedAt(n)])
  {
  }

  lemma FatesSentinel(pushed: seq<Item>, owners: seq<nat>, fates: seq<Fate>, t: nat)
    requires |owners| == |pushed| && FatesOk(pushed, owners, fates)
    requires 1 <= t <= |fates|
    ensures FatesOk(pushed + [Sentinel], owners + [t], fates[t - 1 := QueuedAt(|pushed|)])
  {
  }

  lemma TicketsSentinel(pushed: seq<Item>, owners: seq<nat>, marks: seq<nat>, fates: seq<Fate>, t: nat)
    requires Tickets(pushed, owners, marks, fates) && 1 <= t <= |fates| && fates[t - 1].Undecided?
    ensures Tickets(pushed + [Sentinel], owners + [t], marks, fates[t - 1 := QueuedAt(|pushed|)])
  {
    OwnersSentinel(pushed, owners, marks, fates, t);
    FatesSentinel(pushed, owners, fates, t);
    SentinelsGrow(pushed, Sentinel);
    TallyDecide(fates, t - 1, QueuedAt(|pushed|), IsQueued);
  }

  lemma TicketsTaken(pushed: seq<Item>, owners: seq<nat>, marks: seq<nat>, fates: seq<Fate>)
    requires Tickets(pushed, owners, marks, fates)
    ensures Tickets(pushed, owners, marks + [|pushed|], fates + [Undecided])
  {
    assert (fates + [Undecided])[..|fates|] == fates;
  }

  lemma TicketsAbandoned(pushed: seq<Item>, owners: seq<nat>, marks: seq<nat>, fates: seq<Fate>, t: nat)
    requires Tickets(pushed, owners, marks, fates) && 1 <= t <= |fates| && fates[t - 1].Undecided?
    ensures Tickets(pushed, owners, marks, fates[t - 1 := Abandoned])
  {
    TallyDecide(fates, t - 1, Abandoned, IsQueued);
  }

  /** A thread that neither holds nor gains an undecided ticket moves on. */
  lemma ClaimsMove(threads: seq<Phase>, fates: seq<Fate>, p: nat, phase: Phase)
    requires Claims(threads, fates) && p < |threads|
    requires !threads[p].Trying? && !phase.Trying?
    requires Waiting(phase) ==> Waiting(threads[p]) && phase.ticket == threads[p].ticket
    ensures Claims(threads[p := phase], fates)
  {
    forall k | 0 <= k < |fates| && fates[k].Undecided?
      ensures Trying(k + 1) in threads[p := phase]
    {
      var q :| 0 <= q < |threads| && threads[q] == Trying(k + 1);
      assert threads[p := phase][q] == Trying(k + 1);
    }
  }

  lemma ClaimsTaken(threads: seq<Phase>, fates: seq<Fate>, p: nat)
    requires Claims(threads, fates) && p < |threads| && !threads[p].Trying?
    ensures Claims(threads[p := Trying(|fates| + 1)], fates + [Undecided])
  {
    var ts, fs := threads[p := Trying(|fates| + 1)], fates + [Undecided];
    forall k | 0 <= k < |fs| && fs[k].Undecided?
      ensures Trying(k + 1) in ts
    {
      if k < |fates| {
        var q :| 0 <= q < |threads| && threads[q] == Trying(k + 1);
        assert ts[q] == Trying(k + 1);
      } else {
        assert ts[p] == Trying(k + 1);
      }
    }
  }

  lemma ClaimsDecided(threads: seq<Phase>, fates: seq<Fate>, p: nat, fate: Fate, phase: Phase)
    requires Claims(threads, fates) && p < |threads| && threads[p].Trying?
    requires !fate.Undecided? && !phase.Trying?
    requires Waiting(phase) ==> fate.QueuedAt? && phase.ticket == threads[p].ticket
    ensures Claims(threads[p := phase], Decide(fates, threads[p].ticket, fate))
  {
    var ts, fs := threads[p := phase], Decide(fates, threads[p].ticket, fate);
    forall k | 0 <= k < |fs| && fs[k].Undecided?
      ensures Trying(k + 1) in ts
    {
      var q :| 0 <= q < |threads| && threads[q] == Trying(k + 1);
      assert ts[q] == Trying(k + 1);
    }
  }

  lemma ClaimsAwake(threads: seq<Phase>, fates: seq<Fate>)
    requires Claims(threads, fates)
    ensures Claims(Awake(threads), fates)
  {
    forall k | 0 <= k < |fates| && fates[k].Undecided?
      ensures Trying(k + 1) in Awake(threads)
    {
      var q :| 0 <= q < |threads| && threads[q] == Trying(k + 1);
      assert Awake(threads)[q] == Trying(k + 1);
    }
  }

  // Threads

  lemma ThreadKeepsQueue(s: State, p: nat, op: ThreadOp)
    requires ThreadEnabled(s, p, op) && QueueOk(s)
    ensures QueueOk(ThreadStep(s, p, op))
  {
  }

  predicate TicketOp(op: ThreadOp) { op.TakeTicket? || op.TryPushSentinel? || op.GiveUp? }

  predicate IsEntry(item: Item, s: State, r: State) {
    !item.Sentinel? && r.pushed == s.pushed + [item] && r.owners == s.owners + [0]
  }

  /** What a step that decides no ticket adds to the queue. */
  lemma EntryFrame(s: State, p: nat, op: ThreadOp)
    requires ThreadEnabled(s, p, op) && !TicketOp(op)
    ensures var r := ThreadStep(s, p, op);
            && r.fates == s.fates && r.marks == s.marks && r.flushRequested == s.flushRequested
            && (|| (r.pushed == s.pushed && r.owners == s.owners)
                || exists item :: IsEntry(item, s, r))
  {
    if op.PushLine? && HasRoom(s) {
      assert IsEntry(Line(op.id), s, ThreadStep(s, p, op));
    } else if op.PushReport? && HasRoom(s) {
      assert IsEntry(Report(s.threads[p].dropped), s, ThreadStep(s, p, op));
    }
  }

  lemma EntryKeepsTickets(s: State, p: nat, op: ThreadOp)
    requires ThreadEnabled(s, p, op) && !TicketOp(op) && TicketsOk(s)
    ensures TicketsOk(ThreadStep(s, p, op))
  {
    EntryFrame(s, p, op);
    var r := ThreadStep(s, p, op);
    if r.pushed != s.pushed {
      var item :| IsEntry(item, s, r);
      TicketsEntry(s.pushed, s.owners, s.marks, s.fates, item);
    }
  }

  lemma DecideIs(fates: seq<Fate>, t: nat, fate: Fate)
    requires 1 <= t <= |fates|
    ensures Decide(fates, t, fate) == fates[t - 1 := fate]
  {
  }

  lemma ThreadKeepsTickets(s: State, p: nat, op: ThreadOp)
    requires ThreadEnabled(s, p, op) && TicketsOk(s) && ThreadsOk(s)
    ensures TicketsOk(ThreadStep(s, p, op))
  {
    if !TicketOp(op) {
      EntryKeepsTickets(s, p, op);
    } else if op.TakeTicket? {
      TicketsTaken(s.pushed, s.owners, s.marks, s.fates);
    } else if op.GiveUp? {
      DecideIs(s.fates, s.threads[p].ticket, Abandoned);
      TicketsAbandoned(s.pushed, s.owners, s.marks, s.fates, s.threads[p].ticket);
    } else {
      DecideIs(s.fates, s.threads[p].ticket, QueuedAt(|s.pushed|));
      TicketsSentinel(s.pushed, s.owners, s.marks, s.fates, s.threads[p].ticket);
    }
  }

  lemma ThreadFrame(s: State, p: nat, op: ThreadOp)
    requires ThreadEnabled(s, p, op) && !TicketOp(op)
    ensures var r := ThreadStep(s, p, op);
            && r.fates == s.fates && r.flushCompleted == s.flushCompleted
            && r.threads == s.threads[p := r.threads[p]]
            && !s.threads[p].Trying? && !r.threads[p].Trying?
            && (Waiting(r.threads[p]) ==>
                  Waiting(s.threads[p]) && r.threads[p].ticket == s.threads[p].ticket)
            && (r.threads[p].Released? ==> s.flushCompleted >= s.threads[p].ticket)
  {
  }

  lemma ThreadKeepsThreads(s: State, p: nat, op: ThreadOp)
    requires ThreadEnabled(s, p, op) && ThreadsOk(s) && |s.fates| == s.flushRequested
    ensures ThreadsOk(ThreadStep(s, p, op))
  {
    var r := ThreadStep(s, p, op);
    if op.TakeTicket? {
      ClaimsTaken(s.threads, s.fates, p);
    } else if op.TryPushSentinel? {
      if HasRoom(s) { ClaimsDecided(s.threads, s.fates, p, QueuedAt(|s.pushed|), r.threads[p]); }
    } else if op.GiveUp? {
      ClaimsDecided(s.threads, s.fates, p, Abandoned, Idle);
    } else {
      ThreadFrame(s, p, op);
      ClaimsMove(s.threads, s.fates, p, r.threads[p]);
    }
  }

  lemma ThreadKeepsMutex(s: State, p: nat, op: ThreadOp)
    requires ThreadEnabled(s, p, op) && MutexOk(s)
    ensures MutexOk(ThreadStep(s, p, op))
  {
    var r := ThreadStep(s, p, op);
    if r.threads == s.threads {
      assert r.flushMutex == s.flushMutex || r == s;
    } else {
      MutexMove(s, r, p, r.threads[p]);
    }
  }

  /** A thread moves on; it may take the free mutex, or give back its own. */
  lemma MutexMove(s: State, r: State, p: nat, phase: Phase)
    requires MutexOk(s) && p < |s.threads| && r.threads == s.threads[p := phase]
    requires r.stage == s.stage && r.flushCompleted == s.flushCompleted
    requires r.flushMutex == s.flushMutex
             || ((s.flushMutex == Free || s.flushMutex == HeldBy(p)) && (r.flushMutex == Free || r.flushMutex == HeldBy(p)))
    requires phase.Holding? || phase.Drowsy? <==> r.flushMutex == HeldBy(p)
    requires phase.Drowsy? ==> s.flushCompleted < phase.ticket
    requires phase.Asleep? ==> s.flushCompleted < phase.ticket || s.stage.Unlocking? || s.stage.Notifying?
    ensures MutexOk(r)
  {
  }

  lemma ProducerFrame(s: State, p: nat, op: ThreadOp)
    requires ThreadEnabled(s, p, op)
    ensures var r := ThreadStep(s, p, op);
            && s.pushed <= r.pushed && r.outputs == s.outputs && r.popped == s.popped
            && r.entry == s.entry && r.stage == s.stage && r.flushCompleted == s.flushCompleted
  {
  }

  lemma BackendGrows(s: State, r: State)
    requires BackendOk(s) && s.pushed <= r.pushed && r.outputs == s.outputs && r.popped == s.popped
    requires r.entry == s.entry && r.stage == s.stage && r.flushCompleted == s.flushCompleted
    ensures BackendOk(r)
  {
    assert r.pushed[..Settled(r)] == s.pushed[..Settled(s)];
  }

  lemma ThreadKeepsBackend(s: State, p: nat, op: ThreadOp)
    requires ThreadEnabled(s, p, op) && BackendOk(s)
    ensures BackendOk(ThreadStep(s, p, op))
  {
    ProducerFrame(s, p, op);
    BackendGrows(s, ThreadStep(s, p, op));
  }

  /** What one thread step does to the four places a lost line can be accounted in. */
  lemma LossesMove(s: State, p: nat, op: ThreadOp)
    requires ThreadEnabled(s, p, op)
    ensures var r := ThreadStep(s, p, op);
            && r.threads == s.threads[p := r.threads[p]]
            && r.losses + s.droppedEntries + Carried(s.threads[p]) + Reported(s.pushed)
               == s.losses + r.droppedEntries + Carried(r.threads[p]) + Reported(r.pushed)
  {
    if HasRoom(s) && op.PushLine? {
      AcceptGrows(s, Line(op.id), 0);
    } else if HasRoom(s) && op.PushReport? {
      AcceptGrows(s, Report(s.threads[p].dropped), 0);
    } else if HasRoom(s) && op.TryPushSentinel? {
      AcceptGrows(s.(fates := Decide(s.fates, s.threads[p].ticket, QueuedAt(|s.pushed|))),
                  Sentinel, s.threads[p].ticket);
    } else {
      assert ThreadStep(s, p, op).pushed == s.pushed;
    }
  }

  lemma ThreadKeepsLosses(s: State, p: nat, op: ThreadOp)
    requires ThreadEnabled(s, p, op) && LossesOk(s)
    ensures LossesOk(ThreadStep(s, p, op))
  {
    LossesMove(s, p, op);
    CarriedMove(s.threads, p, ThreadStep(s, p, op).threads[p]);
  }

  // The backend thread

  lemma BackendFrame(s: State, op: BackendOp)
    requires BackendEnabled(s, op)
    ensures var r := BackendStep(s, op);
            && r.fates == s.fates && r.marks == s.marks && r.owners == s.owners && r.pushed == s.pushed
            && r.flushRequested == s.flushRequested
            && r.losses == s.losses && r.droppedEntries == s.droppedEntries
            && r.flushCompleted >= s.flushCompleted
            && r.threads == if op.NotifyAll? then Awake(s.threads) else s.threads
  {
  }

  lemma BackendKeepsThreads(s: State, op: BackendOp)
    requires BackendEnabled(s, op) && ThreadsOk(s)
    ensures ThreadsOk(BackendStep(s, op))
  {
    BackendFrame(s, op);
    ClaimsAwake(s.threads, s.fates);
  }

  lemma BackendKeepsMutex(s: State, op: BackendOp)
    requires BackendEnabled(s, op) && MutexOk(s)
    ensures MutexOk(BackendStep(s, op))
  {
  }

  /** The last sentinel of a prefix counts one. */
  lemma SentinelsUpTo(items: seq<Item>, n: nat)
    requires 0 < n <= |items|
    ensures Sentinels(items[..n]) == Sentinels(items[..n - 1]) + if items[n - 1].Sentinel? then 1 else 0
  {
    assert items[..n][..n - 1] == items[..n - 1];
  }

  lemma DispatchSettles(s: State)
    requires BackendEnabled(s, Dispatch) && BackendOk(s)
    ensures var r := BackendStep(s, Dispatch);
            0 <= Settled(r) <= |s.pushed| && r.flushCompleted == Sentinels(s.pushed[..Settled(r)])
  {
    if s.entry.Some? { SentinelsUpTo(s.pushed, s.popped); }
  }

  lemma IncrementSettles(s: State)
    requires BackendEnabled(s, Increment) && BackendOk(s)
    ensures var r := BackendStep(s, Increment);
            0 <= Settled(r) <= |s.pushed| && r.flushCompleted == Sentinels(s.pushed[..Settled(r)])
  {
    SentinelsUpTo(s.pushed, |s.outputs|);
  }

  /** No other step settles an item. */
  lemma SettledFrame(s: State, op: BackendOp)
    requires BackendEnabled(s, op) && !op.Dispatch? && !op.Increment? && BackendOk(s)
    ensures Settled(BackendStep(s, op)) == Settled(s) && BackendStep(s, op).flushCompleted == s.flushCompleted
  {
  }

  lemma SettledInRange(s: State)
    requires BackendOk(s)
    ensures 0 <= Settled(s) <= |s.pushed|
  {
  }

  lemma BackendSettles(s: State, op: BackendOp)
    requires BackendEnabled(s, op) && BackendOk(s)
    ensures var r := BackendStep(s, op);
            0 <= Settled(r) <= |s.pushed| && r.flushCompleted == Sentinels(s.pushed[..Settled(r)])
  {
    if op.Dispatch? {
      DispatchSettles(s);
    } else if op.Increment? {
      IncrementSettles(s);
    } else {
      SettledFrame(s, op);
      SettledInRange(s);
    }
  }

  lemma BackendHandles(s: State, op: BackendOp)
    requires BackendEnabled(s, op) && HandledOk(s) && InHandOk(s) && QueueOk(s)
    ensures HandledOk(BackendStep(s, op))
  {
  }

  predicate Pops(op: BackendOp) { op.PopEntry? || op.TryPop? }

  lemma PopHolds(s: State, op: BackendOp)
    requires BackendEnabled(s, op) && Pops(op) && HandledOk(s) && InHandOk(s) && QueueOk(s) && HandledOk(BackendStep(s, op))
    ensures InHandOk(BackendStep(s, op))
  {
  }

  lemma OtherHolds(s: State, op: BackendOp)
    requires BackendEnabled(s, op) && !Pops(op) && HandledOk(s) && InHandOk(s) && HandledOk(BackendStep(s, op))
    ensures InHandOk(BackendStep(s, op))
  {
  }

  lemma BackendHolds(s: State, op: BackendOp)
    requires BackendEnabled(s, op) && HandledOk(s) && InHandOk(s) && QueueOk(s) && HandledOk(BackendStep(s, op))
    ensures InHandOk(BackendStep(s, op))
  {
    if Pops(op) { PopHolds(s, op); } else { OtherHolds(s, op); }
  }

  lemma BackendKeepsBackend(s: State, op: BackendOp)
    requires BackendEnabled(s, op) && BackendOk(s) && QueueOk(s)
    ensures BackendOk(BackendStep(s, op))
  {
    BackendHandles(s, op);
    BackendHolds(s, op);
    BackendSettles(s, op);
    BackendFrame(s, op);
  }

  lemma BackendKeepsQueue(s: State, op: BackendOp)
    requires BackendEnabled(s, op) && QueueOk(s)
    ensures QueueOk(BackendStep(s, op))
  {
  }

  lemma BackendKeepsLosses(s: State, op: BackendOp)
    requires BackendEnabled(s, op) && TicketsOk(s) && LossesOk(s)
    ensures var r := BackendStep(s, op); TicketsOk(r) && LossesOk(r)
  {
    BackendFrame(s, op);
    CarriedAwake(s.threads);
  }

  lemma BackendKeepsInv(s: State, op: BackendOp)
    requires BackendEnabled(s, op) && Inv(s)
    ensures Inv(BackendStep(s, op))
  {
    BackendKeepsQueue(s, op);
    BackendKeepsLosses(s, op);
    BackendKeepsThreads(s, op);
    BackendKeepsMutex(s, op);
    BackendKeepsBackend(s, op);
  }

  lemma ThreadKeepsInv(s: State, p: nat, op: ThreadOp)
    requires ThreadEnabled(s, p, op) && Inv(s)
    ensures Inv(ThreadStep(s, p, op))
  {
    ThreadKeepsQueue(s, p, op);
    ThreadKeepsTickets(s, p, op);
    ThreadKeepsThreads(s, p, op);
    ThreadKeepsMutex(s, p, op);
    ThreadKeepsBackend(s, p, op);
    ThreadKeepsLosses(s, p, op);
  }

  lemma KeepsInv(s: State, a: Action)
    requires Enabled(s, a) && Inv(s)
    ensures Inv(Apply(s, a))
  {
    match a {
      case OfThread(p, op) => ThreadKeepsInv(s, p, op);
      case OfBackend(op) => BackendKeepsInv(s, op);
    }
  }

  lemma {:induction false} RunInv(run: seq<State>, acts: seq<Action>, i: nat)
    requires IsRun(run, acts) && i < |run|
    ensures Inv(run[i])
  {
    if i == 0 {
      var c, n :| run[0] == Initial(c, n);
      InitialInv(c, n);
    } else {
      RunInv(run, acts, i - 1);
      KeepsInv(run[i - 1], acts[i - 1]);
    }
  }

  // ---------- what the wait predicate is worth ----------

  /** The tickets behind the sentinels among some accepted items. */
  ghost function OwnersOf(items: seq<Item>, owners: seq<nat>): (tickets: set<nat>)
    requires |items| == |owners|
  {
    set i | 0 <= i < |items| && items[i].Sentinel? :: owners[i]
  }

  lemma {:induction false} OwnersCount(items: seq<Item>, owners: seq<nat>)
    requires |items| == |owners|
    requires forall i, j :: 0 <= i < j < |items| && items[i].Sentinel? && items[j].Sentinel? ==>
                              owners[i] != owners[j]
    ensures |OwnersOf(items, owners)| == Sentinels(items)
  {
    if items != [] {
      var n := |items| - 1;
      var before := OwnersOf(items[..n], owners[..n]);
      OwnersCount(items[..n], owners[..n]);
      if items[n].Sentinel? {
        assert owners[n] !in before;
        assert OwnersOf(items, owners) == before + {owners[n]};
      } else {
        assert OwnersOf(items, owners) == before;
      }
    }
  }

  lemma {:induction false} BelowCount(tickets: set<nat>, t: nat)
    requires t >= 1 && forall x :: x in tickets ==> 1 <= x < t
    ensures |tickets| < t
  {
    if t == 1 {
      assert forall x :: x !in tickets;
    } else if t - 1 in tickets {
      BelowCount(tickets - {t - 1}, t - 1);
      assert tickets == (tickets - {t - 1}) + {t - 1};
    } else {
      BelowCount(tickets, t - 1);
    }
  }

  /** Everything in `items` reached the backends in order, and a flush ran after that. */
  ghost predicate Durable(outputs: seq<Output>, items: seq<Item>) {
    && |items| <= |outputs|
    && (forall k :: 0 <= k < |items| ==> outputs[k] == Render(items[k]))
    && exists e :: |items| <= e < |outputs| && outputs[e] == Flushed
  }

  /** The pigeonhole: `flush_completed >= t` means a sentinel of ticket `t` or later was
      serviced, and the queue is FIFO. */
  lemma LateSentinel(s: State, n: nat, t: nat) returns (i: nat)
    requires TicketsOk(s) && n <= |s.pushed| && 1 <= t <= Sentinels(s.pushed[..n])
    ensures i < n && s.pushed[i].Sentinel? && t <= s.owners[i]
  {
    var items, owners := s.pushed[..n], s.owners[..n];
    forall i, j | 0 <= i < j < n && items[i].Sentinel? && items[j].Sentinel?
      ensures owners[i] != owners[j]
    {
      assert s.fates[s.owners[i] - 1] == QueuedAt(i) && s.fates[s.owners[j] - 1] == QueuedAt(j);
    }
    OwnersCount(items, owners);
    var tickets := OwnersOf(items, owners);
    if forall x :: x in tickets ==> x < t {
      BelowCount(tickets, t);
      assert false;
    }
    var x :| x in tickets && t <= x;
    i :| 0 <= i < n && items[i].Sentinel? && owners[i] == x;
  }

  lemma CompletedIsDurable(s: State, t: nat)
    requires Inv(s) && 1 <= t <= s.flushRequested && s.flushCompleted >= t
    ensures Durable(s.outputs, s.pushed[..s.marks[t - 1]])
  {
    var i := LateSentinel(s, Settled(s), t);
    assert s.marks[t - 1] <= s.marks[s.owners[i] - 1] <= i;
    assert s.outputs[i] == Render(s.pushed[i]);
  }

  ghost predicate Extends(s: State, r: State) {
    s.pushed <= r.pushed && s.marks <= r.marks && s.flushCompleted <= r.flushCompleted
  }

  lemma StepExtends(s: State, a: Action)
    requires Enabled(s, a)
    ensures Extends(s, Apply(s, a))
  {
  }

  lemma {:induction false} RunExtends(run: seq<State>, acts: seq<Action>, j: nat, i: nat)
    requires IsRun(run, acts) && j <= i < |run|
    ensures Extends(run[j], run[i])
  {
    if j < i {
      RunExtends(run, acts, j, i - 1);
      RunStepExtends(run, acts, i - 1);
      ExtendsFurther(run[j], run[i - 1], run[i]);
    }
  }

  lemma RunStepExtends(run: seq<State>, acts: seq<Action>, i: nat)
    requires IsRun(run, acts) && i + 1 < |run|
    ensures Extends(run[i], run[i + 1])
  {
    var s, a := run[i], acts[i];
    assert Enabled(s, a) && run[i + 1] == Apply(s, a);
    StepExtends(s, a);
  }

  lemma ExtendsFurther(a: State, b: State, c: State)
    requires Extends(a, b) && Extends(b, c)
    ensures Extends(a, c)
  {
  }

  /** Whatever the interleaving: once `flush_completed` reaches the ticket a flusher took in
      step `j`, everything any thread had pushed before that step is written and flushed. */
  lemma FlushIsDurable(run: seq<State>, acts: seq<Action>, j: nat, i: nat, p: nat)
    requires IsRun(run, acts) && j < i < |run| && acts[j] == OfThread(p, TakeTicket)
    requires run[i].flushCompleted >= run[j].flushRequested + 1
    ensures Durable(run[i].outputs, run[j].pushed)
  {
    RunInv(run, acts, j);
    RunInv(run, acts, i);
    RunExtends(run, acts, j + 1, i);
    StepExtends(run[j], acts[j]);
    var t := run[j].flushRequested + 1;
    assert run[j + 1] == Apply(run[j], acts[j]);
    assert run[j + 1].marks[t - 1] == |run[j].pushed|;
    assert run[i].marks[t - 1] == |run[j].pushed|;
    CompletedIsDurable(run[i], t);
    assert run[i].pushed[..|run[j].pushed|] == run[j].pushed;
  }

  /** A flusher that leaves `wait_until` with the predicate true has the guarantee. */
  lemma ReleasedIsDurable(run: seq<State>, acts: seq<Action>, j: nat, i: nat, p: nat, q: nat)
    requires IsRun(run, acts) && j < i < |run| && acts[j] == OfThread(p, TakeTicket)
    requires q < |run[i].threads| && run[i].threads[q] == Released(run[j].flushRequested + 1)
    ensures Durable(run[i].outputs, run[j].pushed)
  {
    RunInv(run, acts, i);
    FlushIsDurable(run, acts, j, i, p);
  }

  /** No wakeup is lost: a sleeper whose predicate has become true sleeps only while the
      backend thread is between its increment and the `notify_all` that will wake it. */
  lemma NoLostWakeup(run: seq<State>, acts: seq<Action>, i: nat, p: nat)
    requires IsRun(run, acts) && i < |run|
    requires p < |run[i].threads| && run[i].threads[p].Asleep?
    requires run[i].flushCompleted >= run[i].threads[p].ticket
    ensures run[i].stage.Unlocking? || run[i].stage.Notifying?
  {
    RunInv(run, acts, i);
  }

  /** The backends see exactly what the queue accepted: in order, nothing twice, nothing
      skipped, through the live loop, stop wakes and the drain. */
  lemma OutputsFollowQueue(run: seq<State>, acts: seq<Action>, i: nat)
    requires IsRun(run, acts) && i < |run|
    ensures |run[i].outputs| <= |run[i].pushed|
    ensures forall k :: 0 <= k < |run[i].outputs| ==> run[i].outputs[k] == Render(run[i].pushed[k])
    ensures run[i].stage.Checking? || run[i].stage.Stopped? ==>
              run[i].queue == run[i].pushed[|run[i].outputs|..]
  {
    RunInv(run, acts, i);
  }

  predicate Quiet(s: State) {
    && s.queue == []
    && (s.stage.Checking? || s.stage.Popping? || s.stage.Draining? || s.stage.Stopped?)
    && forall p :: 0 <= p < |s.threads| ==> !s.threads[p].Trying?
  }

  /** In a drained queue the completed flushes are the tickets minus the failed pushes. */
  lemma DrainedAccounting(run: seq<State>, acts: seq<Action>, i: nat)
    requires IsRun(run, acts) && i < |run| && Quiet(run[i])
    ensures run[i].flushRequested == run[i].flushCompleted + Tally(run[i].fates, IsAbandoned)
  {
    RunInv(run, acts, i);
    var s := run[i];
    TallySplit(s.fates);
    forall k | 0 <= k < |s.fates| ensures !s.fates[k].Undecided? {
      assert Trying(k + 1) !in s.threads;
    }
    TallyNone(s.fates);
    assert s.popped == |s.pushed|;
    assert s.pushed[..|s.pushed|] == s.pushed;
  }

  /** Every line that did not fit is counted once: in `dropped_entries`, in a report the
      queue accepted, or in the hands of a thread that is about to put it in one of them. */
  lemma LossAccounting(run: seq<State>, acts: seq<Action>, i: nat)
    requires IsRun(run, acts) && i < |run|
    ensures run[i].losses == run[i].droppedEntries + CarriedBy(run[i].threads) + Reported(run[i].pushed)
    ensures (forall p :: 0 <= p < |run[i].threads| ==> run[i].threads[p].Idle?) ==>
              run[i].losses == run[i].droppedEntries + Reported(run[i].pushed)
  {
    RunInv(run, acts, i);
    if forall p :: 0 <= p < |run[i].threads| ==> run[i].threads[p].Idle? {
      CarriedNothing(run[i].threads);
    }
  }
}
