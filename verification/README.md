# Verified models of the emulator core

Dafny models of the parts of the core where threads, clocks, address spaces, streams and peers have to
agree with each other, and proofs of what they keep over every run. `dafny verify dfyconfig.toml` checks
everything.

| component | modules |
|---|---|
| log flush handshake | `LogFlush` (atomic steps), `LogFlushProof` |
| save-state requests | `SaveState` (atomic steps), `SaveStateProof` (invariant), `SaveStateRuns` (whole runs) |
| event scheduling | `Timing` (a timer as a value), `TimingProof`, `EventHeap`, `HeapTimers` (the class over a heap) |
| core slicing | `CoreSlicing` |
| guest memory | `MemoryMap`, `MemorySystems`, `PhysRegions` |
| audio | `DspPipe`, `Interpolate`, `Source`, `Codec` |
| text | `Strings`, `ParamPackages` |
| input movies | `Movies` |
| shared types | `Common` |
| room protocol | `Packets`, `RoomMessages`, `RoomProtocol`, `RoomMembers` |

**Threads.** The two concurrent protocols are transition systems. Each shared access (an atomic
operation, a queue operation, taking or releasing a mutex) is one step, the steps of all threads
interleave freely, and memory is sequentially consistent. A run is any sequence of enabled steps from an
initial state. Time is a number that does not go down. Fields called history variables are written but
never read by the steps; they only serve to state properties.

**Objects.** What the source updates in place is a class here, or, for the algorithms, a method with a
loop. Each method's contract ties the new state to the old one, mostly through a function or predicate
about which the lemmas then speak. Ghost parameters such as `seen` in `WritePipe` or `stream` in
`StepOverSamples` name what the other side knows or what came before.

**Parameters.** What the source takes from outside is a parameter: random MAC addresses and movie ids,
the host address of a peer, what the verification backend says of a token, the order in which a map is
walked, what a callback schedules, what a core executes, what decoding a buffer gives.

## Where the code and its comments disagree

The models follow the code.

- `SendSignal` reports a refused request while it holds `signal_mutex` (Core/core/core.cpp:515-528),
  although Core/core/core.cpp:436-437 and 487-488 want callbacks free to call back in.
  `SaveStateRuns.RefusalBlocksSignals` shows that this happens for refused sends only, and what is then
  blocked; `SaveStateRuns.CallbackUnderMutexHappens` gives a run to it.
- A cancel may arm its latch after `RunLoop` has finished the request it saw, and the latch then drops a
  request sent later, which Core/core/core.cpp:141-146 and 476-484 rule out.
  `SaveStateRuns.LatchMisfiresIff` gives the exact condition, and `SaveStateRuns.LateArmIsReachable` a run
  to it.
- Between clearing the mirror and raising the executing flag (Core/core/core.cpp:236-242) a request shows
  in none of the variables a frontend can see; `SaveStateRuns.WhenARequestIsInvisible` gives the exact
  windows, `SaveStateRuns.HiddenAtStartHappens` and `HiddenAtConsumeHappens` runs to them.
- Marking a page of the plugin framebuffer leaves the linear-heap tables of the same memory alone
  (Core/core/memory.cpp:748-755). `MemorySystems.CoherentIff` says exactly when a page is coherent on the
  fast path, `MemorySystems.WindowCoherentIff` what that means for window pages: those onto the plugin
  framebuffer from the linear heaps are coherent exactly while the page of the plugin window is unmarked.
- `Read` and `ReadBlock` differ where no page is mapped between 0x90100000 and 0xAFFFFFFF
  (Core/core/memory.cpp:488-501): `MemorySystems.LoadIsBlockReadIff` says exactly when they agree, and
  `MemorySystems.HighStoreIsLostIff` does so for stores.
- An access that begins on a page with a pointer and crosses its end runs on in host memory
  (Core/core/memory.cpp:478-486), where a guest would expect the next page of its address space.
  `MemorySystems.CrossingLoadIff` and `CrossingStoreIff` say exactly when that is the same.
- A failed movie load keeps the loaded position (Core/core/movie.cpp:154-174):
  `Movies.FailedLoadShiftsRecording`, `Movies.LoadKeepsValid`.
- A pipe buffer of 0x8000 bytes counts as empty when it is full, and only then is it miscounted:
  `DspPipe.LargestBufferCountsIff`. The other pipe theorems are for smaller buffers.
- `DecodeADPCM` carries the state behind the samples asked for exactly for even counts
  (`Codec.CarriesExactlyIff`): for an odd one it decodes one more.
- A peer that sends a second join request becomes a second member (`RoomProtocol.JoinTwice`), and its
  disconnection takes out only the first (Core/network/room.cpp:302, 983-1001), so that none is left
  exactly when it had one at most: `RoomProtocol.StaleMemberStays` and the contract of
  `HandleClientDisconnection`. `RoomProtocol.StaleMemberExample` is a room in which it comes to that.
- `ReplaceAll` with an empty source and a replacement does not end: `Strings.EmptySourceNeverEnds`.
- `GenerateFrame` does not end when the buffers queued before a looping buffer that was played and has no
  samples, together with what is playing, do not fill the frame. Its contract says so of the state before
  the call, in both directions (`Source.RunsDry`), whenever the queue has one first buffer at a time, as
  with distinct ids (`Source.DistinctIsDetermined`). With such a buffer at the top to begin with, the
  condition is that what is playing does not reach the last output (`Source.StuckRunsDryIff`). For any
  queue, `Source.NoProgressIff` shows that no other pass is without progress, and
  `Source.Source.SpinOn` that from there no pass ever changes anything.
- `Advance` does not end when callbacks reschedule their events with a fixed delay that is not positive:
  `TimingProof.FixedDelayEndsIff`.

## Model

| member | source | states |
|---|---|---|
| LogFlushProof.KeepsInv | Core/common/logging/backend.cpp:374-584 | every step of a producer, a flusher, the live loop, the drain or a stop keeps the handshake's invariant |
| LogFlushProof.RunInv | Core/common/logging/backend.cpp:374-584 | the invariant holds in every state of every interleaving |
| LogFlushProof.LateSentinel | Core/common/logging/backend.cpp:370-373 | the pigeonhole: `n` completed flushes mean that some sentinel among the handled items carries ticket `n` or a later one |
| LogFlushProof.CompletedIsDurable | Core/common/logging/backend.cpp:370-373 | `flush_completed >= ticket` implies that all items queued before the ticket was taken are written in order and a flush came after them |
| LogFlushProof.FlushIsDurable | Core/common/logging/backend.cpp:374-395 | the same between two points of any run: once the counter reaches the ticket taken in step j, everything pushed by any thread before j is durable |
| LogFlushProof.ReleasedIsDurable | Core/common/logging/backend.cpp:391-394 | a flusher that leaves the wait with its predicate true has that guarantee |
| LogFlushProof.NoLostWakeup | Core/common/logging/backend.cpp:543-554 | a waiter sleeps with a true predicate only while the backend thread still owes it the `notify_all` |
| LogFlushProof.OutputsFollowQueue | Core/common/logging/backend.cpp:555-582 | backends see exactly the accepted items, in order, none twice or skipped, through stop wakes and the drain |
| LogFlushProof.DrainedAccounting | Core/common/logging/backend.cpp:374-395 | in a drained queue tickets = completed flushes + failed pushes |
| LogFlushProof.LossAccounting | Core/common/logging/backend.cpp:411-429 | every dropped line is in `dropped_entries`, in an accepted report, or in the hands of a thread about to put it there |
| SaveStateProof.KeepsInv | Core/core/core.cpp:85-310 | every step of `RunLoop`, a send, a cancel, a callback change, a restamp or a power change keeps the protocol's invariant and its accounting equation |
| SaveStateProof.RunInv | Core/core/core.cpp:85-310 | the invariant holds in every state of every interleaving |
| SaveStateProof.SwitchKeepsPlaces | Core/core/core.cpp:175-212 | a consumed request becomes the pending one or is reported refused, and every request still has exactly one place |
| SaveStateProof.ResolveKeepsPlaces | Core/core/core.cpp:232-310 | executing or timing out moves the pending request and no other |
| SaveStateProof.SendKeepsPlaces | Core/core/core.cpp:515-533 | a send queues a new request, coalesces with an equal one, or is refused and reported; nothing else moves |
| SaveStateProof.NotifyKeepsPlaces | Core/core/core.cpp:406-441 | a notification resolves the request it is about |
| SaveStateRuns.RunCounts | Core/core/core.cpp:406-441 | requests are episodes plus refused sends, outcomes are calls of `NotifySaveStateResult`, at every point of a run |
| SaveStateRuns.EpisodesAreAccountedFor | Core/core/core.cpp:85-310 | episodes + refused sends = outcomes notified + queued + pending + in the hands of a thread, in every state of every run |
| SaveStateRuns.ResolvedAtMostOnce | Core/core/core.cpp:85-310 | no request has two outcomes; at most one is pending or executing |
| SaveStateRuns.ResolvedExactlyOnce | Core/core/core.cpp:85-310 | with nothing in flight every request has exactly one outcome |
| SaveStateRuns.CancelSeesWhatWaits | Core/core/core.cpp:466-486 | a cancel finds nothing iff no accepted request waits and no mirror is about to be cleared; otherwise it takes the queued request or aims at the pending one |
| SaveStateRuns.WhenARequestIsInvisible | Core/core/core.cpp:159-242 | the exact two windows in which an unresolved request is in neither signal, mirror nor executing flag |
| SaveStateRuns.HiddenAtConsumeHappens | Core/core/core.cpp:159-174 | some run comes to the window between clearing the signal and setting the mirror |
| SaveStateRuns.HiddenAtStartHappens | Core/core/core.cpp:235-242 | some run comes to the window between clearing the mirror and raising the flag |
| SaveStateRuns.LatchHitsItsTarget | Core/core/core.cpp:141-157 | a latch not armed late drops the very request the cancel saw |
| SaveStateRuns.LateArmMisfires | Core/core/core.cpp:475-480 | a late arming store leads, on some schedule, to dropping a request that did not exist yet |
| SaveStateRuns.TimelyArmNeverMisfires | Core/core/core.cpp:475-480 | any other arming store does so on no schedule |
| SaveStateRuns.LatchMisfiresIff | Core/core/core.cpp:466-486 | a latch can resolve a later request iff it was armed with the mirror cleared, `RunLoop` past its latch test and waiting for the mutex, and no signal queued |
| SaveStateRuns.LateArmIsReachable | Core/core/core.cpp:466-486 | such an arming store happens in some run |
| SaveStateRuns.OutcomesTellTheTruth | Core/core/core.cpp:232-310 | an outcome names its request's kind, is transient iff the request never ran, and a request that ran did so once with the last parameter sent |
| SaveStateRuns.NewestOutcomeIsKept | Core/core/core.cpp:406-464 | each outcome was handed to a callback, is latched, or was superseded; the latched one is the newest and no callback is installed |
| SaveStateRuns.RefusalBlocksSignals | Core/core/core.cpp:515-529 | the callback runs under `signal_mutex` iff the step that led to it was a refused send, and then no other thread gets in |
| SaveStateRuns.EntersReport | Core/core/core.cpp:487-529 | a thread comes to notify by a refused send, under the mutex, or by a cancel, after it |
| SaveStateRuns.CallbackUnderMutexHappens | Core/core/core.cpp:515-529 | some run comes to a callback under the mutex |
| TimingProof.KeepsInv | Core/core/core_timing.cpp:64-138 | scheduling with non-negative delay, removing, each step of `Advance`, slicing, idling and executing keep the timer's invariant |
| TimingProof.RunInv | Core/core/core_timing.cpp:64-262 | the invariant holds over every run: in particular no event of the queue lies inside the running slice |
| TimingProof.LateByOverrunAtMost | Core/core/core_timing.cpp:222-257 | an event fires late by at most the overrun of the core, exactly on time without one; one that came through the inbox in that `Advance` by at most what was executed in the slice just ended, and a thread-safe one by two maximal slices less |
| TimingProof.RunInbox | Core/core/core_timing.cpp:79-84 | over every run, nothing in the inbox is in the past, and what is thread-safe is two maximal slices ahead of the clock |
| TimingProof.FiresInOrder | Core/core/core_timing.cpp:15-22 | the events a timer fires are strictly increasing in (time, fifo order) over a whole run |
| TimingProof.NoEventIsLost | Core/core/core_timing.cpp:79-138 | scheduled = fired + waiting in either queue + removed, for any delays |
| TimingProof.ScheduleFitsSliceIff | Core/core/core_timing.cpp:88-97 | a new event is outside the shortened slice iff its delay is non-negative or already overrun |
| TimingProof.ClockMovesIff | Core/core/core_timing.cpp:181-203 | which steps leave `GetTicks` alone, and exactly when the others do |
| TimingProof.DueGoesDown | Core/core/core_timing.cpp:233-242 | a firing whose callback reschedules with positive delay lowers the number of due events by one |
| TimingProof.NoDelayNeverEnds | Core/core/core_timing.cpp:233-242 | rescheduling without delay or into the past leaves a due event after any number of firings, whatever else is queued |
| TimingProof.FixedDelayEndsIff | Core/core/core_timing.cpp:233-242 | with callbacks that reschedule their events with a fixed delay the loop ends iff the delay is positive, or nothing was due; for any queue |
| EventHeap.PushOk | Core/core/core_timing.cpp:95-97 | pushing keeps the heap and adds exactly the event |
| EventHeap.PopOk | Core/core/core_timing.cpp:234-236 | popping keeps the heap and removes exactly the front |
| EventHeap.MakeHeapOk | Core/core/core_timing.cpp:115-118 | rebuilding gives a heap of the same events |
| EventHeap.FrontIsLeast | Core/core/core_timing.cpp:233 | the front of a heap is the least event |
| HeapTimers.FrontsAgree | Core/core/core_timing.cpp:213-220 | heap and sorted queue with the same events have the same first event |
| HeapTimers.PopsAgree | Core/core/core_timing.cpp:233-236 | and still the same events after taking it out |
| HeapTimers.RemovalsAgree | Core/core/core_timing.cpp:105-138 | and after removing all events of a type, with or without user data |
| HeapTimers.AdvanceFiresExactlyTheDue | Core/core/core_timing.cpp:222-245 | with callbacks that only schedule ahead, and nothing else asked of them, `Advance` fires exactly the events that were due when it began, in order |
| HeapTimers.AdvanceLeavesNoneDue | Core/core/core_timing.cpp:222-245 | the loop ends with nothing due and the clock where it was, for callbacks that schedule with or without delay, post and unschedule, as long as each firing sets off less than it costs |
| HeapTimers.FiringCosts | Core/core/core_timing.cpp:233-242 | one firing and all its callback does lower the cost of what is due |
| HeapTimers.HeapTimer.constructor | Core/core/core_timing.cpp:175 | a new timer refines the fresh abstract timer |
| HeapTimers.HeapTimer.GetTicks | Core/core/core_timing.cpp:181-187 | the abstract clock |
| HeapTimers.HeapTimer.AddTicks | Core/core/core_timing.cpp:189-191 | lowers the downcount by the scaled ticks, nothing else |
| HeapTimers.HeapTimer.ForceExceptionCheck | Core/core/core_timing.cpp:197-203 | cuts the slice without moving the clock |
| HeapTimers.HeapTimer.PushEvent | Core/core/core_timing.cpp:95-97 | refines insertion into a sorted queue with a fresh fifo number |
| HeapTimers.HeapTimer.MoveEvents | Core/core/core_timing.cpp:205-211 | empties the inbox into the queue in arrival order |
| HeapTimers.HeapTimer.ScheduleEvent | Core/core/core_timing.cpp:64-103 | refines all four cases: locked, thread-safe, own timer, other timer |
| HeapTimers.HeapTimer.RemoveEvents | Core/core/core_timing.cpp:105-138 | removes the events hit from the queue, not from the inbox |
| HeapTimers.HeapTimer.GetMaxSliceLength | Core/core/core_timing.cpp:213-220 | ticks to the first event, the maximum without one, or the failed assertion |
| HeapTimers.HeapTimer.PopFront | Core/core/core_timing.cpp:234-236 | takes out the least event |
| HeapTimers.HeapTimer.Advance | Core/core/core_timing.cpp:222-245 | the whole of `Advance` refines the abstract one, for any callbacks that settle |
| HeapTimers.HeapTimer.FireDueEvents | Core/core/core_timing.cpp:233-242 | its loop |
| HeapTimers.HeapTimer.FireOne | Core/core/core_timing.cpp:234-241 | one event is taken out and its callback done, on heap and sorted queue alike |
| HeapTimers.HeapTimer.CallBack | Core/core/core_timing.cpp:64-138 | what a callback schedules and removes, on heap and sorted queue alike |
| HeapTimers.HeapTimer.SetNextSlice | Core/core/core_timing.cpp:247-257 | the slice ends at the first event or at the maximum, through the 32-bit cast |
| HeapTimers.HeapTimer.Idle | Core/core/core_timing.cpp:259-262 | jumps to the end of the slice |
| CoreSlicing.AdvanceIsAdvanced | Core/core/core_timing.cpp:222-245 | over any run `Advance` leaves the clock alone and everything due fired: what the slicing assumes of it |
| CoreSlicing.ExecutionIsExecuted | Core/core/core_timing.cpp:189-203 | over any run without overrun a core moves forward, at most to its slice end: what the slicing assumes of execution |
| CoreSlicing.AdvanceOfOne | Core/core/core_timing.cpp:222-245 | the modelled `Advance`, with any callbacks that settle, leaves everything due fired and the clock alone |
| CoreSlicing.ModelAdvances | Core/core/core_timing.cpp:222-245 | so each behaviour that does the modelled `Advance` on its core is one the slicing theorems are about |
| CoreSlicing.SomeAdvance | Core/core/core_timing.cpp:222-245 | and there is one for all callbacks that settle |
| CoreSlicing.ExecutionOfOne | Core/core/core_timing.cpp:189-203 | any executing, idling, scheduling and removing within the slice moves a core forward, at most to its slice end |
| CoreSlicing.ModelExecutes | Core/core/core.cpp:346-356 | so each behaviour that does such acts on its core is one the slicing theorems are about |
| CoreSlicing.SliceFits | Core/core/core_timing.cpp:247-257 | a slice set at a boundary is not negative and moves no clock |
| CoreSlicing.CatchUpOk | Core/core/core.cpp:338-356 | a catch-up pass keeps the spread and passes nobody |
| CoreSlicing.ForwardOk | Core/core/core.cpp:357-392 | a forward pass keeps the spread within a slice plus 100 |
| CoreSlicing.CatchUpKeepsGlobal | Core/core/core.cpp:312-356 | a catch-up pass does not move the global clock |
| CoreSlicing.System.PrepareLaggard | Core/core/core.cpp:319-326 | a lagging core gets a slice up to the leader, and no clock moves |
| CoreSlicing.System.PrepareLaggards | Core/core/core.cpp:316-332 | all laggards are prepared, the first of those most behind is chosen |
| CoreSlicing.System.PrepareAll | Core/core/core.cpp:361-369 | the common slice is positive and at most the maximum, no clock moves |
| CoreSlicing.System.RunAll | Core/core/core.cpp:370-391 | each core moves at most as far as the one before it |
| CoreSlicing.System.CatchUp | Core/core/core.cpp:338-356 | the first core of those most behind runs, at most to the leader; the others stand still |
| CoreSlicing.System.GoForward | Core/core/core.cpp:357-392 | all cores run, none by more than a maximal slice |
| CoreSlicing.System.RunLoop | Core/core/core.cpp:312-392 | clocks stay within the maximal slice plus 100 of each other; a spread of 100 decides which pass happens, and a catch-up pass leaves the global clock alone |
| CoreSlicing.System.Emulate | Core/core/core.cpp:312-392 | any number of passes keeps the spread, and no clock goes back |
| MemoryMap.AliasesShowThePage | Core/core/memory.cpp:744-767 | the virtual aliases of a physical page are exactly the window pages that show it, but only the plugin window for the plugin framebuffer |
| MemoryMap.PokeOneByOne | Core/core/memory.cpp:526-577 | writing a block means writing its bytes one after the other |
| MemoryMap.PokeAllSplit | Core/core/memory.cpp:236-281 | a block write may be cut anywhere |
| MemoryMap.PokedIsPeeked | Core/core/memory.cpp:185-281 | on an alias-free mapped range what was written is read back |
| MemorySystems.MemoryIsClean | Core/core/memory.cpp:301-336 | no page reached by the fast path has bytes that only the GPU holds, because an alias of what it shows is unmarked |
| MemorySystems.CleanIff | Core/core/memory.cpp:779-827 | no GPU write that the marks allow shows in a page of host memory iff each physical page in it has an unmarked alias |
| MemorySystems.CoherentIff | Core/core/memory.cpp:478-486 | the host bytes of a page are what is seen, whatever the GPU wrote, iff that holds |
| MemorySystems.WindowCoherentIff | Core/core/memory.cpp:744-767 | for an unmarked window page it holds if marking reaches the page; otherwise the page shows the plugin framebuffer, and it holds iff the page of the plugin window is unmarked |
| MemorySystems.WriteBackKeepsView | Core/core/memory.cpp:316-327 | flushing GPU bytes back changes nothing a guest sees |
| MemorySystems.MarksStayOk | Core/core/memory.cpp:779-827 | marking any range keeps all aliases of a page marked alike and everything dirty marked |
| MemorySystems.TablesStayOk | Core/core/memory.cpp:790-824 | and switches every registered table to fit the marks |
| MemorySystems.UncachingRestores | Core/core/memory.cpp:779-827 | caching a range and uncaching it again restores every table that maps it identically |
| MemorySystems.PluginAliasGoesStale | Core/core/memory.cpp:748-755 | no marking reaches a linear-heap page onto the plugin framebuffer, and it reads the old byte once the GPU has written another |
| MemorySystems.LoadIsBlockReadIff | Core/core/memory.cpp:478-501 | a load and a block read agree iff the page has a pointer, or the address is outside the high window, or FCRAM holds zeros there |
| MemorySystems.HighStoreIsLostIff | Core/core/memory.cpp:543-558 | a store into the high window onto FCRAM, which a block write ignores, leaves the same memory iff FCRAM holds the bytes already or GPU bytes hide them |
| MemorySystems.CrossingLoadIff | Core/core/memory.cpp:478-486 | a load that crosses a page through a pointer is the byte-by-byte load, whatever memory holds, iff the next virtual page shows the next page of host memory |
| MemorySystems.CrossingStoreIff | Core/core/memory.cpp:526-542 | and so is a store, iff the same holds |
| MemorySystems.MemorySystem.RegisterPageTable | Core/core/memory.cpp:467-469 | a table whose entries fit the marks may be added at any time |
| MemorySystems.MemorySystem.CheckRegion | Core/core/memory.cpp:304-328 | one window: flushing keeps the logical memory, invalidating forgets exactly the overlap |
| MemorySystems.MemorySystem.RasterizerFlushVirtualRegion | Core/core/memory.cpp:301-336 | all windows: afterwards exactly the bytes covered are no longer in GPU hands, for the two modes that flush the logical memory is unchanged |
| MemorySystems.MemorySystem.Read | Core/core/memory.cpp:478-524 | a load gives the logical bytes on each of its paths, apart from the high window; one that crosses a page through a pointer gives the host bytes behind it |
| MemorySystems.MemorySystem.Write | Core/core/memory.cpp:526-577 | a store changes the logical memory by exactly its bytes on each of its paths, apart from the high window; one that crosses a page through a pointer changes exactly the host bytes behind it |
| MemorySystems.MemorySystem.ReadPage | Core/core/memory.cpp:199-226 | the three cases inside one page |
| MemorySystems.MemorySystem.WritePage | Core/core/memory.cpp:248-274 | the three cases inside one page |
| MemorySystems.MemorySystem.ReadBlock | Core/core/memory.cpp:185-233 | equals byte-by-byte loads over any range, and leaves the logical memory alone |
| MemorySystems.MemorySystem.WriteBlock | Core/core/memory.cpp:235-281 | equals byte-by-byte stores over any range |
| MemorySystems.MemorySystem.ZeroBlock | Core/core/memory.cpp:930-971 | equals storing zeros byte by byte over any range |
| MemorySystems.MemorySystem.CopyBlock | Core/core/memory.cpp:978-1023 | between ranges without common bytes it is a read, then a write; unmapped source pages read as zero |
| MemorySystems.MemorySystem.CopyPage | Core/core/memory.cpp:991-1015 | the three cases of a source page |
| MemorySystems.MemorySystem.MapPages | Core/core/memory.cpp:421-461 | each page of the range gets its reference, or comes up cached when marked; the logical memory does not change |
| MemorySystems.MemorySystem.MarkPage | Core/core/memory.cpp:789-824 | one window page is marked and switched in every table, unless the source would call that unreachable |
| MemorySystems.MemorySystem.RasterizerMarkRegionCached | Core/core/memory.cpp:779-827 | exactly the pages that show the range are marked and switched, and the invariant is kept |
| PhysRegions.AreasAreApart | Core/core/memory.cpp:682-693 | the inclusive search bounds overlap nowhere |
| PhysRegions.RegionCache.GetPhysMemRegionInfo | Core/core/memory.cpp:676-720 | with any cache content the area found is the one that holds the address |
| PhysRegions.RegionCache.GetPhysicalRef | Core/core/memory.cpp:733-742 | area and offset together give the address |
| DspPipe.EmptyOrFull | Core/audio_core/lle/lle.cpp:94-109 | empty, full and wrapped as the pointers show them mean just that, for buffers below 0x8000 |
| DspPipe.PointersCount | Core/audio_core/lle/lle.cpp:299-306 | the two pointers give the number of unread bytes |
| DspPipe.LargestBufferCountsIff | Core/audio_core/lle/lle.cpp:299-306 | with 0x8000 bytes the count is right iff the pipe is not full; full, it counts as empty |
| DspPipe.ChunkAdvances | Core/audio_core/lle/lle.cpp:244-251 | adding a chunk and flipping the wrap bit at the end is advancing round the ring |
| DspPipe.CopyKeeps | Core/audio_core/lle/lle.cpp:241-242 | a chunk behind the unread bytes overwrites none of them |
| DspPipe.StoreChunk | Core/audio_core/lle/lle.cpp:231-251 | after a chunk all unread bytes are still there and the bytes written so far stand behind them |
| DspPipe.Pipe.UpdatePipeStatus | Core/audio_core/lle/lle.cpp:213-222 | each side publishes only its own pointer |
| DspPipe.Pipe.WriteChunk | Core/audio_core/lle/lle.cpp:229-253 | one pass of the writing loop, with a read pointer that may be out of date |
| DspPipe.Pipe.WritePipe | Core/audio_core/lle/lle.cpp:224-260 | appends exactly the bytes to the queue, or nothing when the snapshot shows too little room; never overwrites an unread byte |
| DspPipe.Pipe.ReadChunk | Core/audio_core/lle/lle.cpp:267-290 | one pass of the reading loop gives the next bytes of the queue |
| DspPipe.Pipe.ReadPipe | Core/audio_core/lle/lle.cpp:262-298 | takes exactly the first bytes of the queue, or nothing |
| DspPipe.Pipe.GetPipeReadableSize | Core/audio_core/lle/lle.cpp:299-306 | the length of the queue |
| Interpolate.LinearIsExact | Core/audio_core/interpolate.cpp:60-73 | the mixed signed and unsigned expression is x0 + floor(fraction * saturated difference / 2^24), between the samples, without wrap |
| Interpolate.LinearOutput | Core/audio_core/interpolate.cpp:60-73 | a linear output lies exactly between its two samples of the stream and is again a sample |
| Interpolate.NoneOutput | Core/audio_core/interpolate.cpp:53-58 | an output without interpolation is the sample its position falls into |
| Interpolate.AppendKeepsOutput | Core/audio_core/interpolate.cpp:18-51 | later input changes no output |
| Interpolate.OutputsJoin | Core/audio_core/interpolate.cpp:18-51 | outputs do not depend on how stream and frames are cut |
| Interpolate.InStream | Core/audio_core/interpolate.cpp:43-50 | history samples and relative position stand for the whole stream so far |
| Interpolate.State.StepOverSamples | Core/audio_core/interpolate.cpp:18-51 | output k is the kernel at position p0 + k * step of the whole stream, and stops at a full frame or when three samples are not there |
| Interpolate.StepLoop | Core/audio_core/interpolate.cpp:32-44 | its loop |
| Source.SoundsOrLighter | Core/audio_core/hle/source.cpp:381-449 | a dequeued buffer sounds, or the queue gets lighter, or an empty replay goes round |
| Source.NoProgressIff | Core/audio_core/hle/source.cpp:381-449 | a dequeue gives no samples and leaves the queue as heavy as it was iff a played looping buffer has nothing to play |
| Source.DequeueKeeps | Core/audio_core/hle/source.cpp:432-435 | what is asked of the queue (play positions inside, loops that sound) survives a dequeue |
| Source.CountedDecoders | Core/audio_core/hle/source.cpp:400-423 | for decoders that count by length and format, ADPCM rounding up as the source's does, both can be read off the queued buffers |
| Source.StuckStays | Core/audio_core/hle/source.cpp:432-435 | an empty replay that is alone at the top comes round and is alone at the top again |
| Source.StuckMayGoRound | Core/audio_core/hle/source.cpp:432-435 | and among several tops it may |
| Source.DryIff | Core/audio_core/hle/source.cpp:349-373 | where the loop came to (an empty replay, an empty queue, a full frame) tells whether the buffers before an empty replay were too short for the frame |
| Source.StuckRunsDryIff | Core/audio_core/hle/source.cpp:349-373 | with an empty replay alone at the top, they are iff the stream so far does not reach the last output |
| Source.DistinctIsDetermined | Core/audio_core/hle/source.cpp:381-389 | buffers with different ids have one first buffer at any time, whatever is dequeued |
| Source.Source.ParseQueue | Core/audio_core/hle/source.cpp:250-325 | which of the embedded buffer and the four slots are queued, and that a partial reset empties the queue first |
| Source.Source.PopTop | Core/audio_core/hle/source.cpp:388-389 | a buffer with the least id leaves the queue |
| Source.Source.DequeueBuffer | Core/audio_core/hle/source.cpp:381-449 | queue, samples and stream afterwards; looping buffers go back as played |
| Source.Source.PlayBuffer | Core/audio_core/hle/source.cpp:425-441 | the first play starts at the play position, later ones at the beginning |
| Source.Source.Refill | Core/audio_core/hle/source.cpp:351-353 | a buffer is dequeued when none is playing, with what that does to stream and queue |
| Source.Source.FillNext | Core/audio_core/hle/source.cpp:350-373 | each pass gives output, or lowers the position to skip, or the weight of the queue, or changes nothing because an empty replay went round |
| Source.Source.PlayOn | Core/audio_core/hle/source.cpp:355-373 | what is playing goes into the frame as outputs of the whole stream, as far as either reaches |
| Source.Source.NextPass | Core/audio_core/hle/source.cpp:350-373 | a pass with its place in the chain of dequeues: queue, number of decodes and stream are those after so many dequeues in the order of the ids |
| Source.Source.FillFrame | Core/audio_core/hle/source.cpp:349-373 | the loop ends, or comes to a pass that changes nothing: that exactly when the queue, which has one first buffer at a time, runs dry before the frame is full |
| Source.Source.SpinOn | Core/audio_core/hle/source.cpp:349-373 | from there any number of passes changes nothing |
| Source.Source.GenerateFrame | Core/audio_core/hle/source.cpp:334-373 | fills the frame with the outputs of one stream across all buffers; returns unless an empty replay comes up with the frame not full, which the queue and what is playing before the call decide; always when the queued loops sound |
| Codec.CodesCompose | Core/audio_core/codec.cpp:46-59 | decoding two pieces one after the other, carrying the feedback, is decoding them joined |
| Codec.FramesAhead | Core/audio_core/codec.cpp:36-43 | header and nibbles of sample 14a + i are those of sample i from byte 8a on |
| Codec.DecodeComposes | Core/audio_core/codec.cpp:16-80 | decoding 14a + b samples is decoding 14a, then b from byte 8a on with the carried state |
| Codec.CarriesExactlyIff | Core/audio_core/codec.cpp:28-77 | the state carried on is that behind the samples asked for, for all data, iff their number is even |
| Codec.NeverOverflowsIff | Core/audio_core/codec.cpp:47-52 | two coefficients keep the 32-bit sum in range for all inputs iff the two extreme sums fit |
| Codec.CoefficientBudget | Core/audio_core/codec.cpp:42-52 | which holds when their absolute values add up to at most 49152; it fails for all non-negative ones that add up to 49153 |
| Codec.ADPCMState.DecodeSample | Core/audio_core/codec.cpp:46-59 | the clamped filter step, and the feedback it leaves |
| Codec.ADPCMState.DecodeFrame | Core/audio_core/codec.cpp:37-73 | a frame adds the samples of its codes behind those before it |
| Codec.ADPCMState.DecodeADPCM | Core/audio_core/codec.cpp:16-80 | fills the rounded-up output exactly, and carries the state behind it |
| Strings.FieldsCons | Core/common/string_util.cpp:117-127 | a field, a delimiter and the rest split into the field and the fields of the rest |
| Strings.FieldsSingle | Core/common/string_util.cpp:117-127 | without a delimiter there is one field, or none for the empty string |
| Strings.SplitString | Core/common/string_util.cpp:117-127 | the `getline` loop gives those fields |
| Strings.FindIsFirst | Core/common/string_util.cpp:151 | `find` gives the first match at or behind a position, or none |
| Strings.ReplacePass | Core/common/string_util.cpp:151-154 | a pass of the loop does not change what will come out |
| Strings.ReplaceAll | Core/common/string_util.cpp:145-157 | all matches from left to right, not overlapping, replaced; it ends unless the source is empty and the replacement is not |
| Strings.EmptySourceNeverEnds | Core/common/string_util.cpp:151-154 | in that case every pass is followed by another |
| ParamPackages.ReplaceChar | Core/common/param_package.cpp:60-64 | replacing a single character replaces each occurrence |
| ParamPackages.ReplaceBack | Core/common/param_package.cpp:40-44 | one unescaping pass undoes one escaping pass |
| ParamPackages.UnescapeEscape | Core/common/param_package.cpp:40-64 | three passes undo three passes, for every string |
| ParamPackages.EscapeLacksSeparators | Core/common/param_package.cpp:60-64 | an escaped string holds no separator |
| ParamPackages.FieldsOfTrail | Core/common/param_package.cpp:32 | entries with a separator behind each split into the entries |
| ParamPackages.EntryParses | Core/common/param_package.cpp:33-46 | a printed entry is read back, unless its value is empty |
| ParamPackages.ParseText | Core/common/param_package.cpp:27-70 | parsing what was printed gives exactly the entries with non-empty values, for every map |
| ParamPackages.NestedPackageSurvives | Core/common/param_package.cpp:27-70 | a package stored as a value of another comes back |
| ParamPackages.ParamPackage.Parsed | Core/common/param_package.cpp:27-48 | the parsing constructor computes the parse |
| ParamPackages.ParamPackage.AddParsed | Core/common/param_package.cpp:33-46 | one pair: ignored unless it has two fields, otherwise unescaped and set |
| ParamPackages.ParamPackage.Serialize | Core/common/param_package.cpp:52-70 | prints the text of the map, in the order it is walked |
| ParamPackages.Escaped | Core/common/param_package.cpp:60-64 | three `ReplaceAll` calls escape |
| ParamPackages.Unescaped | Core/common/param_package.cpp:40-44 | three `ReplaceAll` calls unescape |
| Movies.DecodeEncode | Core/core/movie.cpp:237-453 | playing a recorded state gives the input back, for every input of every kind |
| Movies.StateAt | Core/core/movie.cpp:361-365 | state k of a recording is the encoding of input k |
| Movies.GetInputCount | Core/core/movie.cpp:131-145 | counts the whole states of type pad |
| Movies.CountOfRecording | Core/core/movie.cpp:131-145 | which for a recording is the number of its pad inputs |
| Movies.Movie.StartPlayback | Core/core/movie.cpp:463-556 | playback begins at the first state of a readable file with the right magic bytes and something behind the header; any other file changes nothing |
| Movies.Movie.StartRecording | Core/core/movie.cpp:558-573 | recording begins where the position stands |
| Movies.Movie.CheckInputEnd | Core/core/movie.cpp:229-235 | finishes iff no whole state is left |
| Movies.Movie.Play | Core/core/movie.cpp:237-267 | decodes the next state and moves on, also when its type differs |
| Movies.Movie.Record | Core/core/movie.cpp:361-393 | cuts at the position and appends the state |
| Movies.Movie.Handle | Core/core/movie.cpp:680-689 | plays, records or does nothing; keeps the position at whole states |
| Movies.Movie.Save | Core/core/movie.cpp:152-181 | a state saved while playing or recording is a state of a recording |
| Movies.Movie.Load | Core/core/movie.cpp:152-214 | every check and what it leaves behind |
| Movies.Movie.Shutdown | Core/core/movie.cpp:665-678 | back to the initial state |
| Movies.LoadKeepsValid | Core/core/movie.cpp:152-214 | a successful load with a movie keeps the position at whole states inside the recording; after any other load that holds iff the loaded position has a state behind it, or, recording, is not past the end |
| Movies.ReplayOne | Core/core/movie.cpp:680-689 | the next recorded input is returned |
| Movies.Replay | Core/core/movie.cpp:680-689 | replaying a recording returns its inputs, and is finished exactly after the last |
| Movies.Rerecord | Core/core/movie.cpp:183-212 | recording after a read-write load yields the state's bytes up to its position, then the new inputs |
| Movies.FailedLoadShiftsRecording | Core/core/movie.cpp:154-174 | a failed load before a recording makes it start with zeros |
| Packets.BigEndianBack | Core/network/packet.cpp:108-127 | network byte order is undone by reading |
| Packets.Packet.Append | Core/network/packet.cpp:28-34 | adds the bytes behind the others |
| Packets.Packet.CheckSize | Core/network/packet.cpp:257-261 | a failed check makes all later ones fail |
| Packets.Packet.Read | Core/network/packet.cpp:36-41 | reads the next bytes, or none and the packet is invalid |
| Packets.Packet.ReadInt | Core/network/packet.cpp:108-127 | reads a written integer back; zero after a failure |
| Packets.Packet.ReadText | Core/network/packet.cpp:156-171 | reads a written string back |
| Packets.Packet.WriteText | Core/network/packet.cpp:245-255 | appends length and characters |
| RoomMessages.WriteRoomInformation | Core/network/room.cpp:810-832 | the packet is the message of room and member list |
| RoomMessages.ReadMember | Core/network/room_member.cpp:321-328 | one member's fields are read back |
| RoomMessages.ReadMembers | Core/network/room_member.cpp:317-336 | the list is read back |
| RoomMessages.ReadRoomInformation | Core/network/room_member.cpp:296-338 | what is decoded is what was encoded |
| RoomProtocol.DistinctAppend | Core/network/room.cpp:571-596 | the three checks keep nicknames, addresses and console ids distinct |
| RoomProtocol.EraseKeeps | Core/network/room.cpp:456 | erasing keeps them distinct and frees the nickname |
| RoomProtocol.CopiesToOne | Core/network/room.cpp:880-887 | a packet with a destination goes to its owner, once |
| RoomProtocol.SeatsLeft | Core/network/room.cpp:988-1001 | taking out the first member of a peer leaves one member less of it |
| RoomProtocol.ExpelledIsGone | Core/network/room.cpp:422-500 | after a permitted kick or ban nobody has the name |
| RoomProtocol.JoinTwice | Core/network/room.cpp:302-420 | two requests of one peer that differ in name, id and address are both admitted |
| RoomProtocol.StaleMemberStays | Core/network/room.cpp:983-1008 | and after its disconnection the second member is still there |
| RoomProtocol.StaleMemberExample | Core/network/room.cpp:302-420 | two requests to a new room, both admitted, that lead there |
| RoomProtocol.Room.constructor | Core/network/room.cpp:1015-1050 | a new room satisfies the invariant, has nobody in it, and has the password and ban lists it was given |
| RoomProtocol.Room.SendStatusMessage | Core/network/room.cpp:771-808 | one copy for each member, to connected peers only |
| RoomProtocol.Room.BroadcastRoomInformation | Core/network/room.cpp:810-838 | every connected peer has the current list last |
| RoomProtocol.Room.GenerateMacAddress | Core/network/room.cpp:840-850 | the first draw nobody has, behind the vendor's three bytes |
| RoomProtocol.Room.Admit | Core/network/room.cpp:405-419 | status, list and success, in that order, to the right peers |
| RoomProtocol.Room.CheckRequest | Core/network/room.cpp:302-403 | the checks one after the other find the first refusal that is due, or none is |
| RoomProtocol.Room.HandleJoinRequest | Core/network/room.cpp:302-420 | the first failing check is answered and nothing else happens; otherwise exactly this member joins and everybody is told |
| RoomProtocol.Room.Expel | Core/network/room.cpp:422-461 | permission, target, what each peer is told, and who is disconnected |
| RoomProtocol.Room.HandleModKickPacket | Core/network/room.cpp:422-462 | a kick is that |
| RoomProtocol.Room.HandleModBanPacket | Core/network/room.cpp:464-523 | a ban is that, and the name and address are listed once |
| RoomProtocol.Room.HandleModUnbanPacket | Core/network/room.cpp:525-560 | the first entry leaves each list; who is told what |
| RoomProtocol.Room.HandleClientDisconnection | Core/network/room.cpp:983-1008 | the first member of the peer leaves and the others are told; none of the peer is left iff it had one at most |
| RoomProtocol.Room.HandleGameNamePacket | Core/network/room.cpp:950-981 | the sender's game is replaced and broadcast |
| RoomProtocol.Room.HandleWifiPacket | Core/network/room.cpp:852-898 | exact copies for exact peers: everybody but the sender, or the owner of the address |
| RoomMembers.RoomMember.HandleRoomInformation | Core/network/room_member.cpp:296-338 | on the server's bytes the member shows the server's list |
| RoomMembers.RoomMember.Receive | Core/network/room_member.cpp:163-239 | each message's effect on state, address and list |
| RoomMembers.RoomMember.Serve | Core/network/room_member.cpp:163-254 | a message, a lost connection or nothing: what each changes and when the loop ends |
| RoomMembers.RoomMember.OnePass | Core/network/room_member.cpp:158-266 | one pass: after what arrives, everything queued is sent and the queue is empty |
| RoomMembers.RoomMember.MemberLoop | Core/network/room_member.cpp:158-268 | over any passes on a channel of the server the assertion on member information holds, the list is that of the last information, everything queued is sent once and in order, and the lists are empty once the connection has ended |
| RoomMembers.ListsAgree | Core/network/room_member.cpp:158-268 | a connected member that has taken all messages shows exactly the server's list |

## Left out

- Integer widths where nothing in the source wraps in practice: ticks, fifo numbers and times are
  unbounded, and so are resampler positions and read positions. 8-, 16- and 32-bit values of pipes,
  samples, slices, movies and packets are modelled with their width.
- Floating point: rates, the clock scale (`AddTicks` takes scaled ticks), `current_sample_number` after a
  frame, the frame limiter, displayed movie times, filters.
- `idled_cycles`, event type registration, saved timers, and the clock speed setting.
- The internals of `std::push_heap`, `pop_heap` and `make_heap`: modelled as sifting; the theorems use only
  that they keep a heap of the same events.
- Overrun of a core inside `CoreSlicing`: the spread is proved without it, as the assumption
  `CoreSlicing.Executes` says. Debugger stubs and rescheduling are part of what a core executes.
- Memory ordering weaker than sequential consistency, and real time: the deadline of a flush is a step
  that may happen any time.
- Executing a save or load is one step that succeeds or fails; archives, compression and the kernel are
  not part of this model. Diagnostics snapshots and log lines of the protocol are left out too.
- The texture cache is an overlay of GPU bytes over memory: flushing writes bytes back, invalidating
  forgets them, and rendering (`MemorySystem.Render`) changes one byte of a marked page at a time.
- `WriteExclusive`, `GetPointer`, write watches, unregistering tables, and the block variants without
  flushing.
- MemorySystems.MemorySystem.Read: accesses that cross a page and do not begin on one with a pointer, or
  leave host memory.
- MemorySystems.MemorySystem.Write: the same for stores.
- MemorySystems.MemorySystem.CopyBlock: ranges with common bytes, where the source's `memcpy` is undefined
  when they meet in one page.
- MemorySystems.MemorySystem.RasterizerMarkRegionCached: marking memory that a table shows elsewhere than
  at its aliases; `CoherentIff` says that such a page is then not coherent.
- MemorySystems.MemorySystem.MapPages: the memory to map must be long enough, and a window page must show its own
  physical page, as the kernel's mappings do; a mapping beyond the end of memory is not modelled.
- The DSP is the other side of each ring: it takes or adds bytes and moves its own pointer. Semaphores and
  interrupts are left out.
- PCM decoders are part of the decoding parameter of `Source`; the parts of `ParseConfig` that do not touch
  the queue, and partial updates of a playing buffer, are left out.
- Source.Source.PopTop: which of several buffers with the same id is taken is not said, because the
  priority queue does not say it either.
- Strings of more than 2^32 - 1 characters in packets; floats, booleans and character arrays of packets.
- Chat, ban list requests, room closing and verification ids; a member's own user name; ENet resending,
  timeouts and the connection handshake.
- RoomProtocol.Room.GenerateMacAddress: random bytes come as a list of draws one of which is free, so how
  long the search takes is not modelled.
- HeapTimers.HeapTimer.Advance: callbacks that set off firings without end, for which the source does not
  return; they are functions of the event, its lateness and how many callbacks were called before.
- Writing movie files, other uses of their headers, and the check of the input count.
- ParamPackages.ParamPackage.Serialize: the order in which the map is walked is a parameter; the source
  walks it sorted, and the theorems hold for every order.
