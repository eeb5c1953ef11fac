# Verified models of the coroutine runtime's hard parts

The repository is a coroutine runtime with the allocator, the queues and the locks under it. This
project models its stateful cores in Dafny and proves what callers rely on. Each module stands for
one source file or one protocol.

* `WheelScan`, `WheelStray`, `WheelTimer`, `WheelRuns`, `WheelGaps`, `WheelEarly` (with `Base256`): the
  hierarchical timer wheel, 8 levels of 256 slots, with its catch-up scan of growing strides. It agrees
  with a plain set of timers, and where a scan is too long for that, the exact ends are known.
* `HeapModel`, `SmallHeap`: the first-fit heap that also allocates from the top. Its free list is a
  function of the live blocks alone.
* `Handshake`, `SuspendEpochs`, `Channels`, `RingBuffers`: the hand-off between coroutines, from the flag
  word of one waiter, over the suspend numbers of the processors, to the channel built on top.
* `TsQueues`, `Stealing`, `LinkedStealing`, `Dispatching`: the intrusive lists, the stealing of tasks, on
  sequences and on the linked hooks, and the dispatcher's rebalancing. Tasks are conserved.
* `ReaderWriterLocks`, `WeakRef`, `IntMath`: the reader/writer monitor, the upgrade of weak pointers, and
  the bit arithmetic. `Options` and `Sequences` hold what the models share.

Objects that the code updates in place are classes with the same fields; ghost fields record history
(timers started, calls accepted, blocks live). Protocols between threads are state machines: one step
for each access to a shared word, or for each stretch under a lock, taken in any order by any number
of actors. Main results are about all inputs, all runs or all reachable states.

## How to check

`dafny verify dfyconfig.toml` checks the whole project; `includes = ["**/*.dfy"]` names its files.

## What the proofs found

* **Timer, step table.** `additions` has 2^32 where the pattern asks for 2^24 (src/common/inc/Timer.h:284-285). The smaller
  of this entry and the way to the next turn is used, which hides the slip for a while. Let
  `CatchUpLimit(p)` be the first positive multiple of 2^32 not before p, plus 2^32. A catch-up from p
  empties every slot it should if and only if `CatchesUp(p, dest)`: it ends by this limit; or p is less
  than 2^24 ticks short of a multiple of 2^32, or at one, so that the steps have the right length but
  come late, and the end is late as well (`WheelStray` has the closed form). From every other start it never
  catches up again. A timer is missed, on some wheel that runs reach, if and only if `MissesNone(p, dest)`
  does not hold: this allows one more family of ends, where the slot missed is one that no timer is put
  in. `RunOnce` and `WheelGaps.CatchUpGap` are the two directions. Both are for all p and all ends below
  2^47.
* **Timer, early firing.** A scan that has covered the 256 slots of a level goes on in the strides of the
  next one, and fires the slots it meets there without looking at the deadlines in them (src/common/inc/Timer.h:292-301).
  From p it does so if and only if it ends beyond the first multiple of 256 above p + 255
  (`OutrightFrom`). A timer fired so is early by less than two slots of the level it was in. From 1 to
  513, for instance, the slot of tick 600 is fired. A scan from p to dest fires some timer of some
  wheel early if and only if `EarlyEnd(p, dest)` holds, for dest up to where the scan resumes after its
  wrong step (`WheelEarly`).
* **Ring buffer, rebase.** When the 64-bit write counter wraps, both counters are moved up by
  capacity + 1 (include/co/sync/ringbuffer.h:34-37). Elements keep their slots if and only if capacity + 1 divides 2^64.
  `AnyRun` and `RebaseBreaks` are the two directions over runs.
* **Queues, small requests.** `pop_front(0)` and `pop_back(0)` take one element (src/common/inc/TsQueue.h:318-370), and the
  count is 32 bits wide, so a request for a multiple of 2^32 takes one too. Both are modelled; the bound
  on a steal holds all the same.
* **Heap, illegal free.** Freeing an unknown address is a debug assertion and, without assertions, does
  nothing (src/common/small_heap.cpp:47-51). The model has the latter.
* **Dispatcher, load map.** After dealing, the receiving processors are entered twice (src/scheduler/Scheduler.cpp:344-352). The
  duplicates are modelled; conservation does not depend on them.

## Assumptions

* Heap: `0 < base`, `0 < length`, `base + length < 2^64 - 1`, as the constructor's assertions and the guard
  addresses ask; `free` is given null, a live block or an address that is no block.
* Timer: clock readings are non-negative, below 2^63 nanoseconds and do not go back; the precision is at
  least 100 microseconds (clamped by the code) and not changed while timers wait. Timers are started
  between scans.
* Ring buffer: `capacity + 1 < 2^64`.
* Suspend numbers: runs of fewer than 2^64 steps, so that no counter wraps.
* A held task (running or next) is marked as the run queue's exactly while it is linked there, and no
  task is marked as the new queue's; the code sets the mark when it picks a task and clears it when it
  unlinks one.
* Suspend numbers: a steal unlinks, carries and delivers its tasks one by one, in any order and between
  the steps of all other actors; a task that is done is passed over, unlinked and left in three steps.
* Picking the next task, marking it running and setting its processor is one step of a processor.
* A thread unlocks only what it holds. The number of threads and of pointers fits the counters.

## Model

| member | source | states |
|---|---|---|
| `WheelScan.Placement` | src/common/inc/Timer.h:449-465 | for every point and every deadline tick not before it, the chosen slot, although bytes are added mod 256 without carry, is less than 256 slots ahead and next looked at between the point and the tick: at the tick itself on level 0, less than two slot widths before it on level k |
| `WheelScan.BelongsAt` | src/common/inc/Timer.h:449-465 | exactly which deadlines a slot of level k >= 1 can hold, from each point they are placed from |
| `WheelScan.NextVisitStable` | src/common/inc/Timer.h:292-310 | advancing the point does not move the next look at a slot that has not been reached |
| `WheelScan.ScanStep` | src/common/inc/Timer.h:292-319 | one position of the strided scan keeps the scan invariant (slot counts, slots emptied, stride alignment), at exact positions and beyond the wrong table entry |
| `WheelScan.ScanToLimit` | src/common/inc/Timer.h:278-320 | the strided scan empties only slots a tick-by-tick scan would look at, and up to the catch-up limit all of them |
| `WheelStray.ScanResult` | src/common/inc/Timer.h:278-320 | for every start and every end within the range of the clock: the scan empties exactly the slots a tick-by-tick scan would look at if and only if the end is one of those `CatchesUp` names, a closed form of start and end; else the slot `Missed` names is due and not emptied |
| `WheelStray.TrackStep` | src/common/inc/Timer.h:292-319 | one position of the scan, in every phase of the step table, keeps what is known of emptied and missed slots |
| `WheelStray.AstrayEnd` | src/common/inc/Timer.h:312-317 | steps on level 4 that are longer than 2^32 never catch up again after the limit, in spite of coming round to many slots |
| `WheelStray.LaggingStep` | src/common/inc/Timer.h:312-317 | steps of the right length that start at the wrong place look at every slot, 256^k - 2^24 ticks late |
| `WheelStray.InverseFar` | src/common/inc/Timer.h:312-317 | coming back to the first slot missed takes more than 512 slots of level 4, and odd steps |
| `WheelStray.VacantIndex` | src/common/inc/Timer.h:449-465 | the one slot that may be missed without harm is 256 slots ahead of the point, where no timer is ever put |
| `WheelScan.FiresOutright` | src/common/inc/Timer.h:292-310 | one position of the scan fires at most one slot above level 0 outright, and only one whose lower levels are scanned through |
| `WheelScan.OutrightFrom` | src/common/inc/Timer.h:278-310 | a catch-up fires some slot above level 0 outright if and only if it ends beyond the first multiple of 256 above its start plus 255 |
| `WheelScan.ClimbStops` | src/common/inc/Timer.h:303-310 | the climb through zero bytes never leaves the eight levels |
| `WheelTimer.LimitFar` | src/common/inc/Timer.h:284-317 | every catch-up of at most 2^32 ticks is within the catch-up limit, so every one of at most 2^24 |
| `WheelTimer.Timer.constructor` | src/common/inc/Timer.h:152-159 | a new timer is empty and valid |
| `WheelTimer.Timer.Trigger` | src/common/inc/Timer.h:394-407 | fires exactly one slot, in order, and no timer leaves its one place otherwise |
| `WheelTimer.Timer.ChooseSlot` | src/common/inc/Timer.h:453-462 | the byte search finds the level and offset of the placement lemma |
| `WheelTimer.Timer.Dispatch` | src/common/inc/Timer.h:428-489 | one timer goes to the slot placed for its deadline, or to the late list, exactly when the code says so; nothing else moves, and the placement invariant is kept |
| `WheelTimer.Timer.DispatchAll` | src/common/inc/Timer.h:409-426 | cascading fires exactly the timers of the list whose time has come, in the order of the list, and puts all others back in time |
| `WheelTimer.DueInOrder` | src/common/inc/Timer.h:409-426 | two timers of the list that are due are fired in its order |
| `WheelTimer.Timer.StartTimer` | src/common/inc/Timer.h:202-211 | a started timer waits where it will be met in time; the rest of the wheel is unchanged |
| `WheelTimer.Timer.Look` | src/common/inc/Timer.h:295-310 | one position empties exactly the slots of the triggering level and of the levels climbed to |
| `WheelTimer.Timer.Scan` | src/common/inc/Timer.h:278-320 | the whole loop: it terminates, loses no timer, empties exactly the slots reported, re-establishes the placement invariant whenever the end misses no timer; a timer it fires is due, or was in a slot of a level k >= 1 fired outright, with 255 slots of level k - 1 covered, and is then early by less than two slots of its own level; every timer of such slots fires |
| `WheelTimer.Timer.ScanTurn` | src/common/inc/Timer.h:292-319 | one turn of the loop keeps both bounds on what has fired, for the slot each timer was in |
| `WheelTimer.Timer.CatchUp` | src/common/inc/Timer.h:256-323 | scan and cascade from a newly published point, with the same two bounds on what fires |
| `WheelTimer.Timer.RunOnce` | src/common/inc/Timer.h:239-327 | refines a set of timers: for every new point of which `MissesNone` holds, every timer due before it has fired; what fires early was in a slot fired outright and is early by less than two slots of its level, and all timers of such slots fire; nothing fires early if the new point is at most the first multiple of 256 above the old one plus 255; always, no timer is lost or doubled |
| `WheelTimer.FireBound` | src/common/inc/Timer.h:299-301 | the bound on early firing for a slot that the scan fires, by the level of this very slot |
| `WheelTimer.NotEarly` | src/common/inc/Timer.h:299-310 | in a catch-up that ends by the first multiple of 256 above its start plus 255 nothing may fire early |
| `WheelTimer.EarlyExactly` | src/common/inc/Timer.h:278-320 | for ends up to where the scan resumes after its wrong step: a timer whose time has not come fires if and only if it was in a slot fired outright |
| `WheelEarly.EarlyFires` | src/common/inc/Timer.h:278-320 | the converse: where `EarlyEnd` holds, for every start and end, there is a run in every trace of which no scan before the last has missed a timer, the wheel is at the start and on time, and the last scan fires a timer before its time |
| `WheelEarly.FireEarly` | src/common/inc/Timer.h:202-327 | driven through that run, the wheel itself fires the timer early |
| `WheelEarly.NoneEarly` | src/common/inc/Timer.h:278-320 | where the closed form `EarlyEnd` of start and end does not hold, no wheel that is on time fires any timer early (ends up to where the scan resumes after its wrong step) |
| `WheelEarly.TightEarly` | src/common/inc/Timer.h:299-301 | a timer of a slot fired outright that is not due at the end puts start and end under `EarlyEnd` |
| `WheelTimer.Timer.DueHaveFired` | src/common/inc/Timer.h:239-327 | under the placement invariant a timer due before the point has fired or is in the late list |
| `WheelRuns.Perform` | src/common/inc/Timer.h:202-327 | StartTimer and RunOnce do what `Step` says of the wheel before and after |
| `WheelRuns.Play` | src/common/inc/Timer.h:202-327 | driven by any operations with sensible times, the wheel goes through a trace of `Step`s that starts empty |
| `WheelRuns.EveryRun` | src/common/inc/Timer.h:202-327 | in every trace whatever, at every moment: the started timers are exactly those of the operations, in order, each is in one place, and none has fired twice |
| `WheelRuns.AnyRun` | src/common/inc/Timer.h:213-221 | in every trace whose scans end where `MissesNone` holds (all scans of up to 2^32 ticks do): every timer the operations started has fired, or is late since the last scan, or is not due before the point; if the scans also keep up, none has fired early |
| `WheelGaps.CatchUpGap` | src/common/inc/Timer.h:284-317 | the converse, for every start and every end of which `MissesNone` does not hold: a run in every trace of which no scan before the last has missed a timer, the wheel is at the start, on time, with a waiting timer due before the end, and the last scan leaves it unfired, in no other place, and past its deadline |
| `WheelGaps.MissTimer` | src/common/inc/Timer.h:202-327 | driven through that run, the wheel itself misses the timer |
| `WheelGaps.LeftBehind` | src/common/inc/Timer.h:284-317 | of every wheel, the scan leaves behind the timers of the slot `Missed` names |
| `WheelGaps.GapSensible` | src/common/inc/Timer.h:202-327 | the run of the converse is one the wheel can be driven through |
| `WheelGaps.StepsWait` | src/common/inc/Timer.h:239-327 | scans of at most 2^32 ticks, one after the other, leave a timer alone until its slot is met, and miss none |
| `SmallHeap.SmallHeap.constructor` | include/util/small_heap.h:50-73 | the new heap is one free block between two guards |
| `SmallHeap.SmallHeap.InsertAfter` | src/common/small_heap.cpp:5-13 | the four link updates of an insertion |
| `SmallHeap.SmallHeap.Remove` | src/common/small_heap.cpp:17-22 | the unlinking of a node, and its mark |
| `SmallHeap.SmallHeap.Merge` | src/common/small_heap.cpp:25-40 | two touching blocks become one; others stay |
| `SmallHeap.SmallHeap.Free` | src/common/small_heap.cpp:42-69 | removes exactly one live block, returns its bytes, keeps every invariant; null and unknown pointers change nothing |
| `SmallHeap.SmallHeap.Alloc` | src/common/small_heap.cpp:71-102 | first fit, exactly: the lowest free block that fits, and null if and only if bytes is 0 or nothing fits, in spite of the early exit on total_free |
| `SmallHeap.SmallHeap.AllocHigh` | src/common/small_heap.cpp:104-139 | the top end of the highest free block that fits, and null under the same condition |
| `SmallHeap.SmallHeap.HighSplit` | include/util/small_heap.h:82 | the lowest live block allocated from the top, or the upper guard |
| `HeapModel.NothingFits` | src/common/small_heap.cpp:73 | more than the free bytes in all fits in no block |
| `HeapModel.InsertedListed` | src/common/small_heap.cpp:5-13 | inserting keeps the tiling and the ordered two-way free list |
| `HeapModel.RemovedListed` | src/common/small_heap.cpp:17-22 | removing keeps them |
| `HeapModel.MergedListed` | src/common/small_heap.cpp:25-40 | merging keeps them |
| `HeapModel.MergedAccount` | src/common/small_heap.cpp:25-40 | merging keeps the live blocks and the sum of free bytes |
| `HeapModel.TakeLow` | src/common/small_heap.cpp:85-93 | cutting, listing and removing in turn gives a sound heap with one more live block |
| `HeapModel.TakeHigh` | src/common/small_heap.cpp:119-124 | cutting at the top gives a sound heap with one more live block |
| `HeapModel.Canonical` | src/common/small_heap.cpp:42-69 | two sound heaps of one pool with the same live blocks have the same free list, down to both links of every node, and the same free bytes |
| `HeapModel.AllFreed` | src/common/small_heap.cpp:42-69 | a sound heap without live blocks is the heap as constructed |
| `SmallHeap.AllocThenFree` | src/common/small_heap.cpp:42-102 | allocating and freeing restores the free list, its links and the byte count |
| `SmallHeap.AllocHighThenFree` | src/common/small_heap.cpp:42-139 | the same from the top |
| `SmallHeap.FreeInAnyOrder` | src/common/small_heap.cpp:42-69 | freeing the same blocks in any two orders gives the same state: live blocks, free list, byte count and the high set |
| `SmallHeap.FreeAll` | src/common/small_heap.cpp:42-69 | freeing every live block gives the single initial block |
| `RingBuffers.RebaseExact` | include/co/sync/ringbuffer.h:34-37 | the rebase leaves an element in its slot if and only if capacity + 1 divides 2^64 |
| `RingBuffers.HoldsPush` | include/co/sync/ringbuffer.h:28-39 | a push puts the element in a slot no other element has |
| `RingBuffers.HoldsRebase` | include/co/sync/ringbuffer.h:34-37 | when capacity + 1 divides 2^64 the rebased counter finds every element |
| `RingBuffers.RingBuffer.Push` | include/co/sync/ringbuffer.h:27-39 | appends unless full, with the exact new counters and slots, as `RingStep` says; correct unless it wraps with capacity + 1 not dividing 2^64 |
| `RingBuffers.RingBuffer.Pop` | include/co/sync/ringbuffer.h:42-51 | takes the oldest element; fails only when empty |
| `RingBuffers.RingBuffer.Size` | include/co/sync/ringbuffer.h:53-55 | the 64-bit difference of the counters is the number of elements |
| `RingBuffers.AnyRun` | include/co/sync/ringbuffer.h:27-76 | answers every run of calls as the pure ring does, and so as a bounded queue on every run of fewer than 2^64 pushes, and on every run if capacity + 1 divides 2^64 |
| `RingBuffers.Refines` | include/co/sync/ringbuffer.h:27-51 | on such runs the pure ring answers as the bounded queue, call by call |
| `RingBuffers.RebaseBreaks` | include/co/sync/ringbuffer.h:34-37 | for every other capacity from 1 up, whatever the slots hold at first, some run of exactly 2^64 pushes is answered otherwise than by the bounded queue: its last call pops an older value than the one just pushed |
| `Channels.Channel.Push` | include/co/sync/locked_channel_impl.h:65-98 | a blocked reader gets the value, else the buffer if it has room, else the call blocks or is refused; the delivery, and the two logs, change accordingly, with the source's notification only when the size becomes 1 |
| `Channels.Channel.Pop` | include/co/sync/locked_channel_impl.h:123-161 | returns the oldest value in the buffer, else that of the first blocked writer, else blocks or is refused; exactly the value returned is logged as delivered to the caller, and a blocked writer refills the buffer |
| `Channels.Channel.Close` | include/co/sync/locked_channel_impl.h:202-212 | wakes everyone, delivers nothing, and leaves the buffer |
| `Channels.Fifo` | include/co/sync/locked_channel_impl.h:65-146 | received values, then the buffer, then the blocked writers' values are the accepted ones in lock order; after close a prefix |
| `Channels.NothingStranded` | include/co/sync/locked_channel_impl.h:73-86 | before close: blocked readers imply an empty buffer and no blocked writer, blocked writers a full buffer, and every possible pair has been delivered |
| `Channels.Determined` | include/co/sync/locked_channel_impl.h:65-146 | the open channel's whole state is determined by the two logs |
| `Channels.TakeBuffered` | include/co/sync/locked_channel_impl.h:130-140 | taking a buffered value and refilling the buffer from the first blocked writer, if any, keeps the invariant |
| `Channels.HandOver` | include/co/sync/locked_channel_impl.h:73-86 | giving a written value to the first blocked reader keeps the invariant |
| `Channels.EdgesSuffice` | include/co/sync/locked_channel_impl.h:78-140 | notifying a reader only when the size becomes 1, and a writer only when it becomes capacity - 1, misses nobody |
| `Channels.AnyRun` | include/co/sync/locked_channel_impl.h:65-212 | over every run of pushes, pops and closes, in terms of calls and outcomes alone: the k-th read not refused gets the k-th write not refused, whether it returns with the value or is blocked first, and while the channel is open every pair has been delivered |
| `Handshake.WaiterKeeps` | include/co/sync/co_condition_variable.h:297-352 | each step of the waiting coroutine keeps the protocol invariant |
| `Handshake.NotifierKeeps` | include/co/sync/co_condition_variable.h:64-110 | each step of the notifier keeps it |
| `Handshake.RunKeeps` | include/co/sync/co_condition_variable.h:64-352 | so does every interleaving |
| `Handshake.AnyRun` | include/co/sync/co_condition_variable.h:64-352 | over all interleavings, with spurious failures of the weak exchanges: never both begin flags, exactly one once a side has returned, one run of the functor, before the waiter returns no_timeout; notify never fails |
| `Handshake.NotifierUndisturbed` | include/co/sync/co_condition_variable.h:85-105 | the notifier's lock is always free when it tries it, the suspend entry is stored and asleep when it wakes it, and the waiter's try always fails |
| `Handshake.Progress` | include/co/sync/co_condition_variable.h:64-352 | in every reachable state but the last some side can make progress |
| `Handshake.Completes` | include/co/sync/co_condition_variable.h:64-352 | from every reachable state both sides can still return |
| `Handshake.SleepsAlone` | include/co/sync/co_condition_variable.h:318-345 | as long as the notifier has not begun, the waiter's own steps, none failing spuriously, take it to sleep: both suspend flags set, the entry stored |
| `Handshake.NotifiesAlone` | include/co/sync/co_condition_variable.h:64-110 | unless the waiter is half asleep the notifier's own steps succeed: they wake a waiter that sleeps, or else set both wakeup flags; the functor has run once |
| `Handshake.ReturnsAlone` | include/co/sync/co_condition_variable.h:297-352 | once the notifier is done the waiter's own steps return, without a timeout |
| `Handshake.SleepAndWake` | include/co/sync/co_condition_variable.h:64-352 | from every state in which neither side has begun: asleep, woken by the notifier alone, returned |
| `SuspendEpochs.MarkKeeps` | src/processor/Processor.cpp:391-392 | taking a number keeps the invariant |
| `SuspendEpochs.SuspendKeeps` | src/processor/Processor.cpp:394-400 | moving the task to the wait queue keeps it |
| `SuspendEpochs.WakesOnce` | src/processor/Processor.cpp:420-432 | a wakeup succeeds if and only if its suspension has not been woken, and then the task is linked in that processor's wait queue |
| `SuspendEpochs.WakeKeeps` | src/processor/Processor.cpp:426-433 | a successful wakeup keeps the invariant |
| `SuspendEpochs.RelinkKeeps` | src/processor/Processor.cpp:306-357 | a task that no processor holds goes, linked in no other queue meanwhile, from a run queue or a new queue to the thief, and from the thief to a new queue: the invariant is kept |
| `SuspendEpochs.RotateKeeps` | src/processor/Processor.cpp:316-327 | putting the running or the next task back at the end of the run queue keeps it |
| `SuspendEpochs.FinishNextKeeps` | src/processor/Processor.cpp:177-188 | choosing the successor of a task that is done keeps it |
| `SuspendEpochs.FinishEraseKeeps` | src/processor/Processor.cpp:189-202 | unlinking the task that is done keeps it |
| `SuspendEpochs.StepKeeps` | src/processor/Processor.cpp:386-442 | every step of every actor, thieves included, keeps it |
| `SuspendEpochs.AnyRun` | src/processor/Processor.cpp:386-442 | over every run of fewer than 2^64 steps of any number of tasks, processors, wakers and thieves: sound, and no entry woken twice |
| `SuspendEpochs.WakeupResult` | src/processor/Processor.cpp:420-440 | the first wakeup of an entry to take the lock returns true and makes the task runnable; any other ends without changing anything, whether it notices before it has the lock or after |
| `SuspendEpochs.WakesUp` | src/processor/Processor.cpp:411-440 | from every reachable state, any waker that has an entry not woken yet can wake its task alone: read the processor, take the lock; then the entry has been woken, and the task is last in the run queue and no more in the wait queue |
| `SuspendEpochs.GoesToSleep` | src/processor/Processor.cpp:386-402 | a running task alone goes to sleep: number up by one, last in the wait queue, out of the run queue, a new entry given out and not woken, and the processor goes on with the task linked next |
| `SuspendEpochs.Turns` | src/processor/Processor.cpp:122-168 | a processor alone runs the tasks of its run queue in turn, in their order, and is idle after the last |
| `SuspendEpochs.SuccessorAt` | src/common/inc/TsQueue.h:243-258 | the task that runs next is the one linked next |
| `SuspendEpochs.Finishes` | src/processor/Processor.cpp:177-202 | a task that is done leaves the run queue for good, and the processor goes on with the one linked next |
| `SuspendEpochs.Starts` | src/processor/Processor.cpp:107-124 | a new task is linked last, and an idle processor begins with the first task |
| `SuspendEpochs.Brings` | src/processor/Processor.cpp:306-357 | a thief alone brings a task that no processor holds to the end of another new queue |
| `SuspendEpochs.Rotated` | src/processor/Processor.cpp:316-327 | a held task that is put back is linked last |
| `SuspendEpochs.StaleEntry` | src/processor/Processor.cpp:404-409 | an entry of an earlier suspension has been woken and never matches again |
| `SuspendEpochs.OneQueue` | src/processor/Processor.cpp:24 | every task is linked at exactly one position of exactly one queue |
| `SuspendEpochs.Suspended` | src/processor/Processor.cpp:386-402 | a suspended task is in its processor's wait queue, its entry given out and not woken |
| `TsQueues.Link` | src/common/inc/TsQueue.h:16-21 | joins two chains |
| `TsQueues.Unlink` | src/common/inc/TsQueue.h:23-28 | cuts a chain in two |
| `TsQueues.Bypass` | src/common/inc/TsQueue.h:162-166 | takes a hook out of a chain |
| `TsQueues.SList.Append` | src/common/inc/TsQueue.h:99-112 | concatenation |
| `TsQueues.SList.Cut` | src/common/inc/TsQueue.h:114-138 | splits off the first n hooks, or all |
| `TsQueues.SList.Erase` | src/common/inc/TsQueue.h:160-170 | removes one hook and keeps the others in order |
| `TsQueues.TSQueue.Push` | src/common/inc/TsQueue.h:418-432 | appends one hook |
| `TsQueues.TSQueue.PushList` | src/common/inc/TsQueue.h:300-315 | appends a list |
| `TsQueues.TSQueue.Pop` | src/common/inc/TsQueue.h:278-292 | takes the first hook |
| `TsQueues.TSQueue.PopFront` | src/common/inc/TsQueue.h:318-341 | takes the first max(1, min(n, size)) hooks of a non-empty queue, in order |
| `TsQueues.TSQueue.PopBack` | src/common/inc/TsQueue.h:350-370 | takes the last max(1, min(n, size)), in order |
| `TsQueues.TSQueue.PopAll` | src/common/inc/TsQueue.h:379-390 | takes all hooks |
| `TsQueues.TSQueue.Erase` | src/common/inc/TsQueue.h:398-416 | removes one hook, or refuses if it is marked as another queue's |
| `TsQueues.Walk` | src/common/inc/TsQueue.h:321-331 | the forward loop counts exactly the hooks to take |
| `TsQueues.WalkBack` | src/common/inc/TsQueue.h:353-365 | so does the backward loop |
| `TsQueues.CutThenAppend` | src/common/inc/TsQueue.h:99-138 | cut followed by append is the identity |
| `TsQueues.PopAllThenPush` | src/common/inc/TsQueue.h:307-390 | pop_all followed by push restores the queue |
| `Stealing.Processor.Steal` | src/processor/Processor.cpp:306-357 | divides the queues into stolen and kept exactly, keeps order, never takes the running or the next task |
| `LinkedStealing.Processor.Steal` | src/processor/Processor.cpp:306-357 | the same division on the linked queues, by erasing, popping, pushing and appending hooks: the lists stay well linked, and no hook is lost or doubled |
| `LinkedStealing.Processor.TakeSpare` | src/processor/Processor.cpp:316-327 | unlinking the held tasks, popping from the end and linking them again takes a tail of the spare hooks, and leaves the held ones behind the others |
| `LinkedStealing.TakenOut` | src/common/inc/TsQueue.h:398-416 | erasing a hook from a queue leaves the sequence without it |
| `Stealing.Conserves` | src/processor/Processor.cpp:306-357 | no task is lost or doubled by a steal, and the held ones stay in the run queue |
| `Stealing.Divided` | src/processor/Processor.cpp:306-357 | what was popped from each queue makes up the division |
| `Stealing.AtMost` | src/processor/Processor.cpp:308-330 | a steal of n > 0 gives at most n tasks, in spite of the truncation to 32 bits and of pop_back(0) taking one |
| `Stealing.AsMany` | src/processor/Processor.cpp:308-357 | it gives as many as were asked for if there are so many, at least one if there is any, and everything if everything is stolen |
| `Stealing.Moves` | src/processor/Processor.cpp:306-357 | the end of the new queue first, then the end of the run queue without the held tasks, which are last in it afterwards |
| `Stealing.RightAfter` | src/processor/Processor.cpp:316-327 | a held task is not among the stolen ones and stays marked right |
| `Dispatching.Scheduler.StealBlocked` | src/scheduler/Scheduler.cpp:316-321 | collects, in order, all tasks of the blocked processors but their running and next ones, which alone stay |
| `Dispatching.Scheduler.Deal` | src/scheduler/Scheduler.cpp:336-347 | equal shares in order, the rest, smaller than the group, to the first; the local list ends empty |
| `Dispatching.Scheduler.DealToLeast` | src/scheduler/Scheduler.cpp:322-354 | the least loaded group, and nobody else, gets the tasks, in exact shares, and is entered anew; no task is lost |
| `Dispatching.Scheduler.Reenter` | src/scheduler/Scheduler.cpp:330-353 | the load map stays sorted; the group is entered with its new loads and every other entry is kept |
| `Dispatching.Scheduler.Feed` | src/scheduler/Scheduler.cpp:370-388 | the steal, its exact division, and the dealing to the idle group in exact shares |
| `Dispatching.Scheduler.FeedIdle` | src/scheduler/Scheduler.cpp:358-388 | if some processor is idle, not all are, and the busiest has two tasks: it gives not more than half of its tasks and not more than 1024 for each idle one, but as many as that and its held tasks permit; otherwise nothing changes; and nothing is lost |
| `Dispatching.FedHelps` | src/scheduler/Scheduler.cpp:358-373 | these bounds, from the amount asked for |
| `Dispatching.Everything` | src/scheduler/Scheduler.cpp:319 | a steal of everything yields all tasks but the held ones, run queue first |
| `Dispatching.Scheduler.Rebalance` | src/scheduler/Scheduler.cpp:316-388 | one round, exactly: the freed tasks are dealt to the least loaded group in equal shares, then half of the busiest processor's tasks, at most 1024 for each idle one, to the idle ones; the tasks of all processors together are conserved, none is left on its way, no running or next task moves, and a blocked processor that is not active keeps these alone |
| `Dispatching.Insert` | src/scheduler/Scheduler.cpp:330-344 | insertion in the load map keeps it sorted and adds exactly one entry |
| `Dispatching.DealtElsewhere` | src/scheduler/Scheduler.cpp:336-347 | a processor outside the group gets nothing |
| `Dispatching.ShareFits` | src/scheduler/Scheduler.cpp:325-338 | a share is never larger than what is left |
| `Dispatching.ShareSize` | src/scheduler/Scheduler.cpp:325-338 | a share is the group's equal part, or one task, and what is left is the remainder |
| `Dispatching.DealtGets` | src/scheduler/Scheduler.cpp:336-347 | the k-th processor of the group gets the k-th share at the end of its new queue, and the first one also what is left |
| `Dispatching.RestFits` | src/scheduler/Scheduler.cpp:336-347 | what is left after the shares is smaller than the group |
| `ReaderWriterLocks.ReaderWriterLock.LockRead` | src/core/util/locks.cpp:3-12 | a reader enters if and only if no writer holds the lock, else sleeps |
| `ReaderWriterLocks.ReaderWriterLock.UnlockRead` | src/core/util/locks.cpp:14-22 | the last reader wakes one waiting writer |
| `ReaderWriterLocks.ReaderWriterLock.LockWrite` | src/core/util/locks.cpp:24-34 | a writer enters if and only if nobody holds the lock, else sleeps |
| `ReaderWriterLocks.ReaderWriterLock.UnlockWrite` | src/core/util/locks.cpp:36-44 | wakes one waiting writer and every sleeping reader |
| `ReaderWriterLocks.Shift` | src/core/util/locks.cpp:3-44 | moving a thread between phases changes exactly two counts |
| `ReaderWriterLocks.Exclusion` | src/core/util/locks.cpp:3-44 | a writer holds the lock alone |
| `ReaderWriterLocks.SleepersHaveCause` | src/core/util/locks.cpp:3-44 | a sleeping reader has a writer holding the lock; a sleeping writer has a holder or an awake waiting writer |
| `ReaderWriterLocks.StepKeeps` | src/core/util/locks.cpp:3-44 | every operation of every thread keeps counters, mutual exclusion, and that nobody sleeps in vain |
| `ReaderWriterLocks.AnyRun` | src/core/util/locks.cpp:3-44 | at every moment of every trace of any operations of any number of threads, with barging and spurious wakeups, the invariant holds |
| `ReaderWriterLocks.NoDeadlock` | src/core/util/locks.cpp:3-44 | unless all threads have left, one of them can do something that brings the end nearer, whichever writer is woken by it |
| `ReaderWriterLocks.Play` | src/core/util/locks.cpp:3-44 | the lock, driven by any operations, goes through such a trace |
| `WeakRef.StepKeeps` | src/common/inc/LangSupport.h:80-134 | every step keeps: both counters are the sums of the holders' shares |
| `WeakRef.RunKeeps` | src/common/inc/LangSupport.h:80-134 | so does every interleaving |
| `WeakRef.DeadStaysDead` | src/common/inc/LangSupport.h:102-112 | a strong count of zero never becomes positive again |
| `WeakRef.AnyRun` | src/common/inc/LangSupport.h:80-134 | the object is deleted at most once and the block at most once, the block after the object and exactly when no holder is left |
| `WeakRef.Releases` | src/common/inc/LangSupport.h:80-134 | from every reachable state everything can still be released; then object and block have been deleted exactly once each |
| `WeakRef.CopyGives` | src/common/inc/LangSupport.h:54-90 | a copy adds one pointer of its own kind, and one to its counter |
| `WeakRef.DropTakes` | src/common/inc/LangSupport.h:59-134 | a dropped pointer is gone, and one is taken from its counter; whoever drops the last strong one runs the deleter once |
| `WeakRef.UpgradeAlone` | src/common/inc/LangSupport.h:102-112 | an upgrade that nobody disturbs, of an object that is alive, ends in one more strong pointer |
| `WeakRef.NothingDangles` | src/common/inc/LangSupport.h:296-302 | no step touches a deleted object or block |
| `WeakRef.UpgradeResult` | src/common/inc/LangSupport.h:102-112 | an upgrade fails only when no strong pointer is left, and succeeds only while the object lives |
| `IntMath.FloorLog2` | include/util/intmath.h:200-220 | the greatest power of two not above the value, for 1, 2, 4 and 8 byte types |
| `IntMath.CeilLog2` | include/util/intmath.h:222-231 | the least power of two not below the value |
| `IntMath.Smear` | include/util/intmath.h:120-124 | or-ing a word with itself shifted doubles the run of set bits below the highest |
| `IntMath.AllOnes` | include/util/intmath.h:120-125 | a word with exactly its low n bits set is 2^n - 1 |
| `IntMath.NextPow2` | include/util/intmath.h:117-138 | 2 to the exponent of ceilLog2, modulo the word; 1 for 0 |
| `IntMath.CeilPower` | include/util/intmath.h:117-231 | NextPow2 is 2 to the ceilLog2 exactly up to the top power of the word, and zero beyond |
| `IntMath.TopExponent` | include/util/intmath.h:117-138 | the exponent is the width of the word only beyond the top power |
| `IntMath.Power` | include/util/intmath.h:184-198 | n^e modulo 2^64, exact whenever it fits |
| `IntMath.PowLaws` | include/util/intmath.h:184-198 | the power is fixed by its value at one and by exponents that add up |
| `IntMath.PowersOfTwo` | include/util/intmath.h:117-138 | the powers of two of the bit functions are these powers |
| `IntMath.PowerStep` | include/util/intmath.h:190-196 | one round of squaring keeps the product modulo the word |

## Left out

- Timer: `cancel`, the element pool, reference counts, `NextTrigger`, changing the precision while timers wait, and starting timers from callbacks or other threads during a scan; the point is published before the slots are scanned, so the wheel theorems need insertions between scans.
- WheelEarly.NoneEarly: is stated for ends up to where the scan resumes after its wrong step; `EarlyFires` is for all ends, with room for the deadline below the end of the clock.
- WheelTimer.EarlyExactly: is stated for ends up to where the scan resumes after its wrong step. For later ends `RunOnce` bounds which timers fire early, and how early, but does not say which of the slots of levels 4 and 5 are fired.
- Small heap: the default-constructed heap and one of length 0, and the fields of a node before it is linked, which the code leaves to their defaults and writes before reading.
- Condition variable: deadlines, native threads, the non-blocking capacity and conditional queueing. The model is one entry, its waiter and the one notifier that took it from the queue.
- Wait queue: the check and position passes; the queues of the channel are plain first-in first-out lists of entries.
- Channel: return values of blocked calls that race with `Close`. A writer whose value was delivered may still be told false, because the flag is read after waking.
- Channel: `CASChannelImpl`, which the default channel never selects.
- SuspendEpochs.AnyRun: does not model the wrap of the 64-bit suspend number, because no run reaches it; the freeing of a task that weak pointers still name is covered by `WeakRef`.
- Processor: context switching, the packet ring of `AddTask`, the quota for new tasks and the condition a processor waits on. Nothing is claimed about when tasks in the new queue run.
- LinkedStealing.Processor.Steal: does not model reference counts of tasks, nor the attempts to erase a held task from the list popped from the new queue, which find no mark.
- Stealing.Processor.Steal: works on queues as sequences of tasks; `LinkedStealing` proves the same division of the linked hooks. The dispatcher is modelled on the sequences.
- LinkedStealing.Processor.AddTask: does not model the notification of a waiting processor.
- Dispatching.Scheduler.Rebalance: collecting loads, marking and activating processors, and starting threads come before it; it takes the blocked processors and the load map as parameters.
- Reader/writer lock: fairness; a stream of readers can keep a writer waiting, as in the code.
- Weak memory order: every atomic access is one sequentially consistent step.
- Intrusive lists: the debug-only clearing and setting of marks, iterators, and the spin locks around each operation.
- Hardware queues, signals, event pools, IPC maps, headers of other projects, flags, clocks, debug printing: foreign calls or thin wrappers.
