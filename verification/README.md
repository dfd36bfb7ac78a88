# Verified models of kernel mechanisms

This project models mechanisms of the Zephyr kernel, and of two of its build scripts, in
Dafny and proves what they promise over every input, every interleaving and every run.
Where the original changes state step by step, a class with the same state does so, and
its methods are proved to take the steps of a specification. The specifications carry the
whole-run theorems. Beside them, laws say what the operations answer, what they change and
what they leave alone, without naming the functions the operations are made of.

| files | mechanism |
|---|---|
| `TimeoutSpec`, `TimeoutQueue` | the timeout queue, the announce loop and periodic timers |
| `PipeSpec`, `Pipes` | pipes: ring buffer, waiting readers and writers |
| `WorkSpec`, `WorkLaws`, `WorkQueues` | work queues: submit, flush, cancel, drain, the queue thread |
| `PagingSpec`, `PagingLaws`, `Paging` | demand paging: page frames, page faults, eviction, pinning |
| `RegionSpec`, `Regions` | the allocator of virtual address regions and its bit array |
| `MutexSpec`, `Mutexes` | mutexes with priority inheritance |
| `MutexChain`, `MutexLedger` | the same when owners wait for other mutexes, and the count of a mutex |
| `SchedSpec`, `SchedLaws`, `Scheduler` | run queue and wait queues on one processor |
| `PtableSpec`, `PtableLaws`, `Ptables` | the builder of x86 page tables |
| `MsgqSpec`, `MsgQueues` | message queues |
| `PollSpec`, `PollLaws`, `Polling` | polling on several objects |
| `ModuleSort` | the order of modules by their dependencies |
| `Common` | definitions that several modules share |

`dafny verify dfyconfig.toml` checks the whole project.

## How to read the models

Sections that the kernel runs under a lock are single steps. What the kernel asks of code
outside a model is a parameter: the ticks that the hardware reports, what callbacks do
while the timeout lock is free, which page the eviction algorithm picks, where the backing
store puts a page and whether it keeps a copy of a page that comes back in. A wait queue
is a sequence of threads. A poll call finds its events not ready, as its caller has
to reset them before it polls again. History (what was fired, delivered, accepted or finished)
is part of a state only to state theorems over runs.

The backing store is held to one contract: the BACKED flag after a page was brought in
says exactly whether the store keeps a current copy, and a location it hands out belongs
to that copy or is unused. The kernel itself does not clear the flag when it reuses a
frame (kernel/mmu.c:1594-1602), so a store that keeps copies has to clear it as well as
set it. During a page fault the store must have room for the victim, as the kernel asserts
(kernel/mmu.c:1575-1576).

## What does not hold

Some properties that one expects are false of the code. Each has a concrete case and the
exact condition under which the property does hold.

- Timers drift. When a handler runs after the last announced tick was used up, the elapsed
  time is read from the hardware again (kernel/timeout.c:62-81), and a periodic timer is
  re-armed late: `DriftHappens`, `RearmedOnGridIff`, `NoDriftIff`, `TimersStayOnGrid`.
- Of several threads that cancel one work item and wait, only the first is released
  (kernel/work.c:140-147), although the comment there expects several:
  `SecondCancellerIsStranded`, `StepStrandsIff`.
- Nested mutexes invert priorities. Releasing an inner mutex, or a timeout on one mutex,
  sets the owner's priority without regard to the waiters of its other mutexes:
  `NestingInverts`, `StepInvertsIff`.
- Loans are not passed on. An owner that waits for another mutex is raised, but keeps its
  place in that wait queue (kernel/sched.c:739-783), and the owner it waits for is not
  raised: `ChainInverts`, `NextBreaksIff`.
- A priority ceiling can make an owner worse than it was on its own. This happens when a
  wait ends while others still wait and the owner is better than the ceiling
  (kernel/mutex.c:176-187); waiting itself never does it: `CeilingDemotes`,
  `AdjustDemotesIff`, `WaitNeverDemotes`, `StepDemotesIff`.
- A new priority does not move a waiting thread in its wait queue (kernel/sched.c:739-783), so
  that a wake can pick a worse thread than another that waits: `WorseThreadIsWoken`,
  `StepUnsortsIff`.
- A raise wakes only the first of several threads that poll an object (kernel/poll.c:467-478);
  the others wait on although the condition holds: `SecondPollerIsOverlooked`,
  `StepOverlooksIff`.
- Unmapping a page that is in memory with a copy in the backing store never frees the copy's
  location (kernel/mmu.c:713-751): `CopiedIsReached`, `UnmapLosesCopy`, `LeaksIff`.
- Mapping a region is not all or nothing. A page that fails leaves the pages before it
  mapped (kernel/mmu.c:619-630): `PartialRegionStays`, `MapAnonRegion`.
- The allocator of address regions can refuse a call although an aligned region is free,
  because it looks for a run long enough for any position (kernel/mmu.c:300-309):
  `AlignedPageIsRefused`, `RefusedIff`, `PagesNeverRefused`.
- With direct mappings, freeing a region that reaches beyond the allowed part on both sides
  frees nothing of it (kernel/mmu.c:272-275): `DirectFreeOverlooks`,
  `DirectFreeOverlooksIff`.
- A dependency that a module lists twice makes the module sort fail, because each module
  that is done removes its name only once (scripts/zephyr_module.py:747-751):
  `RepetitionFails`, `Sort`.

Three smaller observations. The tick type is unsigned with 32-bit ticks, so the test at
kernel/timer.c:169 never holds there. Purging a message queue also wakes threads that wait
to read (kernel/msg_q.c:386-391), although its comment speaks of writers. The check for an
address below the allowed part (kernel/mmu.c:362-365), which passes a size in bytes where
a number of bits is meant, can never be reached: `RegionAlloc` proves the address is
always inside.

## Model

| member | source | states |
|---|---|---|
| TimeoutSpec.InsertAt | kernel/timeout.c:113-136 | A new timeout lands behind every timeout of the same or an earlier expiry; no other timeout changes its place relative to the rest. |
| TimeoutSpec.OpKeeps | kernel/timeout.c:99-156 | Adding, aborting, starting and stopping keep the list sorted, every id linked at most once and the record of added, fired and dropped timeouts balanced; every timeout that is neither dropped nor fired stays linked with its expiry and keeps its order to the others. |
| TimeoutSpec.HandlerKeeps | kernel/timer.c:27-78 | The same for the handler that re-arms a periodic timer from inside an announcement. |
| TimeoutSpec.AnnounceReachesRest | kernel/timeout.c:210-254 | The announce loop terminates by the pair of ticks left and timeouts due now. It ends exactly n ticks later with nothing due left behind, whatever the callbacks add, abort or restart, and everything it fires expires inside the window. |
| TimeoutSpec.StepKeepsRest | kernel/timeout.c:210-254 | Between announcements nothing that is linked is ever due. |
| TimeoutSpec.NothingMissedOrEarly | kernel/timeout.c:99-254 | From boot, over every run: timeouts fire in expiry order and never early, every timeout that came due has fired or was dropped, and added equals fired plus dropped plus linked. |
| TimeoutSpec.LinkedUntilFiredOrDropped | kernel/timeout.c:99-254 | Between any two moments of a run from boot, a linked timeout that was neither fired nor dropped is still linked with the same expiry, and two such timeouts are in the same order. |
| TimeoutSpec.EqualExpiriesKeepOrder | kernel/timeout.c:113-136 | After every run from boot, linked timeouts of equal expiry are in the order in which they were added. |
| TimeoutSpec.BatchingIsInvisible | kernel/timeout.c:210-254 | Grouping the same ticks into different announcements fires the same timeouts at the same ticks in the same order and ends in the same state, as long as the hardware reports no ticks beyond those announced. |
| TimeoutSpec.ExpiryFormula | kernel/timer.c:27-78 | Expiry k of a timer falls k strides of max(1, period) after the first, plus the lag accumulated so far. |
| TimeoutSpec.NoDriftIff | kernel/timer.c:27-78 | A timer stays on its grid if and only if no expiry but possibly the last was handled while the hardware was ahead. |
| TimeoutSpec.TimersStayOnGrid | kernel/timer.c:27-78 | After every run from boot whose handlers all ran while the hardware reported no extra ticks, expiry k of every timer falls exactly k strides after its first. |
| TimeoutSpec.RearmedOnGridIff | kernel/timer.c:55-78 | A re-armed timer is due exactly one stride after the tick being handled if and only if ticks remain to be announced or the hardware reports none. |
| TimeoutSpec.FormsAgree | kernel/timer.c:55-78 | Absolute re-arming (64-bit ticks) and relative re-arming choose the same expiry. |
| TimeoutSpec.DriftHappens | kernel/timeout.c:62-81 | A run from boot: two timers due at the same tick, of which the second slips off its grid. |
| TimeoutSpec.AddedTimeout | kernel/timeout.c:99-142 | A timeout that is added is linked, due its ticks and one more after the current tick and the ticks the hardware counts beyond it, or at its absolute tick if that is still ahead and at the next tick otherwise; forever, and a timeout that is linked already, change nothing; every other timeout stays as it is. |
| TimeoutSpec.AbortedTimeout | kernel/timeout.c:144-156 | After an abort the timeout is not linked and is recorded as dropped exactly if it was; all others stay as they are. |
| TimeoutSpec.StartedTimer | kernel/timer.c:139-181 | A started timer is linked once, due after its duration: relative durations count from the last tick with 64-bit ticks and at least one tick, from the next one with 32-bit ticks, absolute ones fall on their tick or the next. Its period is the one given, its status is 0, every other timer and linked timeout is unchanged, and a start without a duration changes nothing. |
| TimeoutSpec.HandledTimer | kernel/timer.c:27-81 | The handler of a timer that was restarted meanwhile does nothing. Otherwise it counts one expiry at the current tick; a timer without period stays off the list, and a periodic one is due one period later, at least one tick, plus the ticks the hardware is ahead. |
| TimeoutSpec.StatusIsRead | kernel/timer.c:227-237 | Reading the status sets it to 0 and changes nothing else. |
| TimeoutSpec.TimersCount | kernel/timer.c:27-237 | From boot, over every run: the status of a timer is the number of its expiries since it was last read or started, and a timer without period expires at most once after each start and is then not linked. |
| TimeoutSpec.TurnOfLoop | kernel/timeout.c:220-243 | A turn of the announce loop takes the next callback of the script; it runs at the tick of the first timeout, which has left the list, and before the ticks of this turn are used up. |
| TimeoutSpec.EarlierFirst | kernel/timeout.c:220-243 | What is done in a callback before the handler happens in the state the fired timeout left behind. |
| TimeoutSpec.LaterLast | kernel/timeout.c:220-243 | What is done after the handler happens in the state the handler left behind. |
| TimeoutSpec.HandlerBetween | kernel/timeout.c:220-243 | With nothing else going on a callback is the handler alone. |
| TimeoutQueue.ScheduleConcat | kernel/timeout.c:113-136 | A delta list means the expiries of its first part followed by those of its second part counted from the end of the first. |
| TimeoutQueue.InsertDelta | kernel/timeout.c:126-134 | Splitting the successor's delta inserts one expiry and moves no other. |
| TimeoutQueue.RemoveDelta | kernel/timeout.c:53-60 | Handing a removed timeout's delta to its successor moves no other expiry. |
| TimeoutQueue.Queue.RemoveTimeout | kernel/timeout.c:53-60 | The delta list afterwards means the schedule without that timeout. |
| TimeoutQueue.Queue.AddTimeout | kernel/timeout.c:99-142 | The loop over deltas, with forever, relative and absolute timeouts, refines ordered insertion of an absolute expiry. |
| TimeoutQueue.Queue.AbortTimeout | kernel/timeout.c:144-156 | Removes exactly the given timeout and reports -EINVAL exactly when it was not linked. |
| TimeoutQueue.Queue.TimeoutRem | kernel/timeout.c:159-171 | The sum of deltas up to a timeout is its expiry minus the current tick. |
| TimeoutQueue.Queue.TimeoutExpires | kernel/timeout.c:186-198 | Returns the expiry fixed when the timeout was added, or the current tick for a timeout that is not linked. |
| TimeoutQueue.Queue.NextTimeout | kernel/timeout.c:83-97 | The ticks to the first expiry, cut to the range from 0 to the largest 32-bit value. |
| TimeoutQueue.Queue.TimerStart | kernel/timer.c:139-181 | A start with a duration leaves the timer linked once with the due tick that its duration, relative or absolute, asks for, with its new period, status 0 and no expiry counted; no other timer or linked timeout changes. A start without a duration changes nothing. |
| TimeoutQueue.Queue.TimerExpiration | kernel/timer.c:27-78 | The handler counts the expiry and re-arms a periodic timer as the specification says. |
| TimeoutQueue.Queue.TimerStatusGet | kernel/timer.c:227-237 | Returns the number of expiries since the last read or start, and starts the count anew. |
| TimeoutQueue.Queue.PopFirst | kernel/timeout.c:220-238 | The first due timeout leaves the delta list and the current tick becomes its expiry. |
| TimeoutQueue.Queue.UseUp | kernel/timeout.c:245-250 | The ticks left at the end come off the first delta, so that no expiry moves. |
| TimeoutQueue.Queue.FireFirst | kernel/timeout.c:220-243 | One turn of the loop on deltas fires the first due timeout with the current tick equal to its expiry. |
| TimeoutQueue.Queue.Announce | kernel/timeout.c:210-254 | The loop over deltas refines the specification: it ends n ticks later with nothing due, for every script of callbacks. |
| PipeSpec.GetTakesStreamPrefix | kernel/pipes.c:531-697 | A get that is not refused hands over exactly the first k bytes of ring contents plus pending writers' bytes, leaves exactly the rest, and a blocked reader queues with what it still wants. |
| PipeSpec.RefillStream | kernel/pipes.c:622-650 | Refilling the ring from pending writers moves the border between ring and writers and changes nothing of the stream; afterwards the ring is full or no writer has bytes left. |
| PipeSpec.PutFillsCapacity | kernel/pipes.c:380-513 | A put fills waiting readers first and the ring next, up to their joint capacity; a blocked writer queues with exactly the bytes that did not fit. |
| PipeSpec.PourSplit | kernel/pipes.c:326-378 | Writing in two pieces is writing the whole. |
| PipeSpec.PendBacklog | kernel/pipes.c:414-493 | Queuing a writer by priority puts its bytes into the stream at its place among the waiting writers. |
| PipeSpec.WalkEnough | kernel/pipes.c:222-260 | The waiters collected for a transfer hold at least the requested bytes, or all waiters were collected. |
| PipeSpec.OpKeepsInv | kernel/pipes.c:380-697 | Every put, get and timeout keeps: a pending reader implies an empty ring and no writer with bytes left, a writer with bytes left implies a full ring and no pending reader. |
| PipeSpec.EveryRunIsAStream | kernel/pipes.c:380-697 | Over every run of puts, gets and timeouts, what was delivered is a prefix of what was taken in and the ring holds exactly the difference. |
| PipeSpec.PourShares | kernel/pipes.c:326-378 | A put gives each waiting reader the bytes behind what the readers before it want; exactly the readers that then have all they want leave, and the others wait on in order with their share added. |
| PipeSpec.EveryRunIsAccounted | kernel/pipes.c:380-697 | Over every run, what a blocked call has transferred and what it still has to adds up to what it asked for, which is never less than its minimum. |
| PipeSpec.CodeNowIs | kernel/pipes.c:296-320 | A blocked call whose wait ends succeeds exactly when it has transferred its minimum, and -EAGAIN otherwise comes with the count. |
| PipeSpec.PutAnswers | kernel/pipes.c:380-513 | For every pipe: -EINVAL exactly for a minimum above the length, -EIO exactly for a minimum out of reach without waiting, blocked exactly if the caller may wait and has neither everything nor a minimum that it asked for, success with the count otherwise; a refusal changes nothing. |
| PipeSpec.GetAnswers | kernel/pipes.c:531-697 | The same table for a get, with what the ring and the waiting writers hold; a call that does not succeed returns no bytes. |
| PipeSpec.BlockedPut | kernel/pipes.c:414-493 | A put that blocks waits with exactly the bytes that did not fit, before the first writer of worse priority; the other writers stay as they are. |
| PipeSpec.BlockedGet | kernel/pipes.c:531-697 | A get that blocks waits with what it has got so far, before the first reader of worse priority; the other readers stay as they are. |
| PipeSpec.OpTransfers | kernel/pipes.c:380-697 | What each operation takes in and hands out: a refused call nothing, a put what readers and ring can take with the readers first, a get the first bytes of ring and writers, a timeout nothing. |
| PipeSpec.WriterSlotIs | kernel/include/priority_q.h:208-222 | A writer waits behind every writer of equal or better priority and before every one of worse priority. |
| PipeSpec.ReaderSlotIs | kernel/include/priority_q.h:208-222 | The same for readers. |
| PipeSpec.EveryRunIsOrdered | kernel/pipes.c:380-697 | Over every run both wait queues are in priority order. |
| PipeSpec.WalkLeast | kernel/pipes.c:222-260 | No shorter prefix of the waiting writers holds the requested bytes. |
| PipeSpec.WalkReadersLeast | kernel/pipes.c:222-260 | No shorter prefix of the waiting readers wants the bytes. |
| PipeSpec.DrainShares | kernel/pipes.c:622-650 | Refilling takes from each waiting writer exactly what those before it could not give, changes nothing else about it, and takes nobody off the queue. |
| PipeSpec.SweepIs | kernel/pipes.c:564-620 | A get drains the writers it visits; exactly those left with nothing leave, the others keep their order. |
| PipeSpec.GetDrainsWriters | kernel/pipes.c:531-650 | What a get leaves of the writers: what the ring lacks comes from the visited ones, then the rest of them fill the ring. |
| PipeSpec.ReaderLeaves | kernel/pipes.c:296-320 | A timeout takes the waiting reader, and nobody else, off the queue. |
| PipeSpec.WriterLeaves | kernel/pipes.c:296-320 | The same for a waiting writer. |
| PipeSpec.ExpireKeepsRest | kernel/pipes.c:296-320 | A timeout leaves ring, history and the other queue alone. |
| Pipes.RingAppend | kernel/pipes.c:202-215 | Copying at the write index appends to the bytes the ring means. |
| Pipes.RingDrop | kernel/pipes.c:564-614 | Advancing the read index drops the first bytes the ring means. |
| Pipes.KPipe.PopulateReaders | kernel/pipes.c:222-260 | Collects the shortest prefix of waiting readers that wants the bytes, and how much it wants. |
| Pipes.KPipe.PopulateWriters | kernel/pipes.c:222-260 | Collects the shortest prefix of waiting writers that holds the bytes, and how much it holds. |
| Pipes.KPipe.StoreBytes | kernel/pipes.c:202-215 | Stores bytes behind the ring contents and wraps the write index. |
| Pipes.KPipe.ServeReader | kernel/pipes.c:326-378 | Gives bytes to the first waiting reader, which leaves the queue exactly when it has all it wants. |
| Pipes.KPipe.CopyToReader | kernel/pipes.c:326-378 | One turn towards a reader transfers a prefix of the data as a whole write of that prefix would. |
| Pipes.KPipe.CopyToRing | kernel/pipes.c:326-378 | One turn towards the ring does the same, over at most two stretches. |
| Pipes.KPipe.PipeWrite | kernel/pipes.c:326-378 | Emptying source descriptors in order into destination descriptors equals pouring the sources' bytes; the count is the smaller of what there is and what fits, and a drained source stays in its list. |
| Pipes.KPipe.Put | kernel/pipes.c:380-513 | Blocks exactly if the caller may wait and has neither everything nor a minimum that it asked for; each refusal has its exact condition and changes nothing; success comes with the number of bytes that readers and ring could take. The state is the one of the specification. |
| Pipes.KPipe.TakeSpan | kernel/pipes.c:564-614 | A contiguous stretch leaves the ring from its front. |
| Pipes.KPipe.TakeUpTo | kernel/pipes.c:564-614 | At most a given number of bytes of one stretch leave the ring from its front. |
| Pipes.KPipe.TakeSpans | kernel/pipes.c:564-614 | The loop over up to two stretches takes the first bytes out of the ring. |
| Pipes.KPipe.TakeRing | kernel/pipes.c:564-614 | Up to two stretches leave the ring in order. |
| Pipes.KPipe.TakeWriters | kernel/pipes.c:564-620 | The collected writers are emptied in order; exactly those left with nothing leave the queue. |
| Pipes.KPipe.RefillRing | kernel/pipes.c:622-650 | Waiting writers refill the ring as the specification says. |
| Pipes.KPipe.CopyOut | kernel/pipes.c:564-620 | The caller receives ring bytes first and writers' bytes next. |
| Pipes.KPipe.Get | kernel/pipes.c:531-697 | The same table of answers for what the ring and the waiting writers hold, with the state and bytes of the specification. |
| Pipes.KPipe.WaiterExpires | kernel/pipes.c:493-513 | A waiter that times out leaves its queue, takes its undelivered bytes with it and gets the code and count of its transfer so far. |
| Pipes.KPipe.ReadAvail | kernel/pipes.c:739-764 | Computed from the indices or from bytes_used, the result is the number of bytes in the ring. |
| Pipes.KPipe.WriteAvail | kernel/pipes.c:776-801 | The result is the size minus the number of bytes in the ring. |
| Pipes.KPipe.RunAll | kernel/pipes.c:380-801 | Every sequence of calls ends in the state to which the specification runs. |
| WorkSpec.StepKeeps | kernel/work.c:125-372 | Every locked section keeps the invariant of items, queues, flushers and cancellers. |
| WorkSpec.ItemSafety | kernel/work.c:218-372 | Over every run with any number of queues: an item is QUEUED exactly when it is on the list of its own queue, once, and on no other; no two queues handle it; it is RUNNING exactly while some queue handles it; CANCELING implies RUNNING and not QUEUED. |
| WorkSpec.FlushIsHonoured | kernel/work.c:187-209 | For any interleaving before and after: when a flush is released, every instance that was queued or running at the call has finished or been cancelled. |
| WorkSpec.QueueCanGoOn | kernel/work.c:616-716 | The queue of a flush that is not released can always take its next turn. |
| WorkSpec.TurnsDecrease | kernel/work.c:187-209 | Each turn of its own queue brings a flush closer to its release, and no other step pushes it back, except that a later flush may by two turns. |
| WorkSpec.FlushIsReleased | kernel/work.c:187-209 | For any interleaving before and after: a flush is released, with the instances it waits for over, once its queue has taken the turns left at the call and two more for each later flush. |
| WorkSpec.CancelKeeps | kernel/work.c:508-527 | A cancelled item is off its list, and is being cancelled exactly when its handler runs. |
| WorkSpec.RunKeeps | kernel/work.c:616-716 | The invariant holds over every run. |
| WorkSpec.FinishStrandsIff | kernel/work.c:125-148 | A completion leaves no canceller waiting for an idle item if and only if at most one canceller waits for that item. |
| WorkSpec.StepStrandsIff | kernel/work.c:125-148 | The completion of an item with two or more waiting cancellers is the only step that strands one. |
| WorkSpec.HandlingIsReached | kernel/work.c:616-716 | A run from boot that reaches a handler in progress. |
| WorkSpec.SecondCancellerIsStranded | kernel/work.c:140-147 | From there, two synchronous cancels and the completion leave the second canceller waiting for an idle item. |
| WorkLaws.SubmitIs | kernel/work.c:267-372 | Every answer of a submission as a condition on the flags: -EBUSY while cancelling, 0 while queued, -EINVAL without a queue, -ENODEV before the queue is started, -EBUSY exactly if the queue drains and the caller is not its own thread or is plugged and not draining, else 2 for a running item and 1 for an idle one. An accepted item is last on the queue with a new instance number, and nothing else changes; otherwise nothing changes. |
| WorkLaws.BootIsExact | kernel/work.c:76-77 | Before any submission there is nothing to account for. |
| WorkLaws.OpenQueueAccepts | kernel/work.c:267-299 | An idle item is always accepted by a started queue that neither drains nor is plugged. |
| WorkLaws.EntersBySubmit | kernel/work.c:267-299 | An item of a user gets onto a queue only by a submission, while the queue drains only by its own thread, and never while it is plugged and not draining. |
| WorkLaws.PluggedKeepsOut | kernel/work.c:773-822 | Over every run without unplug and drain, no item of a user gets onto a plugged queue. |
| WorkLaws.TakeIs | kernel/work.c:627-685 | The queue thread takes the item that has waited longest, which is then running and no longer queued; an empty queue stops draining; nothing else changes. |
| WorkLaws.FinishIs | kernel/work.c:695-707 | After the handler the item is neither running nor cancelling and still queued if it was submitted meanwhile; its instance is over, a flusher releases its flush, and nothing else changes. |
| WorkLaws.FinishReleasesFirst | kernel/work.c:125-148 | The completion of a cancelled item releases the canceller that has waited longest, and only that one. |
| WorkLaws.CancelIs | kernel/work.c:508-527 | A cancelled item is on no queue; it is cancelling exactly if it runs and otherwise idle; its queued instance is over, and nothing else changes. |
| WorkLaws.CancelSyncIs | kernel/work.c:544-610 | A synchronous cancel is a cancel after which the caller waits, last in line, exactly if the item runs. |
| WorkLaws.FlushIs | kernel/work.c:187-209 | The flusher stands directly behind a queued item, in front for one that only runs, waits for exactly the instances of the item, and nothing else changes; the flush of an idle item does nothing. |
| WorkLaws.DrainIs | kernel/work.c:773-803 | A drain sets the flag unless the queue has nothing to do and is not to be plugged, and touches nothing but the two flags of that queue. |
| WorkLaws.UnplugIs | kernel/work.c:805-822 | Only the plug of that queue is taken away. |
| WorkLaws.DrainIsHonoured | kernel/work.c:773-803 | For any interleaving before and after: when a queue no longer drains, every instance that was queued or running on it when the drain was asked for has finished or been cancelled. |
| WorkLaws.DrainEnds | kernel/work.c:616-803 | A draining queue has been drained once it has taken two turns for each entry, one for the item being handled and one to find itself empty, and two more for every later flush and chained submission. |
| WorkLaws.DrainCanGoOn | kernel/work.c:616-716 | The queue can always take its next turn. |
| WorkLaws.EverySubmissionOnce | kernel/work.c:125-372 | Over every run each accepted submission is queued or running, as one instance of one item, or it is over: none is lost, none handled twice, none comes back. |
| WorkQueues.System.constructor | kernel/work.c:76-77 | The system before any item or queue exists. |
| WorkQueues.System.InitItem | kernel/work.c:150-159 | A new item is idle and on no queue. |
| WorkQueues.System.QueueStart | kernel/work.c:729-771 | A started queue is empty and handles nothing. |
| WorkQueues.System.QueueDrain | kernel/work.c:773-803 | Whether the caller has to wait, and which flags the queue gets; an idle queue is left alone unless it is plugged. |
| WorkQueues.System.QueueUnplug | kernel/work.c:805-822 | Only the plug is taken away; -EALREADY exactly when there was none. |
| WorkQueues.System.FindAndRemove | kernel/work.c:218-224 | Walking the list takes out the first place of the item and nothing else. |
| WorkQueues.System.RunAll | kernel/work.c:125-822 | Every interleaving of locked sections ends in the state to which the specification runs, and keeps its invariant. |
| WorkQueues.System.QueueSubmit | kernel/work.c:267-299 | -EINVAL exactly without a queue, -ENODEV exactly before it is started, -EBUSY exactly if it drains and the caller is not its own thread or it is plugged and not draining, and 1 otherwise with the item last on the list; a refusal changes nothing. |
| WorkQueues.System.SubmitToQueue | kernel/work.c:327-372 | The answer as a condition on the flags of item and queue, for an idle, queued, running or cancelling item, and all that changes. |
| WorkQueues.System.QueueFlusher | kernel/work.c:187-209 | The flusher goes right behind the item if it is on the list and to the front otherwise. |
| WorkQueues.System.FlushItem | kernel/work.c:447-463 | Whether a flush has to wait, and where its flusher goes. |
| WorkQueues.System.QueueRemove | kernel/work.c:218-224 | A queued item leaves its list and its instance is over; any other item stays as it is. |
| WorkQueues.System.CancelAsync | kernel/work.c:508-527 | The item leaves its list, is marked as cancelling while it still runs, and the result says whether it is busy. |
| WorkQueues.System.CancelAndWait | kernel/work.c:544-610 | Whether the caller has to wait, and its registration as a canceller. |
| WorkQueues.System.FinalizeCancel | kernel/work.c:125-148 | Clears the cancelling state and releases the first matching canceller only. |
| WorkQueues.System.TakeNext | kernel/work.c:627-685 | The first item leaves the list and is RUNNING and no longer QUEUED. |
| WorkQueues.System.FinishCurrent | kernel/work.c:695-707 | The instance is over, a finished flusher releases its flush, and a cancelled item releases a canceller. |
| PagingSpec.EvictKeeps | kernel/mmu.c:1205-1260 | Moving a data page out keeps what user code sees, whether or not the page had to be copied, and moves no pinned page. |
| PagingSpec.LoadKeeps | kernel/mmu.c:1585-1604 | Moving a data page in keeps what user code sees, whether the store keeps its copy or not. |
| PagingSpec.FaultKeeps | kernel/mmu.c:1480-1612 | A fault ends with the page in memory; contents are unchanged and the pinned pages change only by the page being pinned. |
| PagingSpec.StepKeeps | kernel/mmu.c:1205-1671 | Each operation changes what user code sees exactly by its effect (write, map, unmap) and never moves a pinned page it does not release, for every answer of eviction algorithm and backing store. |
| PagingSpec.PagingIsInvisible | kernel/mmu.c:1205-1671 | Over every run of writes, faults, evictions, pins, unpins, maps and unmaps, memory with paging reads as memory without it. |
| PagingSpec.PinnedPagesStay | kernel/mmu.c:1540-1604 | Over every run a pinned page stays in its frame until it is unpinned or unmapped. |
| PagingSpec.FrameAccounting | kernel/mmu.c:399-436 | Every frame is in exactly one state, the free list is as long as there are frames flagged free, and the frames tracked for eviction are exactly the mapped, unpinned ones. |
| PagingSpec.BootOk | kernel/mmu.c:997-1087 | After initialisation the invariant holds: the image is mapped and reads as loaded, nothing else is mapped, the free list is exactly the spare frames in order, and exactly the unpinned image frames can be evicted. |
| PagingSpec.UnmapLosesCopy | kernel/mmu.c:694-751 | A concrete page whose unmapping loses its location. |
| PagingSpec.CopiedIsReached | kernel/mmu.c:520-1604 | A run from boot (map, write, page out, touch) that reaches that page. |
| PagingSpec.PartialRegionStays | kernel/mmu.c:617-630 | From boot, a mapping of two pages of which the first succeeds and stays, and the second fails. |
| PagingSpec.RegionRoundTrip | kernel/mmu.c:570-760 | Unmapping what the mapping of a region has mapped, all of it or the part before the page that failed, restores the memory that user code sees. |
| PagingSpec.MapRegionIs | kernel/mmu.c:617-651 | The mapped pages read as zeroes and the others as before; the loop stops early exactly when neither a free frame nor room in the store is left. |
| PagingSpec.UnmapRegionIs | kernel/mmu.c:683-760 | Exactly the pages up to the first that is not mapped disappear. |
| PagingSpec.LeaksIff | kernel/mmu.c:694-751 | An operation loses a location of the backing store if and only if it unmaps a page that is in memory with a copy in the store. |
| PagingLaws.StepPins | kernel/mmu.c:1205-1671 | Pinning a page, or mapping it locked, adds exactly that page to the pinned ones, in the frame that now holds it; unpinning and unmapping take exactly it away; no other operation pins or unpins. |
| PagingLaws.PinsAreReplayed | kernel/mmu.c:1205-1671 | Over every run the pinned pages are exactly those pinned, or mapped locked, and neither unpinned nor unmapped since, from the calls and their answers alone. |
| PagingLaws.StepMoves | kernel/mmu.c:399-1671 | Which pages an operation brings in and which leave: a page comes into the first free frame, and only if there is none into the frame of the victim, whose page is the only one to leave; a page that leaves is copied to its location unless its copy is clean; a vacated frame is empty and last on the free list; nothing else moves. |
| PagingLaws.FaultKeepsCopy | kernel/mmu.c:1585-1604 | A page that is brought in is clean; its location stays allocated, and the frame carries the BACKED flag, exactly if the store keeps the copy. |
| PagingLaws.WriteMakesDirty | kernel/mmu.c:1480-1612 | A written page is dirty. |
| PagingLaws.MapRegionPins | kernel/mmu.c:617-651 | A region mapped locked is pinned as far as it is mapped; otherwise mapping pins nothing. |
| PagingLaws.UnmapRegionPins | kernel/mmu.c:683-760 | Unmapping a region unpins exactly its pages. |
| Paging.Mmu.constructor | kernel/mmu.c:997-1087 | The pass over all frames maps the image, frees what is left in order and tells the eviction algorithm about the rest. |
| Paging.Mmu.FreeListGet | kernel/mmu.c:399-414 | Takes the first free frame and keeps the free count equal to the length of the list. |
| Paging.Mmu.FreeLocked | kernel/mmu.c:417-436 | Returns a frame to the end of the list and keeps the count. |
| Paging.Mmu.PrepareFrame | kernel/mmu.c:1205-1260 | Where each flag, the page table, the location and the scratch page stand after each way through; a full store changes nothing but the scratch page. |
| Paging.Mmu.EvictInto | kernel/mmu.c:1205-1260 | Preparing and copying out together are one eviction. |
| Paging.Mmu.Vacate | kernel/mmu.c:1275-1300 | An evicted frame is freed unless the store is full. |
| Paging.Mmu.MemEvict | kernel/mmu.c:1262-1311 | Contents are unchanged; success exactly when the page was out already or the store had room, and the page is out then. |
| Paging.Mmu.PageFrameEvict | kernel/mmu.c:1332-1385 | The same for a given frame, mapped or not; after success it holds no page. |
| Paging.Mmu.ObtainForFault | kernel/mmu.c:1564-1576 | A free frame or a victim, with the scratch page on it. |
| Paging.Mmu.PageFault | kernel/mmu.c:1480-1612 | False exactly for an address that is not mapped; otherwise the page is in memory, contents are unchanged, and the pinned pages are those before and, for a fault that pins, this page in its frame. |
| Paging.Mmu.PageIn | kernel/mmu.c:1564-1604 | Obtaining a frame and attaching the page reach the state of the specification. |
| Paging.Mmu.Attach | kernel/mmu.c:1581-1604 | Data comes in before the page table points to it, and stale flags of a reused frame are overwritten. |
| Paging.Mmu.MemUnpin | kernel/mmu.c:1653-1671 | The page is not pinned afterwards and contents are unchanged. |
| Paging.Mmu.WritePage | kernel/mmu.c:1480-1612 | A write, with a fault if need be, changes that page and no other as user code sees it. |
| Paging.Mmu.ReadPage | kernel/mmu.c:1480-1612 | A read returns what was last written, wherever the page was. |
| Paging.Mmu.MapAnonPage | kernel/mmu.c:520-567 | A new page of zeroes, pinned exactly if it is locked, or no change when neither a free frame nor room in the store is left. |
| Paging.Mmu.MapAnonRegion | kernel/mmu.c:617-651 | All pages read as zeroes, or the first page that fails ends the loop and the pages before it stay mapped; a failure leaves memory as it was if and only if the very first page failed. |
| Paging.Mmu.UnmapAnonRegion | kernel/mmu.c:683-760 | The pages up to the first one that is not mapped disappear and no other changes. |
| Paging.Mmu.UnmapAnonPage | kernel/mmu.c:694-751 | The page disappears and no other changes, whether it was in memory or out. |
| Paging.Mmu.RunAll | kernel/mmu.c:1205-1671 | After any run the pages read as they would in a memory without paging. |
| RegionSpec.ConversionsInverse | kernel/mmu.c:201-211 | Offset to address and back is the identity. |
| RegionSpec.ConversionsInverseBack | kernel/mmu.c:201-211 | Address to offset and back is the identity for whole pages. |
| RegionSpec.FirstFitIsFirst | lib/utils/bitarray.c:491-561 | First fit fails exactly when no place is free, and no lower place would do. |
| RegionSpec.FirstFitSkips | lib/utils/bitarray.c:541-555 | Jumping past a set bit misses no place. |
| RegionSpec.PlacedInside | kernel/mmu.c:288-355 | The aligned region lies inside the pages found, whatever their position, and is aligned. |
| RegionSpec.ChosenIsGood | kernel/mmu.c:288-368 | The region is aligned, inside the allowed part and made of free pages; the call fails exactly when no run of free pages is long enough. |
| RegionSpec.RefusedIff | kernel/mmu.c:300-309 | When some aligned region is free, a call is refused if and only if no run of free pages is as long as its size and alignment together, less one page. |
| RegionSpec.PagesNeverRefused | kernel/mmu.c:300-309 | Without alignment beyond a page, a call is refused only if no region is free. |
| RegionSpec.AlignedPageIsRefused | kernel/mmu.c:300-309 | A concrete free and aligned page that is refused. |
| RegionSpec.FreeUndoesAlloc | kernel/mmu.c:240-368 | Freeing a region that was just allocated restores the bitmap. |
| RegionSpec.DirectFreeAgrees | kernel/mmu.c:266-285 | With direct mappings a region inside the allowed part is freed as without them. |
| RegionSpec.DirectFreeOverlooks | kernel/mmu.c:272-275 | A concrete region that spans the allowed part and frees nothing of it. |
| RegionSpec.DirectFreeOverlooksIff | kernel/mmu.c:272-275 | A region with some byte in the allowed part is overlooked if and only if it reaches beyond that part on both sides. |
| RegionSpec.RunsNeverOverlap | kernel/mmu.c:213-368 | Over every run of allocations and frees, live regions never overlap and stay in the allowed part, and once all are freed only the reserved pages are marked. |
| RegionSpec.ChosenIsHighest | kernel/mmu.c:288-355 | The region is at the lowest aligned address in the highest run of free pages that has room for it at any alignment. |
| RegionSpec.PagesAreHighest | kernel/mmu.c:288-355 | Without alignment beyond a page no free region is higher. |
| RegionSpec.AllocIs | kernel/mmu.c:288-368 | Allocation marks exactly the pages of the region and records it; a refusal changes nothing. |
| RegionSpec.FreeTakesOff | kernel/mmu.c:240-265 | The freed region, and no other, is no longer recorded. |
| RegionSpec.FreeIs | kernel/mmu.c:240-265 | Exactly the pages of a region that lies wholly in the allowed part and is wholly in use are cleared; any other region changes nothing. |
| RegionSpec.DirectFreeIs | kernel/mmu.c:266-285 | With direct mappings exactly the part inside the allowed part is freed, if the first or the last byte of the region is there. |
| RegionSpec.DirectFreeOutside | kernel/mmu.c:266-285 | A region without a byte in the allowed part is left alone. |
| Regions.BitArray.MatchRegion | lib/utils/bitarray.c:65-158 | Whether all bits of a range have a value, and otherwise a bit that has not. |
| Regions.BitArray.SetRegion | lib/utils/bitarray.c:172-211 | The bits of a range get a value and no other bit changes. |
| Regions.BitArray.Alloc | lib/utils/bitarray.c:491-561 | Starting at the first clear bit and jumping past mismatches finds the lowest free place; the error codes; the bits that change. |
| Regions.BitArray.Free | lib/utils/bitarray.c:638-673 | Clears a range exactly when all of it is set, with the error code of every other case. |
| Regions.VirtRegions.constructor | kernel/mmu.c:213-238 | Exactly the reserved pages and those below the allowed part are marked. |
| Regions.VirtRegions.RegionFree | kernel/mmu.c:240-265 | A region outside the allowed part or not wholly allocated changes nothing. |
| Regions.VirtRegions.RegionFreeDirect | kernel/mmu.c:266-285 | With direct mappings the part of a region inside the allowed part is freed if the first or last byte of the region lies there. |
| Regions.VirtRegions.RegionAlloc | kernel/mmu.c:288-368 | Taking extra pages and giving back head and tail marks exactly the aligned region; the address is never below the allowed part. |
| Regions.TrimUnits | kernel/mmu.c:344-352 | Giving back head and tail leaves exactly the pages between them. |
| MutexSpec.JoinIs | kernel/include/priority_q.h:208-222 | A wait queue stays sorted without duplicates, and its first waiter is the better of the newcomer and the old first. |
| MutexSpec.JoinPlace | kernel/include/priority_q.h:208-222 | A thread joins behind the waiters that are as good and before the first that is worse. |
| MutexSpec.StepKeeps | kernel/mutex.c:105-284 | Owner, count, wait queues and what each thread owns or waits for stay consistent over lock, timeout, adjustment and unlock. |
| MutexSpec.StepLevel | kernel/mutex.c:82-188 | While no thread owns two mutexes, each step keeps every owner at least as good as it has to be, and exactly that good once no timed-out waiter has still to adjust it. |
| MutexSpec.OwnersNeverBelowWaiters | kernel/mutex.c:105-284 | The same over every run, so that no owner is ever worse than one of its waiters. |
| MutexSpec.StepRestored | kernel/mutex.c:247-277 | Releasing in reverse order keeps: a thread without mutexes has its starting priority. |
| MutexSpec.NestedReleaseRestores | kernel/mutex.c:247-277 | The same over every run with nested mutexes. |
| MutexSpec.ReleaseFairIff | kernel/mutex.c:247-277 | Releasing one of several mutexes leaves the thread no worse than the waiters of another if and only if the priority the released one remembers is no worse than theirs. |
| MutexSpec.AdjustFairIff | kernel/mutex.c:168-188 | The same for a waiter of one mutex that times out. |
| MutexSpec.StepInvertsIff | kernel/mutex.c:105-284 | From a state without inversion, a step makes some owner worse than one of its waiters if and only if it releases one mutex, or ends a wait for one, whose owner has another mutex with a better waiter than the priority it is given. |
| MutexSpec.WaitNeverDemotes | kernel/mutex.c:139-158 | A thread that starts to wait never makes the owner worse and changes nobody else. |
| MutexSpec.AdjustDemotesIff | kernel/mutex.c:176-187 | The end of a wait leaves the owner worse than it was on its own if and only if others still wait and its own priority is better than the ceiling. |
| MutexSpec.StepDemotesIff | kernel/mutex.c:105-284 | A step leaves some owner worse than it was when it took one of its mutexes if and only if it is such an end of a wait, or an end of a wait or a release that returns the owner to a priority worse than the one at which it took another mutex. |
| MutexSpec.StepUnderCeiling | kernel/mutex.c:82-89 | If no thread starts better than the ceiling, none ever is. |
| MutexLedger.LockIs | kernel/mutex.c:105-158 | A thread gets a mutex that is free or its own, and only then; otherwise it waits exactly if it may, with owner and count as they were and no priority but the owner's changed, and -EBUSY changes nothing. |
| MutexLedger.UnlockIs | kernel/mutex.c:211-284 | -EINVAL exactly without an owner and -EPERM exactly for another owner, both without effect; the last unlock frees the mutex if nobody waits and otherwise hands it to the first waiter, which waits no longer; only the caller's priority changes. |
| MutexLedger.TimeoutIs | kernel/mutex.c:156-199 | A timed-out thread leaves its wait queue and nothing else, and its adjustment may change the owner's priority and nothing else. |
| MutexLedger.NextBalances | kernel/mutex.c:105-284 | How often a thread holds a mutex goes up by one with each of its lock calls that succeeds, at once or after a wait, down by one with each of its unlock calls that succeeds, and not at all otherwise, with owners that may wait. |
| MutexLedger.LedgerBalances | kernel/mutex.c:105-284 | Over every run the count of a mutex is the successful locks of its owner less its successful unlocks. |
| MutexLedger.OwnerKeepsUntilEven | kernel/mutex.c:105-284 | Over every run the owner keeps the mutex until it has unlocked it as often as it has locked it, whatever other threads do. |
| MutexLedger.StepAnswers | kernel/mutex.c:105-284 | The same answers and counts for the steps where nobody waits while owning a mutex. |
| MutexLedger.RunIsChain | kernel/mutex.c:105-284 | Every run of the simpler model is a run of the general one, so that the ledger is its as well. |
| MutexChain.NextIsStep | kernel/mutex.c:105-284 | Where nobody waits while owning a mutex, the general steps are those of the simpler model. |
| MutexChain.NextLinks | kernel/mutex.c:105-284 | With owners that wait for other mutexes, every step keeps owners, counts, wait queues and what each thread owns or waits for consistent. |
| MutexChain.NextBreaksIff | kernel/mutex.c:105-284 | From a state where no owner is worse than a waiter and all wait queues are in order, a step breaks this if and only if it raises an owner that waits past a thread ahead of it or past the owner it waits for, or takes a priority back from a waiting owner so that it is out of place, or from one whose other mutexes have better waiters. |
| MutexChain.SoundUntilBroken | kernel/mutex.c:105-284 | Over every run without such a step, with chains of waiting owners of any depth, no owner is worse than a waiter and every wait queue is in order. |
| MutexChain.ChainInverts | kernel/sched.c:739-783 | A run in which a raised owner keeps its old place in the queue it waits in, the loan does not reach the next owner, and the mutex is handed to a worse thread. |
| MutexSpec.IdleOk | kernel/mutex.c:55-71 | The invariant and all its refinements hold before the first lock. |
| MutexSpec.CeilingDemotes | kernel/mutex.c:82-89 | A run in which a thread at -1 locks, two threads wait, the first times out, and the owner ends at the ceiling 0. |
| MutexSpec.NestingInverts | kernel/mutex.c:247-277 | A run that releases in reverse order and leaves an owner at priority 10 with a waiter at priority 5. |
| Mutexes.Kernel.constructor | kernel/mutex.c:55-71 | All mutexes are free and every thread has its own priority. |
| Mutexes.Kernel.RunAll | kernel/mutex.c:105-284 | Every interleaving of calls and timeouts ends in the state to which the specification runs. |
| Mutexes.Kernel.AdjustOwnerPrio | kernel/mutex.c:91-103 | The owner has the given priority and no other thread changes. |
| Mutexes.Kernel.Lock | kernel/mutex.c:105-158 | Success exactly for a mutex that is free or the caller's own, and the caller then holds it once more than before; waiting or -EBUSY otherwise, with owner and count unchanged. |
| Mutexes.Kernel.Lend | kernel/mutex.c:139-158 | The owner gets the better priority before the caller joins the wait queue. |
| Mutexes.Kernel.TimeOut | kernel/mutex.c:156-168 | A waiter leaves the queue and has still to adjust the owner. |
| Mutexes.Kernel.LockTimedOut | kernel/mutex.c:168-199 | The owner falls back to the better of its own priority and the first waiter's, if there is an owner. |
| Mutexes.Kernel.Unlock | kernel/mutex.c:211-284 | Each error code exactly for its case and without effect; after success the caller holds the mutex once less, and the last unlock hands it on. |
| Mutexes.Kernel.HandOver | kernel/mutex.c:247-277 | The old owner has its own priority back, and the first waiter owns the mutex with its own priority remembered. |
| Mutexes.Kernel.Pend | kernel/include/priority_q.h:208-222 | The loop over the wait queue finds the place behind every waiter that is as good. |
| SchedSpec.StepKeeps | kernel/sched.c:373-777 | Fifteen operations keep flags and queues in agreement and every ready thread queued. |
| SchedSpec.RunsKeepMembership | kernel/sched.c:146-777 | Over every run: QUEUED means being in the run queue once, pended_on means being in that wait queue once and no other, no thread is in both, and exactly the ready threads are queued. |
| SchedSpec.TheDeadStayOut | kernel/sched.c:1331-1423 | Over every run a dead thread stays dead and never enters a queue again. |
| SchedSpec.FirstIsBest | kernel/sched.c:133-136 | The first thread of the run queue is the best of all ready threads. |
| SchedSpec.AbortReleasesJoiners | kernel/sched.c:1307-1352 | Nobody is left waiting for an aborted thread. |
| SchedSpec.SleepEndsWithTimeout | kernel/sched.c:1140-1180 | A sleeping thread is out of the run queue, and in it again once its timeout fires. |
| SchedSpec.SuspendEndsWithResume | kernel/sched.c:505-553 | Suspending takes a ready thread out of the run queue and resuming puts it back. |
| SchedSpec.PendEndsWithWake | kernel/sched.c:580-734 | A waiting thread is in its wait queue once; a release or its timeout brings it back to the run queue. |
| SchedSpec.WakeRespectsSuspension | kernel/sched.c:373-390 | A wait that ends while the thread is suspended brings it back only after it is resumed. |
| SchedSpec.KillLinks | kernel/sched.c:1331-1352 | Aborting a thread in any state takes it out of every queue and keeps all other threads consistent. |
| SchedLaws.StepThreads | kernel/sched.c:373-1566 | What each of fifteen operations makes of the flags and the priority of every thread, the joiners of an aborted one included, as a table; every thread the table does not name is unchanged. |
| SchedLaws.StepWaits | kernel/sched.c:580-1566 | What each operation makes of every wait queue: a thread that waits enters behind those of equal or better priority, one that waits no longer leaves, and the others keep their order. |
| SchedLaws.StepRuns | kernel/sched.c:146-783 | What each operation makes of the run queue: a thread that becomes ready, or requeues, enters behind those of equal or better priority, one that is no longer ready leaves, and the others keep their order. |
| SchedLaws.InRunIff | kernel/sched.c:373-390 | A thread is in the run queue exactly if it has started and is alive, waits for nothing, is not suspended and has no active timeout. |
| SchedLaws.AbortRuns | kernel/sched.c:1307-1352 | An abort takes the thread out of the run queue, and those that joined it enter in the order in which they waited. |
| SchedLaws.CreateIs | kernel/thread.c:748-773 | A new thread waits to be started and is in no queue. |
| SchedLaws.StepUnsortsIff | kernel/sched.c:739-783 | From wait queues in priority order, a step leaves one out of order if and only if it gives a waiting thread a priority worse than the next or better than the one before it. |
| SchedLaws.WaitingIsReached | kernel/sched.c:580-591 | A run from boot to two threads that wait for one object. |
| SchedLaws.WorseThreadIsWoken | kernel/sched.c:739-783 | From there, the second gets the better priority, and the first is woken. |
| Scheduler.Kernel.PriqAdd | kernel/include/priority_q.h:208-222 | The loop puts a thread before the first one of strictly worse priority. |
| Scheduler.Kernel.constructor | kernel/sched.c:1006-1032 | No thread exists and all queues are empty. |
| Scheduler.Kernel.CreateThread | kernel/thread.c:748-773 | A new thread has not started and is in no queue. |
| Scheduler.Kernel.MakeThreadReady | kernel/sched.c:392-408 | A thread that has become ready is queued once. |
| Scheduler.Kernel.RunAll | kernel/sched.c:146-777 | After any run each thread is in exactly the queues its state says. |
| Scheduler.Kernel.QueueThread | kernel/sched.c:146-158 | The thread is QUEUED and in the run queue at its place. |
| Scheduler.Kernel.DequeueThread | kernel/sched.c:160-166 | The thread is out of the run queue and not QUEUED. |
| Scheduler.Kernel.ReadyThread | kernel/sched.c:373-390 | Queues the thread exactly when it is ready and not queued yet. |
| Scheduler.Kernel.UnreadyThread | kernel/sched.c:571-577 | The thread is in no run queue. |
| Scheduler.Kernel.AddToWaitq | kernel/sched.c:580-591 | The thread leaves the run queue, is pending and is in the wait queue at its place. |
| Scheduler.Kernel.UnpendNoTimeout | kernel/sched.c:619-624 | The thread is out of its wait queue and not pending. |
| Scheduler.Kernel.PendLocked | kernel/sched.c:600-608 | A running thread waits, with or without a timeout, and all threads stay consistent. |
| Scheduler.Kernel.WakeThreadLocked | kernel/sched.c:635-664 | A thread that is not being killed leaves its wait queue, is started, and is queued if it is ready. |
| Scheduler.Kernel.ThreadTimeout | kernel/sched.c:668-674 | An expired timeout wakes its thread, also from sleep. |
| Scheduler.Kernel.ReleaseThread | kernel/sched.c:714-734 | A waiting thread is taken out, loses its timeout and is queued if ready. |
| Scheduler.Kernel.SchedWake | kernel/sched.c:1546-1566 | Wakes the first waiter and says whether there was one. |
| Scheduler.Kernel.UnpendAll | kernel/sched.c:1307-1317 | The loop ends with an empty wait queue and every former waiter released. |
| Scheduler.Kernel.TickSleep | kernel/sched.c:1140-1180 | A sleeping thread is suspended, has a timeout and is not queued. |
| Scheduler.Kernel.Wakeup | kernel/sched.c:1242-1270 | Wakes a sleeper or a thread that is only suspended, and nothing else. |
| Scheduler.Kernel.Suspend | kernel/sched.c:505-524 | A suspended thread loses its timeout and its place in the run queue. |
| Scheduler.Kernel.Resume | kernel/sched.c:535-553 | Only a suspended thread is made ready. |
| Scheduler.Kernel.Start | kernel/sched.c:415-427 | Only a thread that has not started is made ready. |
| Scheduler.Kernel.ThreadPrioSet | kernel/sched.c:739-783 | A ready thread moves to the place of its new priority, any other only gets the number. |
| Scheduler.Kernel.YieldCurrent | kernel/sched.c:1115-1130 | The running thread goes behind all threads of its priority. |
| Scheduler.Kernel.Doom | kernel/sched.c:1331-1352 | A dying thread is out of every queue before its joiners are released. |
| Scheduler.Kernel.ThreadAbort | kernel/sched.c:1425-1442 | The thread is dead, nobody joins it any more, and all threads stay consistent. |
| Scheduler.Kernel.ThreadJoin | kernel/sched.c:1457-1488 | Which of its four results a join has: success for a dead thread, else -EBUSY without waiting, else -EDEADLK for oneself or a thread that joins the caller, else waiting. |
| PtableSpec.WordsSplit | arch/x86/gen_mmu.py:242-279 | In an entry word, address and flags under disjoint masks can be read back whatever the other is. |
| PtableSpec.MasksDisjoint | arch/x86/gen_mmu.py:282-331 | The address mask and the supported flags of every table class are disjoint. |
| PtableSpec.ModesOk | arch/x86/gen_mmu.py:282-331 | In the three paging modes each level covers exactly the tables below it. |
| PtableSpec.PathInjective | arch/x86/gen_mmu.py:230-233 | Different pages in range have different entries at some level. |
| PtableSpec.GrowLeaf | arch/x86/gen_mmu.py:403-412 | Creating and linking a table changes no leaf entry of any address. |
| PtableSpec.DescendIs | arch/x86/gen_mmu.py:414-427 | Walking down creates at most one table per level, and none where the leaf table exists; it keeps every meaning and reaches the leaf table. |
| PtableSpec.MapMeans | arch/x86/gen_mmu.py:414-431 | Mapping one page gives that page its filtered entry and leaves every other page of the address space alone. |
| PtableSpec.PermsMeans | arch/x86/gen_mmu.py:267-279 | Setting permissions keeps the physical address of the page and leaves every other page alone. |
| PtableSpec.TreeIsFlatMap | arch/x86/gen_mmu.py:403-553 | Over every run of map, reserve and set-permission operations, walking the tables gives what the operations on that page left in a flat map. |
| PtableSpec.PermsKeepAddress | arch/x86/gen_mmu.py:539-553 | Runs without a mapping never change a physical address. |
| Ptables.MappedIs | arch/x86/gen_mmu.py:461-484 | The page at some offset of a mapped region is the physical page at the same offset with the flags of the region; page 0 is never mapped to itself, and no page outside changes. |
| PtableLaws.PackIs | arch/x86/gen_mmu.py:242-279 | An entry keeps the whole pages of its address modulo the limit, and exactly the flags that are given and supported. |
| PtableLaws.MapRoundTrip | arch/x86/gen_mmu.py:414-431 | Looking up a page that was mapped gives the physical page and the flags it was mapped with. |
| PtableLaws.EveryRunFills | arch/x86/gen_mmu.py:403-553 | Over every run the entries that lead to tables carry exactly the flags P, RW and US, and the tables lie one behind the other without a gap. |
| PtableLaws.EmptyFills | arch/x86/gen_mmu.py:338-351 | Both hold of the empty tree. |
| PtableLaws.LeafDecides | arch/x86/gen_mmu.py:403-427 | Every entry on the way to a leaf table allows writing and user access, so that the rights to a page are those of its own entry. |
| PtableLaws.StepReaches | arch/x86/gen_mmu.py:414-448 | After mapping or reserving a page its leaf table exists. |
| Ptables.PtableSet.constructor | arch/x86/gen_mmu.py:338-351 | An empty tree. |
| Ptables.PtableSet.WriteEntry | arch/x86/gen_mmu.py:251-265 | One entry of one table changes. |
| Ptables.PtableSet.NewChildTable | arch/x86/gen_mmu.py:403-412 | A table of empty entries at the next address, linked from its parent. |
| Ptables.PtableSet.WalkDown | arch/x86/gen_mmu.py:414-427 | The loop over levels ends at the leaf table of the address. |
| Ptables.PtableSet.MapPage | arch/x86/gen_mmu.py:414-431 | That page has its entry, no other page changes, and no page loses its leaf table. |
| Ptables.PtableSet.WalkLinks | arch/x86/gen_mmu.py:545-551 | Following entries without testing the present flag finds the leaf table exactly when it exists. |
| Ptables.PtableSet.SetPerms | arch/x86/gen_mmu.py:267-279 | New flags, same address, no other page. |
| Ptables.PtableSet.Map | arch/x86/gen_mmu.py:461-484 | Every page of the region gets its own physical page except page 0 of an identity mapping, every other page is unchanged, and misaligned arguments change nothing; tables are made once per block that a leaf table covers. |
| Ptables.PtableSet.Reserve | arch/x86/gen_mmu.py:433-448 | No meaning changes and every page of the region has a leaf table afterwards. |
| Ptables.PtableSet.SetRegionPerms | arch/x86/gen_mmu.py:513-556 | New flags and old addresses for the region except page 0; failure exactly when some page has no leaf table. |
| MsgqSpec.StepKeeps | kernel/msg_q.c:124-396 | Waiters are all readers when the queue is empty, all writers when it is full and absent otherwise; what left the queue followed by what is in it is what was accepted. |
| MsgqSpec.EveryRunIsFifo | kernel/msg_q.c:124-396 | The same over every run, purges included. |
| MsgqSpec.NothingLostWithoutPurge | kernel/msg_q.c:124-282 | Without purge everything that left the queue was delivered. |
| MsgqSpec.GetReturnsOldest | kernel/msg_q.c:216-282 | A get returns the oldest accepted message not yet gone and records exactly that one as delivered; the first waiting writer keeps a full queue full. |
| MsgqSpec.PutIsLast | kernel/msg_q.c:124-184 | A put succeeds exactly when the queue is not full, and its message is then the last one accepted; if readers wait, the first of them gets it at once and leaves, and the others keep their order. |
| MsgqSpec.StepReturns | kernel/msg_q.c:124-396 | What each step returns to blocked calls: the message to the first reader, success to the first writer, -EAGAIN after a timeout, and -ENOMSG to every waiter in order after a purge. |
| MsgqSpec.EveryBlockedCallReturnsOnce | kernel/msg_q.c:124-396 | Over every run each call that was blocked has returned exactly once or still waits. |
| MsgqSpec.ReturnsAreDeliveries | kernel/msg_q.c:124-184 | Over every run a message that a blocked reader returns with was delivered to that reader. |
| MsgqSpec.JoinBehind | kernel/include/priority_q.h:208-222 | A waiter goes before the first one of strictly worse priority. |
| MsgqSpec.BlockedIs | kernel/msg_q.c:124-282 | A call waits exactly if it may and the queue is full for a put or empty for a get; it then stands behind every waiter of equal or better priority and changes nothing else, and a call that fails at once changes nothing. |
| MsgqSpec.ServedIs | kernel/msg_q.c:124-282 | A call that succeeds wakes at most the first waiter, a reader with the message and a writer whose message goes last in the queue. |
| MsgqSpec.ExpireIs | kernel/msg_q.c:178-184 | A timeout takes the waiting call, and no other, out of the wait queue. |
| MsgqSpec.PurgeIs | kernel/msg_q.c:376-396 | A purge empties the queue and wakes every waiter in order with an error. |
| MsgqSpec.EveryRunIsOrdered | kernel/msg_q.c:124-396 | Over every run the waiters are in priority order. |
| MsgQueues.MsgQueue.Advance | kernel/msg_q.c:151-155 | A position one message further, wrapped at the end of the buffer, is the next slot. |
| MsgQueues.MsgQueue.Append | kernel/msg_q.c:146-156 | The message is the new last one; slots do not disturb each other. |
| MsgQueues.MsgQueue.Put | kernel/msg_q.c:124-184 | Hand-over to a waiting reader, storing, refusing or waiting, over the byte buffer. |
| MsgQueues.MsgQueue.Get | kernel/msg_q.c:216-282 | The oldest message is returned and the first waiting writer's message takes the free place. |
| MsgQueues.MsgQueue.PeekAt | kernel/msg_q.c:330-363 | Returns element i of the queue with one wrap of the byte offset, and an error beyond the last. |
| MsgQueues.MsgQueue.Purge | kernel/msg_q.c:376-396 | All waiters return -ENOMSG in order and the ring is empty. |
| MsgQueues.MsgQueue.WaiterExpires | kernel/msg_q.c:178-184 | A waiter that times out returns -EAGAIN and is gone, and nothing else changes. |
| PollSpec.StepKeeps | kernel/poll.c:217-353 | Every section under the lock, in any interleaving of threads and raises, keeps lists, links and phases consistent. |
| PollSpec.EveryRunKeepsPromises | kernel/poll.c:217-353 | Over every run: registered events are a prefix of the caller's array, none is linked after the call returned, a waiting thread has all its events linked, and success means that an event became ready during this call. |
| PollSpec.RaiseReleases | kernel/poll.c:441-465 | A raise that takes one of a thread's events off a list, before or while the thread waits, makes its call return, with success, as cancelled, or with the code it is returning already. |
| PollSpec.CanGoOn | kernel/poll.c:217-353 | A call that is bound to return always has a next step of its own, until it has returned. |
| PollSpec.StaysReturning | kernel/poll.c:217-353 | Each own step takes it one step closer to its return, no other step takes it further away, and its code is settled. |
| PollSpec.ReleasedCallReturns | kernel/poll.c:288-353 | Once bound to return, no run brings the call to wait again, and it has returned with that code exactly when it has taken the steps that were left. |
| PollSpec.StepOverlooksIff | kernel/poll.c:467-478 | From a state where no call waits for an object whose condition holds, a step leaves one if and only if it is a raise, other than a cancellation, while a second thread waits for the object, or a condition that comes to hold without a raise while some thread waits. |
| PollSpec.SecondPollerIsOverlooked | kernel/poll.c:467-478 | A run in which two threads come to wait for one object and a raise releases only the first. |
| PollSpec.InitOk | kernel/poll.c:43-60 | The invariant holds before the first call. |
| PollLaws.AddPlace | kernel/poll.c:112-134 | An event goes behind those of threads of equal or better priority and before those of worse priority, although the end of the list is tried first. |
| PollLaws.EveryRunIsOrdered | kernel/poll.c:112-353 | Over every run each object's list is in the order of the polling threads' priorities, so that a raise takes the event of the best of them that registered first. |
| PollLaws.BeginIs | kernel/poll.c:288-297 | A call starts polling with none of its events ready, and nothing else changes. |
| PollLaws.RegisterIs | kernel/poll.c:234-263 | An event whose condition holds is ready at once and the call will not wait; otherwise it is registered with its object if the call may still wait; nothing else changes. |
| PollLaws.DecideIs | kernel/poll.c:305-332 | A call that no longer polls goes on to return success; one that still does waits, or returns -EAGAIN if it may not. |
| PollLaws.TimeOutIs | kernel/poll.c:334-353 | A wait that times out is cleared from its last event on, with -EAGAIN. |
| PollLaws.ClearsLast | kernel/poll.c:175-226 | Each turn takes the last registered event off its list and keeps whether it is ready. |
| PollLaws.RaiseIs | kernel/poll.c:441-550 | A raise takes exactly the first event of the list, makes it ready and its thread stop polling and waiting; the condition holds afterwards unless the raise cancels. |
| PollLaws.EveryRunFindsReady | kernel/poll.c:217-353 | Over every run a call polls exactly as long as none of its events is ready, and waits only with none ready. |
| PollLaws.InitFinds | kernel/poll.c:43-60 | Both hold before the first call. |
| PollLaws.ConditionIs | kernel/poll.c:64-109 | The condition of an event holds exactly if it has an object whose condition holds. |
| PollLaws.DecidesByReadiness | kernel/poll.c:305-332 | A call that has looked at all its events goes on to success exactly if one of them is ready, and otherwise waits or gives up. |
| Polling.Kernel.constructor | kernel/poll.c:43-60 | No event is registered and no thread polls. |
| Polling.Kernel.SetObject | kernel/poll.c:64-109 | The condition of an object changes and nothing else. |
| Polling.Kernel.RunAll | kernel/poll.c:217-550 | Any interleaving of sections ends in the state to which the specification runs, with every promise kept. |
| Polling.Kernel.AddToList | kernel/poll.c:112-134 | Trying the end first and then searching puts the event at its place. |
| Polling.Kernel.RegisterEvent | kernel/poll.c:137-172 | The event is on its object's list and carries its poller. |
| Polling.Kernel.ClearEventRegistration | kernel/poll.c:175-214 | The event is on no list and has no poller. |
| Polling.Kernel.PollBegin | kernel/poll.c:288-297 | The call starts with nothing registered and none of its events ready. |
| Polling.Kernel.RegisterOne | kernel/poll.c:234-263 | One turn: a condition that holds stops polling, otherwise the event is registered while polling goes on. |
| Polling.Kernel.PollDecide | kernel/poll.c:305-332 | Return, give up or wait; a thread that waits has all its events linked. |
| Polling.Kernel.ClearOne | kernel/poll.c:217-226 | One registration goes per turn, and on return none is left. |
| Polling.Kernel.WaitTimesOut | kernel/poll.c:334-353 | The wait ends and the registrations are cleared with the timeout code. |
| Polling.Kernel.SignalRaise | kernel/poll.c:527-550 | The first event of the list becomes ready and its thread is bound to return. |
| ModuleSort.Partition | scripts/zephyr_module.py:734-738 | Modules without dependencies can start, all others wait with their whole list left, both in the order given. |
| ModuleSort.Resolve | scripts/zephyr_module.py:747-751 | A name goes once from every list that has it, and exactly the modules with nothing left are freed, in the order given. |
| ModuleSort.RemoveAll | scripts/zephyr_module.py:752-753 | Exactly the freed modules stop waiting; the others keep their order. |
| ModuleSort.Progress | scripts/zephyr_module.py:742-753 | One turn keeps: each module is done, can start or waits, and what is left of a list is the list minus what is done. |
| ModuleSort.Stuck | scripts/zephyr_module.py:755-764 | With nothing to start: no module waits and the result is an order, or some list repeats a name or no order exists. |
| ModuleSort.LoopedIffCyclic | scripts/zephyr_module.py:755-764 | Some set of modules has each depend on another of the set if and only if there is a path of dependencies from a module back to itself. |
| ModuleSort.RepetitionFails | scripts/zephyr_module.py:747-751 | Two modules in a valid order that are refused because a dependency is listed twice. |
| ModuleSort.Sort | scripts/zephyr_module.py:734-764 | Terminates; succeeds if and only if no list repeats a name and some order has every dependency first; without repetitions it fails exactly when a dependency is missing or a path of dependencies leads from a module back to itself; the result has every module once after its dependencies, in the order in which the last dependency of each comes and, among those freed together, in the order given. |
| ModuleSort.ServedMore | scripts/zephyr_module.py:742-753 | Modules that one turn frees line up behind all that were free before, in the order given. |

## Left out

- Multiprocessor paths: switch handles, inter-processor interrupts and announcements that overlap on two processors.
- Programming the hardware timer, sloppy idle, and overflow of tick counters; ticks are unbounded integers.
- Thread switching itself: which ready thread runs next, preemption, time slices, meta-interrupts and deadlines.
- Pipes: poll events, and flushing into a null buffer.
- Work queues: delayable work, whose timeout callback can be in flight when it is cancelled, and re-initialising an item that is busy.
- Demand paging: interrupts between preparing a frame and copying (the busy flag is set and cleared inside one step), statistics, mappings of several addresses to one pinned frame, and mapping known physical memory.
- Paging.Mmu.MapAnonPage: maps one page and fills it with zeroes at once, while the original clears a region after its last page; guard pages and the allocation of the address range are not part of it.
- Paging.Mmu.WritePage: data pages are single values, so partial writes to a page are not modelled.
- Regions.BitArray.Alloc: bits are an array of booleans; the 32-bit words of the original and their masks are not modelled, and the search for the first clear bit goes bit by bit.
- Mutexes: priorities changed from outside while a thread waits. The class covers runs in which nobody waits while owning a mutex; `MutexChain` covers the others on values, without update in place.
- Scheduler: dummy threads, the idle thread, which is never in a queue, and aborting an essential thread, which stops the system.
- Scheduler.Kernel.PriqAdd: the sorted list; the red-black tree and the bitmap variants of the run queue are not modelled.
- Ptables.PtableSet.Map: leaf-level mappings only; large pages in page directories are not modelled.
- Ptables.PtableSet.WriteEntry: an entry is an address and a set of flags instead of one word; `WordsSplit` and `MasksDisjoint` show that nothing is lost. Writing the tables to a file is left out.
- MsgQueues.MsgQueue.Put: poll events and allocation of the buffer are not modelled.
- Polling: triggered work, which shares the event lists, and the copy of the event array for user threads.
- ModuleSort.Sort: reading module files and the text of the error message are not modelled.
- Semaphores, stacks, futexes, condition variables, heaps, memory domains and system call wrappers: they would add easier members of the same kind.
