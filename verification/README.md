# Zephyr kernel objects and build scripts in Dafny

This project models the parts of Zephyr 2.4 where several functions have to agree with one
another: the kernel's timeout queue and timers, pipes, ready queues and uniprocessor scheduler,
mutexes, message queues, memory slabs, polling and mailboxes, and three build scripts: the module
sort, the system call marshalling and the interrupt tables.

Each component comes as a view and, where the source works in place, as a class. The view is a
state and a step function; an invariant is proved for every step, then for every run, and the main
theorems are read off it. The class has the source's fields, loops and branches, and each of its
methods is proved to do exactly what the view's step says. Blocking calls are one step up to the
point where the thread pends; timeouts and wake-ups are steps of their own. One processor with an
atomic swap is modelled, 64-bit ticks and the non-legacy timeout API.

- `Timeouts`, `TimeoutLedger`, `TimeoutQueue`: delta list, ledger of deadlines and fates, the in-place
  queue. `Timers`, `TimerRuns`, `TimerBeats`, `KTimers`: timers, what their status counts and when
  they expire.
- `Pipes`, `PipeOutcomes`, `KPipes`: the byte stream, what callers see, and the ring with its working
  lists.
- `RunQueues`, `KRunQueues`, `Scheduler`, `KThreads`, `KScheduler`: three ready queues that stand for
  one, the thread states and the cached choice, and the same on state bytes and any of the three
  queues. `WaitQueues`: wait queues that carry data.
  `SchedulerEffects`: what each call makes of its thread, the queue and the choice.
- `Mutexes`, `MsgQueues`, `MemSlabs`, `Polls`, `Mailboxes` and their `K` counterparts; `PollOutcomes`
  and `MailboxOutcomes`: what callers are told.
- `ModuleSort`, `ModuleCycles`, `Syscalls`, `IsrTables`: the build scripts and what has to match
  them at run time.

Where the code falls short of what it is meant to do, the model follows the code. The members named
say exactly when it does what it should, and what it does otherwise or an input that fails:

- With sloppy idle the driver is told to wait for ever although a timeout is pending
  (`NextWaitInTime`, `SloppyIdleOversleeps`).
- An absolute timeout is due a tick early unless it is the very next tick (`AbsoluteDeadline`);
  `z_timeout_expires` is early by the ticks not yet announced (`TimeoutExpires`).
- A timer period of one tick becomes two, and a period of `K_FOREVER` becomes one
  (`RestartInterval`, `OneShot`).
- When the tree queue's order key wraps, a newcomer overtakes an older thread of its priority
  (`InsertAgrees`, `WrapBreaksArrivalOrder`, reached as `WrapIsReached` shows).
- Suspending a thread drops a timeout it waits with, so resuming does not undo it
  (`ResumeUndoesSuspend`).
- A waiter whose mutex wait timed out readjusts an owner that may be gone (`ReadjustCanFault`,
  `SafeUnlessStranded`), and readjusting demotes an owner above the priority ceiling
  (`ReadjustDemotes`).
- A slab with blocks of no size gets a cyclic free list (`BuiltChain`, `SizelessSlabLoops`).
- A module that lists a dependency twice fails the sort (`SortableIff`, `RepeatedDependencyFails`).
- The length a system call handler checks leaves the last word of the overflow array out
  (`CheckCoversAllButLast`, `SeventhWordNotCovered`).
- Third-level interrupts that differ only in their lowest byte share a slot (`Level3Distinct`,
  `Level3Clash`), and numbers beyond the configured levels get different indices at build time and
  at run time (`IndicesAgree`, `OneLevelDisagrees`, `TwoLevelsDisagree`, `ThreeLevelsDisagree`).

## Model

| member | source | states |
|---|---|---|
| Timeouts.TickAbs | zephyrproject/zephyr/include/sys_clock.h:108 | the encoding of absolute timeouts is its own inverse |
| Timeouts.PlaceIs | zephyrproject/zephyr/kernel/timeout.c:115-123 | the position the insertion walk finds is the only one with all earlier-or-equal deadlines before it and later ones after it |
| Timeouts.SumInsert | zephyrproject/zephyr/kernel/timeout.c:110-127 | inserting a node leaves the deadline of every other node, as the sum of deltas up to it, unchanged, and gives the new one its own |
| Timeouts.SumRemoveAt | zephyrproject/zephyr/kernel/timeout.c:58-65 | unlinking a node leaves the deadline of every other node unchanged |
| Timeouts.SumFire | zephyrproject/zephyr/kernel/timeout.c:234-246 | unlinking the first node while the clock moves by its delta leaves every other absolute deadline unchanged |
| Timeouts.SumFinish | zephyrproject/zephyr/kernel/timeout.c:248-253 | absorbing the remaining ticks into the clock and the first delta leaves every absolute deadline unchanged |
| Timeouts.InsertNeverDueNow | zephyrproject/zephyr/kernel/timeout.c:110-127 | a timeout added while announcing never joins the leading nodes that are due at once |
| Timeouts.FireDescends | zephyrproject/zephyr/kernel/timeout.c:234-246 | each pass of the announcement loop lowers the pair of remaining ticks and number of leading zero deltas |
| TimeoutLedger.AddedKeepsInv | zephyrproject/zephyr/kernel/timeout.c:87-133 | after an add the delta list encodes exactly the old deadlines and the new one, in deadline order with ties by age |
| TimeoutLedger.RemovedKeepsInv | zephyrproject/zephyr/kernel/timeout.c:135-147 | after an abort the delta list encodes exactly the other deadlines, and the aborted timeout is on record as aborted |
| TimeoutLedger.ExpiredKeepsInv | zephyrproject/zephyr/kernel/timeout.c:234-243 | the timeout that fires is the earliest and oldest pending one, and it fires with the clock at its deadline |
| TimeoutLedger.ActAll | zephyrproject/zephyr/kernel/timeout.c:243-245 | whatever a callback adds and aborts keeps the invariant, the clock and past fates, and makes nothing more due now |
| TimeoutLedger.Drain | zephyrproject/zephyr/kernel/timeout.c:232-246 | the announcement loop ends whatever its callbacks add, stops only when nothing is due, and conserves clock plus remaining ticks |
| TimeoutLedger.AnnounceReachesDeadlines | zephyrproject/zephyr/kernel/timeout.c:224-258 | announcing n ticks moves the clock by exactly n, fires only timeouts due in those ticks, and leaves nothing overdue, for all callbacks |
| TimeoutLedger.AnnounceFiresUnaborted | zephyrproject/zephyr/kernel/timeout.c:224-258 | a pending timeout due within the announced ticks fires at its deadline unless a callback aborts that timeout |
| TimeoutLedger.Run | zephyrproject/zephyr/kernel/timeout.c:87-147 | every run of adds, aborts and announcements keeps the invariant and never changes a fate once met |
| TimeoutLedger.EveryRun | zephyrproject/zephyr/kernel/timeout.c:58-147 | after every run from boot each timeout ever added is pending ahead and linked, or aborted, or fired exactly once at its deadline; firings are in deadline order, ties by age |
| TimeoutQueues.TimeoutQueue.AddTimeout | zephyrproject/zephyr/kernel/timeout.c:87-133 | the in-place walk and splice does to the queue what the ledger says an add does; a relative timeout is due that many ticks plus one from the present |
| TimeoutQueues.TimeoutQueue.LinkInOrder | zephyrproject/zephyr/kernel/timeout.c:115-127 | the walk that subtracts deltas inserts the node where its deadline belongs |
| TimeoutQueues.TimeoutQueue.RemoveTimeout | zephyrproject/zephyr/kernel/timeout.c:58-65 | unlinking in place leaves every other node where it was in order and due when it was |
| TimeoutQueues.TimeoutQueue.AbortTimeout | zephyrproject/zephyr/kernel/timeout.c:135-147 | reports whether the timeout was active and does what the ledger says an abort does |
| TimeoutQueues.TimeoutQueue.Announce | zephyrproject/zephyr/kernel/timeout.c:224-258 | the loop with its callbacks does what the ledger says an announcement does, and terminates |
| TimeoutQueues.TimeoutQueue.NextTimeout | zephyrproject/zephyr/kernel/timeout.c:72-85 | the driver is never told to wait past a pending deadline if and only if MAX_WAIT is a number of ticks, nothing is pending or something is due; a wait below the limit reaches a deadline |
| TimeoutQueues.NextWaitInTime | zephyrproject/zephyr/kernel/timeout.c:26-27 | the same for the computed wait, for every MAX_WAIT including K_TICKS_FOREVER |
| TimeoutQueues.SloppyIdleOversleeps | zephyrproject/zephyr/kernel/timeout.c:26-27 | with sloppy idle a timeout ten ticks ahead leaves the driver waiting for ever |
| TimeoutQueues.TimeoutQueue.TimeoutRemaining | zephyrproject/zephyr/kernel/timeout.c:150-166 | the ticks returned, counted from the present, reach exactly the recorded deadline; 0 for an inactive timeout |
| TimeoutQueues.TimeoutQueue.TimeoutExpires | zephyrproject/zephyr/kernel/timeout.c:179-188 | the tick returned is the deadline if and only if the driver has counted nothing beyond the announced ticks; otherwise it is too early by that much |
| TimeoutQueues.FirstIsEarliest | zephyrproject/zephyr/kernel/timeout.c:44-49 | the first node carries the earliest of all pending deadlines |
| TimeoutQueues.AbsoluteDeadline | zephyrproject/zephyr/kernel/timeout.c:101-110 | an absolute timeout in the future is met if and only if it is the very next tick; any later one is due one tick early |
| TimeoutQueues.RelativeDeadline | zephyrproject/zephyr/kernel/timeout.c:101-110 | a relative timeout is due that many ticks plus one from the clock, and from what the driver has counted beyond it unless ticks are being announced |
| TimeoutQueues.AddedForNothing | zephyrproject/zephyr/kernel/timeout.c:87-133 | adding a timeout that never expires, or one that is linked, changes nothing |
| TimeoutQueues.AbortMeetsOne | zephyrproject/zephyr/kernel/timeout.c:135-147 | an abort ends the one pending instance of the timeout and no other, and unlinks it |
| TimerRuns.DoneKeepsCount | zephyrproject/zephyr/kernel/timer.c:109-235 | starting, stopping, reading, waiting for the timer and other timeouts keep the status equal to the expiries since the last reset, and every past read right |
| TimerRuns.PassKeepsCount | zephyrproject/zephyr/kernel/timer.c:46-88 | one pass of the announcement loop counts an expiry exactly when it is the timer's own, whatever its handler calls |
| TimerRuns.StatusCountsExpiries | zephyrproject/zephyr/kernel/timer.c:46-235 | after every run the status is the number of expiries since the last reset, each read returned those between two resets, and since the start none is lost or read twice |
| KTimers.KTimer.constructor | zephyrproject/zephyr/kernel/timer.c:90-107 | a new timer starts with nothing counted |
| KTimers.KTimer.Start | zephyrproject/zephyr/kernel/timer.c:109-147 | starting leaves one expiry pending, due max(1, d) ticks from the present, and stores a period of max(1, p - 1), or 0 for 0; K_FOREVER changes nothing; the count stays right |
| KTimers.KTimer.Stop | zephyrproject/zephyr/kernel/timer.c:160-178 | stopping unlinks the timeout and wakes one waiter if the timer ran, and nothing otherwise; the count stays right |
| KTimers.KTimer.StatusGet | zephyrproject/zephyr/kernel/timer.c:189-198 | reading returns the expiries since the last reset and resets |
| KTimers.KTimer.StatusSync | zephyrproject/zephyr/kernel/timer.c:209-235 | a read waits exactly when nothing was counted and the timer runs, and otherwise returns the expiries since the last reset |
| KTimers.KTimer.SyncReturns | zephyrproject/zephyr/kernel/timer.c:217-235 | a woken waiter returns what was counted by then and resets |
| KTimers.KTimer.HandleExpiry | zephyrproject/zephyr/kernel/timer.c:46-88 | an expiry restarts a periodic timer, counts one more, runs the user function and wakes one waiter |
| KTimers.KTimer.Announce | zephyrproject/zephyr/kernel/timeout.c:224-258 | the announcement loop with the timer's handler among its callbacks does what the account says and keeps the count right |
| Timers.FirstExpiry | zephyrproject/zephyr/kernel/timer.c:136-146 | the first expiry comes max(1, duration) ticks after the present, which is ahead of the clock by what the driver counted unless ticks are being announced |
| Timers.RestartInterval | zephyrproject/zephyr/kernel/timer.c:133-135 | a restart is due one period after the expiry if and only if the period is at least two ticks and nothing is counted past the announced ticks; a period of one becomes two |
| Timers.OneShot | zephyrproject/zephyr/kernel/timer.c:133-135 | a timer is one-shot if and only if its period is zero: K_FOREVER turns into a period of one |
| TimerBeats.StartSchedules | zephyrproject/zephyr/kernel/timer.c:133-146 | a start leaves one expiry pending, max(1, d) ticks from the present, ends what was pending before, stores a period of max(1, p - 1), or 0 for 0, and resets the status |
| TimerBeats.AbsoluteStart | zephyrproject/zephyr/kernel/timer.c:136-146 | an absolute start is due one tick early, as any absolute timeout, or in the next tick |
| TimerBeats.StartForeverIsNothing | zephyrproject/zephyr/kernel/timer.c:112-114 | a start with K_FOREVER changes nothing |
| TimerBeats.StopUnschedules | zephyrproject/zephyr/kernel/timer.c:160-178 | after a stop nothing is pending; a running timer lets its first waiter go, a stopped one changes nothing |
| TimerBeats.ExpiryLetsOneGo | zephyrproject/zephyr/kernel/timer.c:46-88 | the timer's own expiry counts one and lets exactly the first waiter go; another timeout's changes nothing of it |
| TimerBeats.StopFromCallback | zephyrproject/zephyr/kernel/timer.c:60-75 | the restart comes before the user function, so a stop from there leaves nothing pending |
| TimerBeats.SyncWaits | zephyrproject/zephyr/kernel/timer.c:209-235 | a thread joins the waiters exactly when nothing was counted and the timer runs, and otherwise reads |
| TimerBeats.ReadStartsOver | zephyrproject/zephyr/kernel/timer.c:189-235 | a read, also one after waiting, returns what was counted and resets it, and touches no timeout |
| TimerBeats.CallKeepsTicking | zephyrproject/zephyr/kernel/timer.c:46-67 | the timer's own expiry is on its beat and makes the next one pending; another's leaves it alone |
| TimerBeats.PassKeepsTicking | zephyrproject/zephyr/kernel/timer.c:46-88 | so does a pass of the announcement loop, whatever its user function does to other timeouts and readers |
| TimerBeats.RunKeepsTicking | zephyrproject/zephyr/kernel/timer.c:46-235 | a ticking timer ticks on over every run that neither starts nor stops it |
| TimerBeats.NoDrift | zephyrproject/zephyr/kernel/timer.c:109-147 | after a start with d and p, over every such run of timer calls and announcements, expiry number n came at now + counted ticks + max(1, d) + n*p and none up to the clock is missing; p of one counts as two |
| TimerBeats.ExpiresOnce | zephyrproject/zephyr/kernel/timer.c:109-147 | with a period of zero there is exactly one expiry, at that first tick, once the clock has reached it, and none before or after |
| Pipes.FedIsSatisfied | zephyrproject/zephyr/kernel/pipes.c:475-506 | readers a put takes off the queue leave with all they asked for; those left still want something; none is left exactly when all demand is met |
| Pipes.FedInOrder | zephyrproject/zephyr/kernel/pipes.c:475-506 | what the readers received, one after the other, is exactly the front of what was put |
| Pipes.ConsumeTakesFront | zephyrproject/zephyr/kernel/pipes.c:634-697 | taking bytes from waiting writers takes the front of what they offer and leaves the rest in order |
| Pipes.PouredKeepsInv | zephyrproject/zephyr/kernel/pipes.c:452-515 | a put keeps the byte stream and the waiting discipline; if it is not accepted whole no reader waits and the ring is full |
| Pipes.DrawnKeepsInv | zephyrproject/zephyr/kernel/pipes.c:607-697 | a get keeps the byte stream and the waiting discipline; if it asks for more than there is no writer waits and the ring is empty |
| Pipes.PutKeepsInv | zephyrproject/zephyr/kernel/pipes.c:426-586 | a put, also one that ends waiting, keeps the invariant |
| Pipes.GetKeepsInv | zephyrproject/zephyr/kernel/pipes.c:588-739 | a get, also one that ends waiting, keeps the invariant |
| Pipes.Step | zephyrproject/zephyr/kernel/pipes.c:426-739 | every call and every timeout of a waiter keeps the invariant |
| Pipes.EveryRun | zephyrproject/zephyr/kernel/pipes.c:426-739 | over every run bytes delivered followed by the ring are the bytes accepted, in order; readers wait only on an empty ring, writers only on a full one, never both |
| Pipes.FreshIsValid | zephyrproject/zephyr/kernel/pipes.c:127-140 | a pipe of any size, also zero, starts valid |
| Pipes.PutReportsAccepted | zephyrproject/zephyr/kernel/pipes.c:517-586 | a put reports exactly the bytes accepted, succeeds exactly with its minimum, waits exactly when it may, is not taken whole and its minimum is zero or unmet, and then with exactly the rest |
| Pipes.GetReportsDelivered | zephyrproject/zephyr/kernel/pipes.c:699-739 | a get reports exactly the bytes delivered, succeeds exactly with its minimum, and waits for exactly the rest |
| Pipes.NoWaitAllOrNothing | zephyrproject/zephyr/kernel/pipes.c:324-338 | a call that may not wait fails without any effect or succeeds having moved at least the minimum; -EAGAIN is never reached |
| PipeOutcomes.PutOutcome | zephyrproject/zephyr/kernel/pipes.c:426-586 | with the bytes taken as the smaller of data and demand plus room: it waits if and only if it may, something is left and the minimum is zero or unmet; -EIO without effect, -EINVAL or success with that count otherwise |
| PipeOutcomes.GetOutcome | zephyrproject/zephyr/kernel/pipes.c:588-739 | the same for a get, which takes from the ring and then the waiting writers |
| PipeOutcomes.TimeoutOutcome | zephyrproject/zephyr/kernel/pipes.c:375-398 | a timed-out waiter leaves the queue and reports what it moved, with 0 if that reaches its minimum and -EAGAIN otherwise |
| PipeOutcomes.PutFeedsReaders | zephyrproject/zephyr/kernel/pipes.c:475-515 | waiting readers get the front of the data one after the other and the ring the next of it |
| PipeOutcomes.GetLeavesTheRest | zephyrproject/zephyr/kernel/pipes.c:607-697 | what a get leaves, in ring and writers, is the rest in order, and the ring is full if a writer still waits |
| PipeOutcomes.ReaderStandsLast | zephyrproject/zephyr/kernel/sched.c:963-978 | a reader that waits stands behind all of the same or a higher priority and before the others |
| PipeOutcomes.WriterStandsLast | zephyrproject/zephyr/kernel/sched.c:963-978 | a writer that waits stands behind all of the same or a higher priority and before the others |
| PipeOutcomes.EveryRunInOrder | zephyrproject/zephyr/kernel/pipes.c:426-739 | after every run those who wait stand in order of priority |
| KPipes.XferPrepare | zephyrproject/zephyr/kernel/pipes.c:312-375 | fails exactly when the call may not wait and the minimum is out of reach; otherwise moves exactly the waiters that are served in full |
| KPipes.SliceExtends | zephyrproject/zephyr/kernel/pipes.c:217-244 | bytes written in one piece behind the used part of the ring extend its contents |
| KPipes.SliceSplits | zephyrproject/zephyr/kernel/pipes.c:254-280 | bytes read in one piece are the front of the contents |
| KPipes.KPipe.XferIn | zephyrproject/zephyr/kernel/pipes.c:194-207 | copies as much as fits and touches nothing else |
| KPipes.KPipe.XferOut | zephyrproject/zephyr/kernel/pipes.c:194-207 | copies out as much as fits |
| KPipes.KPipe.BufferPut | zephyrproject/zephyr/kernel/pipes.c:217-244 | two passes append as much as there is room for, across the wrap |
| KPipes.KPipe.BufferGet | zephyrproject/zephyr/kernel/pipes.c:254-280 | two passes take as much as there is from the front, across the wrap |
| KPipes.KPipe.ReadAvail | zephyrproject/zephyr/kernel/pipes.c:805-830 | the fill computed from the indices is the number of bytes in the ring |
| KPipes.KPipe.WriteAvail | zephyrproject/zephyr/kernel/pipes.c:842-867 | the room computed from the indices is the size less the bytes in the ring |
| KPipes.KPipe.ServeList | zephyrproject/zephyr/kernel/pipes.c:475-491 | the working list is served in full, in order |
| KPipes.KPipe.FeedReaders | zephyrproject/zephyr/kernel/pipes.c:475-506 | after the direct copies the served and the waiting readers are those the stream view says |
| KPipes.KPipe.Pour | zephyrproject/zephyr/kernel/pipes.c:475-515 | all copies of a put together are the stream view of it |
| KPipes.KPipe.Put | zephyrproject/zephyr/kernel/pipes.c:426-586 | the whole put refines the stream view, with its results and error codes; it blocks if and only if it may, is not taken whole and its minimum is zero or unmet |
| KPipes.KPipe.DrawFromList | zephyrproject/zephyr/kernel/pipes.c:634-658 | copying from the working list moves the front of its offer to the reader |
| KPipes.KPipe.DrawDirect | zephyrproject/zephyr/kernel/pipes.c:618-669 | ring, working list and first waiter give the reader the front of the stream |
| KPipes.KPipe.DrawFromWaiter | zephyrproject/zephyr/kernel/pipes.c:660-669 | the writer left on the queue gives what the reader still wants, and what it offers shrinks by just that |
| KPipes.KPipe.Refill | zephyrproject/zephyr/kernel/pipes.c:676-697 | refilling moves bytes from the writers to the ring without changing the stream |
| KPipes.KPipe.RefillFromList | zephyrproject/zephyr/kernel/pipes.c:676-688 | what the working list has left goes into the ring |
| KPipes.KPipe.RefillFromWaiter | zephyrproject/zephyr/kernel/pipes.c:690-697 | the first writer left fills the ring |
| KPipes.KPipe.Draw | zephyrproject/zephyr/kernel/pipes.c:618-697 | all copies of a get together are the stream view of it |
| KPipes.KPipe.Get | zephyrproject/zephyr/kernel/pipes.c:588-739 | the whole get refines the stream view, with its results and error codes; it blocks if and only if it may, is not served whole and its minimum is zero or unmet |
| KPipes.KPipe.ReaderExpires | zephyrproject/zephyr/kernel/pipes.c:724-738 | a timed-out reader leaves with what it got and the code its minimum calls for |
| KPipes.KPipe.WriterExpires | zephyrproject/zephyr/kernel/pipes.c:568-585 | a timed-out writer leaves with what it gave and the code its minimum calls for |
| RunQueues.FlattenAdd | zephyrproject/zephyr/kernel/sched.c:1079-1085 | adding to one of the priority lists is adding to their concatenation in priority order |
| RunQueues.FlattenRemove | zephyrproject/zephyr/kernel/sched.c:1087-1101 | removing from one of the priority lists is removing from their concatenation |
| RunQueues.FlattenHead | zephyrproject/zephyr/kernel/sched.c:1103-1117 | the head of the first non-empty list is the head of the concatenation |
| RunQueues.InsertAgrees | zephyrproject/zephyr/kernel/sched.c:1005-1043 | inserting in tree order puts the thread where the sorted list would if and only if its key arrives last among equal priorities |
| RunQueues.RbAddAgrees | zephyrproject/zephyr/kernel/sched.c:1022-1043 | adding to the tree agrees with the sorted list as long as the order key does not wrap |
| RunQueues.WrapBreaksArrivalOrder | zephyrproject/zephyr/kernel/sched.c:1028-1040 | at the wrap the tree puts a newcomer before an older thread of the same priority |
| RunQueues.WrapIsReached | zephyrproject/zephyr/kernel/sched.c:1022-1060 | that state is reached from empty queues by one thread that stays and another that comes and goes |
| RunQueues.AddAllAgrees | zephyrproject/zephyr/kernel/sched.c:963-1085 | an add keeps sorted list, multi-queue and tree equal |
| RunQueues.RemoveAllAgrees | zephyrproject/zephyr/kernel/sched.c:980-1101 | a remove keeps sorted list, multi-queue and tree equal |
| RunQueues.ApplyAgrees | zephyrproject/zephyr/kernel/sched.c:792-816 | an add, a remove or a change of priority keeps the three queues equal |
| RunQueues.EveryRunAgrees | zephyrproject/zephyr/kernel/sched.c:963-1117 | after every run below the wrap the three queues hold the same threads in the same order and the mask has exactly the bits of the non-empty lists |
| RunQueues.EmptyAgrees | zephyrproject/zephyr/kernel/sched.c:1133-1157 | empty queues agree |
| RunQueues.MqBestIs | zephyrproject/zephyr/kernel/sched.c:1103-1117 | the lowest bit of the mask finds the head of the concatenated lists |
| RunQueues.BestAgrees | zephyrproject/zephyr/kernel/sched.c:994-1117 | the three best functions name the same thread |
| RunQueues.AddSorted | zephyrproject/zephyr/kernel/sched.c:963-978 | adding keeps the list in order of priority |
| RunQueues.AddStandsLast | zephyrproject/zephyr/kernel/sched.c:963-978 | a thread is added behind all of the same or a higher priority and before the others |
| RunQueues.KeysStartOver | zephyrproject/zephyr/kernel/sched.c:1045-1060 | the tree's keys restart exactly when a removal leaves it empty |
| KRunQueues.SortedList.Add | zephyrproject/zephyr/kernel/sched.c:963-978 | the walk inserts after all threads of the same or a higher priority |
| KRunQueues.SortedList.Remove | zephyrproject/zephyr/kernel/sched.c:980-992 | removes just the given thread |
| KRunQueues.SortedList.Best | zephyrproject/zephyr/kernel/sched.c:994-1003 | a queued thread that none of better priority is queued with, and the first of those; nothing exactly when the list is empty |
| KRunQueues.MultiList.Add | zephyrproject/zephyr/kernel/sched.c:1079-1085 | appends to the list of the priority and sets its mask bit; the concatenation is the sorted list with the thread added |
| KRunQueues.MultiList.Remove | zephyrproject/zephyr/kernel/sched.c:1087-1101 | removes from the list of the priority and clears the bit exactly when it empties |
| KRunQueues.MultiList.Best | zephyrproject/zephyr/kernel/sched.c:1103-1117 | the head of the lowest list with a bit set |
| KRunQueues.TreeQueue.Add | zephyrproject/zephyr/kernel/sched.c:1022-1043 | the walk inserts with the next key, the loop renumbers all nodes in order when the key wraps; below the wrap the in-order threads are the sorted list with the thread added |
| KRunQueues.TreeQueue.Remove | zephyrproject/zephyr/kernel/sched.c:1045-1060 | the others keep their order and their keys, and the keys restart exactly when the tree empties |
| KRunQueues.TreeQueue.Best | zephyrproject/zephyr/kernel/sched.c:1062-1071 | the first node in order, nothing exactly when the tree is empty |
| KRunQueues.PriQueue.Add | zephyrproject/zephyr/kernel/sched.c:28-44 | whichever queue the build chose, its threads best first are the sorted list with the thread added |
| KRunQueues.PriQueue.Remove | zephyrproject/zephyr/kernel/sched.c:28-44 | whichever queue the build chose, its threads best first are the sorted list with the thread taken out |
| KRunQueues.PriQueue.Best | zephyrproject/zephyr/kernel/sched.c:28-44 | whichever queue the build chose, the thread of the highest priority that came first |
| Scheduler.PendKeepsInv | zephyrproject/zephyr/kernel/sched.c:637-688 | pending a thread keeps flags, queue and cached choice in agreement |
| Scheduler.SleepKeepsInv | zephyrproject/zephyr/kernel/sched.c:1259-1310 | sleeping keeps them in agreement |
| Scheduler.SuspendKeepsInv | zephyrproject/zephyr/kernel/sched.c:462-478 | suspending, also the running thread from an interrupt, keeps them in agreement |
| Scheduler.WakeKeepsInv | zephyrproject/zephyr/kernel/sched.c:414-432 | clearing state bits and readying keeps them in agreement |
| Scheduler.AbortKeepsInv | zephyrproject/zephyr/kernel/sched.c:521-587 | aborting any thread, also the running one from an interrupt, and waking those who wait to join it keeps them in agreement |
| Scheduler.AbortWakesJoiners | zephyrproject/zephyr/kernel/sched.c:569-580 | everybody who waits to join an aborted thread is woken, and is ready exactly if nothing else holds them |
| Scheduler.SetPrioKeepsInv | zephyrproject/zephyr/kernel/sched.c:792-816 | changing a priority keeps queue order and cached choice in agreement |
| Scheduler.YieldKeepsInv | zephyrproject/zephyr/kernel/sched.c:1232-1249 | yielding keeps them in agreement |
| Scheduler.UnlockKeepsInv | zephyrproject/zephyr/kernel/sched.c:883-899 | unlocking the scheduler keeps them in agreement |
| Scheduler.StepKeepsInv | zephyrproject/zephyr/kernel/sched.c:386-503 | after every entry point the QUEUED flag is membership, exactly the ready threads are queued by priority, and the cache is the head, or the running thread where it cannot be preempted |
| Scheduler.BootInv | zephyrproject/zephyr/kernel/init.c:251-275 | the state at boot satisfies the invariant |
| Scheduler.EveryRun | zephyrproject/zephyr/kernel/sched.c:386-664 | the invariant holds after every run of entry points and context switches |
| Scheduler.BestReadyRunsNext | zephyrproject/zephyr/kernel/sched.c:121-277 | when the running thread may be switched away from, the cached choice is a ready thread of the highest ready priority, and idle only if nothing else is ready |
| Scheduler.NoInversionAfterSwitch | zephyrproject/zephyr/kernel/sched.c:844-865 | a switch from a preemptible or stopped thread leaves nothing better ready |
| Scheduler.CooperativeKeepsRunning | zephyrproject/zephyr/kernel/sched.c:121-165 | a thread that cannot be preempted stays chosen whatever is unpended, started, resumed, woken up or timed out |
| Scheduler.YieldGivesWay | zephyrproject/zephyr/kernel/sched.c:1232-1249 | a yield gives way if and only if another ready thread has the same or a higher priority |
| Scheduler.ResumeUndoesSuspend | zephyrproject/zephyr/kernel/sched.c:462-503 | a thread suspended and resumed is in the state it was in if and only if it was not suspended and had no timeout pending |
| Scheduler.UnpendUndoesPend | zephyrproject/zephyr/kernel/sched.c:654-787 | a ready thread that pends is in the state it was in once unpended or timed out |
| Scheduler.SleepEnds | zephyrproject/zephyr/kernel/sched.c:1259-1384 | a sleeper is in the state it was in once its timeout comes or it is woken up |
| Scheduler.StartMakesReady | zephyrproject/zephyr/kernel/thread.c:404-420 | a new thread is ready once started, or once its delay is over, and not before |
| Scheduler.DeadStaysDead | zephyrproject/zephyr/kernel/sched.c:521-635 | no call brings an aborted thread back |
| Scheduler.OthersUntouched | zephyrproject/zephyr/kernel/sched.c:414-816 | a call for one thread, and those who wait to join it, changes no state of another |
| SchedulerEffects.SetPrioEffect | zephyrproject/zephyr/kernel/sched.c:792-816 | the thread has the new priority and nothing else of any thread changes; a ready one moves to the last place of its new priority and the choice is best for the new priorities |
| SchedulerEffects.CreateEffect | zephyrproject/zephyr/kernel/thread.c:653-676 | a new thread has the priority it was given, is not started, and changes nothing for others |
| SchedulerEffects.UnpendEffect | zephyrproject/zephyr/kernel/sched.c:711-787 | the wait and its timeout end, what else holds the thread still does, and if it may run it joins last of its priority |
| SchedulerEffects.ExpireEffect | zephyrproject/zephyr/kernel/sched.c:727-740 | the timeout ends wait, sleep, suspension and start delay, and the thread joins last of its priority if it may run |
| SchedulerEffects.ResumeStartEffect | zephyrproject/zephyr/kernel/sched.c:448-503 | resuming ends a suspension and starting a delay, nothing else, and neither does anything otherwise |
| SchedulerEffects.WakeupEffect | zephyrproject/zephyr/kernel/sched.c:1361-1384 | it wakes a sleeper, or a thread suspended and nothing else, and changes nothing otherwise |
| SchedulerEffects.PendEffect | zephyrproject/zephyr/kernel/sched.c:654-688 | the thread waits, with a timeout if it has one, and has left the queue, the others in order; the running one gives way to the choice |
| SchedulerEffects.SuspendEffect | zephyrproject/zephyr/kernel/sched.c:462-478 | the thread is suspended, has lost its timeout and has left the queue, the others in order |
| SchedulerEffects.SleepEffect | zephyrproject/zephyr/kernel/sched.c:1259-1310 | the running thread sleeps with a timeout, has left the queue and gives way to the choice |
| SchedulerEffects.BuriedEffect | zephyrproject/zephyr/kernel/sched.c:531-569 | the thread is dead, waits for nothing and has left the queue, the others in order |
| SchedulerEffects.AbortEffect | zephyrproject/zephyr/kernel/sched.c:521-587 | aborting a dead thread does nothing; the running thread stays, and from idle the best ready one is next |
| SchedulerEffects.YieldEffect | zephyrproject/zephyr/kernel/sched.c:1232-1249 | no state changes, and the running thread moves to the last place of its priority |
| SchedulerEffects.LockEffect | zephyrproject/zephyr/kernel/sched.c:876-899 | a lock makes the running thread not preemptible, and the unlock restores it and the choice |
| SchedulerEffects.SwitchEffect | zephyrproject/zephyr/kernel/sched.c:844-865 | the chosen thread runs and nothing else changes |
| KThreads.TestsMean | zephyrproject/zephyr/kernel/include/ksched.h:118-136 | one mask over the state byte tells whether a thread may run, and one 16-bit comparison of lock count and priority whether it may be preempted |
| KThreads.WithMeans | zephyrproject/zephyr/kernel/include/ksched.h:180-183 | setting a flag of the state byte sets that flag and no other |
| KThreads.WithoutMeans | zephyrproject/zephyr/kernel/include/ksched.h:185-189 | clearing a flag of the state byte clears that flag and no other |
| KThreads.ByteMeans | zephyrproject/zephyr/kernel/sched.c:1367-1372 | the state byte equals SUSPENDED exactly when the thread is suspended and nothing else |
| KThreads.LocksMean | zephyrproject/zephyr/kernel/include/ksched.h:271-294 | counting the lock byte down and up modulo 256 is nesting one deeper and one less, each undoing the other |
| KScheduler.ReadyQueue.constructor | zephyrproject/zephyr/kernel/init.c:251-275 | from an empty queue of any of the three kinds the state at boot, with the invariant |
| KScheduler.ReadyQueue.Mark | zephyrproject/zephyr/kernel/include/ksched.h:180-183 | one flag of one thread is raised and nothing else changes |
| KScheduler.ReadyQueue.Unmark | zephyrproject/zephyr/kernel/include/ksched.h:185-189 | one flag of one thread is lowered and nothing else changes |
| KScheduler.ReadyQueue.NextUp | zephyrproject/zephyr/kernel/sched.c:184-235 | the head of the queue or idle; a running thread that is being aborted ends up dead, which changes nothing else |
| KScheduler.ReadyQueue.UpdateCache | zephyrproject/zephyr/kernel/sched.c:386-412 | afterwards the cached choice is the head of the queue, or the running thread where that cannot be preempted |
| KScheduler.ReadyQueue.ReadyThread | zephyrproject/zephyr/kernel/sched.c:414-432 | a state that is right but for one thread that became ready becomes right, on the bytes and on any of the three queues |
| KScheduler.ReadyQueue.UnreadyThread | zephyrproject/zephyr/kernel/sched.c:637-644 | the thread is off the queue, everybody else is on it exactly if they were, and the choice is right |
| Scheduler.CreateKeepsInv | zephyrproject/zephyr/kernel/thread.c:653-676 | a new thread is neither ready nor queued, and the choice stands |
| KScheduler.ReadyQueue.Create | zephyrproject/zephyr/kernel/thread.c:653-676 | a thread of the given priority that is not ready is created on the bytes, with the invariant |
| KScheduler.ReadyQueue.Pend | zephyrproject/zephyr/kernel/sched.c:676-770 | pending and swapping on the bytes and any of the three queues, with the invariant |
| KScheduler.ReadyQueue.Unpend | zephyrproject/zephyr/kernel/sched.c:711-787 | unpending and readying on the bytes and any of the three queues, with the invariant |
| KScheduler.ReadyQueue.Expire | zephyrproject/zephyr/kernel/sched.c:727-740 | a thread timeout on the bytes and any of the three queues, with the invariant |
| KScheduler.ReadyQueue.Suspend | zephyrproject/zephyr/kernel/sched.c:462-478 | suspending on the bytes and any of the three queues, with the invariant |
| KScheduler.ReadyQueue.Resume | zephyrproject/zephyr/kernel/sched.c:489-503 | resuming in place; a thread that is not suspended is left alone |
| KScheduler.ReadyQueue.Start | zephyrproject/zephyr/kernel/sched.c:448-460 | starting in place; a started thread is left alone |
| KScheduler.ReadyQueue.Sleep | zephyrproject/zephyr/kernel/sched.c:1259-1310 | sleeping and swapping on the bytes and any of the three queues, with the invariant |
| KScheduler.ReadyQueue.SetPrio | zephyrproject/zephyr/kernel/sched.c:792-816 | the thread has the new priority; a ready thread is requeued, the choice is best for the new priorities, and reports whether rescheduling is needed |
| KScheduler.ReadyQueue.Yield | zephyrproject/zephyr/kernel/sched.c:1232-1249 | moves the running thread behind its equals |
| KScheduler.ReadyQueue.Lock | zephyrproject/zephyr/kernel/sched.c:876-881 | the lock byte counts down, which is nesting one deeper, and the running thread is not preemptible; with the invariant |
| KScheduler.ReadyQueue.Unlock | zephyrproject/zephyr/kernel/sched.c:883-899 | the lock byte counts up and the choice is reconsidered, with the invariant |
| KScheduler.ReadyQueue.Wakeup | zephyrproject/zephyr/kernel/sched.c:1361-1384 | wakes a sleeping thread, or one whose state byte says suspended and nothing else, with the invariant |
| KScheduler.ReadyQueue.Bury | zephyrproject/zephyr/kernel/sched.c:531-569 | a live thread is marked as being aborted and leaves the ready queue or its wait queue |
| KScheduler.ReadyQueue.WakeJoiners | zephyrproject/zephyr/kernel/sched.c:569-580 | the loop over those who wait to join readies each of them, with the invariant |
| KScheduler.ReadyQueue.Abort | zephyrproject/zephyr/kernel/sched.c:521-587 | aborting with its join queue on the bytes and any of the three queues, once, with the invariant |
| KScheduler.ReadyQueue.Switch | zephyrproject/zephyr/kernel/sched.c:844-865 | the cached thread runs; a preemptible or stopped thread gave way to the best ready one |
| WaitQueues.InsertOrdered | zephyrproject/zephyr/kernel/sched.c:963-978 | a wait queue stays in priority order and holds a thread once |
| WaitQueues.StandsLast | zephyrproject/zephyr/kernel/sched.c:963-978 | a thread that waits stands behind all of the same or a higher priority and before the others |
| WaitQueues.DropIsOne | zephyrproject/zephyr/kernel/sched.c:980-992 | just the one thread leaves, the others in order |
| WaitQueues.PriqAdd | zephyrproject/zephyr/kernel/sched.c:963-978 | the insertion walk, for wait queues that carry data |
| WaitQueues.PriqRemove | zephyrproject/zephyr/kernel/sched.c:980-992 | the removal, for wait queues that carry data |
| Mutexes.StepKeepsInv | zephyrproject/zephyr/kernel/mutex.c:119-283 | lock, unlock, timeout and readjustment each keep owner, count, saved and inherited priority consistent |
| Mutexes.EveryRun | zephyrproject/zephyr/kernel/mutex.c:119-283 | over every run lock_count is zero exactly without owner, nobody but the owner is boosted, and the owner is exactly as high as itself or its best waiter when no readjustment is outstanding |
| Mutexes.FreshInv | zephyrproject/zephyr/kernel/mutex.c:71-85 | a new mutex is consistent |
| Mutexes.NoInversion | zephyrproject/zephyr/kernel/mutex.c:155-162 | an owner within the ceiling never runs below a waiter within it |
| Mutexes.ReleaseRestores | zephyrproject/zephyr/kernel/mutex.c:245-275 | the last unlock, and only that, gives the mutex up, and returns the thread to the priority it had before locking |
| Mutexes.HandedToBest | zephyrproject/zephyr/kernel/mutex.c:254-275 | the mutex passes to a waiter of the highest priority and stays locked while anybody waits |
| Mutexes.UnlockUndoesLock | zephyrproject/zephyr/kernel/mutex.c:130-275 | an unlock undoes a nested lock exactly, and an uncontended lock leaves owner, count and priorities as they were |
| Mutexes.TimeoutUndoesWait | zephyrproject/zephyr/kernel/mutex.c:155-190 | a wait that times out leaves the wait queue as it was |
| Mutexes.ExactAtOnce | zephyrproject/zephyr/kernel/mutex.c:119-200 | with the readjustment directly after the timeout, the owner priority is exact after every step and there is always an owner to adjust |
| Mutexes.SafeUnlessStranded | zephyrproject/zephyr/kernel/mutex.c:176-190 | a step keeps every outstanding readjustment safe if and only if it is not the last release of an unwaited mutex while a timed-out waiter has yet to readjust |
| Mutexes.ReadjustCanFault | zephyrproject/zephyr/kernel/mutex.c:180-190 | two threads reach a state where the readjustment finds no owner |
| Mutexes.ReadjustDemotes | zephyrproject/zephyr/kernel/mutex.c:182-190 | readjusting leaves the owner at its own priority or above if and only if nobody waits or that priority is within the ceiling |
| Mutexes.DemotionHappens | zephyrproject/zephyr/kernel/mutex.c:96-103 | three threads reach a demotion when the owner is above the ceiling |
| Mutexes.LockOutcome | zephyrproject/zephyr/kernel/mutex.c:119-164 | 0 if and only if nobody or the caller owned the mutex, and if and only if the caller owns it now; otherwise -EBUSY without effect, or a wait that lends the owner exactly its priority cut at the ceiling |
| Mutexes.UnlockOutcome | zephyrproject/zephyr/kernel/mutex.c:212-283 | -EINVAL exactly without owner, -EPERM exactly to others, both without effect; a nested unlock counts down, the last passes the mutex to the first waiter or frees it |
| Mutexes.TimeoutOutcome | zephyrproject/zephyr/kernel/mutex.c:176-199 | just the timed-out waiter leaves, and returns -EAGAIN once it has readjusted |
| KMutexes.KMutex.AdjustOwnerPrio | zephyrproject/zephyr/kernel/mutex.c:105-117 | sets the owner priority and reports a change |
| KMutexes.KMutex.Lock | zephyrproject/zephyr/kernel/mutex.c:119-164 | the call up to its wait, in place, with its codes and the invariant |
| KMutexes.KMutex.Expire | zephyrproject/zephyr/kernel/sched.c:727-740 | a waiter times out, in place, with the invariant |
| KMutexes.KMutex.Readjust | zephyrproject/zephyr/kernel/mutex.c:176-199 | the end of a timed-out lock, in place, with the invariant |
| KMutexes.KMutex.Unlock | zephyrproject/zephyr/kernel/mutex.c:212-283 | the call in place, with its codes and the invariant |
| MsgQueues.StepKeepsInv | zephyrproject/zephyr/kernel/msg_q.c:116-305 | put, get, peek, purge and timeout keep the FIFO order and the waiting discipline |
| MsgQueues.EveryRun | zephyrproject/zephyr/kernel/msg_q.c:116-305 | after every run messages came out in the order they went in, the rest is queued, and each waiter is a getter on an empty or a putter on a full queue |
| MsgQueues.RightDirection | zephyrproject/zephyr/kernel/msg_q.c:126-228 | a put that finds a waiter writes to a getter, a get that finds one reads from a putter |
| MsgQueues.GetIsOldest | zephyrproject/zephyr/kernel/msg_q.c:202-209 | a get returns the oldest queued message and a peek shows the same |
| MsgQueues.WaitingGetterIsNext | zephyrproject/zephyr/kernel/msg_q.c:126-137 | a waiting getter gets the next message put, with none before it |
| MsgQueues.NothingMovesWithoutSuccess | zephyrproject/zephyr/kernel/msg_q.c:116-242 | a put succeeds at once exactly with room and a get exactly with a message; a refused call changes nothing, a waiting one moves no message |
| MsgQueues.PurgeWakesAll | zephyrproject/zephyr/kernel/msg_q.c:288-305 | every waiter is woken, in order, with -ENOMSG and its buffer untouched |
| MsgQueues.PutOutcome | zephyrproject/zephyr/kernel/msg_q.c:116-160 | its code, who is woken with which message, and where it is queued, by whether there is room, a waiter and leave to wait |
| MsgQueues.GetOutcome | zephyrproject/zephyr/kernel/msg_q.c:192-242 | it returns the oldest message and wakes the first putter, whose message joins the queue last; -ENOMSG without effect, or a place in the wait queue otherwise |
| MsgQueues.PeekOutcome | zephyrproject/zephyr/kernel/msg_q.c:256-275 | the oldest message or -ENOMSG, without effect |
| MsgQueues.PurgeOutcome | zephyrproject/zephyr/kernel/msg_q.c:288-305 | the call empties the queue and wakes every waiter, in order, with -ENOMSG and its own buffer |
| MsgQueues.ExpireOutcome | zephyrproject/zephyr/kernel/sched.c:727-740 | just the timed-out waiter leaves, with -EAGAIN and its own buffer |
| MsgQueues.NeverBothWait | zephyrproject/zephyr/kernel/msg_q.c:116-242 | getters and putters wait together only in a queue without room |
| MsgQueues.BothWaitWithoutRoom | zephyrproject/zephyr/kernel/msg_q.c:116-242 | in a queue without room they do wait together |
| KMsgQueues.WriteExtends | zephyrproject/zephyr/kernel/msg_q.c:140-145 | copying into the cell at the write pointer appends to the ring |
| KMsgQueues.ReadAdvances | zephyrproject/zephyr/kernel/msg_q.c:204-209 | moving the read pointer on drops the oldest cell |
| KMsgQueues.AdvanceIsNext | zephyrproject/zephyr/kernel/msg_q.c:141-144 | the byte pointer with its wrap is the next cell, also for messages of no size |
| KMsgQueues.KMsgq.constructor | zephyrproject/zephyr/kernel/msg_q.c:49-66 | a queue over a buffer of any size starts empty |
| KMsgQueues.KMsgq.Store | zephyrproject/zephyr/kernel/msg_q.c:140-145 | appends a message across the wrap |
| KMsgQueues.KMsgq.Take | zephyrproject/zephyr/kernel/msg_q.c:204-209 | takes the oldest message across the wrap |
| KMsgQueues.KMsgq.Put | zephyrproject/zephyr/kernel/msg_q.c:116-160 | the call on the byte ring refines the FIFO, with its codes and wake-ups |
| KMsgQueues.KMsgq.Get | zephyrproject/zephyr/kernel/msg_q.c:192-242 | the call on the byte ring refines the FIFO, with its codes and wake-ups |
| KMsgQueues.KMsgq.Peek | zephyrproject/zephyr/kernel/msg_q.c:256-275 | shows the oldest message and changes nothing |
| KMsgQueues.KMsgq.Purge | zephyrproject/zephyr/kernel/msg_q.c:288-305 | drops every message and wakes every waiter with -ENOMSG |
| KMsgQueues.KMsgq.Expire | zephyrproject/zephyr/kernel/sched.c:727-740 | a waiter times out without touching the ring |
| MemSlabs.ChainUnique | zephyrproject/zephyr/kernel/mem_slab.c:114-118 | what the links in the buffer say determines the free list |
| MemSlabs.ChainSurvives | zephyrproject/zephyr/kernel/mem_slab.c:157-158 | a write outside the listed first words leaves the chain alone |
| MemSlabs.StepKeepsInv | zephyrproject/zephyr/kernel/mem_slab.c:109-161 | allocations, frees, timeouts and writes to held blocks keep the free list a chain of exactly the blocks nobody holds |
| MemSlabs.EveryRun | zephyrproject/zephyr/kernel/mem_slab.c:109-161 | after every run the in-buffer list is a finite chain without repeats, free plus held is all blocks, num_used counts the held, and waiters exist only without free blocks |
| MemSlabs.NeverOutside | zephyrproject/zephyr/kernel/mem_slab.c:109-161 | no allocation or free of a held block reads or writes outside the buffer |
| MemSlabs.HeldApart | zephyrproject/zephyr/kernel/mem_slab.c:109-121 | blocks held at the same time lie inside the buffer and do not overlap |
| MemSlabs.AllocGivesUnheld | zephyrproject/zephyr/kernel/mem_slab.c:114-128 | an allocation succeeds if and only if fewer than all blocks are held, with a block nobody held |
| MemSlabs.WaiterGetsBlock | zephyrproject/zephyr/kernel/mem_slab.c:147-155 | a freed block goes to the first waiter at once and the count stays |
| MemSlabs.AllocOutcome | zephyrproject/zephyr/kernel/mem_slab.c:109-141 | without a free block -ENOMEM without effect, or a place last of its priority among the waiters |
| MemSlabs.FreeOutcome | zephyrproject/zephyr/kernel/mem_slab.c:143-161 | a freed block goes to the first waiter, or is free and the very next to be allocated |
| MemSlabs.ExpireOutcome | zephyrproject/zephyr/kernel/sched.c:727-740 | just the timed-out waiter leaves, with -EAGAIN |
| MemSlabs.BuiltChain | zephyrproject/zephyr/kernel/mem_slab.c:43-50 | the list built is finite if and only if blocks have a size or there is at most one |
| MemSlabs.SizelessSlabLoops | zephyrproject/zephyr/kernel/mem_slab.c:43-50 | with two blocks of no size the loop leaves a word that links to itself |
| KMemSlabs.LinkBlocks | zephyrproject/zephyr/kernel/mem_slab.c:43-50 | the loop links the blocks it has passed, last first |
| KMemSlabs.KMemSlab.CreateFreeList | zephyrproject/zephyr/kernel/mem_slab.c:32-52 | refuses exactly misaligned slabs without effect; otherwise the slab starts valid with all blocks free when blocks have a size |
| KMemSlabs.KMemSlab.Alloc | zephyrproject/zephyr/kernel/mem_slab.c:109-141 | the call up to its wait, in place, with the invariant |
| KMemSlabs.KMemSlab.Free | zephyrproject/zephyr/kernel/mem_slab.c:143-161 | the call in place, with the invariant |
| KMemSlabs.KMemSlab.Expire | zephyrproject/zephyr/kernel/sched.c:727-740 | a waiter times out, with the invariant |
| Polls.RegisterKeepsInv | zephyrproject/zephyr/kernel/poll.c:200-227 | one round of registration keeps the lists and the calls consistent |
| Polls.DecideKeepsInv | zephyrproject/zephyr/kernel/poll.c:273-295 | going to sleep, returning or clearing after registration keeps them consistent |
| Polls.ClearKeepsInv | zephyrproject/zephyr/kernel/poll.c:151-192 | one round of clearing keeps them consistent |
| Polls.SignalKeepsInv | zephyrproject/zephyr/kernel/poll.c:391-422 | a signal between any two rounds keeps them consistent |
| Polls.StepKeepsInv | zephyrproject/zephyr/kernel/poll.c:151-311 | every step of every thread keeps them consistent |
| Polls.EveryRun | zephyrproject/zephyr/kernel/poll.c:256-311 | however polls and signals interleave: a sleeping thread has all its events hooked, linked and unsignalled; a returned poll has none linked anywhere; 0 is returned only with an event that became ready during that call |
| Polls.SignalsFindPollers | zephyrproject/zephyr/kernel/poll.c:229-234 | a signal never finds a listed event without its poller |
| Polls.RegisteredIsPrefix | zephyrproject/zephyr/kernel/poll.c:200-227 | hooked events are a prefix counted by events_registered, all of it while nothing has been signalled |
| Polls.SignalReaches | zephyrproject/zephyr/kernel/poll.c:391-412 | the first listed poller wakes with the right result if asleep, and will not sleep if still registering |
| PollOutcomes.BeginEffect | zephyrproject/zephyr/kernel/poll.c:256-274 | a call starts polling with the events given and nothing hooked |
| PollOutcomes.RegisterEffect | zephyrproject/zephyr/kernel/poll.c:200-227 | an event whose condition is met becomes ready and ends the polling; another is hooked if and only if the call may wait and still polls |
| PollOutcomes.DecideEffect | zephyrproject/zephyr/kernel/poll.c:273-295 | after registration the call clears up with 0 if an event became ready, and only otherwise returns -EAGAIN or sleeps by whether it may wait |
| PollOutcomes.RunKeepsAnswer | zephyrproject/zephyr/kernel/poll.c:151-311 | an answer once decided stays, whatever happens meanwhile |
| PollOutcomes.ReadyReturnsZero | zephyrproject/zephyr/kernel/poll.c:280-284 | over every run a call that leaves registration with a ready event returns 0, also one that may not wait |
| PollOutcomes.TimeoutReturnsAgain | zephyrproject/zephyr/kernel/poll.c:295-311 | over every run a call whose sleep timed out returns -EAGAIN, whatever is signalled while it clears up |
| PollOutcomes.ClearEffect | zephyrproject/zephyr/kernel/poll.c:151-192 | each round unhooks the last event left, which is then on no list, and the last round returns |
| PollOutcomes.SignalTellsOne | zephyrproject/zephyr/kernel/poll.c:391-422 | a signal reaches the first event listed for its object and no other, and takes it off |
| KPolls.AddEvent | zephyrproject/zephyr/kernel/poll.c:96-118 | with its shortcut for the tail, the insertion is by priority behind equals |
| KPolls.RemoveEvent | zephyrproject/zephyr/kernel/poll.c:177-179 | takes just the one event off its list |
| KPolls.PollTable.RegisterNext | zephyrproject/zephyr/kernel/poll.c:211-223 | the critical section in place, with the invariant |
| KPolls.PollTable.Decide | zephyrproject/zephyr/kernel/poll.c:273-295 | the critical section in place: 0 after clearing if an event became ready, else -EAGAIN or sleep by whether it may wait, with the invariant |
| KPolls.PollTable.ClearNext | zephyrproject/zephyr/kernel/poll.c:187-191 | the critical section in place, with the invariant |
| KPolls.PollTable.Raise | zephyrproject/zephyr/kernel/poll.c:391-478 | the critical section in place, with the invariant |
| KPolls.PollTable.Expire | zephyrproject/zephyr/kernel/sched.c:727-740 | a sleeping poller times out |
| Mailboxes.Matched | zephyrproject/zephyr/kernel/mailbox.c:120-162 | the receiver is told the smaller of the two sizes |
| Mailboxes.FindRx | zephyrproject/zephyr/kernel/mailbox.c:251-254 | the first compatible receiver, and none before it is |
| Mailboxes.FindTx | zephyrproject/zephyr/kernel/mailbox.c:397-400 | the first compatible sender, and none before it is |
| Mailboxes.PostedOnce | zephyrproject/zephyr/kernel/mailbox.c:233-303 | a sent message is in exactly one place |
| Mailboxes.PostedConserves | zephyrproject/zephyr/kernel/mailbox.c:233-303 | a descriptor taken for a send goes to the queue or to the receiver |
| Mailboxes.ClosedKeepsInv | zephyrproject/zephyr/kernel/mailbox.c:174-217 | the first disposal ends a message once, tells its sender once and gives its descriptor back |
| Mailboxes.FetchedIs | zephyrproject/zephyr/kernel/mailbox.c:336-350 | asking for the data is the first disposal, or concerns only the asker's own descriptor |
| Mailboxes.AlwaysAllowed | zephyrproject/zephyr/kernel/mailbox.c:336-350 | the data of every message ever received may be asked for, as often as one likes |
| Mailboxes.SecondDisposalIsNothing | zephyrproject/zephyr/kernel/mailbox.c:179-182 | asking again for a message that was disposed of wakes nobody, frees no descriptor and changes no fate |
| Mailboxes.DisposedStays | zephyrproject/zephyr/kernel/mailbox.c:188-192 | over every run, repeated calls included, a disposed message stays disposed |
| Mailboxes.QueuedAlone | zephyrproject/zephyr/kernel/mailbox.c:233-303 | a queued message is queued once, with no receiver and not done with |
| Mailboxes.OpenAlone | zephyrproject/zephyr/kernel/mailbox.c:120-162 | a matched message is with one receiver, not queued and not done with |
| Mailboxes.StepKeepsInv | zephyrproject/zephyr/kernel/mailbox.c:120-429 | every call and timeout keeps matching, message and descriptor bookkeeping |
| Mailboxes.EveryRun | zephyrproject/zephyr/kernel/mailbox.c:120-429 | after every run no queued sender is compatible with a queued receiver, each message is queued, matched or done with, once, no descriptor is lost or shared, and each sender of a delivered message has heard of it exactly once |
| Mailboxes.FreshInv | zephyrproject/zephyr/kernel/mailbox.c:57-106 | a new mailbox with any pool is consistent |
| Mailboxes.MatchedOnce | zephyrproject/zephyr/kernel/mailbox.c:120-162 | no message is with two receivers, and a matched one is not done with |
| Mailboxes.FateIsFinal | zephyrproject/zephyr/kernel/mailbox.c:174-217 | a message that is done with keeps its fate |
| Mailboxes.SizeReported | zephyrproject/zephyr/kernel/mailbox.c:174-217 | over every run a sender that is woken finds in its descriptor the receiver, the receiver's info and the size taken: all that fits what was asked for, or zero |
| Mailboxes.DescriptorsAddUp | zephyrproject/zephyr/kernel/mailbox.c:315-333 | free, queued and matched descriptors add up to the pool |
| Mailboxes.BestReceiver | zephyrproject/zephyr/kernel/mailbox.c:251-254 | a message goes to the compatible receiver first by priority, then by arrival |
| MailboxOutcomes.CompatibleIs | zephyrproject/zephyr/kernel/mailbox.c:120-135 | a send and a receive fit if and only if each names the other or nobody |
| MailboxOutcomes.PutOutcome | zephyrproject/zephyr/kernel/mailbox.c:233-312 | paired with the first fitting receiver, else refused with -ENOMSG if it may not wait, else queued last of its priority; what both descriptors then say |
| MailboxOutcomes.AsyncPutOutcome | zephyrproject/zephyr/kernel/mailbox.c:315-333 | it takes the descriptor freed last and is paired or queued with it, and never fails |
| MailboxOutcomes.GetOutcome | zephyrproject/zephyr/kernel/mailbox.c:383-422 | paired with the first fitting sender, else refused with -ENOMSG if it may not wait, else queued last of its priority |
| MailboxOutcomes.DataGetOutcome | zephyrproject/zephyr/kernel/mailbox.c:336-350 | the first call ends the message: the sender is told the size taken once, the bytes are that much of the front of what was sent, and an asynchronous descriptor is free again |
| MailboxOutcomes.CheckOutcome | zephyrproject/zephyr/kernel/mailbox.c:368-381 | with a buffer or without data the message ends at once; otherwise nothing happens |
| MailboxOutcomes.TimeoutOutcome | zephyrproject/zephyr/kernel/sched.c:727-740 | just the timed-out sender or receiver leaves its queue, and the message stays unsent |
| KMailboxes.KMbox.constructor | zephyrproject/zephyr/kernel/mailbox.c:57-106 | the pool starts with every descriptor on the stack |
| KMailboxes.KMbox.MessagePut | zephyrproject/zephyr/kernel/mailbox.c:233-303 | the search over waiting receivers, in place |
| KMailboxes.KMbox.Put | zephyrproject/zephyr/kernel/mailbox.c:305-312 | a synchronous send, with the invariant |
| KMailboxes.KMbox.AsyncPut | zephyrproject/zephyr/kernel/mailbox.c:315-333 | an asynchronous send, with the invariant |
| KMailboxes.KMbox.MessageGet | zephyrproject/zephyr/kernel/mailbox.c:383-422 | the search over waiting senders, in place |
| KMailboxes.KMbox.Get | zephyrproject/zephyr/kernel/mailbox.c:383-422 | a receive up to its data check or wait, with the invariant |
| KMailboxes.KMbox.Pair | zephyrproject/zephyr/kernel/mailbox.c:120-162 | both descriptors are updated as a match requires |
| KMailboxes.KMbox.Dispose | zephyrproject/zephyr/kernel/mailbox.c:174-217 | the sender hears of the message, with the size, exactly when the syncing thread was still set, and otherwise nothing changes; afterwards it is not set |
| KMailboxes.KMbox.DataGet | zephyrproject/zephyr/kernel/mailbox.c:336-350 | allowed at any time; the first call fills the buffer with as much of the front of what was sent as was asked for, and every call keeps the invariant |
| KMailboxes.KMbox.DataCheck | zephyrproject/zephyr/kernel/mailbox.c:368-381 | the data is taken at once with a buffer or without data, and kept otherwise |
| ModuleSort.RemoveFirst | zephyrproject/zephyr/scripts/zephyr_module.py:287 | list.remove takes the first occurrence |
| ModuleSort.Split | zephyrproject/zephyr/scripts/zephyr_module.py:261-273 | modules without dependencies start; the others wait for all they name |
| ModuleSort.CrossOff | zephyrproject/zephyr/scripts/zephyr_module.py:285-290 | a sorted module is crossed off once in every list that names it, and those left with nothing are freed in order |
| ModuleSort.Round | zephyrproject/zephyr/scripts/zephyr_module.py:284-292 | the waiting list keeps exactly the modules that still lack something |
| ModuleSort.RoundKeeps | zephyrproject/zephyr/scripts/zephyr_module.py:280-292 | each round keeps a valid order, what every waiting module lacks, and the multiset of modules |
| ModuleSort.StuckMeansUnsortable | zephyrproject/zephyr/scripts/zephyr_module.py:294-300 | if modules are left over then no order of the modules is valid |
| ModuleSort.Sort | zephyrproject/zephyr/scripts/zephyr_module.py:253-300 | succeeds if and only if a valid order exists, with a permutation that is one; on failure each module left lacks something |
| ModuleSort.OrderIsRight | zephyrproject/zephyr/scripts/zephyr_module.py:253-300 | with distinct names an order is valid if and only if every module follows all it names and names nothing twice |
| ModuleSort.SortableIff | zephyrproject/zephyr/scripts/zephyr_module.py:253-300 | with distinct names the sort succeeds if and only if no module names another twice and a dependency order exists |
| ModuleSort.RepeatedDependencyFails | zephyrproject/zephyr/scripts/zephyr_module.py:286-288 | a module that names another twice fails the sort although a dependency order exists |
| ModuleCycles.StuckInACircle | zephyrproject/zephyr/scripts/zephyr_module.py:294-300 | if modules are left over and all names exist, some of them depend on one another in a circle |
| ModuleCycles.OrderHasNoCycle | zephyrproject/zephyr/scripts/zephyr_module.py:253-300 | where every module follows those it names no circle of dependencies exists |
| ModuleCycles.FailureHasACause | zephyrproject/zephyr/scripts/zephyr_module.py:253-300 | with distinct names and no repeats the sort succeeds if and only if every name exists and no dependencies form a circle |
| Syscalls.WrapperDefs | zephyrproject/zephyr/scripts/gen_syscalls.py:154-189 | the packing code: words in order, wide arguments in halves, the sixth register for the rest |
| Syscalls.MarshallDefs | zephyrproject/zephyr/scripts/gen_syscalls.py:230-247 | the unpacking code knows how many words there are and where each argument starts |
| Syscalls.WordsOfArg | zephyrproject/zephyr/scripts/gen_syscalls.py:159-166 | the words of an argument are where the other generator will look |
| Syscalls.WordCount | zephyrproject/zephyr/scripts/gen_syscalls.py:154-190 | one word for each argument, one more for each wide one and for a wide return value on 32-bit registers, and no more |
| Syscalls.WordArrives | zephyrproject/zephyr/scripts/gen_syscalls.py:224-228 | every word is read back from the register or array element it was put in |
| Syscalls.RoundTrip | zephyrproject/zephyr/scripts/gen_syscalls.py:145-304 | for all signatures and arguments the verifier gets the arguments in order, and every register and array read lies within what was built |
| Syscalls.ReturnPointerArrives | zephyrproject/zephyr/scripts/gen_syscalls.py:292-295 | a wide return value goes to the address the caller passed |
| Syscalls.FitsRegisters | zephyrproject/zephyr/scripts/gen_syscalls.py:180-194 | with 32-bit registers every word fits and six registers are enough |
| Syscalls.CheckCoversAllButLast | zephyrproject/zephyr/scripts/gen_syscalls.py:263-265 | the length the handler checks covers an argument's words if and only if all words fit the registers or they are not the last of the array |
| Syscalls.SeventhWordNotCovered | zephyrproject/zephyr/scripts/gen_syscalls.py:263-265 | of seven one-word arguments the seventh lies beyond the length checked |
| IsrTables.Position | zephyrproject/zephyr/arch/common/gen_isr_tables.py:190-196 | the first position of a parent, or none exactly when it is not listed |
| IsrTables.Level3Agrees | zephyrproject/zephyr/include/irq.h:341-376 | third-level indices agree if and only if the top byte is clear |
| IsrTables.Level2Agrees | zephyrproject/zephyr/include/irq.h:287-326 | second-level indices agree if and only if there are three levels or the upper bytes are clear |
| IsrTables.Level1Agrees | zephyrproject/zephyr/include/irq.h:261-273 | first-level indices agree if and only if the number is one byte |
| IsrTables.IndicesAgree | zephyrproject/zephyr/arch/common/sw_isr_common.c:73-117 | for every number the script places, script and kernel agree on the index if and only if the number is encodable, or a second-level one of three levels |
| IsrTables.OneLevelDisagrees | zephyrproject/zephyr/arch/common/sw_isr_common.c:111-113 | with one level a number with a stray top byte gets two indices |
| IsrTables.TwoLevelsDisagree | zephyrproject/zephyr/arch/common/sw_isr_common.c:95-101 | with two levels a number with a stray top byte gets two indices |
| IsrTables.ThreeLevelsDisagree | zephyrproject/zephyr/arch/common/sw_isr_common.c:102-109 | with three levels a third-level number with a stray top byte gets two indices |
| IsrTables.Level2Distinct | zephyrproject/zephyr/arch/common/gen_isr_tables.py:289-296 | second-level interrupts within capacity share a slot only with themselves |
| IsrTables.Level3Distinct | zephyrproject/zephyr/arch/common/gen_isr_tables.py:279-286 | third-level interrupts within capacity share a slot if and only if their upper two bytes agree |
| IsrTables.Level3Clash | zephyrproject/zephyr/arch/common/gen_isr_tables.py:279-286 | two third-level interrupts that differ in the lowest byte share a slot |
| IsrTables.LevelsDistinct | zephyrproject/zephyr/arch/common/gen_isr_tables.py:270-311 | interrupts of different levels never share a slot in a table laid out level by level |
| IsrTables.SlotIs | zephyrproject/zephyr/arch/common/gen_isr_tables.py:307-311 | an index falls in the table from the front, or from the back if negative, and fails exactly otherwise |
| IsrTables.VectorIs | zephyrproject/zephyr/arch/common/gen_isr_tables.py:257-264 | a direct interrupt has the vector of its number from the table's first, and none beyond its end |
| IsrTables.FillTable | zephyrproject/zephyr/arch/common/gen_isr_tables.py:257-311 | the loop succeeds if and only if direct interrupts have no parameter and a vector, and regular ones have slots of their own; then each regular one is in its slot, all other slots are spurious, and each vector is the last direct handler placed there |
| IsrTables.GetParentOffset | zephyrproject/zephyr/arch/common/sw_isr_common.c:52-69 | the search returns the offset of the first matching parent, or 0 |
| IsrTables.Install | zephyrproject/zephyr/arch/common/sw_isr_common.c:73-124 | exactly the entry the script filled for the interrupt is replaced |

## Left out

- Symmetric multiprocessing, metairq threads, deadline scheduling, CPU masks, time slicing, non-atomic swap and self-abort with its deferred clean-up.
- 32-bit ticks, the legacy timeout API, and the wrap-around of 64-bit ticks and of 32-bit status and message counts.
- TimeoutQueues.TimeoutQueue.AddTimeout: adding a timeout that is already linked, which the source asserts against, leaves the queue as it is.
- KTimers.KTimer.Stop: what the stop function does is a step of its own after the call.
- TimerBeats.NoDrift: stated for runs in which nobody else starts or stops the timer and z_clock_elapsed() is zero during an announcement; RestartInterval says what a restart does otherwise.
- TimeoutQueues.TimeoutQueue.NextTimeout: the limit that a time slice puts on the wait is not modelled.
- Asynchronous pipe descriptors and memory-block puts, which take the same path as a waiting writer.
- KPipes.KPipe.Get: a waiter whose timeout strikes while a call is copying is treated as timing out before or after the call.
- KPipes.KPipe.Put: a zero-byte minimum with a wait blocks as the source does; the buffers a waiting thread points to are values in its queue entry, so aliasing between them is not captured.
- KRunQueues.TreeQueue.Add: the red-black tree is its in-order sequence of nodes; balancing is not modelled.
- KRunQueues.PriQueue.Add: asks for a priority that has a list and, of the tree, for an order key below the wrap, where it stops being the sorted list.
- KScheduler.ReadyQueue.ReadyThread: with the tree, asks for order keys below the wrap, and so does every call that readies a thread.
- Scheduler.StepKeepsInv: the queue a thread waits on is not modelled, only that it waits; those who wait to join come with the abort.
- Mutexes.EveryRun: one mutex, and no change of priority from outside; an owner above the ceiling may be demoted, and its priority is then not claimed.
- Mutexes.ExactAtOnce: stated for a readjustment that directly follows the timeout.
- KMailboxes.KMbox.DataGet: what a repeated call copies is not claimed, because the sender may have reused its buffer.
- Mailboxes.StepKeepsInv: memory-pool blocks attached to a message, and the wait for a free asynchronous descriptor, which is the stack object's.
- Polls.EveryRun: work items triggered by polling, and the branch for a timeout marked expired, which nothing in the tree sets.
- Semaphores, stacks, queues, futexes, heaps and memory pools: the same hand-off with less to it.
- ModuleSort.Sort: reading the module files and the error text.
- Syscalls.RoundTrip: the generated text itself, what the memory check does, and the byte order of the halves, which only has to be the same on both sides.
- IsrTables.FillTable: reading the object files and writing the tables out; both tables are generated.
