# Kernel verification

This project models the stateful cores of a small single-hart RISC-V kernel and proves what
they keep over whole runs.

1. **Scheduler, timed waits and mutexes.** A pure state machine in which every kernel
   operation is one atomic step (`Scheduler`), its global invariant and runs
   (`SchedulerInvariant`, `Wakeups`, `Switches`, `SchedulerRuns`), timed waits, bounded
   dispatch and deadlines (`TimedWaits`, `Fairness`, `Deadlines`, `SleepOrder`), what creation
   installs and what a thread resumes from (`ThreadCreation`, `ThreadFrames`), owner-transfer mutexes
   with a resume point per thread (`Mutexes`, `MutexOrder`, `MutexReplies`), and the same operations in place
   over arrays and rings (`RingQueue`, `SleepArray`, `KernelMachine`, `MutexMachine`).
2. **Pages, Sv39 tables and user tasks.** The bitmap allocator (`Pages`, `Bitmaps`,
   `PageBitmap`), the Sv39 encodings of section 4.4 of the RISC-V Privileged Architecture,
   version 20211203 (`Sv39`), the page-table tree inside physical memory (`PageTables`,
   `PageTree`, `PageWalks`), its refinement of a finite map and its teardown (`PageMaps`,
   `PageTeardown`, `PageRuns`), and the in-place code (`VmMachine`); on top of it the user
   window and copies (`UserCopy`, `UserTasks`) and the task life cycle (`TaskStates`,
   `TaskFrames`, `TaskLife`).
3. **Accelerator.** Device, driver, interrupt and deadline as one interleaved state machine
   (`Accelerator`, `AcceleratorRuns`, `AcceleratorMachine`), its wait tied to the scheduler's
   timed waits (`AcceleratorWaits`), the exact cause of every reply (`AcceleratorReplies`,
   `UserAccelReplies`), and the user memset from end to end (`UserAccel`, `UserAccelMachine`).
4. **Heap.** Pages of size-class blocks whose free lists run through the blocks themselves
   (`HeapPages`, `HeapInvariant`, `HeapMachine`).

Two layers recur. A function states one operation on values, branch for branch as the source
takes them; theorems are about these functions. A class holds the state the source updates in
place, and each method is proved to reach exactly the value its function gives. A panic in the
source is `Panic` in the functions of the scheduler and `assert false` in the methods, so a
method that verifies reaches none.

## Assumptions

The code relies on these and does not enforce them; they appear as preconditions.

- A user task is attached to at most one live thread (kernel/core/thread.c:758-778), and is
  created only while it is ready.
- A thread releases its mutexes before it exits (docs/design/sync.md:55), and locks or unlocks
  only as the owner rules of the same document allow.
- Trap entries carry the current thread's own frame; wait queues exist before they are used.
- Managed memory starts above address zero, so page zero is never handed out as NULL; the
  page allocator itself does without this, its clients do not.
- Accelerator descriptors are not shared between submitters, do not overlap each other or the
  bytes a device fills, and are not edited or freed while the device may still see them; a
  request's destination is written by nobody else while it is in use.
- Table words and bytes play separate roles: no page is a page table and a user frame, bounce
  page, trap context or descriptor at once, so tables, contexts, descriptors and bytes are kept
  in separate maps.
- No frame backs two user pages and user frames are pages in use; for the address space that
  `user_task_init` builds this is proved.
- The size of the thread table is a parameter of at least two, not the constant 8.

## Where the code does not do what one might expect

- `timer_ticks() + ticks` is not checked, neither for sleeps nor for timed waits.
  `Deadlines.SleepDueAtOnceIff` and `Deadlines.WaitDueAtOnceIff` say exactly when they end at the
  next tick because of it, and `Deadlines.WrappedWaitHappens` gives a run; the punctuality
  results assume no wrap.
- docs/ddr/0030-accelerator-timeout-and-error-handling.md:35 says that the timeout wins when the
  timed wait returns WAIT_TIMEOUT. The code (kernel/drivers/accel.c:312-329) returns the
  interrupt's result if the interrupt was handled before the submitter ran: the caller is told
  OK while the descriptor says TIMEOUT and the reset flag is set. The model follows the code;
  `AcceleratorRuns.LateCompletionIff` gives the exact condition and
  `AcceleratorRuns.LateCompletionHappens` a run.  A user call that ends this way succeeds and
  leaves the driver refusing work until somebody resets it (`UserAccel.FinishSafe`).
- After a normal completion the device stays DONE, so every further submission is refused until
  a reset (`AcceleratorRuns.OneRequestPerReset`).
- `vm_map_page` accepts frames of 2^56 and above, which set reserved entry bits
  (`Sv39.ReservedBitsClearIff`), and `vm_translate` can return its own failure value for a
  mapped byte (`PageMaps.TranslateRefines`).

## Model

| member | source | states |
|---|---|---|
| SchedulerRuns.BootSafe | kernel/core/thread.c:284-455 | From boot, for every table size of two or more and every legal sequence of trap-level operations, no scheduler panic is reached and the global invariant holds: exactly one running thread and it is the current one, ready threads are exactly the ready queue, blocked threads sit in exactly the queues their wait reason names, unused and exited threads and the idle thread sit in none |
| SchedulerRuns.StepSafe | kernel/core/thread.c:978-1238 | Every legal operation (yield, sleep, wait, timed wait, exit, wake one, wake all, tick, preemption point, create, start) succeeds and keeps the invariant |
| SchedulerRuns.RunSafe | kernel/core/thread.c:455-559 | The same over whole runs from any state that satisfies the invariant |
| SchedulerRuns.ExitFrameSafe | kernel/core/thread.c:998-1056 | When a user thread exits, its task is destroyed and the frame the trap returns to does not lie in that task's context page |
| ThreadCreation.UserThreadLife | kernel/core/thread.c:758-778 | A ready task not yet attached and a vacant slot give a thread that carries that very task over every run in which it does not exit; when it exits, that task and no other is destroyed |
| ThreadCreation.UserThreadHappens | kernel/core/thread.c:998-1056 | Such lives happen: task made ready, thread created, started and exited from boot, and the task is destroyed |
| ThreadCreation.TaskRun | kernel/core/thread.c:978-1238 | Over any run a thread that does not exit keeps its slot and its task |
| ThreadCreation.ExitEndsTask | kernel/core/thread.c:998-1056 | An exit gives up the slot, destroys the exiting thread's own task and leaves every other task as it was |
| ThreadCreation.CreateExact | kernel/core/thread.c:736-756 | thread_create takes the lowest slot from 1 up that is unused or exited and puts its thread, ready on its own kernel stack, last in the ready queue, changing nothing else; with no such slot it reports so and changes nothing |
| ThreadCreation.CreateUserExact | kernel/core/thread.c:758-778 | thread_create_user does the same in user mode, with the task attached and its frame in the task's trap context, and refuses exactly when the task is not ready or no slot is vacant |
| ThreadCreation.SlotIsLowest | kernel/core/thread.c:743-755 | The scan for a slot finds the lowest vacant one, and none exactly when there is none |
| ThreadFrames.ResumesWhereItTrapped | kernel/core/thread.c:978-1056 | The thread that a trap switches away from resumes from that trap's own frame, over any run until it is dispatched, changed in nothing but the result word of a wait that has ended |
| ThreadFrames.SwitchSavesFrame | kernel/core/thread.c:995-998 | Every yield, sleep, wait or tick that changes the running thread leaves it with the frame of that trap |
| ThreadFrames.FrameKept | kernel/core/thread.c:424-455 | A ready thread keeps its frame until it is dispatched; a blocked one keeps it but for a0, which is 0 when an event ends the wait and 2^64 - 1 when the deadline does |
| ThreadFrames.WaitEnds | kernel/core/thread.c:424-559 | A blocked thread stays exactly as it is until a wake reaches it in its queue or a tick reaches its deadline; then it leaves every queue and a0 holds 2^64 - 1 if a tick ended a wait with a deadline and 0 otherwise |
| ThreadFrames.SleepExact | kernel/core/thread.c:1115-1182 | A sleep blocks the caller with the deadline now + ticks modulo 2^64, adds it to the sleepers and hands the processor to the ready head or the idle thread; with zero ticks it is a yield |
| ThreadFrames.WaitExact | kernel/core/thread.c:1263-1278 | A wait puts the caller last in the queue and hands the processor on |
| ThreadFrames.WaitForExact | kernel/core/thread.c:1280-1302 | A timed wait does both; with zero ticks nothing changes |
| ThreadFrames.YieldExact | kernel/core/thread.c:1063-1079 | A yield with nobody ready only renews the quantum; otherwise the head runs and a real caller goes to the back |
| SchedulerInvariant.WakeBlockedIsWake | kernel/core/thread.c:424-455 | Waking a blocked thread leaves every queue it was in, records the result and appends it to the ready queue, without a panic |
| SchedulerInvariant.WakeSound | kernel/core/thread.c:393-455 | Waking any blocked thread keeps every queue in agreement with the thread records |
| SchedulerInvariant.Room | kernel/core/thread.c:109-119 | A queue whose members are distinct real threads, none of them the one to be pushed, has room: the queue-full panics are unreachable |
| Wakeups.WakeOneIsWake | kernel/core/thread.c:520-537 | wait_queue_wake_one wakes the head of the queue with WAIT_OK and nobody else, or nobody when the queue is empty |
| Wakeups.WakeAllIsWakeList | kernel/core/thread.c:539-559 | wait_queue_wake_all wakes exactly the queue, in queue order |
| Wakeups.WakeSleepersIsWakeList | kernel/core/thread.c:481-518 | The loop of wake_sleepers ends and wakes exactly the sleepers that are due, in deadline order, each with the result its kind of wait calls for |
| Wakeups.WakeListEffect | kernel/core/thread.c:424-455 | Waking a list of blocked threads appends them to the ready queue in list order and changes no other thread |
| Switches.DispatchedSound | kernel/core/thread.c:561-569 | Dispatching the head of the ready queue, or the idle thread when it is empty, keeps the invariant |
| Switches.InsertSorted | kernel/core/thread.c:232-251 | The sleep queue insertion keeps the queue sorted by deadline and puts the newcomer behind exactly the sleepers whose deadline is not later than its own |
| SleepOrder.OrderRun | kernel/core/thread.c:232-251 | Over any run during which two sleepers stay queued, the one in front, equal deadline or not, stays in front |
| SleepOrder.OrderStep | kernel/core/thread.c:232-282 | The same for one operation |
| SleepOrder.FrontWakesFirst | kernel/core/thread.c:481-518 | When a tick makes a sleeper ready it makes every sleeper in front of it ready too, and puts it earlier in the ready queue |
| TimedWaits.WaitEndsOnce | kernel/core/thread.c:393-537 | Over any run, a blocked wait ends at the first operation that ends it; that operation alone decides the result stored in the saved frame, and nothing changes the record again before the thread is dispatched |
| TimedWaits.RecordEffect | kernel/core/thread.c:1184-1238 | What each operation does to the record of a blocked thread: it ends the wait with the winning path's result and both memberships cancelled, or it leaves the record alone |
| TimedWaits.ReadyRun | kernel/core/thread.c:424-455 | A thread made ready keeps its record, result included, over any run until it is dispatched |
| Fairness.BoundedDispatch | kernel/core/thread.c:955-1079 | A thread at index k of the ready queue is dispatched within 10 * (k + 1) ticks delivered to running threads, whatever else the run does |
| Fairness.QuantumIsTen | kernel/core/thread.c:964-975 | A running real thread is preempted by a tick exactly when it is the tenth charged to it and another thread is ready |
| Fairness.DelayStep | kernel/core/thread.c:955-976 | The measure 10 * index plus the quantum left never rises and falls on every such tick |
| Fairness.QueueEffect | kernel/core/thread.c:978-1056 | Each operation either only appends to the ready queue while the running thread's quantum runs down, or dispatches the head with a fresh quantum and moves the others up |
| Fairness.NullNeverChosen | kernel/core/thread.c:561-584 | No operation dispatches the idle thread while a real thread is ready |
| Deadlines.WokenExactlyAtDeadline | kernel/core/thread.c:325-343 | After any run from boot in which no deadline wraps, every queued deadline is in the future and the next tick makes a sleeper ready, with the result of its kind of wait, if and only if its deadline is that tick; otherwise it keeps the sleeper's record |
| Deadlines.TickWakes | kernel/core/thread.c:481-518 | A tick makes a queued sleeper ready with its timer result exactly when it is due |
| Deadlines.PunctualRun | kernel/core/thread.c:457-518 | Over any such run every queued deadline stays strictly greater than the tick count |
| Deadlines.SleepDueAtOnceIff | kernel/core/thread.c:1115-1136 | A sleeper is made ready by the very next tick if and only if it asked for one tick or now + ticks does not fit in 64 bits: exactly when the source's unchecked addition wraps |
| Deadlines.WaitDueAtOnceIff | kernel/core/thread.c:1184-1238 | The same for every timed wait, and so for timed mutex locks and accelerator timeouts |
| Deadlines.WrappedWaitHappens | kernel/core/thread.c:1211-1213 | A concrete run from boot whose wait with a deadline of 2^64 - 1 ticks is timed out by the next tick |
| Mutexes.MutexRunSafe | kernel/core/sync.c:29-149 | Over every run of mutex and scheduler operations no mutex panic is reached and every mutex has at most one owner and is ownerless only when nobody waits |
| Mutexes.MutexStepSafe | kernel/core/sync.c:58-105 | The same for one operation, including the resumption of a blocked lock |
| Mutexes.ResumeCases | kernel/core/sync.c:85-97 | A lock without a deadline that resumes owns its mutex; a timed one reports success exactly when it owns it and a timeout otherwise, so the panic at line 93 is unreachable and a timed-out waiter never receives the ownership |
| MutexReplies.MutualExclusion | kernel/core/sync.c:29-149 | Over any run, two threads that were told they have a mutex and have not unlocked it since are the same thread, and it is the owner |
| MutexReplies.ReplyTellsOwner | kernel/core/sync.c:29-129 | Every lock, timed lock, trylock and resumption replies success exactly when the caller is the owner afterwards: on a free mutex always; on an owned one trylock and a timed lock without ticks refuse, changing nothing, and the others wait at the end of the queue |
| MutexReplies.WaitsUntil | kernel/core/sync.c:29-83 | A lock that has to wait blocks in its mutex's queue and is also asleep, until now + ticks modulo 2^64, exactly when it has a deadline |
| MutexReplies.OwnerStays | kernel/core/sync.c:29-149 | A mutex changes hands only when its owner unlocks it |
| MutexReplies.UnlockReply | kernel/core/sync.c:131-149 | Unlocking says so and ends the caller's ownership |
| MutexOrder.NoBarging | kernel/core/sync.c:29-56 | While a thread waits for a mutex, only the owner at the start or a thread that was ahead of it in the queue ever holds the mutex |
| MutexOrder.HandoverInOrder | kernel/core/sync.c:131-149 | Unlocking hands the mutex to the longest waiter and removes it from the queue, or frees the mutex when nobody waits; nothing else changes |
| MutexOrder.StepInTurn | kernel/core/sync.c:131-149 | Each operation keeps the set of threads ahead of a waiter from growing and the owner inside it |
| RingQueue.TidRing.Push | kernel/core/thread.c:109-119 | The ring push appends at the tail from any wrapped position, or refuses when full |
| RingQueue.TidRing.Pop | kernel/core/thread.c:121-131 | The ring pop returns and removes the head |
| RingQueue.TidRing.Remove | kernel/core/thread.c:180-206 | wait_queue_remove deletes exactly the named thread from any wrapped position and keeps the order of the others |
| SleepArray.SleepQueue.Insert | kernel/core/thread.c:232-251 | The shifting insertion into the sleep array equals the sorted insertion |
| SleepArray.SleepQueue.PopHead | kernel/core/thread.c:253-265 | The pop removes the earliest sleeper |
| SleepArray.SleepQueue.Remove | kernel/core/thread.c:267-282 | The removal deletes exactly the named sleeper |
| SeqTools.WithoutMembers | kernel/core/thread.c:180-206 | Deleting one entry of a duplicate-free queue leaves exactly the others |
| SeqTools.Pigeonhole | kernel/core/thread.c:104-119 | A duplicate-free queue of real threads is never longer than the table allows |
| KernelMachine.Machine.constructor | kernel/core/thread.c:694-734 | thread_init builds the initial state over real arrays and rings; the new state is the value-level one the theorems speak of |
| KernelMachine.Machine.ReadyEnqueue | kernel/core/thread.c:284-303 | ready_enqueue in place; its panics are unreachable; the new state is the value-level one the theorems speak of |
| KernelMachine.Machine.PickNext | kernel/core/thread.c:561-569 | pick_next_thread in place; the new state is the value-level one the theorems speak of |
| KernelMachine.Machine.SleepEnqueue | kernel/core/thread.c:325-343 | sleep_enqueue in place; the new state is the value-level one the theorems speak of |
| KernelMachine.Machine.WaitEnqueue | kernel/core/thread.c:345-368 | wait_enqueue in place; the new state is the value-level one the theorems speak of |
| KernelMachine.Machine.WaitDequeue | kernel/core/thread.c:370-391 | wait_dequeue in place; the new state is the value-level one the theorems speak of |
| KernelMachine.Machine.WaitRemove | kernel/core/thread.c:393-407 | wait_remove in place; the new state is the value-level one the theorems speak of |
| KernelMachine.Machine.TimeoutRemove | kernel/core/thread.c:409-422 | timeout_remove in place; the new state is the value-level one the theorems speak of |
| KernelMachine.Machine.WakeBlocked | kernel/core/thread.c:424-455 | wake_blocked_thread in place; the new state is the value-level one the theorems speak of |
| KernelMachine.Machine.SleepDequeueExpired | kernel/core/thread.c:457-479 | sleep_dequeue_expired in place; the new state is the value-level one the theorems speak of |
| KernelMachine.Machine.WakeSleepers | kernel/core/thread.c:481-518 | wake_sleepers in place, with its loop; the new state is the value-level one the theorems speak of |
| KernelMachine.Machine.Notify | kernel/core/thread.c:520-537 | wait_queue_wake_one in place; the new state is the value-level one the theorems speak of |
| KernelMachine.Machine.NotifyAll | kernel/core/thread.c:539-559 | wait_queue_wake_all in place, with its loop; the new state is the value-level one the theorems speak of |
| KernelMachine.Machine.SwitchRequeue | kernel/core/thread.c:978-1056 | switch_to_next_from_trap with the current thread requeued; the new state is the value-level one the theorems speak of |
| KernelMachine.Machine.SwitchExit | kernel/core/thread.c:998-1056 | the exit path: thread retired, its task exited and destroyed, next thread dispatched; the new state is the value-level one the theorems speak of |
| KernelMachine.Machine.SwitchFromNull | kernel/core/thread.c:1081-1113 | switch_null_to_next_from_trap; the new state is the value-level one the theorems speak of |
| KernelMachine.Machine.Yield | kernel/core/thread.c:1063-1079 | thread_yield_current_from_trap keeps the invariant and takes the value-level step |
| KernelMachine.Machine.Sleep | kernel/core/thread.c:1115-1182 | sleep_current_from_trap likewise; the new state is the value-level one the theorems speak of |
| KernelMachine.Machine.Wait | kernel/core/thread.c:1184-1238 | block_current_from_trap without a deadline likewise; the new state is the value-level one the theorems speak of |
| KernelMachine.Machine.WaitFor | kernel/core/thread.c:1184-1238 | block_current_from_trap with a deadline, and the immediate timeout for zero ticks; the new state is the value-level one the theorems speak of |
| KernelMachine.Machine.Exit | kernel/core/thread.c:1058-1061 | thread_exit_current_from_trap likewise; the new state is the value-level one the theorems speak of |
| KernelMachine.Machine.MaybePreempt | kernel/core/thread.c:1307-1326 | thread_maybe_preempt_from_trap likewise; the new state is the value-level one the theorems speak of |
| KernelMachine.Machine.Tick | kernel/core/thread.c:955-976 | thread_on_timer_tick followed by the preemption point; the new state is the value-level one the theorems speak of |
| KernelMachine.Machine.Create | kernel/core/thread.c:736-756 | thread_create installs a fresh thread in the lowest free slot, or reports that there is none; the new state is the value-level one the theorems speak of |
| KernelMachine.Machine.CreateUser | kernel/core/thread.c:758-778 | thread_create_user for a ready task; the new state is the value-level one the theorems speak of |
| KernelMachine.Machine.Start | kernel/core/thread.c:780-799 | thread_start dispatches the first thread; the new state is the value-level one the theorems speak of |
| MutexMachine.MutexTable.Lock | kernel/core/sync.c:29-56 | mutex_lock up to its sleep in place; the new state is the value-level one and the mutex invariant is kept |
| MutexMachine.MutexTable.LockFor | kernel/core/sync.c:58-105 | mutex_lock_timeout up to its sleep in place; the new state is the value-level one and the mutex invariant is kept |
| MutexMachine.MutexTable.Resume | kernel/core/sync.c:40-97 | the rest of either lock after a wake, without reaching the ownership panics in place; the new state is the value-level one and the mutex invariant is kept |
| MutexMachine.MutexTable.TryLock | kernel/core/sync.c:107-129 | mutex_trylock in place; the new state is the value-level one and the mutex invariant is kept |
| MutexMachine.MutexTable.Unlock | kernel/core/sync.c:131-149 | mutex_unlock with owner transfer in place; the new state is the value-level one and the mutex invariant is kept |
| Bitmaps.SetBitEffect | kernel/memory/page_alloc.c:41-46 | bitmap_set on 64-bit words changes that one bit |
| Bitmaps.ClearBitEffect | kernel/memory/page_alloc.c:48-53 | bitmap_clear on 64-bit words changes that one bit |
| PageBitmap.PageAllocator.constructor | kernel/memory/page_alloc.c:65-99 | page_init, where the source does not panic, manages exactly the whole pages between the aligned bounds, all free |
| PageBitmap.PageAllocator.Alloc | kernel/memory/page_alloc.c:101-125 | The hinted cyclic scan returns the lowest free page, and NULL exactly when the free count is zero; the bitmap, the count and the hint keep agreeing with the set of pages in use |
| PageBitmap.PageAllocator.Free | kernel/memory/page_alloc.c:127-154 | page_free of a used page frees exactly that page; its panics are unreachable for such an address |
| PageBitmap.PageAllocator.FreePages | kernel/memory/page_alloc.c:156-167 | The free count is the number of free pages and is zero exactly when a scan finds none |
| PageBitmap.HintFindsLowest | kernel/memory/page_alloc.c:109-121 | Because every page below the hint is in use, the first free slot of the wrapped scan is the lowest free page |
| Pages.AllocPageFails | kernel/memory/page_alloc.c:101-125 | Allocation fails exactly when no page is free and otherwise lowers the free count by one |
| Pages.RangeContainedIff | kernel/memory/page_alloc.c:192-208 | The containment check, 64-bit wrap included, accepts exactly the non-empty ranges that lie inside one managed page |
| Pages.AlignUpLeast | kernel/memory/page_alloc.c:19-22 | Away from the top of the address space align_up gives the least page boundary not below its argument |
| Sv39.PteRoundTrip | kernel/memory/vm.c:49-57 | pte_to_pa and the flag mask invert pa_to_pte for every aligned frame address |
| Sv39.PteUnpack | kernel/memory/vm.c:49-57 | And the other way round |
| Sv39.ReservedBitsClearIff | kernel/memory/vm.c:54-57 | The encoding leaves the reserved top bits of an entry clear exactly for frames below 2^56; vm_map_page does not check this |
| Sv39.CanonicalIff | kernel/memory/vm.c:27-37 | va_is_canonical accepts exactly the lowest and highest 2^38 bytes of the 64-bit space |
| Sv39.FlagsByBits | kernel/memory/vm.c:72-100 | flags_are_valid accepts exactly the words below 256 with bit 0 set whose bits X, W, R are 001, 011, 100, 101 or 111 |
| Sv39.PathDeterminesPage | kernel/memory/vm.c:66-70 | The three walk indices determine the canonical page, so distinct pages never share a path |
| Sv39.PathOfVaOf | kernel/memory/vm.c:66-70 | Every triple of indices belongs to a canonical page |
| PageTree.GrowTree | kernel/memory/vm.c:226-236 | Hanging a zeroed free page under an empty entry keeps the tables a tree of distinct used pages and changes no leaf |
| PageTree.PruneTree | kernel/memory/vm.c:108-112 | Cutting off a childless table and freeing its page keeps the tree and gives back just that page |
| PageWalks.WalkGrows | kernel/memory/vm.c:196-241 | An allocating walk fails exactly when more tables are missing than pages are free, and then its rollback leaves the allocator and every page in use as they were; otherwise it adds exactly the missing tables and changes no leaf |
| PageWalks.WalkPresent | kernel/memory/vm.c:206-241 | Where the tables exist a walk finds the last one and changes nothing |
| PageMaps.MapRefines | kernel/memory/vm.c:243-272 | vm_map_page on the finite map: INVALID, EXISTS and NO_MEMORY exactly when they are due, each without trace; success adds one key |
| PageMaps.MapInvalidIff | kernel/memory/vm.c:243-252 | vm_map_page is INVALID exactly without a root, for a non-canonical or unaligned address, an unaligned frame, or a flag word with an unknown bit, without V, without R and X, or writable but not readable |
| PageMaps.UnmapRefines | kernel/memory/vm.c:274-297 | vm_unmap_page on the finite map: success removes one key, otherwise nothing changes |
| PageMaps.UnmapInvalidIff | kernel/memory/vm.c:274-281 | vm_unmap_page is INVALID exactly without a root or for a non-canonical or unaligned address |
| PageMaps.GetMappingRefines | kernel/memory/vm.c:315-339 | vm_get_mapping answers from the finite map for every address |
| PageMaps.TranslateRefines | kernel/memory/vm.c:299-313 | vm_translate answers from the finite map, and its failure value is ambiguous exactly for the last byte of a page mapped to the last 64-bit frame |
| PageTeardown.ContainsLeafIff | kernel/memory/vm.c:115-133 | table_contains_leaf is true exactly when some key below the table has an entry |
| PageTeardown.FreeTree | kernel/memory/vm.c:135-152 | free_empty_table_children frees exactly the tables below and leaves a tree of the others |
| PageTeardown.InitTree | kernel/memory/vm.c:154-173 | vm_space_init makes an empty tree of one new page, unless no page is free |
| PageTeardown.DestroyTree | kernel/memory/vm.c:175-194 | vm_space_destroy is BUSY exactly when something is mapped, changing nothing; otherwise exactly the tables' pages come back |
| PageRuns.RunRefines | kernel/memory/vm.c:196-339 | Every sequence of map, unmap, translate and get_mapping behaves as the same sequence on a finite map from canonical pages to frame and flags |
| PageRuns.MappingsAcceptable | kernel/memory/vm.c:243-339 | In every map reached from an empty space each entry is a canonical page with an aligned frame and acceptable flags: V, R or X, and R whenever W |
| PageRuns.SpacesRefine | kernel/memory/vm.c:196-339 | Interleaved operations on any number of live spaces: each behaves as its own finite map |
| PageRuns.OtherSpaceKept | kernel/memory/vm.c:196-339 | An operation on one space leaves every other space's tree and mappings alone |
| PageRuns.LifeConserves | kernel/memory/vm.c:154-194 | Created, operated on in any way and destroyed, a space gives back exactly the pages it took; destruction is refused exactly when a mapping is left |
| VmMachine.Vm.Walk | kernel/memory/vm.c:196-241 | vm_walk with its loop and log over mutable memory in place; memory and result are those of the value-level function |
| VmMachine.Vm.RollbackTables | kernel/memory/vm.c:102-113 | the rollback loop; no page is freed twice in place; memory and result are those of the value-level function |
| VmMachine.Vm.MapPage | kernel/memory/vm.c:243-272 | vm_map_page in place; memory and result are those of the value-level function, and the finite map changes as promised |
| VmMachine.Vm.UnmapPage | kernel/memory/vm.c:274-297 | vm_unmap_page in place; memory and result are those of the value-level function, and the finite map changes as promised |
| VmMachine.Vm.Translate | kernel/memory/vm.c:299-313 | vm_translate in place; memory and result are those of the value-level function, and the finite map changes as promised |
| VmMachine.Vm.GetMapping | kernel/memory/vm.c:315-339 | vm_get_mapping in place; memory and result are those of the value-level function, and the finite map changes as promised |
| VmMachine.Vm.ContainsLeaf | kernel/memory/vm.c:115-133 | the recursive leaf search in place; memory and result are those of the value-level function |
| VmMachine.Vm.FreeChildren | kernel/memory/vm.c:135-152 | the recursive freeing; no table is freed twice in place; memory and result are those of the value-level function |
| VmMachine.Vm.SpaceInit | kernel/memory/vm.c:154-173 | vm_space_init in place; memory and result are those of the value-level function, and the finite map changes as promised |
| VmMachine.Vm.SpaceDestroy | kernel/memory/vm.c:175-194 | vm_space_destroy in place; memory and result are those of the value-level function, and the finite map changes as promised |
| UserCopy.VaRangeValidIff | kernel/memory/user_space.c:40-53 | The range check accepts exactly the non-empty ranges all of whose bytes are in the user window and outside the device holes, 64-bit overflow included |
| UserCopy.ValidateIff | kernel/memory/usercopy.c:37-79 | Page-wise validation succeeds exactly when every byte of the range is a user byte mapped with U and the needed permission |
| UserCopy.PermitsByBits | kernel/memory/usercopy.c:56-70 | The permission is bit 4 together with bit 2 for writing and bit 1 for reading |
| UserCopy.WindowInNumbers | kernel/memory/user_space.c:5-53 | The user window runs from 4 KiB to 1 GiB without the CLINT and the UART page |
| UserCopy.CopyOutStores | kernel/memory/usercopy.c:236-262 | A byte-by-byte copy to a task whose range does not overlap the kernel buffer stores what the buffer held |
| UserCopy.CopyInFetches | kernel/memory/usercopy.c:236-262 | A byte-by-byte copy from a task without overlap leaves the task's bytes in the buffer and every other byte as it was |
| UserCopy.StoreThenFetch | kernel/memory/usercopy.c:214-266 | When no frame backs two pages, what was copied to a task is what a copy from it returns |
| UserCopy.StoredAt | kernel/memory/usercopy.c:214-266 | A copy to a task leaves the data at its bytes |
| UserCopy.StoredElsewhere | kernel/memory/usercopy.c:214-266 | And changes nothing else |
| UserTasks.UserMemory.TaskValidate | kernel/memory/usercopy.c:195-212 | usercopy_task_validate decides the validation of the task's finite map, page by page |
| UserTasks.UserMemory.CopyTaskBytes | kernel/memory/usercopy.c:214-266 | The chunked copy equals the byte-by-byte copy through translation for every address, length and overlap, and cannot fail after validation |
| UserTasks.UserMemory.CopyToTask | kernel/memory/usercopy.c:292-314 | copy_to_user_task: success exactly for the empty length or a non-null buffer and a valid writable range; memory becomes the byte-by-byte copy or stays as it was |
| UserTasks.UserMemory.CopyFromTask | kernel/memory/usercopy.c:268-290 | copy_from_user_task likewise for a valid readable range |
| TaskLife.TaskManager.MapUserPage | kernel/memory/user_space.c:55-70 | user_space_map_page is INVALID exactly when its policy or vm_map_page's argument checks fail |
| TaskLife.TaskManager.UserMapOkIff | kernel/memory/user_space.c:55-70 | The user policy and the map checks together accept exactly a page of user bytes backed by a managed page, with V and U, without G, and with acceptable permission bits |
| TaskLife.TaskManager.TrampolineOnePage | kernel/memory/user_space.c:92-104 | The trampoline is accepted exactly when it begins a page and ends in the same one |
| TaskLife.KernelPages | kernel/memory/user_space.c:106-132 | A whole task has the trampoline at 0x3FFFFFF000, executable, neither writable nor for the user, and the trap context one page below, writable, neither executable nor for the user |
| TaskLife.TaskManager.MapTrapSupport | kernel/memory/user_space.c:92-132 | user_space_map_trap_support maps both pages or, undoing the first, neither |
| TaskLife.TaskManager.MapContext | kernel/memory/user_space.c:117-129 | The second mapping of the trap support, or the first one undone |
| TaskLife.TaskManager.Init | kernel/user/task.c:122-187 | user_task_init succeeds exactly when its arguments and state allow it and nine pages are free; it then takes exactly nine and leaves the program, an empty stack and an entry context that starts the program in its frames, and otherwise takes none; either way no page in use before is written |
| TaskLife.TaskManager.InitStartsProgram | kernel/user/task.c:165-181 | A new task enters at the address where it reads byte 0 of its program from a user-executable page, with sp 16-aligned at the end of 4096 bytes of its own writable stack; the handler, entry and context fields are the kernel's own, and satp holds mode 8 and the root page |
| TaskFrames.FillFrames | kernel/user/task.c:149-152 | The three frames hold the program, zeros and zeros, and no other byte is written |
| TaskLife.TaskManager.SetKernelSp | kernel/user/task.c:189-197 | user_task_set_kernel_sp is accepted exactly for a ready task and a non-null stack pointer and changes that one field |
| TaskLife.WholeWindow | kernel/memory/user_space.c:72-90 | A whole task can reach exactly its code page, to read, and its stack page, to read and write |
| TaskLife.ProgramVisible | kernel/user/task.c:149-152 | The task reads exactly its program at the bottom of its window |
| TaskLife.TaskManager.Release | kernel/user/task.c:69-96 | Everything a task holds comes back, each page exactly once |
| TaskLife.TaskManager.AbandonTask | kernel/user/task.c:98-102 | A partly built task gives everything back |
| TaskLife.TaskManager.MarkExited | kernel/user/task.c:199-208 | user_task_mark_exited is accepted exactly in the ready state and keeps what the task owns |
| TaskLife.TaskManager.Destroy | kernel/user/task.c:210-219 | user_task_destroy is accepted exactly in the exited state and returns all nine pages |
| TaskLife.AllBack | kernel/user/task.c:69-96 | Pages taken and then given back leave the allocator and every other page as before |
| AcceleratorRuns.RunSafe | kernel/drivers/accel.c:51-338 | Every interleaving of submit, device step, interrupt, deadline, resume, reset, start, acknowledgement and client writes keeps the driver and device invariant |
| AcceleratorRuns.StepSafe | kernel/drivers/accel.c:51-338 | The same for one step |
| AcceleratorRuns.FillsOnlyItsRange | kernel/arch/riscv64/accel_platform.c:70-104 | A byte is written on the device's behalf only by a device step for a request in use, only inside that request's destination, and at most once per claim |
| AcceleratorRuns.FillStep | kernel/arch/riscv64/accel_platform.c:70-151 | A pending claimed request is carried out in full |
| AcceleratorRuns.StaleStep | kernel/arch/riscv64/accel_platform.c:84-104 | A start left pending by a timeout writes nothing and ends in the error state |
| AcceleratorRuns.Outcome | kernel/drivers/accel.c:305-338 | How every claimed submission ends: OK exactly when the interrupt was handled before the submitter ran again, and then the range is filled; TIMEOUT exactly when the deadline won and no interrupt was handled; ERR_IO never |
| AcceleratorReplies.GoodRequestSucceeds | kernel/drivers/accel.c:249-338 | Progress: on a free device every memset of a non-empty range of one managed page is claimed, carried out by the next device step, completed by the interrupt and answered OK with exactly its range filled |
| AcceleratorReplies.SubmitReply | kernel/drivers/accel.c:249-303 | Each reply of a submission is given exactly when its own cause holds: bad place or bad request, zero ticks, no device, busy, or claimed |
| AcceleratorReplies.SubmitEffect | kernel/drivers/accel.c:249-303 | A claimed request is pending at the device; a refused one leaves only the refusal in the caller's descriptor |
| AcceleratorReplies.ControlReply | kernel/drivers/accel.c:203-242 | Each reply of a control write exactly when its cause holds; a reset leaves the device idle and lifts the requirement, a start without a reset ends done or faulty |
| AcceleratorReplies.IrqReply | kernel/drivers/accel.c:51-94 | The interrupt handler leaves no interrupt pending, completes a request in use with OK and wakes its submitter, and touches nothing else; without a device or an interrupt it does nothing |
| AcceleratorReplies.AckReply | kernel/drivers/accel.c:177-201 | Each reply of an acknowledgement exactly when its cause holds; it clears the named interrupts and no other |
| AcceleratorRuns.LateCompletionIff | kernel/drivers/accel.c:312-329 | OK comes with a descriptor marked TIMEOUT and the reset flag set exactly when the deadline won the wait and the interrupt was still handled before the submitter ran |
| AcceleratorRuns.LateCompletionHappens | kernel/drivers/accel.c:312-329 | A concrete run that ends this way |
| AcceleratorRuns.ResetGate | kernel/drivers/accel.c:189-225 | While a reset is required no submission, start or acknowledgement is accepted |
| AcceleratorRuns.OnlyResetLifts | kernel/drivers/accel.c:221-231 | Only a reset lifts that requirement, and it leaves the device idle with nothing pending |
| AcceleratorRuns.GatedUntilReset | kernel/drivers/accel.c:189-231 | Over every run without a reset the requirement stays |
| AcceleratorRuns.OneRequestPerReset | kernel/drivers/accel.c:118-126 | A device that has left idle refuses every submission until a reset |
| AcceleratorRuns.UnseenForever | kernel/arch/riscv64/accel_platform.c:84-121 | Once a descriptor is neither claimed nor pending, no run that does not name it again depends on what its memory holds: the device, in whatever state, never dereferences it |
| AcceleratorRuns.UnseenIgnored | kernel/arch/riscv64/accel_platform.c:84-121 | The same for one step of driver, device or client |
| AcceleratorRuns.StepIgnores | kernel/arch/riscv64/accel_platform.c:106-151 | A device step reads no descriptor but the one at its base register, and that one only when told to start from idle |
| AcceleratorRuns.NeverSeenAgain | kernel/arch/riscv64/accel_platform.c:106-121 | A descriptor that is neither claimed nor pending stays so over every run that does not submit it |
| AcceleratorRuns.ForgottenAfterReset | kernel/arch/riscv64/accel_platform.c:40-46 | After a reset the base register is clear and no run depends on what any descriptor not named again holds |
| AcceleratorRuns.HeldRun | kernel/drivers/accel.c:286-325 | While a request waits nobody else takes the slot or edits its descriptor, and no byte outside its range changes except by client writes |
| AcceleratorMachine.AccelMachine.ProbeDevice | kernel/drivers/accel.c:34-49 | accel_probe in place; registers, slot and memory become those of the value-level step |
| AcceleratorMachine.AccelMachine.ExecuteMemset | kernel/arch/riscv64/accel_platform.c:70-82 | the device's fill loop in place; registers, slot and memory become those of the value-level step |
| AcceleratorMachine.AccelMachine.StartDescriptorAt | kernel/arch/riscv64/accel_platform.c:84-104 | accel_start_descriptor in place; registers, slot and memory become those of the value-level step |
| AcceleratorMachine.AccelMachine.Step | kernel/arch/riscv64/accel_platform.c:133-151 | platform_accel_step in place; registers, slot and memory become those of the value-level step |
| AcceleratorMachine.AccelMachine.Isr | kernel/drivers/accel.c:51-94 | the interrupt handler in place; registers, slot and memory become those of the value-level step |
| AcceleratorMachine.AccelMachine.SubmitBegin | kernel/drivers/accel.c:249-303 | accel_submit_sync_timeout up to its first sleep in place; registers, slot and memory become those of the value-level step |
| AcceleratorMachine.AccelMachine.SubmitResume | kernel/drivers/accel.c:305-338 | the rest of it after a wake in place; registers, slot and memory become those of the value-level step |
| AcceleratorMachine.AccelMachine.WriteControlRaw | kernel/drivers/accel.c:203-242 | accel_write_control_raw in place; registers, slot and memory become those of the value-level step |
| AcceleratorMachine.AccelMachine.AckIrqRaw | kernel/drivers/accel.c:177-201 | accel_ack_irq in place; registers, slot and memory become those of the value-level step |
| AcceleratorWaits.PhaseStep | kernel/drivers/accel.c:305-325 | The driver's phase is the scheduler's record of the submitter: a wake on its queue moves it as the interrupt handler does, a tick past a deadline as an expiry does, and nothing else moves it |
| AcceleratorWaits.PhaseRun | kernel/drivers/accel.c:305-325 | Over any run until the submitter is dispatched the phase is decided once, by the first operation that ends the wait |
| UserAccel.MemsetEndToEnd | kernel/user/accel_syscall.c:62-133 | One call with any legal steps of others in between, at any byte of memory: success leaves the low byte of the value in each byte of the user's range; every other byte outside the freed bounce page, and every byte after a failure, is as it was; both temporary pages come back; the next call finds the same promises kept; and no later run depends on what a descriptor not submitted again holds |
| UserAccelReplies.GoodCallSucceeds | kernel/user/accel_syscall.c:62-133 | Progress: any 1 to 4096 bytes that the ready caller may write, two free pages and a free device end in OK with exactly those bytes filled and the pool as before |
| UserAccelReplies.BeginReply | kernel/user/accel_syscall.c:70-115 | Each reply of the first half is given exactly when its own cause holds: INVALID for a bad call, NO_MEMORY for fewer than two free pages, TIMEOUT for zero ticks, NO_DEVICE, BUSY |
| UserAccelReplies.BeginPending | kernel/user/accel_syscall.c:84-115 | A call that sleeps has exactly its own request pending at the device, waiting with a deadline unless the caller passed 2^64 - 1 |
| UserAccelReplies.FinishReply | kernel/user/accel_syscall.c:110-132 | The user's reply is the driver's, result for result, with INVALID in place of OK exactly when the range fails the second validation; without OK no byte is touched |
| UserAccel.BeginSafe | kernel/user/accel_syscall.c:70-115 | The first half returns without success and without trace, or sleeps owning the slot and two fresh pages |
| UserAccel.FinishSafe | kernel/user/accel_syscall.c:110-132 | The second half: OK means exactly the user's range was filled and no other byte changed; a timeout changes no byte; the reset it needs is never refused, the device is left with no descriptor in sight, and the driver is left waiting for a reset exactly when the call succeeded after its deadline |
| UserAccelMachine.UserAccelerator.BeginMemset | kernel/user/accel_syscall.c:62-115 | The first half in place over allocator, tables and device |
| UserAccelMachine.UserAccelerator.FinishMemset | kernel/user/accel_syscall.c:110-132 | The second half in place; neither page is freed twice and the reset panic is unreachable |
| UserAccelMachine.WholeTaskBacked | kernel/user/task.c:122-187 | The address space of a whole task satisfies what the end-to-end result asks of it |
| HeapPages.LiveBlocksApart | kernel/memory/heap.c:88-106 | Live blocks are 16-aligned, clear of the page header, inside their page and pairwise disjoint |
| HeapPages.PageInNumbers | kernel/memory/heap.c:108-137 | A page of a class holds 126, 63, 31, 15, 7, 3 or 1 blocks, one after another from byte 48 on |
| HeapMachine.FitsInNumbers | kernel/memory/heap.c:39-47 | The class of a request is the least power of two from 32 to 2048 that holds it |
| HeapPages.AllocatedOk | kernel/memory/heap.c:148-170 | Taking the head block keeps the free list an enumeration, without repeats, of exactly the blocks with a clear bit, and its length the free count |
| HeapPages.FreedOk | kernel/memory/heap.c:278-284 | Putting a taken block back keeps it too |
| HeapInvariant.MayTake | kernel/memory/heap.c:148-162 | A page with a free block passes every check of heap_alloc_block: its panics are unreachable |
| HeapInvariant.TakeKeeps | kernel/memory/heap.c:148-170 | Taking a block keeps the whole heap in order and makes exactly that block live |
| HeapInvariant.GiveKeeps | kernel/memory/heap.c:244-287 | Freeing a live block keeps the whole heap in order and ends exactly that block's life |
| HeapInvariant.GrowKeeps | kernel/memory/heap.c:108-146 | A new page keeps the whole heap in order and makes nothing live |
| HeapInvariant.ClientKeeps | kernel/memory/heap.c:13-15 | A client may write anything anywhere in a live block |
| HeapInvariant.HeapBytes | kernel/memory/heap.c:34-36 | Free bytes plus allocated bytes equal all block bytes |
| HeapMachine.MayFree | kernel/memory/heap.c:248-276 | A live block passes every check of kfree, the page magic included |
| HeapMachine.Heap.ClassIndexForSize | kernel/memory/heap.c:93-106 | The smallest class that holds the size, or none for zero and oversized requests |
| HeapMachine.Heap.AllocBlock | kernel/memory/heap.c:148-170 | heap_alloc_block in place: a block that was not live becomes live, all others and all sizes stay |
| HeapMachine.Heap.GrowPool | kernel/memory/heap.c:108-146 | heap_grow_pool in place, failing exactly when no page is free |
| HeapMachine.Heap.Kmalloc | kernel/memory/heap.c:188-218 | kmalloc returns NULL exactly for unservable sizes or when the class is exhausted and no page is free; otherwise exactly one new block of the smallest fitting class becomes live, counted, and no word of a live block is touched |
| HeapMachine.Heap.Kzalloc | kernel/memory/heap.c:220-234 | kzalloc does what kmalloc does and leaves every word of the block zero and the words of every other live block alone |
| HeapMachine.Heap.Kfree | kernel/memory/heap.c:236-287 | kfree of a live block ends exactly that block's life and moves its bytes to the free count; its panics are unreachable |
| HeapMachine.Heap.FindPage | kernel/memory/heap.c:202-205 | kmalloc's search finds a page of the class with a free block if there is one |

## Left out

- Assembly entry and exit, the trampoline, control registers, fences and M-mode setup: a trap is an atomic step and a frame is an identity with its a0 and mepc.
- Console, UART, boot, trace events, the scenario workloads and the user programs: input, output and observation only.
- Device registry, platform lookup and timer programming: one device, found by the probe, and a tick is a step; the two getters of device registers are not part of the model.
- System-call dispatch and control traps from user mode: waits and sleeps are modelled as issued by kernel callers with valid queues.
- Copies through the SUM window with fault probes: they depend on hardware faults; the task-aware copies are modelled instead.
- Thread names, entry points, kernel stack pointers and the usercopy probe fields: no modelled decision reads them; preempt_disable_depth is zero at every step boundary and is not kept.
- The number of wait queues and mutexes is fixed at the start, and mutex m waits on queue m.
- Null task and space pointers: every call is made with a task or a space; a space without a root is modelled.
- The scheduler's table of task states and the task objects of TaskLife share the state type and take the same transitions at exit, but are not joined into one state.
- 64-bit counters for free and allocated heap bytes and for page counts are unbounded numbers; they stay far below the width because they count bytes of managed memory.
- UserAccelMachine.UserAccelerator.BeginMemset: the call is split at its sleep in the driver; what other threads do there is the list of steps in UserAccel.MemsetEndToEnd, not a concurrent run of these methods.
- PageRuns.SpacesRefine: the number of spaces is fixed during a run; creation and destruction of one space are covered by PageRuns.LifeConserves.
