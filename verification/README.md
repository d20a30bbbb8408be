# Verification of MicroRT-Kernel

A model of the kernel's core in Dafny, with proofs of what its parts promise in every run. Each kernel critical section
is one atomic step, so most modules come as a pair: a state machine on values, about which the theorems are proved, and a
class with the program's own fields and loops whose methods are proved to do exactly the machine's steps. Where the code
does not keep what it promises, the model keeps the code: a lemma gives the input, and another says for all inputs
exactly when the promise is kept.

| Part | Files | Main results |
|---|---|---|
| Heap | `heap_layout.dfy`, `heap_memory.dfy`, `heap_words.dfy` | layout invariant over every run; the hinted search is a full first fit; free undoes malloc; all freed means fresh; over every run each live payload reads back what its owner wrote |
| Scheduler | `prio_bitmap.dfy`, `task_queue.dfy`, `schedule.dfy`, `scheduler_class.dfy` | bitmap, 32 ready lists and READY state agree; the lookup selects a most urgent task, among equals the first to arrive |
| Mutex | `mutex.dfy`, `mutex_inv.dfy`, `mutex_runs.dfy`, `mutex_theorems.dfy`, `mutex_outcomes.dfy`, `mutex_failures.dfy`, `mutex_class.dfy`, `stray_read.dfy` | exact priority inheritance in every reachable state, nested blocking included; no unbounded inversion along chains of owners; no run misses a preemption; a take returns EOK to the owner and to nobody else, however long it was blocked; hand-off; balanced nesting; the exact condition under which each step keeps inheritance, and runs that break it |
| Nesting | `sched_gate.dfy` | no switch inside an interrupt or a locked section; no request lost; which task an interrupt returns to |
| Message queue | `chain.dfy`, `msg_queue.dfy`, `msg_queue_class.dfy` | any byte-by-byte interleaving of sends and receives: one place per block, each message received once and whole, in commit order, nobody stranded |
| Mailbox | `mail_box.dfy` | over every run receives deliver exactly the mails accepted, in order; nobody stranded |
| Memory pool | `pool_carving.dfy`, `chain.dfy`, `mem_pool.dfy` | carving; free and held blocks partition the pool over every run; a header leads back to its pool |
| Timers | `timer.dfy`, `timer_class.dfy` | the expiry scan fires each timer exactly at its passed deadlines, in order, without drift, and ends exactly when it should; from a start to the first firing one period later; what it serves and leaves on the two sides of the tick wrap; when a restart is safe |
| Event groups | `event.dfy` | nobody left waiting has its condition met; who wakes, with what, and what is cleared |
| Ring buffer | `ring_buffer.dfy` | chunked transfers are byte-wise transfers; the ring is a bounded sequence |
| Intrusive list | `list.dfy` | pointer surgery on nodes refines sequence insertion and removal; linking a linked node breaks the ring |

`dafny verify dfyconfig.toml` checks everything.

## How the model reads the program

* Integer widths are written out: sizes modulo 2^32 in `HeapLayout.Needed` and the pool carving, the 8-bit `nest` of
  a mutex and of interrupts, 16-bit capacities and ring locals, 32-bit ticks.
* The heap is counted in words of four bytes, the program's alignment. A header is three words and the first of them
  holds the 16-bit magic and the 16-bit state together.
* `lfree`, despite the comment at `Kernel/Src/mrtk_mem_heap.c:41`, need not be the lowest free block: after an allocation
  without a split it may stand on a USED block or on the end DUMMY. `HeapLayout.HintAfterMalloc` and `HintAfterFree` say
  exactly when it is, `HintMissesTheLowestFree` is a run where it is not. What always holds, and is enough for first fit,
  is that it is a block of the chain with no FREE block below it.
* `Kernel/Src/mrtk_mutex.c:45` compares a waiter with a task read from the address of the local `highest_prio`. The
  mutex model makes the intended comparison with the running best; `StrayRead` treats the byte as arbitrary and proves
  exactly when the code as written computes the same priority.
* `_mrtk_schedule_prio_change` takes the task's node off whatever list it is on and puts it on a ready list, without a
  look at the task's state (`Kernel/Src/mrtk_schedule.c:262-267`). The model does the same: a boosted owner leaves the
  wait queue it is on. Tasks block and sleep while they hold mutexes; runs ask only that a step which changes the
  priority of a mutex's owner finds that owner READY, and that nobody dies while the owner of the mutex it waits for owes
  its priority to it alone. `MutexTheorems.TakeExactly`, `DetachExactly` and `DeathExactly` prove that these guards are
  exact, and `MutexFailures.NestedBlockingFails` is a run of three tasks that violates the first. For a current task,
  which is READY, a release needs no guard.
* The FIFO flag is zero, so the test at `Kernel/Src/mrtk_ipc_obj.c:51` never succeeds: every queue built by
  `_mrtk_ipc_suspend_one` is in priority order, first come first served among equals. `TaskQueue.FifoExactlyWhen` says
  when that is arrival order all the same. Memory pool waiters are queued by `mrtk_mp_alloc` itself and are in arrival
  order.
* `_mrtk_timer_insert` sets ACTIVATED only at the tail of the list. The model keeps this. `Timer.StopUndoesStart` and
  `Timer.RestartIsSafe` say exactly what it costs; a timer started again while it is pending without the flag is linked
  twice (`Timer.RestartLinksTwice`), and `IntrusiveList.InsertAfter` and `NoRingThrough` say what that does to the nodes.
* The expiry scan is modelled with the modular test and re-arming modulo 2^32, on lists sorted by bare deadline. With
  deadlines within a half range of now on one side of the wrap (`Timer.Near`) every timer is served in full. Across the
  wrap a pending timer with a low deadline may stand before a due one with a high deadline: `Timer.ServedExactly` says
  who is served, `Timer.OneShotsExactly` when none is left due, `Timer.ScanOwes` that what is not fired stays owed.
* Waiting is untimed or does not happen: no path of the program writes the timeout error. A blocking call is one step
  per pass of its loop; a woken task makes another pass, and others may have taken what it was woken for.
* An event flag word is the set of its bits.
* The bitmap table is written as one row of sixteen entries and the column in which the rows differ.
* A pended switch is a flag, and taking it (`g_CurrentTCB = g_NextTCB`, `Kernel/Port/hw_stm32f407.S:28-32`) is a step of
  its own. It is the least urgent exception, so interrupts may come first, and no task code runs while it is pending and
  no interrupt is active. `mrtk_interrupt_leave` pends it without choosing a task, so it goes to the task chosen last.
* Ghost fields record history only: what has been sent, who has been woken, arrival times.

## Model

| member | source | states |
|---|---|---|
| `HeapLayout.RunKeepsInv` | `Kernel/Src/mrtk_mem_heap.c:48-194` | over every run of malloc and free of live pointers: the chain runs from offset 0 to the end, only its ends are DUMMY, no two neighbours are FREE, `lfree` is a chain block with no FREE block below it, the USED blocks are exactly the live ones and each holds what was asked |
| `HeapLayout.FreshInv` | `Kernel/Src/mrtk_mem_heap.c:62-86` | the initial heap of any admissible size satisfies the invariant runs start from |
| `HeapLayout.AllocInv` | `Kernel/Src/mrtk_mem_heap.c:112-141` | an allocation, split or not, keeps the layout invariant and the meaning of `lfree` |
| `HeapLayout.ReleaseInv` | `Kernel/Src/mrtk_mem_heap.c:168-191` | a free with any combination of merges keeps both |
| `HeapLayout.FirstFit` | `Kernel/Src/mrtk_mem_heap.c:98-109` | the block found fits and none below it does; none found means none in the whole heap fits |
| `HeapLayout.FirstFitIsLowest` | `Kernel/Src/mrtk_mem_heap.c:98-109` | from the hint the search finds a FREE block of at least the size needed, every FREE block below it being smaller; none exactly when all are smaller |
| `HeapLayout.AllocGives` | `Kernel/Src/mrtk_mem_heap.c:112-132` | malloc hands out what was needed, or the whole block when the rest could not be a header and MIN_DATA words; what is cut off is FREE, right behind and at least that large |
| `HeapLayout.HintIsSafe` | `Kernel/Src/mrtk_mem_heap.c:98-109` | searching from `lfree` finds what searching the whole chain finds |
| `HeapLayout.HintAfterMalloc` | `Kernel/Src/mrtk_mem_heap.c:134-141` | after an allocation `lfree` stands on the lowest FREE block if and only if its own block was split, or another was taken and it stood there before |
| `HeapLayout.HintAfterFree` | `Kernel/Src/mrtk_mem_heap.c:188-191` | after a free it does if and only if the merged block is not above it, or it did before |
| `HeapLayout.HintMissesTheLowestFree` | `Kernel/Src/mrtk_mem_heap.c:41` | a run of four calls on a new heap after which it stands on a USED block below a FREE one |
| `HeapLayout.FreeUndoesMalloc` | `Kernel/Src/mrtk_mem_heap.c:112-191` | malloc and free of its result restore the block layout and `lfree`, with or without a split |
| `HeapLayout.RunThatFreesAllEndsFresh` | `Kernel/Src/mrtk_mem_heap.c:91-194` | a run that frees all it took, in any order, ends in the layout and `lfree` of a new heap |
| `HeapLayout.NothingUsedIsFresh` | `Kernel/Src/mrtk_mem_heap.c:168-191` | the invariant with nothing allocated leaves one FREE block, the hint on it |
| `HeapLayout.BlocksTileTheHeap` | `Kernel/Src/mrtk_mem_heap.c:48-148` | block sizes from any block on add up to the rest of the heap |
| `HeapLayout.LiveAreDisjoint` | `Kernel/Src/mrtk_mem_heap.c:117-132` | two live payloads, each as long as was asked, do not overlap and stay in the heap |
| `HeapLayout.NeededIsEnough` | `Kernel/Src/mrtk_mem_heap.c:93-94` | the rounded size covers the request if and only if the rounding does not overflow, and wastes less than a word |
| `HeapLayout.PayloadHoldsRequest` | `Kernel/Src/mrtk_mem_heap.c:93-144` | the payload handed out holds the request if and only if the rounding does not overflow, for every 32-bit size |
| `HeapLayout.WrappedSizes` | `Kernel/Src/mrtk_mem_heap.c:94` | exactly the sizes 0xFFFFFFF1 to 0xFFFFFFFC round to less than a header |
| `HeapMemory.Allocator.Init` | `Kernel/Src/mrtk_mem_heap.c:48-89` | refuses areas too small for two sentinels and a block; otherwise the words hold the fresh chain |
| `HeapMemory.AcceptsExactly` | `Kernel/Src/mrtk_mem_heap.c:48-60` | the unsigned comparison accepts an area with room for two sentinels and a block, and one whose aligned begin lies above its aligned end by anything but almost 2^32 |
| `HeapMemory.Allocator.Search` | `Kernel/Src/mrtk_mem_heap.c:98-109` | the loop over `next` offsets stops at the full-chain first fit or beyond the heap |
| `HeapMemory.Allocator.Malloc` | `Kernel/Src/mrtk_mem_heap.c:91-149` | takes the lowest FREE block that fits, NULL only if there is none; the words hold the chain of the new layout; no word of a live payload changes |
| `HeapMemory.Allocator.TakeBlock` | `Kernel/Src/mrtk_mem_heap.c:112-132` | after the header writes the words hold the chain of the allocated layout, and only header words changed |
| `HeapMemory.Allocator.Free` | `Kernel/Src/mrtk_mem_heap.c:151-194` | releases exactly a live pointer; any other whose header does not read as USED changes nothing; no word of another live payload changes |
| `HeapMemory.Allocator.Merge` | `Kernel/Src/mrtk_mem_heap.c:168-186` | what the header words of the merged block and its successor hold, in all four merge cases |
| `HeapMemory.ClientWritesKeepChain` | `Kernel/Src/mrtk_mem_heap.c:144` | writes into live payloads never touch the chain |
| `HeapMemory.SplitNeedsAHeader` | `Kernel/Src/mrtk_mem_heap.c:117-132` | after the writes of a split the words hold some well-formed chain if and only if the rounded size is at least a header |
| `HeapMemory.FreeChain` | `Kernel/Src/mrtk_mem_heap.c:168-186` | after the writes of a free the words hold the merged chain |
| `HeapMemory.StaleFreeBreaksPayload` | `Kernel/Src/mrtk_mem_heap.c:151-168` | freeing a stale pointer into a live payload whose word reads as a USED header changes that payload, though it is no live pointer |
| `HeapWords.PayloadsReadBack` | `Kernel/Src/mrtk_mem_heap.c:48-194` | over every run of malloc, free and writes by the owners, on the words: each word of a live payload that its owner wrote reads back as last written |
| `HeapWords.WrittenStays` | `Kernel/Src/mrtk_mem_heap.c:91-194` | what an owner writes into its payload is there after any run that neither writes that word again nor frees the block |
| `PrioBitmap.HighestPrioIsLowestBit` | `Kernel/Src/mrtk_schedule.c:58-130` | for all 2^32 bitmaps but zero the table lookup names a set bit below which none is set |
| `PrioBitmap.SetBitSets` | `Kernel/Src/mrtk_schedule.c:210-217` | setting bit p makes bit p set and leaves every other bit |
| `PrioBitmap.ClearBitClears` | `Kernel/Src/mrtk_schedule.c:219-228` | clearing bit p makes bit p clear and leaves every other bit |
| `TaskQueue.InsertSorted` | `Kernel/Src/mrtk_ipc_obj.c:54-68` | a new arrival leaves the queue in priority order with arrival order among equals |
| `TaskQueue.InsertMembers` | `Kernel/Src/mrtk_ipc_obj.c:54-68` | the queue gains exactly the new task, once |
| `TaskQueue.TailExactlyWhen` | `Kernel/Src/mrtk_ipc_obj.c:51-68` | an arrival goes to the tail, as the FIFO policy has it, if and only if nobody queued is less urgent |
| `TaskQueue.FifoExactlyWhen` | `Kernel/Include/mrtk_ipc_obj.h:28` | tasks that arrive one after the other are queued in arrival order, whatever policy was asked for, if and only if nobody arrives behind a less urgent task |
| `TaskQueue.FifoIsNotHonoured` | `Kernel/Include/mrtk_ipc_obj.h:78` | two tasks of priorities 20 and 5 that arrive in this order are served in the other |
| `TaskQueue.BestHeldIsLeast` | `Kernel/Src/mrtk_mutex.c:33-52` | the running best over all waiters of all held mutexes is the least of the own priority and theirs, and is one of them |
| `Schedule.SuspendInv` | `Kernel/Src/mrtk_schedule.c:219-228` | taking a READY task off keeps bitmap, lists and states in agreement |
| `Schedule.MakeReadyInv` | `Kernel/Src/mrtk_schedule.c:210-217` | making a blocked task READY keeps them in agreement |
| `Schedule.PrioChangeInv` | `Kernel/Src/mrtk_schedule.c:262-267` | moving a READY task between priorities keeps them in agreement |
| `Schedule.PrioChangeNeedsReady` | `Kernel/Src/mrtk_schedule.c:262-267` | a priority change keeps lists, bitmap and states in agreement if and only if the task is READY |
| `Schedule.ForgetInv` | `Kernel/Src/mrtk_task.c:71-80` | a task that dies, READY or not, leaves them in agreement |
| `Schedule.SelectIsMostUrgent` | `Kernel/Src/mrtk_schedule.c:194-200` | the task the lookup selects is READY and no READY task outranks it |
| `Schedule.SelectIsFirst` | `Kernel/Src/mrtk_schedule.c:194-200` | among the READY tasks of the selected priority none comes before the selected one |
| `Schedule.ArrivesLast` | `Kernel/Src/mrtk_schedule.c:210-217` | a task that becomes READY comes after everybody of its priority |
| `Schedule.ChangedArrivesLast` | `Kernel/Src/mrtk_schedule.c:262-267` | so does one whose priority changes |
| `Schedule.OrderIsKept` | `Kernel/Src/mrtk_schedule.c:210-267` | whatever happens to other tasks, two of the same priority keep their order |
| `SchedulerClass.Scheduler.Dispatch` | `Kernel/Src/mrtk_schedule.c:194-205` | afterwards the current task is READY and at least as urgent as every READY task |
| `SchedulerClass.Scheduler.InsertTask` | `Kernel/Src/mrtk_schedule.c:210-217` | the task joins the tail of its level and the level's bit is set, nothing else changes |
| `SchedulerClass.Scheduler.RemoveTask` | `Kernel/Src/mrtk_schedule.c:219-228` | the task leaves its level and the bit goes only with the last task of the level |
| `SchedulerClass.Scheduler.ChangePrio` | `Kernel/Src/mrtk_schedule.c:262-267` | remove, new priority, insert, as one change of the scheduler |
| `MutexRuns.RunInv` | `Kernel/Src/mrtk_mutex.c:75-334` | in every reachable state, with tasks blocking and sleeping while they hold mutexes: each task's priority is the best of its own and of all waiters on all mutexes it holds; locked, owner and held list agree; queues are sorted and hold only blocked tasks, each in one queue |
| `MutexRuns.BootInv` | `Kernel/Src/mrtk_schedule.c:150-173` | the initial state satisfies that invariant |
| `MutexRuns.TakeInv` | `Kernel/Src/mrtk_mutex.c:172-240` | every branch of a take keeps it, a boost of an owner that is not READY apart |
| `MutexRuns.ReleaseStepInv` | `Kernel/Src/mrtk_mutex.c:242-334` | every branch of a release keeps it |
| `MutexRuns.CleanUpInv` | `Kernel/Src/mrtk_task.c:48-83` | the death of a task, READY, asleep or blocked, that holds any number of mutexes keeps it |
| `MutexInv.BlockInv` | `Kernel/Src/mrtk_mutex.c:213-222` | boosting the owner and queueing the taker keep inheritance exact, whatever the taker holds and whether the owner is blocked |
| `MutexInv.UnlockInv` | `Kernel/Src/mrtk_mutex.c:276-290` | an uncontended last release keeps it exact |
| `MutexInv.HandOffInv` | `Kernel/Src/mrtk_mutex.c:293-325` | a hand-off keeps it exact for the old owner, the new owner and everybody else |
| `MutexInv.DetachInv` | `Kernel/Src/mrtk_mutex.c:75-106` | detaching a mutex, owned or not, keeps it exact |
| `MutexInv.UncontendedRestoreIsNoOp` | `Kernel/Src/mrtk_mutex.c:280-284` | the priority restored by an uncontended release is the one the task already has |
| `MutexTheorems.NoInversion` | `Kernel/Src/mrtk_mutex.c:213-232` | in every reachable state, along any chain of tasks each blocked on a mutex the next one owns: nobody is less urgent than the first, and if the last is READY it is on a ready list and what the scheduler selects is never less urgent than the first |
| `MutexTheorems.ChainEnds` | `Kernel/Src/mrtk_mutex.c:172-232` | following the owners from any task reaches one that is on no wait queue, unless tasks wait for each other in a circle |
| `MutexOutcomes.TakeAnswers` | `Kernel/Src/mrtk_mutex.c:172-240` | E_IN_ISR exactly for waiting in an interrupt, EEMPTY exactly for not waiting for another task's mutex, both changing nothing; EOK means the caller owns the mutex, or is blocked on it and waits |
| `MutexOutcomes.ReleaseAnswers` | `Kernel/Src/mrtk_mutex.c:242-334` | E_IN_ISR exactly in an interrupt, ERROR exactly for a task that is not the owner, both changing nothing; with EOK the caller keeps the mutex exactly when its count was not one |
| `MutexOutcomes.WakeAsks` | `Kernel/Src/mrtk_task.c:412-425` | a task that is woken asks for a schedule exactly when it is strictly more urgent than the current one |
| `MutexOutcomes.HandOffAsks` | `Kernel/Src/mrtk_mutex.c:293-331` | so does a hand-off, against the priority its caller is left with |
| `MutexOutcomes.DetachAsksExactly` | `Kernel/Src/mrtk_mutex.c:85-105` | so does a detach, and also when the owner's priority changes |
| `MutexOutcomes.NoBoostMovesNobody` | `Kernel/Src/mrtk_mutex.c:213-222` | a take that blocks behind an owner at least as urgent moves nobody but its caller on the ready lists |
| `MutexOutcomes.HandOffYields` | `Kernel/Src/mrtk_mutex.c:293-307` | a hand-off leaves its caller behind every task of the priority it is left with, even when that is the one it had |
| `MutexOutcomes.WaitEnds` | `Kernel/Src/mrtk_mutex.c:172-334` | any step leaves a blocked taker blocked, makes it the owner with EOK, sends it away with EDELETED, or is its death |
| `MutexOutcomes.TakeReturns` | `Kernel/Src/mrtk_mutex.c:216-240` | along every run a blocked take is still blocked or has returned, with EOK to the owner and to nobody else |
| `MutexOutcomes.NoMissedPreemption` | `Kernel/Src/mrtk_schedule.c:175-208` | in every reachable state in which a READY task is more urgent than the running one, or the running one is not READY or gone, a schedule has been asked for |
| `MutexOutcomes.DispatchAlert` | `Kernel/Src/mrtk_schedule.c:193-205` | a dispatch takes the request back and leaves the most urgent task running |
| `MutexTheorems.TakeExactly` | `Kernel/Src/mrtk_mutex.c:213-222` | a take keeps the mutex invariant if and only if it does not boost an owner that is not READY |
| `MutexTheorems.DetachExactly` | `Kernel/Src/mrtk_mutex.c:85-105` | a detach keeps it if and only if it does not change the priority of an owner that is not READY |
| `MutexTheorems.DeathExactly` | `Kernel/Src/mrtk_task.c:48-83` | the death of a task keeps it if and only if the owner of the mutex the task is blocked on, if any, does not owe its priority to that task alone |
| `MutexTheorems.ResumeExactly` | `Kernel/Src/mrtk_task.c:395-430` | resuming a task that is not READY keeps it if and only if the task is on no wait queue |
| `MutexFailures.SetPriorityExactly` | `Kernel/Src/mrtk_task.c:546-577` | setting a task's priority keeps exact inheritance if and only if it changes nothing |
| `MutexFailures.SetPrioritySched` | `Kernel/Src/mrtk_task.c:546-577` | it gives the task that priority, READY or not, and keeps lists, bitmap and states in agreement |
| `MutexFailures.NestedBlockingFails` | `Kernel/Src/mrtk_mutex.c:213-222` | a run from boot: L takes A, M takes B and blocks on A, H takes B; M lands on a ready list while SUSPEND, is selected next, and its take of A returns EOK although L owns A |
| `MutexTheorems.TakeKeepsPreemption` | `Kernel/Src/mrtk_mutex.c:172-232` | if no READY task outranks the current one before a take, then afterwards none does or a reschedule was requested |
| `MutexTheorems.ReleaseKeepsPreemption` | `Kernel/Src/mrtk_mutex.c:276-331` | the same for a release |
| `MutexTheorems.DetachKeepsPreemption` | `Kernel/Src/mrtk_mutex.c:85-105` | the same for a detach |
| `MutexTheorems.DropLowers` | `Kernel/Src/mrtk_mutex.c:296-307` | giving up a mutex never raises the owner, and lowers it only when that mutex's first waiter was the reason for its priority |
| `MutexTheorems.HandOffGoesToTheHead` | `Kernel/Src/mrtk_mutex.c:293-325` | a contended release never unlocks: the new owner is the most urgent, longest waiting task, READY, with nest 1 and EOK |
| `MutexTheorems.DetachWakesAll` | `Kernel/Src/mrtk_mutex.c:85-105` | every waiter becomes READY with EDELETED and no held list names the mutex any more |
| `MutexTheorems.ReleaseUndoesTake` | `Kernel/Src/mrtk_mutex.c:194-290` | an uncontended take and release restore the whole kernel state |
| `MutexTheorems.NestingBalances` | `Kernel/Src/mrtk_mutex.c:188-273` | n takes are undone by n releases and by no fewer, if and only if n is at most 256 |
| `StrayRead.StrayReadIsHarmless` | `Kernel/Src/mrtk_mutex.c:45` | the comparison as written gives the intended priority whatever byte it reads if and only if no waiter is visited, or none outranks the owner's own priority and the last visited equals it |
| `StrayRead.LastBelow` | `Kernel/Src/mrtk_mutex.c:33-52` | with whatever byte, the scan as written ends with the priority of the last visited task below it |
| `MutexFailures.StrayReadLosesInheritance` | `Kernel/Src/mrtk_mutex.c:45` | a state reached from boot in which the comparison as written restores 20 while a waiter of priority 5 is still queued |
| `MutexClass.FindPos` | `Kernel/Src/mrtk_ipc_obj.c:56-66` | the walk ends before the first less urgent task |
| `MutexClass.FindHighestInheritedPrio` | `Kernel/Src/mrtk_mutex.c:33-52` | the two nested loops compute the running best that `TaskQueue.BestHeldIsLeast` characterises |
| `MutexClass.Mutexes.TakeMutex` | `Kernel/Src/mrtk_mutex.c:172-232` | the whole new state and the return code are those of the machine's take |
| `MutexClass.Mutexes.MovePrio` | `Kernel/Src/mrtk_schedule.c:262-267` | the task leaves the queue it is on, gets the priority and joins the ready list of that level |
| `MutexClass.Mutexes.ReleaseMutex` | `Kernel/Src/mrtk_mutex.c:242-334` | the whole new state and the return code are those of the machine's release |
| `MutexClass.Mutexes.DetachMutex` | `Kernel/Src/mrtk_mutex.c:75-106` | the whole new state is that of the machine's detach |
| `MutexClass.Mutexes.ForceReleaseMutex` | `Kernel/Src/mrtk_mutex.c:386-397` | unlocked whatever the owner, every waiter awake with EDELETED |
| `MutexClass.Mutexes.ResumeOne` | `Kernel/Src/mrtk_ipc_obj.c:71-100` | the head, and only it, becomes READY with the given code; the result says whether it outranks the current task |
| `MutexClass.Mutexes.ResumeAll` | `Kernel/Src/mrtk_ipc_obj.c:102-129` | every queued task wakes head first and the queue is empty |
| `SchedGate.RunInv` | `Kernel/Src/mrtk_irq.c:28-57` | over properly nested runs the counters count the open brackets, a request not acted on is recorded, and with no bracket open some unlock is about to call mrtk_schedule |
| `SchedGate.BootInv` | `Kernel/Src/mrtk_irq.c:23-26` | the boot state satisfies the invariant runs start from |
| `SchedGate.SwitchesAtRest` | `Kernel/Src/mrtk_schedule.c:175-260` | every switch of a run is pended with no interrupt active and the scheduler unlocked |
| `SchedGate.RequestIsHonoured` | `Kernel/Src/mrtk_schedule.c:175-260` | a deferred request stays recorded until acted on, and has been acted on once no bracket is open and no unlock owes its call |
| `SchedGate.RequestsAreRecorded` | `Kernel/Src/mrtk_schedule.c:175-208` | a call of mrtk_schedule or a rotation by the tick is acted on at once or recorded as a request |
| `SchedGate.UnlockCalls` | `Kernel/Src/mrtk_schedule.c:239-260` | an unlock calls mrtk_schedule exactly when it leaves no bracket open and a request is recorded, and once |
| `SchedGate.StartRunsBest` | `Kernel/Src/mrtk_schedule.c:150-173` | the start of the scheduler is a switch to the best task |
| `SchedGate.PendsInsideExactly` | `Kernel/Src/mrtk_irq.c:45-53` | for every step: a switch is pended with brackets open if and only if a counter has wrapped, on a leave with a multiple of 256 interrupts still active or on a call of mrtk_schedule among a multiple of 256, and a multiple of 2^32 locks |
| `SchedGate.InterruptThenSwitch` | `Kernel/Port/hw_stm32f407.S:28-32` | an interrupt, whatever happens in it, and the switch after it run the task chosen last; it is the interrupted one if and only if no switch chosen by mrtk_schedule was pending as the interrupt came |
| `SchedGate.DeferredToLeave` | `Kernel/Src/mrtk_irq.c:49-53` | a request made in the only active interrupt is acted on as it leaves, and the switch runs the task it was made for if and only if that task had been chosen before |
| `SchedGate.RequestAtRestRunsBest` | `Kernel/Src/mrtk_schedule.c:193-205` | a call of mrtk_schedule from task code with no bracket open clears the request, and the best task runs or the pended switch goes to it |
| `SchedGateClass.Counters.LeaveInterrupt` | `Kernel/Src/mrtk_irq.c:40-57` | the new counters and flag, and whether a switch is pended |
| `SchedGateClass.Counters.UnlockScheduler` | `Kernel/Src/mrtk_schedule.c:239-260` | the new counter, and whether mrtk_schedule is called |
| `SchedGateClass.Counters.Reschedule` | `Kernel/Src/mrtk_schedule.c:175-208` | defers before start, in interrupts and under the lock; otherwise pends exactly when the best task is another one |
| `SchedGateClass.Counters.TakeSwitch` | `Kernel/Port/hw_stm32f407.S:28-32` | the chosen task is the current one and nothing is pending |
| `MsgQueue.RunInv` | `Kernel/Src/mrtk_msg_queue.c:143-303` | places, contents, counts and the waiting lists agree under any interleaving of critical sections and copied bytes |
| `MsgQueue.FreshInv` | `Kernel/Src/mrtk_msg_queue.c:42-54` | a new queue of any size satisfies the invariant runs start from |
| `MsgQueue.OnePlaceEach` | `Kernel/Src/mrtk_msg_queue.c:187-207` | every block is in exactly one of free list, message list, one sender, one receiver |
| `MsgQueue.ReceivedIsSent` | `Kernel/Src/mrtk_msg_queue.c:277-280` | when a receive returns, its first min(sent, asked) bytes are those of the message it took, whatever else ran during the copies |
| `MsgQueue.EachMessageOnce` | `Kernel/Src/mrtk_msg_queue.c:143-303` | over every run from a new queue: no two receives return the same message, every message taken has been returned or is being copied out, each receive returned the first bytes of its message, and taken and counted messages add up to those committed |
| `MsgQueue.Recorded` | `Kernel/Src/mrtk_msg_queue.c:196-275` | the log those results speak of is the sequence of messages of the sends that committed, in that order, and one is taken per receive that succeeds |
| `MsgQueue.FetchTakesOldest` | `Kernel/Src/mrtk_msg_queue.c:271-275` | a receive takes the block at the head of the message list, which starts with the bytes of the oldest committed message not yet taken; refusals and waits take none |
| `MsgQueue.CommitInv` | `Kernel/Src/mrtk_msg_queue.c:196-215` | committing keeps contents, places and counts, and leaves no receiver stranded |
| `MsgQueue.RecycleInv` | `Kernel/Src/mrtk_msg_queue.c:282-296` | recycling keeps them and leaves no sender stranded |
| `MsgQueueClass.MessagesFit` | `Kernel/Src/mrtk_msg_queue.c:32-38` | a message of the size asked for fits a block exactly when its size can be rounded in 32 bits; the blocks, headers included, lie in the pool, and one more has no room exactly when their number fits 16 bits |
| `MsgQueueClass.ReserveShape` | `Kernel/Src/mrtk_msg_queue.c:156-189` | what the first half of a send answers: ERROR for a message too long or a full queue and no waiting, a place in the queue by priority for waiting, otherwise the first free block |
| `MsgQueueClass.FetchShape` | `Kernel/Src/mrtk_msg_queue.c:233-275` | what the first half of a receive answers: ERROR, E_IN_ISR, a place in the queue by priority, or the oldest message |
| `MsgQueueClass.CommitShape` | `Kernel/Src/mrtk_msg_queue.c:196-215` | the message joins the tail, the count grows by one and the head of the receivers leaves its queue |
| `MsgQueueClass.RecycleShape` | `Kernel/Src/mrtk_msg_queue.c:282-296` | the block goes to the head of the free list and the head of the senders leaves its queue |
| `MsgQueueClass.MessageQueue.Init` | `Kernel/Src/mrtk_msg_queue.c:34-54` | EINVAL for a pool without room for a block; otherwise the fields show the machine's new queue |
| `MsgQueueClass.MessageQueue.SendFirst` | `Kernel/Src/mrtk_msg_queue.c:143-189` | fields that show a state of the machine show the next one after the checks, the wait or the reservation; the code is the machine's |
| `MsgQueueClass.MessageQueue.CopyByteIn` | `Kernel/Src/mrtk_msg_queue.c:193` | the same for one byte of the sender's copy, which touches no other block |
| `MsgQueueClass.MessageQueue.CopyAllIn` | `Kernel/Src/mrtk_msg_queue.c:193` | the same for the whole copy when nothing comes in between |
| `MsgQueueClass.MessageQueue.SendSecond` | `Kernel/Src/mrtk_msg_queue.c:194-215` | the same for linking the message, counting it and waking the first receiver |
| `MsgQueueClass.MessageQueue.RecvFirst` | `Kernel/Src/mrtk_msg_queue.c:227-275` | the same for the checks, the wait or taking the oldest message |
| `MsgQueueClass.MessageQueue.CopyAllOut` | `Kernel/Src/mrtk_msg_queue.c:279` | the same for the receiver's copy; the buffer is what the machine's receiver has copied |
| `MsgQueueClass.MessageQueue.RecvSecond` | `Kernel/Src/mrtk_msg_queue.c:280-296` | the same for giving the block back and waking the first sender |
| `MailBox.DeliveredInOrder` | `Kernel/Src/mrtk_mail_box.c:138-262` | over any run from a new mailbox the mails delivered are a prefix of the mails accepted, and the rest, never more than the capacity, is what the box counts |
| `MailBox.RunInv` | `Kernel/Src/mrtk_mail_box.c:138-262` | in every reachable state the ring holds the undelivered mails in order, and with somebody waiting what is available is at most what has been spoken for by tasks already woken |
| `MailBox.SendAnswers` | `Kernel/Src/mrtk_mail_box.c:138-199` | E_IN_ISR exactly for waiting in an interrupt, EFULL exactly for a full box and no waiting, a place in the queue exactly for a full box and waiting; otherwise EOK and the first receiver wakes |
| `MailBox.RecvAnswers` | `Kernel/Src/mrtk_mail_box.c:201-262` | the dual for receives, with EEMPTY for an empty box |
| `MailBox.WakesTheMostUrgent` | `Kernel/Src/mrtk_mail_box.c:178-192` | in every reachable state a send with receivers waiting wakes one than whom no other is more urgent; the same for a receive and the senders |
| `MailBox.SendInv` | `Kernel/Src/mrtk_mail_box.c:152-192` | one pass of a send keeps that, even when another task took the slot first |
| `MailBox.RecvInv` | `Kernel/Src/mrtk_mail_box.c:215-255` | one pass of a receive keeps that |
| `MailBox.CapacityIsExact` | `Kernel/Src/mrtk_mail_box.c:42` | the 16-bit capacity is the number of whole words of the area if and only if the area is below 262144 bytes |
| `MailBoxClass.Control.constructor` | `Kernel/Src/mrtk_mail_box.c:31-48` | an empty mailbox of that capacity |
| `MailBoxClass.Control.SendMail` | `Kernel/Src/mrtk_mail_box.c:138-199` | new state and code are those of the machine's send; a reschedule is asked for exactly when the woken receiver outranks the sender |
| `MailBoxClass.Control.RecvMail` | `Kernel/Src/mrtk_mail_box.c:201-262` | new state, code and mail are those of the machine's receive |
| `MemPool.RunInv` | `Kernel/Src/mrtk_mem_pool.c:159-244` | over every run of alloc and free on any number of pools: each free list is linked through the headers from the head, as long as `free_block_count`; free and held blocks partition the pool; a held block's header names its pool; no waiter is stranded |
| `MemPool.AddPoolInv` | `Kernel/Src/mrtk_mem_pool.c:40-66` | a newly carved pool joins the others without disturbing them |
| `MemPool.CarvedInv` | `Kernel/Src/mrtk_mem_pool.c:40-66` | any number of pools of any sizes, freshly carved, satisfy the invariant runs start from |
| `MemPool.BlocksConserved` | `Kernel/Src/mrtk_mem_pool.c:159-244` | after any run `free_block_count` and the blocks held add up to the blocks carved |
| `MemPool.AllocIsExclusive` | `Kernel/Src/mrtk_mem_pool.c:200-211` | alloc fails exactly when the count is zero, and otherwise returns a block of that pool that nobody holds |
| `MemPool.AllocAnswers` | `Kernel/Src/mrtk_mem_pool.c:164-211` | on an empty pool a task that waits goes to the end of the queue and one that does not gets NULL and joins none |
| `MemPool.FreeWakesFirst` | `Kernel/Src/mrtk_mem_pool.c:221-244` | a free wakes the task that has waited longest for a block of that pool, and leaves the block at the head for it |
| `MemPool.FreeGoesHome` | `Kernel/Src/mrtk_mem_pool.c:219` | the header of a held block leads free back to the pool it came from |
| `MemPool.FreeUndoesAlloc` | `Kernel/Src/mrtk_mem_pool.c:200-224` | alloc and free at once restore headers, list order and count |
| `PoolCarving.BlocksApart` | `Kernel/Src/mrtk_mem_pool.c:51-64` | no block reaches into the header of a later one |
| `PoolCarving.BlocksAligned` | `Kernel/Src/mrtk_mem_pool.c:40-52` | data starts on a word and holds the size asked for |
| `PoolCarving.CarvedInside` | `Kernel/Src/mrtk_mem_pool.c:40-49` | all carved blocks lie in the region if and only if the region reaches its first aligned address; a smaller one makes the remaining size wrap |
| `PoolCarving.CreatedCount` | `Kernel/Src/mrtk_mem_pool.c:99-122` | a created pool, its block size rounded first, has the requested number of blocks if and only if their sizes together do not overflow 32 bits |
| `MemPoolClass.Control.Init` | `Kernel/Src/mrtk_mem_pool.c:38-66` | the count computed from region and block size is that of the carving; ERROR without a block, otherwise the headers link all blocks in address order and no other header changes |
| `MemPoolClass.Control.Alloc` | `Kernel/Src/mrtk_mem_pool.c:159-212` | headers, control block and result are those of the machine's alloc |
| `MemPoolClass.Free` | `Kernel/Src/mrtk_mem_pool.c:214-250` | the pool named by the header, and no other, changes as the machine's free says |
| `Timer.ScanFires` | `Kernel/Src/mrtk_timer.c:318-350` | on one side of the wrap a scan fires every timer at each of its passed deadlines, once, and at no other time; a one-shot that fired is gone and a periodic timer is listed at its next deadline |
| `Timer.ScanOwes` | `Kernel/Src/mrtk_timer.c:318-350` | wherever now and the deadlines are: what a timer fires in a scan, followed by what its record in the list is then owed, is what it was owed before |
| `Timer.ServedExactly` | `Kernel/Src/mrtk_timer.c:325-347` | wherever now and the deadlines are: a timer is served in full when no other will be pending below its last due deadline, and falls short when one is; an equivalence where no last deadlines coincide |
| `Timer.LeavesNoneDue` | `Kernel/Src/mrtk_timer.c:325-347` | the same for the whole list, periodic timers included: none is left due when nobody may be blocked, one is when somebody is |
| `Timer.OneShotsExactly` | `Kernel/Src/mrtk_timer.c:325-331` | when the due timers are one-shots, none is left due if and only if no due deadline is a higher number than a pending one |
| `Timer.NothingNew` | `Kernel/Src/mrtk_timer.c:318-350` | wherever now and the deadlines are, the list left is in order, starts with no due timer and holds no stranger |
| `Timer.LogOrdered` | `Kernel/Src/mrtk_timer.c:318-350` | on one side of the wrap firings come in deadline order, re-armed timers included |
| `Timer.ExpectedSteps` | `Kernel/Src/mrtk_timer.c:341-346` | the firings a late periodic timer is owed fall on deadline, deadline + period, and so on, modulo 2^32 |
| `Timer.ExpectedCount` | `Kernel/Src/mrtk_timer.c:341-346` | they are floor(lateness / period) + 1 in number |
| `Timer.NoDrift` | `Kernel/Src/mrtk_timer.c:343-344` | once served the timer stands at first + count * period, which is pending |
| `Timer.TwoScans` | `Kernel/Src/mrtk_timer.c:318-350` | a scan followed by a later one fires, timer by timer, exactly what one late scan fires |
| `Timer.ScanEndsExactlyWhen` | `Kernel/Src/mrtk_timer.c:325-347` | the scan ends if and only if no due periodic timer has period zero |
| `Timer.RestKeeps` | `Kernel/Src/mrtk_timer.c:325-347` | one round keeps the list in order and in range and gets closer to the end, across the wrap too |
| `Timer.InsertOrdered` | `Kernel/Src/mrtk_timer.c:49-71` | insertion keeps the list in deadline order |
| `Timer.StartRecords` | `Kernel/Src/mrtk_timer.c:192-217` | EINVAL exactly for an endless period, changing nothing; otherwise the timer is on the list, armed in every record, and the others are as they were |
| `Timer.StartedAt` | `Kernel/Src/mrtk_timer.c:209` | every record of a started timer is due at now + period modulo 2^32, its period and kind unchanged |
| `Timer.ArmedIsDue` | `Kernel/Src/mrtk_timer.c:209-331` | such a timer is due one period after its start and not before, on whatever side of the wrap, and is owed its first firing there |
| `Timer.StartedFires` | `Kernel/Src/mrtk_timer.c:318-350` | scanned d ticks after its start a timer has not fired for d below its period, and has first fired at now + period otherwise |
| `Timer.RestActivates` | `Kernel/Src/mrtk_timer.c:341-346` | a re-armed timer carries ACTIVATED exactly when no other pending deadline is later than its own |
| `Timer.StartActivates` | `Kernel/Src/mrtk_timer.c:61-74` | a started timer carries ACTIVATED if and only if no pending deadline is later |
| `Timer.StartFlags` | `Kernel/Src/mrtk_timer.c:203-213` | a timer started, or started again while ACTIVATED, is on the list once and carries ACTIVATED exactly when no other pending deadline is later |
| `Timer.StopUndoesStart` | `Kernel/Src/mrtk_timer.c:192-240` | stop right after start undoes it exactly when the timer went to the tail; otherwise it reports an error and the timer stays pending |
| `Timer.StartIsSafe` | `Kernel/Src/mrtk_timer.c:192-217` | a start keeps the list a list if and only if the timer is not pending, or pending with ACTIVATED |
| `Timer.RestartIsSafe` | `Kernel/Src/mrtk_timer.c:61-74` | for a timer started twice that is so if and only if no pending deadline was later at the first start |
| `Timer.RestartLinksTwice` | `Kernel/Src/mrtk_timer.c:192-217` | start A, start B to expire before it, start B again: B is linked twice |
| `Timer.RestartExample` | `Kernel/Src/mrtk_timer.c:192-217` | A(100) and B(50) at tick 0 and B again at tick 10 are such starts |
| `Timer.WrapHidesADueTimer` | `Kernel/Src/mrtk_timer.c:61-68` | two timers started so that one is due before the wrap and the other pending after it: the due one is not fired |
| `Timer.WrapExample` | `Kernel/Src/mrtk_timer.c:61-68` | periods 8 and 32 started 16 ticks before the wrap and scanned 8 ticks later are such timers |
| `TimerClass.FindPlace` | `Kernel/Src/mrtk_timer.c:61-68` | the walk ends before the first later deadline |
| `TimerClass.TimerList.StartTimer` | `Kernel/Src/mrtk_timer.c:192-217` | list, flag and return code are those of the machine's start for every timer, and the result is a sorted list without repetition if and only if the start was safe |
| `TimerClass.TimerList.StopTimer` | `Kernel/Src/mrtk_timer.c:219-240` | list and return code are those of the machine's stop |
| `TimerClass.TimerList.Check` | `Kernel/Src/mrtk_timer.c:318-388` | the expiry loop produces exactly the firings and the list of the scan, for hard and soft lists |
| `Event.SendWakesExactly` | `Kernel/Src/mrtk_event.c:159-195` | a send wakes exactly the tasks whose condition holds under old or new flags, hands each the flags it waited for, then clears exactly the masks of the woken CLEAR tasks; nobody left has its condition met |
| `Event.SendAnswers` | `Kernel/Src/mrtk_event.c:149-205` | on the bits: EINVAL exactly for no flags; a queued task leaves exactly when all, or with OR one, of the flags it waits for are set, and its call returns EOK |
| `Event.RecvAnswers` | `Kernel/Src/mrtk_event.c:215-260` | on the bits: when each refusal is given, changing nothing; the flags handed over and cleared when all, or one, are there; a place in the queue otherwise |
| `Event.WaitThenSend` | `Kernel/Src/mrtk_event.c:149-275` | a receive that waits returns at the next send exactly when all, or one, of its flags are set by then, with those flags, cleared when asked |
| `Event.ClearForgets` | `Kernel/Src/mrtk_event.c:284-290` | flags set before a clear count for nobody after it |
| `Event.SendIgnoresQueueOrder` | `Kernel/Src/mrtk_event.c:166-195` | flags left, deliveries and who stays do not depend on the order of the queue |
| `Event.RunInv` | `Kernel/Src/mrtk_event.c:149-297` | in every reachable state no queued task has its condition met |
| `Event.RecvInv` | `Kernel/Src/mrtk_event.c:215-260` | every outcome of a receive keeps that |
| `Event.ClearMaskIsExact` | `Kernel/Src/mrtk_event.c:175-179` | the accumulated mask is the union of the masks of the waking CLEAR tasks |
| `Event.StayInOrder` | `Kernel/Src/mrtk_event.c:166-190` | tasks that stay keep priority and arrival order |
| `EventClass.EventGroup.SendEvent` | `Kernel/Src/mrtk_event.c:149-205` | one traversal that unlinks while it walks leaves the state the machine's send describes, and asks for a reschedule exactly when somebody woke |
| `EventClass.EventGroup.RecvEvent` | `Kernel/Src/mrtk_event.c:215-275` | new state and code are those of the machine's receive |
| `RingBuffer.WriteIsPutAll` | `Kernel/Src/mrtk_ringbuffer.c:54-107` | a bulk write leaves what as many single puts leave |
| `RingBuffer.ReadIsGetAll` | `Kernel/Src/mrtk_ringbuffer.c:12-120` | a bulk read returns and leaves what single gets do |
| `RingBuffer.WriteInTwo` | `Kernel/Src/mrtk_ringbuffer.c:54-94` | splitting a write anywhere changes nothing |
| `RingBuffer.ReadInTwo` | `Kernel/Src/mrtk_ringbuffer.c:12-52` | splitting a read anywhere changes nothing |
| `RingBuffer.MovedIsEnough` | `Kernel/Src/mrtk_ringbuffer.c:14-28` | the 16-bit locals transfer the full amount in every state if and only if the buffer has at most 65536 bytes |
| `RingBuffer.Ring.WriteBulk` | `Kernel/Src/mrtk_ringbuffer.c:54-94` | the contents become the bounded sequence's write, in one chunk or two |
| `RingBuffer.Ring.ReadBulk` | `Kernel/Src/mrtk_ringbuffer.c:12-52` | bytes returned and contents left are the bounded sequence's read |
| `RingBuffer.Ring.Putc` | `Kernel/Src/mrtk_ringbuffer.c:96-107` | appends the byte, or EFULL exactly at capacity size - 1 |
| `RingBuffer.Ring.Getc` | `Kernel/Src/mrtk_ringbuffer.c:109-120` | removes the oldest byte, or EEMPTY |
| `RingBuffer.Ring.GetFree` | `Kernel/Include/mrtk_ringbuffer.h:117-134` | what is missing to capacity size - 1, never negative |
| `IntrusiveList.RingIsUnique` | `Kernel/Include/mrtk_list.h:78-82` | the links determine the sequence of nodes |
| `IntrusiveList.IsEmpty` | `Kernel/Include/mrtk_list.h:120-123` | true exactly for a head alone in its ring |
| `IntrusiveList.Len` | `Kernel/Include/mrtk_list.h:92-102` | the walk counts the nodes behind the head |
| `IntrusiveList.InsertAfter` | `Kernel/Include/mrtk_list.h:130-137` | the ring gains a new node in that place; when the node is in the ring already, two nodes lead to the same one |
| `IntrusiveList.InsertBefore` | `Kernel/Include/mrtk_list.h:144-148` | the same, and before the head means at the end of the list |
| `IntrusiveList.NoRingThrough` | `Kernel/Include/mrtk_list.h:130-148` | once two nodes lead to the same one no ring goes through all the nodes |
| `IntrusiveList.Remove` | `Kernel/Include/mrtk_list.h:155-161` | the node ends up in a ring of its own and the others in theirs, also for the last node |
| `IntrusiveList.RemoveUndoesInsert` | `Kernel/Include/mrtk_list.h:130-161` | removing the node just inserted gives back the sequence |

## Left out

- HeapMemory.Allocator.Malloc: sizes 0xFFFFFFF1 to 0xFFFFFFFC are outside its precondition; for them the program writes headers over each other, and `HeapMemory.SplitNeedsAHeader` and `HeapLayout.WrappedSizes` say exactly when.
- HeapLayout.RunKeepsInv: runs ask for at most 2^32 - 16 bytes at a time, because `HeapLayout.PayloadHoldsRequest` is false above.
- HeapMemory.Allocator.Free: a stale pointer whose header word happens to read as a USED block is outside its precondition; `HeapMemory.StaleFreeBreaksPayload` says what the program does to the payload it points into.
- HeapMemory.Allocator.Init: an area whose aligned begin lies above its aligned end is outside its precondition; `HeapMemory.AcceptsExactly` says which of them the program accepts.
- MutexRuns.RunInv: runs in which a priority change finds an owner that is not READY, or a blocked task dies while an owner owes its priority to it alone, are not described beyond the first such step, which breaks the invariant by `MutexTheorems.TakeExactly`, `DetachExactly` and `DeathExactly`.
- SchedGate.RunInv: runs nest fewer than 256 interrupts and 2^32 locks; `SchedGate.PendsInsideExactly` says for every step what happens at such depths.
- RingBuffer.Ring.WriteBulk: buffers of more than 65536 bytes are described only by how much is moved; buffers near 2^32 bytes, whose index sums overflow, are not described.
- Timer.ScanFires: deadlines on one side of the tick wrap; `Timer.ScanOwes` and `Timer.ServedExactly` describe the others.
- Timer.ServedExactly: a timer whose last due deadline is the same tick as that of one pending below it may be served in full or not, depending on the order of the list; a due periodic timer of period above 2^31 + 1 is not described.
- TimerClass.TimerList.StartTimer: a list with a node linked twice is described up to the call that makes it; what later calls do to it is not.
- MsgQueueClass.MessageQueue.constructor: message sizes whose block size wraps to zero are outside its precondition; the program divides by it.
- PoolCarving.CarvedInside: addresses and block sizes within a few bytes of 2^32, whose rounding overflows.
- The port layer, its assembly and SysTick; the context switch is one assignment here.
- Dump and print functions, object names, null-argument checks, and static or dynamic object checks.
- Global object lists: `mrtk_task_init` links an object node twice and nothing here depends on them.
- Timed waits and the task timer callback: no path writes the timeout error.
- `mrtk_task_resume` of a task blocked on a mutex and `set_priority` as steps of mutex runs: `MutexTheorems.ResumeExactly` and `MutexFailures.SetPriorityExactly` show that they break the invariant.
- Deleting or resetting mailboxes, message queues, pools and event groups with tasks waiting; a message queue reset while copies are in flight; `mrtk_mq_send` and `mrtk_mq_urgent`, which are declared but not defined.
- The state field and timer of a task woken by an event, which a send does not update; queue membership is used instead.
- Semaphores: the mailbox argument with a counter.
- Timer callbacks that start or stop timers, and timer control commands.
- Round robin within a priority on a tick, except for the request it records.
- The owner's priority that a mutex records for queries; nothing else reads it.
- The state machines of message queue, mailbox, pool and event group record who is woken, not where the woken task stands among the ready tasks; the mutex model covers that part of waking.
