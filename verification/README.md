# A small MIPS kernel: model and proofs

This project models the logic of a teaching kernel for MIPS and proves what its parts are for. It
has seven groups of modules.

**Processes.** `Scheduler` is the value form of the scheduler: process records, five ready queues,
the sleep, network and exit queues, quotas and counters. `Placement` and `Runs` prove that over every
run each live process is in exactly one place; `Quota` says exactly when the quotas add up; `Waiting`
bounds the wait in ready queue 0, says exactly which calls serve the other priorities, and has runs in
which one of them starves; `Rounds` ties the run counters to the calls counted from reset to reset.
`Sleepers` says whom a scheduler call wakes, and `WakeUps` how long do_sleep and do_waitpid last. `Links` and `Kernel` do the same work in place: a table of records with next
and prev links shared by all queues, methods that rewrite them, and a proof that each method computes
the value form.

**Synchronisation.** `Mailbox` and `MailboxProofs` follow any number of senders and receivers step by
step through two semaphores, a lock and a ring of two slots; `MailboxLock` says who waits for that lock
and when he goes on, `Stranding` whom the semaphores wake, whom they leave behind, and how a mailbox gets
stuck. `Locks`, `LockProofs` and `Deadlock` treat mutexes
and conditions, and `LockOrder` joins the discipline of `Deadlock` with the order that qsort leaves.
`Barriers` counts rounds. `Sync` (locks and conditions), `Semaphores` and `BarrierObjects` have the
objects themselves on top of `Kernel`, each call proved to take its step of these models. A kernel entry
is atomic up to the point where it blocks; user code may be preempted between any two steps.

**Algorithms.** `RedBlack` (trees and contexts as values) and `RedBlackHeap` (records with parent
pointers) cover insertion; `Quicksort` covers the sort that puts locks in order.

**File system.** `Bitmaps` treats the maps as bytes. `Inodes`, `Entries`, `Removal`, `Reachability`,
`Operations` and `FileSystem` follow link counts, bitmaps and directory blocks through mkfs, mkdir,
touch, link, rm and rename. The methods of `FileSystem` also mark inodes dirty and write tables back as
the code does; `Remount`, `RemovalSync` and `Mounting` say when the disk stays in step with memory and
what mounting it gives. `Paths` and `CurrentDir` cover path walking, printing and cd, `Trees` the
directory trees these are stated for, and `DiskTrees` which operations on the tables keep them.
`Listings` shows that the types in directory entries stay true, so that ls lists all of them.
`FileContents` and `FileIo` cover reading, writing and resizing, and `FileBytes` what a write anywhere in
a file means for every byte.

**Memory.** `Frames` and `PageTable` cover the frame stack and the two-level page tables.

**Printing.** `Numbers` and `Formatter` cover the bounded formatter and the number parser; `TextLaws`
says what each conversion means, `AtoiLaws` which texts the parser reads right.

**Helpers.** `Strings` has words and NUL-terminated strings, `Wrappers` the optional result; `Sealing` keeps
large invariants folded in proofs that only pass them on; `Counting` counts events of a run.

A class whose methods change state is tied by their contracts to functions on values, and the laws
are lemmas about those functions. Ghost state explains the rest: the sequence each queue represents,
the references still to be dropped by a removal, the owner of every block, the role of every frame.

Where the code departs from what it evidently wants, the model follows the code, and the lemma states
when the code does what it should:

- `rotate_left` assigns in a test (libs/algo.c:88). Insertion is right exactly when repair does not
  end in that rotation of a right child (`RedBlackHeap.InsertNode`); the fifth of five ascending keys
  breaks it.
- `qsort` compares with the last element moved (libs/algo.c:15). It sorts exactly the sequences of
  `Quicksort.SortsExactly`.
- `do_exit` overwrites the priority before it lowers the quota, and a spawn raises the quota without a
  free slot (kernel/sched/sched.c:355, 525, 548): `Quota.StepKeepsQuota`.
- The selection among priorities 1 to 4 starts from the last one chosen and goes back only when all
  counters are used up and queue 1 is not empty (kernel/sched/sched.c:142-177). A process runs exactly
  when enough calls meet the guard of `Waiting.ServedExactly`; below the last selection only the calls of
  `Waiting.SelectionFalls` help; `Waiting.StarvingRun` gives runs of any length in which it never runs.
- `check_sleeping` looks at the longest sleeper only, whoever is due behind it (kernel/sched/sched.c:55-68):
  a sleeper wakes exactly after enough calls of `WakeUps.RousedExactly`. `do_waitpid` accepts the number
  of the caller (kernel/sched/sched.c:568-575), who then never goes on: `WakeUps.WaitsForItself`.
- A message longer than 64 bytes is counted but not copied (libs/mailbox.c:71, 89): `MailboxLock.LongKeepsSlots`.
- `do_semaphore_up` wakes nobody while the value is above zero, and `do_semaphore_down` tests again
  (kernel/locking/sem.c:17, 26). Waiters are stranded exactly by the ups of
  `Stranding.RunStrandsExactly`, and a waiter goes on exactly after enough ups that find the value below
  zero (`Stranding.WokenExactly`). `Stranding.MailboxDeadlocks` is a run after which a receiver and two
  senders are blocked for good beside two unread messages.
- `mutex_lock_acquire_multiple` relies on that `qsort` (kernel/locking/lock.c:62-70). It keeps the
  discipline that excludes deadlock exactly for sortable lists (`LockOrder.AcquireMultipleExactly`), and
  `LockOrder.AcquireMultipleDeadlocks` is a run that ends in a cycle of two.
- `do_mkdir`, `do_touch`, `do_link` and `do_rename` take a name that is already there, and `do_mkdir`
  one with slashes (kernel/fs/fs.c:512, 738-745): `DiskTrees.OpKeepsTree`.
- A read or write that reaches a block boundary calls itself for ever (kernel/fs/fs.c:867, 917), and an
  overwrite makes the file longer (kernel/fs/fs.c:891): `FileContents.EndsExactly`,
  `FileContents.SizeAfterWrite`, `FileBytes.ReadAfterWrite`.
- `do_link` and `do_rm` do not mark the directory they change (kernel/fs/fs.c:995-999, 672-676):
  `Remount.LinkSyncs` and `RemovalSync.RmSyncs` say when the disk stays in step all the same, and by
  `Mounting.LinkLostOnMount` a link that does not cannot be mounted consistently.
- `mount_fs` keeps the superblock it read before formatting, and reads bitmaps and inodes through it
  (kernel/fs/fs.c:545-548): `Mounting.MountFindsBlocks` and `Mounting.MountReadsTables` say when that is
  right; by `Mounting.FirstMountMisplaces` and `Mounting.FirstMountMisreads` it never is on a blank disk.
- The printed path of the root standardises to the empty name (kernel/fs/fs.c:58-69), and an absolute
  cd with dot components leaves them in the string (kernel/fs/fs.c:114-122): `Paths`.
- `atoi` takes a hexadecimal letter for its distance from '0' (libs/string.c:83-90): the value is right
  exactly when the last eight digits have no letter (`AtoiLaws.AtoiOfHex`).
- Page table entries keep 24 address bits (kernel/mm/memory.c:47-50): `Frames.TranslationInverts`.

## Model

| member | source | states |
|---|---|---|
| `Scheduler.DropsExited` | kernel/sched/sched.c:182-186 | dequeuing past exited processes removes exactly the exited ones in front: what is left is a suffix whose head is not exited |
| `Placement.UnblocksHead` | kernel/sched/sched.c:260-272 | in a placed state the longest waiter, and nobody else, leaves its queue for the end of the ready queue of its priority, and the bound of that priority grows by its share |
| `Scheduler.SelectsExactly` | kernel/sched/sched.c:142-177 | every fifth call takes queue 0; the others take the first queue from the last selection on that has runs left, or queue 1 when none has, and queue 0 when that one is empty; a call that is not a fifth one adds one to the counter of the queue it took, counters 1 to 4 start from zero after a reset, and nothing else changes |
| `Scheduler.FreeSlot` | kernel/sched/sched.c:341-354 | the first slot that is new or exited, or 16 when there is none |
| `Placement.AfterUnblockOne` | kernel/sched/sched.c:260-272 | one wake-up keeps every process in one place and changes no record but that of a blocked process |
| `Placement.AfterUnblockAll` | kernel/sched/sched.c:274-281 | waking all empties the queue and keeps every process in one place |
| `Placement.AfterChecks` | kernel/sched/sched.c:55-90 | the sleep and network checks keep every process in one place |
| `Placement.AfterDispatch` | kernel/sched/sched.c:179-236 | a dispatch from a non-empty queue, or from queue 0, ends in a placed state with a runnable current process |
| `Waiting.HandsOver` | kernel/sched/sched.c:179-207 | the head of the chosen queue gets the processor, the old process, if it can go on, stands behind all that were in the ready queue of its priority, and nobody is overtaken |
| `Placement.AfterSchedule` | kernel/sched/sched.c:140-236 | from a state whose current process may just have blocked or exited, the scheduler reaches a placed state with a runnable current process |
| `Placement.IdleIsReady` | kernel/sched/sched.c:188-235 | while the idle process is not running it is ready, so queue 0 is not empty and the error branch is not reached through it |
| `Runs.AfterSpawn` | kernel/sched/sched.c:330-357 | spawning keeps the placement invariant, with and without a free slot |
| `Runs.SpawnsAtEnd` | kernel/sched/sched.c:330-357 | the first free slot, which was in no queue, becomes a ready process at the end of the ready queue of the priority asked for; every other process stays where it is; with no free slot only the bound changes |
| `Runs.AfterExit` | kernel/sched/sched.c:513-551 | whatever queues of locks are woken, the exiting process ends in no queue with its exit queue empty, everybody else in one place, and the scheduler can be called |
| `Runs.StepKeepsPlacement` | kernel/sched/sched.c:140-551 | every kernel entry (tick, spawn, block, sleep, wait, wake, exit) keeps the placement invariant |
| `Runs.BootIsPlaced` | init/main.c:67-99 | the state after boot is placed, with any start value 0 to 4 of the selection index |
| `Runs.EveryRunIsPlaced` | kernel/sched/sched.c:140-551 | every state of every run from boot satisfies the placement invariant |
| `Runs.ExactlyOnePlace` | kernel/sched/queue.c:23-81 | a process is live exactly when it runs or is in one queue at one position; a ready one is in the queue of its own priority; it is blocked exactly when it is in a blocking queue |
| `Quota.OwedIsShareTimesCount` | kernel/sched/sched.c:375-386 | what is owed to a priority is its share, 3(p+1), times the number of runnable processes of that priority |
| `Quota.StepKeepsQuota` | kernel/sched/sched.c:330-408 | a kernel entry keeps every bound equal to what is owed if and only if it is not a spawn without a free slot and not an exit at a priority other than 1 |
| `Quota.BootQuota` | init/main.c:67-99 | the bounds set up at boot are exact |
| `Quota.RunKeepsQuota` | kernel/sched/sched.c:330-551 | over every run of such entries from exact bounds the upper bound of priority p is 3(p+1) times the number of ready or running processes at p |
| `Quota.NeverSaturates` | kernel/sched/sched.c:389-408 | when the running process blocks its bound is large enough, so the saturating branch loses nothing |
| `Waiting.StepApproaches` | kernel/sched/sched.c:164-207 | every scheduler call brings a process waiting in queue 0 at least one call nearer to running, and no other entry moves it away |
| `Waiting.BoundedWaiting` | kernel/sched/sched.c:32-33 | a process at position k of ready queue 0 runs within 5(k+1) scheduler calls, whatever comes between |
| `Waiting.ServedExactly` | kernel/sched/sched.c:142-207 | in every run a process at position k of a ready queue 1 to 4 gets to run within n entries if and only if more than k scheduler calls among them meet the guard that serves its queue |
| `Waiting.SelectionFalls` | kernel/sched/sched.c:143-177 | from an index above 1 the selection index falls if and only if all counters from it on are used up, the call is not a fifth one, and queue 1 is not empty; then it falls to 1 |
| `Waiting.BelowSelection` | kernel/sched/sched.c:149-177 | a queue below the selection index is served only by such a call, and then it is queue 1 |
| `Waiting.StepFalls` | kernel/sched/sched.c:142-551 | every kernel entry, exits included: the index falls exactly when the entry reaches the scheduler in such a state, and otherwise no queue below it is served |
| `Waiting.WaitsForTurn` | kernel/sched/sched.c:142-551 | over every run a process at a priority below the selection index keeps its position until some entry meets that guard |
| `Waiting.StarvingRun` | kernel/sched/sched.c:142-236 | from boot with index 3 or 4 and one spawn at priority 2, ticks of any number are a run in which queue 2 is never served |
| `Waiting.StarvingWaits` | kernel/sched/sched.c:142-236 | in each state of it process 2 is ready, first in its queue, and not running |
| `Rounds.CallCounts` | kernel/sched/sched.c:142-177 | one scheduler call adds one to the counter of the queue it takes other than as a fifth call, after setting counters 1 to 4 to zero when none from the last selection on has runs left, and touches no other counter |
| `Rounds.CounterGrowsByCalls` | kernel/sched/sched.c:142-177 | over every run between two resets a counter grows by the number of calls that took its queue, wrapped to 32 bits |
| `Rounds.CounterIsCalls` | kernel/sched/sched.c:151-176 | from a reset on, counters 1 to 4 are the numbers of the calls that took their queues |
| `Rounds.TakenAtMost` | kernel/sched/sched.c:151-176 | between two resets a queue is taken at most as often as its bound says while the bound stays below a value; the resetting call itself takes queue 1 whatever its bound |
| `Rounds.RunsLeftExactly` | kernel/sched/sched.c:149-176 | what the next call finds is told by the calls alone: a queue has runs left if and only if it was taken less often since the reset than its bound says |
| `Sleepers.SleepCheck` | kernel/sched/sched.c:55-68 | the head of the sleep queue, and nobody else, goes to the end of its ready queue if and only if the time is above its wake-up time; otherwise nothing changes |
| `Sleepers.NetCheck` | kernel/sched/sched.c:70-82 | the head of the receive queue, and nobody else, wakes if and only if its descriptor is done |
| `Sleepers.CallMoves` | kernel/sched/sched.c:140-236 | a scheduler call moves a blocked process one place nearer, or makes it ready if it is the head, exactly when it dispatches and finds the head of that queue due; otherwise the process stays where it is |
| `Sleepers.HeadSleeperWakes` | kernel/sched/sched.c:55-68 | of a dispatching call: the head of the sleep queue is ready if its time has passed, asleep at the head if not, and every other sleeper only moves up |
| `Sleepers.HeadReceiverWakes` | kernel/sched/sched.c:70-82 | the same of the receive queue and its descriptor |
| `WakeUps.RousedExactly` | kernel/sched/sched.c:55-82 | over every run a process at position k of the sleep or receive queue is awake within n entries if and only if more than k scheduler calls among them find the head of that queue due |
| `WakeUps.SleepsUntil` | kernel/sched/sched.c:55-68 | a sleeper stays blocked until a scheduler call at a time above its wake-up time finds it first among the sleepers |
| `WakeUps.SleepSits` | kernel/sched/sched.c:238-243 | do_sleep puts the caller behind the other sleepers with the wrapped wake-up time, at most one of them leaving by the call of the scheduler |
| `WakeUps.SleepLasts` | kernel/sched/sched.c:55-243 | over every run that begins with do_sleep(time) at time now: before the process is awake, the scheduler is called at a time above (time + now) mod 2^32 and finds it first among the sleepers, and up to then it is blocked |
| `WakeUps.WaitSits` | kernel/sched/sched.c:568-575 | do_waitpid of a live process blocks the caller behind the others that wait for it; with any other number nothing changes |
| `WakeUps.WaitsForExit` | kernel/sched/sched.c:513-575 | over every run a process that waits for another is awake within n entries if and only if that one has exited among them |
| `WakeUps.WaitsForItself` | kernel/sched/sched.c:568-575 | a process that waits for itself is never awake again |
| `Links.MemPush` | kernel/sched/queue.c:23-41 | pushing an unlinked node rewrites next, prev, head and tail so that they represent the queue with the node at its end, all other queues unchanged |
| `Links.MemPop` | kernel/sched/queue.c:59-81 | dequeuing leaves links that represent the rest of the queue, the removed node linked nowhere, all other queues unchanged |
| `Kernel.Kernel.Push` | kernel/sched/queue.c:23-41 | on the linked memory: the queue gets the process at its end |
| `Kernel.Kernel.PushIfNotExist` | kernel/sched/queue.c:44-56 | walking the links finds a process that is already queued; otherwise it is pushed |
| `Kernel.Kernel.Dequeue` | kernel/sched/queue.c:59-81 | on the linked memory: the head is returned and taken out, or NULL for an empty queue |
| `Kernel.Kernel.IncreaseBound` | kernel/sched/sched.c:375-386 | the bound of the priority grows by its share |
| `Kernel.Kernel.DecreaseBound` | kernel/sched/sched.c:389-408 | the bound falls by the share and saturates at 0 |
| `Kernel.Kernel.InvokeBlocked` | kernel/sched/sched.c:360-372 | a dequeued process becomes running-ready and joins the queue of its priority |
| `Kernel.Kernel.DoUnblockOne` | kernel/sched/sched.c:260-272 | the memory changes as Scheduler.UnblockOne says |
| `Kernel.Kernel.DoUnblockAll` | kernel/sched/sched.c:274-281 | the loop until the queue is empty changes the memory as Scheduler.UnblockAll says |
| `Kernel.Kernel.SelectQueue` | kernel/sched/sched.c:142-177 | the selection loop, the counter increment and the reset change the memory as Scheduler.Select says, whose every field Scheduler.SelectsExactly gives |
| `Kernel.Kernel.CheckSleepers` | kernel/sched/sched.c:55-68 | the memory changes as Scheduler.CheckSleeping says, of which Sleepers.SleepCheck says whom it wakes |
| `Kernel.Kernel.Switch` | kernel/sched/sched.c:179-236 | dequeuing, requeuing, checking and switching compute Scheduler.Dispatch |
| `Kernel.Kernel.DoScheduler` | kernel/sched/sched.c:140-236 | the scheduler on linked memory refines Scheduler.Schedule and reestablishes the placement invariant |
| `Kernel.Kernel.DoBlock` | kernel/sched/sched.c:246-253 | blocking on linked memory refines Scheduler.Block and reestablishes the placement invariant |
| `Kernel.Kernel.DoSleep` | kernel/sched/sched.c:238-243 | the wake-up time wraps at 32 bits and the process blocks in the sleep queue |
| `Kernel.Kernel.DoWaitPid` | kernel/sched/sched.c:568-575 | waiting for a live process blocks in its queue; any other number returns at once |
| `Kernel.Kernel.FindSlot` | kernel/sched/sched.c:341-354 | the search loop finds the first free slot |
| `Kernel.Kernel.DoSpawn` | kernel/sched/sched.c:330-357 | a spawn raises the bound even when there is no slot, and else queues the new process |
| `Kernel.Kernel.DoExit` | kernel/sched/sched.c:513-551 | exit with its loops over locks and waiters refines Scheduler.ExitCurrent followed by the scheduler |
| `Kernel.Kernel.DrainWaiters` | kernel/sched/sched.c:537-547 | the loop over the exit queue wakes every process that waits |
| `MailboxProofs.StepKeepsCounts` | kernel/locking/sem.c:14-30 | every step keeps value = initial value + ups - downs started, and downs completed never exceed the initial value plus the ups |
| `Stranding.WakesExactly` | kernel/locking/sem.c:14-21 | a blocked process goes on if and only if it is first in its queue and the step is an up that leaves the value at zero or below |
| `Stranding.StepOnSem` | kernel/locking/sem.c:14-30 | what every step of every process does to value and queue of each semaphore |
| `Stranding.StrandsExactly` | kernel/locking/sem.c:14-30 | a step leaves somebody waiting at a value of zero or more, where nobody was, if and only if it is an up that finds -1 with two or more in the queue |
| `Stranding.RunStrandsExactly` | kernel/locking/sem.c:14-30 | over every run: somebody is stranded at some time if and only if there was such an up |
| `Stranding.WokenExactly` | kernel/locking/sem.c:14-30 | over every run: a process at position k of a semaphore's queue is woken within n steps if and only if more than k of them are ups that find the value below zero |
| `Stranding.StaysStranded` | kernel/locking/sem.c:14-21 | a stranded process stays where it is for as long as the value is zero or more, however many ups there are |
| `Stranding.MailboxQueues` | kernel/locking/sem.c:14-30 | in every state of every run from the start the queues hold exactly the blocked processes, each once |
| `Stranding.MailboxStrandsExactly` | libs/mailbox.c:64-98 | in every run from the start somebody is ever stranded if and only if some up found -1 with two or more waiting |
| `Stranding.MailboxWokenExactly` | libs/mailbox.c:64-98 | in every run from the start, and from any time on, a process blocked at position k is woken by the next n moves if and only if more than k of them are ups that find the value below zero |
| `Stranding.MailboxGetsStuck` | libs/mailbox.c:64-98 | a run of 34 steps of three processes that leaves a receiver blocked beside two unread messages and a sender blocked on the full mailbox |
| `Stranding.MailboxDeadlocks` | libs/mailbox.c:64-98 | two steps more and all three are blocked, three messages sent and one received |
| `Stranding.BlockedForGood` | libs/mailbox.c:64-98 | no step of anybody changes such a state |
| `MailboxProofs.StepKeepsExclusive` | libs/mailbox.c:64-98 | at most one process is between acquire and release of the mailbox lock |
| `MailboxProofs.Bounds` | libs/mailbox.c:64-98 | receives entered never exceed sends left, and sends entered exceed receives left by at most two |
| `MailboxProofs.StepKeepsInv` | libs/mailbox.c:64-98 | every step of any sender or receiver keeps ring, tallies and contents consistent; the waiters for the lock are the subject of MailboxLock.StepKeepsLock |
| `MailboxLock.StepKeepsLock` | libs/mailbox.c:64-98 | every step keeps the queue of the mailbox lock equal to its blocked processes, each once, a taken lock held, and beside a free lock with waiters a process about to test it |
| `MailboxLock.MailboxWaiters` | libs/mailbox.c:64-98 | so it is in every state of every run from the start |
| `MailboxLock.MailboxLockMoves` | kernel/locking/lock.c:95-107 | in every state of every run, while somebody waits, the lock is held inside the critical section, or a process is about to test it and its step takes it |
| `MailboxLock.LockWakesExactly` | kernel/locking/lock.c:95-107 | a process blocked on the lock comes to test it by a step if and only if it waits longest and the step ends a critical section |
| `MailboxLock.LockWokenExactly` | kernel/locking/lock.c:95-107 | over every run a process at position k of the lock's queue comes to test the lock within n moves if and only if more than k of them end a critical section |
| `MailboxLock.HolderLeaves` | libs/mailbox.c:64-98 | a holder keeps the lock until it has made exactly the moves left of its critical section, and then gives it back |
| `MailboxLock.LongKeepsSlots` | libs/mailbox.c:71-77 | while a message of more than 64 bytes is sent or received, no slot changes |
| `MailboxProofs.ReceivedIsSent` | libs/mailbox.c:64-98 | in every interleaving the k-th message received is a copy of the k-th sent, in critical-section order, on all bytes both have |
| `MailboxProofs.ReceivedIsPrefix` | libs/mailbox.c:64-98 | with equal lengths up to 64 the messages received form a prefix of the messages sent |
| `MailboxProofs.NoUnreadOverwritten` | libs/mailbox.c:69-77 | while a sender writes a slot, every unread message is stored intact in the other slot |
| `Semaphores.Semaphore.Up` | kernel/locking/sem.c:14-21 | somebody is woken exactly when more downs were started than the initial value and the earlier ups cover; in a placed state value and queue change as in the mailbox model, so the longest waiter leaves |
| `Semaphores.Semaphore.Down` | kernel/locking/sem.c:23-30 | the caller passes exactly when all downs started, its own included, are covered; else it blocks at the end of the queue; value and queue change as in the mailbox model |
| `Semaphores.Semaphore.Test` | kernel/locking/sem.c:26-29 | a woken process tests the value again and, while it is negative, blocks again at the end of the queue |
| `LockProofs.StepKeepsInv` | kernel/locking/lock.c:26-107 | every lock, condition and exit step keeps owners, recorded slots, queues and pending wake-ups consistent |
| `LockProofs.MutualExclusion` | kernel/locking/lock.c:37-60 | in every reachable state a lock is locked exactly when some process records it, and then in one slot of one process |
| `LockProofs.NoLostWakeup` | kernel/locking/lock.c:95-107 | in every reachable state a free lock with waiters has a woken process about to test it, and that process can take it |
| `LockProofs.CondWaitReturnsLocked` | kernel/locking/cond.c:12-18 | a process that waits on a condition goes on only when it holds the lock again |
| `LockProofs.CondWaitKeeps` | kernel/locking/cond.c:12-18 | releasing, queuing on the condition and blocking is one step, so no signal falls in between |
| `LockProofs.BroadcastKeeps` | kernel/locking/cond.c:25-28 | a broadcast sends every waiter to test the lock and keeps the invariant |
| `LockProofs.ExitKeeps` | kernel/sched/sched.c:527-535 | the locks an exiting process holds are released and their waiters woken |
| `LockProofs.ReleaseManyKeeps` | kernel/locking/lock.c:73-93 | releasing several locks keeps the invariant |
| `Deadlock.StepKeepsOrder` | kernel/locking/lock.c:26-70 | if locks are asked for in rising order of id, a process waits only for a lock above all it holds |
| `Deadlock.NoDeadlock` | kernel/locking/lock.c:62-70 | then no reachable state has a cycle of any length in the wait-for graph |
| `Deadlock.SomeoneRuns` | kernel/locking/lock.c:37-60 | then behind every waiting process there is one that holds a lock and waits for none, though it may sleep on a condition, or one about to take a free lock |
| `Deadlock.SomeoneMoves` | kernel/locking/lock.c:37-60 | when nobody sleeps on a condition with another lock in hand, that process is a running holder or takes the free lock in its next step |
| `Deadlock.SortedIsStrict` | kernel/locking/lock.c:28-35 | ids issued at initialisation are unique, so different locks in order of id are in strictly rising order |
| `LockOrder.SortedIsRising` | libs/algo.c:6-27 | of different ids qsort leaves a strictly rising list if and only if they are sortable |
| `LockOrder.AcquireMultipleExactly` | kernel/locking/lock.c:62-70 | a process that holds nothing and takes different locks in the order qsort leaves keeps the discipline of NoDeadlock if and only if their ids, as passed, are sortable |
| `LockOrder.AcquireMultipleDeadlocks` | kernel/locking/lock.c:62-70 | a run of the lock protocol in which two processes take the locks 2, 0, 1 and 1, 2 in the order qsort leaves ends with each waiting for the other |
| `Sync.Mutexes.InitLock` | kernel/locking/lock.c:26-35 | initialising on memory refines Locks.InitLock and keeps both invariants; a second call changes nothing |
| `Sync.Mutexes.Acquire` | kernel/locking/lock.c:37-60 | a call of acquire up to its first block or its return refines Locks on linked memory; both invariants hold again, so calls can follow each other |
| `Sync.Mutexes.TryAcquire` | kernel/locking/lock.c:37-60 | one pass of acquire on linked memory refines Locks.Try: the lock is taken and recorded when free, the kernel unchanged; else the process is queued once and the kernel does Scheduler.Block; both invariants are kept |
| `Sync.RunningIsFree` | kernel/locking/lock.c:37-45 | a process that the lock model calls blocked is not the running one |
| `Sync.Mutexes.ReleaseLock` | kernel/locking/lock.c:95-107 | release on linked memory refines Locks.Release, wakes one waiter and keeps both invariants |
| `Sync.Mutexes.CondWait` | kernel/locking/cond.c:12-18 | a condition wait on linked memory refines Locks.CondWait: the lock is free, its waiter woken and the caller blocked in the condition's queue; both invariants are kept |
| `Sync.Mutexes.Signal` | kernel/locking/cond.c:20-23 | a signal on linked memory refines Locks.Signal and keeps both invariants |
| `Sync.Mutexes.Broadcast` | kernel/locking/cond.c:25-28 | the loop over the condition's queue refines Locks.Broadcast and Scheduler.UnblockAll |
| `Sync.Mutexes.Exit` | kernel/sched/sched.c:513-551 | the loop of exit over locks[] and over the waiters refines Locks.ExitFrom and the exit of module Scheduler, the lock queues being read off the slots; both invariants are kept |
| `Sync.Mutexes.ReleaseMultiple` | kernel/locking/lock.c:73-93 | releasing several held locks in the order given refines Locks.ReleaseMany, wakes one waiter of each and calls the scheduler; both invariants are kept |
| `Barriers.StepKeepsBarrier` | kernel/locking/barrier.c:12-24 | every kernel entry keeps cur_val equal to the number of queued waiters and below the bound |
| `Barriers.BarrierBatches` | kernel/locking/barrier.c:12-24 | in every state of every run the processes let through are the bound times the whole rounds that have arrived |
| `Barriers.NobodyLeavesEarly` | kernel/locking/barrier.c:12-24 | a process leaves the barrier queue only through the arrival that completes the round, which empties the queue |
| `BarrierObjects.BarrierObject.Wait` | kernel/locking/barrier.c:12-24 | the method on memory refines Barriers.Arrive |
| `RedBlack.RepairBalances` | libs/algo.c:178-235 | repair of a red node in a balanced context gives a red-black tree; the recursion climbs the context |
| `RedBlack.RepairInorder` | libs/algo.c:178-235 | recolouring and rotating never change the in-order sequence |
| `RedBlack.PlaceFits` | libs/algo.c:144-175 | the search ends after all keys not greater than the new one and before all greater ones |
| `RedBlack.InsertCorrect` | libs/algo.c:128-235 | insertion into a red-black search tree gives a red-black search tree whose in-order sequence is the old one with the new node after all keys not greater |
| `RedBlack.DepthIsLogarithmic` | libs/algo.c:127-141 | 2 to the depth is at most (n+1) squared, that is depth at most 2 log2(n+1) |
| `RedBlackHeap.RotateRight` | libs/algo.c:101-125 | the pointer writes change exactly four nodes |
| `RedBlackHeap.RotateLeft` | libs/algo.c:74-98 | as written, with the assignment in line 88: the parent's left link is set in every case |
| `RedBlackHeap.RightTurnRotates` | libs/algo.c:101-125 | rotate_right is the right rotation of the tree, parent pointers included, in every context |
| `RedBlackHeap.LeftTurnRotates` | libs/algo.c:74-98 | rotate_left is the left rotation below a left child's parent or at the root; below a right child's parent it misplaces the subtree |
| `RedBlackHeap.InsertRecurse` | libs/algo.c:144-175 | the node ends up red, childless and linked both ways at the place the search finds |
| `RedBlackHeap.Straighten` | libs/algo.c:208-222 | the zig-zag of node, parent and grandparent is turned into a line |
| `RedBlackHeap.RotateGrandparent` | libs/algo.c:224-233 | rotation at the grandparent and the two colour changes |
| `RedBlackHeap.InsertRepair` | libs/algo.c:178-235 | repair on memory leaves the subtree RedBlackHeap.Settle describes, in place unless the faulty branch is taken |
| `RedBlackHeap.Climb` | libs/algo.c:135-140 | following parent pointers ends at the root |
| `RedBlackHeap.MisplacedIsNoTree` | libs/algo.c:88-95 | after the faulty branch the memory represents no tree at all at the root |
| `RedBlackHeap.InsertNode` | libs/algo.c:128-141 | the root returned represents RedBlack.Insert with consistent parent pointers if and only if repair does not end in rotate_left of a grandparent that is a right child; nodes outside the tree are untouched |
| `RedBlackHeap.AscendingKeysFault` | libs/algo.c:88-95 | keys 1 to 5 in ascending order: the fifth insertion is the first to be broken |
| `Quicksort.SplitMinima` | libs/algo.c:12-21 | the left part of the partition is the strictly descending run of minima, and the last of them is the minimum of the range |
| `Quicksort.MeasureFalls` | libs/algo.c:22-26 | twice the length plus one while the first element is not minimal falls with every recursive call, so qsort terminates |
| `Quicksort.Partition` | libs/algo.c:11-21 | the loop leaves the minima and then the rest, and nothing outside the range changes |
| `Quicksort.QSort` | libs/algo.c:6-27 | qsort terminates on every range of every array and leaves Sort of it, nothing else changing |
| `Quicksort.SortPermutes` | libs/algo.c:6-27 | the result is a permutation of the input |
| `Quicksort.SortIs` | libs/algo.c:22-26 | the result is the minima turned round, followed by the sorted rest |
| `Quicksort.SortsExactly` | libs/algo.c:6-27 | the result is sorted if and only if every element that is not a new minimum is at least the first element, and so again for those elements alone |
| `Quicksort.NotSorted` | libs/algo.c:15-20 | ids 3, 1, 2 come out as 1, 3, 2 |
| `Quicksort.CmpLockOrders` | libs/algo.c:29-32 | the wrapped difference orders two ids as numbers if and only if they are less than 2^31 apart |
| `Bitmaps.FindFirstZeroBit` | kernel/fs/fs.c:406-417 | the first clear bit of a byte buffer that has one: the position that Inodes.FirstZero gives for its bits |
| `Bitmaps.ClearBit` | kernel/fs/fs.c:699-704 | exactly one bit of the map is cleared |
| `Bitmaps.Allocate` | kernel/fs/fs.c:357-404 | a bit is set exactly when it is in range and clear; otherwise nothing changes |
| `Inodes.BlockNumbers` | kernel/fs/fs.c:419-423 | a block's number comes back from its offset, and an unused slot's number lies outside the bitmap |
| `Inodes.UnlinkedKeeps` | kernel/fs/fs.c:556-580 | taking a dropped reference off a link count keeps the books; a directory's own entries become references to drop |
| `Inodes.FreedKeeps` | kernel/fs/fs.c:679-697 | clearing the block bits of an unreferenced inode and freeing it keeps the books |
| `Entries.NewFileKeeps` | kernel/fs/fs.c:747-752 | a new file with one reference keeps the books |
| `Entries.LinkedKeeps` | kernel/fs/fs.c:996-997 | one more link to a file keeps the books |
| `Entries.NewDirKeeps` | kernel/fs/fs.c:509-527 | a new directory with its own block and dot entries keeps the books |
| `Entries.AppendedKeeps` | kernel/fs/fs.c:506-513 | an entry written at the end of a directory keeps the books and touches no other directory's block |
| `Entries.ShortenedKeeps` | kernel/fs/fs.c:657-673 | closing the gap of a removed entry keeps the books |
| `Removal.TurnReady` | kernel/fs/fs.c:574-580 | before each turn of the loop the next entry is an allocated inode with a reference to drop, and one directory fewer is active |
| `Removal.LastTurn` | kernel/fs/fs.c:581-593 | after the loop, freeing the directory completes the removal |
| `Reachability.LinksAreEntries` | kernel/fs/fs.c:492-532 | each link count is the number of directory entries on disk that name the inode, plus one for the root |
| `Reachability.AllocatedIsReachable` | kernel/fs/fs.c:554-704 | the inode bitmap is exactly the set of inodes reachable from the root over directory entries |
| `Reachability.BlocksAreOwned` | kernel/fs/fs.c:386-404 | the block bitmap is exactly the blocks in slots of allocated inodes |
| `Reachability.OneOwner` | kernel/fs/fs.c:386-423 | no block is in two slots, of one inode or of two |
| `Reachability.RemovalFrees` | kernel/fs/fs.c:554-594 | after a removal the inodes left allocated are exactly those still reachable without the entry |
| `Operations.FirstSettled` | kernel/fs/fs.c:290-337 | an empty root directory satisfies all of this |
| `Operations.MkdirSettles` | kernel/fs/fs.c:492-532 | mkdir leads from a settled state to a settled one |
| `Operations.TouchSettles` | kernel/fs/fs.c:730-769 | touch leads from a settled state to a settled one |
| `Operations.LinkSettles` | kernel/fs/fs.c:987-1000 | a hard link to a file leads from a settled state to a settled one |
| `Operations.RmFinish` | kernel/fs/fs.c:596-677 | rm leads from a settled state to a settled one, and frees exactly what only the entry led to |
| `Operations.RenameSettles` | kernel/fs/fs.c:1070-1087 | a rename changes neither what is named nor where |
| `FileSystem.FileSystem.RmRecurse` | kernel/fs/fs.c:554-594 | the recursion ends because active directories become fewer; exactly one reference is dropped, directories no deeper are spared, surviving directories keep their entries and inodes their blocks |
| `Inodes.FindFirstZeroBit` | kernel/fs/fs.c:406-417 | the first free position of a map that has one |
| `FileSystem.FileSystem.MarkInodeDirty` | kernel/fs/fs.c:71-75 | the flag of the table block that holds the inode is set, so that the flags describe one marked inode more |
| `FileSystem.FileSystem.UpdateInode` | kernel/fs/fs.c:77-91 | exactly the blocks of the table that hold a marked inode are written, and no flag stays set |
| `FileSystem.FileSystem.Mkfs` | kernel/fs/fs.c:290-337 | from blank inodes: a settled state with an empty root, its inode and the bitmaps on the disk |
| `FileSystem.FileSystem.Mkdir` | kernel/fs/fs.c:492-532 | the first free inode and block become a directory entered at the end of the working directory, both inodes and the bitmaps are written back, and the state is settled again |
| `FileSystem.FileSystem.Touch` | kernel/fs/fs.c:730-769 | the first free inode becomes a file entered at the end of the working directory, both inodes and the bitmaps are written back; a name with a slash changes nothing |
| `FileSystem.FileSystem.HardLink` | kernel/fs/fs.c:987-1000 | the file gets one more link and one more entry, and only its inode is written back; a name with a slash changes nothing |
| `FileSystem.FileSystem.CloseGap` | kernel/fs/fs.c:667-673 | the shift loop takes one entry out and keeps the order of the others |
| `FileSystem.FileSystem.Rm` | kernel/fs/fs.c:596-677 | the first entry of that name goes, exactly the inodes still reachable stay allocated with type and blocks, and the table blocks of the freed ones are written back; or nothing changes when there is no such entry |
| `FileSystem.FileSystem.Rename` | kernel/fs/fs.c:1070-1087 | the first entry behind the dot entries with the old name gets the new one |
| `FileSystem.FileSystem.Mount` | kernel/fs/fs.c:545-551 | the tables become those of the disk; a disk in step with blank free inodes gives back the state before |
| `Paths.SplitOfJoin` | kernel/fs/fs.c:228-245 | splitting at slashes undoes joining plain components |
| `Trees.StaysTree` | kernel/fs/fs.c:492-532 | one more entry leaves a tree of directories if and only if its name is plain and not yet there |
| `Trees.StaysTreeRenamed` | kernel/fs/fs.c:1070-1087 | another name for an entry leaves a tree if and only if it is plain and no other entry has it |
| `Trees.PrunedTree` | kernel/fs/fs.c:596-677 | taking out an entry, with the directories nothing names any more, leaves a tree |
| `DiskTrees.OpKeepsTree` | kernel/fs/fs.c:492-1087 | after touch, mkdir, link, rename or rm on the tables the directories on the disk are a tree if and only if the name given is plain and new |
| `DiskTrees.StepKeepsTree` | kernel/fs/fs.c:492-1087 | the same of what the contracts of touch, mkdir and rename in class FileSystem say |
| `DiskTrees.LinkKeepsTree` | kernel/fs/fs.c:987-1000 | the same of a hard link |
| `DiskTrees.RmKeepsTree` | kernel/fs/fs.c:596-677 | rm always keeps the tree |
| `DiskTrees.RunIsTree` | kernel/fs/fs.c:290-1087 | from mkfs over every run of these operations with plain new names the directories on the disk are a tree, which is what the theorems about paths start from |
| `Listings.OpKeepsKinds` | kernel/fs/fs.c:492-1087 | touch, mkdir, link, rename and rm keep the type in every entry equal to that of the inode it names |
| `Listings.RunKinds` | kernel/fs/fs.c:290-1087 | from mkfs on it is so in every state of every run |
| `Listings.Ls` | kernel/fs/fs.c:442-447 | the loop shows entries up to the number of entries or the first without a type |
| `Listings.LsShowsEntries` | kernel/fs/fs.c:442-447 | in such a state ls of a directory shows every entry it has, in order |
| `Paths.PathLeads` | kernel/fs/fs.c:21-56 | walking the names of the printed path from the root arrives at the directory |
| `Paths.PrintedPathResolves` | kernel/fs/fs.c:21-69 | the printed path of a directory, standardised, resolves to it if and only if it is not the root |
| `Paths.EnteredIsPath` | kernel/fs/fs.c:151-175 | one component of cd keeps the string equal to the path, except .. at the root |
| `Paths.AbsoluteCd` | kernel/fs/fs.c:114-122 | after cd with an absolute name the string is the path of the new directory if and only if no component is a dot entry |
| `Paths.RelativeCd` | kernel/fs/fs.c:129-188 | after cd with a relative name that does not leave the root upwards the string is the path of the new directory |
| `CurrentDir.CurrentDir.NameParse` | kernel/fs/fs.c:202-288 | the loop over the buffer computes the fold of lookups over the components |
| `CurrentDir.CurrentDir.PrintAbsolutePath` | kernel/fs/fs.c:21-56 | the climb and the backward loop print the path of the directory |
| `CurrentDir.CurrentDir.GoUp` | kernel/fs/fs.c:157-167 | the last component is cut off the string in place |
| `CurrentDir.CurrentDir.UpdateRelative` | kernel/fs/fs.c:129-188 | the string becomes the path of the directory the name leads to |
| `CurrentDir.CurrentDir.Cd` | kernel/fs/fs.c:712-727 | cwd is the directory the name resolves to and the string its path, unless an absolute name has dot components; an unknown name changes nothing |
| `FileContents.EndsExactly` | kernel/fs/fs.c:859-873 | a request comes to an end if and only if it stays strictly below the next block boundary; otherwise it calls itself with the same arguments for ever |
| `FileContents.SizeAfterWrite` | kernel/fs/fs.c:847-892 | within the blocks a file has, the size after a write is right if and only if the write starts at the end of the file or is empty |
| `FileContents.WritesConcatenate` | kernel/fs/fs.c:840-897 | any writes to a new file totalling less than a block leave exactly their bytes in order, position equal to size, every other file unchanged |
| `FileContents.ReadsReturn` | kernel/fs/fs.c:900-949 | reads one after the other return the contents piece by piece if and only if they do not pass the end |
| `FileContents.ReadsExactly` | kernel/fs/fs.c:900-949 | every read of a file within a block ends: it returns the bytes asked for if and only if all lie below the size, and otherwise nothing |
| `FileBytes.WriteSets` | kernel/fs/fs.c:840-897 | a write that ends sets exactly the bytes of its range; every other byte within the size of any file stays, no two slots come to share a block, and the size is the end of the write when blocks were missing and otherwise the sum of old size and length |
| `FileBytes.ReadAfterWrite` | kernel/fs/fs.c:840-949 | a read of what was just written returns it, unless the write began behind the end of the file within the blocks it had; then it returns nothing |
| `FileIo.OpenFile.Resize` | kernel/fs/fs.c:1089-1110 | the slots from the first unused one on get the first free blocks |
| `FileIo.OpenFile.Fwrite` | kernel/fs/fs.c:840-897 | the bytes replace those at the position, the size is set or grows, the position advances; FileBytes.WriteSets says it of every byte |
| `FileIo.OpenFile.Fread` | kernel/fs/fs.c:900-949 | of a file within a block, an empty one included: the bytes at the position if all are there, and the position advances; otherwise nothing, and the position stays |
| `FileIo.OpenFile.WriteAndReadBack` | kernel/fs/fs.c:840-962 | text appended and read again after a seek to where it began comes back, the old contents in front of it, every other file unchanged |
| `Remount.RegionsAreApart` | kernel/fs/fs.c:71-97 | inode blocks and directory blocks are written inside their own regions of the disk, and follow each other without overlap |
| `Remount.StoredSyncs` | kernel/fs/fs.c:77-97 | after write-back the disk is in step if and only if every allocated inode that differs shares a block with a marked one |
| `Remount.MkfsSyncs` | kernel/fs/fs.c:290-337 | after mkfs the disk is in step with memory |
| `Remount.StepSyncs` | kernel/fs/fs.c:492-1087 | touch, mkdir and rename, with the inodes they mark and write, keep the disk in step |
| `Remount.RunStaysSynced` | kernel/fs/fs.c:290-1087 | from mkfs on, the disk is in step in every state of every run of mkdir, touch and rename |
| `Remount.RunStaysEqual` | kernel/fs/fs.c:492-1087 | a disk that agrees on free inodes as well goes on doing so |
| `Remount.LinkSyncs` | kernel/fs/fs.c:987-999 | a hard link keeps the disk in step if and only if the directory is in the same inode block as the file |
| `RemovalSync.RmSyncs` | kernel/fs/fs.c:554-704 | rm keeps the disk in step if and only if the directory, and every inode that only loses a link, share a table block with an inode that nothing but the removed entry leads to |
| `RemovalSync.RmOfFile` | kernel/fs/fs.c:596-704 | for a file that means: its last link goes, and it lies in the same table block as the directory |
| `Mounting.MountIsIdentity` | kernel/fs/fs.c:545-551 | mounting gives back exactly the state before if and only if the disk was in step and its free inodes are blank |
| `Mounting.MountKeepsTree` | kernel/fs/fs.c:545-551 | whatever the free inodes hold, a disk in step mounts to the same tree: exactly the allocated inodes are reachable, with their contents |
| `Mounting.LinkLostOnMount` | kernel/fs/fs.c:987-1000 | a hard link that leaves the disk out of step mounts to a state that no bookkeeping settles: a link count and the entries differ |
| `Mounting.MountFindsBlocks` | kernel/fs/fs.c:534-552 | after mounting, blocks are looked for where the disk's superblock has them if and only if the superblock found before formatting already said so |
| `Mounting.MountReadsTables` | kernel/fs/fs.c:534-552 | whatever the disk holds, the bitmaps and inodes read are those of the disk's own superblock if and only if the superblock found before formatting already had their starts |
| `Mounting.FirstMountMisplaces` | kernel/fs/fs.c:534-552 | after mounting a disk of zeros no block is where it belongs, and block 32768 is the superblock itself |
| `Mounting.FirstMountMisreads` | kernel/fs/fs.c:534-552 | after mounting a disk of zeros all three tables come from the start of the disk: nothing formatted is read, and the bitmaps are parts of what the inode table is |
| `Frames.EntryOfFrame` | kernel/mm/memory.c:35-50 | the frame number and index come back from a page table entry; its flags are the subject of Frames.EntryMaps |
| `Frames.EntryMaps` | kernel/mm/memory.c:283-305 | an entry has valid and dirty bit set, global bit clear, coherency 2 and the number of a frame if and only if it is the entry made for that frame |
| `Frames.EntriesMapFrames` | kernel/mm/memory.c:252-308 | whatever entry the walk finds for a page is empty or maps, with those bits, a frame in the role of that page |
| `Frames.PfnIsInjective` | kernel/mm/memory.c:35-50 | different frames have different frame numbers |
| `Frames.TranslationInverts` | kernel/sched/sched.c:107-137 | the address formed from an entry is its frame if and only if the frame lies below 0xa1000000 |
| `Frames.Isolation` | kernel/mm/memory.c:252-308 | a frame behind a page of a process is behind no other page of any process, is no page table and is not free |
| `Frames.TablesAreNotFree` | kernel/mm/memory.c:270-278 | a frame is the table of one index of one process only, and is not free |
| `Frames.TakenKeeps` | kernel/mm/memory.c:221-236 | taking a frame keeps every frame in one role and every translation |
| `Frames.WithPteKeeps` | kernel/mm/memory.c:279-285 | entering a page keeps every frame in one role |
| `Frames.GivenBackKeeps` | kernel/mm/memory.c:239-249 | giving back a frame that nothing refers to keeps every frame in one role |
| `PageTable.Memory.MemInit` | kernel/mm/memory.c:126-135 | all 2048 frames are free, in order |
| `PageTable.Memory.Kalloc` | kernel/mm/memory.c:221-236 | a cleared free frame, or none when only the last is left; no translation changes |
| `PageTable.Memory.Kfree` | kernel/mm/memory.c:239-249 | the frame is free again; with an empty stack of handed-out frames nothing happens |
| `PageTable.Memory.QuerryPte` | kernel/mm/memory.c:65-77 | the two-level walk is the page map of process and virtual page number below 2^19 |
| `PageTable.Memory.Add2Page` | kernel/mm/memory.c:252-308 | the page map changes at the two pages, which get two frames that were free, and at the pages that share a new table with them, which become empty entries; the entries found for both pages have valid and dirty bit set, global bit clear, coherency 2 and the number of the frame got |
| `Numbers.MiniItoa` | libs/printk.c:56-101 | the buffer holds the text of the number in the radix, padded and signed; radixes above 16 give nothing |
| `Numbers.ReverseInPlace` | libs/printk.c:90-98 | the reversal loop |
| `Numbers.Atoi` | libs/string.c:60-92 | the value of the string under 32-bit wrap, with sign, prefix and blanks |
| `Numbers.AtoiOfText` | libs/string.c:60-92 | atoi of the signed decimal text of any 32-bit number, with any zero padding, is that number |
| `AtoiLaws.AtoiOfSpacedDecimal` | libs/string.c:60-92 | decimal digits with blanks before and among them, with or without a minus: their value as a 32-bit word |
| `AtoiLaws.AtoiOfBinary` | libs/string.c:79-91 | binary digits behind 0b: their value as a 32-bit word |
| `AtoiLaws.AtoiOfHex` | libs/string.c:73-91 | hexadecimal digits behind 0x: their value as a 32-bit word if and only if none of the last eight is a letter |
| `AtoiLaws.HexLetterMisread` | libs/string.c:83-90 | the text 0xa is read as 49 |
| `Formatter.TextIsShort` | libs/printk.c:138-178 | every number fits the scratch buffer of 24 characters |
| `Formatter.Puts` | libs/printk.c:119-133 | as much of a string as fits before the last place is appended, with a NUL behind it |
| `Formatter.ReadDirective` | libs/printk.c:151-168 | the directive with its padding, or the end of a format that stops inside one |
| `Formatter.MiniVsnprintf` | libs/printk.c:135-204 | exactly the first L-1 characters of the unbounded expansion, whose every directive the laws of TextLaws spell out, are written and counted; a NUL stands behind them if L is at least 2 and the format does not end before its first item, and otherwise the buffer is untouched; nothing further is touched |
| `TextLaws.TextSpells` | libs/printk.c:56-101 | the text of a number in a radix from 2 to 16: a minus for a negative one when signs are asked for, and the numeral whose value is its absolute value, or its value mod 2^32 without sign, in letters of the case asked for, with zeros in front up to the width and no others |
| `TextLaws.SignedDirective` | libs/printk.c:135-204 | %d, with or without padding and anywhere in a format, gives a text that atoi reads as the number, and which spells it in decimal |
| `TextLaws.UnsignedDirective` | libs/printk.c:135-204 | %u, in the same way: the decimal numeral of the value mod 2^32 |
| `TextLaws.HexDirective` | libs/printk.c:135-204 | %x and %X: the hexadecimal numeral of the value mod 2^32, in small letters and in capitals |
| `TextLaws.CharDirective` | libs/printk.c:135-204 | %c: the character of the low eight bits |
| `TextLaws.StringDirective` | libs/printk.c:135-204 | %s: the string |
| `TextLaws.OtherDirective` | libs/printk.c:135-204 | any other character behind % stands for itself and takes no argument |
| `TextLaws.UnfinishedDirective` | libs/printk.c:151-168 | a format that ends inside a directive gives the text before it |
| `TextLaws.PrintAndParse` | libs/string.c:60-92 | printing any 32-bit number with %d and parsing the buffer gives the number back |
| `Formatter.Print` | libs/printk.c:206-219 | the buffer of 256 holds the expansion cut off at 255 characters |

## Left out

- Killing a process (kernel/sched/sched.c:586-620): it leaves a dead record linked in its queue while the slot can be taken again, so runs contain no kill.
- `queue_remove` and `queue_insert_at_head` (kernel/sched/queue.c:84-135) and spin locks: nothing calls them.
- The start value -1 of the selection index, which would index before an array (kernel/sched/sched.c:21, 149-151): runs start from any value 0 to 4.
- Context switches, register frames, stacks, TLB contents, timer and device registers: hardware. Time and pending packets are parameters.
- `do_page_table_static_init` and the TLB writers: they depend on hardware.
- Drivers, screen, input, shell, the system call table, the image builder, `do_ps`, `do_cat`, `do_find` and the columns of `do_ls`: output and dispatch, no hard property.
- Liveness under a fair scheduler: the theorems about waiting count scheduler calls and ups, and say nothing of how soon these come.
- Wrap-around of quotas, counters, link counts and file sizes at 32 bits: these are unbounded here. Wake-up times, lock ids in the comparison, block numbers and printed numbers do wrap.
- Soft links, hard links to directories, and rm of a path with several components: the code does not keep the counts there.
- Running out of inodes, blocks or directory slots, names of 24 characters and more, paths of more than ten levels in printing: unchecked in the code, so they are preconditions.
- The write beyond the block bitmap that clearing an unused slot makes (kernel/fs/fs.c:587-591): `Inodes.BlockNumbers` shows that it lies outside the map; what it hits there is not modelled. The same holds for the flag that `do_resize` sets for an address instead of an inode number (kernel/fs/fs.c:1107).
- The byte layout of entries and inodes on disk: an entry is a record, a directory block a sequence of 128 of them, a data block 4096 bytes.
- Access rights: the test for them compares with a constant 0 (kernel/fs/fs.c:853), so no request is refused.
- `Kernel.Kernel.DoExit`: the queues of the locks held are an argument; `Sync.Mutexes.Exit` reads and clears locks[] of the process as the code does.
- `Sync.Mutexes.ReleaseMultiple`: the list comes in the order qsort has left; the sort itself is `Quicksort.QSort`.
- `FileSystem.FileSystem.Mount`: the tables are read where they are stored, as with a superblock that was found; the first mount of a blank disk is the subject of `Mounting.FirstMountMisreads`.
- `FileSystem.FileSystem.Mkfs`: the inodes are blank before, as on the first mount; the code formats over others without clearing them.
- `FileSystem.FileSystem.HardLink`: the file is given by its inode, and is no directory; the code looks it up by path and takes directories too.
- `FileSystem.FileSystem.Rm`: the dot entries and names with inner slashes are excluded, because the code then removes from a different directory than it frees.
- `CurrentDir.CurrentDir.NameParse`: soft links (kernel/fs/fs.c:266-287) are not followed, as none are made here.
- `CurrentDir.CurrentDir.Cd`: the target must be a directory, which the code does not test, and a relative name must not lead above the root, where the code runs off the front of the string.
- `FileIo.OpenFile.Fwrite`: only requests that come to an end are modelled as a method; the others are the subject of `FileContents.EndsExactly`.
- `FileIo.OpenFile.Fread`: the same restriction.
- `FileIo.OpenFile.Resize`: indirect blocks are not modelled, as the code never fills them.
- `PageTable.Memory.Kfree`: only frames that nothing refers to are given back; the code accepts any address.
- `PageTable.Memory.Add2Page`: there must be enough frames, because the code goes on with an undefined address when there are none.
- `Formatter.MiniVsnprintf`: every conversion finds an argument of its kind, as in any call in C.
