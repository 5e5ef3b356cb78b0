# Pintos-KAIST in Dafny

Models of the shipped algorithms of the Pintos-KAIST kernel, and proofs about them. `dafny verify
dfyconfig.toml` verifies all of it.

**Scheduler and synchronisation** (`Threads`, `ThreadInvariants`, `ThreadSteps`, `ThreadPlaces`,
`ThreadLocks`, `ThreadConds`, `ThreadKept`, `ThreadRuns`, `ThreadTheorems`, `ThreadProgress`,
`ThreadQueues`, `ThreadSignals`, `ThreadCalls`, `Kernels`). One step system for thread.c and synch.c. Code with interrupts off is
one atomic step up to the next switch; between steps the timer or another interrupt handler may
come in. `todo` is what a thread still has to execute of the calls it is inside of: its program
counter. Every ASSERT a step evaluates is modelled and yields `Panic` when it fails. `Threads` has
the steps, `ThreadInvariants` the invariant, the next six files show that every step keeps it, and
the last files but one state what it means over whole runs. `Kernels` is the same code as an object
that updates the kernel's variables in place; its method
`Run` makes any enabled step, and `StepInv` shows there that no ASSERT fails.

**Containers** (`StableOrder`, `Lists`, `HashTables`). The lists are heap nodes between two
sentinels, and all of list_sort() works on them in place; `less` is a function of the nodes. The
hash table's buckets are sequences; `And` is bitwise and.

**Memory** (`PageTables`, `PageSweeps`, `PageOwners`, `PageMemory`, `Arenas`, `Malloc`, `PagePool`,
`PoolService`, `Intervals`).
Page tables are words in pages; a table's position (space, level, index bits) makes the tables a
forest in which every table and frame of a space has one place, and the walk, destroy and for_each functions, which differ by level only, are each one
method with a level parameter. malloc's blocks are a page and a number, tied to addresses by
`BlockToArena`; stores into headers, list nodes and freed pages are arbitrary bytes, so what is
proved of other contents holds whatever they are. `PagePool` interleaves threads in
palloc_get_multiple(), with the lock held, and palloc_free_multiple(), without it, bit by bit.

**File system** (`InodeData`, `FileSystems`, `Filesys`, `FileContents`). `InodeData` is reading and writing of an
inode's extent on a disk of 512-byte sectors. `FileSystems` is the state of free map, root directory, open
inodes and open files as a value with the effect of each operation, and `Filesys` the code that
makes those changes, with the search loops over slots, sectors and the list of open inodes.
`FileContents` joins the two: a write to one file leaves all others as they were.

**Library** (`Division`, `HeapSort`, `Printf`, `Formats`). DIVL is a primitive that traps when its quotient
does not fit. Words are naturals with wrap-around written out.

Where the code and its comments differ, the code is modelled:

- umod64() returns 32 bits; it is the remainder for all dividends exactly if the divisor is at most
  2^32 (`Umod64Divisors`), and `Umod64Short` gives a dividend for each greater one.
- Clearing the dirty or accessed bit masks with a 32-bit complement; `ClearFlagExact` says exactly
  when the rest of the entry survives, and `ClearFlagExample` gives an entry that does not.
- is_user_vaddr admits addresses from 2^39 on, which are shared by all address spaces;
  `SharedExactly` says that a change is private exactly below that line, and `SharedExample` gives a
  case.
- A filesys_create() that fails in dir_add() does not release the data sectors; `CreateLeaks` says
  exactly when sectors are lost, and `LeakExample` gives a case.
- A negative `*` width can leave both MINUS and ZERO set, and the field is then too long;
  `WidthExactly` says exactly when, and `PadsTwiceExample` gives a case.
- Failure to get the bounce buffer ends a transfer as the end of the file does; `ReadAt` and
  `WriteAt` say how many bytes then go through, `TransfersAll` exactly when that is all of them, and
  `ShortRead` gives a case.
- malloc() of a size near 2^64 computes too few pages; `PageCntExact` says exactly from where on.
- sdiv64() of INT64_MIN by 1 negates INT64_MIN, which C leaves undefined; the model wraps around.

## Model

| member | source | states |
|---|---|---|
| `ThreadRuns.BootInv` | pintos-kaist-master/threads/thread.c:122-136 | the state thread_start() reaches when it enables interrupts satisfies the whole invariant of scheduler, semaphores, locks, condition variables and tids |
| `ThreadRuns.StepInv` | pintos-kaist-master/threads/thread.c:219-310 | any enabled step (a step inside a call, a new call, a timer tick, an interrupt handler's up or try-down) fails no kernel assertion and keeps the invariant |
| `ThreadRuns.RunInv` | pintos-kaist-master/threads/thread.c:219-577 | the invariant holds at every point of every run from boot |
| `ThreadRuns.NoPanic` | pintos-kaist-master/threads/synch.c:60-323 | in every run, no ASSERT of thread.c or synch.c fails at the next step, for callers that meet the documented obligations |
| `ThreadTheorems.SchedulerSafety` | pintos-kaist-master/threads/thread.c:219-246 | at every point of every run exactly one thread is RUNNING, every elem is on at most one of ready_list, a waiters list and destruction_req, a non-idle thread is READY iff it is on ready_list, and the idle thread is never on it once idle_thread is set |
| `ThreadTheorems.BlockedIsReachable` | pintos-kaist-master/threads/thread.c:179-247 | no blocked thread is lost: it is the idle thread, or on the waiters list of a semaphore, or its creator is about to unblock it |
| `ThreadTheorems.MutualExclusion` | pintos-kaist-master/threads/synch.c:169-237 | semaphore value plus the threads between return from sema_down and their sema_up total 1 at every point of every run, and holder is null or that one thread, although holder is stored outside the atomic part |
| `ThreadTheorems.TidsAreUnique` | pintos-kaist-master/threads/thread.c:580-590 | a thread past its creation has a positive tid that no other live thread has, although allocate_tid() runs in steps under tid_lock |
| `ThreadProgress.SemaphoreAccount` | pintos-kaist-master/threads/synch.c:60-117 | value = initial value + ups - completed downs, in every run mixing down, try_down, up and preemption |
| `ThreadProgress.NoLostWakeups` | pintos-kaist-master/threads/synch.c:60-117 | while a waiters list is nonempty the value is at most the number of threads popped by sema_up that have not run since; with none of those it is 0 |
| `ThreadProgress.RoundRobin` | pintos-kaist-master/threads/thread.c:419-425 | a thread at position k of ready_list is dispatched by the (k+1)-th call of schedule() |
| `ThreadProgress.TicksBound` | pintos-kaist-master/threads/thread.c:138-155 | at most TIME_SLICE delivered ticks separate consecutive calls of schedule(), summed over any stretch of a run |
| `ThreadProgress.BoundedWaiting` | pintos-kaist-master/threads/interrupt.c:331-375 | hence that thread runs within (k+1)*TIME_SLICE ticks |
| `ThreadProgress.FreedOnce` | pintos-kaist-master/threads/thread.c:528-577 | every page freed as a thread is that of a DYING thread off the CPU that was queued once and is queued no more |
| `ThreadQueues.QueuedIsFreed` | pintos-kaist-master/threads/thread.c:528-539 | do_schedule() frees every thread on destruction_req: after a yield, an exit or the tick that ends a time slice it is gone from all tables and from the list |
| `ThreadQueues.ExitIsFreed` | pintos-kaist-master/threads/thread.c:280-293 | a thread that calls thread_exit() is freed by the next do_schedule(), and not before |
| `ThreadQueues.WokenInOrder` | pintos-kaist-master/threads/synch.c:105-117 | the thread at position k of a waiters list is the one that the (k+1)-th sema_up() makes ready, at the end of ready_list |
| `ThreadCalls.UpReturns` | pintos-kaist-master/threads/synch.c:105-117 | a sema_up() that returns has raised the value once |
| `ThreadCalls.DownReturns` | pintos-kaist-master/threads/synch.c:60-74 | a sema_down() that returns has taken one from a positive value, once |
| `ThreadCalls.AcquireReturns` | pintos-kaist-master/threads/synch.c:186-193 | lock_acquire() returns with the lock held |
| `ThreadCalls.TryAcquireReturns` | pintos-kaist-master/threads/synch.c:202-212 | lock_try_acquire() returns with the lock held if and only if its semaphore could be taken at once |
| `ThreadCalls.ReleaseReturns` | pintos-kaist-master/threads/synch.c:221-227 | lock_release() returns with the lock not held and its semaphore raised from 0 to 1 |
| `ThreadCalls.CreateReturns` | pintos-kaist-master/threads/thread.c:179-212 | thread_create() returns with the new thread ready, at the end of ready_list, and with a tid of its own |
| `ThreadSignals.StepPlans` | pintos-kaist-master/threads/synch.c:275-323 | what every kind of step does to what each thread still has to execute and to every condition queue |
| `ThreadSignals.SignalsFifo` | pintos-kaist-master/threads/synch.c:298-308 | a condition queue changes only at the hands of the holder of its lock: cond_wait enters at the end, and a signal is then on its way to the earliest waiter |
| `ThreadSignals.OneSignalPerWait` | pintos-kaist-master/threads/synch.c:275-289 | over any run a wait is sent at most one signal, consumes none before it returns from its sema_down, and exactly one when it has |
| `ThreadSignals.SignalledIsAwake` | pintos-kaist-master/threads/synch.c:286-288 | a signal sent between lock_release and sema_down, or to a sleeper, is not lost: a raised waiter is not left on a waiters list |
| `ThreadSignals.BroadcastWakesAll` | pintos-kaist-master/threads/synch.c:316-323 | cond_broadcast returns with the queue empty, and every waiter queued when it began was sent its one signal meanwhile; the broadcaster raised no other |
| `ThreadSignals.WaitReturnsHolding` | pintos-kaist-master/threads/synch.c:275-289 | cond_wait returns holding its lock, and only after it was sent a signal |
| `ThreadCalls.WaitReturns` | pintos-kaist-master/threads/synch.c:275-289 | from the call on: cond_wait() returns holding its lock, after exactly one signal |
| `ThreadCalls.SignalReturns` | pintos-kaist-master/threads/synch.c:298-308 | cond_signal() dequeues the earliest waiter, if any, and has raised it and no other when it returns |
| `ThreadCalls.BroadcastReturns` | pintos-kaist-master/threads/synch.c:316-323 | from the call on: cond_broadcast() returns with the queue empty and every waiter queued at the call sent its one signal |
| `Kernels.Kernel.PopNext` | pintos-kaist-master/threads/thread.c:419-425 | next_thread_to_run(): the chosen thread and the new ready_list |
| `Kernels.Kernel.RunSchedule` | pintos-kaist-master/threads/thread.c:541-577 | schedule() on the kernel's variables is the step of the step system |
| `Kernels.Kernel.FreeAll` | pintos-kaist-master/threads/thread.c:531-536 | the loop over destruction_req frees exactly the threads queued on it |
| `Kernels.Kernel.RunDoSchedule` | pintos-kaist-master/threads/thread.c:528-539 | do_schedule() is the step of the step system |
| `Kernels.Kernel.Block` | pintos-kaist-master/threads/thread.c:219-226 | thread_block() is the step of the step system |
| `Kernels.Kernel.Unblock` | pintos-kaist-master/threads/thread.c:235-247 | thread_unblock() is the step of the step system, and changes only ready_list and the status |
| `Kernels.Kernel.Yield` | pintos-kaist-master/threads/thread.c:297-310 | thread_yield() is the step of the step system |
| `Kernels.Kernel.Exit` | pintos-kaist-master/threads/thread.c:280-293 | thread_exit() is the step of the step system |
| `Kernels.Kernel.Tick` | pintos-kaist-master/threads/thread.c:138-155 | thread_tick() and the yield on return from the interrupt are the step of the step system |
| `Kernels.Kernel.Down` | pintos-kaist-master/threads/synch.c:60-74 | one turn of sema_down's loop, or its exit, is the step of the step system |
| `Kernels.Kernel.TryDown` | pintos-kaist-master/threads/synch.c:81-99 | sema_try_down() is the step of the step system and tells whether it took one |
| `Kernels.Kernel.Up` | pintos-kaist-master/threads/synch.c:105-117 | sema_up() is the step of the step system |
| `Kernels.Kernel.Signal` | pintos-kaist-master/threads/synch.c:298-308 | cond_signal() up to its sema_up() is the step of the step system |
| `Kernels.Kernel.PerformOp` | pintos-kaist-master/threads/synch.c:60-323 | any step inside a call is the step of the step system |
| `Kernels.Kernel.BeginCall` | pintos-kaist-master/threads/synch.c:275-289 | the first step of any call is the step of the step system |
| `Kernels.Kernel.Run` | pintos-kaist-master/threads/thread.c:138-310 | under the invariant any enabled step on the kernel's variables fails no assertion, is the step of the step system, and keeps the invariant |
| `Lists.Insert` | pintos-kaist-master/lib/kernel/list.c:156-165 | list_insert() leaves a well-formed list with elem in front of before |
| `Lists.Remove` | pintos-kaist-master/lib/kernel/list.c:240-246 | list_remove() leaves a well-formed list without elem, and returns what followed it |
| `Lists.Splice` | pintos-kaist-master/lib/kernel/list.c:170-190 | list_splice() within one list or between two leaves both well formed with exactly the range moved |
| `Lists.FindEndOfRun` | pintos-kaist-master/lib/kernel/list.c:338-350 | the returned node ends the maximal nondecreasing run that starts at a |
| `Lists.InplaceMerge` | pintos-kaist-master/lib/kernel/list.c:357-375 | merges two adjacent sorted runs in place into one sorted run, by a stable rearrangement that touches nothing outside them |
| `Lists.MergePass` | pintos-kaist-master/lib/kernel/list.c:389-409 | one pass rearranges stably, leaves no more natural runs than it counted, and counted fewer than there were if more than one |
| `Lists.SortChain` | pintos-kaist-master/lib/kernel/list.c:380-413 | list_sort() terminates because each further pass has fewer runs, and sorts |
| `Lists.List.Sort` | pintos-kaist-master/lib/kernel/list.c:380-413 | list_sort() leaves a well-formed list that is sorted, a permutation of the input and stable, for any strict weak order on its elements |
| `StableOrder.StableSortUnique` | pintos-kaist-master/lib/kernel/list.c:377-380 | the sorted stable permutation of a list is unique, so the contract of list_sort() determines its result |
| `StableOrder.KeptMove` | pintos-kaist-master/lib/kernel/list.c:368-374 | moving an element in front of greater ones changes no order that stability protects |
| `StableOrder.MergeMove` | pintos-kaist-master/lib/kernel/list.c:368-374 | the merge invariant after a splice |
| `StableOrder.SplitRuns` | pintos-kaist-master/lib/kernel/list.c:389-410 | natural runs add up at descents and never exceed the sum elsewhere |
| `Lists.List.Reverse` | pintos-kaist-master/lib/kernel/list.c:309-319 | list_reverse() leaves a well-formed list in reverse order |
| `Lists.List.InsertOrdered` | pintos-kaist-master/lib/kernel/list.c:418-431 | list_insert_ordered() keeps the list sorted and puts elem behind all elements that are not greater |
| `Lists.List.RemoveAt` | pintos-kaist-master/lib/kernel/list.c:240-246 | removal of one element of a list keeps the others in order |
| `Lists.List.PushBack` | pintos-kaist-master/lib/kernel/list.c:201-204 | list_push_back() appends |
| `Lists.List.PushFront` | pintos-kaist-master/lib/kernel/list.c:194-197 | list_push_front() prepends |
| `Lists.List.PopFront` | pintos-kaist-master/lib/kernel/list.c:250-255 | list_pop_front() takes the first element |
| `Lists.List.PopBack` | pintos-kaist-master/lib/kernel/list.c:259-264 | list_pop_back() takes the last element |
| `Lists.List.constructor` | pintos-kaist-master/lib/kernel/list.c:57-64 | list_init() makes an empty well-formed list |
| `PageTables.IndexBits` | pintos-kaist-master/include/threads/pte.h:20-28 | the index functions are the nine-bit fields at bits 12, 21, 30 and 39 |
| `PageTables.LookupPos` | pintos-kaist-master/threads/mmu.c:11-89 | a walk ends in the page table whose position in the tree is that of the virtual page |
| `PageTables.DistinctSlots` | pintos-kaist-master/threads/mmu.c:64-89 | distinct pages have distinct slots, and two spaces share a slot only above entry 0 of the PML4 |
| `PageTables.DropUndoesAdd` | pintos-kaist-master/threads/mmu.c:51-54 | taking back the table a failed walk had added restores tree and allocator |
| `PageTables.WalkKeepsMappings` | pintos-kaist-master/threads/mmu.c:64-89 | no walk, with or without create, changes any mapping of any address space |
| `PageTables.StoreRemaps` | pintos-kaist-master/threads/mmu.c:232-244 | a store through the slot of a page changes the mappings that read that slot and no other |
| `PageTables.PrivateBelow` | pintos-kaist-master/threads/mmu.c:195-199 | below 2^39 a change is seen at that page of that space only |
| `PageTables.SharedExactly` | pintos-kaist-master/include/threads/vaddr.h:40-44 | a new mapping of a user page in one space leaves what another space maps there unchanged if and only if the page is below 2^39, though is_user_vaddr goes on to KERN_BASE |
| `PageTables.SharedExample` | pintos-kaist-master/threads/mmu.c:232-244 | with two spaces from pml4_create(), an entry stored for the user page 0x8000000000 of one maps that page in the other |
| `PageTables.WalkKeepsKernel` | pintos-kaist-master/threads/mmu.c:64-89 | the PML4 entry that all spaces share stays the same through every walk |
| `PageTables.AddTablePrivate` | pintos-kaist-master/threads/mmu.c:37-47 | a table added by a walk is the only one at its position in its space |
| `PageTables.CloneMappings` | pintos-kaist-master/threads/mmu.c:95-101 | pml4_create() maps what base_pml4 maps above entry 0 and nothing below, and changes no other space |
| `PageTables.ClearFlagExact` | pintos-kaist-master/threads/mmu.c:277-315 | clearing the dirty or accessed bit keeps the rest of the entry if and only if the entry fits in 32 bits |
| `PageTables.ClearFlagExample` | pintos-kaist-master/threads/mmu.c:284-284 | the dirty entry of the frame at 4 GB comes to lead to frame 0 when its dirty bit is cleared |
| `PageMemory.Memory.Walk` | pintos-kaist-master/threads/mmu.c:11-89 | pml4e_walk, pdpe_walk and pgdir_walk: the slot, with exactly the missing tables added; it fails iff a table is missing and create is off or the free pages are too few, and then tree and allocator are as before; tables keep one place in one space |
| `PageMemory.Memory.SetPage` | pintos-kaist-master/threads/mmu.c:232-244 | pml4_set_page(): fails exactly for lack of tables and then changes nothing; else the page maps to the frame by an entry that is present, user, and writable iff rw, with no other flag, user accesses get through and user writes iff rw, and every other mapping that does not share the slot is unchanged; a frame not mapped before belongs to that page only |
| `PageTables.LeafDecides` | pintos-kaist-master/threads/mmu.c:11-89 | what the processor allows at a page, by the flags of all four levels, is what its leaf entry says |
| `PageMemory.Memory.GetPage` | pintos-kaist-master/threads/mmu.c:213-222 | pml4_get_page(): the frame the page maps to plus the offset, or null iff unmapped; nothing changes |
| `PageMemory.Memory.ClearPage` | pintos-kaist-master/threads/mmu.c:250-263 | pml4_clear_page(): unmaps exactly that page, clears the present bit of its entry only, and changes no other word of any table |
| `PageMemory.Memory.Create` | pintos-kaist-master/threads/mmu.c:95-101 | pml4_create() fails iff no page is free, and else the new space is the clone that CloneMappings is about |
| `PageMemory.Memory.ForEach` | pintos-kaist-master/threads/mmu.c:103-156 | the four for_each functions call func on the present leaves in table order up to the first false, and return whether there was none |
| `PageSweeps.StopsAtFalse` | pintos-kaist-master/threads/mmu.c:103-156 | the visits are the leaves in order up to and with the first for which func is false, and the result is whether there is none |
| `PageSweeps.LeavesAscend` | pintos-kaist-master/threads/mmu.c:103-156 | the addresses visited ascend strictly, so no leaf is visited twice |
| `PageSweeps.MappedIsVisited` | pintos-kaist-master/threads/mmu.c:146-156 | every mapped page is visited with its own entry |
| `PageSweeps.VisitedIsMapped` | pintos-kaist-master/threads/mmu.c:146-156 | every visited address walks back to the entry visited, which is present |
| `PageSweeps.DestroysOwnOnly` | pintos-kaist-master/threads/mmu.c:189-200 | what pml4_destroy() frees belongs to that space: nothing shared, nothing of another space |
| `PageMemory.Memory.Destroy` | pintos-kaist-master/threads/mmu.c:158-186 | pt_destroy, pgdir_destroy and pdpe_destroy free exactly the pages reachable, each once |
| `PageOwners.SpaceAlive` | pintos-kaist-master/threads/mmu.c:158-186 | under the invariant the tables and frames of a space form a tree, as the destroy functions need |
| `PageOwners.SetKeepsSpaces` | pintos-kaist-master/threads/mmu.c:232-244 | pml4_set_page() of an unused frame keeps every table and frame in one place of one space |
| `PageOwners.GoneParent` | pintos-kaist-master/threads/mmu.c:189-200 | a table that leads to a page that pml4_destroy() frees is freed too |
| `PageOwners.LeftTree` | pintos-kaist-master/threads/mmu.c:189-200 | after pml4_destroy() the remaining tables are a forest without dangling entries |
| `PageOwners.LeftMappings` | pintos-kaist-master/threads/mmu.c:189-200 | every other space is still there and maps what it mapped |
| `PageOwners.MappedIsFreed` | pintos-kaist-master/threads/mmu.c:158-200 | the frame of every page that the space maps below 2^39 is freed |
| `PageOwners.TablesGone` | pintos-kaist-master/threads/mmu.c:158-200 | so is every table of the space |
| `PageMemory.Memory.DestroyAll` | pintos-kaist-master/threads/mmu.c:189-200 | pml4_destroy() does nothing for null, and else frees every table and frame under slot 0 and the root, each once; the invariant holds again and all other spaces map what they mapped |
| `Malloc.Init` | pintos-kaist-master/threads/malloc.c:68-80 | malloc_init() sets up descriptors of 16, 32, 64, 128, 256, 512 and 1024 bytes |
| `Arenas.Sizes` | pintos-kaist-master/threads/malloc.c:72-79 | blocks_per_arena is the greatest number of blocks that fit on a page behind the header |
| `Arenas.BlockToArena` | pintos-kaist-master/threads/malloc.c:243-268 | block_to_arena() and arena_to_block() are inverse on addresses, and their assertions hold for every block |
| `Arenas.LiveBlocksApart` | pintos-kaist-master/threads/malloc.c:84-144 | live blocks are pairwise disjoint, inside their arena behind its header, and as large as asked for |
| `Arenas.PageCntExact` | pintos-kaist-master/threads/malloc.c:99-105 | in 64-bit arithmetic the pages of a big block hold its header and size bytes if and only if size is at most 2^64 - 4120; beyond that they are one or none |
| `Arenas.AllListed` | pintos-kaist-master/threads/malloc.c:221-229 | when free_cnt reaches blocks_per_arena every block of the arena is on the free list |
| `Arenas.TakeInv` | pintos-kaist-master/threads/malloc.c:138-143 | handing out a block keeps the invariant: free_cnt counts listed blocks, no block is lost, no arena is wholly free |
| `Arenas.GiveInv` | pintos-kaist-master/threads/malloc.c:216-222 | giving a block back keeps it but for an arena that may now be wholly free |
| `Arenas.DropInv` | pintos-kaist-master/threads/malloc.c:222-231 | dropping that arena restores it |
| `Arenas.DropConserves` | pintos-kaist-master/threads/malloc.c:222-231 | the page of a dropped arena goes back to the page allocator: none is lost |
| `Arenas.DropBigConserves` | pintos-kaist-master/threads/malloc.c:234-238 | and so do all pages of a big block |
| `Malloc.Allocator.constructor` | pintos-kaist-master/threads/malloc.c:68-80 | the allocator's invariant holds at the start, with its pages as the pool that every call conserves |
| `Malloc.Allocator.FindDesc` | pintos-kaist-master/threads/malloc.c:94-98 | the loop finds the smallest descriptor that fits: all before it are too small |
| `Malloc.Allocator.UnlistAll` | pintos-kaist-master/threads/malloc.c:226-229 | the loop finds every block of the arena on the list and leaves the others in order |
| `Malloc.Allocator.Malloc` | pintos-kaist-master/threads/malloc.c:84-144 | fails exactly if size is 0 or no block and no pages are available; else a new block of that size is live, and all live blocks keep place, size and contents |
| `Malloc.Allocator.Free` | pintos-kaist-master/threads/malloc.c:201-240 | exactly that block stops being live, the invariant holds again with no wholly free arena, and all other live blocks keep place, size and contents |
| `Malloc.Allocator.Realloc` | pintos-kaist-master/threads/malloc.c:182-197 | keeps the common prefix; null, zero and failing cases as documented; a failure leaves everything as it was |
| `InodeData.ReadAt` | pintos-kaist-master/filesys/inode.c:182-226 | reads exactly Transferred bytes of the file: all of min(size, max(0, length - offset)) with a bounce buffer, and without one the whole sectors of it if offset begins a sector, else none; touches nothing else of the buffer |
| `InodeData.Disk.WriteAt` | pintos-kaist-master/filesys/inode.c:233-288 | writes nothing if denied, else exactly Transferred bytes; every other byte of every sector is unchanged; in its proof the zero-fill branch is unreachable |
| `InodeData.TransfersAll` | pintos-kaist-master/filesys/inode.c:182-288 | everything asked for is transferred if and only if the bounce buffer can be had, nothing is asked for, or offset and amount are whole sectors |
| `InodeData.ShortRead` | pintos-kaist-master/filesys/inode.c:206-212 | of 513 bytes without a bounce buffer 512 are read |
| `InodeData.ReadBack` | pintos-kaist-master/filesys/inode.c:182-288 | a read of the place just written returns the bytes written |
| `InodeData.WriteReplacesSlice` | pintos-kaist-master/filesys/inode.c:233-288 | a write replaces a slice of the flat file |
| `InodeData.ReadReturnsSlice` | pintos-kaist-master/filesys/inode.c:182-226 | a read returns a slice of the flat file |
| `InodeData.WriteSparesOthers` | pintos-kaist-master/filesys/inode.c:43-50 | sectors outside the extent are unchanged by a write |
| `FileContents.WriteSparesFiles` | pintos-kaist-master/filesys/inode.c:233-288 | under the file system's invariant a write to one inode leaves the inode sector and the contents of every other inode in use unchanged |
| `FileContents.WriteKeepsInode` | pintos-kaist-master/filesys/inode.c:233-288 | and its own inode sector, and replaces the slice of its contents |
| `FileContents.CreateIsZeros` | pintos-kaist-master/filesys/inode.c:84-92 | a new file reads as zeros, and zeroing its sectors changes no file in use |
| `FileContents.DeniedByFile` | pintos-kaist-master/filesys/file.c:118-137 | writes to an open inode are denied if and only if one of its files denies them |
| `InodeData.Disk.ZeroSectors` | pintos-kaist-master/filesys/inode.c:84-92 | the loop of inode_create() zeroes exactly the data sectors |
| `FileSystems.OpenInodeInv` | pintos-kaist-master/filesys/inode.c:102-130 | inode_open() keeps the invariant: one in-memory inode per sector, counting its openers |
| `FileSystems.CloseInodeInv` | pintos-kaist-master/filesys/inode.c:149-169 | inode_close() keeps the invariant |
| `FileSystems.CloseFrees` | pintos-kaist-master/filesys/inode.c:155-165 | the last close of a removed inode frees exactly its own sectors, which are all marked; no other close frees any |
| `FileSystems.CreateInv` | pintos-kaist-master/filesys/filesys.c:60-73 | a new file keeps all sectors of inodes in use marked and disjoint and all names unique |
| `FileSystems.AbandonLeaks` | pintos-kaist-master/filesys/filesys.c:64-69 | after a create that fails in dir_add no sector is lost if and only if the file was to be empty |
| `FileSystems.UnlinkInv` | pintos-kaist-master/filesys/directory.c:168-199 | dir_remove() keeps the invariant, by which the sectors of a removed inode stay marked while it is open |
| `FileSystems.SetDenyInv` | pintos-kaist-master/filesys/file.c:118-137 | deny_write_cnt equals the files that deny writes and stays within the asserted bounds |
| `FileSystems.OpenFileNoLeak` | pintos-kaist-master/filesys/filesys.c:80-90 | filesys_open() loses no sector |
| `FileSystems.RemoveFileNoLeak` | pintos-kaist-master/filesys/filesys.c:96-103 | filesys_remove() loses no sector |
| `FileSystems.CloseFileNoLeak` | pintos-kaist-master/filesys/file.c:52-59 | file_close() loses no sector |
| `Filesys.CreateLeaks` | pintos-kaist-master/filesys/filesys.c:60-73 | filesys_create() loses no sector if and only if the directory can take the name, the file is to be empty, or the disk has no room for it |
| `Filesys.CreatedIsNew` | pintos-kaist-master/filesys/inode.c:67-97 | the inode of a new file is stored with the name, the length asked for and the sectors that became marked, and every inode in use is stored as before |
| `Filesys.LeakExample` | pintos-kaist-master/filesys/filesys.c:64-69 | on every disk just formatted with two sectors left, creating a 512-byte file with an empty name loses a sector |
| `Filesys.FileSystem.constructor` | pintos-kaist-master/filesys/filesys.c:106-122 | a formatted disk satisfies the invariant and loses nothing; it has sixteen free slots, the two fixed inodes and their sectors marked, and nothing else |
| `Filesys.FileSystem.Allocate` | pintos-kaist-master/filesys/free-map.c:25-37 | exactly the first run of unmarked sectors is marked, or there is no run and nothing changes |
| `Filesys.FileSystem.Release` | pintos-kaist-master/filesys/free-map.c:40-45 | releases marked sectors; that they are marked is proved at each call |
| `Filesys.FileSystem.InodeOpen` | pintos-kaist-master/filesys/inode.c:102-130 | a second open finds the in-memory inode of the first |
| `Filesys.FileSystem.InodeClose` | pintos-kaist-master/filesys/inode.c:149-169 | inode_close() on the list of open inodes has the effect CloseFrees is about; the sectors it releases are marked |
| `Filesys.FileSystem.MakeInode` | pintos-kaist-master/filesys/inode.c:67-97 | free_map_allocate() and inode_create() mark an inode sector and an extent disjoint from it and from all marked sectors, or change nothing, and that iff there is no room; the inode stored is that extent with the length asked for |
| `Filesys.FileSystem.Lookup` | pintos-kaist-master/filesys/directory.c:79-98 | lookup(): the slot of the name, or that it is not in use |
| `Filesys.FileSystem.DirAdd` | pintos-kaist-master/filesys/directory.c:126-163 | dir_add() succeeds iff the name is valid and not in use and a slot is free, and takes the first |
| `Filesys.FileSystem.Create` | pintos-kaist-master/filesys/filesys.c:60-73 | filesys_create() succeeds iff there is room and the directory can take the name; and then the stored inode has the length asked for and exactly its sectors became marked; every inode in use is stored as before |
| `Filesys.FileSystem.Open` | pintos-kaist-master/filesys/filesys.c:80-90 | filesys_open() succeeds iff the name exists and adds one file for its inode |
| `Filesys.FileSystem.Remove` | pintos-kaist-master/filesys/filesys.c:96-103 | filesys_remove() succeeds iff the name exists; sectors are freed now if no file is open, else not yet |
| `Filesys.FileSystem.Close` | pintos-kaist-master/filesys/file.c:52-59 | file_close(): nothing for null; else frees the inode's sectors iff it was its last file and its name is gone |
| `Filesys.FileSystem.Duplicate` | pintos-kaist-master/filesys/file.c:40-49 | file_duplicate(): one more file with the same inode and the same denial of writes |
| `Filesys.FileSystem.DenyWrite` | pintos-kaist-master/filesys/file.c:118-137 | file_deny_write() and file_allow_write() set the file's flag, change nothing else of files, and keep the counts right |
| `HashTables.TurnOff` | pintos-kaist-master/lib/kernel/hash.c:300-310 | turn_off_least_1bit() keeps the highest bit unless it is the only one, and yields 0 iff x is a power of two |
| `HashTables.IdealFits` | pintos-kaist-master/lib/kernel/hash.c:333-341 | the ideal bucket count is the highest power of two not above max(4, elem_cnt / 2), and above a quarter of the elements |
| `HashTables.SpotIs` | pintos-kaist-master/lib/kernel/hash.c:281-285 | find_bucket() masks the hash to its remainder by the bucket count |
| `HashTables.HashTable.IdealCount` | pintos-kaist-master/lib/kernel/hash.c:337-341 | the loop of rehash() computes the highest power of two not above max(4, elem_cnt / 2) |
| `HashTables.HashTable.MoveAll` | pintos-kaist-master/lib/kernel/hash.c:362-376 | the second loop moves every element to the bucket its hash selects |
| `HashTables.HashTable.Rehash` | pintos-kaist-master/lib/kernel/hash.c:321-379 | the same elements, whether or not the allocation succeeds; elem_cnt < 4 * bucket_cnt if the size is changed or confirmed |
| `HashTables.HashTable.Find` | pintos-kaist-master/lib/kernel/hash.c:122-125 | finds the element equal by less wherever it can be, or there is none |
| `HashTables.HashTable.Insert` | pintos-kaist-master/lib/kernel/hash.c:91-102 | refines insertion into a set keyed by less-equivalence |
| `HashTables.HashTable.Replace` | pintos-kaist-master/lib/kernel/hash.c:106-118 | refines replacement in that set |
| `HashTables.HashTable.Delete` | pintos-kaist-master/lib/kernel/hash.c:134-142 | refines deletion from that set |
| `HashTables.VisitsOnce` | pintos-kaist-master/lib/kernel/hash.c:184-216 | the iteration order has every element of the table exactly once |
| `HashTables.Iterator.constructor` | pintos-kaist-master/lib/kernel/hash.c:184-192 | hash_first(): nothing of the table has been seen |
| `HashTables.Iterator.Next` | pintos-kaist-master/lib/kernel/hash.c:202-216 | hash_next() returns an element of the table not seen yet; it returns null exactly when all elements have been seen, each once |
| `PagePool.StepInv` | pintos-kaist-master/threads/palloc.c:262-323 | every step of every interleaving keeps the invariant, and the bitmap_all assertion of a free never fails |
| `PagePool.NeverTwice` | pintos-kaist-master/threads/palloc.c:262-285 | no page is handed out while it is handed out, being freed, or about to be handed to another thread |
| `PagePool.ContentsKept` | pintos-kaist-master/threads/palloc.c:316-323 | neither the 0xcc of a free nor the zeros of an allocation change a page that is handed out |
| `PagePool.HandedOutIsMarked` | pintos-kaist-master/lib/kernel/bitmap.c:198-208 | a page handed out stays marked used while frees clear bits without the lock |
| `PoolService.Serves` | pintos-kaist-master/threads/palloc.c:262-285 | a call that returns hands out the first run of cnt pages free when it took the lock, or one before it that became free meanwhile, zeroed if asked for; it hands out nothing only if there was no such run |
| `PoolService.ServesIfFree` | pintos-kaist-master/threads/palloc.c:262-285 | if cnt pages from q on were free when it took the lock, it hands out cnt pages from q or before |
| `PoolService.FillsHold` | pintos-kaist-master/threads/palloc.c:277-318 | pages on their way out are zeroed, and pages on their way back filled with 0xcc, under every interleaving |
| `PoolService.NoPageLost` | pintos-kaist-master/threads/palloc.c:300-323 | every marked page is handed out or in the hands of a thread inside the two functions: no free loses a page |
| `PoolService.CallReturns` | pintos-kaist-master/lib/kernel/bitmap.c:270-298 | every call returns within a bound on its own thread's steps, whatever the others do |
| `Division.NlzIs` | pintos-kaist-master/lib/arithmetic.c:40-67 | nlz() is the shift that brings the highest bit to the top |
| `Division.NarrowFits` | pintos-kaist-master/lib/arithmetic.c:73-103 | with a 32-bit divisor the divl quotient fits and the two parts add up to n / d |
| `Division.EstimateIs` | pintos-kaist-master/lib/arithmetic.c:110-112 | in the wide branch divl does not trap and the estimate is the quotient or one more |
| `Division.Udiv64Is` | pintos-kaist-master/lib/arithmetic.c:71-116 | udiv64() is floor(n / d) for all 64-bit n and nonzero d |
| `Division.Umod64Is` | pintos-kaist-master/lib/arithmetic.c:120-123 | umod64() is the remainder if and only if that fits in 32 bits |
| `Division.Umod64Divisors` | pintos-kaist-master/lib/arithmetic.c:120-123 | umod64() is the remainder for every dividend if and only if the divisor is at most 2^32 |
| `Division.Umod64Short` | pintos-kaist-master/lib/arithmetic.c:120-123 | for every greater divisor the remainder of 2^32 is 2^32 and umod64() returns 0 |
| `Division.Sdiv64Is` | pintos-kaist-master/lib/arithmetic.c:127-133 | sdiv64() truncates toward zero except for INT64_MIN / -1 |
| `HeapSort.Heapify` | pintos-kaist-master/lib/stdlib.c:96-123 | makes a heap from i on of what was one from i + 1 on; permutes the first cnt elements only, and terminates |
| `HeapSort.RootIsLargest` | pintos-kaist-master/lib/stdlib.c:146-151 | the root of a heap is its largest element |
| `HeapSort.Sort` | pintos-kaist-master/lib/stdlib.c:131-152 | sort() orders by any total preorder and permutes |
| `HeapSort.BinarySearch` | pintos-kaist-master/lib/stdlib.c:184-207 | finds a matching element of a sorted array, or there is none |
| `HeapSort.SortedHasSame` | pintos-kaist-master/lib/stdlib.c:131-152 | after sort() there is a match iff there was one before |
| `Printf.ReadInt` | pintos-kaist-master/lib/stdlib.c:9-41 | atoi()'s loops compute the number read, or int overflow |
| `Formats.AtoiExactly` | pintos-kaist-master/lib/stdlib.c:9-41 | atoi() of white space, a sign and digits, whatever follows, is the number, and overflows exactly if that is not an int |
| `Printf.FormatInteger` | pintos-kaist-master/lib/stdio.c:436-510 | format_integer() outputs Rendered, which the next rows are about, for every 64-bit value, base and conversion; no store leaves its 64-character buffer |
| `Formats.ReadsBack` | pintos-kaist-master/lib/stdio.c:436-510 | the output of every conversion, in every base and with every flag, width, precision and grouping, reads back as the value with its sign |
| `Formats.DigitsOfBase` | pintos-kaist-master/lib/stdio.c:127-130 | nothing but digits of the base, in the letter case of %x or %X, and commas if asked for |
| `Formats.CommaPlaces` | pintos-kaist-master/lib/stdio.c:471-473 | a comma stands behind every three digits, or four in base 16, from the lowest, and nowhere else |
| `Formats.NoLeadingZero` | pintos-kaist-master/lib/stdio.c:466-477 | no digit is superfluous |
| `Formats.SignShows` | pintos-kaist-master/lib/stdio.c:448-459 | -, + and space stand in front exactly for the values and flags that ask for them |
| `Formats.PrefixShows` | pintos-kaist-master/lib/stdio.c:461-464 | 0x or 0X shows exactly for # with a nonzero value in base 16, behind the sign |
| `Formats.OctalZero` | pintos-kaist-master/lib/stdio.c:487-488 | # in base 8 makes the digits begin with a zero |
| `Formats.PadsWhere` | pintos-kaist-master/lib/stdio.c:490-509 | padding is blanks in front, blanks behind for -, and zeros behind sign and prefix for 0 |
| `Formats.PrecisionShows` | pintos-kaist-master/lib/stdio.c:479-488 | as many digits as the given precision asks for, up to 63, or as the value has |
| `Formats.GivenShows` | pintos-kaist-master/lib/stdio.c:349-386 | +, space and # as given show in the output |
| `Printf.RenderedLength` | pintos-kaist-master/lib/stdio.c:490-509 | max(width, natural length) characters unless MINUS and ZERO are both set, and then the padding twice |
| `Printf.PadsTwice` | pintos-kaist-master/lib/stdio.c:350-386 | both flags are set exactly when a negative * width follows a 0 flag that neither - nor a precision cancels |
| `Printf.WidthExactly` | pintos-kaist-master/lib/stdio.c:350-509 | for flags, width and precision as given the field has max(width, natural length) characters if and only if not a 0 flag without - or precision meets a negative * width greater than the contents |
| `Printf.PadsTwiceExample` | pintos-kaist-master/lib/stdio.c:360-370 | "%0*d" of -5 and 42 prints eight characters |
| `Printf.RoundTrip` | pintos-kaist-master/lib/stdio.c:169-208 | atoi of the "%d" output is the value, for every int and every conversion without grouping |
| `Printf.Vsnprintf` | pintos-kaist-master/lib/stdio.c:24-49 | vsnprintf() stores the right truncated prefix and terminator and returns the untruncated length |

## Left out

- Not modelled: list_unique, list_max, list_min, hash_apply, hash_clear, calloc, bitmap_count, file positions, dir_readdir, format_string, qsort and bsearch wrappers.
- The packing of bitmap bits into 64-bit words: bitmaps are sequences or sets of bits, each read or written as one.
- Priorities, priority donation and the advanced scheduler: the code stores a priority and schedules without it.
- The vm directory, page_cache.c, the FAT file system, system calls, fork and wait, which this repository leaves largely to be written; and the ELF loader of process.c.
- Boot: populate_pools, paging_init and the loader; the models start from initialised pools and tables, and the scheduler from the point where thread_start() enables interrupts.
- Registers and stacks in thread_launch and do_iret: a switch changes the current thread.
- Calls of the synchronisation functions with interrupts disabled by the caller, lock_try_acquire from an interrupt handler, and 32-bit overflow of a semaphore's value.
- That palloc's own lock is taken inside thread_create: a page for a new thread is any page not in use.
- ThreadSignals.WaitReturnsHolding: says nothing of waits that never return; whether a signal is ever sent is up to the callers.
- TLB invalidation (invlpg) and the loading of CR3.
- PageMemory.Memory.ForEach: func is a function of the entry and the address, so a func that changes the tables while they are visited is not captured.
- PageMemory.Memory.SetPage: that every frame belongs to one page afterwards is promised for a frame that was not mapped before.
- PageMemory.Memory.DestroyAll: the ASSERT that the root is not base_pml4 is not modelled.
- PageTables.CloneMappings: takes entry 0 of base_pml4 to be empty, as paging_init leaves it.
- Malloc.Allocator.Malloc: takes sizes up to 2^64 - 4120; for the 4119 sizes above, Arenas.PageCntExact gives the page count, and what the stores to the missing pages do is not modelled; nor are the descriptors' locks.
- Malloc.Allocator.Realloc: the same sizes.
- Filesys.FileSystem.Create: allocation of memory for inodes, directories and files succeeds; writing the free map to its file succeeds.
- The contents of the root directory and of the free map as bytes of their files: the directory is a sequence of sixteen slots, and the free map a set of sectors.
- Locking in the file system: the code has none, and the operations are sequential.
- HashTables.HashTable.Insert: buckets are sequences, so the list nodes of the elements and the freeing of the old buckets are not captured; hash and less are functions that agree on equal elements.
- Lists.List.Sort: less is a function of the nodes and does not read memory that the list operations write.
- PagePool.NeverTwice: the pool's lock is one atomic step to take and one to release; that it excludes is ThreadTheorems.MutualExclusion.
- Printf.FormatInteger: the parsing of a format string up to the flags, width and precision, and the fetching of arguments, are not modelled; widths and precisions do not overflow an int.
- HeapSort.Sort: elements are swapped as wholes, not byte by byte.
