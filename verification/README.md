# ZeOS in Dafny

A model of the ZeOS teaching kernel and proofs about it. ZeOS keeps almost all of its state in place: a byte map of
physical frames, page tables, ten reference-counted shared pages, intrusive lists of tasks, a circular keyboard
buffer. Every system call and interrupt routine runs with interrupts off, up to the point where it switches tasks, so
the kernel is a transition system whose steps are the calls, the continuation of a read that slept, the clock tick, a
key, and a user program's store.

Each imperative part appears twice: as a specification on values, about which the theorems over all states and runs
are proved, and as a class or method with the loops and assignments of the C code, proved to compute exactly what the
specification says.

| modules | subject |
|---|---|
| `Machine`, `Sequences`, `Frames` | sizes, error numbers, page-table entries, places in a sequence, the free list |
| `Memory`, `MemoryInvariant`, `TaskLife`, `MemoryRuns` | frames, tables and shared pages; fork, exit, shmat, shmdt, shmrm; the invariant, in every reachable state |
| `MemoryTheorems`, `Reclaim`, `Balance`, `Isolation` | what the invariant means: ownership, sharing, fork's copy, deferred removal, frame accounting, isolation |
| `SharedCalls`, `TaskPages` | what each call on memory answers and all that it changes; the directories of tasks, and what freed frames keep |
| `PcbLists`, `LinkedMemory`, `LinkedRuns`, `LinkedBoot` | the words that list operations write, wherever their pointers lead: when they are harmless, exactly, and what holds over runs on which they are |
| `TableSafety`, `TableRuns` | what ownership and reference counts need of these words, exactly: that no user table changes |
| `StaleLinks`, `LostTable` | runs from booting on which a list operation changes what a task sees, and on which ownership is lost |
| `Removals` | removal requests over whole runs |
| `MemoryManager` | the memory calls in place, on arrays, with their list operations |
| `Scheduling`, `SchedulingInvariant`, `SchedulingTheorems` | queues, quantum, block/unblock, keyboard and blocking read |
| `SchedulingCalls` | all that each tick, key and call changes there, and a reader from its call to its last character |
| `Rings` | the lists of list.c, on values and on the heap |
| `Keyboard`, `Scheduler` | the circular buffer, and the scheduler with its lists, in place |
| `FamilyWords`, `MemoryRings` | when the words of PCBs are the lists of children that the scheduler means, all of them or one |
| `LinkKinds` | that links in PCBs in use lead to list nodes of their kind, whatever the frames hold by then |
| `KernelState`, `KernelSteps`, `KernelSafety`, `ForkSafety`, `KernelRuns`, `KernelTheorems` | memory with its list words and scheduling together, also after frames of former PCBs are used again |
| `KernelFamilies`, `FamilyRuns` | that the families stay in memory until the frame of a task that has exited is allocated |
| `ReusedPcb`, `ReuseRuns` | what becomes of a list of children then, exactly, and a run from booting |
| `Copy`, `Console`, `Numerals` | the copy loops, the screen and `write`, printing and reading integers |

The state of a frame's owner (`Mem.own`) is a record kept for the proofs; no operation decides anything by it, and the
invariant says that it is what the rest of the state says (`Memory.Claim`), leaked frames excepted.

## What the code does that its comments or design do not say

- A failed fork with 2 to 22 free frames never gives back the child's directory (zeos/sys.c:113-116, 143-149). The
  frame is owned by `Leaked` from then on; `Balance.RunConserves` counts one for each such fork.
- The result of `allocate_DIR` is not looked at (zeos/sys.c:109). With one free frame the child's PCB keeps the
  parent's directory, but the next allocation fails too and nothing is written through it
  (`Balance.ForkKeepsParentDirectory`).
- The comment at zeos/sys.c:134 says that a child's code pages are read-only. `set_ss_pag` makes them writable, and a
  child's store into its code is seen by every task (`MemoryTheorems.ForkedCodeIsWritable`). Only the first task's own
  entries are read-only.
- `exit` leaves the task in its family (zeos/sys.c:219-257): a child's parent pointer then leads to a frame that is free
  (`KernelTheorems.OrphanPointsToFreeFrame`). No such pointer exists exactly as long as no task with a parent or a child
  has exited (`SchedulingTheorems.ExitLeavesFamily`). Fork also copies the parent's `task_list` node over the child's
  (zeos/sys.c:106), so that list_tasks can lead to freed PCBs too.
- List operations follow these links into frames that may hold something else by then. Right after booting, fork, exit
  of the child, `shmat(0, 0)` and a second fork change a word of the shared page (`StaleLinks.StaleRunAfterBoot`). For
  each call there is an exact condition on the state before it under which its list operations write only words that
  hold nothing of a task's memory (`LinkedMemory.ForkGuardIsExact`, `ExitGuardIsExact`, `LinkedRuns.BlockGuardIsExact`,
  `UnblockGuardIsExact`). When it holds at each step, fork's copy and isolation hold over the run (`LinkedRuns`).
- Two failing calls `shmat(0, 1)` and `shmat(1, 1)`, fork, exit of the child, `shmrm(0)`, `shmrm(1)` and a second fork
  write the address of a list node over an entry of the new child's user table: ownership and reference counts are no
  longer consistent (`LostTable.TableLostAfterBoot`). They stay consistent over a step if and only if a weaker condition
  holds before it: no list operation changes a user table (`TableSafety.TablesExact`, `TableRuns.TablePartIsExact`). The
  first run satisfies it (`LostTable.OnlyBytesAreLost`), and the accounting of frames holds over all runs that do
  (`TableRuns.TableRunConserves`).
- An exited task's PCB is usually the lowest free frame, so that the next fork takes it. Its caller's list of unblocked
  children stays a ring exactly when the links of all children on it survive: none is in the new child's PCB, directory
  or table, and one in a data page of the new child finds its own links in the page that is copied there
  (`ReusedPcb.ForkKeepsListExactly`). If the new PCB is where the last listed child was, a walk over the list never ends
  (`ReusedPcb.WalkNeverEnds`), and fork, a tick, an exit and a fork lead there from booting (`ReuseRuns.ReuseAfterBoot`,
  `ForkExitFork`). As long as no frame of a task that has exited is allocated, in particular on every run without exit,
  the lists in memory are the families of the scheduler (`FamilyRuns.FamilyStepKeeps`, `ExitFreeRun`). The queues, PCBs
  and frames stay consistent either way (`KernelRuns.KernelStepKeeps`).
- Idle is enqueued on a tick like any task (zeos/sched.c:309-315), so it can run while others are ready: after a tick of
  another task, exactly when the quantum has run out and idle was the first of the ready tasks
  (`SchedulingTheorems.IdleRunsBeforeOthers`); a run from booting leads there (`IdleRunsAfterBoot`).
- Exit clears no data: what a task had in its pages stays in the frames that are free then (`TaskPages.ExitPages`), and an
  attach of a fresh page does not clear its frame (`SharedCalls.ShmatEffect`).
- A task alone starts a new quantum at each tick (`SchedulingCalls.TickEffect`).
- `copy_data` is wrong when the destination starts inside the source, and only then (`Copy.CopiesExactlyWhen`).
- `itoa_hexadecimal` and `itoa` print nothing for a negative number (`Numerals.HexPrinters`).
- `shmat` gives a shared page its frame before it looks at the address, so an attach that fails can still take a frame:
  exactly when the page had none and one was free (`LinkedMemory.FailedAttachTakes`). The accounting of
  `Balance.RunConserves` includes it.
- `read_int` does not look at what `read` returns (zeos/user.c:106). A read that fails after a digit counts the digit
  again, and only then are the digits not those typed (`Numerals.DigitsCountOnce`).
- `printc_xy` checks nothing and can write after the screen (`Console.Console.PutCharAt`).

## Model

| member | source | states |
|---|---|---|
| `Machine.WordsAreNumbers` | zeos/include/types.h:135-152 | reading a page-table entry through its bit-fields loses nothing: bit-field words and 32-bit numbers are in bijection, and the zero word is 0 |
| `Memory.FindShared` | zeos/sys.c:440-443 | the first shared id whose frame is the given one, or -1 exactly when no id has it |
| `Memory.FirstAbsent` | zeos/sys.c:386-395 | the least index from the start on whose entry is absent; every entry skipped is present |
| `Memory.ChildTable` | zeos/sys.c:131-155 | entry by entry, the table of a forked child: data frames obtained so far, the parent's code frames, nothing above |
| `Memory.ClearData` | zeos/mm.c:205-213 | exactly the data entries become zero |
| `Frames.FreeFrom` | zeos/mm.c:192-203 | the free frames from a place on: exactly those, in ascending order |
| `Frames.UseLowest` | zeos/mm.c:192-203 | taking frames one by one takes the lowest free ones in ascending order, and the rest stay free |
| `Frames.GiveBack` | zeos/mm.c:217-221 | giving distinct used frames back makes the number of free frames grow by exactly their number |
| `MemoryInvariant.TaskFrames` | zeos/mm.c:192-221 | PCB, directory, table and data frames of a live task each have their own owner recorded, so they are in use and distinct |
| `MemoryInvariant.SharedFrames` | zeos/sys.c:357-360 | a shared page's frame is owned by that page, and looking the frame up finds that page and no other |
| `MemoryInvariant.UserFrame` | zeos/mm.c:239-247 | a present user entry leads to a data page of the same task, a code page or a shared page, by its index; never to a kernel frame |
| `MemoryInvariant.MapKeeps` | zeos/sys.c:384-402 | mapping a shared page with a frame at an empty entry keeps ownership, tables and reference counts |
| `MemoryInvariant.UnmapKeeps` | zeos/sys.c:446-451 | removing a mapping, with the reclaim it may cause, keeps the whole memory invariant and changes no other table entry |
| `MemoryInvariant.CleanupInv` | zeos/sys.c:409-424 | zeroing and freeing an unreferenced shared page restores the whole invariant |
| `MemoryInvariant.ProvideKeeps` | zeos/sys.c:357-360 | giving a shared page its frame keeps the invariant, and the contents of memory, marks and counts |
| `MemoryInvariant.NextFreeIsFree` | zeos/mm.c:192-203 | the frame that alloc_frame returns has no owner and nothing claims it |
| `MemoryInvariant.ShmatKeeps` | zeos/sys.c:352-406 | attach, on every path, keeps the memory invariant |
| `MemoryInvariant.ShmdtKeeps` | zeos/sys.c:426-454 | detach, on every path, keeps the memory invariant |
| `MemoryInvariant.ShmrmKeeps` | zeos/sys.c:456-466 | removal, immediate or deferred, keeps the memory invariant |
| `MemoryInvariant.StoreKeeps` | zeos/mm.c:239-247 | whatever a user program writes through its own table, the invariant holds |
| `MemoryInvariant.CopyOutKeeps` | zeos/utils.c:39-54 | a word that the kernel copies out through the caller's table, writable or not, keeps the invariant |
| `TaskLife.BirthKeeps` | zeos/sys.c:100-166 | building a child on 23 free frames keeps the invariant, the words of its lists apart |
| `TaskLife.BirthData` | zeos/sys.c:151-166 | every data page of the child holds what the parent's page held |
| `TaskLife.InheritKeeps` | zeos/sys.c:168-181 | inheriting the shared pages keeps the invariant, counts included, and gives the child the parent's entries from 28 on |
| `TaskLife.RollbackKeeps` | zeos/sys.c:101-152 | a fork that runs out of frames at any point keeps the invariant and every live task's table, the words of lists apart |
| `TaskLife.ForkKeeps` | zeos/sys.c:100-217 | fork without its list operations, successful or not, keeps the memory invariant; with them: `LinkedMemory.LinkedForkIsFork` |
| `TaskLife.DetachKeeps` | zeos/sys.c:223-238 | letting go of all shared pages keeps the invariant, empties the upper entries and touches no other table |
| `TaskLife.TearDownKeeps` | zeos/sys.c:240-253 | giving back the private frames of a task keeps the invariant, before the list_del of free_pcb |
| `TaskLife.ExitKeeps` | zeos/sys.c:219-257 | exit without its list_del keeps the memory invariant; with it: `LinkedRuns.LinkedExitIsExit` |
| `MemoryRuns.StepKeeps` | zeos/sys.c:100-466 | every call on memory by any live task without its list operations, every user store and every word that read copies out, keeps the invariant; with them: `LinkedRuns.LinkedStepKeeps` |
| `MemoryRuns.BootInv` | zeos/sched.c:190-272 | booting establishes the invariant for every kernel size that leaves room, whatever memory held |
| `MemoryRuns.ReachableInv` | zeos/sys.c:100-466 | every state reached after booting by any run of these satisfies the invariant; with the list words: `LinkedBoot.LinkedReachableInv` |
| `MemoryTheorems.OneOwnerEach` | zeos/mm.c:192-221 | ownership partition: a frame is marked used exactly when something owns it, and then only one thing does |
| `MemoryTheorems.LiveFramesAreNotFree` | zeos/mm.c:192-221 | no frame of a live task, and none that it maps, can be handed out |
| `MemoryTheorems.KernelFramesAreSafe` | zeos/mm.c:168-188 | the kernel image, 0x90 and 0xA0 to 0xFF stay used, and no task or shared page ever owns them |
| `MemoryTheorems.NextFreeIsLeast` | zeos/mm.c:190-203 | the allocator's answer is the least free frame from last_kernel on, and -1 exactly when there is none |
| `MemoryTheorems.RefsCountMappings` | zeos/sys.c:352-466 | the reference count of a shared page is the number of (live task, entry) pairs that map it; marked means allocated and still mapped; no frame means no references and no mark |
| `MemoryTheorems.EntryMapsOneShared` | zeos/sys.c:352-406 | every present entry from index 28 on maps the frame of exactly one shared page |
| `MemoryTheorems.StoreIsSeen` | zeos/sys.c:397 | a store is seen by another task exactly through entries that map the same frame |
| `MemoryTheorems.DataIsPrivate` | zeos/sys.c:141-155 | no two live tasks, nor two entries, map the same data frame |
| `MemoryTheorems.ForkPreservesView` | zeos/sys.c:124-181 | what fork's copies leave: the child has the entries of its parent and reads the same bytes; data frames are new, code and shared frames common; with the list words: `LinkedRuns.LinkedForkPreservesView` |
| `MemoryTheorems.ForkLoads` | zeos/sys.c:157-166 | through every entry of every task alive before, fork's copies leave the same bytes to be read; with the list words: `LinkedRuns.LinkedForkDisturbsNobody` |
| `MemoryTheorems.ForkTables` | zeos/sys.c:131-181 | the child's whole table as fork builds it, index range by index range, and that no other task's table changes, list words apart |
| `MemoryTheorems.ForkDisturbsNobody` | zeos/sys.c:100-217 | fork without its list operations, successful or not, changes no table and no visible byte of a task alive before; with them: `LinkedRuns.LinkedForkDisturbsNobody` |
| `MemoryTheorems.ForkedCodeIsWritable` | zeos/sys.c:134-138 | contrary to the comment in the code, a forked child can write the code pages, and every task then reads the new code |
| `MemoryTheorems.MarkedRejectsAttach` | zeos/sys.c:355-356 | a page marked for removal accepts no attach, and nothing changes |
| `MemoryTheorems.AttachAddress` | zeos/sys.c:363-405 | a successful attach returns a page-aligned address of an entry in 28..1023: the address asked for, or that of the least free entry |
| `MemoryTheorems.AttachMaps` | zeos/sys.c:365-405 | after a successful attach that entry maps the page; the count grows by one, and not at all when the entry mapped it before |
| `MemoryTheorems.FreshAttachMaps` | zeos/sys.c:357-405 | an attach that succeeds at a free entry adds that one mapping and one reference |
| `MemoryTheorems.AttachThenDetach` | zeos/sys.c:352-454 | in 32-bit unsigned arithmetic, detaching a fresh attach succeeds and restores table and reference count exactly, while the frame stays allocated |
| `MemoryTheorems.MapThenUnmap` | zeos/sys.c:384-451 | mapping and unmapping cancel out when the page is not marked |
| `SharedCalls.ShmatAnswers` | zeos/sys.c:352-406 | shmat succeeds if and only if the id is 0 to 9, the page is not marked and has a frame or one is free, and there is a place: with an address, it is that of an index in 28..1023 whose entry is absent or maps the page already; without one, some such entry is absent. Otherwise it fails with ENOMEM when no frame or no place is left, and with EINVAL in all other cases |
| `SharedCalls.ShmatEffect` | zeos/sys.c:352-406 | all that a successful attach changes: one entry of the caller leads to the page, writable; the page has its frame or else the lowest free one, whose contents stay; its count is one more unless the entry mapped it |
| `SharedCalls.SharedWordIsSeen` | zeos/sys.c:397-402 | a word stored through the attached page is read by every task that had the page attached before |
| `SharedCalls.ShmdtAnswers` | zeos/sys.c:426-454 | shmdt succeeds if and only if the address is that of an index in 28..1023 whose entry is present, be the page marked or not; otherwise it fails with EINVAL and changes nothing |
| `SharedCalls.ShmdtEffect` | zeos/sys.c:446-453 | all that it changes: the entry is zero and that mapping gone; the last mapping of a marked page takes the page with it, zeroed and its frame free, and otherwise the count is one less |
| `SharedCalls.ShmrmAnswers` | zeos/sys.c:456-466 | shmrm succeeds if and only if the id is 0 to 9 and the page has a frame; otherwise it fails with EINVAL and changes nothing |
| `SharedCalls.ShmrmEffect` | zeos/sys.c:461-465 | all that it changes: a page still mapped is marked, and one that is not is zeroed and forgotten, its frame free |
| `SharedCalls.RemovedThenDetached` | zeos/sys.c:426-466 | a page removed while one task has it attached is reclaimed when that task detaches it |
| `TaskPages.ForkAnswers` | zeos/sys.c:100-217 | fork succeeds with at least 23 frames free, on the lowest; with 1 to 22 it fails with EAGAIN, with none with ENOMEM |
| `TaskPages.ForkDirectory` | zeos/sched.c:363-383 | the directory of a forked child has entries 0 and 1 of its parent's, each at its place, its own user table at entry 2, and nothing else |
| `TaskPages.LinkedForkDirectory` | zeos/sys.c:109-122 | the same with the list operations of fork, under the condition that they are harmless |
| `TaskPages.KernelTablesEverywhere` | zeos/sched.c:377-379 | over every run from booting whose list operations are harmless, entry 0 of every task's directory is the kernel's first table and entry 1 its second |
| `TaskPages.ExitPages` | zeos/sys.c:219-253 | page by page, all that exit leaves in memory: the directory without its user table, the table with its code entries only, zero in the shared pages that go with the task, and every other page as it was, its data included |
| `TaskPages.CopyOutIsSeen` | zeos/utils.c:39-54 | a word that the kernel copies out is seen through exactly the entries of the same frame, also in a page that the task may not write |
| `TaskPages.FirstCodeIsReadOnly` | zeos/mm.c:57-64 | a store of the first task into its code changes nothing |
| `Reclaim.UnmapEvolves` | zeos/sys.c:446-451 | a removed mapping leaves each shared page as it was or, if it was marked and this was its last mapping, zeroed and freed |
| `Reclaim.DetachEvolves` | zeos/sys.c:223-238 | the same over a whole exit's detachments |
| `Reclaim.StepEvolves` | zeos/sys.c:100-466 | over any step a page due for removal is kept while mapped and otherwise zeroed, freed and unmarked; a page not due is kept |
| `Reclaim.RemovalIsExact` | zeos/sys.c:228-234 | a shared page is zeroed and freed by a step exactly when removal was asked for, then or before, and no mapping is left after the step |
| `Removals.EachRequestRemovesOnce` | zeos/sys.c:456-466 | over every guarded run: the removal requests that find an unmarked page and the times its frame is taken away are equal in number, but for one that is pending because the page is still mapped |
| `Balance.ForkAccounting` | zeos/sys.c:101-152 | with n free frames: n-23 are left if n >= 23; the fork fails and leaves n-1 for n in 2..22, and n for n <= 1; error codes; one frame leaks exactly in the middle case |
| `Balance.ForkKeepsParentDirectory` | zeos/sys.c:109-122 | fork's own writes to tables and directories spare the parent's directory, even while the child's PCB still points to it |
| `Balance.ExitBalance` | zeos/sys.c:219-253 | exit gives back exactly 23 frames plus one for each shared page it reclaims, and leaks none |
| `Balance.StepConserves` | zeos/sys.c:100-466 | free frames + 23 per task + shared frames + leaked frames is the same after every step |
| `Balance.RunConserves` | zeos/sys.c:100-466 | the same over every run of these calls, with the leaked frames counted: one for each fork that failed with 2..22 frames free; with the list words: `LinkedRuns.LinkedRunConserves` |
| `Balance.StatsCount` | zeos/sys.c:35-46 | the frames that get_stats counts are the allocatable ones plus the 16 below the kernel |
| `MemoryManager.Manager.constructor` | zeos/sched.c:190-272 | the arrays of a given state, such as the one that booting leaves |
| `MemoryManager.Manager.InitFrames` | zeos/mm.c:168-188 | the byte map after init_frames |
| `MemoryManager.Manager.InitSharedPages` | zeos/mm.c:228-236 | no shared page has a frame, a reference or a mark |
| `MemoryManager.Manager.AllocFrame` | zeos/mm.c:192-203 | returns NextFree of the old state and marks that frame only |
| `MemoryManager.Manager.FreeFrame` | zeos/mm.c:217-221 | marks that frame free if it exists |
| `MemoryManager.Manager.SysGetStats` | zeos/sys.c:35-46 | 2048, the number of frames not in use, or -EINVAL, by its argument |
| `MemoryManager.Manager.SetSsPag` | zeos/mm.c:239-247 | writes one entry: present, writable, with the low 20 bits of the frame |
| `MemoryManager.Manager.DelSsPag` | zeos/mm.c:250-253 | writes one zero entry |
| `MemoryManager.Manager.ClearPageTable` | zeos/mm.c:42-48 | the table is all zero |
| `MemoryManager.Manager.FindSharedPage` | zeos/sys.c:440-443 | the search loop finds what FindShared says |
| `MemoryManager.Manager.CleanupSharedPage` | zeos/sys.c:409-424 | refines Memory.Cleanup |
| `MemoryManager.Manager.UnmapShared` | zeos/sys.c:446-451 | refines Memory.Unmap |
| `MemoryManager.Manager.SysShmat` | zeos/sys.c:352-406 | state and result are those of Memory.Shmat, and the invariant is kept; when that succeeds, and all that it changes: `SharedCalls.ShmatAnswers` and `ShmatEffect` |
| `MemoryManager.Manager.SysShmdt` | zeos/sys.c:426-454 | state and result are those of Memory.Shmdt, and the invariant is kept; when that succeeds, and all that it changes: `SharedCalls.ShmdtAnswers` and `ShmdtEffect` |
| `MemoryManager.Manager.SysShmrm` | zeos/sys.c:456-466 | state and result are those of Memory.Shmrm, and the invariant is kept; when that succeeds, and all that it changes: `SharedCalls.ShmrmAnswers` and `ShmrmEffect` |
| `MemoryManager.Manager.FreeUserPages` | zeos/mm.c:205-213 | exactly the data frames are given back and exactly the data entries cleared |
| `MemoryManager.Manager.DetachAll` | zeos/sys.c:223-238 | refines Memory.DetachFrom |
| `MemoryManager.Manager.FreeTask` | zeos/sys.c:240-253 | refines Memory.TearDown: the frames go back and the entry is cleared; the list_del of free_pcb follows in SysExit |
| `MemoryManager.Manager.SysExit` | zeos/sys.c:219-253 | the whole new state, list_del included, is that of LinkedMemory.LinkedExit |
| `MemoryManager.Manager.AllocData` | zeos/sys.c:140-155 | refines the data-page loop with its rollback: all twenty lowest frames, or none |
| `MemoryManager.Manager.CopyData` | zeos/sys.c:157-166 | refines the page copy, each page copied as by the loops of copy_data |
| `MemoryManager.Manager.InheritAll` | zeos/sys.c:168-181 | refines Memory.Inherit |
| `MemoryManager.Manager.AllocateDir` | zeos/sched.c:363-383 | the child's directory on the next free frame with the parent's two kernel entries, or nothing when there is none; that each is at its place: `TaskPages.ForkDirectory` |
| `MemoryManager.Manager.ShareCode` | zeos/sys.c:134-138 | the code entries are the parent's frames |
| `MemoryManager.Manager.GiveUpEarly` | zeos/sys.c:113-116 | refines Memory.Rollback with one or two frames taken; the list_del of free_pcb follows in LinkUp |
| `MemoryManager.Manager.GiveUpLate` | zeos/sys.c:143-149 | refines Memory.Rollback with more frames taken; the list_del of free_pcb follows in LinkUp |
| `MemoryManager.Manager.SysFork` | zeos/sys.c:100-217 | state and result are those of LinkedMemory.LinkedFork: on success, on failure, and with every list operation; the child's directory is `TaskPages.LinkedForkDirectory` |
| `MemoryManager.Manager.AllocPcb` | zeos/sched.c:57-75 | the lowest free frame, linked into list_tasks by the words that INIT_LIST_HEAD and list_add_tail write; or nothing |
| `MemoryManager.Manager.ListAddTail` | zeos/list.c:18-53 | the four writes, in place, wherever the pointers lead, are those of PcbLists.AddTail |
| `MemoryManager.Manager.ListDel` | zeos/list.c:62-79 | the four writes, in place, wherever the pointers lead, are those of PcbLists.Del |
| `MemoryManager.Manager.CopyPage` | zeos/utils.c:6-20 | copying a page sets the frame, and byte by byte is what the loop of copy_data does |
| `Isolation.OthersAreSpared` | zeos/sys.c:100-466 | no step of another task, its exit included, changes a task's table or the bytes of its data pages; list words apart, for which see `LinkedRuns.LinkedStepSparesOthers` |
| `PcbLists.PointersAreAddresses` | zeos/include/list.h:4-6 | a list pointer is the byte address of its word, is null only for address 0, and read as a page-table entry is never present |
| `PcbLists.AddTailReads` | zeos/list.c:18-53 | every word of memory after list_add_tail, even when its pointers lead to the same words |
| `PcbLists.DelReads` | zeos/list.c:62-79 | every word of memory after list_del |
| `PcbLists.AddTailStaysWithin` | zeos/list.c:18-53 | list_add_tail writes four words: of the new node, of the head, and where head->prev leads |
| `PcbLists.AddedTwice` | zeos/list.c:18-53 | a node added to a list of which it is the last follows itself, for any number of steps of a walk |
| `LinkedMemory.AlikeKeeps` | zeos/list.c:18-79 | list writes that hit no directory, table, data, code or shared frame keep the memory invariant |
| `LinkedMemory.ForkGuardIsExact` | zeos/sys.c:100-217 | every list write of a fork hits a PCB in use, a list head or an unused frame if and only if a condition on the state before the call holds: where list_tasks.prev leads, and then the caller's last child (23 frames free) or its neighbours in list_tasks (fewer) |
| `LinkedMemory.ExitGuardIsExact` | zeos/sys.c:219-253 | the same for exit: where the caller's neighbours in list_tasks are |
| `LinkedMemory.LinkedForkIsFork` | zeos/sys.c:100-217 | under that condition, fork with its list operations is fork without them between two changes of harmless words, with the same result, and keeps the invariant |
| `LinkedMemory.ForkPages` | zeos/sys.c:106-166 | a fork that succeeds writes only the frames it takes, and the child's PCB starts as a copy of its parent's |
| `LinkedMemory.JoinReadsAt` | zeos/sys.c:187-200 | every word of memory after the family part of fork: the child follows the last of its parent's unblocked children, and nothing is pending |
| `LinkedMemory.NewFamilyReads` | zeos/sys.c:187-191 | the words set before: the pointer to the parent, and two empty lists of children |
| `LinkedMemory.FailedAttachTakes` | zeos/sys.c:352-382 | a shmat that fails changes something if and only if the page had no frame and one was free: the page then has it |
| `LinkedMemory.ExitOwner` | zeos/sys.c:219-253 | exit frees exactly the caller's own frames and the marked shared pages that it alone maps |
| `LinkedRuns.MoveGuardIsExact` | zeos/sys.c:314-315 | the words that moving a node writes, as places of the state before: the node, its neighbours, the head, and the last node of the list once the node has left its own; the move is harmless if and only if these are |
| `LinkedRuns.BlockGuardIsExact` | zeos/sys.c:302-316 | the same list of places for block, whose caller's own words are always harmless: the neighbours of the caller, its parent's head and the last node there |
| `LinkedRuns.UnblockGuardIsExact` | zeos/sys.c:324-337 | and for unblock: the child's node, its neighbours and the caller's last unblocked child |
| `LinkedRuns.LinkedExitIsExit` | zeos/sys.c:219-253 | under its condition, exit with its list_del is exit without it but for harmless words, and keeps the invariant |
| `LinkedRuns.LinkedStepKeeps` | zeos/sys.c:100-466 | every call on memory with all the words it writes, every list operation, store and copy-out keeps the invariant when its condition holds |
| `LinkedRuns.LinkedRunKeeps` | zeos/sys.c:100-466 | and so does every run of such steps |
| `LinkedRuns.LinkedForkPreservesView` | zeos/sys.c:100-217 | under its condition, after a fork with its list operations the child maps what its parent maps and reads the same bytes; its data frames were free |
| `LinkedRuns.LinkedForkDisturbsNobody` | zeos/sys.c:100-217 | under its condition, a fork with its list operations changes no table and no visible byte of a task alive before |
| `LinkedRuns.LinkedStepSparesOthers` | zeos/sys.c:100-466 | no such step of another task changes a task's table or data pages |
| `LinkedRuns.LinkedForkAccounting` | zeos/sys.c:100-217 | frames left and error codes of a fork with its list operations, for every number of free frames |
| `LinkedRuns.LinkedRunConserves` | zeos/sys.c:100-466 | over every such run, free frames + 23 per task + shared frames + leaked frames is constant, with one leaked for each fork that failed with 2..22 frames free |
| `LinkedBoot.BootReads` | zeos/sched.c:298-307 | every list word that booting leaves |
| `LinkedBoot.LinkedReachableInv` | zeos/sched.c:190-307 | every state that such a run reaches after booting satisfies the memory invariant, for every kernel size and whatever memory held |
| `TableSafety.TablesExact` | zeos/list.c:18-79 | after writes of pointers only, the memory invariant holds if and only if every user table is where it was and has the entries that it had |
| `TableSafety.ForkTableGuardIsExact` | zeos/sys.c:100-217 | each list operation of a fork keeps ownership and reference counts consistent if and only if a condition on the state before it holds: list_tasks.prev leads into no user table, and then the caller's last child neither into one nor into the table to be (23 frames free), or unlinking the caller would change none (fewer) |
| `TableSafety.ExitTableGuardIsExact` | zeos/sys.c:219-253 | the same for exit: its list_del changes no table of another task |
| `TableRuns.TablePartIsExact` | zeos/sys.c:100-466 | the same for every step with its list words |
| `TableRuns.TableRunKeeps` | zeos/sys.c:100-466 | every run of such steps keeps ownership, tables and reference counts consistent |
| `TableRuns.TableReachableInv` | zeos/sched.c:190-307 | and so every state that one reaches after booting |
| `TableRuns.GuardIsEnough` | zeos/sys.c:100-466 | harmless list operations are among these |
| `TableRuns.TableForkAccounting` | zeos/sys.c:100-217 | frames left and error codes of a fork, for every number of free frames, under this condition |
| `TableRuns.TableRunConserves` | zeos/sys.c:100-466 | over every such run, free frames + 23 per task + shared frames + leaked frames is constant, with one leaked for each fork that failed with 2..22 frames free |
| `TableRuns.LinkedExitBalance` | zeos/sys.c:219-253 | exit with its list_del gives back 23 frames and one for each shared page it reclaims, and leaks none |
| `StaleLinks.StaleRun` | zeos/sys.c:193-197 | a run on which a fork is not harmless: fork, exit of the child, shmat(0, 0), and a second fork, which changes a word of the shared page that its caller sees |
| `StaleLinks.StaleRunAfterBoot` | zeos/sys.c:193-197 | that run is possible right after booting, and its first three steps satisfy their conditions |
| `LostTable.OnlyBytesAreLost` | zeos/sys.c:193-197 | its last fork satisfies the weaker condition: a byte that its caller sees changes, but no table |
| `LostTable.MisalignedTakes` | zeos/sys.c:352-382 | shmat with a misaligned address fails with EINVAL and leaves the page the lowest free frame |
| `LostTable.RunLosesTable` | zeos/sys.c:100-466 | a run on which ownership is lost: two failing shmat, fork, exit of the child, two shmrm, and a fork that writes a pointer over an entry of its own child's user table |
| `LostTable.TableLostAfterBoot` | zeos/sys.c:100-466 | that run is possible right after booting; all its steps but the last satisfy their condition, and after the last the memory invariant does not hold |
| `Rings.AllAppended` | zeos/list.c:50-53 | on any number of separate rings, linking a node before a head appends it to that ring and leaves every other ring as it was |
| `Rings.AllDeleted` | zeos/list.c:74-79 | taking a node out by its own pointers removes it from its ring and leaves every other ring as it was |
| `Rings.SeparateAppended` | zeos/list.c:50-53 | rings stay separate when a node that is in none joins one |
| `Rings.AppendKeepsRing` | zeos/list.c:50-53 | list_add_tail leaves a ring of the old nodes and the new one if and only if the new node was not on the ring |
| `Rings.DeletedNodes` | zeos/list.c:74-79 | the node taken out is in no ring afterwards, and every other node still is |
| `Rings.AllOpened` | zeos/list.c:6-10 | INIT_LIST_HEAD adds an empty ring beside the others |
| `Rings.RingsClosed` | zeos/list.c:62-66 | both links of a node or head of the rings lead to nodes or heads of the rings, never elsewhere |
| `Rings.ListHead.Init` | zeos/list.c:6-10 | an initialised head is an empty ring |
| `Rings.ListAddTail` | zeos/list.c:50-53 | on the heap: append on that ring's sequence, all other rings of the family unchanged |
| `Rings.ListDel` | zeos/list.c:74-79 | on the heap, given the node only: remove from the sequence of whatever ring it is in, null links in the node, all other rings unchanged |
| `Rings.ListEmpty` | zeos/list.c:96-99 | true exactly for the empty sequence |
| `Rings.ListFirst` | zeos/include/list.h:131-132 | the head of the sequence |
| `Rings.FindTask` | zeos/sys.c:329-337 | the traversal ends, and returns the first node of that task, or none when there is none |
| `SchedulingInvariant.StepPlaces` | zeos/sched.c:309-349 | every step keeps each live task in one place, idle at most once and never asleep, and dead tasks nowhere |
| `SchedulingInvariant.StepReaders` | zeos/devices.c:68-91 | every step keeps the no-lost-wake-up invariant: fewer characters than the first sleeper needs plus what woken readers may still take |
| `SchedulingInvariant.StepFamilies` | zeos/sys.c:302-350 | every step keeps each child in exactly one list of its parent, the blocked one exactly when it sleeps in block, with nothing pending then; children are PIDs here, and `KernelTheorems.ChildrenAreInMemory` says when memory holds these lists |
| `SchedulingInvariant.StepKeeps` | zeos/sched.c:309-349 | every tick, key and call keeps the whole scheduling invariant, with families as lists of PIDs |
| `SchedulingInvariant.RunKeeps` | zeos/sched.c:309-349 | and so does every run |
| `SchedulingInvariant.BootKeeps` | zeos/sched.c:298-307 | which holds after booting |
| `SchedulingTheorems.OnePlaceEach` | zeos/sched.c:326-349 | a live task other than idle is running, ready, blocked or waiting for keys: exactly one of these |
| `SchedulingTheorems.IdleAndDead` | zeos/sched.c:339-346 | idle never sleeps and is not ready while it runs; a task that is not live is nowhere |
| `SchedulingTheorems.QueuesDistinct` | zeos/sched.c:326-333 | no queue holds a task twice |
| `SchedulingTheorems.IdleRunsBeforeOthers` | zeos/sched.c:309-345 | after a tick of another task, idle runs while others are ready exactly when the quantum has run out and idle was first in the ready queue |
| `SchedulingTheorems.IdleRunsAfterBoot` | zeos/sched.c:309-345 | a run from booting on which that happens |
| `SchedulingTheorems.SleeperLacksCharacters` | zeos/devices.c:78-90 | with no woken reader left to read, the first sleeper lacks characters, the next key is accepted, and wakes it if that is enough |
| `SchedulingTheorems.StepRank` | zeos/sched.c:309-324 | 10 * place + quantum goes down with every tick and never up with any other step, until the task runs |
| `SchedulingTheorems.BoundedWaiting` | zeos/sched.c:309-349 | a ready task runs before as many ticks have passed as its rank says, whatever else happens |
| `SchedulingTheorems.WaitsTenTicksEach` | zeos/sched.c:309-349 | with k tasks before it, at most 10 * (k + 1) ticks |
| `SchedulingTheorems.ChildLists` | zeos/sys.c:312-316 | as lists of PIDs: a child is in its parent's list of blocked children exactly when it is in `blocked`; pending unblocks mean that it is not |
| `SchedulingTheorems.UnblockOfReader` | zeos/sys.c:339-346 | unblocking a child asleep in read only adds a pending unblock, on families of PIDs |
| `SchedulingTheorems.UnblockFinds` | zeos/sys.c:324-350 | on families of PIDs, unblock succeeds exactly for the caller's own children, and otherwise changes nothing; for the kernel: `KernelTheorems.UnblockFindsChildren` |
| `SchedulingTheorems.StepBooks` | zeos/sys.c:302-350 | on families of PIDs, over one step: a child's unblocks, block calls and completed blocks balance with its pending count and its being asleep |
| `SchedulingTheorems.Semaphore` | zeos/sys.c:302-350 | on families of PIDs, over every run: unblocks = completed blocks + change of the pending count, and calls = completed blocks + change of being asleep; for the kernel: `KernelTheorems.KernelSemaphore` |
| `SchedulingTheorems.SemaphoreFromFork` | zeos/sys.c:193-200 | on families of PIDs, from a child's fork on: unblocks = pending + completed blocks, calls = completed blocks + 1 if asleep |
| `SchedulingTheorems.StreamFidelity` | zeos/devices.c:41-76 | over every run: buffer, then accepted characters = characters handed out or flushed, then buffer |
| `SchedulingTheorems.ReadersInOrder` | zeos/devices.c:79-90 | over every run: readers leave the keyboard queue in the order in which they joined it |
| `SchedulingTheorems.ExitLeavesFamily` | zeos/sys.c:219-257 | parents and children of live families stay live exactly until a task that has a parent or a child exits |
| `SchedulingCalls.PossibleSteps` | zeos/sys.c:263-295 | a woken reader that runs finishes its read and does nothing else, idle makes no call, and every other task can make any |
| `SchedulingCalls.TickEffect` | zeos/sched.c:309-349 | a tick, in full: alone, the task starts a new quantum of 10; with others ready and more than one tick left only the quantum goes down, by one; and otherwise the first ready task runs with 10 and the caller is the last ready one |
| `SchedulingCalls.AloneThenFork` | zeos/sched.c:309-349 | a task that has been alone for any number of ticks has nine more before the first child it then forks runs |
| `SchedulingCalls.ForkEffect` | zeos/sys.c:183-216 | fork, in full: the new PID is last of the ready tasks and of its parent's unblocked children, with no children and nothing pending, and nothing of another task changes |
| `SchedulingCalls.FirstPid` | zeos/sys.c:98-184 | the first task forked has PID 101 |
| `SchedulingCalls.ExitEffect` | zeos/sys.c:253-256 | exit, in full: the caller is gone, the first ready task or idle runs with a quantum of 10, and nothing else changes |
| `SchedulingCalls.BlockEffect` | zeos/sys.c:302-322 | block, in full: one pending unblock less, or the caller sleeps as the last one in blocked and in its parent's list, and the next task runs |
| `SchedulingCalls.UnblockEffect` | zeos/sys.c:324-350 | unblock, in full, for a child asleep in block, for another child and for the PID of no child; the caller runs on |
| `SchedulingCalls.KeyEffect` | zeos/devices.c:68-91 | a key, in full: dropped exactly when 256 characters are stored; otherwise the first sleeping reader, and no other, is woken exactly when at least as many are there as it waits for |
| `SchedulingCalls.ReadEffect` | zeos/sys.c:263-288 | read, in full: the lesser of max, 256 and what is stored is handed out, oldest first; with nothing stored the caller sleeps, and waits for the lesser of max and 256 |
| `SchedulingCalls.ResumeEffect` | zeos/sys.c:290-295 | the end of a read that slept hands out as many characters as it waited for, or all there are if they are fewer |
| `SchedulingCalls.FlushEffect` | zeos/sys.c:268 | a read of no characters empties the buffer, and does nothing else |
| `SchedulingCalls.SleepsUntilFilled` | zeos/devices.c:79-89 | over every run, a sleeping reader sleeps throughout if and only if no key leaves as many characters as it waits for while it is the first |
| `SchedulingCalls.ReadIsServed` | zeos/sys.c:263-295 | a read that sleeps, over every run to a state in which its caller sleeps no more: a key left the lesser of max and 256 characters for it, and later it took that many, or all that were left |
| `Keyboard.CirclePut` | zeos/devices.c:74-76 | writing at head appends to the characters stored from tail on |
| `Keyboard.CircleTake` | zeos/devices.c:44-48 | reading at tail takes the oldest character |
| `Keyboard.KeyboardBuffer.constructor` | zeos/devices.c:13-16 | the buffer starts empty |
| `Keyboard.KeyboardBuffer.Put` | zeos/devices.c:68-76 | appends, or drops the character when 256 are stored; head = (tail + count) mod 256 throughout |
| `Keyboard.KeyboardBuffer.Take` | zeos/devices.c:41-51 | hands out the oldest characters, as many as asked for and there are, and keeps the rest in order |
| `Keyboard.KeyboardBuffer.Flush` | zeos/devices.c:56-61 | the buffer is empty |
| `Scheduler.NullLinksMeanUnqueued` | zeos/sched.c:326-333 | a PCB's list links are both null exactly when its task is in no queue |
| `Scheduler.WiredAppended` | zeos/list.c:50-53 | all rings of the kernel stand for the state again after an append |
| `Scheduler.WiredDeleted` | zeos/list.c:74-79 | all rings of the kernel stand for the state again after a removal |
| `Scheduler.WiredBorn` | zeos/sys.c:190-194 | and after a new task's lists have been initialised in nodes that are in no ring |
| `Scheduler.Scheduler.constructor` | zeos/sched.c:298-307 | booting gives the boot state |
| `Scheduler.Scheduler.ListAddTail` | zeos/list.c:50-53 | the four pointer writes insert the node before the head |
| `Scheduler.Scheduler.ListDel` | zeos/list.c:74-79 | the pointer writes take the node out and null its links |
| `Scheduler.Scheduler.UpdateProcessState` | zeos/sched.c:326-333 | the task leaves whatever queue it is in, if any, and is the last of the new one |
| `Scheduler.Scheduler.SchedNextRR` | zeos/sched.c:335-349 | refines Scheduling.SchedNext |
| `Scheduler.Scheduler.Schedule` | zeos/sched.c:309-324 | refines the tick, and keeps all rings, PCBs and the invariant; what each tick does: `SchedulingCalls.TickEffect` |
| `Scheduler.Scheduler.SysExit` | zeos/sys.c:256 | refines the scheduling part of exit |
| `Scheduler.Scheduler.SysFork` | zeos/sys.c:183-216 | refines the scheduling part of a fork that succeeds, for a child whose nodes are in no ring; returns the new PID |
| `Scheduler.Scheduler.FindChild` | zeos/include/list.h:114-115 | the walk over a ring of children ends, and finds a PID exactly when it is there; `ReusedPcb.WalkNeverEnds` is a list that is no ring |
| `Scheduler.Scheduler.SysBlock` | zeos/sys.c:302-322 | refines Scheduling.Block on rings of PIDs, and keeps all rings, PCBs and the invariant |
| `Scheduler.Scheduler.SysUnblock` | zeos/sys.c:324-350 | refines Scheduling.Unblock with its result on rings of PIDs, and keeps all rings, PCBs and the invariant |
| `Scheduler.Scheduler.KbdBufWrite` | zeos/devices.c:68-91 | refines Scheduling.Key on the circular buffer and the queues |
| `Scheduler.Scheduler.SysRead` | zeos/sys.c:263-289 | every error case and the flush; otherwise refines Scheduling.Read and hands out its characters, or sleeps when there are none; the words that `copy_to_user` writes are `MemoryInvariant.CopyOutKeeps`; what is handed out and what a sleeper waits for: `SchedulingCalls.ReadEffect` |
| `Scheduler.Scheduler.ResumeRead` | zeos/sys.c:290-295 | refines the end of a read that slept; the words that `copy_to_user` writes are `MemoryInvariant.CopyOutKeeps` |
| `FamilyWords.WalkMeetsChildren` | zeos/sys.c:329-341 | when memory holds the families of the scheduler, a walk from a list head meets exactly the children, in order, and comes back |
| `FamilyWords.MoveCarries` | zeos/sys.c:314-315 | list_del and list_add_tail on the words of a child move it from one list of the scheduler to the other |
| `FamilyWords.ForkCarries` | zeos/sys.c:189-197 | fork's list operations on words add the new child to its parent's list |
| `FamilyWords.CarriesAppended` | zeos/list.c:18-53 | list_add_tail on the words of PCBs is that of `Rings` on the rings that they stand for: PcbLists refines Rings |
| `FamilyWords.CarriesDeleted` | zeos/list.c:62-79 | and so is list_del |
| `MemoryRings.RingIsDistinct` | zeos/list.c:18-79 | no node is on a list in memory twice, if its links close a ring |
| `KernelSafety.CallerIs` | zeos/sys.c:269-295 | a call is made by a live task with a PCB frame and memory, and exactly unless idle runs or a read is unfinished |
| `KernelRuns.KernelStepKeeps` | zeos/sys.c:100-466 | every step keeps memory, scheduling, the link between them (each live PID has a PCB frame of its own, and user PCBs are those of live tasks) and the kind of every link in a PCB in use, whatever frames of former PCBs it takes; its list operations must change no user table (the exact condition of TableRuns), and block and unblock must work on rings of the scheduler's children |
| `KernelRuns.KernelRunKeeps` | zeos/sys.c:100-466 | and so does every run of such steps |
| `KernelRuns.BootKernelInv` | zeos/sched.c:190-307 | booting establishes all of it, with the families in memory |
| `KernelRuns.ReachableKernelInv` | zeos/sched.c:190-307 | so it holds in every state that such a run reaches after booting |
| `KernelFamilies.MoveIsGuarded` | zeos/sys.c:302-337 | while the families are in memory and no frame of a task that has exited is in use, the list writes of block and unblock are harmless |
| `KernelFamilies.ListsAreThere` | zeos/sys.c:302-337 | and the lists that they work on are rings of the scheduler's children |
| `KernelFamilies.FamilyAllows` | zeos/sys.c:302-337 | so nothing has to be asked of block and unblock on such runs |
| `FamilyRuns.FamilyStepKeeps` | zeos/sys.c:100-466 | every step that allocates no frame of a task that has exited keeps the lists of children in memory those of the scheduler, and every pointer to a parent; failed forks are no exception |
| `FamilyRuns.FamilyRunKeeps` | zeos/sys.c:100-466 | and so does every run of such steps |
| `FamilyRuns.ExitFreeRun` | zeos/sys.c:100-217 | every run without exit is such a run, however many of its forks fail |
| `KernelTheorems.FamiliesAfterBoot` | zeos/sched.c:190-307 | so the families are in memory after every run from booting without exit, and after every one that takes no frame of a dead task |
| `KernelTheorems.RunProjects` | zeos/sys.c:100-466 | a run of the kernel is, seen from either side, a run of that side: of the scheduler, and of memory with its list words |
| `KernelTheorems.CallOnMemory` | zeos/sys.c:352-466 | each call on memory, store and copy-out of the kernel is that of the running task on its own table, and leaves the scheduler alone |
| `KernelTheorems.CallOnBoth` | zeos/sys.c:100-350 | fork and exit are those of the running task on both sides, ticks, keys and reads the scheduler's alone |
| `KernelTheorems.QueuedPcbIsKept` | zeos/sys.c:240-256 | no queue holds a freed PCB: every task that runs or is queued has a PCB frame in use, its own among live tasks, that alloc_frame cannot hand out |
| `KernelTheorems.PcbIsPlaced` | zeos/sched.c:57-81 | a frame is owned as a PCB exactly when it is the PCB of a live task other than idle that runs or is queued |
| `KernelTheorems.ForkBothOrNone` | zeos/sys.c:100-217 | fork adds a task exactly when 23 frames are free: new PID, last in the ready queue, PCB on the lowest free frame, also where a former PCB was; otherwise the scheduler is unchanged |
| `KernelTheorems.TaskCount` | zeos/sys.c:100-257 | memory has one task fewer than the scheduler: idle |
| `KernelTheorems.FramesPerLiveTask` | zeos/sys.c:100-466 | over every run, with any number of forks, failed forks and exits: free frames + 23 per live PID + shared frames + leaked frames is constant |
| `KernelTheorems.WaitingTaskIsUntouched` | zeos/sys.c:100-466 | over every run whose list operations are harmless by the exact conditions of LinkedRuns, and in which a task does not run, its table and the bytes of its data pages stay as they were |
| `KernelTheorems.ExitFreesAll` | zeos/sys.c:240-256 | every frame private to the exiting task is free afterwards, the task is nowhere, and a live task runs |
| `KernelTheorems.OrphanPointsToFreeFrame` | zeos/sys.c:219-257 | a child outlives its parent with a parent pointer to a frame that the allocator can hand out |
| `KernelTheorems.ListWalk` | zeos/sys.c:329-341 | whenever the list of a task is a ring through its children's PCBs, the walk over it meets exactly the children, in order, and comes back to the head |
| `KernelTheorems.ChildrenAreInMemory` | zeos/sys.c:329-341 | while no frame of a task that has exited has been allocated, every list of children is such a ring |
| `KernelTheorems.UnblockFindsChildren` | zeos/sys.c:324-350 | whenever the caller's lists are such rings, also after frames of former PCBs have been used again, unblock succeeds exactly for its children, and each is in memory on the list that says whether it sleeps in block |
| `KernelTheorems.KernelSemaphore` | zeos/sys.c:302-350 | over every run of the kernel: unblocks = completed blocks + change of the pending count, and calls = completed blocks + change of being asleep. It is the scheduler's theorem on the calls of the run, and says nothing of memory |
| `ReusedPcb.ForkKeepsListExactly` | zeos/sys.c:193-197 | a fork on at least 23 free frames leaves its caller's list of unblocked children, any ring in memory, a ring of the old ones and the new one if and only if no old one's frame becomes the new PCB, directory or table, and one whose frame becomes a data page finds its links in the parent's page |
| `ReusedPcb.WalkNeverEnds` | zeos/sys.c:339-346 | when the new PCB is where the last listed child was, the walk over the unblocked children meets the others in order and then the new one for ever |
| `ReuseRuns.CallersListExactly` | zeos/sys.c:193-197 | the same for states of the kernel, earlier reuse included: the caller's list holds after its fork if and only if the links of all its children survive |
| `ReuseRuns.CallersWalkNeverEnds` | zeos/sys.c:339-346 | and unblock does not come back to the head when the last child's frame is the new PCB |
| `ReuseRuns.ReuseAfterBoot` | zeos/sys.c:219-257 | right after booting, fork, a tick and the child's exit lead to a state in which the next fork takes the child's frame |
| `ReuseRuns.ForkExitFork` | zeos/sys.c:100-217 | that fork is one of the kernel's steps, all of whose invariant it keeps, and the caller's list is no ring of its children any more |
| `Copy.CopyData` | zeos/utils.c:6-20 | the two loops, in place, compute WordLoop |
| `Copy.OnlyDestination` | zeos/utils.c:6-20 | nothing outside the destination is written, however the two overlap |
| `Copy.ApartCopies` | zeos/utils.c:6-20 | if the destination does not start strictly inside the source, the result is an ideal copy |
| `Copy.Echoes` | zeos/utils.c:9-12 | if it starts at least a word inside, each byte is a copy of an earlier destination byte |
| `Copy.LostByte` | zeos/utils.c:9-12 | if it starts inside, the first byte that is lost, and what is there instead |
| `Copy.CopiesExactlyWhen` | zeos/utils.c:6-20 | copy_data copies every memory content correctly if and only if the destination does not start strictly inside the source |
| `Copy.PageIsCopied` | zeos/sys.c:157-166 | seen as bytes, copy_data of one page to another leaves that page as a copy and every other as it was: what fork's copies are |
| `Console.Printc` | zeos/io.c:23-42 | a cursor inside 80 x 25 stays inside |
| `Console.PrintJoins` | zeos/sys.c:74-91 | printing in two pieces is printing the whole |
| `Console.NewlineMoves` | zeos/io.c:26-30 | a newline writes nothing and goes to the start of the next row, cyclically |
| `Console.TextMoves` | zeos/io.c:31-41 | k characters that are not newlines advance the linear position by k modulo 2000 |
| `Console.TextAppears` | zeos/io.c:31-41 | the last 2000 characters are on the screen, each at its place, and no other place changes |
| `Console.Console.constructor` | zeos/io.c:20-21 | the cursor starts at column 0 of row 19, in green |
| `Console.Console.PutChar` | zeos/io.c:23-42 | refines Printc |
| `Console.Console.PutCharAt` | zeos/io.c:44-54 | for any two bytes: one cell changes, on the screen or after it, or none for a newline, and the cursor is where it was |
| `Console.Console.WriteConsole` | zeos/devices.c:29-35 | prints all the characters in order and returns their number |
| `Console.Console.SysWrite` | zeos/sys.c:64-92 | the error codes in their order; otherwise the screen is that of printing the whole buffer at once, and the size is returned |
| `Numerals.DigitsDenote` | zeos/libc.c:21-26 | the digits produced denote the number and do not start with zero |
| `Numerals.DigitsUnique` | zeos/libc.c:21-26 | they are the only such digits |
| `Numerals.Finish` | zeos/libc.c:28-34 | the reversing loop reverses exactly the digits, terminates them, and leaves the rest of the buffer |
| `Numerals.Itoa` | zeos/libc.c:11-33 | the buffer holds the decimal numeral, or the empty string for a negative number, and is otherwise unchanged |
| `Numerals.ItoaHexadecimal` | zeos/utils.c:88-120 | the same in hexadecimal |
| `Numerals.ItoaHex` | zeos/libc.c:35-56 | the buffer holds the hexadecimal numeral of a modulo 2^32 |
| `Numerals.HexPrinters` | zeos/libc.c:35-56 | itoa_hex denotes a modulo 2^32 without leading zero, and agrees with itoa_hexadecimal exactly for a >= 0 |
| `Numerals.ReadInt` | zeos/user.c:102-115 | the value accumulated from the digits that the variable held before the first '.', a read that fails leaving it as it was; the echo, and the reads left over |
| `Numerals.DigitsCountOnce` | zeos/user.c:102-115 | read_int takes exactly the digits typed if and only if no read fails, before the first '.', while the variable holds a digit |
| `Numerals.AllHeard` | zeos/user.c:102-115 | when no read fails it hears what was typed |
| `Numerals.NoOverflow` | zeos/user.c:102-115 | reading never overflows while the number fits 31 bits, and gives what the digits denote |
| `Numerals.PrintThenRead` | zeos/libc.c:11-33 | for 0 <= a < 2^31, reading itoa(a) followed by '.' gives a back with no overflow and the same echo |
| `Numerals.ReadThenPrint` | zeos/user.c:102-115 | typed digits without a leading zero are printed back as typed |

## Left out

- TaskLife.BirthKeeps: without the words that list operations write; with them, `LinkedMemory.LinkedForkIsFork`.
- TaskLife.RollbackKeeps: without the words that list operations write; with them, `LinkedMemory.LinkedForkIsFork`.
- TaskLife.ForkKeeps: without the words that list operations write; with them, `LinkedMemory.LinkedForkIsFork`.
- TaskLife.TearDownKeeps: without the words that list operations write; with them, `LinkedRuns.LinkedExitIsExit`.
- TaskLife.ExitKeeps: without the words that list operations write; with them, `LinkedRuns.LinkedExitIsExit`.
- MemoryRuns.StepKeeps: without the words that list operations write; with them, `LinkedRuns.LinkedStepKeeps`.
- MemoryRuns.ReachableInv: without the words that list operations write; with them, `LinkedBoot.LinkedReachableInv`.
- MemoryTheorems.ForkPreservesView: without the words that list operations write; with them,
  `LinkedRuns.LinkedForkPreservesView`.
- MemoryTheorems.ForkTables: without the words that list operations write; with them,
  `LinkedRuns.LinkedForkPreservesView` and `LinkedForkDisturbsNobody`.
- MemoryTheorems.ForkLoads: without the words that list operations write; with them,
  `LinkedRuns.LinkedForkDisturbsNobody`.
- MemoryTheorems.ForkDisturbsNobody: without the words that list operations write; with them,
  `LinkedRuns.LinkedForkDisturbsNobody`.
- Balance.ForkKeepsParentDirectory: without the words that list operations write; with them,
  `LinkedRuns.LinkedForkDisturbsNobody` for tables; directories are in `LinkedMemory.Alike`.
- Balance.RunConserves: without the words that list operations write; with them, `LinkedRuns.LinkedRunConserves`.
- Isolation.OthersAreSpared: without the words that list operations write; with them,
  `LinkedRuns.LinkedStepSparesOthers`.
- MemoryManager.Manager.FreeTask: without the words that list operations write; with them,
  `MemoryManager.Manager.SysExit`.
- MemoryManager.Manager.GiveUpEarly: without the words that list operations write; with them,
  `MemoryManager.Manager.SysFork`.
- MemoryManager.Manager.GiveUpLate: without the words that list operations write; with them,
  `MemoryManager.Manager.SysFork`.
- SchedulingInvariant.StepFamilies: families are lists of PIDs, with no frame ever reused; when memory holds them:
  `FamilyRuns.FamilyStepKeeps`.
- SchedulingInvariant.StepKeeps: families are lists of PIDs, with no frame ever reused; when memory holds them:
  `FamilyRuns.FamilyStepKeeps`.
- SchedulingInvariant.RunKeeps: families are lists of PIDs, with no frame ever reused; when memory holds them:
  `FamilyRuns.FamilyRunKeeps`.
- SchedulingTheorems.ChildLists: families are lists of PIDs, with no frame ever reused; in memory:
  `KernelTheorems.UnblockFindsChildren`.
- SchedulingTheorems.UnblockOfReader: families are lists of PIDs, with no frame ever reused; in memory:
  `KernelTheorems.UnblockFindsChildren`.
- SchedulingTheorems.UnblockFinds: families are lists of PIDs, with no frame ever reused; in memory:
  `KernelTheorems.UnblockFindsChildren`.
- SchedulingTheorems.StepBooks: families are lists of PIDs, with no frame ever reused; over runs of the kernel:
  `KernelTheorems.KernelSemaphore`.
- SchedulingTheorems.Semaphore: families are lists of PIDs, with no frame ever reused; over runs of the kernel:
  `KernelTheorems.KernelSemaphore`.
- SchedulingTheorems.SemaphoreFromFork: families are lists of PIDs, with no frame ever reused; over runs of the
  kernel: `KernelTheorems.KernelSemaphore`.
- Scheduler.WiredBorn: nodes are named by PID; with nodes in PCB frames, `FamilyWords.ForkCarries`, and
  `ReusedPcb.ForkKeepsListExactly` for a reused frame.
- Scheduler.Scheduler.SysFork: nodes are named by PID; with nodes in PCB frames, `FamilyWords.ForkCarries`, and
  `ReusedPcb.ForkKeepsListExactly` for a reused frame.
- Scheduler.Scheduler.FindChild: nodes are named by PID; with nodes in PCB frames, `FamilyWords.WalkMeetsChildren`,
  and `ReusedPcb.WalkNeverEnds` for a reused frame.
- Scheduler.Scheduler.SysBlock: nodes are named by PID; with nodes in PCB frames, `FamilyWords.MoveCarries`.
- Scheduler.Scheduler.SysUnblock: nodes are named by PID; with nodes in PCB frames, `FamilyWords.MoveCarries`, and
  `ReusedPcb.WalkNeverEnds` for a reused frame.
- MemoryManager.Manager.SysFork: requires that the list write of alloc_pcb leaves the memory invariant, which it does
  exactly when the last node of list_tasks is in no user table (`TableSafety.EnlistKeepsTables`); what the rest of a fork
  does to a memory that this write has broken is not modelled. The writes after it may be anything.
- TableRuns.TableRunKeeps: the condition on a step also asks that a write that is not to a page of a task be to a list word
  or to an unused frame, because the other words of PCBs and the kernel's own variables are not modelled.
- KernelRuns.KernelStepKeeps: block and unblock are modelled on lists that are rings through the PCBs of the scheduler's
  children; what a walk over another list makes of the words it meets is `ReusedPcb.WalkNeverEnds` in one case, and
  otherwise not modelled.
- KernelTheorems.WaitingTaskIsUntouched: over runs on which the stronger condition holds, since under the weaker one a
  list operation may change the bytes of a data page.
- KernelTheorems.KernelSemaphore: the pending counts are those of the scheduler; the word `pending_unblocks` is written by
  fork, and its value is not tied to them.
- ReuseRuns.CallersListExactly: for the list of the task that forks; a fork that takes the frame of a dead child on
  another task's list can break that one too, and when exactly is not stated.
- `KernelState.Kernel`: the words of PCBs that are modelled are those of `task_list`, `sibiling`, the two lists of
  children and `parent`. The `list` nodes, `pending_unblocks`, the PID and the reader's fields are the scheduler's own
  state; that queues hold no freed PCB is `KernelTheorems.QueuedPcbIsKept`.
- `LinkedRuns.Move` and the other list operations take addresses rounded down to words: a user program that forges an
  unaligned pointer in a reused frame is not modelled. What reading such a frame as a PCB does to the scheduler is not
  modelled either: the conditions exclude it or the run is one of `StaleLinks` and `ReusedPcb`.
- The lists of `Scheduler.Scheduler`: its links are an explicit store from nodes to pointers, and not heap objects as in
  `Rings`; the PCBs are values in a map. Aliasing between PCBs and other uses of their frames is in
  `LinkedMemory` and `KernelState`.
- Scheduler.Scheduler.SysRead: the result of `access_ok` is an argument, because its bounds are those of the address
  space (zeos/utils.c:65-86); `copy_to_user` appears as the
  characters handed out here, and as words written to memory in `KernelSteps`, which does not say which words.
- Console.Console.SysWrite: the same holds for its pointer checks; the user's buffer is a sequence of characters, and the
  loops of `copy_from_user` are those of `Copy`. The port output in `printc` is not modelled.
- Numerals.ReadInt: signed overflow, undefined in C, wraps around; the reads that fail are given.
- MemoryManager.Manager.constructor: a given state is loaded, such as `LinkedBoot.BootState`; the loops of booting that
  are modelled are `InitFrames` and `InitSharedPages`.
- Scheduler.Scheduler.ResumeRead: the number to read is the PCB's `kbd_chars_needed`, which is the local variable's value.
- Kernel identity mappings, entry 512 of the kernel table and the TLB: the window through which fork and the reclaim write
  is a direct write to the frame.
- The entry of its own frame number in the first task's directory, and the rest of booting, the descriptor tables, the
  entry stubs, stacks and task switching, which is "current := next". The kernel stack copied by fork is not modelled
  beyond the PCB page.
- MemoryRuns.BootInv: the order in which booting takes its frames is modelled; `phys` after it is as `init_frames` and
  those 35 allocations leave it.
- PID wrap-around and overflow of `pending_unblocks` and of the reference counts: numbers are unbounded.
- `list_add` and `list_is_last`, which nothing calls.
- The colour, cursor, clock and PID calls, `perror`, page-fault reports and the menu and tests of zeos/user.c: input and
  output, or a single assignment.
