# Verified models of the labs' kernel, user and FAT cores

A Dafny project beside the sources.  It models the parts of the xv6 kernel and user
programs (lab2) and of the FAT file system (lab4) whose correctness is not seen in any
one function, and proves what they are for.  `dafny verify dfyconfig.toml` checks it all.

| part | files | main results |
|---|---|---|
| redo log over a buffer cache | `LogFormat`, `BufferCache`, `RedoLog`, `LogProtocol`, `LogProgress`, `LogSpace` | all-or-nothing commit under any number of crashes, for one commit and for every interleaving of operations; what has ended is committed; reads see the last write; when the log's size guard can be hit |
| pages and address spaces | `PageAllocator`, `Sv39`, `Sets`, `AddressSpace`, `UserMemory`, `AddressSpaceLife` | a three-level table is a finite map; growth and copy fail exactly when less is free than they demand, and give back every frame; a whole life of an address space returns every page |
| blocking protocols | `ExitWait`, `WaitAnswer`, `Semaphore`, `PingPong` | no lost wakeup, reaped once, no deadlock, the right answer of wait; the semaphore's balance; strict alternation and progress of ping-pong among other processes |
| inode layer | `BlockMap`, `FileData`, `Directory`, `Paths` | block ownership; files are byte sequences, directories maps, path look-up a fold |
| K&R allocator | `KrAllocator` | the ring's invariant, termination of both searches, disjoint blocks; exactly when 0 is returned, and when `sbrk` is asked for too little |
| virtio ring | `VirtioDescriptors`, `VirtioProtocol`, `VirtioProgress` | disjoint chains, no overwritten avail entry, each completion at its submitter, across index wrap; every request can be brought to its end |
| FAT chains | `FatTable`, `FatFiles` | creation, truncation and unlink keep chains acyclic, ended and disjoint; the freeing loop ends on every table |
| shell parser | `ShellLexer`, `ShellGrammar`, `ShellParser`, `ShellRedirects` | the parser accepts exactly a grammar; no word lost; every word intact after NUL termination; what its redirections open |
| grep | `Grep` | the matcher decides the patterns' language; the output does not depend on how the input is cut up |

How to read it.  Code that works in place is a class or a method over arrays, proved
against functions of the contents.  Protocols with several actors are state machines:
`IsRun` says that a sequence of states is a run of steps by any actors in any order, and the
theorems are about every state of every run.  A panic, or a failing call, is a result
(`Panic`, `None`, `false`) rather than a precondition.  Sizes such as `BSIZE`, `NINDIRECT`, `NBUF`,
`LOGSIZE`, `NUM` and `NPROC` are parameters.

Where code and expectation differ, the code is followed:

- The guard of `log_write` also tests `log.size - 1`, and mkfs makes `log.size` equal to `LOGSIZE`;
  `LogSpace.GuardNeverHitIffLogIsLarger` says exactly when operations that keep their budget can hit it.
- The byte count that `morecore` gives to `sbrk` is cut to an int; `KrAllocator.SbrkAsksExactly` has the exact
  limit, `KrAllocator.Heap.Malloc` says when a request goes wrong by it, and `KrAllocator.FirstRequest` has the inputs on a
  fresh heap.
- `kfree` does not notice a page that is free already; `PageAllocator.Mem.Kfree` says that this is exactly when the
  free list is lost (`PageAllocator.DoubleFree`).
- `fat_file_truncate` keeps one cluster more than the new size needs when the offset is a nonzero multiple
  of the cluster size (`FatFiles.CutCount`).  It reads and writes the entry of the end mark, outside the table, exactly if
  the chain ends just at the offset (`FatFiles.Volume.Truncate`; an input is in `FatFiles.CutOffTableHappens`), which a
  chain with the clusters for its size rules out.
- On a full volume `fat_file_init` reads outside the table before it can report that there is no space
  (`FatFiles.Volume.Init`).
- `fat_table_get_next_cluster` does not mask the four reserved high bits of an entry, which Microsoft's FAT32 File System
  Specification (heading "FAT Data Structure") asks readers to ignore; neither does the model.
- `dirlink` stores the low 16 bits of an inode number, so a multiple of 65536 adds no binding (`Directory.LinkedMap`).
- `grep` prints no line that is not closed by a newline, and nothing after a line too long for its buffer or holding a NUL
  (`Grep.GrepInput`).
- After `>>` the shell opens the file without going to its end, so output overwrites the start of a file that is not empty
  (`ShellRedirects.AppendsIff`).

## Model

| member | source | states |
|---|---|---|
| `LogFormat.HeaderRoundTrip` | lab2/kernel/log.c:87-114 | Reading back a header block that was written gives the same list of logged blocks; the other words of the block are kept. |
| `LogFormat.LogCopiedAt` | lab2/kernel/log.c:179-191 | After i rounds of write_log() the first i log blocks hold the cached contents, and no other block has changed. |
| `LogFormat.InstalledAt` | lab2/kernel/log.c:69-83 | After i rounds of install_trans() the first i logged blocks hold the log's copies, and no other block has changed; this needs the logged numbers to be distinct and outside the log. |
| `LogFormat.RecoveredAt` | lab2/kernel/log.c:117-123 | What recovery makes of any recoverable disk, block by block: logged home blocks come from the log, the others stay, the header is empty. |
| `LogFormat.RecoveryRestarts` | lab2/kernel/log.c:67-83 | A recovery stopped after any of its writes leaves a disk that recovers to the same home blocks: install_trans() is idempotent. |
| `LogFormat.RecoverySurvivesCrashes` | lab2/kernel/log.c:117-123 | The same for any number of crashes in a row, each at any write of its recovery. |
| `LogFormat.CommitBeforeHeader` | lab2/kernel/log.c:179-203 | A commit stopped before the header write recovers to the old home blocks. |
| `LogFormat.CommitPoint` | lab2/kernel/log.c:99-114 | Right after the header write the disk recovers to all of the group's new home blocks. |
| `LogFormat.CommitAtomic` | lab2/kernel/log.c:194-203 | A commit stopped after any k of its 2n+2 block writes recovers to all old home blocks if k <= n, and to all new ones otherwise; a finished commit has the new ones in place and an empty header. |
| `LogFormat.RecoveredIsApplied` | lab2/kernel/log.c:117-123 | A disk with a header and the group's blocks in the log recovers to the group applied to the home blocks, whatever part of it had been installed. |
| `BufferCache.BCache.constructor` | lab2/kernel/bio.c:37-53 | binit() makes a valid cache: a ring of all the buffers, each block 0 of device 0, none referenced. |
| `BufferCache.BCache.Hit` | lab2/kernel/bio.c:64-73 | The first loop of bget() finds the block's buffer if there is one. |
| `BufferCache.BCache.Oldest` | lab2/kernel/bio.c:75-87 | The second loop finds the unreferenced buffer nearest the tail of the ring, and fails only if every buffer is referenced. |
| `BufferCache.BCache.Bget` | lab2/kernel/bio.c:59-89 | A hit takes one reference; a miss recycles the least recently released unreferenced buffer; nothing else changes; the panic comes exactly when the block is not cached and every buffer is in use. |
| `BufferCache.BCache.Bread` | lab2/kernel/bio.c:93-103 | bread() gives a referenced buffer that holds the block, read from the disk if its contents were not valid. |
| `BufferCache.BCache.Bwrite` | lab2/kernel/bio.c:107-112 | bwrite() replaces one disk block by the buffer's contents, in one step. |
| `BufferCache.BCache.Brelse` | lab2/kernel/bio.c:117-137 | brelse() drops one reference; the last one moves the buffer to the front of the ring; contents and other buffers stay. |
| `BufferCache.BCache.Relink` | lab2/kernel/bio.c:125-134 | The six link writes take the buffer from its place and put it first, and change no buffer's contents. |
| `BufferCache.BCache.PushFront` | lab2/kernel/bio.c:130-133 | The four link writes put a buffer in front of a linked ring. |
| `BufferCache.BCache.Bpin` | lab2/kernel/bio.c:140-144 | bpin() adds one reference to one buffer. |
| `BufferCache.BCache.Bunpin` | lab2/kernel/bio.c:147-151 | bunpin() takes one away. |
| `BufferCache.MoveToFrontPermutes` | lab2/kernel/bio.c:117-137 | Moving a buffer to the front keeps the ring a permutation of all the buffers. |
| `BufferCache.UnlinkRemoves` | lab2/kernel/bio.c:126-127 | The two unlinking writes leave a consistent doubly linked ring of the other buffers. |
| `BufferCache.GotIsCoherent` | lab2/kernel/bio.c:59-103 | Reading a block, with or without an eviction, keeps the cache in agreement with disk and log, and yields the block's last logged contents; a block logged and not yet installed is never evicted, as its pin keeps it referenced. |
| `BufferCache.DropIsCoherent` | lab2/kernel/bio.c:117-151 | Dropping a reference keeps that agreement unless it is the last one of a logged block. |
| `RedoLog.Log.constructor` | lab2/kernel/log.c:55-65 | initlog() up to recovery. |
| `RedoLog.Log.LogWrite` | lab2/kernel/log.c:215-235 | log_write() makes the buffer's contents the block's pending contents, enters a new block at the end of the header and pins it, absorbs one already there, and panics exactly when the log is full by either test or no operation is under way. |
| `RedoLog.Log.BeginOp` | lab2/kernel/log.c:127-142 | One pass of begin_op()'s loop admits the operation exactly when no commit is under way and the worst case of all operations fits. |
| `RedoLog.Log.WriteLog` | lab2/kernel/log.c:179-191 | write_log() writes the disks LogCopied(1), LogCopied(2), ... and keeps the cache in agreement with disk and log. |
| `RedoLog.Log.WriteHead` | lab2/kernel/log.c:103-114 | write_head() writes one block, the header with the current list. |
| `RedoLog.Log.InstallTrans` | lab2/kernel/log.c:69-83 | install_trans() writes the disks Installed(1), Installed(2), ..., unpins each block when it commits, and leaves nothing pending. |
| `RedoLog.Log.ReadHead` | lab2/kernel/log.c:87-97 | read_head() loads the list that the header block on the disk holds. |
| `RedoLog.Log.Recover` | lab2/kernel/log.c:117-123 | Every disk that recover_from_log() leaves on the way is a RecoveryDisk, and at its end the disk is Recovered and the log empty; with two free buffers it gets to its end. |
| `RedoLog.Log.Commit` | lab2/kernel/log.c:194-203 | Every disk that commit() leaves on the way is a CommitDisk of the group, and at its end the group is in place, the log empty and nothing pinned; it fails only when no buffer is free. |
| `RedoLog.Log.EndOp` | lab2/kernel/log.c:147-175 | The last outstanding operation commits the whole group; any other changes neither disk nor log; it panics on a commit under way, and otherwise only if there is something to commit and no buffer is free. |
| `RedoLog.CommitTraceAtomic` | lab2/kernel/log.c:194-203 | Each disk written by the method Commit recovers to all of the group or none of it. |
| `LogProtocol.RunInv` | lab2/kernel/log.c:116-235 | The invariant of log, cache, counters and history holds in every state of every interleaving of operations, evictions, commits, crashes and recoveries. |
| `LogProtocol.CrashSafe` | lab2/kernel/log.c:116-235 | Whenever a run stops, in the middle of a commit or of the nth recovery, the home blocks after recovery are those of the committed groups, applied in order and each in full; which operations are in them is LogProgress.EndedIsCommitted. |
| `LogProtocol.DiskIsCommitted` | lab2/kernel/log.c:116-235 | Outside commit and recovery the disk's home blocks are exactly those of the committed groups. |
| `LogProtocol.CommittedForever` | lab2/kernel/log.c:194-203 | No later step or crash takes a committed group back. |
| `LogProtocol.OpsNotSplit` | lab2/kernel/log.c:127-175 | The updates of one operation are all in one group, and are committed only after it has ended. |
| `LogProtocol.ApplyIsLastWritten` | lab2/kernel/log.c:207-235 | Applying updates in order leaves each block as its last update has it. |
| `LogProtocol.ReadsLastWrite` | lab2/kernel/bio.c:58-151 | Whoever holds a home block's buffer sees the last data that any operation gave to log_write() for it, however often it was evicted, committed, or recovered in between. |
| `LogProgress.RestIsEmpty` | lab2/kernel/log.c:147-175 | In every run, when no operation and no commit is under way, nothing logged is left uncommitted. |
| `LogProgress.EndedIsCommitted` | lab2/kernel/log.c:147-235 | Whenever no operation and no commit is under way, every update given to log_write() since the last crash is in a committed group: the last end_op() has committed. |
| `LogProgress.GoesOn` | lab2/kernel/log.c:67-203 | In every state of every run, a commit or a recovery under way whose buffers are held takes a step that brings its end nearer; there are at most 2 * LOGSIZE + 4 of them. |
| `LogProgress.RestAdmits` | lab2/kernel/log.c:126-142 | When nothing is under way, begin_op() admits an operation. |
| `LogProgress.OpGoes` | lab2/kernel/log.c:147-235 | In every run an operation under way can end, and can log a block that it holds unless the guard of log_write() stops it. |
| `LogProgress.GetsBuffer` | lab2/kernel/bio.c:58-103 | A block whose buffer nobody has locked, with a slot for it or an unreferenced buffer to recycle, is looked up, locked and filled in at most four steps that touch the cache alone. |
| `LogProgress.HolderReleases` | lab2/kernel/bio.c:117-137 | In every run the holder of a buffer can release it. |
| `LogSpace.SpaceReserved` | lab2/kernel/log.c:126-142 | If every operation adds at most MAXOPBLOCKS blocks, the logged blocks and the unused budgets together never exceed LOGSIZE. |
| `LogSpace.NoCommitDuringOps` | lab2/kernel/log.c:147-175 | No commit is under way while an operation is, so neither panic about that can happen. |
| `LogSpace.BudgetLeavesRoom` | lab2/kernel/log.c:214-235 | An operation within its budget finds room in lh.block; it passes the whole guard exactly if the header is shorter than log.size - 1, and always if log.size > LOGSIZE. |
| `LogSpace.GuardNeverHitIffLogIsLarger` | lab2/kernel/log.c:220-221 | "too big a transaction" is out of reach of operations within their budgets if and only if log.size > LOGSIZE; mkfs makes them equal (lab2/mkfs/mkfs.c:25), and a run that reaches the panic is constructed. |
| `PageAllocator.Mem.constructor` | lab2/kernel/kalloc.c:27-40 | kinit() puts every whole page above the kernel on the free list, once. |
| `PageAllocator.Mem.Kfree` | lab2/kernel/kalloc.c:47-63 | kfree() puts the page first on the list, and panics exactly on a misaligned or foreign address; the free pages are a list afterwards if and only if the page was not free already. |
| `PageAllocator.DoubleFree` | lab2/kernel/kalloc.c:58-62 | A page freed twice closes the links into a ring: no sequence of pages is the free list any more. |
| `PageAllocator.Mem.Kalloc` | lab2/kernel/kalloc.c:69-82 | kalloc() takes the first page of the list; 0 exactly if there is none. |
| `Sv39.PxDeterminePage` | lab2/kernel/riscv.h:353-363 | The three 9-bit indices of an address below MAXVA are its page number, and so tell pages apart (RISC-V Privileged Architecture, section 4.4). |
| `Sv39.VaOf` | lab2/kernel/riscv.h:353-363 | Each triple of indices is the triple of some address below MAXVA. |
| `Sv39.TranslateIsLookup` | lab2/kernel/vm.c:86-103 | Walking the three levels in memory computes the finite map that the tree of pages stands for. |
| `Sv39.SameTables` | lab2/kernel/vm.c:86-103 | Writes outside a table's own pages change none of its translations. |
| `Sv39.AddMid` | lab2/kernel/vm.c:95-100 | A zeroed page hung into an empty level-2 entry keeps the tree well formed and the map as it was. |
| `Sv39.AddLow` | lab2/kernel/vm.c:95-100 | So does one hung into an empty level-1 entry. |
| `Sv39.SetLeaf` | lab2/kernel/vm.c:143-165 | A store to a leaf entry changes the map at that page and nowhere else. |
| `AddressSpace.Walk` | lab2/kernel/vm.c:86-103 | walk(), allocating or not, leaves the map as it was, loses no page, and gives the one leaf entry of the address, having added exactly the table pages that were missing for it; it returns 0 only for an unmapped page, with memory out and one of them still missing if it allocates; it panics exactly at MAXVA or above. |
| `AddressSpace.MapPages` | lab2/kernel/vm.c:143-165 | A successful mappages() adds exactly its range of pages with their frames and flags, and exactly the table pages missing for it; a failed one has added exactly the first k; no memory and the panics (size 0, remap, MAXVA) are told apart. |
| `AddressSpace.TableSize` | lab2/kernel/vm.c:86-103 | A table has one page for its root and one for every upper entry in use. |
| `AddressSpace.SpansSize` | lab2/kernel/vm.c:86-165 | Mapping a range costs exactly the table pages that were missing for it. |
| `AddressSpace.ShortSize` | lab2/kernel/vm.c:95-97 | What a walk that ran out of memory has added is less than what was missing. |
| `AddressSpace.MissingAtMost` | lab2/kernel/vm.c:86-103 | At most two table pages are missing for each page. |
| `AddressSpace.Unmap` | lab2/kernel/vm.c:171-192 | uvmunmap() removes exactly its range and gives back exactly its frames; it does so without panic if and only if the address is aligned and every page of the range is a leaf. |
| `UserMemory.AddPage` | lab2/kernel/vm.c:226-249 | One round of uvmalloc() or uvmcopy(): the page is mapped to a new frame with the given contents; or, exactly if fewer pages are free than the frame and the missing table pages, the frame is given back and the map is as before. |
| `UserMemory.Uvmalloc` | lab2/kernel/vm.c:226-249 | Growth binds exactly the new pages, to zeroed frames of their own with the requested rights, and takes exactly its demand from the free pages; it is refused only if less than its demand is free, with the former translations back and no leaf frame lost; it panics only over a page that is in the way. |
| `UserMemory.UserPerm` | lab2/kernel/vm.c:241 | PTE_R or PTE_U or xperm sets exactly those bits, for any flags. |
| `UserMemory.Uvmdealloc` | lab2/kernel/vm.c:256-267 | Shrinking removes exactly the surplus pages and gives back exactly their frames; ok exactly if they are all there. |
| `UserMemory.Uvmcopy` | lab2/kernel/vm.c:306-333 | A copy gives the child the parent's rights and contents in frames of its own, and takes exactly its demand from the free pages; it fails only if less than that is free, with the child's map as it was and no leaf frame lost; the parent never changes. |
| `UserMemory.DemandAtMost` | lab2/kernel/vm.c:226-333 | The demand of n pages, the frames and the table pages missing for them, is between n and 3n pages. |
| `UserMemory.AsDemanded` | lab2/kernel/vm.c:226-249 | What a growth takes from the free pages is its demand. |
| `UserMemory.TooLittle` | lab2/kernel/vm.c:236-247 | If there is no room for one more page, there was less than the demand of the whole growth to begin with. |
| `UserMemory.Undone` | lab2/kernel/vm.c:238-246 | Unmapping what a growth has added restores the map and gives back every frame. |
| `UserMemory.GrownOwned` | lab2/kernel/vm.c:226-249 | The pages just added have frames of their own, so they can be unmapped and freed. |
| `UserMemory.OtherTable` | lab2/kernel/vm.c:226-333 | Growing one address space changes no translation of another. |
| `AddressSpaceLife.FreeWalk` | lab2/kernel/vm.c:272-287 | freewalk() gives back exactly the pages of the table below a page, and meets a leaf if and only if there is one. |
| `AddressSpaceLife.EntryIsLookup` | lab2/kernel/vm.c:272-287 | Each level-0 entry is the translation of one address. |
| `AddressSpaceLife.BareIsClear` | lab2/kernel/vm.c:272-287 | A table has no leaf if and only if it maps nothing. |
| `AddressSpaceLife.Uvmcreate` | lab2/kernel/vm.c:197-205 | uvmcreate() gives an empty map on one page, or 0 exactly if there is no page. |
| `AddressSpaceLife.Uvmfree` | lab2/kernel/vm.c:292-297 | uvmfree(sz) gives back the frames below sz and all the table's pages; it panics exactly if a page below sz is missing or one above is mapped. |
| `AddressSpaceLife.SpaceGrow` | lab2/kernel/vm.c:226-249 | A granted growth takes the memory of n pages to the memory of more pages, with nothing lost. |
| `AddressSpaceLife.SpaceShrink` | lab2/kernel/vm.c:256-267 | A shrink takes it to the memory of fewer pages. |
| `AddressSpaceLife.Resize` | lab2/kernel/vm.c:225-267 | Any one request leaves exactly the pages of the resulting size mapped, to frames of their own, with free, table and user pages together the same as at the start; it is refused exactly if it is a growth that demands more pages than are free. |
| `AddressSpaceLife.Live` | lab2/kernel/vm.c:197-297 | For every sequence of growth and shrink requests, creating an address space, serving them and freeing it meets no panic, answers each request as Resize does, and gives back every page. |
| `ExitWait.RunInv` | lab2/kernel/proc.c:376-531 | The invariant of locks, states, parents, sleepers and pids holds in every state of every run of fork, exit, reparent, wait, wakeup, kill and the scheduler. |
| `ExitWait.ReleaseWakes` | lab2/kernel/proc.c:487-531 | wait() may give up wait_lock in sleep() without missing an exit, because it has seen every child and holds its own lock. |
| `ExitWait.MarkWakes` | lab2/kernel/proc.c:443-482 | A process becomes a zombie while its parent is not asleep in wait(), or is already chosen to be woken. |
| `ExitWait.AdoptedWakes` | lab2/kernel/proc.c:427-437 | A zombie handed to a sleeping init is followed by the wakeup of init. |
| `ExitWait.NoLostWakeup` | lab2/kernel/proc.c:427-531 | If a process sleeps in wait() over a zombie child, wait_lock is taken and the wakeup that reaches it is under way; hence never while wait_lock is free. |
| `ExitWait.ZombieHasNoChild` | lab2/kernel/proc.c:427-482 | A zombie is nobody's parent. |
| `ExitWait.ParentLives` | lab2/kernel/proc.c:376-482 | Every process past fork()'s assignment of its parent, init aside, has a parent that lives. |
| `ExitWait.ReapedOnce` | lab2/kernel/proc.c:487-531 | No pid is reaped twice or without having exited, and a reaped pid is no process's any more. |
| `ExitWait.OwnStepMoves` | lab2/kernel/proc.c:376-676 | A step of a process's own takes it further in its code, while it runs or has just switched to the scheduler; kill, wakeups by others and the clock are none. |
| `ExitWait.OwnerSteps` | lab2/kernel/proc.c:376-676 | Whoever holds a process's lock can go on, by a step of its own, without any other lock. |
| `ExitWait.WaiterSteps` | lab2/kernel/proc.c:487-531 | The holder of wait_lock in wait() or fork() can go on by a step of its own once the one lock it wants is free. |
| `ExitWait.ExiterSteps` | lab2/kernel/proc.c:443-482 | So can its holder in exit() and reparent(). |
| `ExitWait.NoDeadlock` | lab2/kernel/proc.c:376-676 | In every reachable state the owner of any process's lock can go on by a step of its own, and the owner of wait_lock can too, or waits for a lock whose owner can. |
| `WaitAnswer.DecidesRightly` | lab2/kernel/proc.c:487-531 | In every run, at the end of its scan, wait() gives up exactly if its caller has no child or is killed, and goes to sleep exactly if it has one and is not. |
| `WaitAnswer.ReapsItsOwn` | lab2/kernel/proc.c:499-519 | What wait() reaps is a zombie, a child of its caller, and has exited; it reports that child's pid. |
| `WaitAnswer.MovesAlone` | lab2/kernel/proc.c:376-531 | Whoever holds wait_lock is moved on by its own steps alone. |
| `WaitAnswer.KillLasts` | lab2/kernel/proc.c:682-716 | In every run a process that is killed is awake then, and killed for as long as it has its pid. |
| `WaitAnswer.KilledLeaves` | lab2/kernel/proc.c:487-531 | So a process killed at any time of its life leaves wait() at the end of its scan instead of going to sleep. |
| `WaitAnswer.NobodyStuck` | lab2/kernel/proc.c:376-676 | In every run a process inside fork(), exit() or wait() has a step of its own, or can be run by the scheduler, or waits for a lock that is taken or for its children. |
| `Semaphore.RunInv` | lab2/kernel/proc.c:84-121 | The invariant of semaphores, sleepers and wakeup scans holds in every state of every run. |
| `Semaphore.ValueIsBalance` | lab2/kernel/proc.c:84-121 | A semaphore's value is its initial value plus the ups minus the downs, and never negative. |
| `Semaphore.NoSleepOnPositive` | lab2/kernel/proc.c:632-676 | Nobody sleeps on a positive semaphore except while its lock is held for a wakeup() that has yet to reach the sleeper. |
| `Semaphore.NobodyStuck` | lab2/kernel/proc.c:84-121 | In every run, whoever is in sem_up() or sem_down() sleeps on a semaphore that is 0, or it, or a process that holds a lock in its way, can take a step. |
| `PingPong.GameInv` | lab2/user/pingpong.c:20-46 | The invariant of the game holds in every state of every run, with any other processes running beside the two at other semaphores. |
| `PingPong.BystanderKeeps` | lab2/kernel/proc.c:84-121 | No step by or to another process, at another semaphore, changes where a player is, wakes it, or touches the counts of its semaphores. |
| `PingPong.OneToken` | lab2/user/pingpong.c:29-43 | The two semaphores carry one token, taken and given by the two processes in turn. |
| `PingPong.Turns` | lab2/user/pingpong.c:29-43 | The parent speaks only when an even number of words is out, the child only when an odd number is. |
| `PingPong.StrictAlternation` | lab2/user/pingpong.c:29-43 | Whatever other processes do beside them, what the two print alternates strictly, beginning with Ping; when both are through, n of each are out. |
| `PingPong.WeightBounds` | lab2/user/pingpong.c:29-43 | Each working step of the two processes takes from a weight that only they have. |
| `PingPong.WorkIsBounded` | lab2/user/pingpong.c:29-43 | In no run do the two make more than a fixed number of working steps, for n rounds among N processes, whatever the others do. |
| `PingPong.NeverStuck` | lab2/user/pingpong.c:29-43 | As long as the game is not over, one of the two can go on, or its wakeup() waits for the lock of another process that is in sleep() and can go on to give it up: no deadlock and no lost wakeup. |
| `Bits.FlipIsMask` | lab2/kernel/fs.c:76-104 | Setting a clear bit with the mask, or clearing a set one, is adding or subtracting the mask. |
| `Bits.FlipBits` | lab2/kernel/fs.c:76-104 | It inverts that bit of the byte and no other. |
| `BlockMap.WordOfPut` | lab2/kernel/fs.c:405-414 | A block number stored at an index of an indirect block is read back there, and the other indices keep theirs. |
| `BlockMap.AllocKeeps` | lab2/kernel/fs.c:66-88 | Marking a free block and zeroing it keeps all ownership, changes no other bit, and the block is above the metadata and nobody's. |
| `BlockMap.LinkDirect` | lab2/kernel/fs.c:387-403 | An owned-by-nobody block put into an empty place of an inode keeps every block in at most one place. |
| `BlockMap.LinkListed` | lab2/kernel/fs.c:404-414 | The same for an empty place in an indirect block. |
| `BlockMap.CutPlace` | lab2/kernel/fs.c:431-450 | Setting an address to 0 takes away the places behind it, whose blocks are then nobody's. |
| `BlockMap.FileSystem.ScanMap` | lab2/kernel/fs.c:74-84 | The inner loop of balloc() stops at the first clear bit. |
| `BlockMap.FileSystem.MarkUsed` | lab2/kernel/fs.c:77-80 | The byte operation sets the bit of one block and no other. |
| `BlockMap.FileSystem.Balloc` | lab2/kernel/fs.c:66-88 | balloc() gives the lowest free block, marked and zeroed, and 0 exactly when none is free. |
| `BlockMap.FileSystem.Bfree` | lab2/kernel/fs.c:92-105 | bfree() clears one bit, and panics exactly if it is clear already. |
| `BlockMap.FileSystem.LinkNew` | lab2/kernel/fs.c:387-403 | A new direct or indirect block, if there is one, becomes the inode's and nobody else's. |
| `BlockMap.FileSystem.ListNew` | lab2/kernel/fs.c:404-414 | The same for a block listed in the indirect block. |
| `BlockMap.FileSystem.Bmap` | lab2/kernel/fs.c:383-421 | bmap() gives the file's block, allocating a zeroed one and its indirect block if needed, keeps everything else, gives 0 only on a full disk, and panics exactly beyond MAXFILE. |
| `BlockMap.FileSystem.FreeDirect` | lab2/kernel/fs.c:431-436 | The first loop of itrunc() frees the direct blocks and no others. |
| `BlockMap.FileSystem.FreeListed` | lab2/kernel/fs.c:438-449 | The second frees the listed blocks and the indirect block and no others. |
| `BlockMap.FileSystem.Itrunc` | lab2/kernel/fs.c:426-453 | itrunc() clears the bits of exactly the blocks the inode owned, without bfree()'s panic, empties the inode, and keeps every other inode and block. |
| `BlockMap.TruncatedOwns` | lab2/kernel/fs.c:426-453 | The blocks that itrunc()'s two loops free are together the blocks that the inode owned. |
| `FileData.Readi` | lab2/kernel/fs.c:472-496 | readi() gives exactly the slice of the file's bytes that is asked for and below the size, over direct and indirect blocks, and changes nothing: it never allocates. |
| `FileData.Writei` | lab2/kernel/fs.c:506-539 | writei() splices exactly the first tot bytes into the file at off, sets the size to the larger of size and off+tot, changes no other file, returns -1 exactly for a bad offset, and stops short only on a full disk, before a block that the file does not have. |
| `FileData.ReadStep` | lab2/kernel/fs.c:482-493 | One round of readi() copies the file's bytes from off on. |
| `FileData.WriteStep` | lab2/kernel/fs.c:515-528 | One round of writei() changes those bytes of that file and nothing else. |
| `FileData.BmapKeepsBytes` | lab2/kernel/fs.c:383-421 | bmap() changes no byte of any file: a new block is read as the zeros that were there before. |
| `FileData.BlocksApart` | lab2/kernel/fs.c:383-421 | Two files, or two places of one file, never share a block. |
| `FileData.Resized` | lab2/kernel/fs.c:530-538 | The new size makes the file the old one with the bytes spliced in, with every block below the size mapped. |
| `FileData.TruncatedFile` | lab2/kernel/fs.c:426-453 | itrunc() makes one file empty and leaves every other file's bytes. |
| `Directory.NameCmp` | lab2/kernel/fs.c:544-547 | namecmp() compares names cut to 14 bytes. |
| `Directory.StrNCpy` | lab2/kernel/fs.c:601 | strncpy() stores a name that reads back as the name cut to 14 bytes. |
| `Directory.DirLookup` | lab2/kernel/fs.c:552-575 | dirlookup() gives the first entry that binds the name, also where a name is bound twice, and nothing exactly if none does; where no name is bound twice that is the directory's map.  It panics for what is no directory. |
| `Directory.FreeSlot` | lab2/kernel/fs.c:592-599 | The loop of dirlink() finds the first entry without inode number, or the end. |
| `Directory.SplicedEntry` | lab2/kernel/fs.c:601-604 | Writing one entry changes that entry and no other. |
| `Directory.LinkedMap` | lab2/kernel/fs.c:580-606 | An entry written over a zeroed one, or appended, adds exactly one binding to the map, of the low 16 bits of the inode number. |
| `Directory.WriteEntry` | lab2/kernel/fs.c:601-605 | The entry is written whole or not at all; not at all only at the end of a directory on a full disk, or beyond the largest file. |
| `Directory.DirLink` | lab2/kernel/fs.c:580-606 | dirlink() refuses a name that is bound, and otherwise adds exactly that binding, in the first zeroed entry or at the end, or fails with the directory unchanged because there is no zeroed entry and the disk is full, or the directory is as large as a file can be; no other file changes. |
| `Directory.WholeEntry` | lab2/kernel/fs.c:506-539 | A write that ends at a block boundary holds whole entries. |
| `Paths.SkipElem` | lab2/kernel/fs.c:623-645 | skipelem() gives the first nonempty component, cut to 14 bytes, and the rest, which is empty exactly at the last one; 0 exactly if there is none. |
| `Paths.CutElement` | lab2/kernel/fs.c:634-641 | The name buffer reads as the component cut to 14 bytes. |
| `Paths.ResolveConcat` | lab2/kernel/fs.c:652-684 | Looking up one list of components after another is looking up both together. |
| `Paths.OneStep` | lab2/kernel/fs.c:661-677 | One round of namex() looks up one component in the inode reached so far. |
| `Paths.NoStep` | lab2/kernel/fs.c:663-676 | A component that is not there, or not in a directory, makes the whole look-up fail. |
| `Paths.NameX` | lab2/kernel/fs.c:652-684 | namex() is the fold of look-ups over the path's components, from the root or the current directory; with nameiparent, over all but the last, whose name it leaves. |
| `KrAllocator.Heap.constructor` | lab2/user/umalloc.c:21-22 | Before the first call there is no block. |
| `KrAllocator.Heap.FindPlace` | lab2/user/umalloc.c:30-32 | free()'s search ends, at the highest block of the ring, static header included, that is below the freed one; that is the wrap if the freed one is above them all. |
| `KrAllocator.Heap.Free` | lab2/user/umalloc.c:25-44 | free() makes one live block free, joined with any free neighbour, and keeps the ring circular and ordered with no two free blocks adjacent, and free and live blocks disjoint, adding up to what sbrk() gave. |
| `KrAllocator.Heap.MoreCore` | lab2/user/umalloc.c:47-61 | morecore() fails exactly if sbrk() refuses, with nothing changed, and otherwise adds the units it asked for to the free blocks, at least those needed; sbrk() is asked for what is meant exactly if the byte count fits in an int. |
| `KrAllocator.Heap.FirstCall` | lab2/user/umalloc.c:71-74 | The first call makes the ring of the static header alone. |
| `KrAllocator.Heap.Grow` | lab2/user/umalloc.c:85-87 | After morecore() the search finds a block large enough before it is back at freep, so it ends. |
| `KrAllocator.Heap.Hand` | lab2/user/umalloc.c:76-84 | The block found, or its tail, becomes live; the rest stays free. |
| `KrAllocator.Heap.Malloc` | lab2/user/umalloc.c:64-90 | malloc() ends.  If a free block fits it returns a block of exactly the units needed that was not live and overlaps no other block, without asking sbrk() for any; if none fits, 0 exactly if sbrk() refuses, and otherwise such a block, or, if and only if 2^27 units or more are needed, memory that it did not get. |
| `KrAllocator.FitsAhead` | lab2/user/umalloc.c:74-88 | If some free block fits, the search from freep comes to one before it is round. |
| `KrAllocator.FirstRequest` | lab2/user/umalloc.c:46-90 | On a fresh heap, if sbrk() does not refuse, that happens exactly for requests of 2^31 - 31 bytes or more, and smaller ones are granted. |
| `KrAllocator.Take` | lab2/user/umalloc.c:76-79 | Taking a block off the ring keeps all of the invariant. |
| `KrAllocator.Put` | lab2/user/umalloc.c:33-43 | Putting one on between two that it does not touch does too. |
| `KrAllocator.Tests` | lab2/user/umalloc.c:30-32 | The two tests of free()'s loop hold exactly at the place of the freed block. |
| `KrAllocator.JoinLive` | lab2/user/umalloc.c:33-36 | Joining with the block above keeps blocks disjoint and the units the same. |
| `KrAllocator.JoinFree` | lab2/user/umalloc.c:38-41 | So does joining with the block below. |
| `KrAllocator.Split` | lab2/user/umalloc.c:80-84 | Cutting off the tail of a free block gives two disjoint blocks with the same units. |
| `KrAllocator.Grant` | lab2/user/umalloc.c:54-60 | What sbrk() gives is one more block, of units that were in none. |
| `KrAllocator.BlocksApart` | lab2/user/umalloc.c:25-90 | Any two blocks, free or live, are disjoint. |
| `KrAllocator.RoomAfter` | lab2/user/umalloc.c:75-88 | A block too small is passed with the one that fits still ahead. |
| `KrAllocator.RoomSomewhere` | lab2/user/umalloc.c:54-61 | After morecore() a block that fits is ahead of freep on the ring. |
| `KrAllocator.SbrkAsksExactly` | lab2/user/umalloc.c:54 | The byte count given to sbrk() is right if and only if fewer than 2^27 units are asked for. |
| `KrAllocator.SbrkAsksForNothing` | lab2/user/umalloc.c:54 | It is 0 if and only if the units are a multiple of 2^28. |
| `VirtioDescriptors.Descriptors.constructor` | lab2/kernel/virtio_disk.c:130-136 | At the start all descriptors are free. |
| `VirtioDescriptors.Descriptors.AllocDesc` | lab2/kernel/virtio_disk.c:157-166 | alloc_desc() takes the lowest free descriptor, or fails exactly if there is none. |
| `VirtioDescriptors.Descriptors.FreeDesc` | lab2/kernel/virtio_disk.c:170-182 | free_desc() frees and clears one descriptor; it panics exactly for one out of range or free already. |
| `VirtioDescriptors.Descriptors.FreeChain` | lab2/kernel/virtio_disk.c:186-197 | On any links free_chain() ends, and frees and clears exactly the descriptors in use that it meets along them, up to one that is not chained on, or up to its panic at a link out of the table, to a free descriptor, or back. |
| `VirtioDescriptors.ChainIsPath` | lab2/kernel/virtio_disk.c:186-197 | For a request's chain these are its three descriptors, without panic. |
| `VirtioDescriptors.Descriptors.Alloc3` | lab2/kernel/virtio_disk.c:201-214 | alloc3_desc() takes the three lowest free descriptors, or fails with the free ones as before because fewer than three were. |
| `VirtioDescriptors.Descriptors.GiveBack` | lab2/kernel/virtio_disk.c:206-211 | The loop that gives back a partial allocation frees exactly what was taken. |
| `VirtioProtocol.RunInv` | lab2/kernel/virtio_disk.c:156-327 | The invariant of descriptors, rings, indices and drivers holds in every state of every interleaving of drivers, device and interrupts. |
| `VirtioProtocol.ChainsInFlight` | lab2/kernel/virtio_disk.c:216-292 | Chains in flight are triples of linked descriptors that are in use, and disjoint. |
| `VirtioProtocol.ThreeEach` | lab2/kernel/virtio_disk.c:201-214 | Distinct heads have three descriptors each, none shared. |
| `VirtioProtocol.AtMostThird` | lab2/kernel/virtio_disk.c:201-214 | So distinct heads in flight are at most a third of the descriptors. |
| `VirtioProtocol.ThirdInFlight` | lab2/kernel/virtio_disk.c:216-292 | At most NUM/3 chains are in flight in any state of any run. |
| `VirtioProtocol.ModSum` | lab2/kernel/virtio_disk.c:271-276 | Taking a 16-bit index that has wrapped modulo NUM gives the slot it would have without the wrap, as NUM divides 2^16. |
| `VirtioProtocol.SlotsApart` | lab2/kernel/virtio_disk.c:271-276 | Indices less than NUM apart name different slots. |
| `VirtioProtocol.AvailSlotFree` | lab2/kernel/virtio_disk.c:271-276 | The slot about to be written holds no head that the device has yet to take. |
| `VirtioProtocol.AvailRingSafe` | lab2/kernel/virtio_disk.c:271-280 | No avail entry is overwritten before the device has taken it, in any run, and the device's comparison of the 16-bit indices says rightly whether there is one (Virtio 1.1, section 2.6). |
| `VirtioProtocol.CompletionReachesSubmitter` | lab2/kernel/virtio_disk.c:295-327 | Each used entry is the head of a driver that waits, with status 0, and info points at the buffer that this driver submitted, which is what the interrupt clears. |
| `VirtioProtocol.NoFreePanic` | lab2/kernel/virtio_disk.c:186-197 | Each chain is freed once, descriptor by descriptor, with no panic. |
| `VirtioProgress.TestsRightly` | lab2/kernel/virtio_disk.c:283-286 | In every run a driver that tests b->disk goes on exactly if its chain has come back, and otherwise sleeps and gives up the lock. |
| `VirtioProgress.GoesOn` | lab2/kernel/virtio_disk.c:216-327 | With three descriptors or more, in every state of every run in which some request is not done, a driver, the device or the interrupt handler has a step that leaves less to do. |
| `VirtioProgress.Completes` | lab2/kernel/virtio_disk.c:216-327 | So from every state every request can be brought to its end, in a bounded number of steps and without any new one: no deadlock among drivers, device and interrupts. |
| `FatTable.Walk` | lab4/esqueleto/fat_table.c:17-28 | Following entries from a cluster gives clusters of the volume or the end mark. |
| `FatTable.WalkCloses` | lab4/esqueleto/fat_table.c:17-28 | On any table, a walk that ends or returns to where it was has been everywhere it ever goes. |
| `FatTable.Table.constructor` | lab4/esqueleto/fat_volume.c:284-288 | The table in memory starts as a copy of the one on the disk. |
| `FatTable.Table.SetNext` | lab4/esqueleto/fat_table.c:79-93 | One entry changes, in memory and on the disk alike. |
| `FatTable.Table.GetNext` | lab4/esqueleto/fat_table.c:17-28 | The entry, or the end mark for anything that is no cluster number. |
| `FatTable.Table.NextFree` | lab4/esqueleto/fat_table.c:52-68 | The lowest free cluster, if there is one; otherwise the end mark, or, exactly if no entry of the table is free, a scan that runs past the table. |
| `FatTable.Table.Seek` | lab4/esqueleto/fat_table.c:95-107 | The cluster that k links lead to; it fails, with 0, exactly if the end was reached with links still to follow. |
| `FatTable.Table.FreeFrom` | lab4/esqueleto/fat_fuse_ops.c:315-322 | On any table, cyclic ones included, the freeing loop ends, and frees exactly the clusters that the walk reaches. |
| `FatTable.ComesBack` | lab4/esqueleto/fat_fuse_ops.c:317-322 | On a cycle the loop stops at the first entry that it has freed itself. |
| `FatFiles.WalkAlong` | lab4/esqueleto/fat_table.c:95-107 | The table's walk follows a chain from any of its clusters. |
| `FatFiles.FreesTail` | lab4/esqueleto/fat_file.c:519-524 | What is freed from a cluster of a chain on is exactly the rest of the chain. |
| `FatFiles.StartsChain` | lab4/esqueleto/fat_file.c:189-202 | Ending a free cluster makes a new chain that no other chain meets. |
| `FatFiles.CutKeeps` | lab4/esqueleto/fat_file.c:510-524 | A cut leaves a prefix of the chain that is a chain, and every other chain as it was: acyclic, ended, disjoint. |
| `FatFiles.CutLoses` | lab4/esqueleto/fat_file.c:510-524 | A cut leaves no cluster in use that no file has. |
| `FatFiles.GoneKeeps` | lab4/esqueleto/fat_fuse_ops.c:360-367 | Freeing a whole chain leaves the others chains and disjoint, and no cluster of it in use. |
| `FatFiles.ClustersOf` | lab4/esqueleto/fat_table.c:47-50 | The clusters for a size, at least one, from the quotient and remainder. |
| `FatFiles.CutCount` | lab4/esqueleto/fat_file.c:487-500 | A cut keeps (offset >> order) + 1 clusters, enough for the new size; one more than that needs exactly at a nonzero multiple of the cluster size. |
| `FatFiles.CutContent` | lab4/esqueleto/fat_file.c:487-530 | What is left of the file after a cut reads as before. |
| `FatFiles.Volume.Init` | lab4/esqueleto/fat_file.c:189-202 | Creation takes the lowest free cluster, which was on no chain, as a chain of its own; on a full volume, and only there, it reads outside the table and never comes to its own test for a cluster in use. |
| `FatFiles.Volume.TakeStart` | lab4/esqueleto/fat_file.c:190-202 | A start cluster in use is refused, and nothing changes. |
| `FatFiles.Volume.Truncate` | lab4/esqueleto/fat_file.c:487-530 | It acts exactly if the offset is within the size, takes fewer clusters, and is not past the chain; then the file keeps a prefix of (offset >> order) + 1 clusters, the rest is freed, and no other entry changes.  If such an offset is just at the chain's end, and only then, it goes on to the entry of the end mark, outside the table. |
| `FatFiles.CutOffTableHappens` | lab4/esqueleto/fat_file.c:504-515 | A file on which it does so: one cluster, a size of one cluster and a byte, an offset of one cluster. |
| `FatFiles.Volume.Unlink` | lab4/esqueleto/fat_fuse_ops.c:315-324 | The file's whole chain is freed, no other entry changes, and no cluster is lost. |
| `FatFiles.Volume.Pread` | lab4/esqueleto/fat_file.c:444-485 | The bytes read are the file's from the offset on, up to the size asked for, the file's size, and the end of the chain. |
| `FatFiles.PlacesApart` | lab4/esqueleto/fat_table.c:70-73 | Two clusters have disjoint stretches of the data region. |
| `FatFiles.OtherContent` | lab4/esqueleto/fat_file.c:444-485 | A file reads the same whatever is written to a cluster that is not on its chain. |
| `FatFiles.AllReadable` | lab4/esqueleto/fat_file.c:444-485 | Every byte below the size can be read if and only if the chain has the clusters for it. |
| `Grep.ParseSpells` | lab2/user/grep.c:84-95 | Every pattern string is taken apart into items that spell it, with no character left alone that a star would bind and no final $ taken for a character. |
| `Grep.SpellingParses` | lab2/user/grep.c:84-95 | It is taken apart in that way only: what such items spell is parsed as those items. |
| `Grep.ItemFirst` | lab2/user/grep.c:84-105 | To match an item and then a pattern is to match the item on some prefix and the pattern on the rest. |
| `Grep.MatchHere` | lab2/user/grep.c:84-95 | matchhere() ends, and holds if and only if some prefix of the text, all of it under a final $, is in the language of the pattern. |
| `Grep.MatchStar` | lab2/user/grep.c:98-105 | matchstar() holds if and only if some run of the character, or of any under a dot, is followed by a match of the rest. |
| `Grep.Match` | lab2/user/grep.c:71-81 | match() holds if and only if the pattern matches at the start, for ^, or at some place of the text, its end included. |
| `Grep.LineEnd` | lab2/user/grep.c:21 | strchr() finds the first newline before any NUL. |
| `Grep.OutputIsSelected` | lab2/user/grep.c:10-34 | On lines that fit the buffer, the output is the lines that match, in order. |
| `Grep.LineInBuffer` | lab2/user/grep.c:21-28 | What is in the buffer decides about a line that ends in it. |
| `Grep.LinePrinted` | lab2/user/grep.c:21-28 | What one such line adds to the output. |
| `Grep.NoMore` | lab2/user/grep.c:17 | When read() gives nothing, at the end of the input or for a full buffer, nothing of what is left is to be printed. |
| `Grep.Read` | lab2/user/grep.c:17 | read() fills in some of the input behind what is in the buffer, with room for the NUL. |
| `Grep.FindLine` | lab2/user/grep.c:21 | The search for the end of a line, in the buffer. |
| `Grep.PrintLine` | lab2/user/grep.c:21-28 | The line, closed by a NUL for the match, is printed with its newline back exactly if it matches; what is behind it stays. |
| `Grep.PrintLines` | lab2/user/grep.c:20-28 | The inner loop prints the matching ones of the lines that end in the buffer, and stops where the rest starts. |
| `Grep.MoveDown` | lab2/user/grep.c:29-32 | memmove() takes the rest to the front. |
| `Grep.GrepInput` | lab2/user/grep.c:10-34 | However read() cuts the input up, the output is the same: the matching lines before the first that is unclosed, too long for the buffer, or has a NUL. |
| `ShellLexer.TokenIsWord` | lab2/user/sh.c:267-309 | The token of a word is the whole word, and no word is passed over. |
| `ShellLexer.LexOrder` | lab2/user/sh.c:267-309 | Tokens come in order and do not overlap. |
| `ShellLexer.LexWords` | lab2/user/sh.c:267-309 | The word tokens of a line are exactly its maximal stretches of plain characters. |
| `ShellGrammar.ItemsSound` | lab2/user/sh.c:417-447 | What parseexec()'s loop reads is words and redirections, and the command has its words as arguments in order and its redirections around it. |
| `ShellGrammar.ItemsComplete` | lab2/user/sh.c:417-447 | It reads every such list of fewer than MAXARGS words. |
| `ShellGrammar.RedirsSound` | lab2/user/sh.c:376-398 | What parseredirs() reads is redirections, each with its file, wrapped round the command in order; what the modes and descriptors do is ShellRedirects.RedirectedOpens. |
| `ShellGrammar.RedirsComplete` | lab2/user/sh.c:376-398 | It reads all of them. |
| `ShellGrammar.ExecSound` | lab2/user/sh.c:401-447 | What parseexec() and parseblock() read is a command of the grammar. |
| `ShellGrammar.ExecComplete` | lab2/user/sh.c:401-447 | They read every one. |
| `ShellGrammar.PipeSound` | lab2/user/sh.c:363-373 | What parsepipe() reads is a pipeline of the grammar. |
| `ShellGrammar.PipeComplete` | lab2/user/sh.c:363-373 | It reads every one. |
| `ShellGrammar.LineSound` | lab2/user/sh.c:346-360 | What parseline() reads is a line of the grammar. |
| `ShellGrammar.LineComplete` | lab2/user/sh.c:346-360 | It reads every one. |
| `ShellGrammar.ParsesTheGrammar` | lab2/user/sh.c:329-447 | The parser gives a command for a list of tokens if and only if the grammar gives the list that command; otherwise it panics. |
| `ShellGrammar.LineWords` | lab2/user/sh.c:329-447 | Every word of a line is in its command exactly once, as an argument or a file, and nothing else is. |
| `ShellParser.Parser.Peek` | lab2/user/sh.c:312-321 | peek() tells whether the next token starts with one of the characters, and takes none. |
| `ShellParser.Parser.GetToken` | lab2/user/sh.c:267-309 | gettoken() takes the next token and gives its kind and its stretch of the line; 0 exactly at the end. |
| `ShellParser.Parser.ParseRedirs` | lab2/user/sh.c:376-398 | parseredirs() over the buffer does with the cursor what the parser does with tokens. |
| `ShellParser.Parser.ParseBlock` | lab2/user/sh.c:401-414 | So does parseblock(). |
| `ShellParser.Parser.ParseExec` | lab2/user/sh.c:417-447 | So does parseexec(). |
| `ShellParser.Parser.ParsePipe` | lab2/user/sh.c:363-373 | So does parsepipe(). |
| `ShellParser.Parser.ParseLine` | lab2/user/sh.c:346-360 | So does parseline(); the remaining tokens are the measure by which the five end. |
| `ShellParser.Parser.NulTerminate` | lab2/user/sh.c:451-494 | nulterminate() writes NULs at the ends of the command's words and nowhere else. |
| `ShellParser.CommandWords` | lab2/user/sh.c:329-447 | The words of a parsed command are exactly the words of the line. |
| `ShellParser.WordsIntact` | lab2/user/sh.c:451-494 | No NUL falls inside a word: each, read as a C string, is its stretch of the line. |
| `ShellParser.ParseCmd` | lab2/user/sh.c:329-343 | parsecmd() ends on every line, with the grammar's command or a panic; after it every argument and file name, read as a C string, equals the token recorded for it. |
| `ShellRedirects.RedirectedOpens` | lab2/user/sh.c:83-91 | The mode and descriptor that the parser puts into a redirection, given to close() and open() bit by bit, make the file after < standard input, to be read only and never created or changed, and the file after > or >> standard output, to be written only, created if missing, and emptied by > alone. |
| `ShellRedirects.WrappedOpens` | lab2/user/sh.c:83-91 | Of several redirections the last one written is opened first, and the command runs after all of them. |
| `ShellRedirects.RedirsOpen` | lab2/kernel/sysfile.c:305-370 | A list of redirections can be opened if and only if each file to be read is there or is created by a later one; then descriptors 0 and 1 are the foremost files read and written, the other descriptors are as before, files named after > are empty, those after >> are there with their contents, and no other file has changed. |
| `ShellRedirects.CommandOpens` | lab2/user/sh.c:376-398 | So it is for any command or block with redirections. |
| `ShellRedirects.ParsedOpens` | lab2/user/sh.c:329-447 | A line of words and redirections, parsed and run, opens its files as its tokens say. |
| `ShellRedirects.OutputIsOver` | lab2/kernel/sysfile.c:353-361 | Output in any pieces through such a descriptor lands from the start of the file on. |
| `ShellRedirects.AppendsIff` | lab2/user/sh.c:392-394 | After >> the output is appended if and only if the file was empty or nothing is written. |

## Left out

- lab3's copies of the lab2 sources, and lab1; the sleep and wakeup results are about lab2's `proc.c` only.
- Growth in `fat_file_pwrite`, directory entries and their times, the file tree, and FUSE: the code's growth loop does not advance to the cluster it adds.
- The file system's bulk callers (`create`, `sys_*`, exec), inode allocation, inode locks and reference counts, `iupdate` and on-disk inodes: the inode in memory is the truth.
- The kernel's own page table, trampoline and trapframe mappings, `copyin`, `copyout`, `copyinstr`, `walkaddr`, `uvmclear` and `uvmfirst`.
- Copies to and from user memory in `readi` and `writei`, which can fail midway: kernel sources and destinations only.
- `sem_open` and `sem_close`: semaphores stay open during the runs considered, as the test of `open` is made without the lock.
- Pipes, console, traps, boot, memory fences and device registers; memory is sequentially consistent.
- Disk errors in the log, virtio (status is 0) and FAT; blocks are written whole, one at a time.
- Sleep-locks of buffers, except in `LogProtocol`, where a holder is one of the steps' actors.
- What the callers of brelse and bunpin owe is required of them: a reference to drop.
- 64-bit wrap of `va + size` and the int page count in `uvmdealloc`: addresses and counts are unbounded; `AddressSpaceLife.Live` takes sizes up to MAXVA.
- History that no C variable holds: `groups` and `current` in `LogProtocol`, `exited` and `reaped` in `ExitWait`, `ups` and `downs` in `Semaphore`, `own`, `pending` and `unseen` in `VirtioProtocol`, ghost rings and chains in the classes.
- Concurrency inside the inode layer: its methods run alone, over blocks rather than buffers; `LogProtocol.ReadsLastWrite` is why a block read is the block last written.
- Exit statuses and their copying out by wait (its failure is a step of `ExitWait`), the user memory of processes in `ExitWait`, and of a process slot all but state, parent, channel, killed flag, pid and lock.
- The cache has at most one buffer for a block of a device other than 0; of device 0 nothing is said, as every buffer starts as block 0 of device 0.
- Descriptor and request addresses, the request header's contents, the sectors and the data transferred, and several disks.
- VirtioProtocol.CompletionReachesSubmitter: the data that the device moves is not modelled, only its status and whose buffer it is.
- Splitting a start cluster over two 16-bit fields of a directory entry and joining it again.
- The heap's user data, and headers' alignment: an address is a number of header-sized units.
- runcmd but for its redirections, and the shell's built-in cd; execcmd nodes are values that arguments are added to through their redirections, as the alias in `parseexec` does.
- The exit statuses and file arguments of grep's `main`.
- RedoLog.Log.BeginOp: one pass of the loop; sleeping and waking are steps of `LogProtocol`.
- RedoLog.Log.Commit: when no buffer is free (the panic in bget) it says which prefix of the commit's writes was made, and nothing about the log in memory.
- ExitWait.RunInv: a wakeup's look at one process is one step, with that process's lock; the search of allocproc for a slot is one step.
- Semaphore.RunInv: as for ExitWait, a wakeup's look at one process is one step.
- UserMemory.Uvmalloc: after a panic (a page in the way) it promises nothing about memory.
- UserMemory.Uvmcopy: after a panic it promises nothing about memory.
- Directory.DirLookup: a directory whose size is no multiple of an entry's may make it panic, and sizes are such that offsets fit 32 bits.
- Directory.DirLink: a block must hold whole directory entries, as BSIZE does; else an entry could be written in part.
- KrAllocator.Heap.Malloc: nothing is promised about the heap after sbrk has been asked for too little.
- KrAllocator.Heap.Free: for a pointer that malloc returned and that is not free already, as the C library's contract has it.
- FatFiles.Volume.Truncate: the directory entry on the disk is not modelled, only the size in memory.
- FatFiles.Volume.Unlink: the removal of the directory entry is not modelled.
- FatTable.Table.SetNext: without I/O errors.
- PingPong.StrictAlternation: the two players are not killed, and nobody else uses their semaphores; other processes' locks and sleeps at addresses that are no semaphore are single steps.
- FatTable.Table.NextFree: a table has at most as many entries as the number of the end mark, so the end mark has none.
- ShellRedirects.RedirsOpen: open of plain files that can be created, named by their text; directories, devices and full tables are not modelled.
- VirtioProgress.Completes: the steps are there to be taken; that the scheduler and the device take them is not claimed, and a sleeper in virtio_disk_rw may wake at any time, so its wakeup calls are not modelled.
- LogProgress.GetsBuffer: that others release their buffers in the end is up to them; a process that holds one is at `LogProgress.HolderReleases`.
- KrAllocator.Heap.MoreCore: what sbrk is to answer is a parameter, asked for at most once in a malloc.
