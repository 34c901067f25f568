# Proofs about the xv6 kernel, its tools and a small collector

This project models the hard parts of an xv6 teaching kernel for RISC-V, of some of its user programs and
of its `mkfs`, and of a small mark-and-sweep collector in C. It proves what they are for.

Code that changes state step by step is a class or a method with loops, and each method is proved against a
function of the old state. Code that runs concurrently is a state machine. Its steps are the stretches
between two releases of a lock, and everything is proved for all runs, with any number of processes and in
any interleaving.

- **Crash recovery.** `RedoLog` is the write-ahead log as a sequence of disk writes that a crash may cut
  anywhere. `BufferCache` is the buffer cache with its linked list. `FsLog` is `log.c` on that cache; its
  disk writes are proved to be prefixes of those of `RedoLog`. `LogSpace` is how much operations may log.
  `LogProtocol` puts processes, cache, commit, crashes and recovery together, and proves that they refine a
  disk that changes by whole transactions only.
- **Files.** `FsBytes` and `FsImage` are the disk image: bitmap, inodes, indirect blocks, and who owns which
  block. `FsFiles` is allocation, `bmap()`, `readi()`, `writei()`, `filewrite()` and `itrunc()`. `Mkfs` builds
  an image with the same invariants. `WriteBudget` puts writes to files and the log together.
- **Processes.** `SleepLock` is sleep locks over `sleep()` and `wakeup()`. `ExitWait` is `fork()`, `exit()`,
  `wait()`, `kill()` and reparenting.
- **Memory.** `PageMap` and `Vm` are the page allocator and the three-level page tables; `PageCount` accounts
  for every page.
- **Devices and pipes.** `Virtio` is the disk driver with its device. `Pipe` is the ring buffer of pipes.
- **Programs.** `Malloc` is the user-level allocator, `Grep` the regular expressions, `ParkMiller` the random
  numbers, `ShellGrammar` and `ShellParser` the shell's parser. `MarkSweep` is the collector.

Three properties that one might expect are false of the code, and are replaced by exact conditions:

- `param.h` says that an operation writes at most MAXOPBLOCKS blocks. An operation that does write that many
  can run into the panic of `log_write()`, because the log has one data block less than `begin_op()` counts
  on. The panic is unreachable if and only if operations stay below that number
  (`LogSpace.PanicUnreachableIff`). Writes to files stay below it (`WriteBudget.WritersNeverPanic`).
- `mkfs` rounds the size of the root directory up to the next multiple of the block size, also when it is
  one. The directory then has a block that does not exist. This happens if and only if the entries fill
  whole blocks (`Mkfs.Image.Build`), and `Mkfs.ImageWithHole` is an image on which it does.
- A read from a pipe does not always hand over what it takes out: the byte whose copy to the user fails is
  gone. `Pipe.Buffer.Read` says exactly when, and `Pipe.ByteLost` loses one.

## Model

| member | source | states |
|---|---|---|
| `RedoLog.CrashAtomicity` | operating_system_engineering/labs/kernel/log.c:193-203 | commit() cut short after any number of disk writes, then any number of recoveries each cut short anywhere: a completed recovery gives the home blocks of before if and only if the header of the transaction had not been written, and otherwise the whole transaction; nothing in between |
| `RedoLog.CrashInCommit` | operating_system_engineering/labs/kernel/log.c:194-203 | the same for one crash: the last log block still recovers to the old contents, the header write to the new ones |
| `RedoLog.CommitDone` | operating_system_engineering/labs/kernel/log.c:194-203 | a commit() that ends leaves exactly the blocks of the transaction changed and a header with n = 0 |
| `RedoLog.BeforeCommitPoint` | operating_system_engineering/labs/kernel/log.c:179-191 | until the header write, home blocks and header are untouched and log block i holds block i of the transaction |
| `RedoLog.AfterCommitPoint` | operating_system_engineering/labs/kernel/log.c:69-83 | from the header write on, header and log keep the whole transaction while only its own home blocks change |
| `RedoLog.CrashInRecovery` | operating_system_engineering/labs/kernel/log.c:117-123 | a recovery that stops after any prefix of its writes leaves a disk that recovers to the same home blocks |
| `RedoLog.CrashesInRecovery` | operating_system_engineering/labs/kernel/log.c:117-123 | the same for any number of interrupted recoveries in a row |
| `RedoLog.RecoveredHome` | operating_system_engineering/labs/kernel/log.c:117-123 | recovery puts every logged block where the header says, changes no other home block, and empties the log |
| `BufferCache.Bcache.constructor` | operating_system_engineering/labs/kernel/bio.c:37-53 | after binit() the doubly linked list holds every buffer exactly once, no buffer is in use, and the cache shows the disk |
| `BufferCache.AllInOrder` | operating_system_engineering/labs/kernel/bio.c:25-34 | in every valid state the list through prev and next visits each of the buffers exactly once |
| `BufferCache.Bcache.FindCached` | operating_system_engineering/labs/kernel/bio.c:63-74 | the first loop finds the buffer of a block if and only if the block is cached; there is at most one |
| `BufferCache.Bcache.FindUnused` | operating_system_engineering/labs/kernel/bio.c:76-86 | the second loop finds the least recently used buffer without references, and fails only if every buffer is referenced |
| `BufferCache.Bcache.Bget` | operating_system_engineering/labs/kernel/bio.c:58-89 | a block never gets two buffers; no referenced buffer is recycled; the panic happens if and only if the block is not cached and every buffer is referenced; a recycled buffer is the least recently used free one |
| `BufferCache.Bcache.Bread` | operating_system_engineering/labs/kernel/bio.c:92-103 | the data handed out is the current contents of the block, cached or not, and nothing that others hold is disturbed; there is no buffer for it if and only if the block is not in use and all buffers are |
| `BufferCache.Bcache.Bwrite` | operating_system_engineering/labs/kernel/bio.c:106-112 | the disk gets what callers see of that block, no other block changes, and the buffer is clean |
| `BufferCache.Bcache.Brelse` | operating_system_engineering/labs/kernel/bio.c:116-137 | one reference and the lock are given up; exactly when the last reference goes, the buffer moves to the front of the list and the others keep their order, so the list stays sorted by use |
| `BufferCache.Bcache.Bpin` | operating_system_engineering/labs/kernel/bio.c:139-144 | adds a reference, which keeps the buffer from being recycled |
| `BufferCache.Bcache.Bunpin` | operating_system_engineering/labs/kernel/bio.c:146-151 | drops it again, keeping every invariant provided that a dirty or locked buffer has another reference |
| `BufferCache.WithRefInv` | operating_system_engineering/labs/kernel/bio.c:63-70 | taking a reference keeps the list, the one buffer per block, the counts and the contents |
| `BufferCache.WithoutRefInv` | operating_system_engineering/labs/kernel/bio.c:116-137 | dropping a reference keeps them if a dirty or locked block keeps one |
| `BufferCache.RecycledInv` | operating_system_engineering/labs/kernel/bio.c:78-86 | recycling an unreferenced buffer keeps them: what it held was on disk |
| `BufferCache.MovedToFrontInv` | operating_system_engineering/labs/kernel/bio.c:126-134 | unlinking a buffer and linking it behind the head permutes the list and nothing else |
| `FsLog.Log.WriteLog` | operating_system_engineering/labs/kernel/log.c:179-191 | what write_log() sends to the disk, also if it stops early, is a prefix of the log writes; at the end log block i holds cached block i and callers see no other change; it ends if and only if there is room for each pair of blocks in turn |
| `FsLog.Log.WriteHead` | operating_system_engineering/labs/kernel/log.c:103-114 | one disk write, which makes the header on disk equal to the one in memory and keeps the words beyond n |
| `FsLog.Log.InstallTrans` | operating_system_engineering/labs/kernel/log.c:69-83 | the disk writes are a prefix of the installs in order; when it ends every block of the transaction is at home, and unpinned unless it is recovering; room for each pair of blocks makes it end |
| `FsLog.Log.ReadHead` | operating_system_engineering/labs/kernel/log.c:87-97 | the header in memory becomes the one on disk, without any disk write |
| `FsLog.Log.Commit` | operating_system_engineering/labs/kernel/log.c:194-203 | the disk writes are a prefix of the writes of the crash theorems; a commit() that ends has made them all, unpinned exactly the transaction and changed nothing that a caller sees outside the log; one buffer that nobody uses is enough for it to end |
| `FsLog.Log.CommitAtomic` | operating_system_engineering/labs/kernel/log.c:194-203 | wherever the real commit() stops, the disk recovers to all old or all new home blocks, by whether the header write was reached; where it ends the header on disk is empty, as the next commit requires |
| `FsLog.Log.RecoverFromLog` | operating_system_engineering/labs/kernel/log.c:117-123 | the writes are a prefix of the recovery of the crash theorems; if it ends the cache agrees with the recovered disk, nothing is dirty and the header on disk is empty; two buffers that nobody uses are enough for it to end |
| `FsLog.Log.BeginOp` | operating_system_engineering/labs/kernel/log.c:127-142 | an operation is admitted if and only if no commit is under way and the log has MAXOPBLOCKS for it and for each one executing |
| `FsLog.Log.EndOp` | operating_system_engineering/labs/kernel/log.c:147-175 | only the last operation out commits; wherever that stops, recovery gives the contents before, or those of the whole transaction; with one buffer that nobody uses it ends, and the log is empty on disk for the next transaction |
| `FsLog.Log.LogWrite` | operating_system_engineering/labs/kernel/log.c:215-235 | panics if and only if the log is full or no operation is executing; otherwise the block is in the transaction once, and pinned once |
| `LogSpace.Safe` | operating_system_engineering/labs/kernel/log.c:127-175 | if every operation logs fewer than MAXOPBLOCKS blocks, then in every reachable state no operation can run into the panic, and the log is empty when nobody executes or commits |
| `LogSpace.Unsafe` | operating_system_engineering/labs/kernel/log.c:215-235 | with MAXOPBLOCKS blocks per operation, as the comment in param.h allows, a state in which an operation panics is reachable |
| `LogSpace.PanicUnreachableIff` | operating_system_engineering/labs/mkfs/mkfs.c:25 | with the log that mkfs lays out, "too big a transaction" is unreachable if and only if every operation logs fewer than MAXOPBLOCKS blocks |
| `LogProtocol.NextRefines` | operating_system_engineering/labs/kernel/log.c:127-235 | each step of any process, of the commit, of cache eviction, of a crash or of a recovery keeps the invariant and is a step of a disk of home blocks that becomes durable only by whole transactions, with no operation executing |
| `LogProtocol.RunInv` | operating_system_engineering/labs/kernel/log.c:127-235 | so the invariant holds at every point of every run with any interleaving and any crashes |
| `LogProtocol.RunRefines` | operating_system_engineering/labs/kernel/log.c:127-235 | every such run is a run of that transactional disk, and its log is recoverable at every point |
| `LogProtocol.SettledIsDurable` | operating_system_engineering/labs/kernel/log.c:147-175 | at every point of every run at which no operation is executing and no header write is outstanding, a crash would leave exactly what processes see: when the last end_op() has committed, everything is durable |
| `LogProtocol.EvictClean` | operating_system_engineering/labs/kernel/bio.c:76-86 | at every point, a buffer that bget() may recycle holds what the disk holds, so eviction loses nothing |
| `LogProtocol.LoadStep` | operating_system_engineering/labs/kernel/bio.c:92-103 | bread() hands out the current contents of the transactional disk at every point |
| `LogProtocol.CommitDurable` | operating_system_engineering/labs/kernel/log.c:194-203 | exactly the header write makes the contents that processes see durable; every other write of a commit changes nothing durable |
| `SleepLock.NextInv` | operating_system_engineering/labs/kernel/sleeplock.c:21-41 | each single step of acquiresleep(), releasesleep(), sleep(), wakeup(), the scheduler and kill() keeps the invariant, for any number of processes and locks |
| `SleepLock.RunInv` | operating_system_engineering/labs/kernel/sleeplock.c:21-41 | so it holds at every point of every interleaving |
| `SleepLock.NoLostWakeup` | operating_system_engineering/labs/kernel/proc.c:547-592 | at every point of every run: when a sleep lock is free and its spin lock is not held, no process sleeps on it or has decided to |
| `SleepLock.SleeperHasWaker` | operating_system_engineering/labs/kernel/proc.c:547-592 | while a process sleeps on a lock, some process holds the lock, or is in wakeup() and has yet to reach the sleeper |
| `SleepLock.MutualExclusion` | operating_system_engineering/labs/kernel/sleeplock.c:21-52 | at most one process holds a sleep lock, and holdingsleep() is true for exactly that one |
| `ExitWait.NextInv` | operating_system_engineering/labs/kernel/proc.c:280-435 | each single step of fork(), reparent(), exit(), wakeup(), wait(), freeproc(), kill(), preemption and the scheduler keeps the invariant, for any number of slots |
| `ExitWait.RunInv` | operating_system_engineering/labs/kernel/proc.c:280-435 | so it holds at every point of every interleaving |
| `ExitWait.ParentsAreAlive` | operating_system_engineering/labs/kernel/proc.c:330-341 | at every point, a parent pointer leads to a slot that is neither UNUSED nor ZOMBIE |
| `ExitWait.NoSleepingParentOfZombie` | operating_system_engineering/labs/kernel/proc.c:346-435 | whenever wait_lock is free, no process that sleeps in wait(), or is past its last test, has a ZOMBIE child: no exit is missed |
| `ExitWait.ZombieHasParent` | operating_system_engineering/labs/kernel/proc.c:346-386 | a ZOMBIE always has a parent to wait for it |
| `ExitWait.FreedExactlyOnce` | operating_system_engineering/labs/kernel/proc.c:346-435 | at every point, each pid that has exited is a ZOMBIE in its slot or has been freed exactly once, never both; a pid that has not exited was never freed |
| `ExitWait.ReapsOwnChild` | operating_system_engineering/labs/kernel/proc.c:403-421 | what wait() frees is its own child, which has switched away for good and was not freed before, with the pid and status of its exit() |
| `ExitWait.NoChildrenMeansNone` | operating_system_engineering/labs/kernel/proc.c:426-430 | when wait() gives up for want of children, no slot has the caller as its parent |
| `PageMap.IndicesOfPage` | operating_system_engineering/labs/kernel/riscv.h:392-396 | the three 9-bit indices determine the page number of any address below MAXVA, and the top index stays below 256 |
| `PageMap.PageOfIndices` | operating_system_engineering/labs/kernel/riscv.h:392-401 | and the other way round: distinct index triples are distinct pages below MAXVA |
| `PageMap.PteRoundTrip` | operating_system_engineering/labs/kernel/riscv.h:386-390 | page number and flags come back out of a PTE |
| `PageMap.WithoutUKeeps` | operating_system_engineering/labs/kernel/vm.c:345-353 | clearing PTE_U keeps page, valid bit and the leaf permissions |
| `PageMap.AllocedInv` | operating_system_engineering/labs/kernel/kalloc.c:69-82 | taking a page off the free list keeps the invariant of all page tables and the free list |
| `PageMap.ReleasedInv` | operating_system_engineering/labs/kernel/kalloc.c:47-63 | giving a page back keeps it, provided that nothing refers to the page |
| `PageMap.LinkedInv` | operating_system_engineering/labs/kernel/vm.c:92-101 | linking a zeroed page into an empty slot adds no mapping and keeps every tree a tree |
| `PageMap.EnteredInv` | operating_system_engineering/labs/kernel/vm.c:144-172 | writing a level-0 entry inserts, replaces or removes exactly one mapping of one page table |
| `PageMap.SlotOfPage` | operating_system_engineering/labs/kernel/riscv.h:392-396 | different pages of a page table have different level-0 slots |
| `PageMap.RootedInv` | operating_system_engineering/labs/kernel/vm.c:203-212 | a zeroed page becomes an empty page table |
| `PageMap.DoomInv` | operating_system_engineering/labs/kernel/vm.c:279-294 | a page table without mappings can be taken apart without harm to any other |
| `PageMap.DoomTree` | operating_system_engineering/labs/kernel/vm.c:279-294 | and all its pages are reachable from its root, so freewalk() misses none |
| `PageCount.PageConservation` | operating_system_engineering/labs/kernel/kalloc.c:21-24 | the number of physical pages is the length of the free list, plus the places in page tables, plus the user mappings, plus the pages that somebody holds: each page is accounted for by what refers to it, once |
| `PageCount.EntriesDisjoint` | operating_system_engineering/labs/kernel/vm.c:85-103 | no two entries of root and level-1 pages, of one page table or of two, refer to the same page |
| `PageCount.TablesByEntries` | operating_system_engineering/labs/kernel/vm.c:278-294 | every page of a page table is a root or is referred to by exactly one entry, so that freewalk() frees each once |
| `Vm.Memory.constructor` | operating_system_engineering/labs/kernel/kalloc.c:27-40 | after kinit() exactly the whole pages from end to PHYSTOP are free |
| `Vm.Memory.Kalloc` | operating_system_engineering/labs/kernel/kalloc.c:69-82 | 0 if and only if no page is free, else a free page that is then in nobody's hands |
| `Vm.Memory.Kfree` | operating_system_engineering/labs/kernel/kalloc.c:47-63 | exactly that page becomes free |
| `Vm.Memory.Walk` | operating_system_engineering/labs/kernel/vm.c:85-103 | gives the one slot of the page; without alloc nothing changes and it fails exactly if the table page is missing; with alloc no mapping and no user page changes, and it fails only if memory is exhausted |
| `Vm.Memory.MapPages` | operating_system_engineering/labs/kernel/vm.c:143-172 | success inserts exactly the range, failure a prefix of it and only when no page is free; all other mappings and all user pages stay |
| `Vm.Memory.UvmUnmap` | operating_system_engineering/labs/kernel/vm.c:177-199 | removes exactly the mappings of the range and, if asked, frees exactly their pages |
| `Vm.Memory.UvmAlloc` | operating_system_engineering/labs/kernel/vm.c:232-256 | success adds zeroed, fresh pages up to the new size and nothing else; failure gives back every page and mapping it had added; and it fails if and only if the free pages are fewer than the pages asked for and the table pages that are missing on the way to them |
| `Vm.Memory.UvmDealloc` | operating_system_engineering/labs/kernel/vm.c:262-274 | frees exactly the pages beyond the new size, and a user page table stays one, of the new size |
| `Vm.Memory.UvmCopy` | operating_system_engineering/labs/kernel/vm.c:312-340 | success gives the child its own copy of every page with the same flags and leaves the parent alone; failure undoes everything but table pages; and it fails if and only if the free pages are too few for the copies and the missing table pages |
| `Vm.Memory.WalkAddr` | operating_system_engineering/labs/kernel/vm.c:108-126 | the physical page if the address is mapped for the user, else 0 |
| `Vm.Memory.UvmClear` | operating_system_engineering/labs/kernel/vm.c:344-353 | takes PTE_U from exactly one mapping and changes no user page |
| `Vm.Memory.UvmCreate` | operating_system_engineering/labs/kernel/vm.c:203-212 | an empty page table on a page that was free, or 0 |
| `Vm.Memory.FreeWalk` | operating_system_engineering/labs/kernel/vm.c:278-294 | frees every page of the tree below its argument, and no other page |
| `Vm.Memory.UvmFree` | operating_system_engineering/labs/kernel/vm.c:298-304 | every user page and every table page of the page table is free afterwards; all other pages keep their use, and user pages their contents |
| `Vm.InsertedAt` | operating_system_engineering/labs/kernel/vm.c:143-172 | what inserting a range of pages does to each single mapping |
| `Vm.RemovedAt` | operating_system_engineering/labs/kernel/vm.c:177-199 | what removing a range does to each single mapping |
| `Vm.RemovedInserted` | operating_system_engineering/labs/kernel/vm.c:177-199 | uvmunmap() of a range that mappages() has newly mapped gives back the old mappings |
| `Vm.GrewUndone` | operating_system_engineering/labs/kernel/vm.c:243-253 | the uvmdealloc() on the failure path of uvmalloc() undoes what was added, but for table pages |
| `Vm.UserPagesDisjoint` | operating_system_engineering/labs/kernel/vm.c:143-172 | two pages of user page tables, of one process or of two, never have the same physical page, and it is neither free nor part of a page table |
| `Vm.OtherGrew` | operating_system_engineering/labs/kernel/vm.c:232-256 | growing or copying into one page table keeps every other user page table |
| `Vm.OtherDropped` | operating_system_engineering/labs/kernel/vm.c:177-199 | so does unmapping from one |
| `Vm.OtherFreed` | operating_system_engineering/labs/kernel/vm.c:298-304 | so does freeing one |
| `Vm.NoPageLost` | operating_system_engineering/labs/kernel/vm.c:232-353 | no routine, uvmfree() included, leaves a page allocated that nothing refers to |
| `Vm.UserBelowFrames` | operating_system_engineering/labs/kernel/vm.c:232-256 | user memory has fewer pages than physical memory, so it never reaches the trapframe |
| `FsBytes.WithBitOn` | operating_system_engineering/labs/kernel/fs.c:75-76 | setting or clearing one bit of a byte leaves the other seven alone |
| `FsBytes.SetBitAt` | operating_system_engineering/labs/kernel/fs.c:65-105 | the bitmap byte and mask of block b are its own: no other block's bit changes |
| `FsBytes.SetWordAt` | operating_system_engineering/labs/kernel/fs.c:407-415 | storing one little-endian word in a block changes that word only |
| `FsImage.StoredInode` | operating_system_engineering/labs/kernel/fs.c:226-241 | an inode written into its block reads back, and the others of the block are unchanged |
| `FsImage.ReservedInv` | operating_system_engineering/labs/kernel/fs.c:65-88 | a block whose bit is clear is in no file; marking and zeroing it keeps every address of every file |
| `FsImage.UnreservedInv` | operating_system_engineering/labs/kernel/fs.c:91-105 | bfree() of a block that no inode holds finds the bit set, and moves no address |
| `FsImage.LinkDirectInv` | operating_system_engineering/labs/kernel/fs.c:388-406 | putting a fresh block into an empty direct slot changes exactly that address |
| `FsImage.LinkIndirectInv` | operating_system_engineering/labs/kernel/fs.c:407-417 | the same for an entry of the indirect block |
| `FsImage.CutInv` | operating_system_engineering/labs/kernel/fs.c:432-437 | clearing a direct slot changes exactly that address |
| `FsImage.CutBranchInv` | operating_system_engineering/labs/kernel/fs.c:439-449 | clearing the indirect slot removes exactly the addresses behind it |
| `FsImage.UpdatedInv` | operating_system_engineering/labs/kernel/fs.c:226-241 | iupdate() makes the inode on disk the one in memory and moves no address |
| `FsFiles.AddressesDistinct` | operating_system_engineering/labs/kernel/fs.c:382-421 | no block is in two places, of one file or of two; every block of a file is a data block with its bit set |
| `FsFiles.FileSystem.FindFree` | operating_system_engineering/labs/kernel/fs.c:71-85 | the first block whose bit is clear, over all bitmap blocks, or none if all are set |
| `FsFiles.FileSystem.Balloc` | operating_system_engineering/labs/kernel/fs.c:65-88 | a zeroed data block that was free and is the lowest such; 0 if and only if the disk is full |
| `FsFiles.FileSystem.Bfree` | operating_system_engineering/labs/kernel/fs.c:91-105 | exactly that block becomes free; the panic cannot happen |
| `FsFiles.FileSystem.Bmap` | operating_system_engineering/labs/kernel/fs.c:383-421 | the address of block bn, through the indirect block if need be; no other address and no byte of any file changes; 0 only if the disk is full; a block that exists is found without any write |
| `FsFiles.FileSystem.Readi` | operating_system_engineering/labs/kernel/fs.c:471-496 | exactly the slice of the contents that the size allows, with the 32-bit bounds test, and nothing is allocated |
| `FsFiles.FileSystem.Writei` | operating_system_engineering/labs/kernel/fs.c:505-539 | -1 if and only if the range is out of bounds; otherwise exactly the range of the first tot bytes is replaced, the size covers it, every other file keeps its contents, and a short count means a full disk |
| `FsFiles.FileSystem.FileWrite` | operating_system_engineering/labs/kernel/file.c:148-175 | the chunks add up to one write of the bytes counted; it stops short only for a range out of bounds or a full disk; each chunk is an operation that logs every block it changes, and at most 7 blocks on a disk with one bitmap block |
| `FsFiles.FileSystem.WriteChunk` | operating_system_engineering/labs/kernel/file.c:162-167 | one such operation, from begin_op() to end_op() |
| `FsFiles.FileSystem.Itrunc` | operating_system_engineering/labs/kernel/fs.c:426-453 | exactly the blocks of this inode are freed; other files keep their contents |
| `FsFiles.FileSystem.Iupdate` | operating_system_engineering/labs/kernel/fs.c:226-241 | the inode on disk becomes the one in memory; one block is logged |
| `FsFiles.WriteiDone` | operating_system_engineering/labs/kernel/fs.c:505-539 | blocks, size and inode together: the contents are the old ones with the written bytes spliced in |
| `FsFiles.ChunkLogs` | operating_system_engineering/labs/kernel/file.c:149-155 | a write of at most 3 blocks logs at most 7: bitmap, inode, indirect block and four of data |
| `WriteBudget.WritersNeverPanic` | operating_system_engineering/labs/kernel/file.c:149-167 | with any number of writers and any commits in between, log_write() never panics on a block of a chunk: 7 is below what the log has room for |
| `FsFiles.SplicedTwice` | operating_system_engineering/labs/kernel/file.c:149-174 | two consecutive writes are one write of both |
| `FsFiles.EmptiedDone` | operating_system_engineering/labs/kernel/fs.c:426-453 | an inode without addresses and size 0 holds nothing, and nobody else has lost anything |
| `Mkfs.BitmapOfAt` | operating_system_engineering/labs/mkfs/mkfs.c:236-250 | the bitmap that mkfs writes marks exactly the blocks below freeblock |
| `Mkfs.EmptyInv` | operating_system_engineering/labs/mkfs/mkfs.c:110-115 | a zeroed image with the metadata marked satisfies the invariants of the kernel's file system |
| `Mkfs.Image.BlockFor` | operating_system_engineering/labs/mkfs/mkfs.c:268-285 | the block for the next byte of a file, allocated together with the indirect block exactly when the file has none for it |
| `Mkfs.Image.Iappend` | operating_system_engineering/labs/mkfs/mkfs.c:254-296 | the bytes go to the end of that file, every other file is as before, and freeblock moves by exactly the blocks that are new |
| `Mkfs.Image.Ialloc` | operating_system_engineering/labs/mkfs/mkfs.c:222-234 | the next inode, empty, with every file as before |
| `Mkfs.Image.FixRoot` | operating_system_engineering/labs/mkfs/mkfs.c:165-170 | the root directory keeps its entries; it loses the property that every block below its size exists if and only if its size was a multiple of BSIZE |
| `Mkfs.Image.WriteBitmap` | operating_system_engineering/labs/mkfs/mkfs.c:236-250 | after this the bits on disk agree with the blocks in use |
| `Mkfs.Image.Build` | operating_system_engineering/labs/mkfs/mkfs.c:69-175 | the finished image satisfies all invariants of the kernel's file system, inode 2 + k holds exactly file k, the root directory starts with ., .. and an entry for each file in order, and no file has a hole, but for the root directory, which has one if and only if 16 * (2 + number of files) is a multiple of BSIZE |
| `Mkfs.EntryNames` | operating_system_engineering/labs/mkfs/mkfs.c:154-157 | entry k of the root directory has the name of file k and the number of its inode |
| `Mkfs.RootHoleCounts` | operating_system_engineering/labs/mkfs/mkfs.c:165-170 | that is so for exactly the numbers of files that are 62 modulo 64 |
| `Mkfs.EmptyFilesFit` | operating_system_engineering/labs/mkfs/mkfs.c:165-170 | 62 or 126 empty files fit into an image of 2000 blocks and 200 inodes, and are a failing input |
| `Mkfs.ImageWithHole` | operating_system_engineering/labs/mkfs/mkfs.c:165-170 | builds such an image: all invariants hold, and the root directory has a block that does not exist |
| `Malloc.InsertedCoalesced` | operating_system_engineering/labs/user/umalloc.c:24-44 | after free() the list is sorted again and no two free blocks touch |
| `Malloc.InsertedUnits` | operating_system_engineering/labs/user/umalloc.c:24-44 | joining blocks neither adds nor loses memory |
| `Malloc.FreedInv` | operating_system_engineering/labs/user/umalloc.c:24-44 | free() keeps the arena partitioned into free blocks and blocks in use |
| `Malloc.TakenInv` | operating_system_engineering/labs/user/umalloc.c:72-85 | so does taking a block or the end of one, and the block taken was not in use |
| `Malloc.ExtendedInv` | operating_system_engineering/labs/user/umalloc.c:46-61 | so does new memory from sbrk() |
| `Malloc.LinkedInserted` | operating_system_engineering/labs/user/umalloc.c:30-43 | the pointers and sizes that free() leaves in memory are those of the list with the block inserted, in all four cases of joining |
| `Malloc.NotBoth` | operating_system_engineering/labs/user/umalloc.c:24-90 | no unit of memory is both free and in use |
| `Malloc.StopsAt` | operating_system_engineering/labs/user/umalloc.c:30-32 | the loop condition of free() holds at exactly one node of the circle, the one after which the block belongs |
| `Malloc.Allocator.FindPlace` | operating_system_engineering/labs/user/umalloc.c:30-32 | the search of free() ends, at that node |
| `Malloc.Allocator.Free` | operating_system_engineering/labs/user/umalloc.c:24-44 | exactly the units of the block become free |
| `Malloc.Allocator.Find` | operating_system_engineering/labs/user/umalloc.c:72-88 | the search of malloc() ends after at most one circle, with the first node after freep that has room, or because none has |
| `Malloc.Allocator.Morecore` | operating_system_engineering/labs/user/umalloc.c:46-61 | at least 4096 new units are free, and there is a block with room for the request; or nothing changes |
| `Malloc.Allocator.Malloc` | operating_system_engineering/labs/user/umalloc.c:63-90 | 0 if and only if no free block has room and sbrk() fails; otherwise a block of exactly the units needed that was not in use, with every other block in use untouched |
| `Virtio.SubmitInv` | operating_system_engineering/labs/kernel/virtio_disk.c:226-281 | queueing a request keeps the invariant of descriptors and rings |
| `Virtio.CompleteInv` | operating_system_engineering/labs/kernel/virtio_disk.c:295-327 | so does the device when it posts any request that it has taken, in any order |
| `Virtio.CollectInv` | operating_system_engineering/labs/kernel/virtio_disk.c:312-324 | so does the interrupt handler |
| `Virtio.FinishInv` | operating_system_engineering/labs/kernel/virtio_disk.c:283-291 | so does freeing the chain of a request that is done |
| `Virtio.NextInv` | operating_system_engineering/labs/kernel/virtio_disk.c:215-327 | each step of drivers, device and interrupt handler keeps the invariant |
| `Virtio.RunInv` | operating_system_engineering/labs/kernel/virtio_disk.c:215-327 | so it holds at every point of every run |
| `Virtio.AtMostTwo` | operating_system_engineering/labs/kernel/virtio_disk.c:226-233 | eight descriptors allow at most two requests at a time |
| `Virtio.DescriptorsPartition` | operating_system_engineering/labs/kernel/virtio_disk.c:156-213 | at every point each descriptor is free or in the chain of exactly one request |
| `Virtio.AvailNotOverwritten` | operating_system_engineering/labs/kernel/virtio_disk.c:271-279 | the slot of the avail ring that is written next is never one that the device has yet to read, although the index wraps at 16 bits |
| `Virtio.DeviceSeesRequest` | operating_system_engineering/labs/kernel/virtio_disk.c:238-272 | what the device finds through the next entry of the avail ring is the header, the data buffer with the right direction, and the status byte of the request that was submitted |
| `Virtio.IndicesDiffer` | operating_system_engineering/labs/kernel/virtio_disk.c:312-313 | the 16-bit indices differ if and only if something has been posted and not collected |
| `Virtio.CompletionNamesBuffer` | operating_system_engineering/labs/kernel/virtio_disk.c:313-323 | the entry the handler reads leads through info[] to the buffer whose request was completed |
| `Virtio.Disk.Alloc3` | operating_system_engineering/labs/kernel/virtio_disk.c:201-213 | three distinct descriptors if and only if three are free, otherwise none is kept |
| `Virtio.Disk.FreeChain` | operating_system_engineering/labs/kernel/virtio_disk.c:185-197 | exactly the three descriptors of the request become free, without a panic |
| `Virtio.Disk.Rw` | operating_system_engineering/labs/kernel/virtio_disk.c:215-281 | submits the request in the sense of the protocol, or has to sleep with the descriptors as they were |
| `Virtio.Disk.Intr` | operating_system_engineering/labs/kernel/virtio_disk.c:294-327 | every posted request is collected, and no other is touched |
| `Virtio.Disk.Done` | operating_system_engineering/labs/kernel/virtio_disk.c:283-291 | the request is over and its descriptors are back |
| `MarkSweep.ClosedHasLevel` | hardware_software_interface/Practicals/memory_allocation/c/mark_sweep.c:54-66 | a set of objects that holds the roots and is closed under references holds everything reachable |
| `MarkSweep.ExactlyReachable` | hardware_software_interface/Practicals/memory_allocation/c/mark_sweep.c:68-73 | what the mark phase marks is exactly what the roots reach |
| `MarkSweep.Heap.Allocate` | hardware_software_interface/Practicals/memory_allocation/c/mark_sweep.c:19-32 | the new object is in front of the heap list, unmarked and without references |
| `MarkSweep.Heap.AddReference` | hardware_software_interface/Practicals/memory_allocation/c/mark_sweep.c:34-42 | a third reference is refused, and then nothing changes |
| `MarkSweep.Heap.IsHeapObject` | hardware_software_interface/Practicals/memory_allocation/c/mark_sweep.c:44-52 | true if and only if the candidate is on the heap list |
| `MarkSweep.Heap.Mark` | hardware_software_interface/Practicals/memory_allocation/c/mark_sweep.c:54-66 | ends on every graph, cyclic or not; marks the candidate if it is on the heap, only reachable objects, and everything that those refer to |
| `MarkSweep.Heap.MarkRoots` | hardware_software_interface/Practicals/memory_allocation/c/mark_sweep.c:70-73 | an object is marked if and only if the roots reach it |
| `MarkSweep.Heap.Sweep` | hardware_software_interface/Practicals/memory_allocation/c/mark_sweep.c:75-90 | the heap list becomes its marked objects, in order and unmarked; the result counts the others |
| `MarkSweep.Heap.Collect` | hardware_software_interface/Practicals/memory_allocation/c/mark_sweep.c:68-91 | exactly the reachable objects stay, in order; no object that stays refers to one that was freed |
| `Grep.Match` | operating_system_engineering/labs/user/grep.c:72-82 | true if and only if some substring of the text is in the language of the pattern, or a prefix after ^ |
| `Grep.MatchHere` | operating_system_engineering/labs/user/grep.c:84-96 | true if and only if a prefix of the text is in the language, all of it where the pattern ends in $ |
| `Grep.MatchStar` | operating_system_engineering/labs/user/grep.c:98-106 | true if and only if some number of fitting characters can be skipped so that the rest matches |
| `Grep.HereOne` | operating_system_engineering/labs/user/grep.c:93-95 | what one step of matching does to the language |
| `Grep.HereStar` | operating_system_engineering/labs/user/grep.c:89-90 | a star in a pattern means any number of its character |
| `Grep.HereEnd` | operating_system_engineering/labs/user/grep.c:91-92 | a single $ means the end of the text |
| `ParkMiller.DoRand` | operating_system_engineering/labs/user/grind.c:16-40 | for every 64-bit state, the result is multiplication by 16807 modulo 2^31 - 1 |
| `ParkMiller.Schrage` | operating_system_engineering/labs/user/grind.c:28-35 | computing hi and lo first gives the same product, and no intermediate result exceeds 31 bits |
| `ParkMiller.StepPermutes` | operating_system_engineering/labs/user/grind.c:16-40 | the step permutes the states 0 to 2^31 - 3: its inverse is multiplication by another constant, so no state is lost |
| `Pipe.PutInv` | operating_system_engineering/labs/kernel/pipe.c:77-103 | storing a byte keeps the ring the window of what went in and has not come out |
| `Pipe.GetInv` | operating_system_engineering/labs/kernel/pipe.c:106-130 | taking a byte takes the oldest |
| `Pipe.TestsMean` | operating_system_engineering/labs/kernel/pipe.c:86-117 | the tests on the two 32-bit counters mean empty and full, also when the counters have wrapped |
| `Pipe.RunInv` | operating_system_engineering/labs/kernel/pipe.c:77-130 | at every point of every interleaving of reads and writes |
| `Pipe.Fifo` | operating_system_engineering/labs/kernel/pipe.c:77-130 | what has come out followed by what is in the ring is what went in, byte for byte |
| `Pipe.Buffer.Write` | operating_system_engineering/labs/kernel/pipe.c:77-103 | the bytes are appended in order, and exactly as many as there are, as there is room, and as come before the one whose copy fails |
| `Pipe.Buffer.Read` | operating_system_engineering/labs/kernel/pipe.c:106-130 | the oldest bytes, in order, and exactly as many as were asked for, as there are, and as come before the one whose copy fails; one more byte has left the pipe if and only if a copy fails |
| `Pipe.ByteLost` | operating_system_engineering/labs/kernel/pipe.c:120-126 | a pipe with one byte, read to a bad address: the byte is gone and the reader has not got it |
| `ShellGrammar.RoundTrip` | operating_system_engineering/labs/user/sh.c:328-343 | printing any command with every part in parentheses and parsing it gives the command back |
| `ShellGrammar.LineOf` | operating_system_engineering/labs/user/sh.c:345-360 | the same for a command inside a longer line, up to the end of its block |
| `ShellGrammar.AcceptedIff` | operating_system_engineering/labs/user/sh.c:328-447 | the commands that lines mean are exactly those whose words are free of spaces, symbols and NULs, with at most 9 arguments |
| `ShellGrammar.Normalised` | operating_system_engineering/labs/user/sh.c:328-343 | every line that is accepted means the same as the printing of its command |
| `ShellGrammar.BlockOf` | operating_system_engineering/labs/user/sh.c:400-414 | a block is its body, wrapped in the redirections that follow |
| `ShellGrammar.ArgsOf` | operating_system_engineering/labs/user/sh.c:416-447 | words separated by spaces are the arguments, in order |
| `ShellParser.Parser.NextToken` | operating_system_engineering/labs/user/sh.c:266-309 | the cursor form of gettoken() reads the token of the grammar, its span is a maximal word where it is one, and the cursor advances |
| `ShellParser.Parser.ParseRedirs` | operating_system_engineering/labs/user/sh.c:375-398 | parseredirs() agrees with the grammar on every rest of a line, its panic included |
| `ShellParser.Parser.ParseExec` | operating_system_engineering/labs/user/sh.c:416-447 | so does parseexec() |
| `ShellParser.Parser.ParseBlock` | operating_system_engineering/labs/user/sh.c:400-414 | so does parseblock() |
| `ShellParser.Parser.ParsePipe` | operating_system_engineering/labs/user/sh.c:362-373 | so does parsepipe() |
| `ShellParser.Parser.ParseLine` | operating_system_engineering/labs/user/sh.c:345-360 | so does parseline() |
| `ShellParser.Parser.ParseCmd` | operating_system_engineering/labs/user/sh.c:328-343 | the mutual recursion ends on every line, with the command of the grammar or a panic exactly where the grammar has none |
| `ShellParser.NulTerminate` | operating_system_engineering/labs/user/sh.c:449-494 | exactly the ends of the words of the command become NUL |
| `ShellParser.EndsAtDelimiter` | operating_system_engineering/labs/user/sh.c:449-494 | every character that nulterminate() overwrites is a delimiter or the end of the line, never part of a word |
| `ShellParser.StringsAreTokens` | operating_system_engineering/labs/user/sh.c:449-494 | so each argv and file pointer is to a C string that is its token |
| `ShellParser.ParseBuffer` | operating_system_engineering/labs/user/sh.c:328-343 | parsecmd() on the buffer as a whole: the C strings that the command points to spell the command that the line means |

## Left out

- Boot, traps, interrupts other than the disk's, UART, console, PLIC, and the system-call layer: they add no state machine of the same depth.
- Spin locks: they are atomic steps; memory ordering, `push_off()` and the code of `acquire()` are not modelled.
- `copyin()`, `copyout()`, `copyinstr()`, `exec()`, `sysfile.c`, `sbrk()` of the kernel and `growproc()`.
- Directories, path names, the inode cache, link counts and `iput()`: the file layer works on inodes that the caller holds.
- Panics are a result that says so where the source reaches them, and a precondition where the caller must rule them out.
- Bcache: one device; a panic for want of buffers is the result false or None and ends a commit or a recovery early, as a crash does; the contracts say how many unused buffers rule it out.
- Brelse: the caller has written or pinned what it changed, which is the rule for users of the log; `LogProtocol` proves that the log's steps follow it.
- Bread: no other process has the buffer locked, where the source waits for it; `LogProtocol` has the interleavings.
- Bunpin: as for Brelse, a dirty or locked buffer keeps another reference, which the source does not test.
- WriteLog: AllQuiet() excludes another process that holds a lock on a buffer of the transaction or the log, where the source waits for it; a commit beside processes that hold buffers is covered by `LogProtocol` alone.
- InstallTrans: the same.
- Commit: the same.
- CommitAtomic: the same.
- EndOp: the same, for the last operation out.
- Bget: one device, and it ends where `bcache.lock` is released; waiting for the buffer's sleep lock is in `SleepLock`.
- LogWrite: the block is a home block, and the buffer is held by the caller.
- BeginOp: sleeping and trying again is the result false; that sleepers are woken is proved for sleep locks, not for the log.
- LogProtocol: a disk write is atomic and the disk keeps what it was given; which buffer holds a block is `BufferCache`'s matter.
- LogSpace: the budget counts different blocks per operation, and every operation has the same.
- ExitWait: pids do not wrap around; which free slot `fork()` takes is any; the exit of the first process is a panic and not a step; open files and the current directory of an exiting process are not modelled.
- SleepLock: preemption is interleaving; a process does not release a lock that it does not hold.
- Vm: the caller maps pages that are not mapped and unmaps pages that are, which `mappages()` and `uvmunmap()` check by panics; sizes do not overflow 64 bits; the 10 low bits of a PTE are kept as a number.
- Kfree: the caller owns the page, so that the page is not in any page table.
- UvmFree: the page table maps exactly the pages below the size, as `proc_freepagetable()` leaves it, and it is not already being taken apart; other page tables may be.
- FsFiles: works on an array of blocks; that the array behaves as one is what `BufferCache`, `FsLog` and `LogProtocol` prove.
- Writei: the copy from the user does not fail part way; the file has no holes, which every operation here preserves.
- Readi: of a file without holes; in a file with one, which `Mkfs.ImageWithHole` shows that `mkfs` can leave, the source allocates a block while it reads.
- WriteChunk: as for Writei.
- FileWrite: as for Writei; the bound on logged blocks needs a disk with one bitmap block, which is what `mkfs` makes.
- Bfree: of a block that no inode holds any more, as `itrunc()` calls it.
- Mkfs: names are given padded to 14 bytes, as strncpy() leaves them; files fit into the image, which the source checks by assertions.
- Malloc: the answer of `sbrk()` is a parameter, and new memory is above the old; requests are below 2^31 bytes, where the argument of `sbrk()` is positive; addresses count units of 16 bytes.
- Free: of a block that `malloc()` gave out and that is still in use, as the program promises.
- Virtio: the device is modelled from the driver's view: it takes requests in order, completes them in any order, and reports success; a buffer has one request at a time, as its lock ensures.
- Pipe: closing, killing and the wakeups of the two ends; a call ends where the source would sleep.
- MarkSweep: running out of memory ends the program; freed objects are those that leave the list.
- Grep: reading lines from a file.
- ParkMiller: nothing is said about the quality of the numbers.
- ShellParser: running the commands; allocation of nodes does not fail; a line holds no NUL.
- Time, scheduling order and fairness: the proofs are about safety, in every order of steps.
