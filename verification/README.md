# xv6 verified models

A Dafny model of the parts of the xv6-riscv kernel that have hard invariants, with proofs that
they keep them: the crash-safe storage stack, the file layer above it, virtual memory, sleep locks
and process lifetime, the virtio disk queue, pipes, and two user-level units, the heap allocator
and the regular-expression matcher.

Code that one process runs to completion is modelled as classes whose methods update their fields
step by step, as the C code does. Protocols between processes, the disk and interrupts are
modelled as state machines whose steps are what one of them does between two lock operations or
disk transfers; their theorems are about every state of every interleaving.

| file | models |
|---|---|
| Basics, Bits, Blocks, LogDisk, Log | the write-ahead log, with a crash possible after every disk write |
| Storage, StorageProgress | buffer cache and log together, under every interleaving and crash |
| LogSpace | log reservation and the "too big a transaction" panic |
| BufferCache | the cache's LRU list |
| BlockMap, FileSystem, Truncation | free map, block maps, file contents, `filewrite` |
| Names, Links, Directories, LinkLimits | directory entries, `create`, `sys_link`, `sys_unlink`, link counts |
| PageTable, PageCost, Vm | Sv39 page tables, `kalloc` and the `uvm` functions |
| SpinLock, SleepLock | `sleep`, `wakeup`, sleep locks |
| ProcLife, ProcSafety, ProcProgress | `fork`, `exit`, `wait` |
| Descriptors, Virtqueue, DiskProgress | the virtio disk driver |
| Pipe | pipes |
| HeapList, Heap | `malloc` and `free` |
| Grep | the matcher of `grep` |

`dafny verify dfyconfig.toml` checks everything.

## What the code does not give

Some statements that one would expect are false of the code. Each is replaced by the exact
condition under which it holds.

- **Log space.** `begin_op` reserves MAXOPBLOCKS blocks for each operation, but `log_write` checks
  for room before it looks whether the block is logged already, and `mkfs` makes a log of LOGSIZE
  blocks of which one is the header. Operations that add up to MAXOPBLOCKS blocks can reach the
  panic with a log of any size; operations that add up to `q` blocks can reach it exactly if
  `MAXOPBLOCKS + 2*q >= min(LOGSIZE, nlog - 1)` (`LogSpace.PanicCondition`).
- **Link counts.** They stay right over any sequence of calls except in two cases: the 32768th link
  to a file overflows the 16-bit `nlink` (`LinkLimits.CountAtLimit`), and an entry made in a
  directory that has itself been unlinked is a link that is lost (`LinkLimits.LostLink`).
  `Directories.Tree.Create` and `Directories.Tree.Link` keep the invariant if and only if neither
  happens; a directory is full long before its own count could overflow (`Links.SubdirsFit`).
- **Create in a removed directory.** "." and ".." stay in a directory that is removed while still in
  use. If its parent is removed too, `create` of ".." finds a free inode and panics in `ilock`, though
  the file system is sound (`LinkLimits.LostParent`). `Directories.Tree.Create` panics if and only if
  the name is that of a free inode.
- **Sleeping readers of a pipe.** A writer that finds itself killed after it has stored bytes wakes
  nobody, so a reader can sleep at a pipe that is not empty (`Pipe.StrandedReader`).
  `Pipe.Pipe.Write` says before the call exactly when that happens.

## Model

| member | source | states |
|---|---|---|
| `Blocks.PutWord` | kernel/fs.c:407-413 | storing a little-endian 32-bit word in a block reads back as that word and leaves all other words alone |
| `Blocks.PutBit` | kernel/fs.c:75-77 | setting or clearing a bit of a block of the free map changes that bit and no other |
| `Blocks.WordPlace` | kernel/log.c:102-114 | the bytes of a stored word, the least significant first, and no other byte changed |
| `Blocks.BitPlace` | kernel/fs.c:75-77 | the mark of block `i` is bit `i % 8` of byte `i / 8`, and no other byte changes |
| `LogDisk.HeadRoundTrip` | kernel/log.c:86-114 | the block numbers that write_head stores are those that read_head finds |
| `LogDisk.RecoveredAt` | kernel/log.c:68-83 | after recovery a home block holds its last copy in the log if the header names it, else what it held |
| `LogDisk.HeaderCommits` | kernel/log.c:102-114 | writing the header switches the meaning of the disk to the home blocks overlaid with the log, in one write |
| `LogDisk.InstallKeepsMeaning` | kernel/log.c:68-83 | after any number of blocks copied home, a crash would still recover to the same file system |
| `LogDisk.ClearKeepsMeaning` | kernel/log.c:193-203 | erasing the header after installing keeps the meaning of the disk |
| `Log.Log.LogWrite` | kernel/log.c:214-235 | panics exactly if the log is full or no operation is outstanding; else readers see the new contents, the disk does not, and a block already logged takes no more room |
| `Log.Log.WriteHead` | kernel/log.c:102-114 | the loop stores exactly the header block for the logged blocks, in one disk write |
| `Log.Log.ReadHead` | kernel/log.c:86-97 | the loop reads exactly the block numbers of the header |
| `Log.Log.WriteLog` | kernel/log.c:178-191 | every logged block is copied to its place in the log and no disk image on the way differs outside the log's data blocks |
| `Log.Log.InstallTrans` | kernel/log.c:68-83 | the disk becomes the installed one, every image on the way means the same file system, and every block is unpinned once |
| `Log.Log.Commit` | kernel/log.c:193-203 | crash atomicity: up to the header write every crash image recovers to the old file system, from it on to the new one, and at the end the disk holds the new one with an empty log |
| `Log.Log.RecoverFromLog` | kernel/log.c:116-123 | recovery restores exactly the file system the crash image meant, and so would a recovery after a crash at any point inside it |
| `Storage.Simulation` | kernel/log.c:126-235 | every step of cache, log, commit, recovery or crash is a step of a plain block store with a history of log_writes, of which a committed prefix survives a crash |
| `Storage.RunSimulation` | kernel/log.c:126-235 | the same for every run |
| `Storage.CrashSafety` | kernel/log.c:126-203 | in every run of any number of processes from boot, crashes and recoveries included: reads see all log_writes, a crash would keep exactly the committed prefix, and that prefix consists of whole operations that have ended |
| `Storage.ReadsSeeLastWrite` | kernel/bio.c:92-103 | a locked, valid buffer holds the last logged contents of its block, through any evictions and commits |
| `Storage.HomeChangesWhenQuiet` | kernel/log.c:146-203 | a home block changes on disk only while no operation is outstanding, and only if it is logged |
| `Storage.BracketsHold` | kernel/log.c:146-155 | a process between begin_op and end_op never finds the log committing or without operations, and a reference that is dropped was counted |
| `Storage.RecoveryRestores` | kernel/log.c:116-123 | when the log is empty the home blocks on disk are the committed prefix |
| `Storage.CommitHeadStep` | kernel/log.c:193-203 | at the commit point what a crash would leave becomes what readers are promised |
| `Storage.CrashStep` | kernel/log.c:54-65 | a crash at any point leads to a state in which readers are promised what recovery would give |
| `Storage.WriteStep` | kernel/log.c:214-235 | a log_write changes what readers are promised for its block only, and nothing a crash would leave |
| `Storage.InstallStep` | kernel/log.c:68-83 | copying a block home and unpinning it changes neither what readers are promised nor what a crash would leave |
| `StorageProgress.BreadReads` | kernel/bio.c:92-103 | once bget has a buffer that nobody has locked, bread ends with it locked and holding what readers are promised |
| `StorageProgress.BrelseReleases` | kernel/bio.c:116-137 | brelse gives back the lock and one reference and leaves the contents |
| `StorageProgress.BeginAdmits` | kernel/log.c:126-142 | begin_op waits exactly while a commit is under way or the log might not have room for one more operation |
| `StorageProgress.CommitEnds` | kernel/log.c:193-203 | each step of a commit or recovery brings it closer to its end, where the log is empty |
| `StorageProgress.CommitStands` | kernel/log.c:146-175 | nobody else's step sets it back, and the end of the last operation starts it |
| `LogSpace.PanicCondition` | kernel/log.c:126-142 | the panic of log_write is reachable by operations that add at most `q` blocks if and only if MAXOPBLOCKS + 2q >= min(LOGSIZE, nlog - 1) |
| `LogSpace.DocumentedBounds` | kernel/log.c:214-228 | it is reachable with MAXOPBLOCKS blocks per operation for every log, and with MAXOPBLOCKS - 1 exactly for logs shorter than LOGSIZE |
| `LogSpace.RunReserved` | kernel/log.c:126-142 | in every run the logged blocks and the unused quotas of the outstanding operations stay within what begin_op reserved |
| `BufferCache.Cache.Binit` | kernel/bio.c:36-53 | the loop links every buffer into one circle through the head |
| `BufferCache.Cache.Bget` | kernel/bio.c:58-89 | finds the buffer of the block if there is one; else takes the unused buffer that was released longest ago; finds none only if every buffer is in use; a block keeps having at most one buffer |
| `BufferCache.Cache.Lookup` | kernel/bio.c:66-73 | the scan along `next` finds the block's buffer if and only if there is one |
| `BufferCache.Cache.Oldest` | kernel/bio.c:77-88 | the scan along `prev` finds the unused buffer with the oldest release, if any is unused |
| `BufferCache.Cache.Brelse` | kernel/bio.c:116-137 | after the relinking, `prev` and `next` are again one circle through the head and all buffers, ordered by latest release to zero references |
| `BufferCache.Cache.Bpin` | kernel/bio.c:139-144 | one more reference, and list, order and uniqueness as before |
| `BufferCache.Cache.Bunpin` | kernel/bio.c:146-151 | one reference less, and list, order and uniqueness as before |
| `BufferCache.Unlinked` | kernel/bio.c:128-129 | the two assignments that unlink a buffer leave a circle without it |
| `BufferCache.Linked` | kernel/bio.c:130-133 | the four assignments that link a buffer leave a circle with it after the head |
| `BlockMap.AllocKeeps` | kernel/fs.c:65-88 | a block that is not marked belongs to no inode; marking and zeroing it keeps the ownership invariant and every inode's blocks |
| `BlockMap.SetAddrKeeps` | kernel/fs.c:388-406 | storing an allocated, unowned block in an empty place of an inode keeps ownership: all blocks marked, none reached twice |
| `BlockMap.SetEntryKeeps` | kernel/fs.c:407-415 | the same for an entry of the indirect block |
| `BlockMap.WriteBlockBytes` | kernel/fs.c:516-528 | writing into one data block of a file changes those bytes of that file and no byte of any other |
| `BlockMap.BytePlace` | kernel/fs.c:382-421 | the block and offset on disk of each byte of a file, through twelve direct addresses and the words of the indirect block |
| `BlockMap.MarkPlace` | kernel/fs.c:73-75 | the bit on disk that says whether a block is in use |
| `FileSystem.FileSystem.Balloc` | kernel/fs.c:65-88 | the two loops return the first free block, marked and zeroed, or zero exactly if none is free; it was owned by no inode |
| `FileSystem.FileSystem.Bfree` | kernel/fs.c:91-105 | clears exactly that block's mark; if no inode has the data block, ownership and every file's bytes stay as they are |
| `FileSystem.FileSystem.Bmap` | kernel/fs.c:382-421 | the block in that place, allocated if there was none, or zero only on a full disk; ownership is kept, no byte of any file changes, the marked blocks are those before and those the inode has, so none is lost, and what it logs are the blocks it allocated and their places in the free map; every block whose contents changed is logged, and the number is in the inode's address or the indirect block's word for that place |
| `FileSystem.KeptAccounted` | kernel/fs.c:382-421 | if every marked block belonged to the metadata or an inode, it still does when those marked since belong to the inode they were allocated for |
| `FileSystem.FileSystem.WriteChunk` | kernel/fs.c:516-528 | one turn of the loop: the chunk is in the file and every changed block logged; or the disk is full and nothing is written; or exactly the bytes that could be copied are in the file, in a block that is not logged |
| `FileSystem.FileSystem.Writei` | kernel/fs.c:505-539 | -1 exactly if the range does not start inside the file or ends past the largest file; else the file holds the written bytes, no other byte of any file changes, the size covers them, every file whose blocks below the size are mapped stays so and no block is lost even if it failed, and a short count with readable data means a full disk; every block whose contents changed is logged, and the inode's, the one exception being the block in which a copy failed; a copy fails only at the first byte that cannot be read, less than a block past what is counted |
| `FileSystem.FileSystem.Readi` | kernel/fs.c:471-496 | exactly the bytes of the file in the range, cut at the size, or -1 with those that could be stored; a file whose blocks are mapped is read without changing or logging anything |
| `FileSystem.FileSystem.FreeDirects` | kernel/fs.c:432-437 | the loop frees exactly the direct blocks, each marked when it is freed |
| `FileSystem.FileSystem.FreeEntries` | kernel/fs.c:439-446 | the loop frees exactly the blocks named in the indirect block |
| `FileSystem.FileSystem.Itrunc` | kernel/fs.c:425-453 | the inode is empty, exactly its own blocks became free, no block is freed twice or lost, no other file changed, and every file whose blocks are mapped stays so; it logs the inode's block, every block it changed, and nothing but the free map's for what it freed |
| `Truncation.TruncateStep` | kernel/fs.c:425-453 | each block of the inode is still marked, and owned by nobody else, when its turn to be freed comes |
| `FileSystem.FileSystem.WriteOp` | kernel/file.c:157-167 | one transaction of filewrite on a file whose blocks are mapped logs at most MAXOPBLOCKS blocks on a disk of any size, one more on any other file, and never more than six besides those of the free map; mapped files stay mapped and no block is lost; every changed block is logged but one in which a copy failed |
| `FileSystem.LogBound` | kernel/file.c:148-160 | the blocks that one writei of at most 3072 bytes logs: the inode's, the indirect block, at most four data blocks, and one of the free map for each of at most four allocations in a mapped file, or five |
| `FileSystem.ChangedFew` | kernel/fs.c:516-528 | a write of at most 3072 bytes allocates at most five blocks, and at most four in a file whose blocks are mapped, since the block it starts inside of is there already |
| `FileSystem.ChunksFitLog` | kernel/file.c:148-160 | transactions of that size can run out of log in some interleaving if and only if the free map has more than three blocks |
| `FileSystem.FileSystem.Filewrite` | kernel/file.c:134-181 | all of the data at the file's offset, or -1 with the offset at what was written; only an unreadable byte, a full disk, an offset outside the file or the end of the largest file stop it; mapped files stay mapped and no block is lost; an unreadable byte is reached exactly |
| `Names.Namecmp` | kernel/string.c:60-68 | strncmp's loop says equal exactly for names that are stored the same |
| `Names.Strncpy` | kernel/string.c:70-81 | the stored form of a name: 14 bytes, padded with zeros |
| `Names.PadTwice` | kernel/fs.c:543-547 | a stored name compares like itself |
| `Directories.Tree.constructor` | mkfs/mkfs.c:117-128 | a root that is its own parent and free inodes besides, which satisfies the invariant |
| `Directories.Tree.Dirlookup` | kernel/fs.c:551-575 | finds the inode that the directory's entries give the name, zero exactly if there is none |
| `Directories.Tree.Dirlink` | kernel/fs.c:579-606 | fails, changing nothing, exactly if the name is taken or there is no unused entry and the directory cannot grow, being as long as files can be or without room on the disk; else the name is added in the first unused entry, or after the last |
| `Directories.Tree.Isdirempty` | kernel/sysfile.c:173-186 | true exactly if only "." and ".." are there |
| `Directories.Tree.Ialloc` | kernel/fs.c:198-219 | the first free inode, or zero exactly if there is none |
| `Directories.Tree.Iput` | kernel/fs.c:336-362 | the last reference to an inode without links frees it, nothing else changes, and the link-count invariant is kept |
| `Directories.Tree.Create` | kernel/sysfile.c:245-302 | a new inode with one link under the name, "." and ".." in a directory and one more link on its parent; when the name is free it fails, changing nothing, exactly without an inode or room; it panics exactly if the name is that of a free inode, which only ".." of a removed directory can be; the invariant is kept exactly unless it makes an entry in a directory without links |
| `Directories.Tree.Link` | kernel/sysfile.c:123-170 | exactly when it succeeds, one more link and the name in the directory, nothing changes if it fails; the invariant is kept if and only if the directory is linked and the count does not overflow |
| `Directories.Tree.Unlink` | kernel/sysfile.c:188-243 | succeeds exactly for names other than "." and ".." of files and empty directories; then the name is gone, the counts of inode and parent go down, and an inode without links and references is freed; the invariant is always kept, and every inode it looks up has a link, so the "nlink < 1" panic cannot fire, whether it succeeds or not |
| `Links.AddKeeps` | kernel/sysfile.c:245-302 | adding an entry for a linked file or a new inode keeps names unique, files' counts equal to the entries naming them, and directories' to one plus their subdirectories |
| `Links.SubdirsFit` | kernel/fs.c:513-514 | a directory is as long as files can be long before its count of subdirectories could overflow |
| `Links.ParentLinked` | kernel/sysfile.c:275-279 | the ".." of a linked directory names a linked directory |
| `Links.RemoveKeeps` | kernel/sysfile.c:222-233 | so does removing an entry of a file or an empty directory |
| `Links.FreeKeeps` | kernel/fs.c:336-362 | so does freeing an inode without links |
| `Directories.Uncounted` | kernel/sysfile.c:123-170 | a file given an entry in a directory without links has a count that is too high |
| `Directories.Overflown` | kernel/sysfile.c:145-146 | a count that has overflowed breaks the invariant |
| `LinkLimits.LostLink` | kernel/sysfile.c:245-302 | a run that breaks the invariant: a directory made, removed while still in use, and a file created in it |
| `LinkLimits.LostParent` | kernel/sysfile.c:245-262 | a run in which create panics with the invariant intact: a directory and one in it made and removed, the inner one while still in use, and a create of ".." there |
| `LinkLimits.CountAtLimit` | kernel/sysfile.c:123-170 | a sound file system in which a file has 32767 links, and a link that breaks the invariant |
| `PageTable.PteFields` | kernel/riscv.h:341-352 | address and flags that are put into an entry are read back from it, the page number lies above ten bits of flags, and it points to a table exactly without R, W and X |
| `PageTable.PteBits` | kernel/riscv.h:341-352 | bit by bit: what PA2PTE, PTE2PA and PTE_FLAGS shift and mask, and which bits are V, R, W and X |
| `PageTable.PxInjective` | kernel/riscv.h:354-363 | the three indices determine the page number below MAXVA |
| `PageTable.PxBits` | kernel/riscv.h:354-357 | bit by bit: PX takes the nine bits of the address from bit 12 + 9 * level on |
| `PageTable.SetLeaf` | kernel/vm.c:85-103 | storing an entry in a lowest-level table changes the flat map at one page only |
| `PageTable.AddTable` | kernel/vm.c:96-99 | linking a zeroed page as a new table leaves the flat map as it was |
| `Vm.Machine.Kalloc` | kernel/kalloc.c:68-82 | the first page of the free list, which loses it, or zero exactly if the list is empty |
| `Vm.Machine.Kfree` | kernel/kalloc.c:46-63 | the page joins the free list and no other page changes |
| `Vm.Machine.Freerange` | kernel/kalloc.c:33-40 | exactly the whole pages of the range join the free list |
| `Vm.Machine.Walk` | kernel/vm.c:85-103 | the table that holds the page's entry, or zero; when allocating, zero if and only if there are fewer free pages than tables missing on the way, and otherwise exactly those are taken; tables made on the way leave the flat map as it was |
| `Vm.Machine.Mappages` | kernel/vm.c:142-165 | the flat map gains exactly the entries of the range if and only if there are as many free pages as tables missing for it; else those of the pages before the one it had no table for |
| `Vm.Machine.Uvmunmap` | kernel/vm.c:170-192 | the flat map loses exactly the entries of the range, and exactly their frames become free if asked for |
| `Vm.Machine.Uvmcreate` | kernel/vm.c:196-205 | an empty page table from one free page, or zero exactly without one |
| `Vm.Machine.Uvmalloc` | kernel/vm.c:225-249 | succeeds if and only if the free pages cover the frames and the missing tables: then the pages between the sizes are mapped to distinct zeroed frames from the free list; else the mapping is as before and every frame is back |
| `Vm.Machine.Uvmdealloc` | kernel/vm.c:255-267 | exactly the pages between the sizes are unmapped and their frames free |
| `Vm.Machine.Uvmcopy` | kernel/vm.c:305-333 | succeeds if and only if the free pages cover the frames and the tables that the second tree lacks: then it maps distinct copies of the first one's pages, contents and permissions; else its mapping is as before and every frame is back; the first tree is not changed |
| `PageCost.CostBound` | kernel/vm.c:85-103 | three free pages for each page to be mapped are always enough |
| `PageCost.NoTable` | kernel/vm.c:90-99 | where walk finds an entry empty, the tree has no table in that place |
| `Vm.Machine.Freewalk` | kernel/vm.c:271-287 | every table page at and below is freed once, and nothing else |
| `Vm.Machine.Uvmfree` | kernel/vm.c:291-297 | every frame below the size and every table page is freed once, and nothing else |
| `Vm.Machine.CopyThenFree` | kernel/vm.c:291-333 | page conservation: creating, copying into and freeing a page table gives back exactly the pages it took, also when memory ran out |
| `SleepLock.StepInv` | kernel/sleeplock.c:21-41 | every step of acquiresleep, releasesleep, sleep, wakeup, kill and the scheduler keeps the invariant |
| `SleepLock.RunSafe` | kernel/proc.c:535-580 | in every state of every run: with the inner lock free and the sleep lock free nobody is asleep on it or about to be; the lock is marked taken exactly while one process has it, the one it names, which is what holdingsleep asks; sched is reached holding one's own lock and no other; and there is no deadlock: some process, or the scheduler, can take a step |
| `SleepLock.AllWoken` | kernel/proc.c:566-580 | when releasesleep's wakeup is through, nobody is asleep on the lock |
| `SleepLock.TestRight` | kernel/sleeplock.c:21-41 | acquiresleep takes the lock if it is free and waits if it is taken, releasesleep frees it, and no other step has a say in whose it is |
| `SleepLock.CallsReturn` | kernel/sleeplock.c:21-41 | acquiresleep returns with the lock and not before, whatever wakes it, and releasesleep when its wakeup has gone through all processes |
| `SleepLock.CallsEnd` | kernel/proc.c:535-580 | each step of its own brings a call closer to its end, or to sleep |
| `SleepLock.NoDeadlock` | kernel/proc.c:535-580 | whatever locks are held, some step other than a kill or a preemption can be taken |
| `SleepLock.SchedulerRight` | kernel/proc.c:444-478 | the scheduler runs whom it picks, kill wakes, and none of them changes a lock or moves a process |
| `ProcSafety.NextInv` | kernel/proc.c:279-435 | every step of fork, exit, reparent, wait, kill and the scheduler keeps the invariant |
| `ProcSafety.LifetimeSafe` | kernel/proc.c:279-435 | in every state of every run: no process has a zombie or unused parent; every process but init that has been started, zombie or not, has a parent that can reap it; nobody sleeps in wait without a child, or with wait_lock free and a zombie child; wait returns only pids of processes that exited, and each at most once |
| `ProcSafety.WaitIsRight` | kernel/proc.c:390-435 | wait gives up only if the process has been killed or has no children, and reaps only children of the caller |
| `ProcSafety.NextMoves` | kernel/proc.c:279-435 | which steps give a process its pid, its parent and its state, and take them away; all others leave them |
| `ProcSafety.NextBooks` | kernel/proc.c:347-435 | which steps hand out a pid, make a process exited, and return a pid from wait |
| `ProcProgress.WaitEnds` | kernel/proc.c:390-435 | wait goes to sleep only with a child, none of them a zombie, and if not killed |
| `ProcProgress.WaitReaps` | kernel/proc.c:400-425 | wait returns the pid of a child exactly when it comes to one that is a zombie, and frees that one |
| `ProcProgress.ForkGives` | kernel/proc.c:279-328 | fork ends with a runnable child of the caller, whose pid nobody else has or has had |
| `ProcProgress.WakesParent` | kernel/proc.c:330-387 | exit wakes init and its parent, and nobody else |
| `ProcProgress.OutsideRight` | kernel/proc.c:585-604 | kill marks and wakes, the scheduler runs whom it picks, and neither touches the books |
| `ProcProgress.CallsReturn` | kernel/proc.c:279-435 | fork returns when the child has been started or could not be made, exit never, and wait only from a scan that ended or a child it took |
| `ProcProgress.CallsEnd` | kernel/proc.c:279-435 | each step of its own brings a call closer to its end, or to sleep |
| `ProcProgress.NoDeadlock` | kernel/proc.c:279-435 | while a process is inside a call, some step other than a kill or a preemption can be taken |
| `ProcProgress.RunProgress` | kernel/proc.c:279-435 | both, in every state of every run |
| `Descriptors.Pool.AllocDesc` | kernel/virtio_disk.c:156-166 | the lowest free descriptor, or -1 exactly if none is free |
| `Descriptors.Pool.FreeChain` | kernel/virtio_disk.c:185-197 | exactly the descriptors of the chain are cleared and free |
| `Descriptors.Pool.Alloc3Desc` | kernel/virtio_disk.c:201-213 | the three lowest free descriptors, or -1 and the free ones as before, exactly if fewer than three are free |
| `Virtqueue.StepInv` | kernel/virtio_disk.c:215-327 | every step of a request, the device or the interrupt handler keeps the invariant |
| `Virtqueue.ProtocolSafe` | kernel/virtio_disk.c:215-327 | in every state of every run: requests in flight have disjoint chains of three descriptors, all others are free, there are at most two; every unread used entry names a buffer that still waits, with its status written and its data moved; neither ring is overrun across the wrap of its index |
| `Virtqueue.FinishedRight` | kernel/virtio_disk.c:283-289 | a call that finishes got the transfer it asked for |
| `Virtqueue.CallChain` | kernel/virtio_disk.c:185-197 | the chain that a call frees is what free_chain demands: three descriptors in use, linked in order |
| `Virtqueue.WriteNext` | kernel/virtio_disk.c:271-277 | writing the ring entry at the index overwrites no unread entry |
| `Virtqueue.Transfers` | kernel/virtio_disk.c:235-265 | the device, following a chain as it was formatted, moves that request's data and writes that request's status |
| `DiskProgress.Accepts` | kernel/virtio_disk.c:215-277 | a request is accepted as it was made, beside those in flight |
| `DiskProgress.StepMoves` | kernel/virtio_disk.c:271-327 | every other step of the driver, the device or the interrupt handler moves exactly one request to its next stage, and the last ends the call |
| `DiskProgress.NoStall` | kernel/virtio_disk.c:215-327 | while a request is in flight such a step can be taken |
| `Pipe.Pipe.constructor` | kernel/pipe.c:22-56 | a new pipe is empty, open at both ends, and nobody sleeps on it |
| `Pipe.Pipe.Write` | kernel/pipe.c:76-103 | bytes stored are bytes accepted, in order, never more than fit; it sleeps only at a full pipe with an open read end, and fails only if that is closed or the process killed; that readers sleep only at an empty open pipe is kept if and only if the writer is not killed after storing some of its bytes but before it is done or finds the pipe full, while a reader sleeps; nothing is stored that could not be read or after the writer was found killed |
| `Pipe.Pipe.Read` | kernel/pipe.c:105-130 | the oldest bytes in order, as many as asked for, there and storable; one more is gone if a copy fails; it blocks or fails exactly at an empty pipe with an open write end, and wakes every writer otherwise |
| `Pipe.Pipe.Close` | kernel/pipe.c:58-74 | all sleepers of the other end wake, those of this end do not, and no byte is lost |
| `Pipe.Pipe.Kill` | kernel/proc.c:585-604 | kill wakes that process and no other, and keeps the pipe's invariant |
| `Pipe.StrandedReader` | kernel/pipe.c:84-87 | a run that ends with a reader asleep at a pipe that holds a byte |
| `Heap.Heap.FindSlot` | user/umalloc.c:30-32 | the search around the ring ends, at the last free block below the address |
| `Heap.Heap.Free` | user/umalloc.c:24-44 | the ring stays one circle in address order with no two blocks touching and `freep` at the block before; the block's units are free, every unit stays in exactly one block, and no other live block is touched |
| `Heap.Heap.Morecore` | user/umalloc.c:46-61 | at least 4096 new units join the free list and none is lost, or nothing changes; the search that follows will find them |
| `Heap.Heap.Take` | user/umalloc.c:75-84 | the whole block or exactly its tail becomes live, from free units only |
| `Heap.Heap.Malloc` | user/umalloc.c:63-90 | ends with at most one call of morecore, made only if no free block fits; the units there are afterwards are those before and those that sbrk gave, each in exactly one free or live block; zero only if sbrk fails too; else a live block of its own of the size the request rounds to, the tail of the first block after `freep` that fits if there is one |
| `HeapList.MergeNext` | user/umalloc.c:33-37 | joining the block after keeps ring and ownership |
| `HeapList.MergePrev` | user/umalloc.c:38-40 | so does joining to the block before |
| `HeapList.Join` | user/umalloc.c:41-42 | so does linking the block into the ring |
| `HeapList.SplitTail` | user/umalloc.c:78-82 | so does cutting off the tail of a block |
| `Grep.Match` | user/grep.c:71-81 | true exactly if some substring is in the language of the parsed pattern, at the start of the text after a leading '^' and at its end before a final '$' |
| `Grep.Matchhere` | user/grep.c:84-95 | true exactly if some prefix of the text is |
| `Grep.Matchstar` | user/grep.c:98-105 | true exactly if the rest matches after some run of characters that fit |
| `Grep.HereStar` | user/grep.c:98-105 | the language of a starred item followed by a pattern, one run at a time |

## Left out

- Boot, trap entry, context switch, spin lock internals, memory ordering: a lock operation is one step and memory is sequentially consistent.
- Device registers, `virtio_disk_init`, the console, both `printf`s, `syscall.c` argument fetching, `exec.c`, `sh.c` and the other user programs: they have no invariants that go beyond those of the parts they call.
- Fairness: what is proved is that steps can be taken and that calls are finite, not that the scheduler and the hardware take them; nor that `begin_op` gets in, or that `bget` finds a buffer, where `BufferCache.Cache.Bget` returns the list head and the C code panics.
- Panics of the kernel are demands on the caller (`requires`), results, or proved unreachable; which of these is said at each member.
- `kernel/fs.c` and `kernel/sysfile.c` operations run one at a time in the model: `FileSystem` and `Directories` do not interleave system calls, and the inode cache of `iget` and `ilock` is not modelled beyond the reference that `iput` asks about.
- Path walking (`namex`, `skipelem`): `Directories` takes the inodes that `namei` and `nameiparent` return as parameters.
- An inode is one record in `FileSystem`: that `iupdate` copies it to its disk block shows only as the logging of that block.
- Whether the disk has room for one more entry is a parameter of `Directories.Tree.Dirlink`; that a 16-byte entry is written whole or not at all is taken from the layout of blocks.
- The bytes a failed `either_copyin` has already put into a buffer are part of the file in `FileSystem.FileSystem.Writei`, though not logged; on success there are none.
- Storage.WriteStep: a caller's change to a buffer and the `log_write` that follows are one step, since the caller holds the buffer's lock between them.
- Vm.Machine.Uvmalloc: table pages made before memory ran out stay in the tree, as in the C code, and are only given back by `uvmfree`.
- Vm.Machine.Mappages: remapping, which panics, is a demand on the caller.
- Permission bits other than those of Sv39 leaves, and address translation by the hardware, are not modelled; `copyin` and `copyout` appear as a count of accessible bytes.
- ProcSafety.LifetimeSafe: pids are unbounded, so their wrap-around is not modelled; sleeping elsewhere than in wait is not distinguished from running.
- SleepLock.RunSafe: other channels than the lock's are left out, as no process sleeps on two.
- Virtqueue.ProtocolSafe: the device is assumed to follow the chain it is given, to complete each request once and to report success.
- Heap.Heap.Malloc: addresses are counted in units of one header, `sbrk` never hands out the same memory twice, and requests fit the int that `sbrk` takes.
- The `grep` function's line buffer, and `user/usertests.c`.
