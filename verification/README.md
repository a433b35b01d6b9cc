# Proofs about the kernel: pipes, log, files, memory, disk queue, processes

This project models the parts of the kernel whose correctness is a property of whole runs, and proves
those properties for every run, every input and every size. Sizes are symbolic throughout: ring
capacity, log and buffer counts, block size, number of processes and CPUs, descriptor count, page table
fan-out.

- **Pipes.** `PipeProtocol` is a state machine over all interleavings of readers, writers, closes and
  kills, down to the stages of `sleep` and the entries of the `wakeup` scan. `PipeRing` holds the copy
  loops of versions 1 to 8 over the real array and the wrapping 32-bit counters, and `PipeStream` carries
  that ring along every run of the protocol. `PipeCalls` says what each single call does and returns,
  however often it sleeps, `PipeWakeups` which runs wake a reader, `PipeStranded` which do not.
- **Log over the buffer cache.** `BufferCache` is the linked ring of buffers with its reference counts,
  `Log` the commit and recovery code that runs on it, `LogCrash` what any crash leaves behind,
  `LogReserve` the reservation of log space over all interleavings of operations, `LogBudget` what
  `filewrite`'s chunks need of it.
- **Files.** `FsLayout` is the bits and words inside blocks, `FsInodes` block maps and block ownership,
  `FsContent` files as byte sequences, `FileSystem` the operations themselves, `FsImage` the file system as a
  disk holds it. `FsCrash` says what the files are after a crash in a commit, `FsTransact` runs the operations through
  cache, log and disk: start, any number of transactions, crash, start again.
- **Virtual memory.** `PageTable` is the three-level tree (Sv39, section 4.4 of the RISC-V Privileged
  Architecture 1.12) and the flat map it stands for, `VirtualMemory` the code over it.
- **Disk queue.** `Virtqueue` is the protocol between callers, interrupt handler and device (sections 2.6
  and 5.2 of VirtIO 1.1), `VirtioDisk` the driver's own loops.
- **Processes.** `ExitWait` is fork, exit, reparent and wait; `SchedulerProtocol` the scheduler on any number
  of CPUs; `SchedulerFairness` who runs next on one CPU under priorities, `RoundRobin` under the loop of
  versions 1-5.

`Machine` holds bytes and wrapping counters. `dafny verify dfyconfig.toml` checks everything.

Three properties one would expect turn out false of the code; each has a concrete run and an exact
condition:

1. Versions 5-8 can leave a reader asleep on any number of bytes, up to a full ring, after a writer was killed
   between two chunks of one call. `KilledExitBreaksExactly` says exactly when the killed exit does that and
   `LazyReaderStranded` gives a run for every capacity. In versions 1-4 the next write repairs it
   (`EagerWriteRepairs`). `ReaderWokenExactly` says which steps wake a reader in any version; in versions 5-8
   that leaves three ways out (`LazyNeedsRescue`, `RescueStartsScan`): a writer with bytes left finds the ring
   full, a writer takes the lock on an empty ring and returns with bytes written, or the write end closes.
2. Operations of exactly MAXOPBLOCKS distinct blocks can panic in `log_write`, because the space test comes
   before absorption: exactly on a full list, for a block already in it (`PanicsExactly`), and for every size
   there is a run that does (`ExactlyMaxPanics`). With one block fewer they cannot (`GroupCommitReservation`).
   A chunk of `filewrite` stays below the limit, at 7, as long as one free map block covers the disk
   (`ChunksNeverPanic`).
3. The priority scheduler is not round-robin at equal priorities, against the comment at kernel/proc.c:453-455:
   once priorities are at the base only the lowest runnable entry runs, exactly as long as it only yields and
   forks into no lower entry (`LowestStarvesOthers`; `StarvingRun` is such a run of any length).

Where code and text disagree, the model follows the code: there are no sleeping flags in the pipe
(baocaohdh/report_week6.tex:527 describes some), and version 8's buffer is 4 KB, not 8
(baocaohdh/report_week7.tex:444).

## Model

| member | source | states |
|---|---|---|
| PipeProtocol.StepKeepsInv | kernel/pipe.c:368-401 | every step of every process (copying, sleeping, waking, closing, being killed) keeps: a process asleep on a channel is entitled to sleep or the lock holder still owes it a wakeup |
| PipeProtocol.LazyWakeupWriterSide | kernel/pipe.c:562-596 | in every run, whenever pi->lock is free, whoever sleeps or is committed to sleep on &nwrite faces a full ring with the read end open, so skipping the wakeup loses nothing |
| PipeProtocol.LazyWakeupReaderSide | kernel/pipe.c:368-401 | the same for &nread, an empty ring and the write end, in every run without a killed exit after copying; the write end clause holds even then |
| PipeProtocol.KilledExitBreaksExactly | kernel/pipe.c:378-381 | the -1 exit leaves a reader asleep on bytes if and only if bytes were added in that lock hold and somebody sleeps on &nread |
| PipeProtocol.CompletedScanWakesAll | kernel/proc.c:741-759 | a completed wakeup scan leaves nobody asleep on its channel, and on &nread restores the readers' guarantee |
| PipeWakeups.ScanCompletes | kernel/proc.c:741-759 | in every run a scan of &nread that is under way and later no longer is was completed in between, and at that moment nobody slept on &nread |
| PipeWakeups.EagerWriteRepairs | kernel/pipe.c:333-362 | versions 1-4: in every run, between a pipewrite reaching its normal return and being back with its caller lies a completed scan after which no reader sleeps and every reader is entitled again, whatever a killed exit had broken |
| PipeWakeups.ReaderWokenExactly | kernel/pipe.c:375-398 | all versions: between two moments with pi->lock free, a sleeping reader that is not killed is woken if and only if some step starts a scan: a writer with bytes left finds the ring full, the write end is closed, or pipewrite returns with need_wakeup set and bytes written (versions 1-4: returns at all) |
| PipeStranded.LazyReaderStranded | kernel/pipe.c:375-398 | versions 5-8, for every capacity from 2 on, every number of processes from 3 on and every m up to a full ring: a run in which later writes return normally and a reader stays asleep on m bytes, with no scan under way or promised |
| PipeWakeups.LazyNeedsRescue | kernel/pipe.c:375-398 | versions 5-8, from any state with no scan of &nread under way or promised (nobody scanning, no writer asleep or inside with need_wakeup set): the reader sleeps through every run in which no writer with bytes left finds the ring full, no writer takes the lock on an empty ring, and the write end is not closed |
| PipeWakeups.RescueStartsScan | kernel/pipe.c:375-398 | conversely each of those three starts a scan: the full ring and the close at once, the empty ring when that call returns normally with bytes written |
| PipeStream.StreamConservation | kernel/pipe.c:385-394 | in every run over the real array and wrapping 32-bit counters: bytes fetched followed by the bytes between nread and nwrite are the bytes stored, in order, never more than the capacity, whatever a faulting copyin has left in the free part of the ring; the tests nwrite == nread + capacity and nread == nwrite are true exactly on a full and an empty ring |
| PipeCalls.CallPromise | kernel/pipe.c:184-403 | in every run, for every call: what a pipewrite has put into the ring, over any number of sleeps, is the beginning of its source, each byte once and in order; back with its caller, -1 means killed or read end closed, any other value is the number of bytes put, all of them unless a copyin faulted; a piperead returns what it got, and 0 of more only if the write end is closed; a pipeclose has closed its end |
| PipeCalls.ReturnsInFull | kernel/pipe.c:376-403 | a write that returns without a fault has put all of its source, a read that does has got all it asked for or left the ring empty |
| PipeCalls.ClosedForGood | kernel/pipe.c:184-193 | after the write end is closed it stays closed and no reader goes to sleep any more |
| PipeCalls.KillReaches | kernel/proc.c:764-783 | a kill wakes a process asleep in the pipe at once, and with the lock it then can only return -1, unless it is a reader with something to read |
| PipeCalls.NeverStuck | kernel/pipe.c:368-401 | every process in the pipe can go on unless it waits for pi->lock, for a wakeup, or in the scan for a process that can go on |
| PipeCalls.HolderLetsGo | kernel/pipe.c:368-401 | whoever holds pi->lock lets go of it after a bounded number of its own steps |
| PipeCalls.HolderUndisturbed | kernel/pipe.c:368-401 | nobody else takes pi->lock away or moves its holder |
| PipeRing.PutBytesAppends | kernel/pipe.c:240-241 | byte by byte puts append to the held bytes, across the end of the buffer and the 32-bit wrap of both counters |
| PipeRing.PutBytesIsBlockCopy | kernel/pipe.c:277-284 | a block copy up to the end of the buffer is that many single puts |
| PipeRing.FullTest | kernel/pipe.c:382-382 | the wrapping comparison nwrite == nread + capacity is true exactly on a full ring |
| PipeRing.HeldChunk | kernel/pipe.c:472-476 | the bytes from the read slot to the end of the buffer are the oldest held bytes |
| PipeRing.Pipe.WriteByByte | kernel/pipe.c:225-243 | version 1 between two sleeps: ring, counters and count after the bytes that were asked for, fit and could be read; one copyin per byte |
| PipeRing.Pipe.WriteBulk | kernel/pipe.c:377-396 | versions 2 and 4-8: the same ring, counters and count as version 1 in at most two copyin calls, each of at least one byte; a fault comes exactly if the very next chunk reaches beyond the source, and leaves the held bytes exact |
| PipeRing.BufferRing.WriteRows | kernel/pipe.c:303-323 | version 3's rows are the flat ring: the same result as version 1 in at most one call more than there are buffers |
| PipeRing.Pipe.ReadByByte | kernel/pipe.c:429-440 | version 1 delivers the oldest bytes in order; a failed copyout has consumed exactly one byte more |
| PipeRing.Pipe.ReadBulk | kernel/pipe.c:578-591 | versions 2 and 4-8 deliver the oldest bytes in at most two calls and consume exactly what they delivered, also on a fault, which comes exactly if the very next chunk does not fit |
| PipeRing.BufferRing.ReadRows | kernel/pipe.c:504-519 | the same for version 3, in at most one call more than there are buffers |
| BufferCache.UnlinkRing | kernel/bio.c:128-129 | unlinking keeps the doubly linked ring a ring of the other buffers |
| BufferCache.PushRing | kernel/bio.c:130-133 | relinking at the head keeps it a ring, with that buffer first |
| BufferCache.EveryBuffer | kernel/bio.c:66-87 | following the ring reaches every buffer |
| BufferCache.Cache.constructor | kernel/bio.c:36-53 | binit leaves a sound cache with all buffers in the ring |
| BufferCache.Cache.FindCached | kernel/bio.c:66-73 | finds the buffer of a block exactly if one exists |
| BufferCache.Cache.FindUnused | kernel/bio.c:77-87 | picks the least recently used unreferenced buffer, or there is none |
| BufferCache.Cache.Bget | kernel/bio.c:58-89 | at most one buffer per block, the least recently used of the unreferenced buffers is recycled, no block's contents change; panics exactly when every buffer is referenced and the block is not cached |
| BufferCache.Cache.Bread | kernel/bio.c:92-103 | a locked buffer with the block's current contents, cached or read; panics exactly when every buffer is referenced and none is the block's; goes to sleep exactly when somebody has the block locked |
| BufferCache.Cache.Bwrite | kernel/bio.c:106-112 | one block of the disk becomes the buffer's bytes, nothing else |
| BufferCache.Cache.Brelse | kernel/bio.c:116-137 | releasing changes no block's contents and keeps the cache sound; the last reference makes the buffer the most recently used, and nothing else changes the order |
| BufferCache.Cache.MoveToFront | kernel/bio.c:128-133 | the buffer becomes the most recently used, the others keep their order, the ring stays a permutation of all |
| BufferCache.Cache.Bpin | kernel/bio.c:139-144 | one reference more, so the buffer is not recycled |
| BufferCache.Cache.Bunpin | kernel/bio.c:146-151 | one reference less |
| LogCrash.CommitPhase | kernel/log.c:194-204 | after any number of commit's block writes the disk is wholly before or wholly after the transaction, which one depends on the first header write alone |
| LogCrash.RecoverPrefix | kernel/log.c:117-124 | a crash anywhere in recovery keeps that outcome, a completed recovery settles it |
| LogCrash.CrashAtomicity | kernel/log.c:179-204 | crash anywhere in commit, then in any number of recoveries: the recovered home blocks are all old or all new, all new exactly if the first header write reached the disk |
| LogCrash.RecoverIdempotent | kernel/log.c:66-124 | recovering again changes no home block |
| Log.Logger.LogWrite | kernel/log.c:215-236 | absorbs a block already listed, otherwise lists and pins it; each panic exactly under its condition; list and panic are those of the protocol's step LogWrite |
| Log.Logger.ReadBlock | kernel/bio.c:92-137 | bread and brelse: delivers what the block shows and changes no block |
| Log.Logger.WriteBlock | kernel/log.c:206-214 | bread, modify, log_write, brelse: the block shows the new contents, no other does, it is listed and pinned, the disk is unchanged |
| Log.Logger.WriteLog | kernel/log.c:179-192 | writes the operations' current contents, not stale disk contents, to the log in order |
| Log.Logger.InstallTrans | kernel/log.c:66-84 | writes the log's blocks home in order and unpins them |
| Log.Logger.WriteHead | kernel/log.c:103-115 | writes the list to the header block, keeping the rest of the block |
| Log.Logger.Commit | kernel/log.c:194-204 | also while processes hold buffers of other blocks, as long as logged and held buffers are fewer than NBUF: emits exactly the block writes whose crash behaviour is proved, leaves an empty list, and does not disturb the holders |
| Log.Logger.ReadHead | kernel/log.c:87-98 | reads back the list the header announces |
| Log.Logger.Recover | kernel/log.c:117-124 | emits exactly the recovery writes for the disk it finds |
| Log.FreeBufferExactly | kernel/bio.c:77-88 | with others holding buffers: one can be recycled if and only if logged blocks and buffers held besides are together fewer than NBUF |
| Log.TidyClean | kernel/log.c:226-234 | a block that is not logged looks as it does on disk, unless somebody who holds it has changed it |
| Log.NewDiskShown | kernel/log.c:184-190 | what commit makes of each home block is what the cache showed |
| Log.CommitIsAtomic | kernel/log.c:147-204 | end to end: after crashes and recovery every home block is what the cache showed when commit began, or every one is what the disk held |
| Log.CommitSettles | kernel/log.c:194-204 | a commit that completes leaves every home block as the cache showed it and a clear header |
| LogReserve.StepKeepsInv | kernel/log.c:127-176 | every step of every operation of at most MAXOPBLOCKS distinct blocks keeps the list and the unspent reservations within the log, except log_write on a full list |
| LogReserve.GroupCommitReservation | kernel/log.c:127-236 | operations of fewer than MAXOPBLOCKS distinct blocks: no panic, no commit while one runs, distinct blocks, fewer than LOGBLOCKS of them, nobody asleep in begin_op without cause, and a commit under way whenever no operation runs and blocks are listed |
| LogReserve.EveryOperationCommitted | kernel/log.c:127-204 | whatever an operation has passed to log_write is, all of it, on the list of one commit before the log is next found idle |
| LogReserve.NeverStuck | kernel/log.c:127-176 | operations and the committer can always go on, and a process asleep in begin_op has an operation or a commit to wait for |
| LogReserve.PanicsExactly | kernel/log.c:215-236 | operations of up to MAXOPBLOCKS distinct blocks: in every run the only panic is log_write's, exactly on a full list, and only for a block that is in the list already |
| LogReserve.ExactlyMaxPanics | kernel/log.c:221-229 | for every MAXOPBLOCKS, every log of k times that size and every number of processes from k on, there is such a run |
| LogBudget.ChunksNeverPanic | kernel/file.c:155-178 | with one free map block, chunks of filewrite by any number of processes in any interleaving: no panic, no commit while one runs, fewer than LOGBLOCKS distinct blocks, and nobody asleep in begin_op without cause |
| FsLayout.MarkedBits | kernel/fs.c:77-80 | setting or clearing a block's bit changes the bit of no other block |
| FsLayout.WordPut | kernel/fs.c:430-435 | a block number stored in an indirect block reads back, and no other word changes |
| FsInodes.OwnedExactlyOnce | kernel/fs.c:66-106 | a block is marked in use exactly if it is metadata or some place of some inode refers to it, and then only that place does |
| FsInodes.LinkKeeps | kernel/fs.c:411-436 | linking a fresh block keeps ownership and loses nothing of any file |
| FsInodes.OverwriteBytes | kernel/fs.c:540-552 | writing inside one block of a file changes those bytes of that file and no byte of any other |
| FsInodes.FreeKeeps | kernel/fs.c:92-106 | a block an inode owns is marked in use, so bfree does not panic, and afterwards it is owned by nobody |
| FileSystem.FileSystem.constructor | mkfs/mkfs.c:236-251 | a new file system satisfies the ownership invariant, with empty files |
| FileSystem.FileSystem.Balloc | kernel/fs.c:66-89 | returns the lowest free block, marked and zeroed, or 0 exactly when every block is in use |
| FileSystem.FileSystem.Bfree | kernel/fs.c:92-106 | clears the block's bit; panics exactly on a free block |
| FileSystem.FileSystem.Bmap | kernel/fs.c:405-444 | the block behind a file block, direct or indirect, allocated zeroed if missing; 0 only on a full disk; no file changes; every block it changes is logged, at most one free map block per allocation |
| FileSystem.FileSystem.WriteI | kernel/fs.c:528-562 | the file becomes the old one with the bytes spliced in, across block edges and the direct/indirect boundary; no other file changes; short only at a block edge, for a full disk with no block for the next byte or a source that ends inside the next piece; the blocks it logs are bounded by the blocks it spans and, without a fault, include every block it changes and the block of the inode |
| FileSystem.FileSystem.ReadI | kernel/fs.c:494-521 | delivers exactly the slice of the file and allocates nothing |
| FileSystem.FileSystem.ITrunc | kernel/fs.c:448-476 | empties the file, frees exactly the blocks it owned without a panic, leaves other files alone, logs every block it changes |
| FileSystem.FileSystem.Perform | kernel/fs.c:448-562 | any sequence of writei, readi and itrunc on any inodes is the same sequence of splices, slices and clears on independent byte sequences; each write is refused exactly if out of range and is complete unless there is no room for its next byte, each read delivers its slice; as one transaction it logs every block and the block of every inode it changes |
| FileSystem.FileSystem.FileWrite | kernel/file.c:155-178 | the chunks together are one splice; returns n exactly if all was written, and stops earlier only if the offset is beyond the file, the next chunk beyond what a file can hold, there is no room for the next byte, or the source ends; each chunk fits MAXOPBLOCKS and, without a fault, is a transaction that leads on from the chunk before |
| FileSystem.ChunkBudget | kernel/file.c:155-166 | one chunk logs at most MAXOPBLOCKS distinct blocks, and at most (MAXOPBLOCKS - 4) / 2 + 4 (7 of 10) if one free map block covers the disk |
| FsImage.InodeRoundTrip | kernel/fs.c:226-242 | what iupdate stores in an inode block is what ilock reads back, and the other inodes of the block read as before |
| FsImage.DinodeBytes | kernel/fs.h:32-42 | with the kernel's sizes, the inode's size is at byte 8 and its addresses from byte 12 on of its 64 bytes |
| FsImage.IupdateStores | kernel/fs.c:226-242 | iupdate's stores make the block that of the file system with the new inode |
| FsImage.InodeEncodable | kernel/fs.h:32-39 | every inode of a sound file system fits the on-disk structure |
| FsImage.BytesWords | kernel/log.c:103-115 | a block read as words and back is the same bytes |
| FsImage.MountedFiles | kernel/fs.c:294-313 | from a disk that holds a file system outside the log a kernel reads a sound file system with the same files |
| FsCrash.CrashKeepsFiles | kernel/log.c:117-204 | crash in a transaction's commit and in any number of recoveries: the disk holds the old file system or the new one, sound and with all its files, the new one exactly if the header write reached the disk |
| FsCrash.FileWriteDurably | kernel/file.c:155-178 | filewrite cut short by a crash in any chunk's commit: the file found has the bytes of the chunks before, and of that chunk exactly if its header was written; other files are untouched; without a crash it writes everything, with the same exceptions |
| FsTransact.WriteBack | kernel/fs.c:226-242 | bread, change, log_write and brelse of the operations' blocks: the cache then shows the new file system in each of them, they are listed and pinned, and the disk is as before |
| FsTransact.EveryCut | kernel/log.c:117-204 | from the moment the blocks are listed and cached: every prefix of commit's block writes, with any recoveries after it, leaves the old files or the new ones |
| FsTransact.WholeCommit | kernel/log.c:194-204 | all of commit's block writes leave a disk that holds the new file system, and a clear log |
| FsTransact.Transact | kernel/log.c:127-204 | from a disk that holds the file system to one that holds the new one: whatever prefix of its block writes reaches the disk, and wherever recoveries are cut short, a kernel finds a sound file system with the old files or with all the new ones, the new ones exactly if the header write is in the prefix |
| FsTransact.Boot | kernel/fs.c:41-48 | recovery and reading the inodes from such a disk give a file system on which transactions can run, with exactly the files found |
| FsTransact.RunAll | kernel/log.c:127-204 | any number of transactions: every call answers as the files at that point say, and wherever the block writes are cut short, the files found are those after a whole number of transactions |
| FsContent.UnalignedHasBlock | kernel/fs.c:411-414 | without holes, the block of an unaligned offset inside or at the end of a file is already allocated |
| PageTable.PteParts | kernel/riscv.h:374-381 | packing a page number and flags into an entry loses neither |
| PageTable.PathOwner | kernel/vm.c:97-117 | what walk reaches for a page number is the table for exactly that number's leading digits |
| PageTable.LinkInvisible | kernel/vm.c:108-113 | a table page added by walk changes no page table's map |
| PageTable.SetLookup | kernel/vm.c:163-167 | storing one entry changes the map of one page table at one page number |
| PageTable.PoolPartition | kernel/kalloc.c:46-82 | a page is on the free list exactly if nobody has it, every page of a table is reached from its root, and no page on a path is free |
| VirtualMemory.Vm.constructor | kernel/kalloc.c:26-41 | kinit and freerange put exactly the pool's pages on the free list |
| VirtualMemory.Vm.Kalloc | kernel/kalloc.c:68-82 | the head of the free list, or nothing when it is empty |
| VirtualMemory.Vm.Kfree | kernel/kalloc.c:46-63 | the page becomes the head of the free list; panics exactly outside the pool |
| VirtualMemory.Vm.UvmCreate | kernel/vm.c:178-186 | an empty map, other maps unchanged |
| VirtualMemory.Vm.Walk | kernel/vm.c:97-117 | the table of the entry; with alloc no map changes, no page leaks, and it fails exactly if fewer pages are free than tables are missing, taking no more than those; panics exactly from MAXVA on |
| VirtualMemory.Vm.WalkAddr | kernel/vm.c:120-138 | the physical page exactly for valid user pages below MAXVA |
| VirtualMemory.Vm.MapPages | kernel/vm.c:145-173 | exactly the mapped part of the range changes in exactly one map; all of it unless no page is left for a missing table, a page was mapped already (panic), or the range is empty or reaches MAXVA (panics) |
| VirtualMemory.Vm.Unmap | kernel/vm.c:192-212 | exactly the range disappears from exactly one map, and exactly the pages it owned there are freed; panics exactly on a range beyond MAXVA |
| VirtualMemory.Vm.FreeWalk | kernel/vm.c:262-278 | with no leaves left, frees every table page of the subtree once, without a panic |
| VirtualMemory.Vm.FreeAll | kernel/vm.c:282-288 | all pages of the page table, and no others, are free afterwards |
| VirtualMemory.Vm.UvmCopy | kernel/vm.c:296-324 | success: each page has its own copy with equal bytes and flags; failure: none is mapped, and fewer than three pages were free for each page to copy; either way nothing else changes |
| VirtualMemory.Vm.VmFault | kernel/vm.c:452-473 | on the process's own page table: maps a zeroed page at an unmapped page below the size, exactly if enough pages are free for it and its missing tables, or changes no map |
| VirtualMemory.FaultView | kernel/vm.c:452-473 | a page fault changes no byte of any process's memory, lazy pages reading as zero before and after |
| VirtualMemory.Vm.CopyIn | kernel/vm.c:380-403 | delivers exactly the bytes of the user's memory, over any unaligned range, all of them unless the next one is not the user's or its page cannot be had |
| VirtualMemory.Vm.CopyOut | kernel/vm.c:342-374 | exactly the bytes written change, in this process only; fails only at a byte that is foreign, read-only, or on a page that cannot be had |
| Virtqueue.AllocFails | kernel/virtio_disk.c:201-213 | alloc3_desc fails exactly when fewer than three descriptors are free |
| Virtqueue.FreeChainFreesThree | kernel/virtio_disk.c:185-197 | free_chain on a formatted chain frees its three descriptors and does not panic |
| Virtqueue.StepKeepsInv | kernel/virtio_disk.c:215-327 | every step of callers, handler and device keeps the queue's invariant, except the handler's panic on a request reported as failed |
| Virtqueue.VirtqueueSafety | kernel/virtio_disk.c:156-327 | in every run: no panic unless the device reported a failure; until then live chains are three descriptors each and disjoint, free plus owned descriptors make NUM, both rings keep a spare slot |
| Virtqueue.PanicsExactly | kernel/virtio_disk.c:312-317 | the only step that panics is the handler's, if and only if the used entry it looks at is a request the device did not carry out; free_desc never does |
| Virtqueue.EntriesSurvive | kernel/virtio_disk.c:264-272 | no step overwrites an unconsumed entry of either ring, however often the 16-bit indices wrap |
| Virtqueue.ServedExactlyOnce | kernel/virtio_disk.c:277-285 | when virtio_disk_rw returns, the device has done exactly once the transfer the call asked for, its buffer, sector and direction, and its flag was cleared exactly once |
| Virtqueue.NoLostCompletion | kernel/virtio_disk.c:232-238 | sleepers on a buffer or on free descriptors still have reason to sleep, and the handler leaves nothing unseen |
| Virtqueue.NeverStuck | kernel/virtio_disk.c:215-327 | the lock's holder and awake callers can go on, and the chain of a sleeping caller has its next step open to the device or the handler |
| Virtqueue.StepMoves | kernel/virtio_disk.c:215-276 | no step leaves things as they were; a call gets its descriptors exactly if three are free |
| VirtioDisk.Disk.AllocDesc | kernel/virtio_disk.c:156-166 | takes the lowest free descriptor |
| VirtioDisk.Disk.FreeDesc | kernel/virtio_disk.c:169-182 | blanks and frees; panics exactly on a bad or free index |
| VirtioDisk.Disk.ReleaseChain | kernel/virtio_disk.c:185-197 | the loop frees what the chain's next pointers reach |
| VirtioDisk.Disk.AllocThree | kernel/virtio_disk.c:201-213 | three lowest or, after rolling back, none and the allocator as before |
| VirtioDisk.Disk.Submit | kernel/virtio_disk.c:215-276 | from memory that shows a state of the protocol, leaves the memory of the state after the steps Start, PutRing and BumpAvail; without three free descriptors, that of the sleeping caller |
| VirtioDisk.Disk.Finish | kernel/virtio_disk.c:282-285 | leaves the memory of the state after the step Await, without a panic |
| VirtioDisk.Disk.Interrupt | kernel/virtio_disk.c:308-324 | is a run of the protocol's Take steps; clears exactly the flags named by the unseen used entries, across the wrap of both indices; panics exactly if one is not a finished request |
| ExitWait.StepKeepsInv | kernel/proc.c:316-421 | every step of fork, exit, reparent, wakeup and wait keeps the invariant |
| ExitWait.SleepingParentHasNoZombie | kernel/proc.c:332-421 | in every run, when wait_lock is free a parent asleep or committed to sleep in kwait has no zombie child, own or inherited |
| ExitWait.ReapedOncePerExit | kernel/proc.c:390-409 | each exit is reaped at most once and nothing else is; a zombie always has a parent that can still reap it |
| ExitWait.ScanIsExact | kernel/proc.c:387-415 | at the end of kwait's scan no child is a zombie, and it returns -1 if and only if the process was killed or has no child, and sleeps otherwise |
| ExitWait.SleepingParentHasChild | kernel/proc.c:411-419 | who sleeps in kwait has a child to wait for |
| ExitWait.WaitReaps | kernel/proc.c:394-409 | kwait hands back one of its own children that had exited, which is then out of the table, or leaves it all as it is if the status cannot be copied out |
| ExitWait.ParentMoves | kernel/proc.c:302-327 | a parent changes only by the fork that set it, by reparent to init, and by being reaped |
| ExitWait.WaitNeverStuck | kernel/proc.c:376-421 | a process in kfork or kwait can go on unless it waits for wait_lock, a wakeup or a child's lock |
| ExitWait.ExitNeverStuck | kernel/proc.c:332-371 | a process in kexit can go on until it is gone |
| ExitWait.HolderLetsGo | kernel/proc.c:316-421 | whoever holds wait_lock lets go of it after a bounded number of its own steps |
| ExitWait.StepMoves | kernel/proc.c:262-421 | no step leaves its process where it was |
| SchedulerProtocol.CpuStepKeeps | kernel/proc.c:490-520 | every step of every CPU keeps the invariant, whatever the unlocked scan read |
| SchedulerProtocol.OtherStepKeeps | kernel/proc.c:741-783 | wakeup, kill, fork and wait keep it too |
| SchedulerProtocol.NeverOnTwoCpus | kernel/proc.c:490-520 | no process is current on two CPUs in any run |
| SchedulerProtocol.RunningIsCurrent | kernel/proc.c:505-618 | a process whose lock is free is RUNNING exactly if some CPU has it; priorities stay between base and boost |
| SchedulerProtocol.StepOnProcess | kernel/proc.c:602-618 | which steps a process in each state can take or suffer, and where they lead, with its priority |
| SchedulerProtocol.NextOfLife | kernel/proc.c:741-759 | in every run a woken process is RUNNABLE at PRIORITY_BOOST until it is dispatched, a sleeping one can be woken, an exited one only freed |
| SchedulerProtocol.ScanChooses | kernel/proc.c:490-518 | a CPU acquires the first entry of highest priority among those its own reads showed RUNNABLE, and waits for an interrupt only if there was none |
| SchedulerProtocol.CpuGoesRound | kernel/proc.c:471-520 | each step takes its CPU to the next phase of its round and leaves the other CPUs alone |
| SchedulerProtocol.NeverStuck | kernel/proc.c:471-520 | every CPU can go on unless it waits for the lock of a process |
| SchedulerProtocol.LocksComeFree | kernel/proc.c:471-520 | whoever holds the lock of a process lets go of it within three steps of its own and holds no other |
| SchedulerFairness.Choose | kernel/proc.c:490-500 | the scan returns the lowest entry among the runnable ones of highest priority, or none |
| SchedulerFairness.DispatchDecays | kernel/proc.c:602-618 | without wakeups, with any number of forks, the sum of runnable priorities falls at each dispatch, by one for a process that yields, until it is 0, and stays there |
| SchedulerFairness.YieldsDecayByOne | kernel/proc.c:602-618 | while everybody yields and there is priority left, each dispatch takes exactly one unit |
| SchedulerFairness.ThenLowestIndexForever | kernel/proc.c:493-516 | after boost times table size dispatches every choice is the lowest runnable entry, with any number of forks in each |
| SchedulerFairness.LowestStarvesOthers | kernel/proc.c:493-516 | with priorities at the base, all choices are the lowest runnable entry if and only if in every round but the last it yielded and made no fork into a lower entry |
| SchedulerFairness.StarvingRun | kernel/proc.c:493-516 | for every table size from 2 on and every number of rounds, a run with all entries runnable in which only entry 0 is dispatched |
| RoundRobin.StepTowards | kernel/proc.c:524-535 | versions 1-5: on one CPU no step but its own dispatch takes a RUNNABLE process out of that state, and every entry the loop skips or dispatches brings it exactly one closer |
| RoundRobin.RoundRobinBound | kernel/proc.c:524-535 | versions 1-5: in every run, from any position, with any yields, sleeps, exits, wakeups, kills and forks, the loop deals with at most NPROC - 1 entries, skipped or dispatched, before it comes to a RUNNABLE process, and then dispatches it |
| RoundRobin.NeverStuck | kernel/proc.c:524-535 | the loop always has an entry to skip or dispatch, and the process that has the CPU can give it back |
| RoundRobin.GoneUntilCalled | kernel/proc.c:524-535 | a process that slept stays so, and can be woken to RUNNABLE, until it is; one that exited stays a zombie until it is reaped |
| RoundRobin.StepOnProcess | kernel/proc.c:524-535 | which steps a process in each state can take or suffer, and where they lead |
| RoundRobin.BoundIsSharp | kernel/proc.c:524-535 | the bound is reached for every table size |

## Left out

- Fences and weak memory: locks are atomic steps; memory is sequentially consistent.
- A kill may land anywhere, also between the killed() test and sleep(); nothing is claimed about when the victim notices it.
- PipeStream.StreamConservation: a copyout that fails consumes nothing, as in versions 2-8; the byte that version 1 loses then is in Pipe.ReadByByte only.
- PipeCalls.CallPromise: a copyout that faults at once returns -1, as in versions 2-8; version 1 returns 0.
- Freeing the pipe itself when both ends are closed, PIPE_TRACE output, cache-line padding and throughput.
- Log.Logger.Commit: nobody holds a logged block or a block of the log when it runs; a reader who does makes bread wait for it, and Bread ends there. That no operation modifies a logged block meanwhile is GroupCommitReservation's part.
- Log.Logger.Recover: keeps the list it read in a local instead of in log.lh, which nobody else can see at that time.
- BufferCache.Cache.Bread: ends where the caller goes to sleep for the buffer's lock; what it finds after waking is not modelled.
- BufferCache.Cache.Brelse: asks that the holder has written or logged what it changed; a buffer released dirty and unlogged, as after a faulting copyin in writei, is excluded, since its block then shows new or old bytes depending on recycling.
- A disk is a sequence of blocks per device and one block write is atomic; torn block writes are not modelled.
- FsTransact.Transact: one process, and each logged block goes through bread and log_write once, after the operations, instead of each time it changes; so with exactly LOGBLOCKS blocks the kernel can panic where this does not (PanicsExactly).
- FsTransact.Boot: reads all inodes at once where ilock reads each when it is first used; ireclaim, which frees unlinked inodes, is not modelled.
- FsCrash.FileWriteDurably: a chunk whose copyin faults leaves a changed block unlogged, so nothing is claimed for a crash in its commit.
- Inode allocation, link counts, directories and path names. FileSystem keeps the inodes that iupdate wrote as values; FsImage relates them to the bytes of the inode blocks.
- FileSystem.FileSystem.FileWrite: only the inode branch of filewrite; MAXOPBLOCKS must be at least 6, since below that a chunk would be empty and the loop would not end.
- uvmalloc, uvmdealloc, uvmclear, copyinstr and the kernel's own page table: the same walk, map and unmap steps in easier combinations.
- VirtualMemory.Vm.MapPages: misalignment, which panics, cannot be said in page numbers; which pages a table takes over is a parameter, since the source does not say it.
- VirtualMemory.Vm.Unmap: freeing a page the table does not own is excluded by precondition.
- VirtualMemory.Vm.VmFault: one root stands for the table looked at and for p->pagetable (kernel/vm.c:457-468), so calls on another table than the current process's, as from kexec, are not covered.
- VirtualMemory.Vm.CopyOut: likewise, and so for CopyIn.
- Physical pages are either tables or bytes; reading a table page as bytes is not modelled.
- VirtualMemory.Vm.WalkAddr: uses -1 where the kernel uses 0, so page 0 needs no exception.
- Virtqueue.ServedExactlyOnce: speaks of which transfer was done, not of the bytes moved; descriptor lengths, MMIO registers and feature negotiation are not modelled.
- VirtioDisk.Disk.Interrupt: the device does nothing while the loop runs; the interleavings are in Virtqueue.
- SchedulerFairness.ThenLowestIndexForever: one CPU; wakeups and kills would raise priorities again and are excluded, forks are not.
- Traps, interrupts, assembly, devices other than the disk, system call argument handling and user programs.
