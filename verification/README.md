# xv6-riscv: a Dafny model of its hard parts

xv6-riscv is a small Unix-like kernel. This project models the five parts of it whose correctness is hardest to
see from the code, and proves what they are for:

* **Storage** (`kernel/log.c`, `kernel/bio.c`, `kernel/fs.c`, `kernel/file.c`): the redo log, the buffer cache and
  the disk as one interleaved state machine in which the machine may crash between any two disk writes, recovery
  included; the log's own loops as methods over a disk that records its history; the buffer list with its pointer
  surgery; allocation, block mapping, reading, writing and truncation of files against plain byte strings; and
  the two together: crash recovery yields files after whole operations.
* **Processes and locks** (`kernel/proc.c`, `kernel/sleeplock.c`, `kernel/pipe.c`, `kernel/virtio_disk.c`): fork,
  exit, wait, sleep, wakeup and kill as steps that interleave at lock granularity; a general monitor with
  sleep/wakeup that sleep locks, pipes, admission to the log and disk requests are instances of; the pipe ring with
  32-bit counters; the split virtqueue of VirtIO 1.1 (sections 2.6 and 5.2) with its 16-bit indices.
* **Memory** (`kernel/vm.c`, `kernel/kalloc.c`, macros of `kernel/riscv.h`): three-level Sv39 page tables (section
  4.4 of the RISC-V Privileged Architecture manual) that live in pages of the page allocator.
* **malloc** (`user/umalloc.c`): the circular, address-ordered free list with coalescing.
* **The shell's parser** (`user/sh.c`): recursive descent over a line, against a grammar with a meaning, and the
  in-place cutting into C strings.

Code that updates state in place is a class with methods (`LogDriver.LogDevice`, `BufferCache.Bcache`,
`FileSys.Fsys`, `Vm.Memory`, `ProcLoops.Table`, `PipeRing.Pipe`, `VirtqDriver.Descriptors`, `MallocHeap.Heap`) or a
method over an array (`ShellStrings.NulTerminate`). Protocols are state machines: a datatype of steps, a guard and
an effect for each, an invariant kept by every step, and theorems about every reachable state.

Assumptions: block writes are atomic and synchronous and reach the disk in order; memory is sequentially consistent;
the disk device follows the VirtIO steps and succeeds; no fairness, so the results are safety properties and what a
process achieves when the others leave it alone (the modules named Progress). Copies between user and kernel memory,
the success of `sbrk`, and being killed are parameters of the operations.

## Where the code falls short

* The shipped file system image has a log area of LOGSIZE blocks, header included, while admission counts on
  LOGSIZE data blocks. So `log_write` can refuse an operation that has room left in its bound: reachable exactly if
  the log area is no larger than LOGSIZE (`LogFull.RefusalIffLogTooSmall`, `LogFull.ShippedLayoutRefuses`).
* A larger log area is not enough for every lawful call: `log_write` tests fullness before absorption, so an
  operation that used its whole bound is refused when it logs a block again while the list is full
  (`LogFull.LargeLogRefusesAbsorbing`), and only then (`LogFull.RefusedIffListFull`).
* A log area larger than LOGSIZE needs more than LOGSIZE buffers, the number the kernel has: a commit of as many
  blocks as there are buffers finds none for the log blocks and never ends (`LogProgress.CommitFinishesIff`,
  `LogProgress.StuckIff`).
* A writer of a pipe that is found killed leaves without waking the readers. The reader's guarantee fails exactly
  when such a writer stored a byte since its last wakeup (`PipeSync.QuitStrandsIff`,
  `PipeSync.KilledWriterStrandsReader`).
* For requests above 2^31 - 32 bytes `morecore` does not ask `sbrk` for the memory that the new block claims
  (`MallocHeap.RequestFits`, `MallocHeap.RequestFails`); `MallocHeap.Heap.Malloc` covers every request that is not
  above that bound or finds a free block.
* The comment above `uvmdealloc` allows `oldsz` to exceed the process size. Up to 8 TiB the code then panics in
  `uvmunmap` exactly if `oldsz` has more pages than the process and than `newsz` (`VmRanges.OversizeIff`,
  `VmRanges.OneByteTooMuch`). Beyond that the number of pages to give up is truncated to an int
  (`VmRanges.CountTruncated`, `VmRanges.TruncatedSizes`); `VmRanges.DeallocIff` has the exact condition for all
  64-bit sizes.

## Model

| member | source | states |
|---|---|---|
| `Blocks.SetWord` | kernel/log.c:107-112 | storing a 32-bit word in a block makes that word read back and keeps every other word |
| `Blocks.EncodeHeader` | kernel/log.c:103-115 | the header written over any old block contents is one that read_head decodes to the same list |
| `LogSafety.KeepsLogWrite` | kernel/log.c:214-235 | logging a changed buffer, absorbed or appended and pinned, keeps the cache, disk and admission invariants |
| `LogSafety.KeepsCopy` | kernel/log.c:178-191 | one iteration of write_log keeps the invariants while other processes use the cache |
| `LogSafety.KeepsWriteHead` | kernel/log.c:103-115 | the header write of commit keeps the invariants and is where the logged contents become the recoverable ones |
| `LogSafety.KeepsInstall` | kernel/log.c:68-83 | one iteration of install_trans writes home what is logged, unpins it, and keeps the invariants |
| `LogSafety.KeepsClear` | kernel/log.c:193-203 | erasing the header after a complete installation keeps the invariants |
| `LogSafety.KeepsMiss` | kernel/bio.c:59-89 | recycling an unreferenced buffer for another block never drops a block the disk does not hold yet |
| `LogSafety.KeepsCrash` | kernel/log.c:117-123 | whatever state a crash hits, the disk it leaves together with an empty cache satisfies the invariants |
| `LogSafety.KeepsRecover` | kernel/log.c:68-83 | one iteration of recovery keeps the invariants, so recovery may crash and start over |
| `LogSafety.StepKeepsInv` | kernel/log.c:55-235 | every step of every process, and a crash, keeps the whole invariant of log, cache and disk |
| `LogSafety.RunKeepsInv` | kernel/log.c:55-235 | the invariant holds in every reachable state of every run, with any number of crashes |
| `LogSafety.InitialInv` | kernel/log.c:55-65 | a machine that boots on any disk with a well-formed log satisfies the invariant |
| `LogSafety.ReadSeesLastLogged` | kernel/bio.c:93-103 | whoever holds a block with no unlogged change reads its last logged contents, and the disk's if it is not in the log |
| `LogSafety.HeldBufferIsPrivate` | kernel/bio.c:93-134 | while a process holds a buffer's lock no step of another one changes which block it is, its contents, its validity or its lock |
| `LogSafety.StaleBlocksStayCached` | kernel/log.c:214-235 | a block whose home copy is out of date is in the log list, cached, valid and referenced, so it is not recycled |
| `LogSafety.OnlyWriteHeadCommits` | kernel/log.c:193-203 | only commit's header write changes what a crash recovers, to everything logged, and then no operation is under way |
| `LogSafety.CommittedByRun` | kernel/log.c:193-203 | what a crash recovers after a run is what it started with if no commit wrote its header, else the logged contents at the last one that did |
| `LogSafety.CrashRecoversLastCommit` | kernel/log.c:68-123 | crash atomicity over whole runs with crashes during commits and recoveries: all home blocks recover to the last commit of the run, or to the start without one, never a mixture and never an older commit |
| `LogSafety.RecoveryRestoresCommitted` | kernel/log.c:117-123 | when recovery ends every home block reads as the committed one |
| `LogSafety.FinishedCommitIsDurable` | kernel/log.c:193-203 | at the end of a commit logged, committed and on-disk contents agree on every home block |
| `LogSafety.IdleIsDurable` | kernel/log.c:146-175 | in every run from boot, whenever no operation and no commit is under way, the log list is empty and logged, committed and on-disk contents agree on every home block: the last operation out has committed |
| `LogSafety.CommitIsolation` | kernel/log.c:126-175 | while a commit runs outstanding is 0, nobody can begin an operation or call log_write, and end_op's panic is unreachable |
| `LogSafety.CommitIsTheCommitters` | kernel/log.c:178-203 | while a commit runs only steps of the committer change the list, the log or the disk |
| `LogSafety.AdmissionCoversLogWrite` | kernel/log.c:126-143 | the log list plus the caller's unused reservation fits LOGSIZE; with a log area above LOGSIZE a call passes exactly if the list is not full, so always while the operation has room left |
| `LogFull.RefusedIffListFull` | kernel/log.c:218-228 | for every lawful call: with a log area above LOGSIZE it is refused if and only if the list has LOGSIZE blocks, and then it is an absorbing call of an operation that used its whole bound; with a smaller area if and only if the area is full |
| `LogFull.LargeLogRefusesAbsorbing` | kernel/log.c:218-228 | however large the log area above LOGSIZE, a run from boot gets such an absorbing call refused, because fullness is tested before absorption |
| `LogFull.SmallLogRefuses` | kernel/log.c:218-222 | with a log area of at most LOGSIZE blocks some run from boot makes log_write refuse an operation with room left in its bound |
| `LogFull.RefusalIffLogTooSmall` | kernel/log.c:218-222 | a refusal of an operation with room left is reachable if and only if the log area is no larger than LOGSIZE |
| `LogFull.ShippedLayoutRefuses` | mkfs/mkfs.c:25 | the layout that mkfs writes is on the wrong side of that condition |
| `LogProgress.CommitCompletes` | kernel/log.c:193-203 | a commit that is left alone, in any of its phases and with more buffers than logged blocks, gets to its end by steps of the committer alone: everything logged is on disk and operations may begin |
| `LogProgress.CommitFinishesIff` | kernel/log.c:178-203 | a commit that starts with nobody at the buffers can finish if and only if there are more buffers than logged blocks; otherwise no run without a crash gets past it |
| `LogProgress.StuckIff` | kernel/bio.c:59-89 | with at least LOGSIZE buffers a run from boot reaches such a stuck commit if and only if there are exactly LOGSIZE buffers and the log area is larger than LOGSIZE |
| `LogProgress.OperationGoesThrough` | kernel/log.c:126-235 | an operation that writes a block, left alone from begin_op to the end of its commit, leaves that contents on disk and for every reader, nothing else changed, and the next operation may begin |
| `LogProgress.RecoveryCompletes` | kernel/log.c:117-123 | recovery that is left alone gets to its end, with the committed contents on disk and for every reader |
| `LogProgress.CrashRecovers` | kernel/log.c:117-123 | after a crash in any state, recovery that is left alone leaves exactly the committed contents on disk and for every reader |
| `LogProgress.StepIsCounted` | kernel/log.c:126-235 | the changes of the counts that begin_op sleeps on are those of this machine, step by step |
| `LogDriver.HeaderCommits` | kernel/log.c:103-115 | writing a header whose listed blocks are in the log area turns the recoverable contents from old to new |
| `LogDriver.InstallPrefixRecovers` | kernel/log.c:68-83 | however far installation got, the disk still recovers to the same contents and that many blocks are home |
| `LogDriver.LogTraceRecovers` | kernel/log.c:178-191 | every disk that write_log leaves on the way recovers to the old contents |
| `LogDriver.LogDevice.LogWrite` | kernel/log.c:214-235 | refuses exactly a full log or a call outside an operation, the fullness test first; otherwise the list gains the block unless it is there |
| `LogDriver.LogDevice.TryBegin` | kernel/log.c:126-143 | one round of begin_op admits exactly when no commit runs and a whole reservation for every operation fits |
| `LogDriver.LogDevice.EndOp` | kernel/log.c:146-175 | panics exactly if a commit is under way; else the last operation out, and no other, turns committing on |
| `LogDriver.LogDevice.WriteHead` | kernel/log.c:103-115 | changes the header block only, in one disk write, to one that decodes to the list in memory |
| `LogDriver.LogDevice.ReadHead` | kernel/log.c:87-98 | the list in memory becomes the one the disk's header holds |
| `LogDriver.LogDevice.WriteLog` | kernel/log.c:178-191 | the disk and its history are those of copying the listed buffers to the log area one by one |
| `LogDriver.LogDevice.InstallTrans` | kernel/log.c:68-83 | the disk and its history are those of copying the log area home one by one |
| `LogDriver.LogDevice.Commit` | kernel/log.c:193-203 | a crash after any write before the header write recovers the old home blocks, after it or any later one the new; at the end they are home and the log is empty |
| `LogDriver.LogDevice.RecoverFromLog` | kernel/log.c:117-123 | every disk on the way, one per logged block and one for the header, recovers to the same contents, which are home at the end with an empty log |
| `BufferCache.UnlinkRemoves` | kernel/bio.c:125-126 | the two pointer writes that unlink a buffer leave the circle of all the others in order |
| `BufferCache.LinkFrontAdds` | kernel/bio.c:127-130 | the four pointer writes that link a buffer after the head put it in front |
| `BufferCache.BuildList` | kernel/bio.c:43-51 | binit's loop builds one circle of all buffers, the last one first |
| `BufferCache.Find` | kernel/bio.c:65-73 | walking forward from the head finds the block if any buffer holds it |
| `BufferCache.Victim` | kernel/bio.c:76-87 | walking backward finds the last unreferenced buffer of the list, and fails only if all are referenced |
| `BufferCache.LastIsOldest` | kernel/bio.c:74-87 | that buffer is the one released to zero longest ago |
| `BufferCache.Bcache.constructor` | kernel/bio.c:36-53 | after binit the list is well formed and every buffer is (dev 0, block 0), unreferenced |
| `BufferCache.Bcache.Bget` | kernel/bio.c:58-89 | a hit takes a reference on the cached buffer, a miss recycles the least recently released one, none exactly if no buffer holds the block and all are in use; no block of a device other than 0 is ever cached twice |
| `BufferCache.Bcache.Brelse` | kernel/bio.c:116-137 | the last reference moves the buffer to the front of a list that stays a well-formed circle of all buffers sorted by release time; any other release leaves the order |
| `BufferCache.Bcache.Bpin` | kernel/bio.c:139-144 | one reference more, order and uniqueness kept |
| `BufferCache.Bcache.Bunpin` | kernel/bio.c:146-151 | one reference less, and the buffer is not moved even when it was the last |
| `Bits.SetBit` | kernel/fs.c:77 | setting a bit in a byte sets that bit and no other |
| `Bits.ClearBit` | kernel/fs.c:102 | clearing a bit clears that bit and no other |
| `FsModel.MarkUsedSets` | kernel/fs.c:73-78 | marking a block in the free map sets its bit and keeps that of every other block |
| `FsModel.MarkFreeClears` | kernel/fs.c:97-103 | the same for clearing |
| `FsModel.UsedIffReferredToOnce` | kernel/fs.c:376-453 | between operations a data block is marked used exactly if some inode slot or indirect entry refers to it, and then only one does |
| `FsModel.AllocKeeps` | kernel/fs.c:65-88 | allocation changes no reference and no owned block's contents |
| `FsModel.LinkDirectKeeps` | kernel/fs.c:388-395 | entering a block in an address slot changes that reference only and keeps ownership consistent |
| `FsModel.LinkEntryKeeps` | kernel/fs.c:400-416 | entering a block in the indirect block changes that reference only and no other block |
| `FsModel.WriteKeeps` | kernel/fs.c:519-527 | overwriting file data changes no reference |
| `FsModel.FreeDirectKeeps` | kernel/fs.c:431-436 | freeing a direct block meets a set bit and removes that reference only |
| `FsModel.FreeEntryKeeps` | kernel/fs.c:438-445 | so does freeing an indirect entry, although the indirect block still names it |
| `FsModel.FreeIndirectKeeps` | kernel/fs.c:446-448 | with all entries freed, freeing the indirect block leaves a consistent file system without the inode's indirect references |
| `FsContents.Content` | kernel/fs.c:376-380 | a file without holes is a byte string of its size, read through direct and indirect blocks |
| `FsContents.HoleFreeMapped` | kernel/fs.c:382-421 | every byte below the size of such a file lies in a block that is there |
| `FsContents.WrittenContent` | kernel/fs.c:505-539 | after the loop and the size update the file is the old bytes overwritten from the offset, and every other file is as before |
| `FileSys.ScanBlock` | kernel/fs.c:73-83 | the inner loop of balloc finds the first clear bit of a free-map block |
| `FileSys.FindFree` | kernel/fs.c:71-85 | the two loops of balloc find the lowest free block of the disk, or show that none is free |
| `FileSys.Fsys.Balloc` | kernel/fs.c:65-88 | the lowest block nobody owns is marked and zeroed and two blocks are logged; 0 exactly with a full disk and nothing changed |
| `FileSys.Fsys.Bfree` | kernel/fs.c:90-105 | succeeds exactly if the block was marked used, and clears that bit only |
| `FileSys.Fsys.BmapDirect` | kernel/fs.c:388-396 | the direct half of bmap: the same for the first NDIRECT blocks |
| `FileSys.Fsys.BmapEntry` | kernel/fs.c:406-416 | the indirect half of bmap maps one more entry, to a zeroed block, or reports a full disk |
| `FileSys.Fsys.Bmap` | kernel/fs.c:382-421 | after it the file block is mapped, a newly mapped block is zero, no other reference or owned block changed; a mapped block logs nothing and every changed block is logged; 0 only with a full disk |
| `FileSys.ReadChunk` | kernel/fs.c:484-494 | each chunk readi copies lies in one mapped block and holds the file's bytes |
| `FileSys.Fsys.ReadStep` | kernel/fs.c:484-494 | one round of readi changes nothing and yields the file's bytes there |
| `FileSys.Fsys.Readi` | kernel/fs.c:471-497 | reads exactly the slice of the file clipped to its size, nothing past the end or on overflow, -1 exactly at a failed copy, with the copies of all rounds before it good, and changes nothing |
| `FileSys.Fsys.WriteRound` | kernel/fs.c:518-528 | one round of writei extends the written prefix to the end of the block or of the data, or stops for a failed copy or a full disk |
| `FileSys.Fsys.WriteLoop` | kernel/fs.c:518-528 | the loop writes a prefix, all of it unless a copy fails or the disk fills, and logs within the count of spanned blocks |
| `FileSys.WriteEnds` | kernel/fs.c:530-538 | with the size set to the maximum of old size and end, the written prefix is an overwrite of the file and all files stay without holes |
| `FileSys.Fsys.Writei` | kernel/fs.c:505-539 | -1 exactly on the three argument errors and then nothing changed; else exactly [off, off+r) is replaced, the file grows if need be, no other file changes, ownership stays settled, and a bound on the blocks logged; every block that differs afterwards is among them; it stops short only at a failed copy or with a full disk, and counts bytes only of rounds whose copies were good |
| `FileSys.WroteTwice` | kernel/file.c:157-173 | two adjoining writes are one write of the joined data |
| `FileSys.ChunkFits` | kernel/file.c:155 | a chunk of filewrite's size logs at most MAXOPBLOCKS distinct blocks wherever it starts, even with every allocation in another bitmap block |
| `FileSys.Fsys.WriteChunk` | kernel/file.c:157-171 | one transaction of filewrite logs at most MAXOPBLOCKS distinct blocks, extends what is written by what writei reports, and passes on why it stopped short |
| `FileSys.Fsys.Filewrite` | kernel/file.c:149-174 | every transaction stays within MAXOPBLOCKS, the file ends up with the first off'-off bytes at the offset; a count of at least 0 is returned if and only if all bytes are there, else -1, and -1 comes only with its cause: an offset beyond the file, a chunk beyond the largest file, a failed copy at the very place, or a full disk |
| `FileSys.Fsys.TruncDirect` | kernel/fs.c:431-436 | the first loop of itrunc frees exactly the direct blocks |
| `FileSys.Fsys.TruncEntries` | kernel/fs.c:438-445 | the second loop frees exactly the blocks the indirect block names |
| `FileSys.Fsys.TruncIndirect` | kernel/fs.c:438-449 | then the indirect block itself goes, and the file system is consistent again |
| `FileSys.Fsys.Itrunc` | kernel/fs.c:424-453 | exactly the inode's blocks are freed, the panic on freeing a free block is unreachable, all else stays, and every changed block is logged |
| `FsTrunc.TruncatedBits` | kernel/fs.c:426-453 | a free-map bit is set afterwards exactly if it was set and the inode did not refer to the block |
| `FsTrunc.TruncatedContent` | kernel/fs.c:426-453 | the file is empty, every other file has its bytes |
| `FsRuns.StepRefines` | kernel/fs.c:424-539 | a write or truncation of blocks is the same operation on plain byte strings |
| `FsRuns.WriteIsStep` | kernel/fs.c:505-539 | every call of writei is such a step with the data it got through, or fails and changes nothing; only that inode and logged blocks change |
| `FsRuns.TruncIsStep` | kernel/fs.c:424-453 | every call of itrunc is one; only that inode and logged blocks change |
| `FsRuns.RunRefines` | kernel/fs.c:424-539 | every run of writes and truncations is a run over plain byte strings |
| `FsRuns.RunKeepsOwnership` | kernel/fs.c:382-453 | at every point of such a run a data block is marked used exactly if one slot refers to it |
| `FsImage.PutInodeIs` | kernel/fs.c:226-241 | an inode that iupdate stored reads back: its size and all its addresses |
| `FsImage.PutInodeKeeps` | kernel/fs.c:226-241 | and the other inodes of that block stay as they were |
| `FsImage.StoredOnce` | kernel/fs.h:32-45 | the blocks on disk determine the files: two sound file systems stored as the same blocks have the same files |
| `FsImage.OpStepRefines` | kernel/fs.c:424-539 | one operation taken from disk image to disk image is the operation on plain byte strings |
| `FsImage.TrackedImage` | kernel/fs.c:226-241 | an operation whose changed blocks are logged and that ends in iupdate leaves an image of its result that differs from the old one in logged blocks only |
| `FsImage.WriteTransaction` | kernel/fs.c:505-539 | writei between begin_op and end_op takes a stored image to the image after one whole write, differing only in the blocks it logged, of which there are at most as many as its bound |
| `FsImage.TruncTransaction` | kernel/fs.c:424-453 | itrunc between begin_op and end_op likewise for one whole truncation |
| `FsCrash.ShippedLayout` | mkfs/mkfs.c:20-103 | the layout that mkfs writes keeps log, inodes, free map and data apart, as the theorems below ask |
| `FsCrash.EpisodeLogs` | kernel/log.c:214-235 | between two moments without operations under way every block holds what was last passed to log_write for it, or what it held before |
| `FsCrash.LoggedIsWhole` | kernel/log.c:126-235 | so if what is logged between them is the image after some operations, what they have done is those operations, whole |
| `FsCrash.StepExplained` | kernel/log.c:126-203 | every step of the log system keeps: the committed contents are the image after the operations committed, the contents at the last moment without operations under way that after all of them |
| `FsCrash.TraceExplained` | kernel/log.c:55-235 | so in every state of every run with crashes and recoveries, with the operations lost in a crash dropped |
| `FsCrash.CrashRecoversWholeOperations` | kernel/log.c:117-123 | file-level crash consistency: wherever a run is cut, recovery yields a sound file system whose files are those after exactly the operations that were over at the last commit |
| `FsCrash.QuietFilesAreWhole` | kernel/log.c:146-175 | with no operation under way, what readers see are the files after all operations so far |
| `Sv39.PteRoundTrip` | kernel/riscv.h:367-371 | PTE2PA and PTE_FLAGS undo PA2PTE under any flags for every page-aligned 64-bit address |
| `Sv39.PxVpn` | kernel/riscv.h:373-382 | the three indices of an address below MAXVA determine its page, the top one in the lower half |
| `Sv39.DistinctPages` | kernel/riscv.h:373-376 | two pages below MAXVA differ in one of the three indices |
| `PageTree.WalkStep` | kernel/vm.c:85-103 | an inner entry is valid exactly if the next table exists, leads to it, and is never half valid |
| `PageTree.LeafEntry` | kernel/vm.c:85-103 | a non-zero leaf entry is valid and a leaf, and its user page is used for nothing else |
| `PageSteps.AllocKeeps` | kernel/kalloc.c:68-82 | taking a page off the free list changes no translation and keeps all trees |
| `PageSteps.ReleaseKeeps` | kernel/kalloc.c:46-63 | giving back a page that no tree uses does too |
| `PageSteps.AddKeeps` | kernel/vm.c:90-101 | entering a new table or user page in an empty slot keeps every tree a tree, with no page used twice |
| `PageSteps.AddPte` | kernel/vm.c:90-101 | a new table changes no translation, a new user page only its own |
| `PageSteps.DropKeeps` | kernel/vm.c:185-198 | removing an entry and giving back its page keeps all trees |
| `PageSteps.DropPte` | kernel/vm.c:185-198 | and changes that translation only |
| `PageSteps.LendPte` | kernel/proc.c:186-203 | mapping a page that belongs to somebody else (trampoline, trapframe) changes that translation only |
| `PageSteps.NewRootKeeps` | kernel/vm.c:203-212 | a zeroed page becomes the root of a new tree |
| `PageSteps.DropRootKeeps` | kernel/vm.c:278-294 | an empty root can be given back |
| `VmFrame.OtherTrees` | kernel/vm.c:85-199 | whatever is done to one tree, every other translates as before to pages with the same contents |
| `VmGrow.DistinctFrames` | kernel/vm.c:232-256 | two user pages of a process never share a physical page |
| `VmGrow.SizeBounded` | kernel/vm.c:232-256 | no process can have more pages than the machine, so growth never reaches the trapframe |
| `VmGrow.ExtendedUndone` | kernel/vm.c:243-252 | unmapping the new pages restores every translation, with at most more tables, all reachable |
| `VmFree.TableReached` | kernel/vm.c:85-103 | every page used as a table is the one its root leads to, so none is lost |
| `VmFree.PathUse` | kernel/vm.c:85-103 | a valid path of entries from a live root leads to a page used as that table, and every such table has one |
| `VmFree.PteIsWalk` | kernel/vm.c:85-103 | the map from pages to entries that the contracts speak of is what a level by level walk through memory finds |
| `VmFree.PageConservation` | kernel/kalloc.c:33-82 | read off memory: every page is in exactly one of the free list, the end of one table path from one live root, a user page mapped at one address of one live tree, or other owners |
| `VmFree.CreatedUndone` | kernel/proc.c:186-203 | making a tree and freeing it again gives back all pages |
| `Vm.Memory.constructor` | kernel/kalloc.c:26-40 | after kinit exactly the pages from the kernel's end on are free |
| `Vm.Memory.Kalloc` | kernel/kalloc.c:68-82 | the head of the list, or 0 exactly if there is none; no tree changes |
| `Vm.Memory.Kfree` | kernel/kalloc.c:46-63 | panics exactly on pages outside the allocator's range; else the page becomes the head of the list |
| `Vm.Memory.Walk` | kernel/vm.c:85-103 | panics exactly from MAXVA on; finds the leaf table of the address; added tables change no translation, are exactly those missing on the way, and are paid by the free list; fails exactly if the table is missing and may not be made or the list is too short |
| `Vm.Memory.Mappages` | kernel/vm.c:143-172 | refines insertion: the pages of the range translate to the consecutive physical pages with these flags, nothing else changes; panics at once exactly on an unaligned or empty range, and on a page that was mapped, after the prefix before it; fails after a prefix only without memory, that is too few free pages for the missing tables |
| `Vm.Memory.UnmapOne` | kernel/vm.c:185-198 | panics exactly if the page is not mapped, an entry that is not a leaf being unreachable; else that page alone is unmapped, and freed if owned |
| `Vm.Memory.Uvmunmap` | kernel/vm.c:177-199 | with the loop's 64-bit bound: refines removal of the range, its pages free again unless lent; panics exactly on an unaligned address or a page of the range that is not mapped, after the pages before it |
| `Vm.Memory.UnmapAll` | kernel/vm.c:177-199 | on a mapped range no panic is reachable and all of it is unmapped |
| `Vm.Memory.Uvmdealloc` | kernel/vm.c:258-274 | on a process of n pages: panics exactly if a page it gives up is not mapped, that is not among the n; else unmaps exactly those, and from the true size the process shrinks to the smaller one |
| `VmRanges.OversizeIff` | kernel/vm.c:258-274 | for sizes up to 8 TiB shrinking works if and only if oldsz has no more pages than the process, or no more than newsz |
| `VmRanges.OneByteTooMuch` | kernel/vm.c:258-274 | for every process size one byte more than its pages hold already panics, although the documentation allows it |
| `VmRanges.CountTruncated` | kernel/vm.c:269 | for every pair of 64-bit sizes the pages given up are those of the page count read as an int and shifted back modulo 2^64: the count itself below 2^31, none at multiples of 2^32 |
| `VmRanges.DeallocIff` | kernel/vm.c:262-274 | for all 64-bit sizes the exact condition under which uvmdealloc does not panic: nothing to give up, or the low 32 bits of the page count are zero or stay within the process, or are negative and the unsigned loop bound wraps below its start |
| `VmRanges.TruncatedSizes` | kernel/vm.c:269 | a size of 2^44 bytes and one page gives up one page only, and one of 2^43 bytes panics for every process |
| `Vm.Memory.Uvmalloc` | kernel/vm.c:232-256 | grows by zeroed user pages up to the new size, or leaves the user mapping as it was, whatever 64-bit size is asked for; fails if and only if the free list is shorter than the pages and the page tables that are missing |
| `Vm.Memory.Uvmcopy` | kernel/vm.c:312-340 | the child gets every page with flags and contents, or its user mapping stays empty; fails if and only if the free list is shorter than the pages and the page tables that the child is missing; neither panic is reachable |
| `Vm.Memory.Freewalk` | kernel/vm.c:278-294 | on a tree without leaves all tables at and below are freed, the panic unreachable |
| `Vm.Memory.Uvmfree` | kernel/vm.c:298-304 | every user page and table of the process is free |
| `Vm.Memory.ProcFreepagetable` | kernel/proc.c:210-216 | so does this, with trampoline and trapframe unmapped first, meeting no panic |
| `Vm.Memory.Uvmcreate` | kernel/vm.c:203-212 | an empty tree with its root only, or 0 exactly with no page left and nothing changed |
| `Vm.Memory.ProcPagetable` | kernel/proc.c:176-206 | a tree that maps the two kernel pages and nothing else, or 0 with every page back, if and only if fewer than three pages are free |
| `Vm.Memory.Walkaddr` | kernel/vm.c:108-126 | the page of an address exactly if the user may read it, any address allowed |
| `VmCost.SpentTrans` | kernel/vm.c:85-103 | costs add up: a table that an earlier page needed is not paid for again |
| `VmCost.TooFewFor` | kernel/vm.c:232-256 | too few pages at some page on the way is too few for the whole range |
| `Vm.Memory.Copyin` | kernel/vm.c:388-408 | the bytes at the address if all are readable, failure otherwise; memory unchanged |
| `Vm.Memory.Copyout` | kernel/vm.c:358-383 | writes up to the first byte that may not be written, only bytes that may be, and nowhere else |
| `VmCopy.CopyInAgrees` | kernel/vm.c:388-408 | two processes with the same view get the same success and bytes from copyin for every range |
| `VmCopy.CopyOutIsolated` | kernel/vm.c:358-383 | copyout into one process leaves the view of every other |
| `VmCopy.ChangesIsolated` | kernel/vm.c:177-340 | growing or shrinking one process, or a failed attempt, leaves the view of every other |
| `VmCopy.ForkSameView` | kernel/vm.c:312-340 | after uvmcopy parent and child have the same view |
| `VmCopy.WritesIsolated` | kernel/vm.c:358-408 | any run of copyouts into other processes leaves the view of this one |
| `VmCopy.ForkIsolated` | kernel/vm.c:312-408 | end to end: after a successful uvmcopy and any run of copyouts into anything but one side, copyin from that side still gives what it gave from the parent before the fork, success and bytes, for every range |
| `ProcSafety.KeepsForkAlloc` | kernel/proc.c:105-149 | taking an unused slot keeps the invariant of parents, sleepers and locks |
| `ProcSafety.KeepsForkFail` | kernel/proc.c:293-297 | so does giving it back when the memory copy fails |
| `ProcSafety.KeepsForkSetParent` | kernel/proc.c:317-319 | so does setting the parent under wait_lock |
| `ProcSafety.KeepsForkRun` | kernel/proc.c:321-323 | so does making the child runnable |
| `ProcSafety.KeepsReparentOne` | kernel/proc.c:330-340 | so does each step of giving the children of an exiting process to init |
| `ProcSafety.KeepsReparentWakeOne` | kernel/proc.c:578-592 | so does each step of the wakeup of init in between |
| `ProcSafety.KeepsExitWakeOne` | kernel/proc.c:368-369 | so does each step of waking the parent |
| `ProcSafety.KeepsExitEnd` | kernel/proc.c:371-376 | turning into a zombie leaves no child behind and no parent asleep |
| `ProcSafety.KeepsWaitLook` | kernel/proc.c:400-423 | each step of wait's scan keeps it, reaping included |
| `ProcSafety.KeepsSleepSet` | kernel/proc.c:562-566 | so does going to sleep after wait_lock was released |
| `ProcRuns.StepKeepsInv` | kernel/proc.c:280-616 | every step of every process keeps the invariant |
| `ProcRuns.StepKeepsPids` | kernel/proc.c:92-103 | every step keeps pids unique and below the next one, and the records of exited and reaped pids right |
| `ProcRuns.RunKeeps` | kernel/proc.c:280-616 | both hold in every state that any interleaving reaches |
| `ProcRuns.NoOrphans` | kernel/proc.c:326-376 | whenever wait_lock is free every process but init that runs, sleeps or is a zombie has a parent that is alive |
| `ProcRuns.NoLostExit` | kernel/proc.c:346-435 | whenever wait_lock is free no parent is asleep in wait with a zombie child |
| `ProcRuns.ReapedOnce` | kernel/proc.c:390-435 | no pid exits or is reaped twice, none is reaped before it exits, and every zombie is still to be reaped |
| `ProcRuns.GivesUpOnlyChildless` | kernel/proc.c:425-429 | wait returns -1 without being killed only if there is no child at all, whatever happened during the scan |
| `ProcRuns.SleepsOnlyOnLiveChildren` | kernel/proc.c:431-432 | wait goes to sleep only with no zombie among its children |
| `ProcRuns.KilledWasNamed` | kernel/proc.c:597-616 | in every run, whoever is marked as killed has a pid that kill was called with earlier |
| `ProcRuns.BornUnkilled` | kernel/proc.c:105-173 | so a process that fork has just made is not marked, whoever had its slot before, and its pid is new |
| `ProcLocks.OwnLockExcludes` | kernel/proc.h:86-93 | in every run, while somebody holds a process's lock nobody else changes what it protects: state, channel, kill mark, exit status, pid |
| `ProcLocks.WaitLockExcludes` | kernel/proc.h:95-96 | in every run, while somebody holds wait_lock nobody else changes a parent pointer |
| `ProcLocks.StaysAsleep` | kernel/proc.c:547-616 | in every run a process asleep in wait is woken by exactly these: a look of a child's exit at it, a look of an adoption by init, or kill |
| `ProcLocks.SleepsOnlyWithChild` | kernel/proc.c:425-434 | in every run wait goes to sleep only with a child, and not killed |
| `ProcStatus.StatusIsDelivered` | kernel/proc.c:347-423 | in every run the status that wait copies out for a pid is the one that process ended with |
| `ProcStatus.SaidAtExit` | kernel/proc.c:347-388 | and that is the argument of its exit, recorded at that step and never changed |
| `ProcProgress.ForkAlone` | kernel/proc.c:280-330 | fork, left alone, ends with a runnable child of the caller with a new pid that is not killed, and nothing else changed |
| `ProcProgress.ForkFailsAlone` | kernel/proc.c:280-300 | fork without memory for the child leaves everything as it was but for the pid used up |
| `ProcProgress.ExitAlone` | kernel/proc.c:328-388 | exit, left alone, ends with a zombie whose children are init's, with its parent and, if there were children, init awake: what the loops of reparent and wakeup compute |
| `ProcProgress.WaitReaps` | kernel/proc.c:391-423 | wait with an exited child, left alone, empties the slot of the first one in the table and returns with its pid |
| `ProcProgress.WaitSleeps` | kernel/proc.c:425-434 | without one it gives up exactly if there is no child or the caller is killed, and else is asleep with wait_lock free |
| `ProcProgress.ExitIsReaped` | kernel/proc.c:328-434 | a parent asleep in wait is woken by a child's exit, runs again and reaps a child |
| `ProcProgress.KilledWaitGivesUp` | kernel/proc.c:597-616 | a process asleep in wait that is killed runs again and its wait gives up |
| `ProcProgress.YieldResumes` | kernel/proc.c:510-520 | a process that yields can be scheduled and then goes on where it was |
| `ProcProgress.SleepElsewhereResumes` | kernel/proc.c:547-592 | one that sleeps cannot be scheduled until it is woken, and then goes on where it was |
| `ProcLoops.Table.Allocproc` | kernel/proc.c:105-149 | the first unused slot is taken with a new pid, and emptied field by field, the pid used up, if there is no memory for it; no slot exactly if none is unused |
| `ProcLoops.Table.WaitScanAll` | kernel/proc.c:400-423 | the first zombie child is freed, its slot empty field by field (no pid, parent, channel, status or kill mark), and its pid and exit status returned unless the copy fails; otherwise whether there are children, with nothing changed |
| `ProcLoops.Table.Wakeup` | kernel/proc.c:578-592 | exactly the other processes asleep on the channel become runnable |
| `ProcLoops.Table.ReparentAll` | kernel/proc.c:328-340 | its children have init as parent, all sleepers on init's channel are awake exactly if there was a child, and nothing else changed |
| `ProcLoops.Table.Kill` | kernel/proc.c:597-616 | the first process with that pid is marked and, if asleep, made runnable; false exactly if there is none |
| `Monitor.StepKeepsInv` | kernel/proc.c:547-592 | with conditions made true and wakeups made under the lock only, every step keeps: a sleeper whose condition holds is about to be woken |
| `Monitor.NoLostWakeup` | kernel/proc.c:547-592 | for any condition and data, in every run, whenever the lock is free nobody sleeps on a condition that holds |
| `Monitor.UndisciplinedLeave` | kernel/proc.c:547-592 | where wakeups are owed only for conditions that hold, giving up the lock strands a sleeper exactly if its channel is still owed one |
| `Monitor.SleeperStays` | kernel/proc.c:547-592 | a sleeper stays asleep exactly until a wakeup on its channel gets to it or it is killed |
| `Monitor.InterruptedReturns` | kernel/proc.c:597-616 | a sleeper that is killed is back in the monitor, whatever the condition |
| `MonitorProgress.WakeupAlone` | kernel/proc.c:577-592 | wakeup, for any condition and data, ends with exactly the sleepers on its channel awake |
| `MonitorProgress.WokenRuns` | kernel/proc.c:547-592 | a sleeper whose channel is woken gets the lock again and finds the data as it was left |
| `MonitorProgress.HandOver` | kernel/sleeplock.c:21-41 | releasesleep with a sleeper in acquiresleep: the sleeper gets the lock |
| `MonitorProgress.ByteGetsThrough` | kernel/pipe.c:76-130 | a reader asleep on an empty pipe gets the byte that a writer stores |
| `MonitorProgress.CommitAdmits` | kernel/log.c:126-175 | a sleeper in begin_op is admitted after the commit that kept it out |
| `SleepLocks.LawfulIsDisciplined` | kernel/sleeplock.c:21-41 | acquiresleep and releasesleep follow that discipline |
| `SleepLocks.StepKeepsGood` | kernel/sleeplock.c:21-41 | with the test and the set as separate steps, every step keeps: one holder, and who saw the lock free has the spinlock |
| `SleepLocks.TestHoldsUntilSet` | kernel/sleeplock.c:24-28 | in every run a process has the spinlock from its test to its set, and the lock is still free then |
| `SleepLocks.OneHolder` | kernel/sleeplock.c:21-52 | in every run at most one process has the lock, and the test of holdingsleep is true for it alone |
| `SleepLocks.UnlockedHasNoSleeper` | kernel/sleeplock.c:21-41 | whenever the spinlock is free an unlocked sleep lock has no sleeper |
| `PipeRing.CounterTests` | kernel/pipe.c:88-122 | the full and empty tests and the slot indices are right even after the 32-bit counters wrap |
| `PipeRing.StoreKeeps` | kernel/pipe.c:92-97 | storing a byte in a pipe that is not full overwrites none that is unread |
| `PipeRing.FetchKeeps` | kernel/pipe.c:118-122 | the byte fetched is the oldest one not fetched yet |
| `PipeRing.Pipe.constructor` | kernel/pipe.c:22-55 | a new pipe is empty with both ends open |
| `PipeRing.Pipe.Fill` | kernel/pipe.c:76-103 | up to its next sleep or end pipewrite appends exactly the bytes it passes, each with a good copy, an open read end and the writer not killed; and why it stops is told by the state there: killed or closed, else full, else a failed copy |
| `PipeRing.Pipe.Drain` | kernel/pipe.c:105-130 | piperead delivers the oldest bytes in order, each with a good copy; it stops early exactly at an empty pipe, or at a failed copy, and then the next oldest byte is lost |
| `PipeSync.ChangesOwe` | kernel/pipe.c:58-130 | each change of the pipe owes a wakeup to everybody it makes ready |
| `PipeSync.PipeIsFifo` | kernel/pipe.c:76-130 | in every run the bytes read are a prefix of those written with at most PIPESIZE in between |
| `PipeSync.ClosedTakesNothing` | kernel/pipe.c:58-103 | in every run, once the read end is closed no byte is stored any more |
| `PipeSync.WriterSleepsOnlyWhenFull` | kernel/pipe.c:76-103 | in every run, killed writers included, a sleeping writer has a full pipe with its read end open whenever the lock is free |
| `PipeSync.ReaderSleepsOnlyWhenEmpty` | kernel/pipe.c:105-130 | in runs where no writer quits owing a wakeup, a sleeping reader has an empty pipe with its write end open |
| `PipeSync.OwedAreReady` | kernel/pipe.c:76-130 | in every run, whoever owes readers or writers a wakeup has made them ready |
| `PipeSync.QuitStrandsIff` | kernel/pipe.c:84-87 | a writer that quits strands a sleeping reader exactly if it owes the readers a wakeup, that is stored since its last one |
| `PipeSync.KilledWriterStrandsReader` | kernel/pipe.c:84-87 | a run from an empty open pipe in which a reader sleeps on although a byte is there |
| `LogSync.LawfulIsDisciplined` | kernel/log.c:126-175 | begin_op and end_op follow the discipline of the monitor: each change of the counts that can admit someone is followed by a wakeup before the lock is given up |
| `LogSync.NobodySleepsAdmitted` | kernel/log.c:126-175 | in every run, whenever the lock is free a sleeper in begin_op is one whom a commit or lack of room keeps out |
| `VirtqSync.ChangesOwe` | kernel/virtio_disk.c:168-327 | each change of descriptors and requests owes a wakeup to everybody it makes ready |
| `VirtqSync.BufferSleeperIsBusy` | kernel/virtio_disk.c:277-327 | in every run, whenever the lock is free a process that sleeps on a buffer has its request still at the device |
| `VirtqSync.DescriptorSleeperHasTooFew` | kernel/virtio_disk.c:168-240 | and a process that sleeps for descriptors has fewer than three free ones |
| `Virtqueue.Push` | kernel/virtio_disk.c:267-271 | adding an entry at a 16-bit index overwrites no unread one and appends to the queue |
| `Virtqueue.Pop` | kernel/virtio_disk.c:311-323 | the entry at the reader's index is the oldest unread one |
| `Virtqueue.EmptyTest` | kernel/virtio_disk.c:311 | two 16-bit indices are equal exactly if nothing is unread |
| `Virtqueue.KeepsSubmit` | kernel/virtio_disk.c:215-275 | formatting and offering a request keeps the invariant of descriptors, rings and stages |
| `Virtqueue.KeepsDeviceTake` | kernel/virtio_disk.c:267-275 | so does the device taking an offer, which is always one nobody has worked on |
| `Virtqueue.KeepsDeviceReport` | kernel/virtio_disk.c:308-312 | so does its report, requests finishing in any order |
| `Virtqueue.KeepsInterrupt` | kernel/virtio_disk.c:311-324 | so does one iteration of the handler, which finds a reported request, its buffer in info, and puts down that buffer's flag only |
| `Virtqueue.KeepsComplete` | kernel/virtio_disk.c:277-285 | so does the end of virtio_disk_rw, entered on the buffer's flag alone: its request is then done |
| `Virtqueue.FreesThree` | kernel/virtio_disk.c:184-197 | following the links of a chain of three allocated descriptors frees these three and meets no panic |
| `Virtqueue.RunKeepsInv` | kernel/virtio_disk.c:155-327 | the invariant holds in every state that any interleaving of driver, device and handler reaches |
| `Virtqueue.DescriptorsPartition` | kernel/virtio_disk.c:155-285 | in every run each descriptor is free or in exactly one chain of three, and each buffer has one chain |
| `Virtqueue.NeverPanics` | kernel/virtio_disk.c:168-327 | in every run neither panic of free_desc nor a used entry without a buffer is met, and a buffer's flag is down exactly when its request is done |
| `Virtqueue.PanicsExactly` | kernel/virtio_disk.c:168-196 | when completion or the handler panics, in any state: a free descriptor on the chain, a report without a buffer |
| `Virtqueue.CompletesAfterDevice` | kernel/virtio_disk.c:277-285 | in every run, when the wait on a buffer's flag ends, the run has a submission of this request for this buffer and after it a report of it by the device, with no other submission since; free_chain then frees exactly its three descriptors |
| `Virtqueue.NoReportLost` | kernel/virtio_disk.c:308-324 | in every run the device finds room for a report and overwrites none that is unseen |
| `Virtqueue.CounterTests` | kernel/virtio_disk.c:311 | in every run the indices differ exactly if there is an entry to take, and the one at the index is the oldest and names a request that waits for just that |
| `Virtqueue.RequestAlone` | kernel/virtio_disk.c:216-327 | a request alone, with a device that answers, leaves everything as before, its three descriptors free and zeroed, and the four counters one further |
| `VirtqDriver.Descriptors.AllocDesc` | kernel/virtio_disk.c:155-166 | the lowest free descriptor is taken, failure exactly if none is free |
| `VirtqDriver.Descriptors.FreeDesc` | kernel/virtio_disk.c:168-182 | panics exactly on a descriptor that does not exist or is free; else it is zeroed and free |
| `VirtqDriver.Descriptors.Alloc3Desc` | kernel/virtio_disk.c:199-213 | the three lowest free descriptors or, exactly with fewer than three free, none taken |
| `VirtqDriver.Descriptors.FreeChain` | kernel/virtio_disk.c:184-197 | the loop ends and does what the specification of following the links says, panics included |
| `Malloc.FindPlace` | user/umalloc.c:29-32 | the search from any start stops, at the last list element before the block |
| `Malloc.RingSplice` | user/umalloc.c:33-43 | relinking around one place of a circular list gives the circular list with those elements exchanged |
| `Malloc.NextTest` | user/umalloc.c:33 | the forward adjacency test is true exactly if the next block in memory is free |
| `Malloc.PrevTest` | user/umalloc.c:38 | the backward test is true exactly if the block before in memory is free, the list head included |
| `Malloc.JoinedTiled` | user/umalloc.c:33-42 | joining leaves disjoint blocks in address order with no two adjacent free ones |
| `Malloc.CoalesceRing` | user/umalloc.c:33-43 | the pointer writes of free make the ring of the joined blocks |
| `Malloc.CoalesceSizes` | user/umalloc.c:33-43 | and the size writes make their sizes |
| `Malloc.FreeKeeps` | user/umalloc.c:24-44 | free keeps the heap: ordered circular list of exactly the free blocks, sizes right, no two adjacent |
| `MallocHeap.RequestFits` | user/umalloc.c:51-52 | for every 32-bit request: sbrk is asked for as much as the header will claim exactly up to 2^31 - 32 bytes; the units granted hold the request with less than one unit to spare |
| `MallocHeap.RequestFails` | user/umalloc.c:51-52 | above that sbrk gets a negative argument, or 0 or 16 at the very top while the header claims 2^28 units or one more |
| `MallocHeap.TakeKeeps` | user/umalloc.c:75-84 | taking a whole block or its tail keeps the heap |
| `MallocHeap.SearchRing` | user/umalloc.c:74-88 | the search goes around once: what it finds is large enough and every list element between freep and it is too small, or all are |
| `MallocHeap.Search` | user/umalloc.c:74-88 | in terms of memory: the block found is the first in address order after freep, wrapping around, that is free and large enough; none is found exactly if all free blocks are too small |
| `MallocHeap.AppendKeeps` | user/umalloc.c:55-57 | fresh memory above the break enters the heap |
| `MallocHeap.JoinedBlocks` | user/umalloc.c:24-44 | free removes exactly that live block and the blocks cover the same memory |
| `MallocHeap.TakenBlocks` | user/umalloc.c:75-84 | taking adds exactly one live block and the blocks cover the same memory |
| `MallocHeap.Heap.Free` | user/umalloc.c:24-44 | the heap stays in order, that block alone is no longer live, what is covered stays, and no header is written inside another live block; the roving pointer is at the list element before it |
| `MallocHeap.Heap.Morecore` | user/umalloc.c:46-60 | on success the break moves by at least 4096 units, exactly what was asked, live blocks stay, the new memory is covered, merged or not, and the only new free block reaches the break; on failure nothing changes |
| `MallocHeap.Heap.Malloc` | user/umalloc.c:63-90 | one new live block of the rounded size apart from all others, or 0 exactly with sbrk failing and every free block too small; no header is written inside a live block; without new memory it is the tail of the first fit after freep, which moves to the list element before it; with new memory it is the top of at least 4096 new units; the search ends, also after morecore merged into the block at freep |
| `MallocHeap.Coalesced` | user/umalloc.c:33-43 | the assignments of free in their order have the effect the proofs use |
| `ShellStrings.TokenIs` | user/sh.c:266-309 | at every position of every line: blanks are skipped on both sides and the token is the empty end, >>, one symbol or a maximal word, the result telling which |
| `Shell.NotSpace` | user/sh.c:311-321 | after skipping the position is the end or not a space |
| `ShellPrint.WordToken` | user/sh.c:266-309 | a word that stands in the line before a space, a symbol or the end is read as exactly that token |
| `ShellPrint.ReadsArgs` | user/sh.c:416-447 | parseexec's loop reads up to MAXARGS-1 words as the arguments in order |
| `ShellPrint.Reads` | user/sh.c:345-447 | a printed tree in any line is parsed back up to where it ends |
| `ShellPrint.RoundTrip` | user/sh.c:328-447 | parsing the fully parenthesised printing of any legal tree succeeds and gives the tree |
| `ShellGrammar.ReadsWords` | user/sh.c:416-448 | parseexec's loop on words with any redirections among them gives the Exec of exactly those words inside exactly those redirections, in order of appearance |
| `ShellGrammar.SaysLine` | user/sh.c:345-360 | whatever parseline accepts is a line of the grammar with that meaning |
| `ShellGrammar.ParsesExactly` | user/sh.c:328-448 | a line is accepted if and only if its tokens are a line of the grammar: commands with redirections before, between and behind the words, blocks with redirections behind, pipelines, ampersands, lists |
| `ShellGrammar.ParseMeans` | user/sh.c:328-448 | and then, however it is spaced, it parses to what the grammar says it means |
| `ShellGrammar.WrittenLineMeans` | user/sh.c:328-448 | writing down any line of the grammar, without parentheses of its own making, and parsing it gives its meaning |
| `ShellStrings.LineIsWords` | user/sh.c:345-447 | every argument and file name of any parsed line is a maximal word of it |
| `ShellStrings.NulTerminate` | user/sh.c:449-494 | a NUL goes to the end of every token of the tree and nothing else changes |
| `ShellStrings.TokensAreCStrings` | user/sh.c:449-494 | for every line that parses, each argument and file name then reads as a C string equal to its text |
| `ShellStrings.Parsecmd` | user/sh.c:328-343 | on a buffer: accepts exactly the lines of the grammar; the command, its words and file names read as C strings from the cut-up buffer, is what the line means; a failed parse leaves the buffer |

## Left out

- FileSys.Fsys.Writei: assumes a file without holes and copies that succeed or fail as a whole; a copy that fails midway leaves a changed buffer that is not logged.
- FileSys.Fsys.WriteRound: the same assumptions, as part of writei.
- FileSys.Fsys.WriteLoop: the same assumptions, as part of writei.
- FileSys.Fsys.Readi: stated for files without holes; on a hole readi would allocate.
- FileSys.Fsys.ReadStep: the same assumption, as part of readi.
- Virtqueue does not model what a request says (direction, sector, addresses, lengths) and the transfer itself.
- FileSys.Fsys.Filewrite: other processes that use the same inode between two chunks are not interleaved.
- FsCrash.CrashRecoversWholeOperations: asks that what concurrent operations log between two moments without any amounts to whole operations in some order, which FsImage shows for operations one after another; the type, device and link words of an inode are not part of the files.
- Vm.Memory.Mappages: ranges are below the two kernel pages of a process or are these pages, and the pages mapped below belong to nobody else, as for all user page tables; the kernel page table is not modelled.
- Vm.Memory.UnmapOne: the same as for uvmunmap, of which it is one round.
- Vm.Memory.Uvmunmap: asks for freeing exactly the pages that the process owns, as all callers do.
- Vm.Memory.Uvmdealloc: a newsz whose first page to give up is the trapframe or the trampoline, which belong to somebody else, is excluded.
- Vm.Memory.Kfree: filling pages with junk is not modelled beyond marking them as free.
- MallocHeap.Heap.Malloc: excludes requests above 2^31 - 32 bytes that need new memory when sbrk succeeds; sbrk never returns memory below the break, and the 32-bit size field is taken as large enough for the machine's memory.
- ProcLoops.Table.Kill: pid 0, which unused slots have, is treated as the code does; in ProcSystem kill is restricted to positive pids.
- ProcLoops.Table.Allocproc: the pages it allocates are in Vm; pids are unbounded, without wrap-around.
- PipeRing.Pipe.Fill: one stretch of pipewrite between sleeps; the sleeps themselves are in PipeSync.
- ProcSystem treats sleeping on anything but wait as one channel, and exit's closing of files as time outside.
- kernel/spinlock.c: acquire and release are taken as atomic; push_off and pop_off would only add easy members.
- Inode cache, directories, link counts and path lookup of kernel/fs.c; uvmfirst, uvmclear and copyinstr of kernel/vm.c.
- kernel/exec.c, kernel/sysfile.c, kernel/syscall.c, kernel/sysproc.c: clients of the modelled parts.
- Boot, traps, interrupts, console, UART, printf and assembly; virtio_disk_init and memory fences.
- mkfs beyond the layout constant cited; running of shell commands; the small user programs and tests.
- Torn or reordered disk writes, device errors, and liveness under a fair scheduler.
