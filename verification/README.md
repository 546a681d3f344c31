# Verified models of xv6

This project models the parts of an xv6 (x86) source tree that are hardest to get right, and one pthread exercise kept beside it, and proves what they promise:

- **Crash-safe storage.** `RedoLog` gives the disk writes that `commit` and `recover_from_log` make, in order, and proves crash atomicity for every cut. `Log` is `struct log` and its functions, each tied to those write programs. `GroupCommit` is the step machine of `begin_op`, `log_write`, `end_op`, commit, crash and recovery over every interleaving. `Bcache` is the buffer cache with its MRU ring. `CachedLog` puts the two together: every interleaving of buffer operations, recycling, logging, commit, crash and recovery, with the commit's copies and writes going through the recyclable buffers. `Blocks` has words and bits of a block.
- **Files.** `Inodes` says what inodes, indirect blocks and the free map mean and who owns a block. `Fs` is the kernel's side (`balloc` to `filewrite`), `Mkfs` the image builder's, both proved against the same definitions.
- **User memory.** `Umalloc` is the Kernighan and Ritchie allocator.
- **Physical and virtual memory.** `PageTables` has page ownership over two-level page tables; `Vm` is the page allocator and the address-space operations.
- **Pipes.** `Pipe` has the ring with wrapping counters, the protocol of readers, writers, closers and kills over `sleep` and `wakeup` at lock granularity, and the copying loops. `PipeCalls` ties the bytes to the calls that write and read them, and to what the calls return.
- **Scheduling.** `Mlfq` is the multi-level feedback queue: the scan, the tick handler and the accounting.
- **Parsing and matching.** `Shell` is the recursive-descent parser as functions and a printer, `ShellParser` the parser with its cursor, `ShellSpacing` what spacing means, with the characters written out, and `ShellGrammar` the grammar that the parser accepts. `Grep` is the matcher and the language patterns denote.
- **Sorting.** `MergeSort` is the in-place sort, `Workers` the four workers on one array.
- `Common` has what several of these share.

State that the source updates in place is a class (`Log.Log`, `Bcache.Bcache`, `Fs.Fs`, `Mkfs.Image`, `Umalloc.Heap`, `Vm.Vm`, `Pipe.Buffer`, `Mlfq.Kernel`, `ShellParser.Parser`) or an array; its methods are proved against functions on values, and the properties are proved of those functions. What happens between processes, between a crash and a recovery, or between threads is a step machine on values; a run is any sequence of enabled steps.

## Results that differ from what the source or its comments say

- `param.h` calls LOGSIZE the number of data blocks in the log and MAXOPBLOCKS the most blocks an operation writes. `mkfs.c` counts the header in LOGSIZE and `log_write` tests before it absorbs, so an operation may log MAXOPBLOCKS - 1 distinct blocks, no more (`GroupCommit.BudgetIsExact`). The size test of `log_write` is made without the lock; with a budget of MAXOPBLOCKS two operations that both pass it overrun the log area (`GroupCommit.OverrunRun`).
- `mkfs` rounds the root directory up by a whole block when its size is already a multiple of the block size; the directory then has a hole (`Mkfs.RootRounding`). An image with thirty files is such a one (`Mkfs.HoledRoot`).
- `writei` writes the inode back only when the file grows. The inode on the disk then equals the one in memory if and only if the file grew or every address that the write needs was already there (`Fs.Fs.Writei`); writing a directory entry into the hole of that root directory is a case where they differ (`Mkfs.HoledRoot`).
- `tq < 4 * qlvl + 2` is broken by a killed process that is charged the last tick of its quantum and enters `exit` from the tick handler before it is demoted. It keeps its whole quantum while it sleeps, becomes runnable and runs inside `exit`, until it is a zombie (`Mlfq.CutRun`). That is exactly when the bound fails (`Mlfq.Accounting`, `Mlfq.WithinExactly`).
- A `pipewrite` that finds the pipe full and itself killed returns without waking readers. A reader that waits at that moment is left asleep in front of a full pipe (`Pipe.LeftBehind`, `Pipe.LostRun`); no other step loses a wakeup (`Pipe.ForgetsExactly`, `Pipe.NoLostWakeup`).
- A command with ten arguments does not parse (`Shell.RoundTrip` holds exactly up to nine).

## Model

| member | source | states |
|---|---|---|
| RedoLog.WithHead | xv6-public/log.c:101-113 | the header block that is written decodes to exactly the block numbers of the transaction |
| RedoLog.ReplayStep | xv6-public/log.c:69-82 | an install cut after any number of blocks leaves a disk that stands for the same home contents |
| RedoLog.ReplayEnd | xv6-public/log.c:115-122 | a recovery that finishes puts every home block in place and empties the log |
| RedoLog.RecoveryStep | xv6-public/log.c:115-122 | a recovery cut after any of its writes leaves a disk that stands for the same home contents |
| RedoLog.CutRecoveriesKeep | xv6-public/log.c:115-122 | so does any number of recoveries cut anywhere |
| RedoLog.LogWritesKeep | xv6-public/log.c:177-190 | up to the header write no home block and not the header changes, and the log slots fill with the cached contents |
| RedoLog.CommitTailIsRecovery | xv6-public/log.c:192-202 | after its commit point, commit makes the very writes recovery would make |
| RedoLog.CommitPrefix | xv6-public/log.c:192-202 | after any k writes of a commit the disk stands for the old contents if k is before the header write and for the new ones if it is after |
| RedoLog.CommitEnd | xv6-public/log.c:192-202 | an uncut commit installs the whole transaction and empties the log |
| RedoLog.CrashAtomicity | xv6-public/log.c:69-202 | commit cut after any prefix, recovery cut any number of times: the first recovery to finish leaves exactly the state before the transaction or exactly the state after it, after exactly when the header write reached the disk |
| Log.Log.constructor | xv6-public/log.c:53-66 | an idle log over a disk |
| Log.Log.CopyBlock | xv6-public/log.c:74-81 | one block copied through the cache, on disk and in view, no other block changed |
| Log.Log.WriteLog | xv6-public/log.c:177-190 | makes exactly the log-area writes, and the view keeps home blocks and header |
| Log.Log.WriteHead | xv6-public/log.c:101-113 | one write, of the block that decodes to the in-memory header |
| Log.Log.InstallTrans | xv6-public/log.c:69-82 | makes exactly the replay writes, and the homes then hold the log slots |
| Log.Log.Commit | xv6-public/log.c:192-202 | makes exactly the commit program; no process sees a change and every home block is on disk |
| Log.Log.ReadHead | xv6-public/log.c:85-96 | the in-memory header becomes what the header block decodes to |
| Log.Log.RecoverFromLog | xv6-public/log.c:115-122 | makes exactly the recovery program |
| Log.Log.LogWrite | xv6-public/log.c:213-233 | the two panics exactly on their tests; otherwise the block is recorded once and only its contents change |
| Log.Log.BeginOp | xv6-public/log.c:125-141 | admitted exactly when nothing is committing and the reservation fits; `GroupCommit.RefusalIsExact` says what the reservation is worth |
| Log.Log.EndOp | xv6-public/log.c:145-174 | the last operation out commits the whole group's transaction; home contents in view never change |
| GroupCommit.RunKeeps | xv6-public/log.c:125-233 | over every run, every step of every operation, of commit, of a crash and of recovery keeps the group, room and disk invariants and does not panic |
| GroupCommit.GroupCommitSafe | xv6-public/log.c:125-233 | over every run with at most MAXOPBLOCKS - 1 distinct blocks per operation: no panic, at most LOGSIZE - 2 distinct blocks, committing only with nobody outstanding, an empty header between transactions |
| GroupCommit.TargetStep | xv6-public/log.c:145-202 | what a crash would leave changes only at the header write, to the view the whole group has built |
| GroupCommit.DurableRuns | xv6-public/log.c:69-202 | over every run with crashes anywhere, recovery gives exactly what the last group to commit left |
| GroupCommit.CommitCompletes | xv6-public/log.c:192-202 | a commit can be carried through from any point of it, and ends with the view in the home blocks, an empty log and the next operation admitted |
| GroupCommit.RecoveryCompletes | xv6-public/log.c:115-122 | so can a recovery, which ends with what the crash left standing |
| GroupCommit.RefusalIsExact | xv6-public/log.c:132-134 | the test of begin_op admits an operation if and only if no choice of blocks by the operations inside and the new one, MAXOPBLOCKS each, makes the transaction larger than LOGSIZE |
| GroupCommit.FillRun | xv6-public/log.c:125-141 | three operations with MAXOPBLOCKS blocks each can fill the log step by step |
| GroupCommit.PanicRun | xv6-public/log.c:218-219 | from 29 logged blocks the next write panics |
| GroupCommit.OverrunRun | xv6-public/log.c:218-230 | two operations past the unlocked test at 28 blocks record as many blocks as the log area has |
| GroupCommit.BudgetIsExact | xv6-public/log.c:125-233 | no run panics, and no run outgrows the log area, if and only if the budget is at most MAXOPBLOCKS - 1 |
| Bcache.PushFront | xv6-public/bio.c:133-136 | the four link assignments put a buffer at the front of the ring |
| Bcache.Unlink | xv6-public/bio.c:131-132 | the two link assignments take a buffer out of the ring |
| Bcache.RecycleKeepsMap | xv6-public/bio.c:80-89 | giving an idle clean buffer to a block that is not cached changes no block's contents |
| Bcache.UpdateKeepsMap | xv6-public/bio.c:95-140 | changing a buffer without changing what its block shows changes no block's contents |
| Bcache.Bcache.constructor | xv6-public/bio.c:38-56 | all buffers on the ring, last first, and every block shows the disk |
| Bcache.Bcache.LinkFront | xv6-public/bio.c:49-55 | links a buffer in at the front |
| Bcache.Bcache.Lookup | xv6-public/bio.c:68-75 | finds the buffer of a block if and only if there is one |
| Bcache.Bcache.LeastRecentIdle | xv6-public/bio.c:80-90 | the least recently used buffer with no reference and not dirty |
| Bcache.Bcache.Bget | xv6-public/bio.c:61-92 | one buffer per block, the hit or the least recently used idle buffer; contents of all blocks unchanged; the panic only if every buffer is busy |
| Bcache.Bcache.Acquire | xv6-public/bio.c:73-88 | the buffer lock taken, nothing else changed |
| Bcache.Bcache.Fill | xv6-public/bio.c:95-105 | the buffer shows the logical contents of its block; the disk is not written |
| Bcache.Bcache.Modify | xv6-public/log.c:179-187 | exactly one block of the map changes |
| Bcache.Bcache.Pin | xv6-public/log.c:228-231 | the buffer is dirty, so it cannot be recycled before it is written |
| Bcache.Bcache.Bwrite | xv6-public/bio.c:108-115 | writes the buffer's own block and nothing else, with the disk semantics of memide.c |
| Bcache.Bcache.Release | xv6-public/bio.c:119-126 | the buffer lock dropped; contents of all blocks unchanged |
| Bcache.Bcache.Unref | xv6-public/bio.c:127-139 | the last reference moves the buffer to the front; the ring stays a permutation of all buffers |
| Bcache.Bcache.MoveToFront | xv6-public/bio.c:129-137 | the ring stays a permutation with the buffer first and the order of the others kept |
| CachedLog.RecycleKeeps | xv6-public/bio.c:77-90 | an idle clean buffer may be turned over to any block: no logged block loses its buffer, and every buffer stays coherent |
| CachedLog.LogWriteKeeps | xv6-public/log.c:213-233 | logging a buffer makes its block pending, pins the buffer and puts its data into what the group commits |
| CachedLog.CommitMove | xv6-public/log.c:101-190 | what the commit copies through the recyclable buffers is the data of the next write of its program, whatever has been recycled meanwhile |
| CachedLog.RecoveryMove | xv6-public/log.c:69-122 | the same for recovery |
| CachedLog.WriteRefines | xv6-public/bio.c:108-115 | a bwrite by the committer, which writes whatever its buffer holds, is the next write of the commit or recovery program |
| CachedLog.PendingAfter | xv6-public/log.c:69-82 | a write ends the pending state of exactly the block it installs |
| CachedLog.CommitProceeds | xv6-public/log.c:69-202 | once the committer has read the two blocks of its next copy it can copy and write, and has then made one more write of its program |
| CachedLog.CacheShowsView | xv6-public/bio.c:61-105 | what cache and disk show of a home block is what the operations have logged, in every phase of running and committing |
| CachedLog.BeforeInstall | xv6-public/log.c:192-197 | up to the header write a commit has changed no home block on the disk |
| CachedLog.StepRefines | xv6-public/log.c:125-233 | every step of cache and log is a step of the log alone or none |
| CachedLog.RunRefines | xv6-public/log.c:53-233 | so is every run, and it keeps the invariant of the cache |
| CachedLog.CacheAndLog | xv6-public/bio.c:77-91 | over every run: every logged block that is not installed is in a valid dirty buffer, every dirty buffer holds such a block, cache and disk show the logged contents, and home blocks on disk wait for the header |
| CachedLog.PlainBlockMap | xv6-public/bio.c:58-140 | cache and log refine a plain block map: outside recovery no step but a store changes a home block of the map, and a store changes its own block only |
| CachedLog.MapIsView | xv6-public/log.c:192-197 | when the header is written, the whole map is what the group has logged |
| CachedLog.CachedDurable | xv6-public/log.c:53-233 | over every run with crashes anywhere, recovery gives the block map as it was at the last header write |
| CachedLog.BreadReads | xv6-public/bio.c:61-105 | a process that can have a buffer for a block gets it, locks it and holds what cache and disk show of the block |
| CachedLog.UpdateGoesThrough | xv6-public/log.c:213-233 | an operation past the size test can store, log and let go of its buffer; the group then has what was stored, and the buffer stays |
| Inodes.AllocFacts | xv6-public/fs.c:56-78 | setting the bit of a free block and clearing it changes that bit and that block only |
| Inodes.LinkAddr | xv6-public/fs.c:393-403 | a fresh block put into an empty address is owned by that slot and by no other |
| Inodes.LinkEntry | xv6-public/fs.c:404-409 | a fresh block put into an empty indirect entry likewise |
| Inodes.WriteData | xv6-public/fs.c:513-519 | writing a data block changes the bytes of its one owner and of no other file |
| Inodes.FreeBit | xv6-public/fs.c:81-95 | clearing the bit of a block no slot refers to restores the exact free map |
| Inodes.UnlinkDirect | xv6-public/fs.c:429-434 | clearing a direct address leaves its block owned by nobody |
| Inodes.UnlinkIndirect | xv6-public/fs.c:436-446 | clearing the indirect pointer leaves its block and all its entries owned by nobody |
| Fs.Fs.Mount | xv6-public/fs.c:171-184 | the kernel starts on an image whose ownership is sound |
| Fs.Fs.Balloc | xv6-public/fs.c:56-78 | the first free block, its bit set and the block zeroed; the panic only if no block is free |
| Fs.Fs.Bfree | xv6-public/fs.c:81-95 | the panic exactly on a free block, otherwise one bit cleared |
| Fs.Fs.EnsureAddr | xv6-public/fs.c:393-403 | an address filled if empty, ownership kept; every block that changes is logged |
| Fs.Fs.EnsureEntry | xv6-public/fs.c:404-411 | an indirect entry filled if empty, ownership kept; every block that changes is logged, the indirect block included |
| Fs.Fs.Bmap | xv6-public/fs.c:387-415 | the file's block, allocated if need be; no byte of any file changes, ownership stays exact, every block that changes is logged |
| Fs.Fs.Iupdate | xv6-public/fs.c:229-247 | the on-disk inode becomes the in-memory one |
| Fs.Fs.TruncDirect | xv6-public/fs.c:429-434 | the direct blocks are freed and their addresses cleared; every block that changes is logged |
| Fs.Fs.TruncIndirect | xv6-public/fs.c:436-446 | the indirect block and its entries are freed; every block that changes is logged |
| Fs.Fs.Itrunc | xv6-public/fs.c:422-450 | exactly the inode's blocks are freed, never hitting "freeing free block"; no other file changes; every block and inode that changes on the disk is logged |
| Fs.Fs.Readi | xv6-public/fs.c:469-492 | exactly the requested slice, across the direct and indirect blocks; nothing allocated on files without holes; both error tests exactly; a panic on a file of lawful size only if the range has a hole and no block is free |
| Fs.Fs.Writei | xv6-public/fs.c:497-526 | the file becomes its old bytes overwritten at the offset, other files unchanged, hole-freeness kept, error tests exactly; on-disk inode equal to the in-memory one if and only if the file grew or all addresses in the range were there; the panic only when no block is free and the range lacks one; every block and inode that changes on the disk is logged, and at most seven blocks for three block lengths |
| Fs.Fs.BeginOp | xv6-public/file.c:142-142 | a transaction starts with nothing logged |
| Fs.Fs.EndOp | xv6-public/file.c:147-147 | what the transaction has logged is recorded |
| Fs.Fs.WriteChunk | xv6-public/file.c:137-147 | one transaction that overwrites one chunk, has logged all that changed on the disk, and at most seven blocks; device, refusal and panic exactly as in writei |
| Fs.Fs.FileWrite | xv6-public/file.c:119-158 | the chunks together overwrite the file with the part written, one transaction each, every one of these transactions logs at most seven blocks when the free map is one block, and all that changed on the disk is in one of them; it stops early only at a chunk that is out of range or when no block is free |
| Fs.CountLogged | xv6-public/file.c:135-154 | four data blocks, a bitmap block, an indirect block and an inode block at most, for any offset and length |
| Fs.InodeBlocks | xv6-public/fs.h:49-58 | eight inodes and 4096 bits of the free map to a block, in order and without gaps |
| Fs.FileWritesFitTheLog | xv6-public/file.c:129-135 | seven blocks are within the budget under which no run of the log panics and every run is durable |
| Fs.WriteMeans | xv6-public/fs.c:513-525 | the finished loop's progress is the meaning of the write: contents, holes, other files |
| Fs.OverwriteTwice | xv6-public/file.c:137-155 | consecutive chunks make one overwrite |
| Mkfs.LayoutFits | xv6-public/mkfs.c:94-108 | the computed regions do not overlap and have room for every inode and every bit, and no block more |
| Mkfs.Image.constructor | xv6-public/mkfs.c:94-115 | a zeroed image, nothing handed out |
| Mkfs.Image.Ialloc | xv6-public/mkfs.c:223-237 | the next inode, empty; no other inode changed |
| Mkfs.Image.NeedAddr | xv6-public/mkfs.c:273-281 | an address of the inode copy filled with the next free block if and only if it was empty |
| Mkfs.Image.NeedEntry | xv6-public/mkfs.c:282-287 | an indirect entry filled with the next free block if and only if it was empty |
| Mkfs.Image.Locate | xv6-public/mkfs.c:271-288 | the sector of a file block; exactly the missing blocks are handed out, each owned by one slot |
| Mkfs.Image.Iappend | xv6-public/mkfs.c:257-299 | the file becomes its old bytes followed by the data, no other file changes, no holes, exactly the blocks that the new size needs; the assertion fails exactly on a file too large |
| Mkfs.Image.Run | xv6-public/mkfs.c:117-156 | any sequence of inode allocations and appends leaves every file the concatenation of its own appends and every inode the type its allocation asked for; it fails exactly if some file gets too large |
| Mkfs.TypeAt | xv6-public/mkfs.c:117-145 | the inode of an allocation is a directory if and only if a directory was asked for, and a file if and only if a file was |
| Mkfs.NotMade | xv6-public/mkfs.c:223-237 | an inode has type 0 if and only if no allocation has handed it out |
| Mkfs.Image.RoundRoot | xv6-public/mkfs.c:158-163 | only the size of the root directory changes; it then has blocks for exactly its old size |
| Mkfs.Image.WriteBitmap | xv6-public/mkfs.c:239-253 | the free map says exactly the blocks handed out are in use, which is the kernel's ownership invariant; no byte and no block of any file changes |
| Mkfs.RootRounding | xv6-public/mkfs.c:158-163 | the rounded root directory has no hole if and only if its size was not a multiple of the block size |
| Mkfs.BuildImage | xv6-public/mkfs.c:94-168 | the kernel starts on the image that the commands stand for: contents, types, holes and free map |
| Mkfs.BuildAndRead | xv6-public/mkfs.c:94-299 | on the computed layout, for any sequence of allocations and appends that fits, the kernel's readi finds in every file the concatenation of its own appends, the root directory filled up with zeros, at any offset and length |
| Mkfs.HoledRoot | xv6-public/mkfs.c:117-163 | thirty files make a root directory of one block exactly, which after rounding has a hole; an entry written there by the kernel leaves the inode on the disk without the new address |
| Umalloc.BlocksDisjoint | xv6-public/umalloc.c:24-91 | two blocks have no unit in common |
| Umalloc.FreeKeeps | xv6-public/umalloc.c:29-43 | the four coalescing cases keep one address-ordered cycle without touching free blocks, and the tiling of the arena |
| Umalloc.FreeFrame | xv6-public/umalloc.c:33-42 | freeing changes no header of a block that stays live |
| Umalloc.TakeWholeKeeps | xv6-public/umalloc.c:76-86 | taking a whole free block keeps list and tiling |
| Umalloc.TakeTailKeeps | xv6-public/umalloc.c:79-83 | cutting the tail off a free block keeps list and tiling |
| Umalloc.GrowKeeps | xv6-public/umalloc.c:46-62 | units fresh from sbrk join the arena |
| Umalloc.ArenaPartition | xv6-public/umalloc.c:24-91 | free and live blocks partition the arena, none overlap, and no two free blocks touch |
| Umalloc.Coalesce | xv6-public/umalloc.c:33-42 | the assignments of free compute the merged headers |
| Umalloc.Heap.constructor | xv6-public/umalloc.c:21-22 | nothing allocated, no arena |
| Umalloc.LeastUnits | xv6-public/umalloc.c:51-70 | a request takes a header and the fewest units that hold it; morecore asks for what is needed, and for 4096 units of eight bytes if that is more |
| Umalloc.Heap.FindPlace | xv6-public/umalloc.c:29-32 | the search ends, at the free block behind which the block belongs |
| Umalloc.Heap.Free | xv6-public/umalloc.c:24-44 | exactly one block stops being live; the arena and live headers stay |
| Umalloc.Heap.Init | xv6-public/umalloc.c:71-74 | the empty circular list |
| Umalloc.Heap.Morecore | xv6-public/umalloc.c:46-62 | on success a block that fits is on the list; on failure nothing changes |
| Umalloc.Heap.TakeWhole | xv6-public/umalloc.c:77-86 | a new live block of exactly the free block's size |
| Umalloc.Heap.TakeTail | xv6-public/umalloc.c:79-86 | a new live block of exactly the requested units |
| Umalloc.Heap.Take | xv6-public/umalloc.c:77-86 | a new live block of exactly the requested units out of a free block that is large enough |
| Umalloc.ScanExhausted | xv6-public/umalloc.c:75-90 | a scan that comes back to where it began has seen every free block |
| Umalloc.Heap.Malloc | xv6-public/umalloc.c:64-91 | a new live block of the requested size; one sbrk call if no free block is large enough and none otherwise; null only if that call failed |
| PageTables.LinkTable | xv6-public/vm.c:45-52 | linking a zeroed page as a table changes no mapping and gives it one owner |
| PageTables.MapUser | xv6-public/vm.c:71-73 | a held page becomes one user page of one directory |
| PageTables.UnmapUser | xv6-public/vm.c:272-278 | clearing an entry gives its page back to the holder |
| PageTables.AddDir | xv6-public/vm.c:124-126 | a zeroed page becomes a directory that maps nothing |
| PageTables.DropDir | xv6-public/vm.c:293-300 | giving up a directory disturbs no other owner |
| PageTables.Take | xv6-public/kalloc.c:82-95 | a page off the free list is held, and conservation is kept |
| PageTables.Give | xv6-public/kalloc.c:59-77 | a held page put on the free list keeps conservation and all mappings |
| PageTables.SameFree | xv6-public/kalloc.c:59-95 | the same owners leave the same pages free, each once |
| PageTables.FlagBits | xv6-public/mmu.h:94-96 | the bits 1, 2 and 4 of an entry mean present, writable and user, whatever the other bits are |
| PageTables.AccessIsPte | xv6-public/vm.c:49-52 | what the hardware allows, the directory entry and the page entry taken together, is what the page entry allows |
| Vm.RowsAreKernel | xv6-public/vm.c:105-115 | the four rows map physical memory and devices, text read-only, and nothing below KERNBASE |
| Vm.RowFacts | xv6-public/vm.c:105-115 | each row is whole pages above KERNBASE, apart from the rows before it |
| Vm.NoWrap | xv6-public/vm.c:268-271 | the skipping step stays within 32 bits below KERNBASE and lands on the next region |
| Vm.SkipAbsent | xv6-public/vm.c:268-271 | passing over pages without a table is what the page-by-page loop does |
| Vm.UnmapFree | xv6-public/vm.c:272-279 | unmapping and freeing one page keeps ownership and conservation and touches nothing else |
| Vm.GivenBack | xv6-public/vm.c:129-134 | giving up a new directory restores every owner, the free pages and all mappings |
| Vm.GrowthUndone | xv6-public/vm.c:237-248 | taking a growth back restores the mapping and leaves only new tables |
| Vm.KernelAccessIs | xv6-public/vm.c:105-136 | every kernel page is allowed exactly what its row says, never to the user |
| Vm.GrownAccess | xv6-public/vm.c:237-249 | every page of a growth may be read and written by the user |
| Vm.KernelRegions | xv6-public/vm.c:105-136 | the four rows take 64 tables, all above KERNBASE, wherever the kernel's data starts |
| Vm.RegionsCount | xv6-public/mmu.h:73-90 | pages from the start of a region on take one table for every 1024 of them |
| Vm.TooLittle | xv6-public/vm.c:44-46 | with no page left and a table still lacking, there were too few free pages for the whole operation |
| Vm.CopiedAccess | xv6-public/vm.c:332-341 | parent and child are allowed the same of every page |
| Vm.Vm.Kinit | xv6-public/kalloc.c:31-44 | all managed pages free, none owned |
| Vm.Vm.Freerange | xv6-public/kalloc.c:46-53 | exactly the whole pages of the range are freed |
| Vm.Vm.Kfree | xv6-public/kalloc.c:59-77 | the panic exactly outside the managed pages; otherwise filled with junk and first on the list |
| Vm.Vm.Kalloc | xv6-public/kalloc.c:82-95 | the first free page, held; none exactly if the list is empty |
| Vm.Vm.Walkpgdir | xv6-public/vm.c:35-55 | the table of the page, made of a free page exactly if it is lacking; no mapping and no access right changes, and the directory entry restricts nothing; failure only without memory and then nothing changes |
| Vm.Vm.MapPage | xv6-public/vm.c:69-73 | one entry changes, the remap panic exactly on a present entry |
| Vm.Vm.Mappages | xv6-public/vm.c:60-80 | the pages of the range map to consecutive frames, nothing else changes, exactly the lacking tables are made, and on failure exactly a prefix is mapped, no page is free and the next table is lacking |
| Vm.Vm.FreePage | xv6-public/vm.c:272-279 | one page unmapped as the plain loop would |
| Vm.Vm.Deallocuvm | xv6-public/vm.c:258-282 | memory and free list end exactly as after a plain page-by-page loop; exactly the range's user pages lose their owner |
| Vm.Vm.Freevm | xv6-public/vm.c:286-301 | all and only the directory's pages become free; other address spaces are untouched |
| Vm.Vm.GiveUp | xv6-public/vm.c:129-134 | giving up a new directory on a failure restores owners, the free set and all mappings |
| Vm.Vm.Setupkvm | xv6-public/vm.c:118-136 | exactly the kernel part is mapped, with the kernel's access rights through directory and table; it fails if and only if fewer than 65 pages are free, and failure restores owners and the free set exactly |
| Vm.Vm.Allocuvm | xv6-public/vm.c:223-252 | success maps the growth to zeroed pages that were free, which the user may read and write; within the user's half it succeeds if and only if the free pages suffice for the new pages and the tables they lack; failure restores the user mapping |
| Vm.Vm.Copyuvm | xv6-public/vm.c:318-348 | success gives equal contents, flags and access rights on pages that were free, with the kernel part, and takes exactly the pages, their tables and the 65 of the kernel part; failure only if there are not so many, and it restores owners and the free set; the panics only if a page is absent |
| Pipe.SlotWraps | xv6-public/pipe.c:93-116 | a wrapped counter names the same slot |
| Pipe.Tests | xv6-public/pipe.c:85-117 | the counter tests decide empty and full at any distance from a wrap |
| Pipe.StoreKeeps | xv6-public/pipe.c:93-93 | storing appends to what the ring holds |
| Pipe.DropKeeps | xv6-public/pipe.c:116-116 | taking gives the oldest byte not yet taken |
| Pipe.StepKeeps | xv6-public/pipe.c:59-121 | every step of every reader, writer and closer, and every kill, keeps the ring, the lock and the wakeup invariants |
| Pipe.KillKeeps | xv6-public/proc.c:908-926 | a kill keeps the invariants |
| Pipe.ScanFinds | xv6-public/proc.c:880-902 | whoever waits when the table is scanned is already asleep |
| Pipe.BytesInOrder | xv6-public/pipe.c:77-121 | over every run the bytes taken are a prefix of the bytes written, at most PIPESIZE behind |
| Pipe.NoLostWakeup | xv6-public/pipe.c:77-121 | over every run, kills included, with the lock free, a sleeping writer faces a full pipe open for reading, and a sleeping reader an empty pipe open for writing unless it was waiting when a killed writer gave up |
| Pipe.LeftBehind | xv6-public/pipe.c:85-89 | when a writer gives up on a full pipe while a reader waits, the writer was killed, and the reader stays waiting in front of a full pipe with no wakeup to come |
| Pipe.ForgetsExactly | xv6-public/pipe.c:77-121 | no other step leaves a reader behind |
| Pipe.CarefulRuns | xv6-public/pipe.c:77-121 | over every run without such a step no wakeup is lost and both sides never sleep together |
| Pipe.LostRun | xv6-public/pipe.c:77-121 | a run that leaves a reader asleep in front of a full pipe |
| Pipe.NoDeadlock | xv6-public/proc.c:801-902 | over every run, while a call is in progress and not asleep some process can step |
| PipeCalls.StepCalls | xv6-public/pipe.c:59-121 | every step keeps the books: which call stored and took which byte, what each call returned, and that a close that returned has closed its end |
| PipeCalls.EveryByte | xv6-public/pipe.c:77-121 | over every run: what goes in is an interleaving of prefixes of the written buffers, what comes out an interleaving of what the reads got, the second a prefix of the first; a write returns its count exactly if it stored all, -1 otherwise; a read returns the number of bytes it got, at most what it asked for |
| PipeCalls.OneToOne | xv6-public/pipe.c:77-121 | between one writer and one reader, the reader gets a prefix of the writer's bytes in order |
| PipeCalls.ShortOnlyIf | xv6-public/pipe.c:85-120 | a read that returns short faces an empty pipe, one that returns 0 the end of the file, one that returns -1 was killed while it waited; a write that gives up faces a full pipe and is killed or has no reader |
| Pipe.Buffer.constructor | xv6-public/pipe.c:33-36 | an empty pipe |
| Pipe.Buffer.Fill | xv6-public/pipe.c:84-94 | appends the bytes stored, and stops early only when full |
| Pipe.Buffer.Drain | xv6-public/pipe.c:113-117 | removes the bytes returned from the front, and stops early only when empty |
| Mlfq.SelectedIsChoice | xv6-public/proc.c:638-663 | the scan's bookkeeping is the declarative choice |
| Mlfq.ChoiceUnique | xv6-public/proc.c:638-663 | the choice is unique |
| Mlfq.Scan | xv6-public/proc.c:638-663 | lowest level, then first with a started quantum, else first of highest priority; nothing only if nothing is eligible |
| Mlfq.ChargeOk | xv6-public/trap.c:127-131 | a used-up quantum counts towards the next level |
| Mlfq.TickKeeps | xv6-public/trap.c:65-131 | the tick handler keeps the accounting invariant, also when it sends a killed process into exit |
| Mlfq.StepKeeps | xv6-public/proc.c:503-775 | every event keeps it, those of a process inside exit included |
| Mlfq.Accounting | xv6-public/proc.c:503-552 | over every run: ticks charged since the last reset are 2 * qlvl^2 + tq and at most 2 * K^2, levels at most K and below K while running, and the quantum is used up if and only if the process was cut short on its way into exit and has not been reset since |
| Mlfq.CutRuns | xv6-public/trap.c:118-131 | over every run, a used-up quantum is what the events say |
| Mlfq.CountRun | xv6-public/trap.c:65-131 | the history of charged ticks is the count of ticks read off the events of the run since the last reset |
| Mlfq.WithinExactly | xv6-public/trap.c:118-131 | a step leaves all processes within their quanta if and only if it is not a tick that charges the last tick of a quantum to a killed process without boosting |
| Mlfq.CutRun | xv6-public/trap.c:118-131 | a run in which a process runs, sleeps, becomes runnable, runs again and ends with its quantum used up |
| Mlfq.CpuLaw | xv6-public/proc.c:631-680 | over every run, who is on the processor is what the events say |
| Mlfq.StateLaw | xv6-public/proc.c:660-875 | over every run, a process is in a state if and only if some event put it there and none since has ended it |
| Mlfq.PriorityLaw | xv6-public/proc.c:503-533 | over every run, the priority is the last one set since allocation, the mark of exit is the events', and the clock counts the ticks |
| Mlfq.PriorityRange | xv6-public/sysproc.c:136-152 | over every run all priorities are from 0 to 10, and exactly these can be set |
| Mlfq.YieldsEligible | xv6-public/proc.c:755-775 | a process that yields may be chosen again, unless a tick has just taken it to the last level |
| Mlfq.BooksUnique | xv6-public/proc.c:535-552 | the ticks charged determine level and quantum used |
| Mlfq.Kernel.constructor | xv6-public/proc.c:98-102 | an empty table |
| Mlfq.Kernel.UpdateTq | xv6-public/proc.c:545-552 | one tick charged to the running process |
| Mlfq.Kernel.PriorityBoost | xv6-public/proc.c:503-514 | every process reset |
| Mlfq.Kernel.QlvlDown | xv6-public/proc.c:535-543 | the running process one level down with a fresh quantum |
| Mlfq.Kernel.Yield | xv6-public/proc.c:755-762 | the running process runnable, its quantum kept |
| Mlfq.Kernel.YieldAndReset | xv6-public/proc.c:764-775 | the running process runnable and reset, so that it may be chosen again |
| Mlfq.Kernel.SleepAndReset | xv6-public/proc.c:842-875 | the running process asleep and reset |
| Mlfq.Kernel.GoToSleep | xv6-public/proc.c:801-836 | the running process asleep, its quantum kept |
| Mlfq.Kernel.FinishExit | xv6-public/proc.c:437-443 | the running process a zombie, its quantum kept |
| Mlfq.Kernel.Timer | xv6-public/trap.c:65-131 | the calls in their order are the tick step, up to the call of exit |
| Mlfq.Kernel.Scheduler | xv6-public/proc.c:631-680 | switches to the unique choice, or leaves everything as it is if nothing is eligible |
| Shell.GetToken | xv6-public/sh.c:269-312 | progress unless at the end, and every word is a nonempty run of word characters |
| Shell.WordToken | xv6-public/sh.c:299-309 | a word followed by anything else reads back as that word |
| Shell.RedirsBack | xv6-public/sh.c:378-401 | printed redirections read back in order |
| Shell.ExecBack | xv6-public/sh.c:419-450 | a printed simple command with at most nine arguments reads back |
| Shell.BlockReads | xv6-public/sh.c:403-417 | a parenthesised line and its redirections read back |
| Shell.PipeReads | xv6-public/sh.c:365-376 | a printed pipeline reads back |
| Shell.LineReads | xv6-public/sh.c:348-363 | a printed line reads back and what follows it is left |
| Shell.LineOk | xv6-public/sh.c:348-450 | whatever parses has valid words and at most nine arguments per command |
| Shell.RoundTrip | xv6-public/sh.c:331-450 | for every tree of valid words, parsing the printed form rebuilds it and consumes all input if and only if no command has more than nine arguments |
| Shell.Normalised | xv6-public/sh.c:331-450 | printing what a line parsed to and parsing again gives the same tree |
| ShellSpacing.CharClasses | xv6-public/sh.c:266-267 | the blanks are space, tab, return, newline and vertical tab, the symbols less-than, bar, greater-than, ampersand, semicolon and the parentheses |
| ShellSpacing.SpellTokens | xv6-public/sh.c:269-312 | tokens written with any blanks between them, needed only where two would merge, are read back |
| ShellSpacing.SameTokens | xv6-public/sh.c:331-450 | lines with the same tokens parse to the same command or fail in the same way |
| ShellSpacing.AnySpacing | xv6-public/sh.c:269-450 | a command written with any spacing, and with either append or overwrite sign, parses to that command if and only if it has at most nine arguments per simple command |
| ShellSpacing.WithNewline | xv6-public/sh.c:133-171 | so does a line with the newline that gets leaves on it |
| ShellSpacing.BlanksAround | xv6-public/sh.c:269-346 | blanks around any line, one that parses or not, change nothing |
| ShellGrammar.LineSound | xv6-public/sh.c:348-363 | what parseline reads is a phrase of the grammar, and the tree is the one that it stands for |
| ShellGrammar.LineComplete | xv6-public/sh.c:348-363 | every phrase, at the end of the line or before a closing parenthesis, is read in full |
| ShellGrammar.Recognises | xv6-public/sh.c:331-450 | a line parses to a command if and only if some sentence of the grammar writes that command with the tokens of the line, and fails if and only if there is none |
| ShellParser.Parser.constructor | xv6-public/sh.c:331-337 | the cursor at the start of the line |
| ShellParser.Parser.SkipWhite | xv6-public/sh.c:275-277 | the cursor past the white space |
| ShellParser.Parser.Peeks | xv6-public/sh.c:314-324 | the grammar's peek, with the cursor where it leaves it |
| ShellParser.Parser.Advance | xv6-public/sh.c:280-304 | the cursor past exactly one token |
| ShellParser.Parser.Gettoken | xv6-public/sh.c:269-312 | the grammar's token |
| ShellParser.Parser.Parseredirs | xv6-public/sh.c:378-401 | the grammar's redirections around the command |
| ShellParser.Parser.Parseexec | xv6-public/sh.c:419-450 | the grammar's simple command or block |
| ShellParser.Parser.Arguments | xv6-public/sh.c:433-449 | the grammar's argument loop, with argv never written past its end |
| ShellParser.Parser.Parseblock | xv6-public/sh.c:403-417 | the grammar's block |
| ShellParser.Parser.Parsepipe | xv6-public/sh.c:365-376 | the grammar's pipeline |
| ShellParser.Parser.Parseline | xv6-public/sh.c:348-363 | the grammar's line |
| ShellParser.Parser.Ampersands | xv6-public/sh.c:354-357 | the grammar's run of ampersands |
| ShellParser.Parser.Parsecmd | xv6-public/sh.c:331-346 | the grammar's command, or the panic on what is left over |
| Grep.HereEmpty | xv6-public/grep.c:87-88 | the empty pattern matches everywhere |
| Grep.HereEnd | xv6-public/grep.c:91-92 | a final dollar matches at the end only |
| Grep.HereOne | xv6-public/grep.c:93-94 | a character pattern consumes one character that fits |
| Grep.HereMany | xv6-public/grep.c:89-90 | a closure consumes some number of characters that fit, then the rest matches |
| Grep.MatchHere | xv6-public/grep.c:85-96 | true if and only if a prefix of the text is in the denoted language, all of it when anchored |
| Grep.MatchStar | xv6-public/grep.c:98-106 | true if and only if some number of fitting characters is followed by a match |
| Grep.Match | xv6-public/grep.c:72-82 | true if and only if some suffix matches, or the whole text from its start after a caret |
| MergeSort.MergeSorts | extra/prac_pthread.c:35-49 | merging sorted sequences gives a sorted one |
| MergeSort.MergePermutes | extra/prac_pthread.c:35-49 | merging keeps the elements |
| MergeSort.SortSorts | extra/prac_pthread.c:55-63 | the sort gives a sorted permutation |
| MergeSort.SplitSort | extra/prac_pthread.c:55-63 | sorting both halves in place and merging sorts the whole in place |
| MergeSort.SortedUnique | extra/prac_pthread.c:11-18 | a sorted permutation is unique |
| MergeSort.Merge | extra/prac_pthread.c:21-53 | exactly the range is replaced by the merge of its two runs |
| MergeSort.Interleave | extra/prac_pthread.c:35-49 | the three loops write the merge of the copies |
| MergeSort.MergeSort | extra/prac_pthread.c:55-63 | exactly the range is replaced by its sorted form |
| MergeSort.Fill | extra/prac_pthread.c:87-88 | the identity |
| MergeSort.Shuffle | extra/prac_pthread.c:89-95 | the swaps in place are the shuffle with these random numbers |
| MergeSort.ShuffledKeeps | extra/prac_pthread.c:89-95 | a permutation, for any random numbers |
| MergeSort.EveryOrder | extra/prac_pthread.c:89-95 | every order of the elements comes out for some choices |
| MergeSort.OneWay | extra/prac_pthread.c:89-95 | for one choice only if the elements are different, so that no order is favoured |
| MergeSort.CheckSorted | extra/prac_pthread.c:11-18 | true if and only if the array is the identity |
| Workers.StepFinish | extra/prac_pthread.c:21-63 | no single access changes what a worker will have done |
| Workers.StepInside | extra/prac_pthread.c:65-77 | a worker touches its own range only |
| Workers.StepKeeps | extra/prac_pthread.c:65-77 | a step of one worker keeps every worker on course |
| Workers.WorkersSort | extra/prac_pthread.c:104-114 | however the workers interleave, each quarter ends sorted on its own |
| Workers.AllRunsEnd | extra/prac_pthread.c:104-114 | every interleaving ends after the same number of steps, and until then some worker can step |
| Workers.MidPoints | extra/prac_pthread.c:116-118 | the final merges' bounds are the workers' bounds |
| Workers.MergedSorts | extra/prac_pthread.c:116-118 | the three merges of sorted quarters give a sorted permutation |
| Workers.FinalMerges | extra/prac_pthread.c:116-118 | the three calls compute those merges |
| Workers.ParallelSort | extra/prac_pthread.c:87-118 | for any size divisible by four and any interleaving the result is a sorted permutation, and the identity if it started from a shuffled identity |
| Workers.AfterJoin | extra/prac_pthread.c:113-125 | the final check succeeds |

## Left out

- Device drivers, boot code, interrupts, `swtch` and the x86 memory model: spinlocks are atomic steps, a context switch is a scheduler step, and the disk has the semantics of memide.c.
- Inodes on disk are a table of records, not bytes inside inode blocks; the superblock is a record; `ilock`'s copy from disk is the table read.
- Only ROOTDEV is modelled; the zeroed buffers that carry device 0 hold no block.
- The kernel's page free list and the holders of pages outside address spaces: the list is a sequence, its links inside the pages are not modelled; other holders are one role.
- Directories, path names, `ialloc`, `iget`, `iput`, device dispatch in `readi` and `writei`, the file table.
- Mkfs.Image.Iappend: requires room for exactly the blocks that are missing, because the builder does not test `freeblock` against the image size.
- Mkfs.Image.WriteBitmap: requires fewer blocks in use than one map block has bits, which the source asserts.
- Mkfs.BuildAndRead: when the root directory has a hole and no block is left, the kernel's read of it may panic.
- CachedLog.CacheAndLog: a buffer is recycled only when one is idle; the panic of `bget` when all are busy ends a run and is not analysed. The order of the ring is in `Bcache.Bcache`. That an operation logs what it has changed before it releases a buffer and before it ends is a rule of the machine, as the callers of `log_write` follow it.
- Log.Log.Commit: the cache under it keeps every block; that a cache which recycles buffers serves it just as well is `CachedLog.CacheAndLog`.
- Log.Log.constructor: the superblock is the layout given, and recovery is `Log.Log.RecoverFromLog`.
- Log.Log.ReadHead: requires a header block that a commit or `mkfs` can have written; the source reads any other without a test.
- Bcache.Bcache.Release: requires that changed data has been logged or written, as every caller does it.
- Fs.Fs.Mount: requires an image whose ownership is sound; `Mkfs.BuildImage` makes such images.
- Fs.Fs.Iupdate: works on the table of inodes that stands for the inode blocks.
- Umalloc.Heap.Malloc: requires that neither the size computation nor the number of bytes to ask sbrk for overflows, that sbrk returns fresh memory above the static base, and that only live blocks are freed. Which of the free blocks that are large enough is taken is not stated.
- ShellGrammar.Recognises: says when the parser fails, not with which of its messages.
- Vm.Vm.Allocuvm: requires the pages of the growth to be unmapped, which the source panics on.
- Vm.Vm.Deallocuvm: requires oldsz at most KERNBASE, as every caller has it.
- Vm.Vm.Copyuvm: says nothing of the state after one of its panics.
- Vm.Vm.Mappages: requires a nonempty range that does not wrap, as every caller has it.
- The pipe's page is not freed in the model; the pipe's ends are closed once each, when no call uses them, as file references guarantee.
- Mlfq.Accounting: one CPU, as the accounting of ticks on CPU 0 presumes; pid lookup and the parent test of `setpriority` are not modelled.
- ShellParser.Parser.Arguments: the command node that is filled in after it has been wrapped in redirections is modelled by replacing the innermost node at the end; `nulterminate`, `runcmd` and memory allocation are not modelled.
- The buffer loop of `grep()`, `exec`, system-call argument fetching, user accounts, the thread functions whose bodies are commented out, `growproc`.
- Workers.ParallelSort: thread creation and joining are the start and the end of a run; a failing `pthread_create` is not modelled.
- MergeSort.Merge: integers are unbounded; the indices of the source stay far below 2^31.
