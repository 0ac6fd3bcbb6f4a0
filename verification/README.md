# A verified model of xv6 with MLFQ scheduling and user threads

This project models the parts of the xv6 kernel (RISC-V, with a two-level feedback scheduler) and
of its user programs whose correctness is hardest to see from the code: the write-ahead log over the
buffer cache, block allocation and file contents, Sv39 page tables and page ownership, sleep locks and
the process life cycle, the virtqueue driver, the user-level heap, the shell's parser, grep's matcher,
the scheduler and the user-level threads.  Every statement below is a Dafny contract or lemma;
`dafny verify dfyconfig.toml` covers the whole project.

Code that updates a structure in place is a class whose methods follow the source; what its methods
promise is stated over values, so that lemmas can use it.  Protocols between concurrent parties are
state machines whose steps are the critical sections of the source, and the results hold for every
interleaving and every run.

## The parts

**Log and buffer cache** (`WalModel`, `WalInvariant`, `WalRefinement`, `WalSafety`, `WalBuffers`, `WalRuns`,
`LogCode`, `LogSpace`, `BufferCache`).  A disk write is one atomic step, and the machine may crash
between any two steps, also during recovery.  `WalInvariant.StepInv` keeps the cache and the log coherent over any
number of processes; `WalRefinement.StepRefines` shows that each step of the kernel, of a crash and of
recovery is one event of a store with atomic commits; `WalSafety.CrashSafety` concludes for whole runs
that completed recovery leaves the state of the last commit point, but for changes released without
`log_write`, and nothing else, and
`WalSafety.FinishedNeverLost` that a transaction whose committing `end_op` returned stays.  `LogCode` is
the commit and recovery code itself, with the outcome of a crash recorded after every one of its disk
writes.  `LogSpace` counts reservations, `WalBuffers` the buffers that the log pins, and
`WalRuns` constructs runs from boot to the states that are worth knowing.  `BufferCache` is
the list itself: links, keys and the choice of a buffer to recycle.

**Files** (`FsModel`, `FileSystem`).  The disk holds bytes: the bitmap is bits in bytes, the indirect
block little-endian words.  Every block has one owner, the bitmap marks exactly the owned blocks, and no
file has a hole below its size; all operations keep that, including when the disk is full.  A file is a
byte sequence: `writei` splices, `readi` slices and allocates nothing, `itrunc` returns exactly the
blocks of the inode, `filewrite` writes in chunks that stay within the log reservation.

**Memory** (`Words`, `PageTable`, `Vm`).  The free list runs through the free pages and page tables are raw pages.
Every page has exactly one owner: the free list, the code that is holding it, one node of one page
table, or one user page of one address space.  The three-level tree stands for a finite map, which
each operation changes exactly as it should; growing and copying either succeed or leave the map as
it was with every page accounted for, and tearing an address space down frees each of its pages once.

**Processes** (`SleepLock`, `ProcessLifecycle`, `Mlfq`).  No lost wakeup and mutual exclusion of sleep
locks; live parents, no missed exit in `wait`, single reaping with the recorded status and distinct pids; promotion after exactly
the time the timer says, the order of dispatches, and a bound on how long a runnable process waits.

**Disk driver** (`Virtqueue`).  Driver and device share descriptors and two rings with 16-bit indices
that wrap.  Free descriptors and chains partition the table, and each request is completed once, on the
block and buffer it was made for, while the device works at its own pace.

**User programs** (`Heap`, `ShellParser`, `Grep`, `Uthread`).  The storage allocator keeps one
address-ordered cycle of non-adjacent free blocks; the parser inverts a printer; the matcher decides
membership in the language of the pattern; a runnable thread runs within 16 calls of the scheduler.

## Where the code differs from what one may expect

- `log_write` tests `lh.n >= LOGSIZE` before it looks for the block in the log, so logging a block again
  can panic when the log is full; and mkfs makes a log of LOGSIZE blocks (mkfs/mkfs.c:25), so that the
  test against `log.size - 1` can fire.  `LogSpace.PanicExactly` gives the exact condition.
  `FileSystem.PacedAllowed` shows that `filewrite` never depends on logging a block again after using
  up its reservation.
- NBUF equals LOGSIZE, so a full log pins every buffer, and `write_log` cannot get one for its first
  log block: a log that is large enough for `log_write` never to panic lets `bget` panic with "no
  buffers" instead.  `WalBuffers.BufferFound` gives the exact condition, `WalRuns.FullLogReachable`
  a run, and `WalRuns.FullLogExactly` the layouts that have one.
- When `either_copyin` fails, `writei` releases the buffer without `log_write` (kernel/fs.c:522-525), and
  `copyin` has by then copied the bytes of the pages before the unmapped one (kernel/vm.c:381-394).  The
  cache then shows bytes that the disk does not have, although the buffer is neither held nor in the
  log; they vanish when the buffer is recycled (`WalRuns.LostUpdate`), or become durable with a later
  change of the block.  `WalSafety.AbandonExactly` and `WalSafety.CoherenceExactly` say exactly when cache
  and disk still agree: unless a change is released whose block is not in the log and which made a
  difference.  `FileSystem.SpliceExactly` says exactly when the content of the file is still a splice of
  the acknowledged bytes, and `FileSystem.TornExactly` for which source and offset other bytes are copied.
- `itrunc` of a large file frees blocks under many bitmap blocks: it stays within the reservation of one
  operation exactly if these are fewer than MAXOPBLOCKS (`FileSystem.TruncPaced`), which the disk of
  mkfs ensures (`FileSystem.FewBitmaps`).
- The comment in `filewrite` counts two blocks of slop for unaligned writes.  The bound of ten blocks is
  tight and holds for another reason: a write that starts inside a block finds that block mapped, as
  no block below the size of a file is ever missing (`FileSystem.BillBound`).
- "Every block in `lh.block` is pinned" holds until the block is installed; `bunpin` comes before the
  header is cleared (`WalSafety.CacheLogCoherence` says from where on blocks are pinned).
- `bunpin` does not move a buffer to the front, so the least recently used buffer is the one that was
  moved by `brelse` least recently (`BufferCache.Cache.Bget`).
- Main gets thread id 1 and so does the first created thread; thread ids play no part in the model.

## Model

| member | source | states |
|---|---|---|
| `WalModel.Encode` | kernel/log.c:102-114 | what `write_head` puts into the header block, `read_head` reads back as the same block list |
| `WalInvariant.InitInv` | kernel/log.c:54-65 | a machine that boots from any disk with a well-formed header, empty or not, satisfies the invariant; a header that counts more blocks than it can list is not well-formed |
| `WalInvariant.CrashInv` | kernel/log.c:116-123 | a crash on any such disk leads to a state from which recovery can start |
| `WalInvariant.StepInv` | kernel/log.c:68-235 | every step of any process, of commit, recovery or a crash keeps cache and log coherent, where a buffer released with a change that was not logged is marked as abandoned |
| `WalInvariant.StrayStep` | kernel/fs.c:522-525 | after every step a buffer marked so is valid and holds a home block outside the log |
| `WalInvariant.LogWriteInv` | kernel/log.c:214-235 | `log_write` keeps the list duplicate-free, within the log, and its blocks pinned |
| `WalInvariant.GetMissInv` | kernel/bio.c:73-85 | recycling an unreferenced buffer loses no logged or modified block |
| `WalRefinement.HomeIsDurable` | kernel/log.c:68-203 | except while listed blocks are being copied home, the home blocks are the durable image; in particular no logged change is at home before the commit point |
| `WalRefinement.CommitPointRefines` | kernel/log.c:102-114 | the write of the non-empty header makes exactly what processes see durable |
| `WalRefinement.WriteHomeRefines` | kernel/log.c:68-83 | installing a block changes neither the durable nor the visible contents |
| `WalRefinement.StepRefines` | kernel/log.c:68-235 | every kernel, crash and recovery step is one event of a store with atomic commits, in which a change can also be abandoned, redeemed by a later one or reverted |
| `WalSafety.CacheLogCoherence` | kernel/bio.c:58-151 | in every reachable state an unheld valid buffer outside the log equals its disk block, unless its change was abandoned, and a block still to be installed is cached with a reference |
| `WalSafety.AbandonExactly` | kernel/fs.c:522-525 | releasing a buffer without `log_write` leaves cache and disk in agreement if and only if its block is in the log or its content is that of the disk |
| `WalSafety.CoherenceExactly` | kernel/fs.c:516-531 | cache and disk agree throughout a run if and only if each such release in it is of that kind |
| `WalRuns.StrayReachable` | kernel/fs.c:522-525 | from every disk and for every home block there is a run after which an unheld buffer outside the log differs from its disk block |
| `WalRuns.LostUpdate` | kernel/bio.c:73-85 | and a run in which processes see a content that is gone after the buffer was recycled, without a write or a crash |
| `WalSafety.RunRefines` | kernel/log.c:68-203 | every run, with crashes anywhere, is a run of the atomic store |
| `WalSafety.CrashAtomicity` | kernel/log.c:193-203 | the durable contents are those of the last commit, whole but for abandoned changes, or the initial ones |
| `WalSafety.RecoveryInstallsDurable` | kernel/log.c:116-123 | in every run, with no copy home outstanding, and so when recovery or a commit has finished, the home blocks are the durable image |
| `WalSafety.CrashSafety` | kernel/log.c:68-203 | in every such state of a run with any crashes, the home blocks are what processes saw at the last non-empty header write, but for abandoned changes, or what the first disk stood for |
| `WalSafety.CommitSpanDurable` | kernel/log.c:145-175 | when the committing `end_op` returns, everything its transaction wrote and did not abandon is durable |
| `WalSafety.FinishedNeverLost` | kernel/log.c:145-203 | a later durable state is that one or the state of a later commit, whatever crashes follow |
| `WalSafety.FinishedBlockKept` | kernel/log.c:145-203 | a block that such a transaction left, and had not abandoned, keeps its content, on the disk and for processes, through later commits and crashes until it is written again |
| `WalBuffers.BufferFound` | kernel/bio.c:58-89 | in every reachable state `bget` finds a buffer if and only if the block is cached or the blocks that the log pins and the other buffers in use are fewer than NBUF |
| `WalBuffers.FullCommitPanics` | kernel/log.c:178-191 | `write_log` of a full log finds no buffer for its log block |
| `WalBuffers.FullCommitForever` | kernel/log.c:178-191 | and never does, whatever other processes do: until a crash that commit makes no progress |
| `WalRuns.FullLogReachable` | kernel/log.c:126-175 | a run, from boot on any well-formed disk, in which three operations within their reservations log NBUF blocks and come to that commit |
| `WalRuns.FullLogExactly` | kernel/param.h:10-11 | such a run exists if and only if the log has more than NBUF blocks and the disk NBUF blocks outside it |
| `LogCode.InstallKeeps` | kernel/log.c:68-83 | copying a listed log block home does not change what recovery would restore |
| `WalModel.InstalledIsRecovered` | kernel/log.c:68-83 | once every listed block is installed the home blocks are what recovery restores |
| `LogCode.CommitPoint` | kernel/log.c:193-203 | with log and header written, recovery restores exactly what processes saw |
| `LogCode.Log.WriteLog` | kernel/log.c:178-191 | copies the latest cached contents of every logged block; a crash after any of its writes restores the old blocks |
| `LogCode.Log.WriteHead` | kernel/log.c:102-114 | the header lists the logged blocks and no home block changes |
| `LogCode.Log.InstallTrans` | kernel/log.c:68-83 | all listed blocks reach their homes, and a crash after any write restores the same contents |
| `LogCode.Log.ReadHead` | kernel/log.c:86-97 | the in-memory list is the one on the disk |
| `LogCode.Log.RecoverFromLog` | kernel/log.c:116-123 | the home blocks become what disk and log stand for; a crash after any write of recovery restores the same |
| `LogCode.Log.Commit` | kernel/log.c:193-203 | crashes before the header write restore the old blocks, from it on all the new ones; at the end these are installed and the log is empty |
| `LogSpace.StepInv` | kernel/log.c:126-175 | logged blocks plus unused reservations never exceed LOGSIZE |
| `LogSpace.SafeRuns` | kernel/log.c:214-221 | with more than LOGSIZE log blocks no run of operations within their reservations panics in `log_write` |
| `LogSpace.ShortLogPanics` | mkfs/mkfs.c:25 | with at most LOGSIZE log blocks some run does |
| `LogSpace.RelogPanics` | kernel/log.c:220-229 | with 30 blocks logged, logging one of them again panics |
| `LogSpace.PanicExactly` | kernel/log.c:214-235 | `log_write` can panic for space if and only if the log has at most LOGSIZE blocks or operations log a block again after using up their reservation |
| `LogSpace.Log.BeginOp` | kernel/log.c:126-142 | admits an operation exactly when its reservation fits, and counts it |
| `LogSpace.Log.LogWrite` | kernel/log.c:214-235 | records the block once, absorbing repetitions, and fails exactly on the space test |
| `LogSpace.Log.EndOp` | kernel/log.c:146-164 | gives the reservation back and starts a commit exactly when it is the last operation |
| `BufferCache.UnlinkOk` | kernel/bio.c:126-129 | unlinking a buffer leaves one cycle through all others |
| `BufferCache.InsertOk` | kernel/bio.c:130-133 | linking at the front gives one cycle with the buffer first |
| `BufferCache.Cache.constructor` | kernel/bio.c:36-53 | the list holds every buffer once, `prev` inverse to `next` |
| `BufferCache.Cache.Bget` | kernel/bio.c:58-89 | returns the block's only buffer; otherwise recycles the unused buffer moved to the front least recently; fails exactly if there is none |
| `BufferCache.Cache.Lookup` | kernel/bio.c:65-72 | finds the buffer of a block if and only if it is cached |
| `BufferCache.Cache.Victim` | kernel/bio.c:76-86 | the oldest unreferenced buffer, or none if all are referenced |
| `BufferCache.Cache.Brelse` | kernel/bio.c:116-137 | one reference less; an unused buffer becomes the most recent, and the list stays one cycle of all buffers |
| `BufferCache.Cache.Bpin` | kernel/bio.c:139-144 | adds a reference and nothing else |
| `BufferCache.Cache.Bunpin` | kernel/bio.c:146-151 | removes a reference and nothing else, in particular not the place in the list |
| `FsModel.WordSet` | kernel/fs.c:408-415 | writing a word of the indirect block changes that word and no other |
| `FsModel.MaskWords` | kernel/fs.c:75-79 | `&` with the mask of a bit tests it, and `|` with the mask of a clear bit adds it |
| `FsModel.ClearWords` | kernel/fs.c:101 | `&` with the complement of the mask of a set bit, on words of any width, takes the mask away |
| `FsModel.BitAfter` | kernel/fs.c:76-79 | adding the mask of a clear bit or taking away that of a set one changes that bit and no other |
| `FsModel.ToggleOk` | kernel/fs.c:65-105 | taking a free block or giving one back keeps bitmap and ownership in agreement |
| `FsModel.AttachDirectOk` | kernel/fs.c:388-395 | recording a new direct block adds exactly that entry to the file's map |
| `FsModel.AttachIndirectOk` | kernel/fs.c:401-406 | a new indirect block changes no entry |
| `FsModel.AttachEntryOk` | kernel/fs.c:408-415 | an indirect entry adds exactly that block to the file's map |
| `FsModel.DetachIndirectOk` | kernel/fs.c:439-449 | once the indirect block no longer counts, it and all it lists, and nothing else, may be freed |
| `FsModel.FormatOk` | mkfs/mkfs.c:234-248 | the bitmap of a new file system marks exactly the metadata blocks |
| `FileSystem.Fs.Format` | mkfs/mkfs.c:93-110 | a new file system satisfies the invariant |
| `FileSystem.Fs.Balloc` | kernel/fs.c:65-88 | the first free block, zeroed and marked; 0 exactly if no block is free, and then nothing changes |
| `FileSystem.Fs.Bfree` | kernel/fs.c:91-105 | a block that no inode records any more becomes free; its bit is set, so the panic is not reached |
| `FileSystem.Fs.Bmap` | kernel/fs.c:382-421 | the block at the index, newly allocated and zeroed if it was missing; no other entry of any file and no data block changes; 0 only on a full disk; what it logs |
| `FileSystem.Fs.Readi` | kernel/fs.c:471-496 | exactly the requested part of the content, cut at the size; -1 if the destination cannot take all of it, after the part that it can; nothing is allocated or changed |
| `FileSystem.Fs.WriteBlock` | kernel/fs.c:516-531 | one block's worth of bytes at their place, or nothing on a full disk, or, if the source ends, the bytes before its end, which are not logged; every other byte of every file is what it was |
| `FileSystem.WroteContent` | kernel/fs.c:505-539 | such writes splice the bytes into the content and leave other files alone |
| `FileSystem.Fs.Writei` | kernel/fs.c:505-539 | fails exactly on a bad offset or size; otherwise acknowledges a prefix of the bytes, all of them unless the disk is full or the source ends, splices it, and updates size and disk inode; what was copied beyond that prefix is stated too |
| `FileSystem.SpliceExactly` | kernel/fs.c:522-525 | the content is that of a splice of the acknowledged bytes if and only if the bytes copied beyond them, below the old size, are the ones that were there |
| `FileSystem.TornExactly` | kernel/fs.c:516-531 | no byte is copied beyond the acknowledged ones if the source ends nowhere or where a block of the file begins, and, with room on the disk, only then |
| `FileSystem.Fs.Itrunc` | kernel/fs.c:425-453 | frees exactly the direct, indirect and listed blocks of the inode; the file is empty and no other file changes; it logs the bitmap blocks of what it freed and then the inode |
| `FileSystem.TruncPaced` | kernel/fs.c:425-453 | an operation that truncates stays within its reservation if and only if the blocks of the file lie under fewer than MAXOPBLOCKS bitmap blocks |
| `FileSystem.FewBitmaps` | kernel/fs.h:48-51 | which is so on every disk of at most (MAXOPBLOCKS - 1) * BPB blocks |
| `FileSystem.BillBound` | kernel/file.c:149-157 | a chunk logs fewer than MAXOPBLOCKS distinct blocks before its inode, even with a different bitmap block for every allocation |
| `FileSystem.PacedSteps` | kernel/file.c:149-174 | so an operation of `filewrite` logs at most MAXOPBLOCKS blocks, with a reservation left before each |
| `FileSystem.PacedAllowed` | kernel/log.c:214-235 | and takes only steps that cannot panic by the log's accounting |
| `FileSystem.Fs.FileWrite` | kernel/file.c:149-174 | the content gets the acknowledged bytes at the file offset, and beyond them only what `writei` copied from a source that ends; the offset moves past the acknowledged ones, and the result is n exactly if these are all |
| `FileSystem.FileTorn` | kernel/file.c:149-174 | it stops early only on a full disk, at the end of the source, at the largest size or beyond the end of the file, and copies more than it acknowledges only if the source ends inside a block and inside a chunk |
| `PageTable.PteIsWord` | kernel/vm.c:156-158 | PA2PTE with the permission bits and PTE_V on 64-bit words is the entry of the model |
| `PageTable.WordIsPte` | kernel/riscv.h:347-352 | PTE2PA, PTE_FLAGS and the valid bit of an entry are what the model reads |
| `PageTable.PaRoundTrip` | kernel/riscv.h:347-352 | so PTE2PA undoes PA2PTE under any flag bits, and PTE_FLAGS gives them back |
| `PageTable.PxIsWord` | kernel/riscv.h:354-357 | PX by shift and mask is the index of the model at each level |
| `PageTable.EntryDetermines` | kernel/vm.c:85-103 | walks of different pages, in one address space or in two, end at different entries |
| `PageTable.PathStep` | kernel/vm.c:85-103 | one index leads from a table on the path of an address to the next |
| `PageTable.AddTableOk` | kernel/vm.c:95-99 | hanging a zeroed page below an empty entry changes no translation and keeps one owner per page |
| `PageTable.SetLeafOk` | kernel/vm.c:156-158 | writing a leaf entry adds exactly that translation |
| `PageTable.ClearLeafOk` | kernel/vm.c:186-190 | clearing it removes exactly that translation |
| `Vm.Memory.constructor` | kernel/kalloc.c:26-31 | initially every page is held by the kernel |
| `Vm.Memory.Kalloc` | kernel/kalloc.c:68-82 | pops the list that runs through the free pages, filled with junk; 0 exactly if it is empty |
| `Vm.Memory.Kfree` | kernel/kalloc.c:46-63 | pushes the page, filled with junk but for the link to the former head of the list |
| `Vm.Memory.FreeRange` | kernel/kalloc.c:33-40 | every page of the range becomes free, once |
| `Vm.Memory.Walk` | kernel/vm.c:85-103 | the page of the leaf entry; with alloc only page tables are added, at most two and none on an existing path, and it fails only when memory is exhausted; without alloc nothing changes and it fails exactly if there is no path |
| `Vm.Memory.MapPages` | kernel/vm.c:142-165 | adds exactly the translations of the range, or on lack of memory of a prefix; nothing else changes hands |
| `Vm.Memory.UvmUnmap` | kernel/vm.c:170-192 | removes exactly the range, and with do_free each of its pages goes to the free list once |
| `Vm.Memory.UvmDealloc` | kernel/vm.c:255-267 | removes exactly the pages between the two sizes and returns the smaller |
| `Vm.Memory.UvmAlloc` | kernel/vm.c:225-249 | adds zeroed fresh pages with the right permissions up to the new size, or restores the map exactly and keeps no page; fails only with fewer than three free pages for each new one |
| `Vm.Memory.UvmCopy` | kernel/vm.c:305-333 | the child gets fresh pages with equal bytes and flags, or its map is restored exactly and no page is kept; fails only with fewer than three free pages for each one copied |
| `Vm.Memory.UvmCreate` | kernel/vm.c:196-205 | an empty address space in a page that was free, or 0 |
| `Vm.Memory.FreeWalk` | kernel/vm.c:271-287 | frees the pages of the subtree, each once, and touches no other page; the panic is not reached |
| `Vm.Memory.UvmFree` | kernel/vm.c:291-297 | every page of the address space becomes free and nothing else changes |
| `Vm.Memory.ProcPagetable` | kernel/proc.c:269-301 | an address space with trampoline and trapframe only, or 0 with every page back with its owner, and that only with fewer than five free pages |
| `Vm.Memory.ProcFreePagetable` | kernel/proc.c:305-310 | every page of the address space becomes free; trampoline and trapframe pages stay with their owners |
| `SleepLock.StepInv` | kernel/proc.c:740-786 | every step of `acquiresleep`, `releasesleep`, `sleep`, `wakeup` and `kill` keeps the invariant |
| `SleepLock.NoLostWakeup` | kernel/proc.c:740-786 | while the spinlock is free, a process asleep or committed to sleeping implies that another one holds the lock |
| `SleepLock.MutualExclusion` | kernel/sleeplock.c:21-41 | at most one process holds the sleep lock |
| `SleepLock.AllWoken` | kernel/proc.c:770-786 | when `wakeup` is through the table nobody is left waiting |
| `ProcessLifecycle.StepInv` | kernel/proc.c:374-538 | every step of concurrent `fork`, `exit`, `wait` and `kill`, with their wakeups, keeps the invariant |
| `ProcessLifecycle.LiveParents` | kernel/proc.c:426-484 | in every reachable state a parent is neither unused nor a zombie, and every zombie has one |
| `ProcessLifecycle.NoMissedExit` | kernel/proc.c:426-538 | in every reachable state a process that sleeps in `wait` has no zombie child, also when a zombie was passed on to init |
| `ProcessLifecycle.ReapedOnce` | kernel/proc.c:488-538 | `wait` frees a child not freed before and returns the status that it exited with |
| `ProcessLifecycle.NoChildren` | kernel/proc.c:526-531 | `wait` finds no children only if there are none |
| `ProcessLifecycle.DistinctPids` | kernel/proc.c:178-188 | processes that exist have different pids |
| `Mlfq.Scan` | kernel/proc.c:677-683 | the scan counts every demoted process down by one and promotes those that reach 0 |
| `Mlfq.Yield` | kernel/proc.c:702-715 | a timer yield demotes the process and restarts its timer; the scan follows |
| `Mlfq.RunOk` | kernel/proc.c:672-715 | every run keeps priorities in {0, 1} and the timer of a demoted process within 1 and PROM_TIME |
| `Mlfq.PromotedAfter` | kernel/proc.c:677-683 | a demoted process left alone has priority 0 after exactly as many scans as its timer says |
| `Mlfq.PromotedInTime` | kernel/proc.c:672-715 | PROM_TIME scans after its last timer yield a process has priority 0 |
| `Mlfq.Pass` | kernel/proc.c:585-663 | processes are dispatched while runnable, those of priority 0 first, in turn, until none is left, then those of priority 1 in one walk of the table; a pass ends only when there is none left to dispatch or one of priority 0 has turned up |
| `Mlfq.Scheduler` | kernel/proc.c:548-555 | the dispatches of passes that follow each other, as long as there is something to run |
| `Mlfq.OneCloser` | kernel/proc.c:585-663 | every dispatch of another process brings a waiting process of priority 0 closer |
| `Mlfq.NoStarvation` | kernel/proc.c:548-715 | a runnable process is itself dispatched before 2 * NPROC others are, counted from its promotion, which takes at most PROM_TIME dispatches |
| `Virtqueue.MakeChain` | kernel/virtio_disk.c:244-267 | three held descriptors, written as the code does, are a chain in the format of section 5.2 of VIRTIO 1.1 |
| `Virtqueue.RingPush` | kernel/virtio_disk.c:274-279 | an entry added to a ring that is not full disturbs no entry that is still to be read |
| `Virtqueue.WrapEqual` | kernel/virtio_disk.c:310-323 | 16-bit indices at most NUM apart are equal only if the counts are |
| `Virtqueue.Disk.constructor` | kernel/virtio_disk.c:120-146 | all descriptors are free and the rings are empty |
| `Virtqueue.Disk.AllocDesc` | kernel/virtio_disk.c:156-166 | the first free descriptor, or -1 exactly if there is none |
| `Virtqueue.Disk.FreeDesc` | kernel/virtio_disk.c:169-182 | clears and frees a descriptor in use; its panics are not reached |
| `Virtqueue.Disk.FreeChain` | kernel/virtio_disk.c:185-197 | frees the three descriptors of the chain, each once |
| `Virtqueue.Disk.Alloc3` | kernel/virtio_disk.c:201-213 | three descriptors exactly if three are free, and otherwise nothing changes |
| `Virtqueue.Disk.Submit` | kernel/virtio_disk.c:215-282 | posts exactly one request for the buffer and marks it busy, while the device may act between any two of its writes to the queue, field by field; other requests only move on, and buffers not marked busy keep their data |
| `Virtqueue.WriteOk` | kernel/virtio_disk.c:238-271 | a write to a held descriptor, its header or its record keeps the invariant, which the device relies on |
| `Virtqueue.Disk.Publish` | kernel/virtio_disk.c:273-279 | only the increment of the index hands the chain to the device |
| `Virtqueue.Disk.Device` | kernel/virtio_disk.c:274-284 | any sequence of device actions keeps the invariant, also while the driver holds descriptors, and changes nothing that the driver is about to use |
| `Virtqueue.Disk.DeviceComplete` | kernel/virtio_disk.c:236-267 | what the device does on reading the chain is the transfer that was asked for, on that block and buffer |
| `Virtqueue.Disk.IntrTurn` | kernel/virtio_disk.c:310-323 | the entry names a request not completed before, with status 0 and a busy buffer, which is released |
| `Virtqueue.Disk.Intr` | kernel/virtio_disk.c:294-327 | all entries of the used ring, also those that the device adds while the loop runs, are dealt with in order and completed once, and the loop ends |
| `Virtqueue.Disk.Finish` | kernel/virtio_disk.c:284-291 | the request's three descriptors become free |
| `Virtqueue.Partition` | kernel/virtio_disk.c:155-213 | a descriptor is free or in the chain of exactly one request |
| `Virtqueue.CompletedOnce` | kernel/virtio_disk.c:215-327 | a request is open with its buffer busy, or completed, once |
| `Virtqueue.UnseenEntries` | kernel/virtio_disk.c:310-323 | every unseen entry of the used ring names a chain head whose recorded buffer is busy, also after wrapping |
| `Heap.Apart` | user/umalloc.c:26-99 | different blocks, free or live, do not overlap |
| `Heap.InsertOk` | user/umalloc.c:31-48 | linking the freed block at its place keeps one address-ordered cycle and the cover of the memory |
| `Heap.MergeOk` | user/umalloc.c:34-45 | joining two adjacent free blocks keeps the cycle and the cover |
| `Heap.TakeTail` | user/umalloc.c:86-91 | the tail of a larger block becomes a block of its own inside the same memory |
| `Heap.Allocator.FindPlace` | user/umalloc.c:31-33 | the search ends, at the free block before the freed one in address order |
| `Heap.Allocator.Free` | user/umalloc.c:26-49 | the block and no other stops being live; no two free blocks touch and the memory stays exactly covered |
| `Heap.Allocator.MoreCore` | user/umalloc.c:51-66 | adds exactly the memory from sbrk, as or next to the block at `freep` |
| `Heap.Allocator.Search` | user/umalloc.c:80-98 | the search ends after at most one call of `morecore`; it fails only if no block is large enough and sbrk fails |
| `Heap.Allocator.Malloc` | user/umalloc.c:68-99 | a new live block of the size asked for, overlapping no live block; live blocks, free blocks and sbrk's memory stay in balance |
| `ShellParser.LexRender` | user/sh.c:304-348 | a rendered token list is read back as the same tokens |
| `ShellParser.LineBack` | user/sh.c:384-401 | the grammar reads a printed line back and stops at its end |
| `ShellParser.ExecBack` | user/sh.c:444-492 | likewise for simple commands, redirections and parentheses |
| `ShellParser.RoundTrip` | user/sh.c:304-492 | parsing a printed command tree gives the tree and consumes the whole text |
| `ShellParser.ReadPrintRead` | user/sh.c:366-492 | every text that parses gives a printable tree, and reading its printed form gives the same tree |
| `ShellParser.Parser.GetToken` | user/sh.c:304-348 | the next token, its code and its text, at any position |
| `ShellParser.Parser.Peek` | user/sh.c:350-359 | whether the next token begins with one of the characters; nothing is consumed but blanks |
| `ShellParser.Parser.ParseRedirs` | user/sh.c:417-442 | agrees with the grammar, including the missing-file error |
| `ShellParser.Parser.ParseExec` | user/sh.c:460-492 | agrees with the grammar, including the limit on arguments |
| `ShellParser.Parser.ParseBlock` | user/sh.c:444-458 | agrees with the grammar, including the missing parenthesis |
| `ShellParser.Parser.ParsePipe` | user/sh.c:403-415 | agrees with the grammar |
| `ShellParser.Parser.ParseLine` | user/sh.c:384-401 | agrees with the grammar |
| `ShellParser.Parser.ParseCmd` | user/sh.c:366-382 | ends on every text with the tree or the error that the grammar gives, leftovers included |
| `Grep.BeginsMany` | user/grep.c:98-105 | a starred item matches if and only if some number of accepted characters is followed by a match of the rest |
| `Grep.MatchHere` | user/grep.c:84-95 | a prefix of the text is in the language of the pattern |
| `Grep.MatchStar` | user/grep.c:98-105 | some number of accepted characters is followed by a match |
| `Grep.Match` | user/grep.c:71-81 | some substring is in the language, at the start for `^` and up to the end for `$` |
| `Uthread.Library.constructor` | user/ulib.c:16-36 | main is current in slot 0 and all other slots are empty |
| `Uthread.Library.Tsched` | user/uthread.c:21-52 | switches to the first runnable thread round the table, or does nothing if there is none |
| `Uthread.Library.Tyield` | user/uthread.c:106-112 | the caller stays runnable and the next runnable thread runs |
| `Uthread.Library.ThreadExit` | user/uthread.c:14-19 | a finished created thread always finds another thread to switch to |
| `Uthread.Library.Tcreate` | user/uthread.c:74-80 | the first empty slot becomes runnable, or nothing changes if the table is full |
| `Uthread.Closer` | user/uthread.c:35-41 | a runnable thread that is passed over has come closer |
| `Uthread.RunsWithin` | user/uthread.c:21-52 | a thread that stays runnable runs within as many calls as it is slots away |
| `Uthread.Fair` | user/uthread.c:21-52 | so it runs within 16 calls of `tsched` |

## Left out

- Trap entry, assembly, boot, the timer and PLIC, the console, UART, pipes and `exec`: context switches are abstract steps.
- Memory ordering: sequential consistency is assumed.
- The kernel's own page table, and `copyin`, `copyout` and `copyinstr`, which read the map of an address space and, in the case of `copyout`, write the bytes of its pages.  `FileSystem` takes from them how many bytes can be copied.
- Directories, path names, `iget`/`iput`, link counts and the byte layout of on-disk inodes; `dinode` is a map from inode number to inode.
- FileSystem.Fs.Writei: `block` is what the next `bread` shows; that bytes which were copied but not logged can vanish later is in the log model.
- FileSystem.Fs.FileWrite: files that are inodes; pipes and devices are not modelled.
- FileSystem.Fs.Bmap: the inode is locked and calls on other inodes do not interleave with it; concurrency is the subject of the log model.
- Vm.Memory.UvmAlloc: the new size must stay below the trapframe and its pages must be unmapped, since the code panics with "remap" otherwise.
- Vm.Memory.UvmUnmap: the range must be mapped, since the code panics otherwise.
- Vm.Memory.Walk: entries, page numbers and flags are natural numbers, which `PteIsWord`, `WordIsPte` and `PxIsWord` relate to the macros on machine words.
- The choice of victim in the log model is any unreferenced buffer; which one the code takes is in `BufferCache`.  A process that meets the panic "no buffers" takes no further step there, and the others go on.
- LogCode.Log.InstallTrans: `bunpin` of the installed buffers is a step of the state machine (`WalInvariant.UnpinInv`).
- Heap.Allocator.Malloc: sizes are unbounded, so the request must be small enough that its size in bytes fits an int; headers of live blocks are not overwritten.
- Virtqueue.Disk.DeviceComplete: the device completes every chain with status 0; other statuses make the driver panic.
- Virtqueue.Disk.Submit: the wait for descriptors and for completion is the caller's; a call that finds no descriptors changes nothing and is repeated.
- Virtqueue.Disk.Finish: the device does not act while descriptors are allocated or freed; it touches neither the free map nor the descriptors that are freed.
- Mlfq.Pass: one processor, and no process becomes runnable except while another runs; the scans of `sched` are single steps.
- Mlfq.Scheduler: one processor; it ends where the code would go on polling an idle table.
- Mlfq.NoStarvation: one processor, so that there is one scan for each dispatch.
- SleepLock.NoLostWakeup: one sleep lock; a spinlock is taken and given up in one step, and so is one turn of the loop in `wakeup`.
- ProcessLifecycle.NoMissedExit: `kill` is modelled only as the wakeup that it gives.
- ProcessLifecycle.ReapedOnce: memory and files of a process are not part of this model, and pids do not overflow.
- Uthread.Library.Tcreate: allocation and the saved context of the new thread are not modelled.
- Uthread.Library.Tsched: the current thread is identified by its slot, which is found by comparing pointers in the code; programs switch through `tyield`, `tjoin` and the end of a thread, not by calling `tsched` themselves.
- ShellParser.Parser.ParseExec: arguments are stored in the command struct below its redirections; the model collects both and builds the tree at the end.  Running commands and NUL-terminating the strings are not modelled.
- Reading of files by `grep` line by line.
