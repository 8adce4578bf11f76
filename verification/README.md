# Verified model of the xv6 scheduling kernels

The repository holds three small Unix kernels that differ in how they schedule processes:
round-robin, by priority, and by lottery. Everything else is shared. These Dafny modules
model the parts whose correctness is hardest to see from the code, in the form the code has:
what is an object updated in place there is a class here, what is a loop there is a loop
here, and each method is proved against a value-level description about which the theorems
are stated. The shared files are cited in their `lottery-scheduler/` copy.

`dafny verify dfyconfig.toml` checks the project.

**The crash-safe storage stack.** `LogFormat` says what a platter means (a block listed in
the log header means its logged copy) and proves crash atomicity and recovery idempotence at
the level of single block writes, up to whole histories of commits and crashes. `LogProtocol`
is the space reservation of `begin_op`, `log_write` and `end_op` over every interleaving.
`GroupCommit` joins the two: in any run of any number of processes, with crashes at any block
write, each operation is durable with all its log_writes or with none. `Log` is log.c itself; its loops are proved to make exactly the block writes those theorems
speak about. `BufferCache` and `Ring` are bio.c over memide.c: the LRU ring, pinning, and
agreement with a store that has no cache, which is what `Disk` gives the log. `CommitBuffers`
is commit on that cache, with the number of buffers others may hold before it can meet "no
buffers". `FsFormat`,
`FsImage` and `FileSystem` are the bitmap allocator, the block map and file reading and
writing, with exclusive ownership of blocks, and the bound on the blocks each `filewrite`
chunk logs that the reservation needs. `DurableFs` lays an image out on the disk, and
`FileHistory` joins it with the log: after any run of chunk writes and truncations, several in
one commit, with crashes at any block write, the disk reads back as a sound image in which
every operation is whole or absent.

**The user heap.** `Heap` and `Allocator` are the Kernighan and Ritchie allocator: a circular
free list in address order with coalescing on both sides. Every unit has an owner; the list
is proved to be determined by which units are free, and `malloc` to fail exactly if no run of
free units is long enough and `sbrk` fails.

**Page tables.** `PageTable`, `FrameCount` and `VirtualMemory` are vm.c over kalloc.c. Every
frame has one owner: the free list, a directory, or the entry that names it. Growing, copying
and freeing an address space are proved exact on success and on every failure path, and
success is proved to depend on one number, the count of free frames.

**The schedulers.** `Xorshift32` and `Rand` are the generator and its rejection sampling,
`Lottery` and `LotteryQueue` the shuffle and the ticket walk, `LotteryProc` the process table
with its per-CPU queues. `PriorityQueue` and `PriorityProc` are the twelve intrusive lists of
a CPU, aging and `setpriority`; `PriorityWakeup` is what `wakeup1` does to them on any channel;
`PriorityKernel` has every step from `allocproc` to `wait` that moves a process through them. `ProcessTree` is what `exit` and `wait` do in either kernel.
`RoundRobin` is the sweep of the process table and its
bounded wait.

**The pattern matcher.** `Grep` relates the mutually recursive matcher to the language a
pattern denotes.

`Common` and `Sequences` hold what several modules share.

Where the code and its comments disagree, the model follows the code:

- param.h calls MAXOPBLOCKS the number of blocks an operation may write, and LOGSIZE the
  number of data blocks in the log. The header takes one of the LOGSIZE blocks mkfs sets aside
  (mkfs.c:25), so an operation may log at most MAXOPBLOCKS - 1 distinct blocks, no more:
  `LogProtocol.NeverPanicsIff`. A `filewrite` chunk logs at most seven.
- `wakeup1` of the priority kernel means to boost a sleeper to priority 0, but then queues it
  a second time, which ties its link to itself and counts it twice. A later arrival at
  priority 0 may undo the tie, but never the count. `PriorityWakeup.WakeupKeepsQueuesIff` says
  exactly when the queues survive a whole `wakeup1`, `WakeupLosesQueue` gives a case in which
  they do not, and by `AgedSleeperKeepsQueuesIff` aging leads there from ordinary processes.
- For the seven largest 32-bit requests the rounding in `malloc` wraps and the block is too
  small: `Allocator.RoomIff`.

What the theorems take for granted: a block write is atomic, as the header format of the log
relies on; the log lies outside the blocks that are logged; the tickets waiting on one CPU add
up to at most 0x7fffffff; the base of the user heap lies below the memory `sbrk` yields.

## Model

| member | source | states |
|---|---|---|
| `LogFormat.RecoveryKeepsLogical` | lottery-scheduler/log.c:68-122 | every platter exposed between the writes of a recovery has the same logical content (logged copy for a listed block, home copy otherwise); the last one has it in the home blocks, under an empty log |
| `LogFormat.RecoveryIdempotent` | lottery-scheduler/log.c:115-122 | any number of recoveries cut short at any write, followed by a complete one, leave the home blocks of one undisturbed recovery and an empty log |
| `LogFormat.CommitAtomic` | lottery-scheduler/log.c:192-202 | after write number k of a commit the logical content is all old while k is a log copy, and all new from the header write on |
| `LogFormat.CrashAtomicity` | lottery-scheduler/log.c:98-122 | crash at any write of a commit, crash at any point of any number of recoveries, recover: the home blocks hold the whole transaction if and only if the header write had reached the platter, otherwise none of it |
| `LogFormat.CommitEnds` | lottery-scheduler/log.c:192-202 | a commit that completes leaves an empty log and the whole transaction in the home blocks |
| `LogFormat.PlayOneAtomic` | lottery-scheduler/log.c:192-202 | one transaction, completed or crashed at any point and recovered, takes effect entirely or not at all, and entirely exactly if it is durable |
| `LogFormat.HistoryIsAtomic` | lottery-scheduler/log.c:14-31 | over every history of commits, crashes inside commits and crashes inside the recoveries after them, each home block is that of the durable transactions applied in order |
| `LogFormat.InstalledAt` | lottery-scheduler/log.c:68-82 | after k copies of install_trans, block b is the logged copy if it is among the first k listed blocks and untouched otherwise |
| `LogFormat.HeaderLayout` | lottery-scheduler/log.c:98-113 | the header block is the length of the list, then the list; the other words keep their values |
| `LogProtocol.StepKeepsInv` | lottery-scheduler/log.c:124-233 | every critical section keeps: listed blocks distinct; outstanding equals the number of active operations and is 0 while committing; lh.n plus the unused reservation of all active operations stays within the ceiling; what is listed was logged by an active operation or one that has ended |
| `LogProtocol.ReachableInv` | lottery-scheduler/log.c:124-233 | that invariant holds in every state any interleaving of any number of processes reaches |
| `LogProtocol.NeverPanicsIff` | lottery-scheduler/log.c:218-233 | no interleaving ever panics if and only if operations log fewer than MAXOPBLOCKS distinct blocks each; with exactly MAXOPBLOCKS, which param.h promises, a run of three operations that panics is given |
| `LogProtocol.NoLostWakeup` | lottery-scheduler/log.c:126-174 | while anyone sleeps in begin_op an operation or a commit is under way whose end wakes everyone, and an idle log always has room |
| `LogProtocol.CommitHoldsWholeOps` | lottery-scheduler/log.c:150-157 | while a commit runs no operation is active, and the listed blocks are exactly those logged by the operations that have ended |
| `LogProtocol.AdmitsIff` | lottery-scheduler/log.c:126-141 | in every reachable state begin_op admits an operation if and only if no commit is under way and the listed blocks plus MAXOPBLOCKS for each active operation and the new one fit LOGSIZE; otherwise the caller sleeps and nothing else changes |
| `LogProtocol.CommitsIff` | lottery-scheduler/log.c:146-174 | in every reachable state the operation that ends starts a commit if and only if no other is active, and wakes all sleepers otherwise; so does the end of a commit |
| `Log.Log.BeginOp` | lottery-scheduler/log.c:126-141 | one pass of begin_op is the Begin step of the protocol: the operation is admitted exactly if no commit is under way and lh.n + MAXOPBLOCKS * (outstanding + 1) fits LOGSIZE, and sleeps otherwise |
| `Log.Log.LogWriteCheck` | lottery-scheduler/log.c:218-221 | the tests before the lock fail exactly where the protocol panics |
| `Log.Log.LogWrite` | lottery-scheduler/log.c:223-232 | absorbs a listed block or appends a new one (the Append step), pins the new contents, and leaves the platter alone |
| `Log.Log.EndOp` | lottery-scheduler/log.c:150-163 | the End step of the protocol: the caller must commit exactly if it was the last operation, and else wakes the sleepers |
| `Log.Log.CommitDone` | lottery-scheduler/log.c:169-172 | the CommitEnd step: committing is over and every sleeper is awake |
| `Log.Log.ReadHead` | lottery-scheduler/log.c:84-96 | the in-memory list becomes the list of the header block on the platter |
| `Log.Log.WriteHead` | lottery-scheduler/log.c:98-113 | one platter write, of the header with the list now in memory; words past the list keep their old values |
| `Log.Log.InstallTrans` | lottery-scheduler/log.c:68-82 | exposes exactly the platters of InstallTrace, one per copy, and leaves no block pinned |
| `Log.Log.WriteLog` | lottery-scheduler/log.c:176-190 | exposes exactly the platters of CopyTrace, from the cached contents of the listed blocks |
| `Log.Log.WriteToLog` | lottery-scheduler/log.c:196-197 | write_log then write_head reaches exactly the platter Committed describes |
| `Log.Log.Install` | lottery-scheduler/log.c:198-200 | the tail that commit and recovery share exposes exactly the platters of RecoveryTrace and ends with an empty log |
| `Log.Log.CommitBody` | lottery-scheduler/log.c:192-202 | the writes of commit are exactly CommitTrace; afterwards every home block on the platter is what the cache held, and nothing is pinned |
| `Log.Log.RecoverFromLog` | lottery-scheduler/log.c:115-122 | the writes of a recovery are exactly RecoveryTrace, from any well-formed platter to the recovered one |
| `Log.HomeContents` | lottery-scheduler/log.c:204-213 | the cached content of a home block is its logged data if it is listed and its platter content otherwise |
| `Disk.BlockStore.Bwrite` | lottery-scheduler/memide.c:35-60 | one atomic write of one block, after which platter and cache agree on it |
| `GroupCommit.EventKeepsGood` | lottery-scheduler/log.c:124-233 | each critical section, log_write with its data, block write of a commit, and crash followed by recoveries keeps: the cache shows every log_write not lost, the platter those that are durable, and each operation is wholly in one of the two |
| `GroupCommit.RunGood` | lottery-scheduler/log.c:124-233 | that holds after every run of any number of processes |
| `GroupCommit.OperationsAreAtomic` | lottery-scheduler/log.c:14-31 | crash any run at any point and recover, however often interrupted: the home blocks are the log_writes, folded in order, of those commits whose header write had reached the platter, and of each operation they hold all log_writes or none |
| `GroupCommit.IdleIsDurable` | lottery-scheduler/log.c:150-174 | whenever no operation is active and no commit under way, every log_write not lost in a crash is durable |
| `BufferCache.Recycled` | lottery-scheduler/bio.c:78-91 | giving an idle unpinned buffer to a block no buffer holds keeps the cache coherent and at most one buffer per block |
| `BufferCache.ReadIn` | lottery-scheduler/memide.c:57-59 | a buffer that is filled from disk gets what an uncached store would return |
| `BufferCache.ModifiedCoherent` | lottery-scheduler/log.c:204-213 | a holder may change its locked buffer at any time without breaking coherence |
| `BufferCache.PinnedCoherent` | lottery-scheduler/log.c:231-231 | setting B_DIRTY keeps the cache coherent |
| `BufferCache.FlushedCoherent` | lottery-scheduler/memide.c:54-59 | writing a buffer out keeps the cache coherent, and its block is no longer ahead of the disk |
| `BufferCache.MovedToFront` | lottery-scheduler/bio.c:130-138 | moving the buffer released last to the front keeps the ring in order of release, with all NBUF buffers on it |
| `BufferCache.CleanIsOnDisk` | lottery-scheduler/bio.c:95-106 | a valid, clean, unlocked buffer equals its disk block |
| `BufferCache.OnlyPinnedAhead` | lottery-scheduler/bio.c:78-80 | with no change under way, an uncached store differs from the disk only in blocks some pinned buffer holds |
| `Ring.Unlinked` | lottery-scheduler/bio.c:132-133 | the two writes take one buffer out of the doubly linked ring and leave the rest a ring in the same order |
| `Ring.LinkedFirst` | lottery-scheduler/bio.c:134-137 | the four writes put a buffer behind the sentinel and leave a ring |
| `BufferCache.Cache.constructor` | lottery-scheduler/bio.c:38-56 | binit leaves one ring of all NBUF buffers, each free |
| `BufferCache.Cache.Find` | lottery-scheduler/bio.c:68-76 | the forward scan finds a buffer of the block exactly if there is one |
| `BufferCache.Cache.Oldest` | lottery-scheduler/bio.c:81-91 | the backward scan finds, of the idle unpinned buffers, the one released longest ago, and fails only if there is none |
| `BufferCache.Cache.Bget` | lottery-scheduler/bio.c:61-93 | one more reference to the buffer of the block if there is one, else the least recently released idle unpinned buffer; "no buffers" exactly if the block is not cached and all NBUF buffers are pinned or held |
| `BufferCache.AllInUse` | lottery-scheduler/bio.c:81-92 | no buffer can be recycled if and only if pinned and held buffers add up to all of them |
| `BufferCache.PinnedWithin` | lottery-scheduler/bio.c:78-80 | if only listed blocks are pinned, there are at most as many pinned buffers as listed blocks |
| `CommitBuffers.Bread` | lottery-scheduler/bio.c:95-106 | bread gives the locked, filled buffer of the block, one more in use only if it was idle; it panics exactly if all buffers are in use and the block is not cached |
| `CommitBuffers.BreadBoth` | lottery-scheduler/log.c:182-183 | the two breads of a turn: only the first can panic, since the second block is pinned |
| `CommitBuffers.WriteLogTurn` | lottery-scheduler/log.c:176-190 | one turn of write_log on the buffer cache: the log block on disk gets the contents of the home block, as many buffers are in use and pinned as before, and "no buffers" comes exactly if all NBUF are in use and the log block is not cached |
| `CommitBuffers.InstallTurn` | lottery-scheduler/log.c:68-82 | one turn of install_trans in a commit, likewise: the home block on disk gets the logged contents, and one buffer fewer is pinned |
| `CommitBuffers.WriteLog` | lottery-scheduler/log.c:176-190 | the whole of write_log on the buffer cache: no turn meets "no buffers", and the disk is that of CopyTrace |
| `CommitBuffers.WriteHead` | lottery-scheduler/log.c:98-113 | write_head on the buffer cache, likewise |
| `CommitBuffers.InstallTrans` | lottery-scheduler/log.c:68-82 | the whole of install_trans in a commit, likewise: the disk is that of InstallTrace, and no listed block is pinned any more |
| `CommitBuffers.Commit` | lottery-scheduler/log.c:192-202 | commit on the buffer cache: with at most LOGSIZE - 2 listed blocks and at most NBUF - LOGSIZE + 1 buffers held by others nothing panics, the disk ends as CommitTrace says, home blocks on disk are what readers got before, and nothing is pinned |
| `CommitBuffers.CommitHasRoom` | lottery-scheduler/param.h:10-12 | in every reachable state of the log at most LOGSIZE - 2 buffers are pinned, so no turn of a commit meets "no buffers" while others hold at most NBUF - LOGSIZE + 1; with that many pinned, exactly then |
| `BufferCache.Cache.Fetch` | lottery-scheduler/bio.c:101-105 | after bread the data are those of an uncached store, whatever other callers do in between |
| `BufferCache.Cache.Iderw` | lottery-scheduler/memide.c:38-60 | writes out a dirty buffer, else fills it; refuses another device or a block out of range and then changes nothing |
| `BufferCache.Cache.Bwrite` | lottery-scheduler/bio.c:108-116 | afterwards the disk has what the buffer has |
| `BufferCache.Cache.Brelse` | lottery-scheduler/bio.c:118-141 | drops the lock and one reference, and makes the buffer the most recently released exactly if that was the last one |
| `Heap.FreedSound` | lottery-scheduler/umalloc.c:33-42 | linking a block into its gap and merging it with both neighbours as far as they touch keeps one ascending cycle in which no two blocks overlap or touch |
| `Heap.FreedUnits` | lottery-scheduler/umalloc.c:33-42 | and frees exactly the units of that block; all other blocks in use are untouched |
| `Heap.TakenServed` | lottery-scheduler/umalloc.c:76-77 | taking a block off the list serves exactly its units, and the rest of the heap is as before |
| `Heap.CarvedServed` | lottery-scheduler/umalloc.c:79-81 | cutting nunits off the end of a block serves exactly those units, and the rest of the heap is as before |
| `Heap.GrantedSound` | lottery-scheduler/umalloc.c:54-58 | units new from sbrk, as one block in use, leave the heap sound |
| `Heap.RunInOneBlock` | lottery-scheduler/umalloc.c:33-42 | because free coalesces, any run of consecutive free units lies within one block of the list |
| `Heap.FitsIffRun` | lottery-scheduler/umalloc.c:74-75 | a block of n units is on the list if and only if n consecutive units are free |
| `Heap.Canonical` | lottery-scheduler/umalloc.c:24-44 | the free list is determined by which units are free: two heaps with the same free units have the same list |
| `Heap.Conservation` | lottery-scheduler/umalloc.c:24-90 | the sizes on the list add up to the number of free units, and with the sizes of the blocks in use to all units ever obtained from sbrk |
| `Heap.FullTurn` | lottery-scheduler/umalloc.c:74-89 | one turn around the cycle finds a block if and only if there is one |
| `Heap.NextFitIff` | lottery-scheduler/umalloc.c:74-89 | the search of malloc fails if and only if no run of n units is free |
| `Heap.NextFitIsNearest` | lottery-scheduler/umalloc.c:74-87 | of the blocks with room the search settles on the nearest behind freep, and on the block at freep last |
| `Allocator.RoomIff` | lottery-scheduler/umalloc.c:69-69 | the units computed have room for nbytes if and only if the 32-bit rounding does not wrap |
| `Allocator.UnitsLeast` | lottery-scheduler/umalloc.c:69-69 | malloc takes the fewest units whose bytes behind the header number at least nbytes; for the seven requests that wrap, the header alone |
| `Allocator.FreedFields` | lottery-scheduler/umalloc.c:33-42 | the writes of free to ptr and size are exactly insertion followed by the two merges |
| `Allocator.Umalloc.FindPlace` | lottery-scheduler/umalloc.c:30-32 | the search of free ends within one turn at the block behind which the freed one belongs |
| `Allocator.Umalloc.Free` | lottery-scheduler/umalloc.c:24-44 | releases exactly the units of the block; freep is the last free block below it |
| `Allocator.Umalloc.Morecore` | lottery-scheduler/umalloc.c:46-61 | adds exactly the units sbrk yields to the free ones, or changes nothing and returns 0 |
| `Allocator.Umalloc.Start` | lottery-scheduler/umalloc.c:70-73 | the first call makes the base the only block |
| `Allocator.Umalloc.Search` | lottery-scheduler/umalloc.c:74-89 | ends within one turn, plus one more after morecore however that moves freep; settles on the next fit, or fails only if there is none and sbrk failed |
| `Allocator.Umalloc.Take` | lottery-scheduler/umalloc.c:76-82 | its writes are those of Taken or Carved |
| `Allocator.Umalloc.Serve` | lottery-scheduler/umalloc.c:75-85 | the block served is disjoint from all in use, and freep is the block before |
| `Allocator.Umalloc.Malloc` | lottery-scheduler/umalloc.c:63-90 | with n the least number of units that hold a header and nbytes (where the rounding does not wrap): 0 exactly if no run of n free units exists and sbrk fails; otherwise a block of n units that were free, from the block next fit settles on, or from new memory only if no run was free |
| `Allocator.FreeUndoesMalloc` | lottery-scheduler/umalloc.c:24-90 | freeing a block that needed no new memory restores the very same free list |
| `FsFormat.SetBit` | lottery-scheduler/fs.c:66-68 | or-ing the mask in sets the bit of block b and no other |
| `FsFormat.ClearBit` | lottery-scheduler/fs.c:88-92 | masking it out clears the bit of block b and no other |
| `FsFormat.MaskShifts` | lottery-scheduler/fs.c:66-68 | the mask of bit k in a byte of the bitmap is 1 << k |
| `FsFormat.GetSet` | lottery-scheduler/fs.c:390-392 | an entry of an indirect block reads back as written, and the others as before |
| `FsFormat.ReadBack` | lottery-scheduler/fs.c:452-511 | a range just written reads back as written; a range it misses reads as before |
| `FsFormat.OverlayTwice` | lottery-scheduler/file.c:135-152 | two adjacent writes in a row are one write of the concatenation |
| `FsImage.MarkedIffNamed` | lottery-scheduler/fs.c:55-95 | a bitmap bit is set if and only if the block is metadata or some slot of some inode names it |
| `FsImage.NamedOnce` | lottery-scheduler/fs.c:372-400 | no block is named by two slots |
| `FsImage.AllocatedNames` | lottery-scheduler/fs.c:379-394 | allocation changes what its own slot names, and no other slot |
| `FsImage.AllocatedSound` | lottery-scheduler/fs.c:55-78 | marking a free block, zeroing it and naming it from an empty slot keeps exclusive ownership |
| `FsImage.AllocatedKeeps` | lottery-scheduler/fs.c:379-394 | and every block that was named still is, by the same slot, with the same data |
| `FsImage.OneAllocation` | lottery-scheduler/fs.c:378-394 | the effect of bmap when one block is missing |
| `FsImage.TwoAllocations` | lottery-scheduler/fs.c:387-394 | the effect of bmap when the indirect block is missing as well |
| `FsImage.MappedExtent` | lottery-scheduler/fs.c:372-400 | bmap of the next block extends the mapped prefix by one, of an earlier block leaves it |
| `FsImage.WrittenSound` | lottery-scheduler/fs.c:499-503 | writing data through a direct slot or an entry keeps ownership |
| `FsImage.SteppedBytes` | lottery-scheduler/fs.c:498-504 | one step of writei makes the file what it was, overlaid with the bytes of the step, across the direct/indirect boundary too; other files are as before |
| `FsImage.ProgressStep` | lottery-scheduler/fs.c:498-504 | the steps add up: after tot bytes the file is the old one overlaid with the first tot bytes |
| `FsImage.ProgressEnd` | lottery-scheduler/fs.c:506-509 | with the size brought up to date the file is the old contents overlaid with all of src, and slot bn is mapped iff bn < ceil(size/BSIZE) |
| `FsImage.ReleasedConsistent` | lottery-scheduler/fs.c:80-95 | the block of a slot not yet released is marked, so bfree cannot find it free |
| `FsImage.ClearedDirect` | lottery-scheduler/fs.c:414-419 | zeroing a direct slot whose block is gone restores consistency |
| `FsImage.ClearedIndirect` | lottery-scheduler/fs.c:424-431 | zeroing the indirect slot once its block and all entries are gone does too |
| `FsImage.AllReleased` | lottery-scheduler/fs.c:407-435 | the blocks freed by itrunc are exactly those the file owned |
| `FsImage.TruncatedFiles` | lottery-scheduler/fs.c:407-435 | the truncated file is empty, and every other file has the same size, blocks and bytes |
| `FsImage.SameContents` | lottery-scheduler/fs.c:452-511 | files whose blocks are untouched keep their contents |
| `FsImage.FileLayout` | lottery-scheduler/fs.c:372-400 | byte p of a file is byte p % 512 of the data block that entry p / 512 names: the first twelve entries stand in the inode, the others in the block its last entry names |
| `FsImage.RegionSize` | lottery-scheduler/file.c:127-133 | four data blocks, the bitmap, the indirect block and the inode are at most seven blocks |
| `FileSystem.Volume.constructor` | lottery-scheduler/fs.c:53-95 | a volume of empty files: metadata marked, the rest free |
| `FileSystem.Volume.FindBit` | lottery-scheduler/fs.c:65-67 | the inner loop stops at the first clear bit |
| `FileSystem.Volume.Balloc` | lottery-scheduler/fs.c:55-78 | allocates the lowest free block, zeroed, logging its bitmap block and itself; "out of blocks" only if every block is marked |
| `FileSystem.Volume.Bfree` | lottery-scheduler/fs.c:80-95 | clears exactly the bit of the block; "freeing free block" exactly if it was clear |
| `FileSystem.Volume.Bmap` | lottery-scheduler/fs.c:372-400 | the slot names a block as Mapped says; it panics only out of range, or on a full disk where the block is missing; it logs nothing if it changes nothing |
| `FileSystem.Volume.BmapIndirect` | lottery-scheduler/fs.c:383-397 | the same for the second half of bmap |
| `FileSystem.Volume.WriteStep` | lottery-scheduler/fs.c:499-503 | one turn of the loop is a step as SteppedBytes describes it, and logs only blocks near it |
| `FileSystem.Volume.Iupdate` | lottery-scheduler/fs.c:216-236 | the inode on disk becomes the one in memory |
| `FileSystem.Volume.WriteBlocks` | lottery-scheduler/fs.c:498-504 | the loop writes all of src, or the disk is full |
| `FileSystem.Volume.WriteAll` | lottery-scheduler/fs.c:498-509 | and the inodes on disk are again those in memory: no allocation goes without its iupdate |
| `FileSystem.Volume.Writei` | lottery-scheduler/fs.c:481-511 | all bytes are taken exactly if the range starts within the file and ends within MAXFILE blocks: the file is overlaid with src and every other file is untouched; otherwise -1 and nothing changes; it panics only on a full disk |
| `FileSystem.Volume.Readi` | lottery-scheduler/fs.c:452-476 | returns exactly the bytes of the file from off, at most n; changes, allocates and logs nothing |
| `FileSystem.Volume.FreeDirect` | lottery-scheduler/fs.c:414-419 | frees each direct block once |
| `FileSystem.Volume.FreeEntries` | lottery-scheduler/fs.c:422-427 | frees each entry of the indirect block once |
| `FileSystem.Volume.Itrunc` | lottery-scheduler/fs.c:407-435 | frees each block of the file exactly once, never panics, and leaves a volume where the file is empty |
| `FileSystem.Volume.WriteChunk` | lottery-scheduler/file.c:140-145 | a chunk logs at most seven distinct blocks at any offset and allocation state, below the bound that NeverPanicsIff asks for; and all that it changed on disk lies in those |
| `FileSystem.AccountBlock` | lottery-scheduler/fs.c:504-506 | log_write of a changed data block keeps the account: what differs from the start of the operation lies in logged blocks |
| `FileSystem.AccountBit` | lottery-scheduler/fs.c:70-72 | log_write of a changed bitmap block keeps it |
| `FileSystem.AccountInode` | lottery-scheduler/fs.c:228-235 | log_write of a changed inode block keeps it |
| `FileSystem.Volume.TruncateOp` | lottery-scheduler/fs.c:399-435 | as one operation: the file is empty, and all that changed on disk lies in the logged blocks, which are one bitmap block and one inode block on a volume of one bitmap block |
| `DurableFs.LaidOutReadsBack` | lottery-scheduler/fs.h:8-48 | an image laid out in bitmap words, 64-byte inodes and data blocks reads back as that image |
| `DurableFs.UnloggedStays` | lottery-scheduler/fs.c:216-236 | a block an operation did not log is laid out as before |
| `DurableFs.LoggedIsHome` | lottery-scheduler/fs.h:8-10 | an operation logs home blocks only, so the log may hold them |
| `FileHistory.ChunkOp` | lottery-scheduler/file.c:140-145 | a chunk of filewrite, refused or performed, is an operation as the histories below take it: image before, image after, blocks logged, the file overlaid with src |
| `FileHistory.TruncationOp` | lottery-scheduler/fs.c:399-435 | so is a truncation |
| `FileHistory.EachOnceCarries` | lottery-scheduler/log.c:204-213 | logging each changed block once, in any order, carries such an operation |
| `FileHistory.EventKeepsFiles` | lottery-scheduler/log.c:124-233 | every critical section, next log_write of a file operation, block write of a commit, and crash followed by recoveries keeps: the durable log_writes lay out the image that the durable operations make, and the cache, once the operation under way has logged the rest, the one that all operations make which are not lost |
| `FileHistory.RunKeepsFiles` | lottery-scheduler/log.c:124-233 | that holds after every run of any number of processes |
| `FileHistory.DiskStaysSound` | lottery-scheduler/log.c:14-31 | crash any run of chunk writes and truncations, with several of them in one commit, at any point and recover, however often interrupted: the disk reads back as a sound image, the one that the durable operations make, each of them whole, and the others absent |
| `FileHistory.QuietDiskIsCurrent` | lottery-scheduler/log.c:150-174 | with no operation active and no commit under way a crash loses nothing: the disk recovers to the image of all operations not lost earlier |
| `FileSystem.Volume.Filewrite` | lottery-scheduler/file.c:126-154 | the chunks together are one overlay of the bytes written, in as few operations of at most 1536 bytes as there can be; every range that starts within the file and ends within MAXFILE blocks is written, and it falls short only where writei refuses the next chunk |
| `PageTable.MovedConsistent` | lottery-scheduler/kalloc.c:54-95 | a frame may go between the free list and its taker without any entry being concerned |
| `PageTable.EntryDecides` | lottery-scheduler/vm.c:40-56 | every present directory entry lets the user read and write, so the page table entry alone decides what the user may do |
| `PageTable.TwoLevels` | lottery-scheduler/vm.c:35-57 | word n / 1024 of the directory leads to the table, whose word n % 1024 is the entry of page n |
| `PageTable.MappedConsistent` | lottery-scheduler/vm.c:72-76 | writing the entry of an unmapped page for a frame nobody names keeps every frame named exactly once, and changes no other entry |
| `PageTable.UnmappedConsistent` | lottery-scheduler/vm.c:272-279 | clearing the entry of a mapped page keeps it too, and the frame was owned by that page alone |
| `PageTable.HungConsistent` | lottery-scheduler/vm.c:45-54 | a zeroed frame put into a directory entry that was not present maps nothing new |
| `PageTable.RetiredConsistent` | lottery-scheduler/vm.c:294-302 | a directory without user pages may be dropped with its tables; other directories keep their entries |
| `PageTable.ClearedOne` | lottery-scheduler/vm.c:272-280 | visiting a mapped page frees its frame and extends the cleared range by one |
| `PageTable.ClearedTable` | lottery-scheduler/vm.c:269-271 | where there is no table, skipping all its pages has the effect of visiting each |
| `PageTable.GrownThenDissolved` | lottery-scheduler/vm.c:348-350 | dissolving an address space built out of free frames restores exactly the free frames there were |
| `PageTable.ExtendedCleared` | lottery-scheduler/vm.c:236-249 | clearing the range takes an interrupted extension back: every mapping is what it was |
| `PageTable.CopiedOne` | lottery-scheduler/vm.c:337-344 | one page copied: same flags, same contents, a frame of its own |
| `FrameCount.WithTablesAt` | lottery-scheduler/vm.c:40-56 | the tables that mapping a range adds are those of the directory entries the range reaches into |
| `FrameCount.CostStep` | lottery-scheduler/vm.c:70-81 | each page of a range costs its frame, and a frame for its table if that is not there yet |
| `VirtualMemory.LinksPush` | lottery-scheduler/kalloc.c:67-74 | pushing a frame filled with junk keeps the chain of next fields |
| `VirtualMemory.LinksPop` | lottery-scheduler/kalloc.c:89-91 | popping follows it |
| `VirtualMemory.RoundUpIs` | lottery-scheduler/vm.c:244-250 | PGROUNDUP as a page number: the first page that begins at the address or above |
| `VirtualMemory.Machine.constructor` | lottery-scheduler/kalloc.c:46-53 | freerange puts exactly the frames of the range on the list |
| `VirtualMemory.Machine.Kalloc` | lottery-scheduler/kalloc.c:79-95 | takes the frame freed last; 0 exactly if none is free |
| `VirtualMemory.Machine.Kfree` | lottery-scheduler/kalloc.c:59-77 | puts the frame first on the list and panics exactly out of range |
| `VirtualMemory.Machine.Walk` | lottery-scheduler/vm.c:31-57 | the table that serves the page, made exactly if asked for and missing, at the cost of one frame; its directory entry is present, writable and open to the user |
| `VirtualMemory.Machine.MapUser` | lottery-scheduler/vm.c:62-83 | mappages of one page writes that entry alone, and fails only if a table is missing and no frame is free |
| `VirtualMemory.Machine.MapKernel` | lottery-scheduler/vm.c:62-83 | mappages of a range maps page k of it to frame k and changes no other entry; it fails exactly if there are fewer free frames than missing tables |
| `VirtualMemory.Machine.Setupkvm` | lottery-scheduler/vm.c:121-141 | a directory that maps exactly the kernel regions; exactly if there are too few frames, 0 and every frame as before |
| `VirtualMemory.Machine.Allocuvm` | lottery-scheduler/vm.c:220-252 | newsz and every page of the range mapped to a zeroed frame the user may write, as both entries on the way allow, exactly if the free frames cover the pages and the missing tables; otherwise 0 and every mapping as before |
| `VirtualMemory.Machine.AllocPage` | lottery-scheduler/vm.c:235-249 | one turn of allocuvm; on either failure the range is cleared again |
| `VirtualMemory.Machine.Deallocuvm` | lottery-scheduler/vm.c:254-283 | unmaps and frees exactly the pages of the range, though it skips whole tables |
| `VirtualMemory.Machine.ClearTurn` | lottery-scheduler/vm.c:269-280 | one turn, whether a page or a skipped table |
| `VirtualMemory.Machine.Freevm` | lottery-scheduler/vm.c:285-303 | every user frame, every table and the directory become free, each once, and nothing else changes |
| `VirtualMemory.Machine.Copyuvm` | lottery-scheduler/vm.c:317-351 | exactly if there are frames enough, a new address space whose pages have the contents and flags of the parent and give the user the same access, in frames of their own; otherwise 0, with the free frames exactly as before |
| `VirtualMemory.Machine.CopyPage` | lottery-scheduler/vm.c:331-344 | one turn of copyuvm |
| `Xorshift32.StepXor` | lottery-scheduler/rand.c:17-19 | the xorshift step is linear over exclusive or |
| `Xorshift32.StepKernel` | lottery-scheduler/rand.c:17-19 | only state 0 steps to 0 |
| `Xorshift32.StepInjective` | lottery-scheduler/rand.c:17-19 | two different states never step to the same one |
| `Xorshift32.Bit30Clears` | lottery-scheduler/rand.c:14-22 | from any state, one of the next 33 states has bit 30 clear |
| `Xorshift32.KnownStates` | lottery-scheduler/rand.c:14-21 | the first two states from seed 1 |
| `Rand.ThresholdBounds` | lottery-scheduler/rand.c:26-26 | the threshold is the largest multiple of max that is at most 0x7fffffff, and more than half of that |
| `Rand.OutputOnto` | lottery-scheduler/rand.c:14-22 | every number from 0 to 0x7fffffff is what rand returns in some state |
| `Rand.OutputIsLowBits` | lottery-scheduler/rand.c:14-22 | two states give the same number exactly if their low 31 bits agree |
| `Rand.PreimagesPeriod` | lottery-scheduler/rand.c:32-32 | how many values below any bound have a given residue |
| `Rand.RangeIsUniform` | lottery-scheduler/rand.c:24-33 | of the values rand_range accepts, each residue has exactly threshold/max preimages |
| `Rand.NeverZero` | lottery-scheduler/rand.c:7-22 | no number of draws leads from a non-zero state to zero |
| `Rand.SoonAccepted` | lottery-scheduler/rand.c:28-31 | one of the next 33 draws is accepted, so the retry loop ends from every state |
| `Rand.DrawnIsFirst` | lottery-scheduler/rand.c:24-33 | the draw rand_range uses is the first one below the threshold |
| `Rand.Rng.Srand` | lottery-scheduler/rand.c:7-12 | the state is never 0, and the seed unless that is 0 |
| `Rand.Rng.Rand` | lottery-scheduler/rand.c:14-22 | one xorshift step; the number is the low 31 bits of the state |
| `Rand.Rng.RandRange` | lottery-scheduler/rand.c:24-33 | ends within 33 draws with the residue of the first accepted one |
| `Lottery.WalkFinds` | lottery-scheduler/runqueue.c:136-153 | a winning number below the total selects a queued process, one at or above it nobody |
| `Lottery.ExactlyProportional` | lottery-scheduler/runqueue.c:136-153 | in any arrangement, exactly max(1, tickets) of the total winning numbers select a given process |
| `Lottery.TotalPermutes` | lottery-scheduler/runqueue.c:82-94 | the total does not depend on the order |
| `Lottery.ShufflePermutes` | lottery-scheduler/runqueue.c:126-133 | the shuffle only rearranges |
| `Lottery.ShuffleInjective` | lottery-scheduler/runqueue.c:126-133 | different index choices give different arrangements |
| `Lottery.ShuffleSurjective` | lottery-scheduler/runqueue.c:126-133 | every arrangement comes from some choices |
| `LotteryQueue.SwapRemoveExact` | lottery-scheduler/runqueue.c:59-67 | removal takes out one occurrence and nothing else |
| `LotteryQueue.SwapRemoveDistinct` | lottery-scheduler/runqueue.c:59-67 | of distinct processes it removes exactly the one asked for |
| `LotteryQueue.DrawSelects` | lottery-scheduler/runqueue.c:136-156 | whatever the shuffle, a draw from a queue that is not empty selects a queued process, never null |
| `LotteryQueue.DrawIsFair` | lottery-scheduler/runqueue.c:71-157 | whatever the shuffle, exactly max(1, tickets) of the winning numbers select a given process |
| `LotteryQueue.LotteryIsFair` | lottery-scheduler/rand.c:24-33 | of all the numbers rand_range accepts when it draws below the total, exactly (0x7fffffff / total) * max(1, tickets) make a given process win, whatever the shuffle |
| `LotteryQueue.ChosenDraws` | lottery-scheduler/runqueue.c:126-133 | the shuffle takes one draw of rand_range below n, n - 1, ..., 2, in this order, each in the state the one before left |
| `LotteryQueue.RunQueue.constructor` | lottery-scheduler/runqueue.c:19-29 | an empty queue |
| `LotteryQueue.RunQueue.Add` | lottery-scheduler/runqueue.c:31-50 | appends: the array stays dense; fails exactly if it is full |
| `LotteryQueue.RunQueue.Remove` | lottery-scheduler/runqueue.c:52-69 | the last process takes the place of the removed one; nothing happens if it is not queued |
| `LotteryQueue.RunQueue.SumTickets` | lottery-scheduler/runqueue.c:82-94 | adds up max(1, tickets) |
| `LotteryQueue.RunQueue.Select` | lottery-scheduler/runqueue.c:71-157 | null exactly if the queue is empty; otherwise the shuffle by draws of rand_range below n, n - 1, ..., 2, then one draw below the total of max(1, tickets), and the process whose interval it falls into; no other draw is made |
| `LotteryQueue.ShuffleInPlace` | lottery-scheduler/runqueue.c:126-133 | the swaps in place are the shuffle by the index choices the generator makes |
| `LotteryQueue.WalkArray` | lottery-scheduler/runqueue.c:136-153 | the accumulating loop finds the process whose interval holds the winning number |
| `LotteryProc.QueuedIffReady` | lottery-scheduler/proc.c:97-617 | a process is in the queue of CPU c exactly if it is RUNNABLE and assigned to c |
| `LotteryProc.ReadiedInv` | lottery-scheduler/proc.c:563-581 | making an embryo or sleeper RUNNABLE and queueing it keeps the invariant |
| `LotteryProc.LeftInv` | lottery-scheduler/proc.c:329-336 | so does leaving the processor as a sleeper or zombie |
| `LotteryProc.DispatchedInv` | lottery-scheduler/proc.c:435-440 | so does running the process picked, though it was picked before the lock was taken |
| `LotteryProc.YieldedInv` | lottery-scheduler/proc.c:493-506 | so does giving up the processor |
| `LotteryProc.RoomFor` | lottery-scheduler/runqueue.c:36-39 | a queue that misses a process has room for it: "runqueue full" is unreachable |
| `LotteryProc.Kernel.constructor` | lottery-scheduler/proc.c:47-54 | pinit establishes the invariant |
| `LotteryProc.Kernel.RqAdd` | lottery-scheduler/runqueue.c:31-50 | appends to the queue of one CPU and cannot find it full |
| `LotteryProc.Kernel.AllocProc` | lottery-scheduler/proc.c:96-116 | the first unused slot becomes an embryo with one ticket, the next pid and no CPU; nothing changes if there is none |
| `LotteryProc.Kernel.Abandon` | lottery-scheduler/proc.c:224-232 | an embryo goes back to unused |
| `LotteryProc.Kernel.ChooseCpu` | lottery-scheduler/proc.c:255-276 | the first CPU with the fewest waiting tickets, CPU 0 if none has fewer than 999999 |
| `LotteryProc.LoadIsTotal` | lottery-scheduler/proc.c:255-276 | if every process holds a ticket, the load fork compares is the total a lottery over the queue is drawn from |
| `Sequences.FirstLeastWins` | lottery-scheduler/proc.c:255-276 | the choice of fork: of any two CPUs below the bound the less loaded wins, and the earlier of equals |
| `LotteryProc.Kernel.ForkCommit` | lottery-scheduler/proc.c:252-280 | the child becomes RUNNABLE at the back of the queue of that CPU |
| `LotteryProc.Kernel.Wakeup` | lottery-scheduler/proc.c:563-589 | exactly the processes asleep on the channel become RUNNABLE, each queued on its CPU |
| `LotteryProc.Kernel.Kill` | lottery-scheduler/proc.c:591-617 | the first process with the pid is marked killed and woken if it sleeps; -1 exactly if there is none |
| `LotteryProc.Kernel.Pick` | lottery-scheduler/proc.c:416-433 | picks the winner of that lottery over the queue of the CPU, null exactly if it is empty |
| `LotteryProc.Kernel.Dispatch` | lottery-scheduler/proc.c:435-443 | however many steps came in between, the picked process is still RUNNABLE and queued here; it leaves the queue and runs |
| `LotteryProc.Kernel.Yield` | lottery-scheduler/proc.c:493-506 | the process goes to the back of the queue of its CPU; "invalid CPU assignment" is unreachable |
| `LotteryProc.Kernel.Sleep` | lottery-scheduler/proc.c:522-551 | the process sleeps on the channel, and the rq_remove finds nothing to remove |
| `LotteryProc.Kernel.Wait` | lottery-scheduler/proc.c:340-387 | reaps the first zombie child, whose slot is then unused, without pid, parent or kill mark; -1 without children or when killed and no zombie; else sleeps |
| `LotteryProc.Kernel.Exit` | lottery-scheduler/proc.c:313-337 | every record afterwards: zombie, children handed to init, the parent woken, init woken if it got a zombie |
| `LotteryProc.Kernel.Reparent` | lottery-scheduler/proc.c:316-327 | the loop of exit over the children |
| `ProcessTree.OrphanZombieExists` | lottery-scheduler/proc.c:319-325 | the recursive form of "a zombie child is handed over" used by Exit means what it says |
| `ProcessTree.AdoptStep` | lottery-scheduler/proc.c:319-325 | one turn of the loop takes the table from the first i children handed over to the first i + 1, with init woken at the first zombie among them |
| `ProcessTree.ExitEffect` | lottery-scheduler/proc.c:313-330 | waking, handing over and dying compose to the record Exit states; in the priority kernel as well |
| `ProcessTree.AfterExitMeans` | lottery-scheduler/proc.c:313-330 | after exit the process is a zombie without children, nobody sleeps on the channel of its parent, nor on that of init if a child had already exited, and no other state has changed |
| `LotteryProc.PickedInv` | lottery-scheduler/proc.c:416-433 | so does picking a process of the queue, or nobody, before the lock is taken |
| `PriorityQueue.EnqueueAppends` | priority-scheduler/runqueue.c:33-95 | rq_add of a process that is not queued appends it to the list of its priority, leaves the other eleven alone and changes only links |
| `PriorityQueue.UnlinkRemoves` | priority-scheduler/runqueue.c:97-172 | rq_remove takes the process out of its list, keeps the order of the rest and changes only links |
| `PriorityQueue.Served` | priority-scheduler/runqueue.c:187-222 | rq_select serves the short-lived list, else the lowest-numbered non-empty one, and none exactly if all are empty |
| `PriorityProc.BestServed` | priority-scheduler/runqueue.c:174-223 | of the RUNNABLE processes of the CPU, rq_select serves one of priority 5 if there is any, else one of the lowest number; none exactly if there is no RUNNABLE process |
| `PriorityQueue.HasRoom` | priority-scheduler/runqueue.c:39-41 | "runqueue full" is unreachable for a process that is not queued |
| `PriorityQueue.EnqueueTwiceBreaks` | priority-scheduler/runqueue.c:33-95 | a second rq_add links the process to itself, and the queue then represents no lists at all |
| `PriorityProc.AddRepresents` | priority-scheduler/runqueue.c:33-95 | adding keeps the queues of all CPUs representing their lists |
| `PriorityProc.RemoveKeepsInv` | priority-scheduler/runqueue.c:97-172 | removing a RUNNABLE process leaves every other one in exactly its list |
| `PriorityProc.FindList` | priority-scheduler/runqueue.c:180-218 | count and heads alone lead rq_select to the list Served names |
| `PriorityProc.Kernel.constructor` | priority-scheduler/proc.c:77-85 | pinit establishes the invariant |
| `PriorityProc.Kernel.RqAdd` | priority-scheduler/runqueue.c:33-95 | a RUNNABLE process in no list joins the back of its own; none of the panics can happen |
| `PriorityProc.Kernel.EnqueueAt` | priority-scheduler/runqueue.c:47-91 | the writes are those of Enqueue |
| `PriorityProc.Kernel.RqRemove` | priority-scheduler/runqueue.c:97-172 | a process in its list leaves it, and the order of the rest stays; for a process in no list nothing at all changes; between two operations the first is the case exactly if it is RUNNABLE |
| `PriorityProc.ListedIff` | priority-scheduler/runqueue.c:97-172 | between two queue operations a process is in its list if and only if it is RUNNABLE |
| `PriorityProc.Kernel.UnlinkAt` | priority-scheduler/runqueue.c:118-129 | the writes are those of Unlink |
| `PriorityProc.Kernel.RqSelect` | priority-scheduler/runqueue.c:174-223 | takes the front of the list Served names, which holds the most urgent RUNNABLE processes of the CPU; null exactly if the CPU has none |
| `PriorityProc.Kernel.TakeHead` | priority-scheduler/runqueue.c:187-216 | the process at the head of the list leaves it and nothing else changes |
| `PriorityProc.Kernel.Schedule` | priority-scheduler/proc.c:498-510 | the selected process, one of priority 5 or else of the lowest number, runs, and the invariant is restored |
| `PriorityProc.Kernel.Reprioritize` | priority-scheduler/sysproc.c:141-150 | a RUNNABLE process moves to the back of the list of its new priority, any other only changes its priority |
| `PriorityProc.Kernel.SetPriority` | priority-scheduler/sysproc.c:119-160 | 0 exactly if the priority is in 0..10 and the pid exists; only the first process with the pid moves |
| `PriorityProc.Kernel.AgeOne` | priority-scheduler/proc.c:432-475 | the record and the lists after one turn are those Aged and AgedLists give |
| `PriorityProc.Kernel.TickWait` | priority-scheduler/proc.c:459-474 | counts a tick and promotes on the fiftieth |
| `PriorityProc.Kernel.Expire` | priority-scheduler/proc.c:434-447 | a process past its lifetime is killed, and queued if it slept |
| `PriorityProc.Kernel.UpdatePriorities` | priority-scheduler/proc.c:423-479 | over the whole table: a process created more than 10000 ticks ago with a pid other than 1 and 2 is killed and woken if it slept; any other live one counts a tick, climbs one priority on every fiftieth if its pid is at most 100, and is of priority 5 if it is above; every RUNNABLE process is then in the list of its priority, those with a pid above 100 that are not too old in the short-lived one |
| `PriorityProc.AgedIsOnce` | priority-scheduler/proc.c:432-475 | the table function of aging means exactly that for each process |
| `PriorityProc.EachInItsList` | priority-scheduler/runqueue.c:47-91 | under the invariant every RUNNABLE process is in the list of its priority on its CPU, the short-lived list for priority 5 |
| `PriorityProc.YoungInShort` | priority-scheduler/proc.c:449-457 | a process with a pid above 100 that is not too old waits in the short-lived list |
| `PriorityProc.AgingPromotes` | priority-scheduler/proc.c:462-474 | a live process with a pid of at most 100 that does not expire climbs one priority in every 50 passes, to 0 at last |
| `PriorityProc.Kernel.FindBefore` | priority-scheduler/runqueue.c:110-134 | the curr/prev walk finds p exactly if it is in the list, and ends with the process before it; it does not end exactly if p is not there and the links end in a loop |
| `PriorityProc.Kernel.TryAdd` | priority-scheduler/runqueue.c:33-95 | rq_add on any queue: Enqueue, or one of its panics |
| `PriorityWakeup.ShadowTurn` | priority-scheduler/proc.c:645-667 | one turn of wakeup1 on any queues that are those of a shadow but for ties and counts: the shadow queues the process once, and the turn panics exactly if its queue has no room for as many entries as it adds |
| `PriorityWakeup.ScanShadow` | priority-scheduler/proc.c:640-668 | wakeup1 panics ("runqueue full") exactly if some queue has no room for all it adds there; otherwise the records, lists, ties and counts of all CPUs afterwards are given |
| `PriorityWakeup.OneSpelling` | priority-scheduler/runqueue.c:110-134 | links that end in a loop spell no list, and others exactly one |
| `PriorityWakeup.KnotIff` | priority-scheduler/runqueue.c:33-95 | the queue of a CPU stands for some lists if and only if no process is counted twice in it |
| `PriorityWakeup.WakeupKeepsQueuesIff` | priority-scheduler/proc.c:640-668 | wakeup1 on any channel, over the whole table and all CPUs, ends with queues that stand for some lists if and only if all sleepers on the channel are of priority 0 or 5; if it ends, the queue of each CPU is lost exactly if a sleeper of that CPU is boosted |
| `PriorityWakeup.WakeupLosesQueue` | priority-scheduler/proc.c:654-665 | an input that shows it: waking a sleeper with pid 3 and priority 4 on an empty queue does not panic and leaves links and a count that represent no lists |
| `PriorityWakeup.AgedSleeperKeepsQueuesIff` | priority-scheduler/proc.c:462-474 | aging leads there: if a sleeper of the default priority 5 with a pid of at most 100 is the only one on its channel that may be boosted, waking it keeps the queues if and only if it has counted fewer than 50 ticks or at least 250 |
| `PriorityKernel.System.constructor` | priority-scheduler/proc.c:77-85 | pinit: every slot unused, every queue and CPU idle |
| `PriorityKernel.System.AllocProc` | priority-scheduler/proc.c:128-157 | the first unused slot becomes an embryo of priority 5 with the next pid, no wait and no CPU; nothing changes if there is none |
| `PriorityKernel.System.Abandon` | priority-scheduler/proc.c:261-267 | an embryo goes back to unused |
| `PriorityKernel.System.ChooseCpu` | priority-scheduler/proc.c:286-300 | the first CPU with the fewest queued processes, CPU 0 if none has fewer than NPROC |
| `PriorityKernel.System.MakeReady` | priority-scheduler/proc.c:208-215 | a process in no list becomes RUNNABLE at the back of the list of its priority and CPU |
| `PriorityKernel.System.ForkCommit` | priority-scheduler/proc.c:284-306 | the child becomes RUNNABLE on that CPU, behind everyone of its priority |
| `PriorityKernel.System.Schedule` | priority-scheduler/proc.c:495-510 | the selected process, one of priority 5 or else of the lowest number, runs; nobody, and nothing changed, exactly if the CPU has no RUNNABLE process |
| `PriorityKernel.System.Yield` | priority-scheduler/proc.c:567-582 | the process goes to the back of its list; "invalid CPU assignment" is unreachable |
| `PriorityKernel.System.Sleep` | priority-scheduler/proc.c:619-626 | the process sleeps on the channel, and the rq_remove finds nothing to remove |
| `PriorityKernel.System.Leave` | priority-scheduler/proc.c:355-365 | a running process leaves the processor as sleeper or zombie and is in no list afterwards |
| `PriorityKernel.System.Wakeup` | priority-scheduler/proc.c:639-677 | on any channel: exactly the processes asleep on it become RUNNABLE, boosted ones at priority 0; it panics exactly if a queue overflows; lists are left if and only if all of them are of priority 0 or 5, and then each has joined the back of its own, in table order |
| `PriorityKernel.System.WakeAll` | priority-scheduler/proc.c:644-667 | the loop performs the turns Scan describes, from queues with or without knots |
| `PriorityKernel.System.WakeTurn` | priority-scheduler/proc.c:647-666 | the statements of one turn perform Turn |
| `PriorityKernel.System.WakeBoosted` | priority-scheduler/proc.c:654-665 | the boost: the rq_remove ends and finds nothing, and the two rq_adds follow |
| `PriorityKernel.System.Kill` | priority-scheduler/proc.c:679-709 | marks the first process with the pid and queues it if it slept; -1 exactly if there is none |
| `PriorityKernel.System.Exit` | priority-scheduler/proc.c:312-367 | on any input: if it returns to the scheduler, every record afterwards is given: zombie, children handed to init, the parent woken, init woken if it got a zombie, no other field changed but by a boost. Lists are left if and only if all processes woken are of priority 0 or 5. Otherwise a queue may overflow, or the last rq_remove walks a looping list 0 for ever |
| `PriorityKernel.System.LetGo` | priority-scheduler/proc.c:341-353 | the wakeup and the loop, with the condition on the processes woken |
| `PriorityKernel.System.Reparent` | priority-scheduler/proc.c:344-353 | the loop over the children, from queues with or without knots |
| `PriorityKernel.System.Adopt` | priority-scheduler/proc.c:347-352 | one child: it passes to init, and a zombie wakes init |
| `PriorityKernel.System.Vanish` | priority-scheduler/proc.c:355-365 | the end of exit: the rq_remove finds nothing, or does not end exactly if the process is of priority 0 and list 0 of its CPU ends in a loop |
| `PriorityKernel.StillWakeable` | priority-scheduler/proc.c:339-353 | if waking the parent boosted nobody, waking init would boost someone afterwards exactly if it would have before |
| `PriorityKernel.AdoptingWakeable` | priority-scheduler/proc.c:344-353 | in the loop, sleepers of init are as they were until a zombie is handed over, and gone from then on |
| `PriorityKernel.System.Wait` | priority-scheduler/proc.c:379-420 | reaps the first zombie child, whose slot is then unused, without pid, parent or kill mark; -1 without children or when killed and no zombie; else sleeps |
| `PriorityKernel.System.UpdatePriorities` | priority-scheduler/proc.c:423-479 | aging, as above, keeps the processors' side of the invariant too |
| `PriorityKernel.System.SetPriority` | priority-scheduler/sysproc.c:119-160 | setpriority, as above, keeps it too |
| `RoundRobin.WaitStep` | round-robin/proc.c:322-342 | a RUNNABLE slot waits one tick longer exactly when another is dispatched, which brings the sweep nearer |
| `RoundRobin.StepMeans` | round-robin/proc.c:322-342 | the slot dispatched was RUNNABLE and is RUNNING; every other RUNNABLE slot waits one tick longer; nothing else changes but by its own event |
| `RoundRobin.BoundedWait` | round-robin/proc.c:312-345 | over every run, a slot that stays RUNNABLE and is passed over waits exactly one tick per dispatch, and at most as many as the sweep had slots before it |
| `RoundRobin.NoneTwice` | round-robin/proc.c:312-345 | meanwhile no slot is dispatched twice |
| `RoundRobin.SoonDispatched` | round-robin/proc.c:322-342 | a run with more turns than there are slots before it dispatches it |
| `RoundRobin.BetweenDispatches` | round-robin/proc.c:327-331 | between two dispatches of a process, whatever it and the others do, its wait_ticks grow by at most NPROC - 1 |
| `RoundRobin.BoundIsMet` | round-robin/proc.c:327-331 | the bound is exact: with all slots RUNNABLE the last one waits a tick for every slot before it |
| `RoundRobin.Scheduler.Sweep1` | round-robin/proc.c:322-339 | one turn of the sweep is the Turn step, and counts a context switch exactly if it dispatches |
| `RoundRobin.Scheduler.SwitchedBack` | round-robin/proc.c:340-342 | the switch back is the Return step |
| `Grep.MatchesSuffix` | lottery-scheduler/grep.c:77-80 | a match from i on is a match at the beginning of the rest of the text |
| `Grep.MatchesChar` | lottery-scheduler/grep.c:93-94 | a pattern that begins with a single character matches iff that character does and the rest matches behind it |
| `Grep.MatchesStar` | lottery-scheduler/grep.c:98-106 | c* followed by a pattern matches iff the pattern matches behind some number of characters described by c |
| `Grep.CharStarts` | lottery-scheduler/grep.c:93-94 | on the pattern string: a character stands for itself and a dot for any, unless a star follows |
| `Grep.StarStarts` | lottery-scheduler/grep.c:89-90 | with a star it stands for any number of such characters |
| `Grep.DollarStarts` | lottery-scheduler/grep.c:91-92 | a dollar sign that is the last character matches only the end of the text |
| `Grep.MatchesMeans` | lottery-scheduler/grep.c:72-82 | a leading caret anchors; without it a match may start anywhere |
| `Grep.Match` | lottery-scheduler/grep.c:72-82 | 1 if and only if some part of the text (a prefix after ^) lies in the language of the pattern |
| `Grep.MatchHere` | lottery-scheduler/grep.c:84-96 | 1 if and only if some prefix does; $ anchors only as the last character |
| `Grep.MatchStar` | lottery-scheduler/grep.c:98-106 | 1 if and only if, behind some number of described characters, the pattern matches |

## Left out

- Device and boot code, the console, printf, the shell, user programs other than the matcher: port I/O and output formatting.
- Spin locks, interrupts, the context switch and memory ordering: a critical section is one atomic step; the scheduler's choice of a process before it takes the lock is a step of its own.
- Torn block writes and disk errors: memide.c has neither.
- Log: initlog reading the superblock (the layout is a parameter); sleeping is a set of sleepers, and one pass of begin_op is one step.
- GroupCommit.OperationsAreAtomic: for operations that log fewer than MAXOPBLOCKS distinct blocks each, which NeverPanicsIff shows to be needed; an operation cut off by a crash gets a new number when it is begun again. Between the read-modify-write of a buffer and its log_write the buffer is locked, so one event stands for both.
- CommitBuffers.Bread: waiting for a sleep lock is not modelled, so nobody else has the buffer locked.
- CommitBuffers.BreadBoth: as for Bread.
- CommitBuffers.WriteLogTurn: as for Bread; the whole loop is WriteLog.
- CommitBuffers.InstallTurn: as for Bread; the whole loop is InstallTrans.
- CommitBuffers.Commit: nobody else acts on the cache between its turns; for the turns alone, CommitHasRoom bounds what others may hold at each of them.
- Logged operations other than filewrite (create, unlink, mkdir, exec): their block counts are not bounded here, only what follows if each stays below MAXOPBLOCKS.
- BufferCache.Cache.Acquire: waiting for the sleep lock is not modelled; the step is taken once the lock is free.
- Allocator.Umalloc.Malloc: what sbrk returns is a parameter, assumed new, above the base and aligned to a header; the product in morecore is assumed not to wrap.
- FileSystem.Volume.Writei: device inodes are not modelled, nor are inode fields other than size and addrs; a disk that fills up in the middle of a write is the end of the run, as in the code.
- FileSystem.Volume.Filewrite: the chunks follow one another without other writers of the file in between; pipes are not modelled.
- FileSystem.Volume.constructor: mkfs lays out the metadata; bitmap and inode blocks are kept apart from the data blocks as bits and inodes. The class works on blocks, not on buffers: log_write is the set of logged blocks, and FileHistory says what becomes of those on disk.
- FileHistory.DiskStaysSound: the log_writes of one file operation come between no other's, although operations may overlap otherwise; operations that log at most cap < MAXOPBLOCKS blocks, as chunks do.
- DurableFs.LaidOutReadsBack: type, device numbers and link count of an inode are laid out as 0; boot block and superblock are not part of the image.
- Inode cache, directories, path lookup, pipes, exec: large, and they add little to the ownership and read/write results.
- VirtualMemory.Machine.MapUser: mappages is given once for one user page and once (MapKernel) for a run of kernel pages, since user frames are owned and kernel frames are not; that pages are not mapped yet, which keeps "remap" away, is a precondition.
- VirtualMemory.Machine.Setupkvm: the kernel regions are a parameter, required to be disjoint pages at or above KERNBASE.
- VirtualMemory.Machine.Allocuvm: when memory runs out, page tables made on the way stay in place, as in the code; so the mappings are restored but not every free frame.
- VirtualMemory.Machine.Copyuvm: that the pages of the parent are present, which keeps its two panics away, is a precondition. inituvm, loaduvm, clearpteu and copyout are left out as easier.
- LotteryProc.Kernel.Exit: closing files and dropping the current directory before the lock is taken are not modelled; nor are the statistics fields (recent_schedules and the like), which no decision reads.
- LotteryProc.Kernel.Pick: ticket counts are read once; the source reads them twice without the table lock and would notice a change in between. The generator is that of one drawing CPU, as for Select.
- LotteryQueue.RunQueue.Select: the generator is not shared here. In the source randstate is one global without a lock, and rq_select holds the queue lock of its own CPU only, so draws of other CPUs can fall between its own; that the next state is that of Lot holds for one drawing CPU at a time. The fairness lemmas count winning numbers and index choices and do not depend on it.
- Rand.Rng.RandRange: likewise, the bound of 33 draws and the residue of the first accepted one hold while no other CPU draws from randstate in between.
- PriorityProc.Kernel.RqAdd: requires a process that is in no list, which the second rq_add of wakeup1 violates; that one is TryAdd, which takes any process.
- PriorityKernel.System.Wakeup: takes queues that stand for lists, as all other steps do. After a wakeup1 or exit that boosted a process it is known exactly what links and counts there are, but no further steps are taken from there.
- PriorityKernel.System.Exit: closing files and dropping the current directory before the lock is taken are not modelled.
- PriorityKernel.System.Schedule: the statistics fields of the priority kernel (waiting_time, first_run_time and the like), which no decision reads, are not modelled.
- RoundRobin.Scheduler.Sweep1: one CPU, as the wait bound needs; first_run_ticks and the other statistics are left out.
- Grep.Match: the read loop of grep, which drops a partial line, is left out; text and pattern are strings without NUL.
