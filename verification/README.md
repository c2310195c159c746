# Verification of the xv6 core with block de-duplication

This project models the kernel and user code of an xv6 variant whose file system can share equal
blocks between files, and proves what its main mechanisms keep: the redo log, the block store with
reference bytes and copy on write, the de-duplication pass, the buffer cache, the process table and
its sleep and wakeup, pipes, page tables, the user-level heap, the shell's parser and grep's matcher.
Code that changes state in place is modelled by classes with methods and loops; what each method
promises is stated on values (stores, disks, tables, flat maps, byte streams, token lists), and the
laws of those values are proved as lemmas. Code that runs concurrently is a machine whose steps are
single stores or critical sections, and its theorems are about every run.

Modules: `Basics`, `Blocks`, `Sharing`, `FileStore`, `FileOps`, `FileWrites`, `FileSpace`, `Truncation`,
`FileSystem` (fs.c); `Dedup`, `DedupOutcome`, `DedupLimit` (file.c); `Mkfs` (mkfs.c); `Witnesses`
(stores on which a promise fails); `RedoLog`, `LogOverlap`, `LogHeader`, `LogLock`, `LogProgress` (log.c,
with proc.c and spinlock.c); `Ring`, `BufferCache`, `CacheLoss` (bio.c, memide.c); `ProcTable`, `ProcRuns`
(proc.c); `Pipe` (pipe.c); `Heap` (umalloc.c); `PageTable`, `Teardown`, `AddressSpace`, `FrameCount`, `VirtualMemory`,
`Growth`, `MemoryWitnesses` (vm.c, kalloc.c); `ShellGrammar`, `ShellOperators`, `ShellLexer`,
`ShellSyntax`, `ShellParser` (sh.c); `Grep` (grep.c). `dafny verify dfyconfig.toml` checks everything.

The store's `Geometry` has a parameter `limit`: files get blocks below it. It is at most 1024, the number
of blocks that have a reference byte. The image mkfs makes has 1026 blocks (mkfs.c:17), so its limit is
1024 or less: up to 1024 the file system runs as the code does, log blocks included; with the first log
block, 1016, as `limit` it stops where balloc would take a block of the log.

## Where the code does not keep what it promises

The model follows the code. These expected properties fail; the members named give a concrete case
or the exact condition under which the property holds.

- A reference byte wraps from 255 to 0 (fs.c:766-792). `Sharing.MergeKeepsCounts` gives the condition
  for one merge, `DedupLimit.DedupExactly` for a whole pass, told from the store before it.
  `Witnesses.PassOnCrowded` runs the pass on a store where it happens; truncating one file then frees a block
  that 64 others hold (`Witnesses.TruncLone`), and truncating one of those panics (`Witnesses.TruncSharer`).
- Copy on write redirects every position of the file behind the shared block, but drops one reference
  (fs.c:30-52, 517-528). So when a file holds a block at two positions, writing one of them also writes
  the other, bytes outside [off, off+n) change, and the counts are off. `FileOps.CowElsewhere`,
  `FileWrites.OverwriteExactly` and `FileSystem.FileSystem.Writei` give the exact conditions;
  `Witnesses.WriteAfterPass` runs the pass and then one write on a consistent store where it happens.
  From a consistent store no other file's bytes ever change. After such a write the file has a block twice
  without a reference, so truncating it panics on freeing a free block (fs.c:108-124, 426-447):
  `Truncation.UnsafeWritePanics` is the exact condition, `Witnesses.TruncAfterWrite` a run.
- The bitmap mkfs writes does not mark the log blocks (mkfs.c:231-246), so balloc hands one out when
  nothing lower is free (`FileSystem.FileSystem.Balloc`). A transaction that logs such a block can send
  wrong data home, or lose data in a crash: `LogOverlap.InstallExact` and `LogOverlap.RestartExact` say exactly
  when, `LogOverlap.OverlapCorrupts` shows one. The first of them handed out is the log header itself, whose
  installation ends the transaction for every later recovery: `LogOverlap.HeaderForgotten` shows a
  transaction half applied, `LogOverlap.HeaderObeyed` a recovery that follows a file's bytes as its list;
  `LogHeader.ObeyedExact` says when following them does no harm. A file's block in the log is also overwritten by
  later transactions that reach it (log.c:173-176): `LogOverlap.ReusedExactly`.
- One dedup pass does not bring all copies of equal bytes together: a block that others were merged
  into may itself move on (file.c:288-436). `DedupOutcome.TwinsSplit` says exactly when,
  `Witnesses.ThreeCopiesSplit` shows a store.
- replaceBlk changes the indirect table in its buffer without logging or writing it (fs.c:43-51). That is the
  release `BufferCache.Bcache.Brelse` shows to break the agreement of the cache with the last writes;
  `CacheLoss.ChangeIsLost` recycles such a buffer and reads the old data back.
- pipewrite returns -1 without waking readers when it has filled the pipe and was killed
  (pipe.c:84-88): `Pipe.WakeupLostExactly`, `Pipe.WakeupCanBeLost`.
- deallocuvm's jump over an absent table keeps its offset, so from a start inside an absent table it
  misses pages (vm.c:261-262): `Teardown.DeallocExact`, `Teardown.LonePageMissed`. freevm starts at 0
  and misses none.
- copyuvm loses the page it has just allocated when mappages fails (vm.c:325-335), and a failing setupkvm
  leaves every frame that was free under a directory nobody is told of (vm.c:139-142):
  `VirtualMemory.Vm.CopyUvm`, `VirtualMemory.Vm.SetupKvm` say when, `MemoryWitnesses.CopyWith64` and
  `MemoryWitnesses.CopyWith66` run into both. The child's stack guard page becomes accessible, since every
  copied page gets PTE_W and PTE_U.
- allocuvm ignores a failed mappages (vm.c:240). With exactly one frame too few, when the last page needs a
  table of its own, it reports the new size although that page is not mapped: `Growth.AllocUvm`,
  `Growth.OneFrameShort`, `MemoryWitnesses.GrowWithOneFrame`.
- kill succeeds on a vacant slot that still carries a pid, or on pid 0, and the mark is inherited by
  the next process in the slot (proc.c:419-437): `ProcTable.KillTarget`,
  `ProcTable.KillZeroMarksNextChild`.
- malloc's size computation overflows for requests near 2^32 (umalloc.c:69): `Heap.RoomForRequest`
  says exactly when, `Heap.LargestRequest` gets a block with no room at all.
- `>>` opens its file like `>` (sh.c:389-394): `ShellOperators.AppendIsIgnored`. A command after `&` needs a
  `;` (sh.c:351-358): `ShellOperators.AfterBackground`, `ShellOperators.BackgroundNeedsList`.
- dedup also compares an indirect entry with `ip1->addrs` at the entry's offset in the table
  (file.c:399, 420), so it skips a duplicate that happens to lie in that direct block:
  `DedupOutcome.PassPointers` with `DedupOutcome.WordIsStart` says exactly when, `Witnesses.PassOnSkipping`
  shows a store. From offset 13 on the index has left the array: the word is arbitrary, one for each file
  searched, and hides one block at most (`Dedup.FindInOther`, `Dedup.TwoAreSeen`).

## Model

| member | source | states |
|---|---|---|
| `Sharing.MergeKeepsCounts` | file.c:233-262 | merging two equal blocks keeps `pointers to b = ref(b) + 1` for every block if and only if the bumped reference byte is below 255 |
| `Sharing.MergeOverruns` | file.c:233-262 | bumping a full byte leaves a block with more than 255 more pointers than its byte says |
| `Sharing.OverrunStays` | file.c:233-262 | no later merge repairs a block whose byte has wrapped |
| `Sharing.SoleOwner` | fs.c:766-810 | under the count invariant a block with reference byte 0 is pointed at from one position only |
| `Sharing.DropKeepsInv` | fs.c:426-447 | dropping one pointer, by its byte or by freeing the block, keeps every count exact and never frees a block another position points at |
| `Sharing.DropTableKeepsInv` | fs.c:449-450 | freeing the emptied indirect table keeps every count exact |
| `Sharing.AddDataKeepsInv` | fs.c:391-409 | pointing an empty position at a freshly allocated block keeps every count exact |
| `Sharing.AddTableKeepsInv` | fs.c:400-401 | installing a fresh indirect table keeps every count exact |
| `Sharing.CowKeepsCounts` | fs.c:517-528 | copy on write keeps every count exact if and only if the file points at the shared block from one position only |
| `Sharing.CowTwice` | fs.c:30-52 | redirecting two positions while dropping one reference leaves the new block miscounted |
| `FileOps.MapDirect` | fs.c:391-395 | filling a direct position: one pointer is set to a fresh zeroed block, all others and all file bytes stay, counts stay exact |
| `FileOps.MapIndirect` | fs.c:402-409 | the same for a position in the indirect table, which is itself a disk block |
| `FileOps.MapTable` | fs.c:400-401 | a new indirect table moves no pointer and changes no byte of any file |
| `FileOps.CowWrites` | fs.c:517-533 | copy on write of a block the file points at once: exactly that logical block of that file changes, even though the block was shared |
| `FileOps.CowLeaks` | fs.c:517-528 | copy on write of a block the file points at twice leaves the old block with a wrong count that this file can no longer mend |
| `FileOps.LeaksAfterWrite` | fs.c:515-533 | a block with a wrong count that file i does not point at keeps its wrong count when file i is written with copy on write |
| `FileOps.LeaksAfterOverwrite` | fs.c:515-533 | and when file i is written in place |
| `FileOps.CowDoubles` | fs.c:517-528 | copy on write of a block the file points at twice leaves the file with a block at two positions and no reference |
| `FileOps.DoublesAfterWrite` | fs.c:515-533 | an unsafe write leaves the file with such a block, and no later write of the file takes it away |
| `FileOps.OverwriteUnshared` | fs.c:529-533 | overwriting a block with reference byte 0 changes no other position of any file |
| `FileOps.CowThrough` | fs.c:517-533 | the exact effect of copy on write on every position of every file, whatever the counts: the positions of the file behind the block, and no others, get the bytes |
| `FileOps.OverwriteThrough` | fs.c:529-533 | the same for an overwrite in place |
| `FileOps.CowElsewhere` | fs.c:517-533 | copy on write leaves the other positions of the file alone if and only if the file points at the block once or the bytes written are the old ones |
| `FileWrites.ProgressStep` | fs.c:515-533 | one iteration of writei carries the account of every byte of the file, of all other files and of the counts one block further |
| `FileWrites.SafeIsSplice` | fs.c:498-540 | when each shared block written is pointed at once, exactly the bytes [off, off+n) of the file change |
| `FileWrites.OverwriteExactly` | fs.c:498-540 | a completed write acts as an overwrite of the file's bytes if and only if, wherever the file sees a block at several positions, the last byte written there is the one an overwrite would leave |
| `FileWrites.ReadAfterWrite` | fs.c:470-540 | after a safe write the file's content at [off, off+n) is what was written and the bytes before it are the old ones |
| `FileSpace.NeedAgrees` | fs.c:515-533 | what an iteration of writei allocates is what the account of the store before the write says, although copies made on the way have redirected pointers |
| `FileSpace.PaidStep` | fs.c:515-533 | one iteration pays for its position, and for every other position of the file behind the same shared block |
| `FileSpace.ReadPaidStep` | fs.c:487-492 | the same for an iteration of readi, which fills in absent blocks |
| `FileSpace.ReadTakesLess` | fs.c:470-540 | a write never takes fewer blocks than a read of the same range |
| `FileSystem.FileSystem.Balloc` | fs.c:81-105 | the lowest free block of the device, marked and zeroed; it lies in the log area exactly when no lower block is free |
| `FileSystem.FileSystem.Bfree` | fs.c:108-124 | clears the bit; the panic is exactly freeing a free block |
| `FileSystem.FileSystem.GetBlkRef` | fs.c:794-810 | the byte counted for a block, found in whichever of the two reference blocks holds it; any byte from block 1024 on |
| `FileSystem.FileSystem.UpdateBlkRef` | fs.c:766-792 | changes one reference byte: up with wrap from 255 to 0, down but not below 0 |
| `FileSystem.FileSystem.Bmap` | fs.c:385-413 | panics exactly past the largest file or when fewer blocks are free than the position needs; otherwise the block behind the position, allocating block and table as needed without changing any file's bytes or any exact count |
| `FileSystem.FileSystem.ReplaceBlk` | fs.c:30-52 | every occurrence of the old block among the file's direct and indirect pointers becomes the new one, and nothing else changes |
| `FileSystem.FileSystem.Unshare` | fs.c:517-528 | the copy-on-write branch as one state change of bitmap, bytes, pointers and blocks; no block exactly when none is free |
| `FileSystem.FileSystem.WriteBlock` | fs.c:515-533 | one iteration of writei: done exactly when the free blocks suffice; every position of the file behind the block gets the bytes and no other position of any file changes; the counts stay exact when the file points at the block once, else a leak appears that no later write of the file mends |
| `FileSystem.FileSystem.Writei` | fs.c:498-540 | device, error and panic cases exactly, the panic by the free blocks against those the whole write needs; otherwise no other file changes a byte and every byte of this file is accounted for, also where it holds a block twice; the store stays consistent if and only if each shared block written is pointed at once by the file, and then exactly bytes [off, off+n) change; else the file is left with a block twice that has no reference |
| `FileSystem.FileSystem.Readi` | fs.c:470-494 | device, error and panic cases exactly, the panic by the free blocks against the absent ones in the range; the data is exactly the file's bytes in the range cut at its size, and no file changes |
| `FileSystem.FileSystem.DropBlock` | fs.c:427-434 | one pointer of itrunc: reference dropped or block freed; the panic exactly on a free block without references, never from exact counts |
| `FileSystem.FileSystem.Itrunc` | fs.c:420-455 | panics if and only if the file holds some block more often than its byte says plus one; otherwise exactly the blocks it held as often as counted, and its table, are freed; from exact counts it never panics, the file is empty, all other files keep their pointers and bytes, and all counts are exact again, however often the file held a block |
| `Truncation.DrawnOne` | fs.c:427-447 | one pointer dropped: bitmap and bytes by how often each block has been dropped so far, or the panic when that is more than it was counted |
| `Truncation.ConsistentTruncates` | fs.c:420-455 | exact counts never lead to the panic |
| `Truncation.UnsafeWritePanics` | fs.c:420-540 | after a write, truncating the file panics if and only if the write touched a shared block the file holds twice |
| `Dedup.Blkcmp` | file.c:221-231 | true exactly on equal blocks |
| `Dedup.GetFreeBlocks` | file.c:199-219 | counts exactly the clear bits of the bitmap |
| `Dedup.SharedTotals` | file.c:470-491 | the sum of all reference bytes, and the logical total derived from it |
| `Dedup.DeleteDups` | file.c:233-262 | merges one position into an equal block: all files read the same, the panic exactly on freeing a free block, counts stay exact if and only if the bumped byte was below 255 |
| `Dedup.MergedSameBlocks` | file.c:233-262 | a merge of positions with equal bytes changes what no file reads |
| `Dedup.MergeAccounts` | file.c:199-262 | a merge that does not wrap keeps used blocks plus extra references, and loses no free block |
| `Dedup.FitsNoOverflow` | file.c:233-262 | while no block's bytes occur at more than 256 positions, no merge bumps a full byte |
| `Dedup.FitsKept` | file.c:264-468 | merging does not change how often any bytes occur |
| `Dedup.FindInFile` | file.c:288-372 | the last later position of the same file with equal bytes in a different block, or none |
| `Dedup.FindInOther` | file.c:374-436 | the last duplicate in the file that is not the word it compares with, and none exactly when there is none; the word is no block for a direct position, the inode's own word up to position 24, and one arbitrary word for the whole search past it |
| `Dedup.TwoAreSeen` | file.c:374-436 | two different duplicate blocks in a file are never both missed, whatever the word |
| `Dedup.GetNextInode` | fs.c:700-724 | the first plain file above the cursor, or none |
| `Dedup.GetPrevInode` | fs.c:726-747 | the last plain file up to one cursor and above the other, or none |
| `Dedup.DedupBlock` | file.c:288-450 | one block's turn: merged with the last later duplicate of its file, else with the last one seen of the last later plain file that has one seen, by one word for each file searched, and left alone only when none has |
| `Dedup.DedupFile` | file.c:276-466 | every block position of the file has its turn, in order, with file contents kept and the counts exact unless a byte wrapped |
| `Dedup.DedupPass` | file.c:264-468 | the pass is exactly one turn for every block position of every plain file, in order; every file reads the same; the counts stay exact if and only if no turn wraps a byte; a panic is the freeing of a free block at a turn after such a wrap; while no bytes occur more than 256 times it never panics, the logical total is unchanged and the free count does not fall |
| `Dedup.MergeWraps` | file.c:233-262 | a merge wraps a byte exactly when the block merged into has byte 255 |
| `DedupOutcome.VisitsOrdered` | file.c:276-288 | turns come in the order of files and positions, each position of a plain file at most once |
| `DedupOutcome.VisitsComplete` | file.c:276-288 | every position of every plain file has a turn |
| `DedupOutcome.TurnsKeep` | file.c:264-468 | between two points of the pass only positions that had their turn in between can have moved, and every position reads the same |
| `DedupOutcome.TurnPointers` | file.c:264-468 | where a pointer is once its turn is over, in any run of the pass up to that point, told from the store before it |
| `DedupOutcome.PassPointers` | file.c:264-468 | where each pointer of a plain file is after the pass, told from the store before it: at the last later duplicate in its file, else at the last one of the last later plain file that has one past the word compared, else where it was; the word is the one told by WordIsStart up to position 24, and one for each file past it |
| `DedupOutcome.TwoMove` | file.c:288-450 | so a position for which some later plain file has two different duplicate blocks never stays, wherever it is |
| `DedupOutcome.StaysIf` | file.c:288-450 | up to position 24 a position stays if and only if its file has no later duplicate and no later plain file has one past the word |
| `DedupOutcome.LandsOnce` | file.c:288-450 | those cases determine one block |
| `DedupOutcome.WordIsStart` | file.c:399-420 | the word an indirect position is compared with is what its direct position points at after that position's own turn, told from the store before the pass |
| `DedupOutcome.StartWordOnce` | file.c:399-420 | and it is one word only |
| `DedupOutcome.TwinsSplit` | file.c:288-436 | over a whole pass: a position and the duplicate in its file it is merged with, up to position 24, end on one block if and only if that duplicate has no later duplicate that its own search takes |
| `DedupOutcome.MergedThenWritten` | fs.c:515-533 | after a merge inside one file, writing either position writes both |
| `DedupLimit.CrowdAt` | file.c:264-468 | the positions behind a block at any turn are those told from the store before the pass |
| `DedupLimit.WrapsExactly` | file.c:233-468 | over a consistent store without blocks past position 24, a pass wraps a byte if and only if some position joins a block that 256 positions share by then |
| `DedupLimit.DedupExactly` | file.c:264-468 | so the pass ends with all counts exact if and only if the store before it has no such position |
| `Witnesses.ThreeCopiesSplit` | file.c:288-436 | a consistent store with equal bytes in three blocks: after every pass the two equal blocks of the first file lie on different disk blocks |
| `Witnesses.PassOnThreeCopies` | file.c:264-468 | the pass run on it, ending consistent with all contents kept and the two blocks apart |
| `Witnesses.SkippingSplit` | file.c:374-436 | a consistent store with one block at positions 0 and 12 and equal bytes in a later file: after every pass position 0 lies on the later block and position 12 does not |
| `Witnesses.PassOnSkipping` | file.c:264-468 | the pass run on it |
| `Witnesses.WriteAfterPass` | fs.c:517-533 | a consistent store, the pass, and one call of writei: the block not written reads the new bytes as well, the counts are off, and truncation would panic |
| `Witnesses.TruncAfterWrite` | fs.c:420-455 | itrunc run after it, which panics |
| `Witnesses.PassOnCrowded` | file.c:264-468 | a consistent store and the pass over it, after which all files read the same but 257 positions point at a block whose byte is 0 |
| `Witnesses.TruncLone` | fs.c:420-455 | itrunc of one of its files then frees that block under 64 others |
| `Witnesses.TruncSharer` | fs.c:420-455 | itrunc of another one panics |
| `Mkfs.Image.constructor` | mkfs.c:86-99 | the empty image: every block zero, no pointer, counts exact |
| `Mkfs.Image.Ialloc` | mkfs.c:217-229 | the next inode number, or the failed write past the table |
| `Mkfs.Image.Place` | mkfs.c:263-286 | the block of a position, the next unused one when there is none, its table first when needed, with all counts exact and all bytes kept; none exactly when fewer are left below the limit than the position needs |
| `Mkfs.Image.Iappend` | mkfs.c:250-297 | succeeds exactly when the file stays within the largest size and the blocks left below the limit suffice; then the file's bytes are the old ones followed by the data, no other file changes, and each block number is used once |
| `Mkfs.Image.RoundRoot` | mkfs.c:146-151 | the root directory grows by zeros to a multiple of the block size, by a whole block if it was one |
| `Mkfs.Image.Finish` | mkfs.c:231-246 | the finished image is a consistent store with the files as built, the start of every run |
| `RedoLog.InstallAgain` | log.c:70-84 | installing after any partial install gives the full install |
| `RedoLog.InstallApplies` | log.c:70-84 | installing a log applies exactly the logged writes to the home blocks, the last write of a sector winning |
| `RedoLog.LoggedAbsorb` | log.c:168-180 | a second write of a sector overwrites its log block |
| `RedoLog.LoggedAppend` | log.c:168-180 | a first write of a sector gets the next log block |
| `RedoLog.HeaderCommits` | log.c:100-115 | the header write turns a disk that recovers to the old home blocks into one that recovers to the new ones |
| `RedoLog.RecoveryRestarts` | log.c:116-124 | a crash at any point of recovery leaves a disk that recovers to the same home blocks |
| `RedoLog.RepeatedCrashes` | log.c:116-124 | so does any number of crashes in a row during recovery |
| `RedoLog.Log.constructor` | log.c:53-68 | initlog recovers from whatever a crash left; every disk on the way is a recovery state of it |
| `RedoLog.Log.WriteHead` | log.c:103-115 | the header on disk then lists exactly the in-memory sectors, and no other block changes |
| `RedoLog.Log.InstallTrans` | log.c:71-84 | the logged blocks reach their homes, and every disk on the way is a partial install |
| `RedoLog.Log.ReadHead` | log.c:87-98 | the in-memory header is the one on disk |
| `RedoLog.Log.Recover` | log.c:117-124 | the disk afterwards is the recovered one with an empty log, and every disk on the way recovers to the same home blocks |
| `RedoLog.Log.LogWrite` | log.c:161-183 | fails exactly where it panics; the home blocks stay, the write joins the transaction, and every crash undoes the transaction |
| `RedoLog.Log.CommitTrans` | log.c:137-151 | all writes of the transaction are applied to the home blocks, and a crash after its first block write no longer loses any |
| `RedoLog.Log.Transaction` | log.c:126-183 | succeeds, from an empty log, exactly when no write is past the limits at its turn; every crash state of a whole transaction recovers to the home blocks before it or to those with all its writes, first the one then the other; the log blocks afterwards hold the last data of each sector in the order of first writes, those behind are as they were |
| `RedoLog.SectorsOnce` | log.c:168-180 | a transaction lists each sector it writes once |
| `LogOverlap.InstallsHome` | log.c:71-84 | with all sectors below the log, installing in place is the installation of a transaction |
| `LogOverlap.InstallExact` | log.c:71-84 | with sectors anywhere in the log, the header included, and buffers shared between the log and a file, the home blocks installed are right if and (for distinct data) only if every log block of a home sector is overwritten after its turn and holds its own data |
| `LogOverlap.RestartExact` | log.c:71-124 | a committed transaction survives a crash at every block write, with recovery reading the header the crash left, if and (for distinct data) only if its home sectors come before the header sector in the list and no log block of a home sector is overwritten before the header |
| `LogOverlap.ManyCrashes` | log.c:71-124 | under that condition so does any number of crashes, each in the recovery from the one before |
| `LogOverlap.RestartedHome` | log.c:87-124 | with a header of home sectors this recovery is that of a transaction |
| `LogOverlap.HeaderForgotten` | log.c:87-124 | a disk whose transaction logs zeros for the header sector and is half applied after a crash, with no log block overwritten |
| `LogOverlap.HeaderObeyed` | log.c:87-124 | a disk on which recovery takes a file's bytes for a list and overwrites a home block nobody wrote |
| `LogOverlap.OverlapCorrupts` | log.c:71-84 | a disk on which installing puts the wrong data into a home block |
| `LogOverlap.ReusedExactly` | log.c:161-183 | a file's block inside the log is as it was after a later transaction if and only if that writes too few sectors to reach it or logs the same bytes there |
| `LogHeader.ObeyedExact` | log.c:71-124 | a transaction that logs a file's bytes for the header survives a crash at every block write if and only if the list they read as names only sectors whose log block holds what they are due, and every sector still to be written |
| `LogLock.StepKeeps` | log.c:126-151 | every step of every process, scheduler or interrupt keeps lock ownership, nesting and sleep invariants |
| `LogLock.RunKeeps` | proc.c:274-335 | so every reachable state of every interleaving has them |
| `LogLock.MutualExclusion` | log.c:126-151 | in every interleaving at most one process is between begin_trans and commit_trans, and log.busy says exactly whether one is |
| `LogLock.NoLostWakeup` | proc.c:359-414 | in every interleaving a process asleep on the log while it is free is about to be woken by the running holder of log.lock |
| `LogLock.NeverPanics` | spinlock.c:24-64 | no spinlock, popcli or sched panic is reachable |
| `LogProgress.BeginGetsIn` | log.c:126-135 | from every reachable state with log.lock and the log free, begin_trans and four more steps of the caller end in the transaction with log.busy set and both locks as before |
| `LogProgress.CommitGetsOut` | log.c:137-151 | commit_trans and eight more steps end outside it with log.busy clear, both locks free and nobody asleep on the log |
| `LogProgress.BeginWaits` | log.c:126-135 | while the log is busy, begin_trans and seven more steps leave the caller asleep, log.lock free and its processor with the scheduler |
| `LogProgress.WokenGetsIn` | proc.c:359-394 | a woken sleeper that is dispatched is in the transaction six steps later when the log is free |
| `LogProgress.YieldLeaves` | proc.c:325-335 | yield and three more steps leave the caller runnable at the place it yielded from |
| `LogProgress.YieldReturns` | proc.c:325-335 | and one step after its dispatch it goes on from there |
| `LogProgress.KillWakes` | proc.c:419-437 | kill and four more steps end where the caller began, with the victim runnable if it was asleep and nobody else changed |
| `LogProgress.SchedulerTakes` | proc.c:274-304 | an idle processor takes ptable.lock in two steps and changes nothing else |
| `LogProgress.SchedulerReleases` | proc.c:274-304 | and gives it back in one |
| `LogProgress.HolderSteps` | spinlock.c:24-64 | in every reachable state with a lock held, some step of a holder is enabled and brings the release nearer |
| `LogProgress.LocksCanBeFreed` | spinlock.c:24-64 | so from every reachable state some run frees both locks: no state is a deadlock |
| `BufferCache.Bcache.constructor` | bio.c:38-56 | binit: all buffers unused and linked, the cache agrees with the disk |
| `BufferCache.Bcache.Lookup` | bio.c:69-80 | finds the buffer of a sector exactly when one holds it |
| `BufferCache.Bcache.Victim` | bio.c:82-91 | the least recently released buffer that is neither busy nor dirty, or none if all are |
| `BufferCache.Bcache.Bget` | bio.c:61-93 | exactly when it returns, sleeps or panics; at most one buffer per sector stays true; it recycles only the least recently released idle clean buffer and loses no write |
| `BufferCache.Bcache.Iderw` | memide.c:36-58 | exactly when it panics; otherwise a dirty buffer is written through or an empty one filled |
| `BufferCache.Bcache.Bread` | bio.c:96-105 | the buffer returned holds the last data written or logged for the sector while the cache agrees with the last writes, and in any case what was cached or else what is on the disk; a recycled buffer is the least recently released idle clean one |
| `BufferCache.Bcache.LogMark` | log.c:161-183 | a logged buffer counts as written and cannot be recycled |
| `BufferCache.Bcache.Bwrite` | bio.c:108-115 | exactly when it panics; otherwise disk and cache hold the data and the buffer is clean |
| `BufferCache.Bcache.Brelse` | bio.c:119-138 | the buffer moves to the front of the ring; the cache still agrees with the last writes if and only if the holder leaves no change it neither wrote nor logged |
| `BufferCache.ReleasedFirst` | bio.c:127-132 | moving a released buffer to the front keeps the ring ordered by last release |
| `BufferCache.FilledCoherent` | bio.c:97-105 | filling a buffer from disk gives the last write, because a sector the disk is behind on is in another buffer |
| `BufferCache.ReleaseCoherent` | bio.c:119-138 | releasing keeps agreement with the last writes exactly when the data released is the last write |
| `CacheLoss.ChangeIsLost` | fs.c:43-51 | a buffer changed and released without being written or logged, as replaceBlk leaves it, and then reads of other sectors: the next bread returns the old data |
| `CacheLoss.ReadNext` | bio.c:82-105 | each read of a new sector either takes that buffer or leaves fewer buffers released before it |
| `Ring.Unlink` | bio.c:127-128 | the two stores that unlink a buffer leave a ring of the others in order |
| `Ring.LinkFront` | bio.c:129-132 | the four stores that link a buffer leave a ring with it in front |
| `ProcTable.EventKeeps` | proc.c:34-247 | every critical section and every unlocked store of fork keeps the process-table invariant |
| `ProcTable.RunKeeps` | proc.c:34-437 | so every reachable table of every run has it |
| `ProcTable.ParentLives` | proc.c:128-247 | in every reachable table every live or zombie process but init has a parent that is neither unused, embryo nor zombie |
| `ProcTable.Root` | proc.c:128-204 | following parents from any process ends at init |
| `ProcTable.WaitMissesNoExit` | proc.c:208-247 | in every reachable table a process asleep in wait has a child, none of its children is a zombie, and it has not been killed |
| `ProcTable.ReturnedOnce` | proc.c:208-247 | no two calls of wait in a run return the same pid |
| `ProcTable.ExitedReturnedExactlyOnce` | proc.c:166-247 | a slot that held a zombie holds anything else only after exactly one wait of the whole run returned its pid |
| `ProcRuns.AsleepSince` | proc.c:359-437 | in every run a process asleep on a channel has called sleep on it, and since then there was no wakeup of that channel and no kill of the process |
| `ProcRuns.WakeupReaches` | proc.c:397-414 | a wakeup leaves nobody asleep on its channel and nobody else touched |
| `ProcRuns.SleepWakeRun` | proc.c:359-414 | sleep, wakeup and dispatch bring a process back as it was, its channel cleared, with every other process as the wakeup leaves it |
| `ProcRuns.YieldRuns` | proc.c:325-335 | yield and dispatch bring it back with the whole table as it was but for the channel |
| `ProcRuns.ExitReachesWait` | proc.c:166-247 | when a child of a process asleep in wait exits, the parent can be dispatched and returns that child's pid, whose slot is then unused |
| `ProcTable.KillTarget` | proc.c:419-437 | kill marks the process with that pid if there is one, and a vacant slot exactly when there is none but a slot still carries the number |
| `ProcTable.KillZeroMarksNextChild` | proc.c:419-437 | a run in which kill(0) marks a vacant slot and the next child is born killed |
| `ProcTable.Ptable.constructor` | proc.c:78-103 | userinit's table satisfies the invariant |
| `ProcTable.Ptable.Allocproc` | proc.c:34-51 | takes the first unused slot, which becomes an embryo with the next pid while every other slot stays; fails exactly when there is none |
| `ProcTable.Ptable.Fork` | proc.c:128-161 | succeeds exactly when a slot, a stack and memory are there; then one slot becomes a runnable child of the caller with the next pid and no other changes; a failure uses the pid up and leaves the slot unused |
| `ProcTable.Ptable.Wakeup1` | proc.c:397-405 | each slot asleep on the channel becomes runnable, and every other slot and field stays |
| `ProcTable.Ptable.ExitProc` | proc.c:166-204 | slot by slot: the process becomes a zombie, its children get init for a parent, its parent and, if a zombie was passed, init are runnable if they were asleep on themselves, and nothing else changes; the panic is exactly an exiting init |
| `ProcTable.Ptable.PassToInit` | proc.c:191-198 | the loop over abandoned children amounts to one adoption and at most one wakeup of init |
| `ProcTable.Ptable.Wait` | proc.c:208-247 | reaps the first zombie child, whose slot becomes unused and whose pid it returns; fails when there is no child or the caller is killed, and sleeps on itself exactly otherwise |
| `ProcTable.Ptable.KillPid` | proc.c:419-437 | marks the first slot with the pid, makes it runnable if it was asleep, and changes no other; fails exactly when no slot has it |
| `Pipe.Pipe.constructor` | pipe.c:21-45 | an empty pipe with both ends open |
| `Pipe.Pipe.Write` | pipe.c:77-97 | one stretch under the lock: as many bytes as fit are appended in order; it returns exactly when all went in, sleeps exactly when the pipe is full with a reader open and no kill, and is -1 exactly when it is full otherwise |
| `Pipe.Pipe.Read` | pipe.c:99-120 | one stretch under the lock: the next bytes in order, as many as asked for or all there are; it sleeps exactly when the pipe is empty with the write end open and no kill; a positive read returns none exactly when the pipe is drained and the write end closed |
| `Pipe.Pipe.Close` | pipe.c:58-74 | closes one end; the page is freed exactly when both are closed |
| `Pipe.WrapKeepsTests` | pipe.c:84-113 | the full and empty tests on counters that wrap at 2^32 are exact |
| `Pipe.WrapKeepsCell` | pipe.c:92-115 | a wrapped counter selects the same ring cell as the unwrapped count |
| `Pipe.ReadIsPrefixOfWritten` | pipe.c:77-120 | in every interleaving of readers and writers the bytes delivered are a prefix of the bytes accepted, and at most 512 are in between |
| `Pipe.EmptyReadMeansEnd` | pipe.c:99-120 | in every interleaving a positive read returns 0 only when everything accepted has been delivered and the write end is closed |
| `Pipe.WriteStretch` | pipe.c:77-97 | a stretch of a write puts in the first bytes left of its call; it ends the call only with all of them in, or with the pipe full and no reader or a kill |
| `Pipe.ReadStretch` | pipe.c:99-120 | a stretch of a read takes as many bytes as it asks for, or empties the pipe; it goes on sleeping exactly when the pipe is empty with a writer and no kill |
| `Pipe.WriteDeliversAll` | pipe.c:77-97 | over every run and every interleaving: what a call of write has put in and what it has left make up what it was called with, and when it is over it has put in all of it in order, or gave up on a full pipe |
| `Pipe.CloseEndsRead` | pipe.c:58-74 | closing the write end lets a reader asleep on the empty pipe return with nothing |
| `Pipe.CloseEndsWrite` | pipe.c:58-74 | closing the read end lets a writer asleep on the full pipe give up with nothing more put in |
| `Pipe.WakeupLostExactly` | pipe.c:77-120 | a step leaves somebody asleep who should be awake if and only if a killed writer, or one without readers, fills the pipe and gives up while a reader sleeps |
| `Pipe.RunKeepsSleepers` | pipe.c:77-120 | without such a step no run loses a wakeup |
| `Pipe.WakeupCanBeLost` | pipe.c:83-91 | a run in which it happens |
| `Heap.InsertFreeList` | umalloc.c:24-44 | inserting a block at its place, with coalescing, keeps the list in address order, disjoint and with no two blocks adjacent |
| `Heap.InsertUnits` | umalloc.c:24-44 | coalescing conserves the number of free units |
| `Heap.InsertCovers` | umalloc.c:24-44 | the free addresses afterwards are those before plus the block's |
| `Heap.LoopTest` | umalloc.c:30-32 | free's loop condition holds at one list element only, the wrap included |
| `Heap.Allocator.FindSlot` | umalloc.c:30-32 | the loop ends, at the element after which the block belongs |
| `Heap.Allocator.Relink` | umalloc.c:33-43 | the pointer stores link the block in and merge it with what it touches |
| `Heap.Allocator.Free` | umalloc.c:24-44 | a live block becomes free, nothing else does, the list invariant and the unit total are kept, and freep is at the element the block was linked behind |
| `Heap.Allocator.MoreCore` | umalloc.c:46-61 | fails exactly when sbrk does; otherwise exactly the new memory, at least 4096 units of it, joins the free list at its end, large enough for the request, and no other free block changes |
| `Heap.Allocator.Carve` | umalloc.c:75-84 | the tail of a free block, or all of it, becomes live and nothing else changes |
| `Heap.Allocator.Search` | umalloc.c:74-89 | one turn of the ring: the first fit after freep, or proof that nothing fits |
| `Heap.Allocator.Malloc` | umalloc.c:63-90 | terminates, asks for memory at most once and only when nothing fits, fails only if that fails; the block is the tail of the first fit after freep, or of the new memory; it has room for the request if and only if the 32-bit sum does not overflow, overlaps nothing live or free, and units are conserved |
| `Heap.RoomForRequest` | umalloc.c:69-69 | the unit count leaves room for the request if and only if the 32-bit sum does not overflow, and then one unit less would not |
| `Heap.LargestRequest` | umalloc.c:69-84 | a request of 2^32-1 bytes is granted a block of one unit, its header |
| `PageTable.SetEntryFlat` | vm.c:83-83 | a store to a page table changes the flat map at one page |
| `PageTable.AddTableFlat` | vm.c:54-63 | hanging in a fresh table changes nothing in the flat map |
| `PageTable.Grants` | vm.c:57-62 | what the hardware grants on a page, by the entries of both levels, is what the lower entry alone says |
| `PageTable.PagesTouched` | vm.c:76-88 | the pages mappages visits are exactly those its byte range touches, also for a range that ends at 2^32 |
| `PageTable.EmptyRangeIsEverything` | vm.c:76-88 | a range of no bytes on a page boundary visits the whole address space |
| `VirtualMemory.Vm.Walk` | vm.c:45-65 | the table of a page, allocated on demand under a directory entry that grants everything, with the flat map unchanged; fails exactly when it may not or cannot allocate |
| `VirtualMemory.Vm.MapPages` | vm.c:67-90 | terminates; on success exactly the pages of the range are added, and the hardware grants the user and the writer what was asked for, on a failure exactly the first pages of it, none was mapped before, and no other page changes |
| `VirtualMemory.MappedAccess` | vm.c:67-90 | the pages mappages has mapped grant exactly the permissions it was given |
| `VirtualMemory.Vm.Kfree` | kalloc.c:59-77 | the frame goes on the free list; the panic is exactly a frame outside usable memory |
| `Teardown.DeallocExact` | vm.c:249-273 | deallocuvm empties its range if and only if the pages its 4 MB jumps miss were absent |
| `Teardown.AlignedMissesNothing` | vm.c:258-262 | a walk that starts on a table boundary or in a present table misses nothing |
| `Teardown.LonePageMissed` | vm.c:258-262 | an address space in which a page is missed |
| `VirtualMemory.Vm.Dealloc` | vm.c:249-273 | every page of the range but the missed ones is cleared and its frame freed once; it never panics and changes nothing else |
| `VirtualMemory.Vm.FreeVm` | vm.c:277-292 | every user frame, every page-table page and the directory are on the free list afterwards, each once, and nothing else changed |
| `AddressSpace.KernelMap` | vm.c:115-144 | the kernel half of a directory: physical memory in order with the text read-only, devices in place, no user page |
| `AddressSpace.RegionsApart` | vm.c:115-125 | no page is in two regions of kmap, so mappages cannot panic on them |
| `VirtualMemory.Vm.SetupKvm` | vm.c:127-144 | succeeds exactly when 65 frames are free: a new directory with exactly the kernel map, other directories untouched; otherwise every frame that was free ends under a directory the caller does not get |
| `VirtualMemory.Vm.CopyUvm` | vm.c:307-336 | the number of free frames and the first page missing in the parent decide the outcome exactly; a copy has the parent's bytes in every page below sz on frames that were free, which the user may read and write, nothing else the user may touch, and the kernel map above; the parent is unchanged; without a page everything is rolled back, without a table exactly one frame is lost |
| `VirtualMemory.ChildAccess` | vm.c:307-336 | the user may read and write every copied page of the child, and may touch no other page |
| `FrameCount.KernelTables` | vm.c:115-144 | a finished kernel map holds exactly its 64 tables |
| `FrameCount.StopIsOutcome` | vm.c:309-336 | the results of a copy exclude one another: where it stopped decides each of them by the number of free frames |
| `MemoryWitnesses.CopyWith64` | vm.c:309-336 | a copy of one page with 64 frames free: refused with every frame lost |
| `MemoryWitnesses.CopyWith66` | vm.c:309-336 | the same with 66: refused with the page lost |
| `Growth.AllocUvm` | vm.c:220-243 | the number of free frames decides the outcome exactly: all pages mapped to zeroed frames of their own that the user may read and write; or the new size reported with the last page missing; or refused with the map as before and new tables kept; or the panic on a mapped page; a frame is lost exactly when some page of the range takes the last free frame and still needs a table |
| `Growth.GrowStep` | vm.c:232-241 | one more page: a zeroed frame that was free, with every other page, table and frame as before |
| `Growth.GrownAccess` | vm.c:232-241 | the user may read and write every page grown so far |
| `Growth.EndIsOutcome` | vm.c:232-242 | where growing stopped decides the result, and whether a frame is lost, by the number of free frames, both ways |
| `Growth.StrandsOnce` | vm.c:232-241 | at most one page of a range can lose its frame, and growing stops there |
| `Growth.Undone` | vm.c:233-238 | deallocuvm after a growth that stopped early restores the map: its jumps miss nothing there |
| `Growth.OneFrameShort` | vm.c:239-242 | an address space on which success is reported with the page missing |
| `MemoryWitnesses.GrowWithOneFrame` | vm.c:220-243 | allocuvm run on it |
| `AddressSpace.FreeRollsBack` | vm.c:333-335 | freeing a partial copy restores tables, pages and the set of free frames |
| `AddressSpace.FreeLosesOne` | vm.c:325-335 | a page allocated but not mapped stays off the free list |
| `ShellGrammar.WriteThenParse` | sh.c:345-447 | tokens written from a tree, with parentheses where precedence needs them, parse to that tree |
| `ShellGrammar.LineSourced` | sh.c:345-447 | every word of a parsed tree is a word of the input, at most nine arguments per command, and only the two ways of opening a file |
| `ShellOperators.AppendIsIgnored` | sh.c:375-398 | for every line, writing `>` for each `>>` changes neither tree nor error |
| `ShellOperators.AfterBackground` | sh.c:345-360 | what follows a pipeline and its &s makes a line if and only if it is nothing, or a ; and a line; anything else is the leftovers error |
| `ShellOperators.BackgroundNeedsList` | sh.c:345-360 | `a & b` is refused, `a & ; b` is a list |
| `ShellLexer.LexRender` | sh.c:266-309 | written tokens are read back as the same tokens |
| `ShellLexer.LexWords` | sh.c:266-309 | words lie in the line, hold no blank or symbol, and are separated by at least one byte |
| `ShellLexer.PrintThenParse` | sh.c:328-447 | for every tree of well-formed words with at most nine arguments per command, parsing its printed form gives the tree |
| `ShellLexer.ParseThenPrint` | sh.c:328-447 | whatever a line parses to can be printed and parses again to the same tree |
| `ShellSyntax.ParsesExactly` | sh.c:345-447 | the parser accepts exactly the spellings of lines, defined without it: at most nine words with redirections anywhere among them, lines in parentheses with redirections behind, bars, any number of &s, and ; with a line behind; the tree is what the line means, the words in order under the redirections in order, the last outermost |
| `ShellSyntax.LexExactly` | sh.c:266-309 | the tokens found are exactly the ones the bytes are: words as long as they can be, `>>` one token, symbols one byte, with any blanks or none around them |
| `ShellSyntax.LineParsesExactly` | sh.c:328-447 | so a line of bytes parses to a tree if and only if its bytes spell a line that means it, in printed form or not |
| `ShellParser.Parser.GetToken` | sh.c:266-309 | the kind and extent of the next token, and the cursor behind it |
| `ShellParser.Parser.Peek` | sh.c:311-321 | whether the next token starts with one of the symbols, without consuming it |
| `ShellParser.Parser.ParseRedirs` | sh.c:375-398 | the redirections ahead, in order, or the missing-file error |
| `ShellParser.Parser.ParseArgs` | sh.c:430-446 | arguments and redirections to the end of a command, with the syntax and too-many-arguments errors |
| `ShellParser.Parser.ParseExecCmd` | sh.c:416-447 | the cursor parser returns what the grammar says and terminates on the remaining input |
| `ShellParser.Parser.ParseBlockCmd` | sh.c:400-414 | the same for a parenthesised line |
| `ShellParser.Parser.ParsePipeCmd` | sh.c:362-373 | the same for a pipeline |
| `ShellParser.Parser.ParseLineCmd` | sh.c:345-360 | the same for a line with & and ; |
| `ShellParser.Parser.ParseCmd` | sh.c:328-343 | the whole line is parsed or the right error is reported, leftovers included |
| `ShellParser.Nulterminate` | sh.c:449-494 | exactly the bytes behind the words of the tree are cleared |
| `ShellParser.ParseInPlace` | sh.c:328-343 | after a successful parse every argument and file name reads, in the buffer, as exactly its own token; a failed parse writes nothing |
| `Grep.MatchHere` | grep.c:83-95 | true exactly when the pattern, read as items, matches a stretch of text from this position |
| `Grep.MatchStar` | grep.c:97-105 | true exactly when some run of the starred character is followed by a match of the rest |
| `Grep.Match` | grep.c:71-81 | true exactly when the pattern matches at some position, or at the first for a leading ^ |

## Left out

- Dedup.FindInOther: past position 24 it does not say which word is compared, because the code reads it behind the end of the array; a duplicate in that block is skipped.
- Dedup.DedupBlock: past position 24 it does not say which words are compared, one for each file searched, for the same reason.
- DedupOutcome.PassPointers: past position 24 the words are left open, for the same reason.
- DedupOutcome.TwinsSplit: for a duplicate up to position 24, for the same reason.
- DedupLimit.DedupExactly: for stores whose plain files have no block past position 24, for the same reason; `Dedup.DedupPass` covers all.
- FileSystem.FileSystem.Writei: a device inode is handed to its driver, whose work is not modelled.
- FileSystem.FileSystem.Readi: a device inode is handed to its driver, whose work is not modelled.
- FileSystem.FileSystem.GetBlkRef: from block 1024 on the code reads through an unset pointer; the model gives any byte, not a fault.
- FileSystem.FileSystem.Bmap: gives its panic result also when balloc can only hand out a block beyond the limit of the geometry; on a device no larger than its limit that is balloc's own panic.
- FileSystem.FileSystem.Unshare: gives its no-block result also when balloc can only hand out a block beyond the limit of the geometry.
- Mkfs.Image.Place: gives none at the limit; mkfs has no such test and counts on into the log and past the end of the image.
- Mkfs.Image.Iappend: stops at the limit for the same reason, and says nothing of the image mkfs leaves behind when it fails.
- LogOverlap.RestartExact: when the header sector is logged, for data that read as an empty header, as the zeros of a new block do; `LogHeader.ObeyedExact` is for bytes that read as a list of home sectors, with no other sector in the log. Bytes that list sectors of the log, or too many, are left out.
- LogOverlap.InstallExact: a sector that is its own log block is copied to itself; the code would wait for its own buffer.
- RedoLog.Log.LogWrite: home sectors lie below the log, as the layout of mkfs places them; `LogOverlap` says what happens otherwise.
- Heap.Allocator.Malloc: for requests whose size in bytes is below 2^31; sbrk takes a larger one as a negative number and grants no memory for it.
- VirtualMemory.Vm.Dealloc: for sizes up to KERNBASE, the largest any caller passes; beyond it the 32-bit address can wrap.
- VirtualMemory.Vm.MapPages: physical addresses are page-aligned, as all callers pass them; otherwise their low bits would be or-ed into the permissions.
- Growth.AllocUvm: after a refusal the restored map is stated for a range in which nothing was mapped, as all callers keep it; deallocuvm would also drop pages mapped there before.
- ProcTable.Ptable.Fork: runs its steps without interruption; the interleaved steps are the events of `ProcTable.EventKeeps`.
- The file store is one sequential copy of bitmap, reference bytes, inodes and blocks; its buffers, inode cache, locks and the durability of each block write are the business of the cache and log models.
- The bitmap is a sequence of booleans, not bits packed in bytes.
- Dirty inode write-back, directories, path names, ialloc, iget and iput.
- Page-table entries are pairs of frame and permissions, not 32-bit words.
- loaduvm, inituvm, copyout and clearpteu.
- The interrupt-enable flag that pushcli saves, and memory-ordering effects of xchg.
- pid numbers are unbounded; overflow of nextpid after 2^31 forks is not modelled.
- Hardware, interrupts, timers and system-call entry; sbrk, kalloc outcomes and memory contents are parameters.
- exec, the console, runcmd and the other user programs.
- Bytes a reader has in its own buffer after -1 from pipewrite: only what entered the pipe is tracked.
