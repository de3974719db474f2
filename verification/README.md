# xv6: what its storage stack, allocators and waiting protocols guarantee

A Dafny model of the core of the xv6 kernel in this repository, with proofs. It covers

- the write-ahead log over the buffer cache (`log.c`, `bio.c`, and both disk drivers, `memide.c` and `ide.c`),
- the block allocator and file contents (`fs.c`, `file.c`) from the image that `mkfs.c` makes,
- link counts (`sysfile.c`, directories of `fs.c`),
- sleep locks, wait and exit, and pipes (`sleeplock.c`, `proc.c`, `pipe.c`),
- the user-level allocator (`umalloc.c`) and address spaces (`vm.c`, `kalloc.c`).

Code that updates things in place is a class with the same fields: `BCache` with its prev and next links,
`LogDevice`, `FileSystem`, `Image`, `Allocator`, `Driver`, `Pipe`, `Table`, `Kernel`, `Processes`, `Inodes`. Its
methods are proved against functions and predicates on values. Concurrency is a step machine over any number of
processes, with an invariant that every step keeps and theorems about every run. Methods take the steps of these
machines: those of `BCache` the steps of `CacheMachine`, those of `Driver` and `Inodes` the steps of `Ide` and
`Links`, and, through the three classes `Calls`, those of `Pipe` the steps of `PipeRuns`, those of `Table` the steps of
`WaitExit` and those of `LogDevice` the steps of `LogMachine`. There the theorems about every run are theorems about
the code; that of crash safety is `LogCalls.Calls.EveryDiskRecovers`. `SleepLock` is a machine alone, in which each
step is one action of the code.

How the files fit together:

| files | subject |
|---|---|
| `Common`, `Params`, `Blocks` | constants of param.h and fs.h, blocks of bytes, words |
| `LogFormat`, `LogMachine`, `LogSafety`, `LogSpace`, `LogRedo` | the log on disk; operations, commits, crashes and recovery as steps; crash safety; space in the log; the disk writes of one commit |
| `CacheMachine`, `CacheSafety`, `CacheOrder`, `Bio` | the buffer cache as steps; its refinement of the disk; least recently used; the linked list in memory |
| `LogCommit`, `LogPins`, `LogCode` | log.c over the cache: copying blocks; what is pinned, in every run; commit, recovery, log_write |
| `LogPasses`, `LogView`, `LogCalls` | commit and recovery as runs of the log machine; buffers as its cache; the calls of the code as its steps |
| `FsLayout`, `FsState`, `FsMap`, `FsWrite`, `FsLog`, `FsTrunc`, `Fs`, `File`, `FsTight` | bits, inodes and tables in blocks; ownership and contents; the blocks a write takes and logs; bmap, writei, readi, itrunc; filewrite; a transaction of the largest size |
| `Mkfs` | the initial file system |
| `Links`, `LinkBounds`, `LinkNames` | directories and link counts; what holds of them below removed directories too; what names mean |
| `Umalloc` | malloc and free |
| `SleepLock`, `SleepProgress` | sleep locks: who holds them and who waits; that they are taken, let go of and waited for |
| `ProcTable`, `WaitExit`, `WaitCalls` | the process table; fork, exit, wait as steps; what wait returns, and the calls of the code as steps |
| `Ide` | the interrupt-driven driver against the synchronous one |
| `Pipe`, `PipeRuns` | the ring buffer; readers and writers |
| `VmState`, `Vm`, `Spaces` | pages and page tables; kalloc, mappages, allocuvm, copyuvm, freevm; the spaces of processes and their sizes |

How the code is read:

- Memory outside the modelled structures, the disk below `iderw`, `sbrk`, free inodes and the interleaving of
  processes are parameters or free choices of a step.
- A call of `panic` is a result, which the contracts rule out or tie to its exact condition.
- One disk write of a block is atomic, and a crash can fall between any two.
- `log_write` reads `lh.n` before it takes `log.lock`; its checks and its update are one step here.
- `bread`, `log_write` and `brelse` inside `fs.c` act on the volume as the cache presents it; the cache and the
  log below them have their own proofs.
- Inode fields of type short are their 16 bits.

Properties one might expect that do not hold of the code. Each has a run or a case that shows it and the exact
condition under which it does hold:

- The reservation of `begin_op` rules out "too big a transaction". For a block new to the log it does if and only
  if the log has more than LOGSIZE blocks, and mkfs makes it LOGSIZE. For a block already in the log it does
  only if nothing fits the log, because the test comes before absorption (`LogSpace.PanicIff`).
- mkfs leaves no holes (`Mkfs.RoundingMakesHole`).
- No reader sleeps on a pipe with bytes in it (`PipeRuns.MissedIff`).
- Link counts are right: if and only if the directory that create, mkdir or link makes its entry in is linked itself
  (`Links.ParentMustBeLinked`).
- malloc's block is large enough and all of it is memory: from new memory, if and only if the request is at most
  2^31 - 16 bytes (`Umalloc.Allocator.Malloc`, `Umalloc.RequestFits`).
- A malloc that fails leaves the memory of the process as it was: if and only if its request does not make the
  argument of sbrk negative. A process of size sz that asks for 2^32 - sz - 8 bytes loses all of it
  (`Umalloc.Allocator.Malloc`, `Umalloc.WholeSizeRequest`).
- A process maps exactly the pages below its size: if and only if growproc is not asked for the whole size back
  (`Spaces.Processes.Growproc`).

## Model

| member | source | states |
|---|---|---|
| `LogSafety.CrashSafety` | log.c:125-202 | in every run of any interleaving of operations, readers, evictions, commits, crashes and recoveries, recovering the disk as it stands gives exactly the effect of the transactions committed so far, and these are made of whole operations |
| `LogSafety.AllOrNothing` | log.c:192-202 | from any commit that any run reaches, through any further steps, crashes and restarts of recovery until the next begin_op, the disk recovers to the old contents if the first write_head did not reach it and to the whole transaction if it did |
| `LogSafety.ReadSeesLastWrite` | log.c:213-233 | in every run bread gives the last contents logged for a block, whatever has been evicted and however far a commit has come |
| `LogSafety.CommitMeetsNoOperation` | log.c:145-174 | in every run a commit is in progress only while no operation is: the panic of end_op and the panic "log_write outside of trans" are unreachable |
| `LogSafety.StepInv` | log.c:69-233 | each step of begin_op, log_write, end_op, write_log, write_head, install_trans, recovery, eviction and crash keeps what the disk, the list of logged blocks and the pinned buffers have to do with each other |
| `LogSafety.RunInv` | log.c:69-233 | so does every run |
| `LogSpace.Reservation` | log.c:125-141 | in every run in which no operation adds more than MAXOPBLOCKS blocks, lh.n plus the unused budget of all running operations never exceeds LOGSIZE, and lh.block has no repetition and stays in bounds |
| `LogSpace.RoomForAll` | log.c:213-233 | with a log of more than LOGSIZE blocks an operation within its budget can always add a block; log_write panics only when LOGSIZE blocks are logged |
| `LogSpace.PanicReachable` | mkfs.c:25 | with a log of LOGSIZE blocks or fewer, as mkfs makes it, operations that keep to their budgets reach "too big a transaction" |
| `LogSpace.PanicsWhenFull` | log.c:218-222 | the test comes before absorption: in every run a log_write that is not stuck panics if and only if lh.n is LOGSIZE or log.size - 1, whichever block it is for |
| `LogSpace.RepeatPanicReachable` | log.c:218-226 | however large the log, three operations within their budgets fill it, and then log_write of a block already in it panics, although it needs no room |
| `LogSpace.PanicIff` | log.c:218-226 | an operation within its budget reaches that panic with a block new to the log if and only if the log has at most LOGSIZE blocks, and with a block already in the log if and only if the log has room for one at all |
| `LogRedo.CommitAtomic` | log.c:192-202 | of the disks that commit writes one after the other, those before the header recover to the old contents and all later ones to the new; at the end the home blocks hold the new contents and the header is empty |
| `LogRedo.RecoveryRestarts` | log.c:115-122 | a crash after any disk write of recover_from_log leaves a disk that recovers to the same contents |
| `LogFormat.HeaderRoundTrip` | log.c:86-113 | the header that write_head encodes is the one that read_head decodes, for every list that fits |
| `LogFormat.InstallAt` | log.c:69-82 | after install_trans every listed block has the contents of its log block and every other block is as it was |
| `LogCode.EncodeHeader` | log.c:105-110 | write_head's loop writes the encoded header |
| `LogCode.DecodeHeader` | log.c:89-94 | read_head's loop reads the list of the header, and nothing for a negative count |
| `LogPins.PinAdds` | log.c:231 | log_write pins its block and no other |
| `LogPins.StepListed` | log.c:213-233 | each step of bread, brelse and log_write, by any number of clients of a cache of fixed size, keeps the pinned buffers equal to lh.block, without repetition and in bounds |
| `LogPins.RunListed` | log.c:213-233 | so does every run |
| `LogPins.ReadyToCommit` | log.c:192-202 | in every run since the last commit, once no client holds a buffer the cache is as commit needs it, with exactly lh.block pinned, and bread finds a slot if and only if lh.n is less than the number of buffers |
| `LogCode.LogDevice.WriteLogBlock` | log.c:183-188 | one round of write_log copies the cached contents of a listed block to its log block in one disk write, and keeps the listed blocks pinned |
| `LogCode.LogDevice.WriteLog` | log.c:177-190 | write_log puts the cached contents of every listed block into the log, one disk write each |
| `LogCode.LogDevice.InstallBlock` | log.c:75-80 | one round of install_trans copies a log block home in one disk write and unpins it |
| `LogCode.LogDevice.InstallTrans` | log.c:69-82 | install_trans installs the whole list and leaves no buffer pinned |
| `LogCode.LogDevice.WriteHead` | log.c:101-113 | write_head changes the header block alone, in one disk write |
| `LogCode.LogDevice.ReadHead` | log.c:85-96 | read_head loads the list of the header on the disk and changes nothing |
| `LogCode.LogDevice.WriteListed` | log.c:196-197 | the first half of commit: the log blocks and then the header |
| `LogCode.LogDevice.Apply` | log.c:198-200 | the second half of commit and of recovery: the home blocks and then an empty header |
| `LogCode.LogDevice.Commit` | log.c:192-202 | commit never runs out of buffers; after each of its disk writes the disk recovers to the old contents before the header is written and to all the new ones after; at the end the home blocks hold what was cached |
| `LogCode.LogDevice.RecoverFromLog` | log.c:115-122 | recovery leaves the recovered disk, after each of its disk writes it could start over, and the log is then running |
| `LogCode.LogDevice.ReadBuffer` | bio.c:96-106 | bread by a client of the running log delivers the last stored contents and leaves the pinned blocks those of the list |
| `LogCode.LogDevice.ReleaseBuffer` | bio.c:120-140 | so does brelse |
| `LogCode.LogDevice.LogWrite` | log.c:213-233 | log_write panics exactly for a full log or outside an operation; otherwise it adds the block to the list once and pins the buffer, so that the pinned blocks stay those of the list |
| `LogCode.LogDevice.EndOp` | log.c:145-174 | the last operation out commits, with the guarantees of Commit, and the log keeps running; the others change only the count |
| `LogPasses.LogPasses` | log.c:177-190 | write_log, block by block, is a run of the log machine through each disk it leaves |
| `LogPasses.InstallPasses` | log.c:69-82 | so is install_trans, in a commit and in recovery |
| `LogPasses.CommitPasses` | log.c:192-202 | so is all of commit, through the disks of its writes one after the other, to the state in which the transaction is committed |
| `LogPasses.RecoveryPasses` | log.c:115-122 | a crash in any state and recover_from_log after it are one too |
| `LogView.ReadMatches` | bio.c:95-106 | bread in the cache of linked buffers is the step Read of the log machine, whatever slot is recycled for it |
| `LogView.WriteMatches` | log.c:213-233 | log_write is the step LogWrite, and panics exactly when that does |
| `LogView.ReleaseMatches` | bio.c:118-141 | brelse is the step Release, and for a buffer that is not pinned the eviction it makes possible |
| `LogView.CommitMatches` | log.c:192-202 | commit from an idle cache is the run of CommitPasses |
| `LogCalls.Calls.constructor` | log.c:50-63 | initlog, at the first boot and after a crash that left any disk of an earlier run, is a crash and a recovery of the log machine |
| `LogCalls.Calls.BeginOp` | log.c:125-141 | begin_op is the step Begin, or waits where that step is stuck |
| `LogCalls.Calls.Bread` | bio.c:95-106 | bread is the step Read, and gives for a home block the last contents logged for it since the first boot |
| `LogCalls.Calls.Change` | bio.c:7-11 | changing the data of a held buffer inside an operation is the step Modify |
| `LogCalls.Calls.LogWrite` | log.c:213-233 | log_write is the step LogWrite, and panics exactly when that does |
| `LogCalls.Calls.Brelse` | bio.c:118-141 | brelse is the step Release |
| `LogCalls.Calls.EndOp` | log.c:145-174 | end_op is the step End and, for the last operation out, the steps of a whole commit: all that has been logged is then committed; it does not panic |
| `LogCalls.Calls.EveryDiskRecovers` | log.c:115-202 | crash safety of the code: after any sequence of these calls, crashes and reboots, every disk ever written, in the middle of a commit or of a recovery too, recovers to whole committed operations, and the present one to all that have committed |
| `LogCommit.IdleHasRoom` | bio.c:78-92 | a cache that nobody uses and that pins fewer blocks than it has slots has a slot to recycle, so commit cannot meet "bget: no buffers" |
| `LogCommit.SecondHasRoom` | log.c:75-76 | nor can its second bread, while the first buffer is held |
| `LogCommit.ReadTwo` | log.c:183-184 | both breads of a loop body succeed, and deliver what was last stored |
| `LogCommit.Transfer` | log.c:185-188 | memmove, bwrite and two brelse copy one block on the disk and unpin it |
| `CacheMachine.VictimSpec` | bio.c:81-91 | the backward search finds the last recyclable slot of the list, or there is none |
| `CacheMachine.FindSpec` | bio.c:69-76 | the forward search finds a slot with this block, or there is none |
| `CacheMachine.DropOrder` | bio.c:129-138 | brelse keeps the list a permutation of all slots |
| `CacheSafety.StepInv` | bio.c:61-141 | every step keeps one slot per block, counted references, exclusive locks and the right contents in every slot |
| `CacheSafety.RunInv` | bio.c:61-141 | so does every run |
| `CacheSafety.CacheRefinesDisk` | bio.c:95-141 | in every run a client that holds a buffer sees the contents last stored for its block; a block in no slot is on the disk; no two slots hold the same block of device 1 |
| `CacheOrder.RecyclesLeastRecentlyUsed` | bio.c:78-92 | in every run bget of a block in no buffer recycles, among the buffers neither referenced nor dirty, the one whose last reference was dropped longest ago, and panics exactly if there is none; when that was is read off the reference counts of the run |
| `CacheOrder.ReleaseOrder` | bio.c:129-138 | a brelse that drops the last reference puts the buffer first in the list and leaves the others in their order; any other leaves the list alone |
| `CacheOrder.LastReleaseIs` | bio.c:129-138 | the release that counts is the last step of the run that took the count of the buffer to zero |
| `Bio.BCache.constructor` | bio.c:38-56 | binit links all buffers into one circular list |
| `Bio.BCache.FindBlock` | bio.c:68-76 | the first loop of bget follows the links to what FindSpec describes |
| `Bio.BCache.FindUnused` | bio.c:78-91 | the second loop of bget follows the links back to what VictimSpec describes |
| `Bio.BCache.Bget` | bio.c:61-93 | bget takes the step of the cache machine, and panics exactly when the machine does |
| `Bio.BCache.Bread` | bio.c:95-106 | bread returns the block's last stored contents in a locked buffer, and fails only if no slot holds the block or can be recycled |
| `Bio.BCache.Bwrite` | bio.c:108-116 | bwrite stores the buffer in one disk write and leaves it clean |
| `Bio.BCache.MoveToFront` | bio.c:131-138 | the six assignments to prev and next move the buffer to the front of the circular list |
| `Bio.BCache.DropReference` | bio.c:128-140 | the critical section of brelse takes the step of the cache machine |
| `Bio.BCache.Brelse` | bio.c:118-141 | brelse lets go of the buffer and changes no contents |
| `Bio.BCache.Iderw` | memide.c:38-60 | the synchronous driver: a dirty buffer goes to the disk, an invalid one comes from it |
| `FsLayout.WithBitBit` | fs.c:66-92 | setting or clearing a bit of a bitmap byte changes that bit alone |
| `FsLayout.InodeRoundTrip` | fs.c:226-233 | an inode read back from its 64 bytes is the inode written |
| `FsState.UpdateBlk` | fs.c:220-236 | iupdate changes one inode of the disk and no other |
| `FsState.AllocBlk` | fs.c:66-72 | balloc's block is marked in use and zeroed, and no other bit or block changes |
| `FsMap.MapsOwned` | fs.c:372-400 | putting a free block into an empty slot keeps every block in at most one slot of one inode, with its bit set |
| `FsMap.SetAddrMaps` | fs.c:378-388 | storing a fresh block as a direct address or as the indirect table fills that slot alone; the table is empty because balloc zeroed it |
| `FsMap.SetEntryMaps` | fs.c:389-394 | storing a fresh block in an indirect table fills that slot alone |
| `FsMap.MapsBytes` | fs.c:372-400 | mapping a block changes no byte of any file |
| `FsWrite.WrittenMore` | fs.c:498-504 | a round of writei puts the next bytes into the file, over direct and indirect blocks, and changes no other byte of any file |
| `FsWrite.BmapExact` | fs.c:372-400 | mapping the next block of a file without holes makes no hole |
| `FsLog.FillsCount` | fs.c:55-78 | every address or table entry that bmap fills costs exactly one free block |
| `FsLog.RunsOut` | fs.c:76-77 | where balloc finds no block, fewer were free when writei began than it needs addresses and entries filled |
| `FsLog.LogsMore` | fs.c:498-504 | a round of writei logs exactly the bitmap blocks, tables and zeroed blocks of the entries it fills, and the block it writes |
| `FsLog.FillsExact` | fs.c:481-511 | a file without holes has none after any run of blocks from its end on is mapped |
| `FsLog.CostBound` | file.c:127-133 | the blocks that a write of at most three blocks' length to a file without holes logs are at most MAXOPBLOCKS, at any offset and with any number of bitmap blocks |
| `FsLog.ChunkArithmetic` | file.c:127-133 | the blocks written and newly mapped by a chunk are at most seven together: an unaligned first block is never new |
| `FsTight.CostTight` | file.c:127-133 | four new blocks under four bitmap blocks, the table, the old last block and the inode: these are MAXOPBLOCKS blocks |
| `FsTight.TightWrite` | file.c:127-133 | and the bound is reached: on a sound volume with four free blocks any three blocks of bytes, written in one transaction at the end of its file, succeed and log exactly MAXOPBLOCKS blocks |
| `FsWrite.FinishedExact` | fs.c:506-510 | after writei a file without holes has none, and its inode on the disk equals the one in memory although bmap does not call iupdate |
| `FsWrite.FinishedWrite` | fs.c:481-511 | the contents after writei are the old ones with src in place of the bytes from off on |
| `Fs.FindClear` | fs.c:63-76 | balloc's search finds the lowest clear bit |
| `Fs.FileSystem.Balloc` | fs.c:55-78 | balloc takes the lowest free block, and panics exactly if there is none |
| `Fs.FileSystem.Bfree` | fs.c:80-95 | bfree clears the bit, and panics exactly if it is clear already |
| `Fs.FileSystem.Iupdate` | fs.c:220-236 | the inode goes to the disk |
| `Fs.FileSystem.Bmap` | fs.c:372-400 | bmap returns the block of the file, mapping one if there is none; ownership stays exclusive, no byte of any file changes, a block that is there is found without a change, and what is logged is exactly what the addresses it fills take |
| `Fs.FileSystem.Writei` | fs.c:481-511 | writei returns the length if off is within the file and off + n within MAXFILE blocks, and -1 and no change otherwise; it panics exactly if it needs more blocks than are free; else the file holds src at off, every other file and inode is as it was, the blocks logged are exactly those of BlocksCost, a file without holes keeps none and its disk inode keeps up, and a chunk logs at most MAXOPBLOCKS blocks |
| `Fs.FileSystem.Readi` | fs.c:452-476 | readi returns exactly the clipped slice of the contents; on a file without holes it allocates nothing and changes nothing |
| `Fs.FileSystem.Itrunc` | fs.c:407-435 | itrunc frees exactly the blocks of its own inode, leaves every other file as it was, block for block, and never meets "freeing free block"; its file has no holes then and no other file gets one |
| `FsTrunc.UnmapsOwned` | fs.c:414-431 | taking blocks away keeps the rest exclusively owned |
| `FsTrunc.EntryStillUsed` | fs.c:424-427 | while the table's blocks are freed one by one the next is still marked in use |
| `FsTrunc.TableStillUsed` | fs.c:428-430 | and so is the table itself |
| `FsTrunc.TruncatedIs` | fs.c:407-435 | what the two loops and iupdate have done together is what itrunc promises |
| `File.OverwriteTwice` | file.c:135-152 | two adjoining writes are one |
| `File.OthersWritable` | file.c:117-156 | filewrite to one file leaves every other file as it was and ready to be written itself |
| `File.TruncatedWritable` | fs.c:407-435 | so does itrunc, and the truncated file is empty and can be written again |
| `File.WriteChunk` | file.c:136-151 | one transaction of filewrite, from an empty log on, logs exactly the blocks of its write and extends what has been written, or is refused and changes and logs nothing; it panics only if it needs more blocks than are free |
| `File.Filewrite` | file.c:117-156 | filewrite leaves the file with the chunks up to the first refused one and returns n exactly if that is all of them; its transactions, one a chunk, follow on one another from the old volume to the new one, and each of them logs at most MAXOPBLOCKS blocks of its own |
| `Mkfs.Image.constructor` | mkfs.c:94-115 | a zeroed image is an empty file system in which nothing is owned twice |
| `Mkfs.Image.Ialloc` | mkfs.c:223-235 | ialloc takes the next inode and gives it a type and one link |
| `Mkfs.Image.MapBlock` | mkfs.c:269-286 | iappend finds or hands out the block of the file's end, and hands out exactly the blocks that takes |
| `Mkfs.Image.Iappend` | mkfs.c:255-297 | iappend adds the bytes to the end of the file, takes exactly the blocks they need, leaves no hole, and puts the inode on the disk |
| `Mkfs.Image.Balloc` | mkfs.c:237-251 | balloc's bitmap marks exactly the blocks handed out, and the image becomes a file system with exclusive ownership |
| `Mkfs.Image.Finish` | mkfs.c:158-165 | the finished image has exclusive ownership, every inode on the disk and every byte as written; no file has a hole but the root directory, and it has one exactly if its size was a multiple of BSIZE |
| `Mkfs.RoundingMakesHole` | mkfs.c:158-163 | rounding the root's size up makes a hole if and only if the size was a multiple of BSIZE |
| `Umalloc.OneBlockEach` | umalloc.c:24-90 | no unit is in two blocks, free or live |
| `Umalloc.WalkStops` | umalloc.c:30-32 | free's walk stops, at its condition or at its break, exactly where the block belongs, and each step brings it nearer |
| `Umalloc.PutGood` | umalloc.c:24-44 | giving a block back keeps the list ordered and fully coalesced, all blocks disjoint and every unit accounted for |
| `Umalloc.PutLinked` | umalloc.c:33-42 | free's two joins in memory are this change of the list |
| `Umalloc.CutGood` | umalloc.c:75-85 | handing out a block does the same |
| `Umalloc.CutLinked` | umalloc.c:75-85 | malloc's cut in memory is this change of the list |
| `Umalloc.RequestFits` | umalloc.c:54-69 | the block has room for the request and the size passed to sbrk is its true size if and only if the request is at most 2^31 - 16 bytes |
| `Umalloc.CoreBacked` | umalloc.c:52-58 | all the memory that morecore puts on the list belongs to the process if and only if its size in bytes fits an int, for the product wraps around 2^32 and sbrk takes an int |
| `Umalloc.HugeRequest` | umalloc.c:54 | a request of 2^32 - 8 bytes makes morecore call sbrk(0), which succeeds and gives nothing; one of 2^31 - 15 bytes asks sbrk for a negative size |
| `Umalloc.NegativeRequest` | umalloc.c:54-58 | the sizes for which morecore asks sbrk for a negative number of bytes, all of them |
| `Umalloc.WholeSizeRequest` | umalloc.c:54 | a process of size sz that asks for 2^32 - sz - 8 bytes asks sbrk for -sz, which takes all of its memory and answers -1 |
| `Umalloc.Allocator.constructor` | umalloc.c:21-22 | before the first call |
| `Umalloc.Allocator.FindPlace` | umalloc.c:30-32 | the walk terminates at the place where the block belongs |
| `Umalloc.Allocator.Free` | umalloc.c:24-44 | the block is not live any more and its units are free; every other live block keeps its contents and all invariants hold; freep is the free block before it |
| `Umalloc.Allocator.Morecore` | umalloc.c:46-61 | new memory from sbrk goes on the list, which then has room |
| `Umalloc.Allocator.Walk` | umalloc.c:74-89 | the walk round the list terminates, and finds a block exactly if one is large enough |
| `Umalloc.Allocator.Search` | umalloc.c:74-89 | morecore is called exactly if no block is large enough, and never twice |
| `Umalloc.Allocator.Malloc` | umalloc.c:63-90 | malloc returns a block that was not live, with the units asked for: the end of the first free block after freep that is large enough, if there is one, with freep at the block before that; it touches no live block, and fails only if sbrk does; when sbrk has answered, the block has room and all blocks are memory of the process if and only if the request is at most 2^31 - 16 bytes; when sbrk has failed, all blocks are still memory of the process if and only if the request was not for a negative size or there are no blocks |
| `SleepLock.StepInv` | sleeplock.c:22-53 | each action of acquiresleep, sleep, releasesleep, wakeup, kill and the scheduler keeps the spin locks, the owner and the sleepers consistent |
| `SleepLock.RunInv` | sleeplock.c:22-53 | so does every run of any number of processes |
| `SleepLock.NoLostWakeup` | proc.c:887-974 | in every run, whenever the sleep lock is unlocked and its spin lock free, no process sleeps on it |
| `SleepLock.MutualExclusion` | sleeplock.c:22-42 | in every run at most one process holds the sleep lock, and lk->pid is its pid |
| `SleepLock.HoldingSleep` | sleeplock.c:44-53 | holdingsleep answers exactly whether its caller holds the lock |
| `SleepLock.WaitStays` | proc.c:887-923 | a process on its way to sleep, or asleep, has the lock held by another or its wakeup still to come, across the hand-over from the spin lock to ptable.lock |
| `SleepProgress.AcquireTakes` | sleeplock.c:22-31 | in every run a process that finds the lock free at its test has it, with locked and pid set and the spin lock free, after four actions of its own, all enabled |
| `SleepProgress.AcquireCall` | sleeplock.c:22-31 | a call of acquiresleep with both locks free returns with the lock |
| `SleepProgress.AcquireSleeps` | sleeplock.c:25-27 | in every run a process that finds the lock held goes to sleep on it, the spin lock given up only under ptable.lock |
| `SleepProgress.WokenReturns` | proc.c:912-922 | a sleeper that was woken and gets a CPU goes back to take the spin lock, with ptable.lock free |
| `SleepProgress.ReleaseWakes` | sleeplock.c:34-42 | releasesleep leaves the lock free and every process that slept on it runnable, and no other process changed |
| `SleepProgress.KillMarks` | proc.c:952-974 | kill marks the process and wakes it if it sleeps, and changes nothing else |
| `SleepProgress.InnerProgress` | sleeplock.c:22-42 | in every run the holder of the spin lock has a next action, unless it wants ptable.lock and that is held, and whatever others do lets go of the spin lock after a number of its own actions that is bounded by the number of processes |
| `SleepProgress.TableProgress` | proc.c:887-947 | in every run the holder of ptable.lock always has a next action and lets go of it after as few, and the scheduler can |
| `ProcTable.Table.Wakeup1` | proc.c:928-939 | exactly the sleepers on the channel become runnable |
| `ProcTable.Table.Exit` | proc.c:367-382 | exit wakes the parent, gives the children to init, wakes init if one of them is a zombie, and makes the process a zombie |
| `ProcTable.Table.Alloc` | proc.c:96-119 | allocproc takes the first unused entry, or there is none |
| `ProcTable.Table.Scan` | proc.c:402-426 | wait takes the first zombie child, frees its entry and has its pid, or finds that there is none and whether there are children |
| `ProcTable.Table.Kill` | proc.c:952-974 | kill marks the first entry with the pid, makes it runnable if it sleeps and changes no other field and no other entry, or finds none |
| `WaitExit.StepInv` | proc.c:294-438 | each step of fork, exit, wait, sleep, wakeup, kill and the scheduler keeps the invariant |
| `WaitExit.RunInv` | proc.c:294-438 | so does every run |
| `WaitExit.WaiterHasNoZombie` | proc.c:392-438 | in every run no process asleep in wait or waitx has a zombie child |
| `WaitExit.NobodyOrphaned` | proc.c:370-379 | in every run no process has an exited parent, and every zombie has a live parent to reap it |
| `WaitExit.ReapedOnce` | proc.c:1014-1069 | in every run no pid is reaped twice, only exited ones are, and one not reaped yet is still a zombie |
| `WaitExit.StackFreedOffCpu` | proc.c:408-422 | in every run a step that frees a kernel stack finds no CPU on it |
| `WaitCalls.SleeperHasReason` | proc.c:428-436 | in every run whoever is asleep in wait or waitx has a child, none of its children is a zombie, and it has not been killed |
| `WaitCalls.WaitAnswers` | proc.c:399-438 | in every run a pass of wait returns the pid of a zombie child, whose entry is free then, exactly if there is one; -1 exactly if there is none, and no child or a kill; and else it sleeps |
| `WaitCalls.ExitEffect` | proc.c:367-382 | exit gives the children of the process to init and wakes its parent, and init if it gets a zombie, and nobody else; nothing else changes but that the process is a zombie |
| `WaitCalls.SleepsOnChannel` | proc.c:855-913 | in every run a process that sleeps has gone to sleep itself, on a channel or in wait; a yield leaves nobody asleep |
| `WaitCalls.Calls.Exit` | proc.c:341-385 | exit takes the step Exit, and panics exactly for init |
| `WaitCalls.Calls.Wait` | proc.c:392-438 | a pass of wait takes the step Wait, and returns what the machine has on record |
| `WaitCalls.Calls.Kill` | proc.c:952-974 | kill takes the step Kill for the first entry with the pid, or there is none |
| `WaitCalls.Calls.Alloc` | proc.c:91-119 | allocproc takes the step Alloc with the next pid, or no entry is unused |
| `WaitCalls.Calls.ForkDone` | proc.c:328-335 | fork ends with the step ForkDone: the child is runnable and its parent's, and fork returns its pid |
| `WaitCalls.Calls.Sched` | proc.c:836-852 | sched takes the step Switch, and panics exactly for a process that is still running |
| `Ide.Driver.Append` | ide.c:151-155 | the loop over qnext appends the request at the end of the queue and changes nothing else |
| `Ide.Driver.Submit` | ide.c:137-159 | iderw until it waits takes the step Submit of the queue machine, which starts the controller only for the first request; it panics exactly if there is nothing to do |
| `Ide.Driver.Device` | ide.c:73-100 | the controller takes the step Device: the disk becomes what the direct copy of the oldest request would make it |
| `Ide.Driver.Interrupt` | ide.c:103-131 | ideintr takes the step Interrupt: the oldest request leaves the queue with its buffer as the synchronous driver would leave it, and the next is started |
| `Ide.DeviceServes` | memide.c:52-59 | what the controller does for a request is what the direct copy would do at that moment |
| `Ide.AsyncRefinesSync` | ide.c:73-168 | in every run the disk and the buffers are those of a synchronous run that serves the same requests, each once, in the order in which they were made |
| `Ide.ReturnsWhenServed` | ide.c:161-164 | iderw cannot return before its request is served, and can after |
| `Pipe.Tests` | pipe.c:85-114 | the comparisons of the 32-bit counters tell full and empty right even when they have wrapped |
| `Pipe.Slot` | pipe.c:93-116 | slots are found by the wrapped counters |
| `Pipe.Pipe.Write` | pipe.c:78-98 | pipewrite between two waits stores the next bytes in order, and stops short only at a full pipe, failing exactly if the read end is closed or the process killed |
| `Pipe.Pipe.Read` | pipe.c:100-121 | piperead waits exactly if the pipe is empty and its write end open, and fails there exactly if killed; else it returns the bytes stored longest ago, n of them or as many as there are |
| `Pipe.Pipe.Copy` | pipe.c:113-117 | it copies as many bytes as there are and fit |
| `PipeRuns.PipeFifo` | pipe.c:59-121 | in every interleaving what has been read is a first part of what has been stored, at most PIPESIZE behind, and each write's bytes are stored in order |
| `PipeRuns.Calls.Write` | pipe.c:78-98 | pipewrite on the ring buffer, from one wait to the next, takes the step Write of the machine, with its wakeups |
| `PipeRuns.Calls.Read` | pipe.c:100-121 | piperead takes the step Read, delivers the bytes that step does and returns their number |
| `PipeRuns.CountsReturned` | pipe.c:78-121 | in every interleaving a read that has returned r >= 0 has taken exactly r bytes, at most those it asked for, and any other none; a write has returned its length exactly if all its bytes are stored, and else -1 |
| `PipeRuns.ReadReturned` | pipe.c:106-120 | in every interleaving a read has returned -1 exactly if its process was killed on an empty pipe whose write end was open, 0 for a positive length exactly if the pipe was empty and its write end closed, and else all it asked for or all there was |
| `PipeRuns.WriteGaveUp` | pipe.c:85-89 | in every interleaving a write has returned -1 only on a full pipe, with its read end closed or its process killed |
| `PipeRuns.Calls.Close` | pipe.c:59-75 | pipeclose takes the step Close, and frees the pipe exactly when both ends are closed |
| `PipeRuns.Calls.Kill` | proc.c:952-974 | kill wakes a sleeping call as the machine does |
| `PipeRuns.WriterSleepsOnFull` | pipe.c:85-92 | in every interleaving a writer sleeps only while the pipe is full and its read end open |
| `PipeRuns.MissedIff` | pipe.c:85-88 | a step leaves a reader asleep on a pipe with bytes in it if and only if it is a write that has stored bytes, meets a full pipe and gives up without a wakeup |
| `PipeRuns.ReaderLost` | pipe.c:86-89 | a run in which that happens |
| `PipeRuns.ReaderSleepsOnEmpty` | pipe.c:106-112 | while no write gives up so, a reader sleeps only while the pipe is empty and its write end open |
| `VmState.AddTableGood` | vm.c:45-52 | a new page table keeps every page in one use |
| `VmState.MapUserGood` | vm.c:69-73 | so does mapping a user page |
| `VmState.UnmapGood` | vm.c:269-276 | and taking one away, which no other space notices |
| `Vm.GoneJump` | vm.c:266-268 | deallocuvm's jump passes no mapped page |
| `Vm.Kernel.Freerange` | kalloc.c:46-53 | exactly the pages of the range become free |
| `Vm.Kernel.Kalloc` | kalloc.c:82-95 | a page of the free list, or none if it is empty |
| `Vm.Kernel.Walkpgdir` | vm.c:35-55 | making a page table costs one page and changes no mapping; without a page nothing changes |
| `Vm.Kernel.Mappages` | vm.c:60-80 | the pages are mapped as asked and no other mapping changes |
| `Vm.Kernel.Setupkvm` | vm.c:117-136 | a new space with exactly the kernel's mappings, or, on failure, the free pages as they were |
| `Vm.Kernel.Allocuvm` | vm.c:221-249 | every page that begins at oldsz or later and below newsz is mapped, writable for the user and zero in every byte, and every other page, the one with byte oldsz - 1 among them, is as it was; on failure the space maps exactly what it did and no page is lost |
| `Vm.Kernel.Deallocuvm` | vm.c:255-279 | exactly the mapped user pages that begin at newsz or later and below oldsz go back to the free list, as in a walk page by page; a page with a byte below newsz stays, with its contents |
| `Vm.Kernel.Freevm` | vm.c:283-298 | exactly the pages of the space go back to the free list |
| `Vm.Kernel.Copyuvm` | vm.c:315-345 | every byte below sz is there with the same value and flags, in pages that were free, so in none of the parent's, and no page above; on failure the free pages, and all spaces, are as they were |
| `Vm.PageUpIs` | mmu.h:90 | the pages that PGROUNDUP counts are those with a byte below the size |
| `Vm.GrowthUndone` | vm.c:235-245 | deallocuvm takes away what allocuvm has mapped |
| `Vm.SpaceFreed` | vm.c:342-344 | freeing the new space restores the free pages exactly |
| `Spaces.Processes.Create` | exec.c:38-39 | a new space has no user pages |
| `Spaces.Processes.Extend` | proc.c:276-280 | allocuvm from the size of the process never panics with "remap"; every byte below the new size is then mapped, old ones as they were and those of new pages zero; if it fails every byte is as it was |
| `Spaces.Processes.Copy` | proc.c:307-313 | copyuvm of a process never panics for a missing page, and the child has every byte below the size of its parent, and no page above |
| `Spaces.Processes.Drop` | proc.c:410-416 | freevm leaves the other spaces so |
| `Spaces.Processes.Growproc` | proc.c:270-289 | after growproc every byte below the size is mapped and as it was, or zero in a new page, and no page lies above it, if and only if it was not asked for the whole size back: then deallocuvm answers 0, growproc reports a failure and keeps the size, and no byte is left |
| `Spaces.EveryByte` | proc.c:270-289 | a space of this kind has a byte at every address below its size, and no page that begins at or above it |
| `Links.Dirlookup` | fs.c:524-548 | the first entry with the name, if there is one |
| `Links.Dirlink` | fs.c:551-578 | the entry goes into the first empty place or at the end, unless the name is taken |
| `Links.IsDirEmpty` | sysfile.c:168-181 | exactly the directories with nothing after "." and ".." are empty |
| `Links.StepInv` | sysfile.c:118-283 | each step of create, link and unlink below linked directories keeps the link counts and the tree |
| `Links.RunInv` | sysfile.c:118-283 | so does every run |
| `Links.LinkCounts` | sysfile.c:118-283 | in every run that makes entries only in linked directories nlink is the number of entries other than "." that name the inode in linked directories, plus the links in progress |
| `LinkBounds.StepBound` | sysfile.c:118-283 | each step of create, link and unlink, in a removed directory too, keeps nlink at least the number of entries that name the inode in any directory, plus one for each directory in it and for each link in progress |
| `LinkBounds.RunBound` | sysfile.c:118-283 | so does every run |
| `LinkBounds.UnlinkNeverPanics` | sysfile.c:211-212 | in every run, whatever directories entries are made in, "unlink: nlink < 1" is unreachable, and the root stays linked |
| `LinkNames.NoNameTwice` | fs.c:551-578 | in every run no directory has a name twice |
| `LinkNames.EntryBinds` | sysfile.c:118-283 | in every run create, mkdir and link make the name they are given mean the inode, a new directory has its two dots, and every other name of every directory means what it did |
| `LinkNames.UnlinkUnbinds` | sysfile.c:184-239 | in every run unlink takes away the name of the entry it clears, and no other name of any directory |
| `LinkNames.OthersKeep` | sysfile.c:118-283 | no other step binds or removes a name, but that an inode which is freed takes its own entries with it |
| `Links.ParentMustBeLinked` | sysfile.c:118-283 | create, mkdir and link leave the link counts of all inodes right if and only if the directory they make the entry in is linked itself |
| `Links.RemovedDirectory` | sysfile.c:218-229 | a run to a directory that has been removed but is still there |
| `Links.DeadFile` | sysfile.c:260-278 | a file created there has a link and no entry that counts |
| `Links.DeadLink` | sysfile.c:144-150 | so has a file linked there |
| `Links.DeadDir` | sysfile.c:262-271 | a directory made there brings the removed one back, and the count of its old parent is wrong |
| `Links.WrongCounts` | sysfile.c:241-283 | two runs to a wrong count |
| `Links.Inodes.Ialloc` | fs.c:194-214 | the first free inode, if there is one |
| `Links.Inodes.Mkdir` | sysfile.c:241-283 | create of a directory is that step, or changes nothing; the counts are right then if and only if the parent is linked |
| `Links.Inodes.Mkfile` | sysfile.c:241-283 | create of a file is that step, or finds the file, or changes nothing; the same for the counts |
| `Links.Inodes.Unlink` | sysfile.c:184-239 | unlink, below any directory, is that step, is refused exactly where its checks say, and does not panic |
| `Links.Inodes.LinkBegin` | sysfile.c:133-142 | link takes its count first, and refuses directories |
| `Links.Inodes.LinkEnd` | sysfile.c:144-165 | then it makes the entry, or takes the count back if the name is taken or there is no directory; the counts are right then if and only if the entry is in a linked directory |

## Left out

- Schedulers: queues, ageing, priorities and time accounting of `proc.c`; a dispatch picks any runnable process.
- Hardware, boot and assembly; spin locks are single steps that succeed when the lock is free.
- Port I/O, `idewait` and disk errors of `ide.c`: a command, once given, is carried out and then interrupts.
- exec, system call arguments, path lookup and the in-memory inode cache; directories are given by inode number.
- Device inodes: the branches of `readi` and `writei` for T_DEV are excluded by a precondition.
- Console, shell, user programs other than malloc, and timing fields of `waitx`.
- Sleeping in `begin_op`, in `bget` on a held buffer and in `iderw` is a step that is not enabled yet; that no wakeup is lost is proved for sleep locks, wait and pipes.
- LogCode.DecodeHeader: a count above LOGSIZE that is not negative as an int is excluded, because the loop would run past the end of lh.block; `LogFormat.HeaderOf` reads such a header as an empty list.
- LogCode.LogDevice.Commit: called with no other process holding a buffer; with readers in the way bget may wait or panic.
- LogCode.LogDevice.EndOp: the last operation out finds no other process holding a buffer, as for Commit; the log has no more blocks than the cache has buffers, 30 of each here; that exactly lh.block is pinned is proved, not required.
- LogCode.LogDevice.RecoverFromLog: a header that lists blocks twice, outside the disk or inside the log is excluded; write_head never writes one.
- Mkfs.Image.Iappend: a file longer than MAXFILE blocks (an assertion of mkfs) and an image without enough blocks are excluded.
- Mkfs.Image.constructor: the super block in sector 1 is not encoded.
- Umalloc.Allocator.Malloc: addresses are unbounded and count units of a header; the address that sbrk answers is above everything the allocator has put on its list.
- Links.Inodes.Unlink: the entries are a list, not bytes of a file; nlink does not wrap at 16 bits; nothing is said about calls that follow an entry made in a removed directory.
- Links.LinkCounts: the part of create, and of unlink, under the locks of both inodes is one step.
- WaitExit.ReapedOnce: pids do not wrap.
- Vm.Kernel.Setupkvm: the kernel's map is a parameter, because the address of its data segment comes from the linker.
- Vm.Kernel.Mappages: pages already present, on which it panics with "remap", and user ranges of several pages are excluded.
- Vm.Kernel.Allocuvm: a page already mapped in the new range, on which mappages panics, is excluded; `Spaces.Processes.Extend` shows that none is.
- Vm.Kernel.Copyuvm: a parent with a page missing below sz, on which copyuvm panics, is excluded; `Spaces.Processes.Copy` shows that none is.
- Spaces.Processes.Create: inituvm, loaduvm, clearpteu and exec's arguments are left out; they map no page but the first process's only one.
- Ide.Driver.Submit: a request beyond the disk, on which idestart panics, is excluded; so is a second request for a buffer that is queued, which its lock prevents.
- LogCalls.Calls.EndOp: the last operation out finds no other process holding a buffer, as for LogCode.LogDevice.EndOp; each call of this class is one step of the interleaving.
- LogCalls.Calls.constructor: a header count that read_head would follow past lh.block is excluded, as in LogCode.DecodeHeader.
- PipeRuns.Calls.Write: each stretch of a call between two waits is one step, under the lock of the pipe.
