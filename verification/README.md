# Verified models of the xv6 kernel

This project models the cores of the x86 xv6 kernel and of three of its user programs, and
proves properties of the models. `dafny verify dfyconfig.toml` checks all of it.

- **Log** (`Log*.dfy`): the redo log of `log.c` as single-block disk writes with a crash
  possible between any two. `LogCrash` is about one commit and any number of crashed
  recoveries. `LogMachine`, `LogRefinement` and `LogRuns` are about every interleaving of
  `begin_op`, `log_write`, `end_op`, cache evictions, disk writes and crashes, which refines a
  disk with atomic transactions. `LogOverrun` settles when the log area can be overrun.
  `LogSleep` has the waiting inside `begin_op` and `end_op`, which the other machines have as
  guards: `log.lock`, `ptable.lock`, `sleep` and `wakeup`; `LogRoom` has the reservation there.
  `LogCode` has the loops.
- **Files** (`Fs*.dfy`, `FileCode.dfy`): bitmap, inodes, direct and indirect blocks as they lie
  in 512-byte blocks, the image they stand for, and the operations of `fs.c` and `file.c` on them.
  `FsSpace` says how many blocks a write needs, `FsTruncate` how many a truncation logs.
- **Links** (`Link*.dfy`): directories, link counts and in-memory references under
  `link`, `unlink` and `create`.
- **Directories** (`Dir*.dfy`): the entries of a directory as sixteen-byte records of its file,
  and that the operations on the bytes are those on the name space of `Link*`.
- **Calls** (`Sys*.dfy`): the whole of `unlink`, `link` and `create` on the bytes of the disk,
  with the name space they leave, the blocks they log and what a full disk does. `SysCrowd` has
  a file with more links than its count can say.
- **mkfs** (`Mkfs*.dfy`): the program that builds the first disk, from zeros to a root directory
  and its files.
- **Cache** (`Bio*.dfy`): the buffer cache of `bio.c` over the synchronous disk of `memide.c`.
- **Processes** (`Proc*.dfy`): `proc.c`, `sleeplock.c` and `spinlock.c` as a step machine with
  any number of processes, CPUs and sleep-locks. A step is one critical action of one thread;
  `ptable.lock` is handed from thread to scheduler and back across `swtch`, and interrupts may
  force a yield wherever they are on. `ProcWait`, `ProcCalls` and `ProcFlow` say what the calls come
  to and that no CPU is ever stuck, `ProcFlags` what becomes of the interrupt flag, and `ProcCode` has the loops over the table.
- **Memory** (`Vm*.dfy`): page directories and tables as 32-bit words in physical pages, the
  free list threaded through the free pages, and the flat map the tables stand for.
- **Heap** (`Heap*.dfy`): `malloc` and `free` of `umalloc.c` on headers in memory.
- **Shell** (`Shell*.dfy`): the parser of `sh.c`, its grammar as a relation (`ShellGrammar`), and
  printing (`ShellPrint`, `ShellText`).
- **Pipe** and **grep** (`PipeCode.dfy`, `Grep.dfy`).

Seven statements that one would expect turn out not to hold of the code as it stands. Each
has a concrete run or state and the exact condition under which it holds.

- The log area can be overrun, because `log_write` tests its size without the lock. It never is
  if and only if the area has more than LOGSIZE blocks; `mkfs.c:25` gives it exactly LOGSIZE
  (`LogOverrun.SmallLogOverruns`, `LogOverrun.SmallLogCorrupts`, `LogOverrun.OverrunIff`).
- A killed writer can fill a pipe and leave a reader asleep. Where nobody sleeps who could run,
  a write keeps it so if and only if it is not by a killed writer that fills the pipe past another
  process's sleeping read (`PipeCode.StrandedReader`, `PipeCode.Pipe.Write`).
- A new entry in a directory that has been removed but is still in use makes link counts wrong
  (`LinkCode.OrphanedFile`, `LinkCode.Tree.Link`, `LinkCode.Tree.Create`).
- The count of links has 16 bits. A link keeps the counts right if and only if the directory is
  linked and the file has fewer than 65535 links, and `unlink` panics if and only if the inode
  named has 32768 or more (`SysCrowd.OneTooMany`, `SysCode.Kernel.Link`, `SysCode.Kernel.Unlink`).
- `malloc`'s unit count wraps for requests near 4 GB, and the argument of `sbrk` for requests
  from 2 GB up, so it can return a block without room or one that `sbrk` never gave
  (`HeapCode.EmptyBlock`, `HeapCode.UngivenBlock`, `HeapCode.Heap.Malloc`).
- `mkfs` rounds the root directory up by a whole block when its entries fill their blocks, which
  leaves a hole in it (`MkfsCode.HoledRoot`, `MkfsCode.MakeFs`).
- A truncation may log more blocks than `begin_op` reserves. It never does if and only if the
  data blocks have their bits in fewer than MAXOPBLOCKS bitmap blocks; the disk of `mkfs` has
  one (`FsTruncate.TruncScattered`, `FsTruncate.TruncationsFitIff`).

Two modelling choices hold throughout. A panic is an outcome (`None`, `Halted`, `Panic`,
`false`) or is proved not to happen. Clocks, devices, the answers of `sbrk` and of path lookups
are parameters.

## Model

| member | source | states |
|---|---|---|
| `Log.DecodeEncode` | log.c:84-113 | reading back the header that write_head wrote gives the block list it was written from |
| `LogCrash.RecoverPrefix` | log.c:115-122 | after any prefix of recovery's writes the disk still stands for the same home image, and after all of them the home blocks are that image |
| `LogCrash.CommitPrefix` | log.c:177-202 | after any prefix of commit's writes the disk stands for the old image before the header write and for the whole transaction from it on |
| `LogCrash.CrashAtomicity` | log.c:69-202 | a crash at any write of commit, any number of crashed recoveries and one complete one leave all home blocks old or all new, never a mix |
| `LogCrash.RecoveryIdempotent` | log.c:115-122 | recovering twice gives the same home blocks as recovering once |
| `LogRefinement.ReservedStep` | log.c:125-174 | every event keeps the header count plus the unspent reservations of open operations within LOGSIZE |
| `LogRefinement.CommitStarts` | log.c:192-202 | when commit starts, what readers see is the disk with exactly the logged blocks replaced |
| `LogRefinement.StepRefines` | log.c:115-233 | each event of the log machine is one move of a disk with atomic transactions, or no move |
| `LogRefinement.QuietIsDurable` | log.c:146-174 | with no operation open and no commit or recovery under way, what a crash brings back is what readers see |
| `LogRefinement.WritesGoOn` | log.c:115-202 | a commit or recovery under way has its next disk write at hand or is done |
| `LogRefinement.OpsGoOn` | log.c:146-233 | an open operation may always end and write home blocks while the log does not look full, and its log_write goes on if the block is in the log or its reservation is not spent |
| `LogRefinement.QuietLetsIn` | log.c:125-141 | a log at rest lets an operation begin |
| `LogRuns.RunRefines` | log.c:115-233 | over every interleaving, with crashes anywhere, that does not overrun the log area, every state is well formed and every event is a move of the atomic disk |
| `LogRuns.DurableIsACommitPoint` | log.c:125-233 | at every point of every such run what a crash would bring back is a state readers saw with no operation open, and one not before the last point at which the log was at rest |
| `LogRuns.EndedIsDurable` | log.c:146-202 | once the log is at rest all that readers see is on the disk for good: a crash at any later point of the run goes back to that point or a later one |
| `LogRuns.BigLogFits` | log.c:213-233 | with more than LOGSIZE blocks of log area no run overruns it |
| `LogRuns.AppendInBounds` | log.c:213-233 | the append to the header list is within its array although the size test was made without the lock |
| `LogRuns.ReservedCheckPasses` | log.c:218-222 | with more than LOGSIZE blocks the size test never stops an operation within its reservation |
| `LogOverrun.SmallLogOverruns` | log.c:213-233 | with LOGSIZE blocks or fewer some run of operations that keep to their reservations lists more blocks than the log area holds, so that a write of its commit is for the block after the area |
| `LogOverrun.SmallLogCorrupts` | log.c:177-233 | carried on into the commit, such a run changes on the disk the block after the log area, which no operation logged |
| `LogOverrun.OverrunIff` | log.c:213-233 | no run overruns the log area if and only if it has more than LOGSIZE blocks |
| `LogSleep.LockingStep` | log.c:125-174 | every step keeps log.lock and ptable.lock held by exactly the thread whose place in the code holds them |
| `LogSleep.CountingStep` | log.c:125-174 | every step keeps outstanding equal to the number of open operations, one committer exactly while committing is set, none open then, and an idle log empty |
| `LogSleep.LogWakeups` | log.c:125-174 | after any schedule of any number of threads, whoever sleeps in begin_op still has a commit or space to wait for, or a wakeup is on its way; end_op's panic is not reached |
| `LogSleep.SomeoneMoves` | log.c:125-174 | while a thread sleeps on the log another one can take its next step |
| `LogSleep.SleepIsBounded` | log.c:125-174 | in every schedule without new operations a thread sleeps on the log for no more steps than the others have left |
| `LogSleep.SleeperIsWoken` | log.c:125-174 | from every reachable state the threads under way can go on until a given sleeper is woken |
| `LogRoom.RoomStep` | log.c:125-174 | every step keeps the blocks logged and those that open operations may still log within LOGSIZE |
| `LogRoom.LogHasRoom` | log.c:125-174 | after any schedule the log has room for all open operations; begin_op lets a thread in exactly if no thread commits and there is room for it too; no thread leaves begin_op or end_op but at its end; only a commit, holding no lock, empties the log |
| `LogCode.Logger.Bread` | bio.c:95-106 | reading a block changes no contents and no dirty flag |
| `LogCode.Logger.WriteHead` | log.c:101-113 | one disk write, of the header encoding the block list; no other contents change |
| `LogCode.Logger.ReadHead` | log.c:85-96 | the in-memory list becomes the one the header block encodes |
| `LogCode.Logger.WriteLog` | log.c:177-190 | the disk writes are the cached contents of the logged blocks, in order, into the log area; home blocks keep contents and dirty flags |
| `LogCode.Logger.InstallTrans` | log.c:69-82 | the disk writes are the log blocks, in order, to their homes, whose buffers become clean |
| `LogCode.Logger.Commit` | log.c:192-202 | its disk writes in order are exactly those the crash lemmas cut short, and no buffer of the transaction stays dirty |
| `LogCode.Logger.RecoverFromLog` | log.c:115-122 | its disk writes in order are exactly those the recovery lemmas cut short |
| `LogCode.Logger.LogWrite` | log.c:213-233 | the panics are exactly for a log that looks full and for no open operation; else a block new to the list is appended, a known one is absorbed, the buffer is dirty, and the list stays duplicate-free |
| `LogCode.CommitStages` | log.c:192-202 | commit's stages write, one after the other, the write sequence of the crash lemmas |
| `FsLayout.BitPut` | fs.c:56-95 | setting or clearing one bitmap bit changes that bit and no other |
| `FsLayout.GetPutInode` | fs.c:220-236 | an inode stored in its slot of a block reads back, and the other slots of the block are unchanged |
| `FsLayout.ReadWriteInode` | fs.c:220-236 | an inode stored on disk reads back, and every other inode is unchanged |
| `FsModel.GainWellFormed` | fs.c:372-400 | giving one null pointer a free block keeps the image well formed: pointers disjoint, bitmap exact, no holes |
| `FsUpdates.HangBytes` | fs.c:372-400 | hanging in a zeroed block changes no byte of any file |
| `FsUpdates.WriteBlock` | fs.c:481-511 | writing a block of one file changes the bytes of that file in that block and no others |
| `FsUpdates.ResizeWellFormed` | fs.c:505-509 | growing a file over mapped blocks keeps the image well formed |
| `FsUpdates.RetagWellFormed` | fs.c:220-236 | changing an inode's type, numbers or links keeps the image well formed and every byte of every file |
| `FsUpdates.TruncateWellFormed` | fs.c:402-435 | an image without one inode's blocks is well formed: its bits are cleared and no others |
| `FsAbs.AbsPutBitmap` | fs.c:56-95 | a bitmap update on disk is the update of one bit of the image |
| `FsAbs.AbsWriteInode` | fs.c:220-236 | an inode update on disk is the update of one inode of the image |
| `FsAbs.AbsWriteData` | fs.c:481-511 | a data-block update on disk is the update of that block of the image |
| `FsSpace.MissingSplit` | fs.c:372-400 | what two writes in a row need is what one write of both needs |
| `FsSpace.ShortBefore` | fs.c:481-511 | a write that stops for want of blocks needed more than were free when it started |
| `FsSpace.WriteLogMore` | fs.c:481-511 | two writes in a row log no more than one write of both |
| `FsSpace.RecordCount` | fs.c:570-575 | a record inside one block logs at most four blocks beside the inode's, two if the block is a direct one and one if it is there |
| `FsCode.FileSystem.FirstFree` | fs.c:56-78 | the scan finds the first block that is not marked, or there is none |
| `FsCode.FileSystem.Balloc` | fs.c:56-78 | the first unmarked block is marked and zeroed, and nothing else changes; the panic is exactly for no free block |
| `FsCode.FileSystem.Bfree` | fs.c:81-95 | exactly that block's bit is cleared; the panic is exactly for a block already free |
| `FsCode.FileSystem.Iupdate` | fs.c:220-236 | the disk inode becomes the in-memory one, and nothing else changes |
| `FsCode.FileSystem.Bmap` | fs.c:372-400 | the block of that index, allocated if it was missing; the image stays well formed, no byte of any file and no set pointer changes, exactly the missing pointers are filled, and the blocks logged are bounded; the panics are exactly for an index out of range and for fewer free blocks than are missing |
| `FsCode.FileSystem.ReadPart` | fs.c:466-471 | one turn of the loop reads that part of the contents and allocates nothing |
| `FsCode.FileSystem.Readi` | fs.c:452-474 | the requested slice of the file's contents clipped to its size, with the disk unchanged; the refusals exactly on the conditions the code checks |
| `FsCode.FileSystem.WriteTurn` | fs.c:495-502 | one turn of the loop extends what has been written and keeps the tally of logged blocks; it fails only if the whole write needs more blocks than were free |
| `FsCode.FileSystem.Writei` | fs.c:481-511 | the contents become the old ones with the bytes replaced, extended if needed; other files are unchanged, the image stays well formed, the disk inode follows; the blocks logged are among those written, the bitmap blocks of those allocated, the indirect block if an entry of it was filled, and the inode's; refusals exactly on the conditions the code checks; it runs out of blocks if and only if the pointers that the write needs and that are null outnumber the free blocks |
| `FsCode.FileSystem.Itrunc` | fs.c:402-435 | exactly the inode's blocks are freed, no block twice, its contents become empty, others are unchanged, and the disk inode follows; it logs exactly the bitmap blocks of the blocks freed and the inode's |
| `FsCode.FileSystem.FreeIndirect` | fs.c:418-431 | the indirect block and every block it names are freed |
| `FsTruncate.TruncBound` | fs.c:402-435 | a truncation logs at most one block for each bitmap block with bits of data blocks, and one more |
| `FsTruncate.TruncScattered` | fs.c:402-435 | a well-formed image with a file of n blocks whose truncation logs n + 1 |
| `FsTruncate.TruncationsFitIff` | fs.c:402-435 | every truncation keeps to MAXOPBLOCKS if and only if fewer bitmap blocks than that hold bits of data blocks |
| `FsCode.LoggedBound` | fs.c:481-511 | a write's distinct logged blocks are at most its data blocks, their bitmap blocks, the indirect block and the inode block |
| `FileCode.ChunkFitsLog` | file.c:125-135 | a chunk's bound is at most MAXOPBLOCKS, because an unaligned first block is mapped already |
| `FileCode.SpliceTwice` | file.c:136-150 | writing two consecutive pieces is writing their concatenation |
| `FileCode.WriteChunk` | file.c:136-150 | one transaction writes its chunk, advances the offset and logs at most MAXOPBLOCKS distinct blocks; it is refused exactly past the end or past the largest file, and halts exactly for want of blocks; for a device the driver is called exactly if there is one, and the disk stays |
| `FileCode.FileWrite` | file.c:117-156 | the chunks before the first that is refused are in the file at the offset, which is all of the data on success and a prefix on failure; it panics if and only if they need more blocks than are free; every transaction logs at most MAXOPBLOCKS distinct blocks; on a device it fails or panics exactly at the first answer that is negative or short, with the disk unchanged |
| `DirModel.RecordDirent` | fs.c:570-572 | the record that dirlink writes reads back as the inode number, cut to 16 bits, and the name, cut to DIRSIZ |
| `DirModel.SpliceEntries` | fs.c:568-575 | writing a record at a slot of a directory's bytes sets that slot, or adds one at the end |
| `DirModel.RecordFollows` | fs.c:568-575 | whatever name space the image stood for, it stands for it with that slot set |
| `DirModel.TreeDirLink` | fs.c:551-578 | the slot set is the one that the name space's dirlink sets |
| `DirCode.Strncmp` | string.c:58-66 | zero exactly if the two strings agree up to n characters |
| `DirCode.Strncpy` | string.c:68-79 | the string cut to n characters, or filled up with NULs |
| `DirCode.DirLookup` | fs.c:524-548 | on the bytes: the first used slot with the name, with its offset; the panics exactly for no directory and for reaching a last record cut short |
| `DirCode.IsDirEmpty` | sysfile.c:167-181 | on the bytes: true exactly if no slot after the dots is used; the panic exactly for reaching a last record cut short |
| `DirCode.WriteRecord` | fs.c:570-575 | writei of one record sets one slot, in the bytes and in the name space, and fails exactly for a full file or too few free blocks |
| `DirCode.DirLink` | fs.c:551-578 | fails exactly for a present name; else the first empty slot or a new one has the entry, by a writei of sixteen bytes; it panics exactly as dirlookup does or for no room |
| `DirCode.ClearEntry` | sysfile.c:218-220 | the slot is empty afterwards, and the write never fails |
| `SysCode.Kernel.Iput` | fs.c:331-352 | on the disk and in the name space: one reference less, and the last one to an inode without links frees its blocks and its type, logging exactly the blocks of a truncation |
| `SysCode.Kernel.Dirlink` | fs.c:551-578 | the disk stands for the name space with the entry in the first empty slot; it fails exactly for a present name and panics exactly for no room; at most four blocks are logged beside the inode's |
| `SysCode.Kernel.TakeOut` | sysfile.c:218-229 | the entry cleared, the links taken and both references given back leave the disk standing for the name space after an unlink; every other inode left in use keeps its bytes, its size and its blocks |
| `SysCode.Kernel.Unlink` | sysfile.c:184-239 | the whole call on the bytes: it succeeds exactly where the name space's unlink does and panics exactly for an inode with 32768 links or more; in every other case the disk stands for the resulting name space, whose counts are right, every inode left in use but the directory keeps its bytes and all fields but the links, and at most three blocks more are logged than there are bitmap blocks of data, which fits MAXOPBLOCKS up to seven of those |
| `SysCode.HookSound` | sysfile.c:140-151 | the counts are right after a new entry if and only if its directory is linked and the file had fewer than 65535 links |
| `SysCode.Kernel.Link` | sysfile.c:117-165 | the whole call on the bytes: it adds the name exactly for a non-directory, an absent name and a disk with room, panics exactly for no room, and else undoes its link; the disk stands for the resulting name space; every inode left in use but the directory keeps its bytes and all fields but the links; where no inode is freed at most six blocks are logged |
| `SysCrowd.OneTooMany` | sysfile.c:140-151 | a state with right counts in which one more link makes them wrong, with every directory within its file |
| `SysCreate.Ialloc` | fs.c:194-214 | the first free inode is zeroed, typed and referenced, on the disk and in the name space, or there is none |
| `SysCreate.AddDots` | sysfile.c:269-275 | the dots of a new directory take exactly one block, and panic exactly if there is none |
| `SysCreate.FewLinks` | sysfile.c:270-271 | a directory's own count cannot wrap, because its file is too short for so many subdirectories |
| `SysCreate.Existing` | sysfile.c:251-258 | a name found gives its inode exactly for a file asked for and found; in a linked directory nothing is logged |
| `SysCreate.Create` | sysfile.c:241-283 | the whole call on the bytes: it panics exactly for a full inode table, for a disk without room for the entry and a new directory's dots, and for a freed inode under the name; else the disk stands for the resulting name space; a new inode has the type and numbers asked for, and a file or device no blocks; every other inode left in use but the directory keeps its bytes and all fields but the links; in a linked directory at most MAXOPBLOCKS blocks are logged for a directory, six for a file, none for a name found |
| `MkfsCode.Mkfs.constructor` | mkfs.c:110-115 | a zeroed disk with the superblock stands for an image of free inodes |
| `MkfsModel.SuperBack` | mkfs.c:113-115 | reading back the block that mkfs writes gives the layout it was written from |
| `MkfsCode.Mkfs.Ialloc` | mkfs.c:223-235 | the next inode becomes an empty file and the image stays well formed |
| `MkfsCode.Mkfs.Iappend` | mkfs.c:255-297 | the bytes are added at the end of the file, in blocks taken in order, with no other file changed; it succeeds exactly if the file does not grow past MAXFILE blocks and the disk has the blocks |
| `MkfsCode.Mkfs.Balloc` | mkfs.c:237-251 | the bitmap on disk marks exactly the blocks used; the assertion is exactly for more than one bitmap block |
| `MkfsModel.StageNext` | mkfs.c:130-156 | one more file adds its entry and its contents and keeps those before it |
| `MkfsTree.FinalWellFormed` | mkfs.c:158-163 | the rounded root directory keeps the image well formed if and only if its entries do not fill their blocks |
| `MkfsTree.NodesSound` | mkfs.c:117-156 | the name space of a root directory and files with one link each has right counts |
| `MkfsCode.MakeFs` | mkfs.c:110-167 | mkfs gets to its end exactly if its arguments fit; then block 1 has the layout, every file has its contents, the image stands for a name space with right link counts, and it is well formed if and only if the root's entries do not fill their blocks |
| `MkfsCode.HoledRoot` | mkfs.c:158-163 | with thirty files on mkfs's own layout the image is not well formed |
| `LinkModel.UpLinked` | sysfile.c:269-275 | ".." of a linked directory leads to the linked directory that holds it |
| `LinkProofs.DroppedSound` | fs.c:331-352 | dropping a reference keeps every count right; the last one to an unlinked inode frees it |
| `LinkProofs.UnlinkLinks` | sysfile.c:218-229 | unlinking takes one link from the inode named and none from any other |
| `LinkProofs.UnlinkSound` | sysfile.c:184-239 | unlink's changes keep every link count equal to the entries of linked directories |
| `LinkProofs.HangSound` | sysfile.c:117-165 | a new entry in a linked directory keeps every link count right, for link and for create |
| `LinkProofs.HangBroken` | sysfile.c:241-283 | a new entry in an unlinked directory leaves the counts wrong |
| `LinkCode.Tree.constructor` | mkfs.c:116-128 | the root directory alone is a sound state |
| `LinkCode.Tree.Iput` | fs.c:331-352 | one reference less; the inode is freed exactly when it has no link and that was the last reference |
| `LinkCode.Tree.DirLookup` | fs.c:524-548 | the first used slot with the name |
| `LinkCode.Tree.IsDirEmpty` | sysfile.c:167-181 | true exactly if no slot after the dots is used |
| `LinkCode.Tree.DirLink` | fs.c:551-578 | fails exactly if the name is there; else the first empty slot, or a new one, names the inode and nothing else changes |
| `LinkCode.Tree.Unlink` | sysfile.c:184-239 | succeeds exactly for a present name that is no dot and no non-empty directory; counts stay right in every case and no link count is found below one |
| `LinkCode.Tree.Link` | sysfile.c:117-165 | succeeds exactly for a non-directory and an absent name; failures restore the count; the counts are right afterwards if and only if nothing was added or the directory is linked |
| `LinkCode.Tree.Ialloc` | fs.c:194-214 | the first free inode, or there is none |
| `LinkCode.Tree.Create` | sysfile.c:241-283 | finds or refuses a present name as the kinds say; makes exactly an absent one, unless the inode table is full, with the first free inode and the first empty slot; the counts are right afterwards if and only if the name was there, the table was full or the directory is linked; a freed inode is found exactly where the name's entry leads to one, which is only ".." of an unlinked directory |
| `LinkCode.OrphanedFile` | sysfile.c:241-283 | the calls create, unlink and create, made from inside a directory that the second removes, end in wrong counts |
| `BioModel.Unlinked` | bio.c:130-134 | taking a buffer out leaves the circle of the others |
| `BioModel.Pushed` | bio.c:134-137 | putting a buffer behind the head gives the circle with it in front |
| `BioModel.Recycled` | bio.c:78-91 | recycling a clean unused buffer keeps one buffer per block and loses no value |
| `BioModel.Rewritten` | bio.c:95-116 | filling, changing, pinning or writing one buffer keeps the cache in agreement with the block store |
| `BioModel.UncachedIs` | bio.c:95-106 | a block whose buffer is not valid yet is on the disk and not in the log header |
| `BioCode.Cache.BuildList` | bio.c:38-56 | the buffers and the head form one circle, last buffer first |
| `BioCode.Cache.FindCached` | bio.c:68-76 | a buffer with the key, or no buffer has it |
| `BioCode.Cache.FindUnused` | bio.c:78-91 | of the unused clean buffers the one released longest ago, or there is none |
| `BioCode.Cache.Bget` | bio.c:61-93 | the one buffer of the block gets one more user; a recycled buffer was unused, clean and released longest ago; no other buffer changes; the panic is exactly for no such buffer |
| `BioCode.Cache.Iderw` | memide.c:38-60 | a dirty buffer goes to the disk, another one is filled from it, and it is valid and clean; the panics are exactly on the conditions the code checks |
| `BioCode.Cache.Bread` | bio.c:95-106 | the buffer has the last value written to its block; the panic is exactly for filling one from another device or from beyond the disk |
| `BioCode.Cache.Overwrite` | log.c:69-82 | a change under the buffer's lock is the value later reads see |
| `BioCode.Cache.LogPin` | log.c:213-233 | the buffer is dirty, and dirty buffers are exactly those of blocks in the header |
| `BioCode.Cache.Bwrite` | bio.c:108-116 | the disk has the contents, the buffer is clean and its block unpinned |
| `BioCode.Cache.Drop` | bio.c:118-141 | one user less; the last one moves the buffer to the front, so the list stays ordered by last release |
| `ProcTheorems.StepInv` | proc.c:74-500 | every step of every CPU keeps the invariant of locks, scheduling, sleepers, fork, exit and wait |
| `ProcTheorems.SleeperImpliesLocked` | sleeplock.c:22-42 | a process asleep on a sleep-lock finds it locked, unless its wakeup is under way |
| `ProcTheorems.NoSleepingParentOfZombie` | proc.c:227-313 | no parent sleeps in wait while it has an exited child |
| `ProcTheorems.RunningIffOneCpu` | proc.c:322-382 | with ptable.lock free a process is RUNNING if and only if one CPU has it as its process |
| `ProcTheorems.LiveParent` | proc.c:227-313 | every process past EMBRYO except init has a parent that is neither unused, embryo nor zombie |
| `ProcTheorems.ReapedOnce` | proc.c:272-313 | no exit is reaped twice |
| `ProcTheorems.HoldersAreUninterruptible` | spinlock.c:24-125 | a CPU that holds a spinlock has ncli above zero and interrupts off, also across swtch |
| `ProcTheorems.NoLockPanics` | proc.c:365-382 | the panics of sched, acquire and release cannot happen |
| `ProcTheorems.WakeupsAreNotLost` | proc.c:417-474 | after any schedule of any number of processes, CPUs and locks no sleeper on a free sleep-lock, no parent that missed an exit, no sleep-lock held twice |
| `ProcTheorems.ProcessesAreSound` | proc.c:180-382 | after any schedule: RUNNING on exactly one CPU, live parents, each exit reaped at most once |
| `ProcTheorems.LocksAreSound` | spinlock.c:24-125 | after any schedule: lock holders uninterruptible, and no panic of acquire, release or sched |
| `ProcWait.StepKids` | proc.c:272-313 | every step keeps a child for whoever sleeps or is about to sleep in wait |
| `ProcWait.StepAnswers` | proc.c:272-313 | whatever the step, a thread leaves wait with -1 only without children or killed and with no exited child, with the pid of a child of its own that had exited, whose slot is then free, or to sleep only with a child and none exited; pids are returned only so; who has been killed is not asleep |
| `ProcWait.WaitsAreRight` | proc.c:272-313 | the same after any schedule of any number of processes and CPUs |
| `ProcCalls.StepCalls` | proc.c:180-500 | whatever the step, a preempted thread goes back to its place, fork fails to find a slot only if there is none and its child is its own with a new pid, and a sleeper wakes only on its channel or by a kill |
| `ProcCalls.StepHoldFits` | sleeplock.c:22-42 | every step keeps acquiresleep at its end with the lock held and releasesleep at its end without it, and a channel only with a process between falling asleep and going on |
| `ProcCalls.CallsAreRight` | proc.c:180-500 | the same after any schedule of any number of processes, CPUs and locks |
| `ProcFlags.StepFlags` | spinlock.c:101-125 | whatever the step, a thread inside a critical section keeps the interrupt flag it goes back to, saves it on the way in and has it back on the way out, across swtch and from CPU to CPU |
| `ProcFlags.FlagsAreRestored` | proc.c:365-382 | the same after any schedule of any number of processes, CPUs and locks |
| `ProcFlow.StepFlows` | proc.c:180-500 | whatever the step, a thread comes out of acquiresleep only with the lock, out of releasesleep only without it, out of wait only from its scan, out of fork only where it fails or its child runs, out of kill only when done, and out of exit never |
| `ProcFlow.CpuGoesOn` | proc.c:322-382 | a CPU that does not wait for a spinlock always has a step to take |
| `ProcFlow.IdleMayStart` | proc.c:180-313 | a thread outside any call may start each of them, and exit unless it is init or holds a sleep-lock |
| `ProcFlow.SomeCpuGoesOn` | spinlock.c:24-67 | there is no deadlock over spinlocks: in every state within the invariant some CPU has a step |
| `ProcFlow.CallsFlow` | proc.c:180-500 | no deadlock, and calls left only at their ends, after any schedule of any number of processes, CPUs and locks |
| `ProcWakeup.WakeWakeup` | sleeplock.c:34-42 | releasesleep's wakeup leaves nobody waiting on that lock |
| `ProcWakeup.NobodyBetween` | proc.c:417-452 | while a wakeup scans the table nobody stands between testing the lock and being asleep |
| `ProcExit.ZombieHasNoKids` | proc.c:254-262 | nobody's parent is an exited process |
| `ProcCode.ProcTable.WakeupAll` | proc.c:457-465 | exactly the sleepers on the channel become runnable |
| `ProcCode.ProcTable.PassChildren` | proc.c:254-262 | the children go to init, which is woken if one of them has exited |
| `ProcCode.ProcTable.FindUnused` | proc.c:81-86 | the first free slot, or there is none |
| `ProcCode.ProcTable.ScanChildren` | proc.c:281-301 | the first exited child; else there is none and it is known whether there are children |
| `ProcCode.ProcTable.WaitTurn` | proc.c:279-312 | a turn of wait's loop is a step of the machine: it reaps an exited child, gives up without children or killed, and else goes to sleep |
| `ProcCode.ProcTable.AllocSlot` | proc.c:79-92 | allocproc's search is a step of the machine: the first free slot gets the next pid, or there is none |
| `ProcCode.ProcTable.KillPid` | proc.c:480-498 | the first process with the pid is killed and awake, as in the machine's step, or there is none |
| `VmModel.ViewFrame` | vm.c:35-55 | a translation depends on the directory and its tables only |
| `VmModel.AddTable` | vm.c:44-53 | a cleared page as a new table changes no translation |
| `VmModel.SetEntry` | vm.c:71-73 | writing one table entry changes one translation of the flat map |
| `VmModel.MapSound` | vm.c:60-80 | mapping an unmapped page to a frame not owned keeps frames distinct and adds that frame |
| `VmModel.UnmapSound` | vm.c:269-276 | unmapping a page gives up exactly its frame |
| `VmModel.UserAccess` | vm.c:35-55 | since directory entries restrict nothing, the processor lets user code read or write a page exactly as the flags of the flat map say |
| `VmCode.FreshIsUsers` | vm.c:221-249 | the user may read and write every page that allocuvm maps |
| `VmCode.KernelIsKernels` | vm.c:105-136 | the user may neither read nor write a page of the kernel's map |
| `VmCode.CopyIsUsers` | vm.c:315-345 | the child of copyuvm may read and write exactly the pages that the parent may |
| `VmSpace.CostThen` | vm.c:35-80 | the frames that a range takes, one for each page and one for each table missing under it, add up page by page as the tables are hung in |
| `VmSpace.GrowNext` | vm.c:232-247 | one turn of allocuvm keeps the free frames equal to those at the start less the cost of the pages so far; its failure and its panic are those of the whole range |
| `VmSpace.UserCost` | vm.c:326-339 | where no user page has a table, k pages take k frames and one for each 1024 begun |
| `VmCode.Machine.Kalloc` | kalloc.c:82-95 | the head of the free list, which is then no longer on it; null exactly if the list is empty |
| `VmCode.Machine.Kfree` | kalloc.c:59-77 | the page is at the head of the free list and no other page changes |
| `VmCode.Machine.Walk` | vm.c:35-55 | the page's table, made of a free frame if asked for and missing, with an entry that leaves every permission to the table; null exactly if that is not asked for or no frame is free; no translation changes and frames are conserved |
| `VmCode.Machine.Mappages` | vm.c:60-80 | page k of the range maps to frame k, the pages were unmapped, every other translation stays; it fails if and only if the tables missing before the first page already mapped outnumber the free frames, and panics if and only if there is such a page and it does not fail; on failure exactly a prefix is mapped; frames are conserved |
| `VmCode.Machine.Deallocuvm` | vm.c:255-279 | with its jump over missing tables it unmaps exactly the pages of the range, frees exactly their frames and terminates |
| `VmCode.Machine.Freevm` | vm.c:283-298 | exactly the frames of the address space join the free ones |
| `VmCode.Machine.Allocuvm` | vm.c:221-249 | success maps every new page to a zeroed frame of its own that was free; it fails if and only if the pages, up to one already mapped, and the tables missing under them outnumber the free frames, and then the range is unmapped and the rest as it was; it panics if and only if it does not fail and a page is already mapped; frames are conserved |
| `VmCode.Machine.Setupkvm` | vm.c:118-136 | a directory with exactly the kernel's mappings, made of free frames, never mapping a page twice; it fails if and only if fewer than 65 frames are free, and then they are those there were |
| `VmCode.KmapApart` | vm.c:105-115 | the ranges of the kernel map do not meet |
| `VmCode.Machine.Copyuvm` | vm.c:315-345 | the child has equal contents and flags in frames disjoint from the parent's, the parent is unchanged; it fails if and only if the kernel's frames, the pages and their tables outnumber the free ones, panics if and only if it does not fail and a page is missing, and on failure the set of free frames is what it was |
| `VmCode.FreeCount` | kalloc.c:82-95 | the free list has as many pages as distinct frames |
| `HeapModel.FreePartition` | umalloc.c:24-46 | after free, free and live blocks still partition the memory obtained |
| `HeapModel.GrowPartition` | umalloc.c:48-63 | new memory joins the free list and the blocks partition the larger memory |
| `HeapModel.MallocPartition` | umalloc.c:65-90 | a piece carved from a free block overlaps no live block and the blocks still partition the memory |
| `HeapModel.InsertedOrdered` | umalloc.c:24-46 | the list stays in address order with no two blocks touching |
| `HeapCode.UnitsSuffice` | umalloc.c:71-71 | the units counted have room for the request if and only if the rounding does not wrap |
| `HeapCode.SbrkAsks` | umalloc.c:48-63 | sbrk is asked for the memory then used if and only if the request is below 2 GB, or wraps to one unit |
| `HeapCode.SbrkGives` | proc.c:159-175 | the memory after sbrk is the old memory and the units then used if and only if sbrk was asked for them |
| `HeapCode.RelinkedLinks` | umalloc.c:31-44 | free's header writes give the headers of the merged list as one circle |
| `HeapCode.Heap.FindPlace` | umalloc.c:29-31 | the search stops, at the free block below the block freed, also across the wrap |
| `HeapCode.Heap.Release` | umalloc.c:24-46 | the block joins the list, merged with the neighbours it touches, and headers outside the list are unchanged |
| `HeapCode.Heap.Free` | umalloc.c:24-46 | exactly that block stops being live |
| `HeapCode.Heap.Morecore` | umalloc.c:48-63 | the units asked for are on the list and some free block is large enough; they are the process's own if and only if sbrk was asked for them; on refusal nothing changes |
| `HeapCode.Heap.Malloc` | umalloc.c:65-90 | a new live block of the units counted; it has room for the request if and only if that is at most 4 GB less one unit; the heap stays within the process's memory if and only if a free block fits, sbrk refuses, or the request is below 2 GB or wraps to one unit; sbrk is asked only if no free block fits and only its refusal makes malloc fail; the search ends |
| `HeapCode.EmptyBlock` | umalloc.c:65-90 | on a fresh heap a request of 4 GB less one gets a block with no room |
| `HeapCode.UngivenBlock` | umalloc.c:48-90 | on a fresh heap a request of 2 GB gets a block although the process has been given no memory |
| `HeapCode.Heap.SearchDone` | umalloc.c:76-88 | back at the start of the circle every free block has been found too small |
| `HeapCode.TakenLinked` | umalloc.c:78-79 | taking a whole block unlinks its header from the circle |
| `HeapCode.SplitLinked` | umalloc.c:80-84 | taking the tail of a block leaves the circle of headers in place |
| `HeapCode.AllFreed` | umalloc.c:24-46 | when everything has been freed, in any order, contiguous memory is one free block again |
| `PipeCode.Pipe.Put` | pipe.c:93-93 | a byte appended behind those waiting, with the counter wrapping at 2^32 |
| `PipeCode.Pipe.Take` | pipe.c:116-116 | the oldest byte waiting |
| `PipeCode.Pipe.Write` | pipe.c:78-98 | as many bytes as fit are appended in order, also where a reader has been stranded; it sleeps, fails or returns exactly on the conditions the code checks; where nobody slept who could run, that stays so if and only if it is not a killed writer that fills the pipe past another's sleeping read |
| `PipeCode.Pipe.Read` | pipe.c:100-121 | the oldest bytes, as many as asked for and present, so all bytes read are a prefix of all bytes appended; it sleeps only on an empty open pipe; where nobody slept who could run, nobody does afterwards |
| `PipeCode.Pipe.Close` | pipe.c:59-75 | one end closed and its waiters woken; where nobody slept who could run, nobody does afterwards; the pipe is freed exactly with its second end, and nobody sleeps on it then |
| `PipeCode.Pipe.Kill` | proc.c:478-497 | a killed process is awake, and nothing else about the pipe changes |
| `PipeCode.FullIs` | pipe.c:85-85 | the test for a full pipe is exact although the counters wrap |
| `PipeCode.StrandedReader` | pipe.c:83-89 | a killed writer leaves the pipe full and open at both ends, and a reader asleep |
| `PipeCode.StrandedGoesOn` | pipe.c:59-121 | after that another reader takes the oldest byte, and the sleeper, killed, closes its end |
| `Grep.FitsStar` | grep.c:97-106 | a star stands for any number of characters it accepts, followed by a fit of the rest |
| `Grep.ParseIff` | grep.c:83-95 | a pattern says the one list of items that it spells, with a star belonging to the character before it and a last dollar being the end |
| `Grep.MatchLiteral` | grep.c:72-95 | a plain string is found exactly in the lines it occurs in, and with a dollar in those it ends |
| `Grep.MatchHere` | grep.c:83-95 | true if and only if the text starts with words for the items of the pattern |
| `Grep.MatchStar` | grep.c:97-106 | true if and only if the text starts with a starred run and words for the rest |
| `Grep.Match` | grep.c:72-81 | true if and only if the pattern fits at some position, at the first one if anchored |
| `ShellPrint.RoundTrip` | sh.c:344-446 | every legal tree printed as tokens parses to itself |
| `ShellPrint.ParsedLegal` | sh.c:344-446 | every tree the parser accepts is legal, so printing it and parsing again gives it back |
| `ShellText.ParseNatural` | sh.c:344-446 | the grammar does not look at words: replacing the words replaces the leaves of the tree |
| `ShellText.ParsedWords` | sh.c:344-446 | every leaf of a parsed line is one of its words |
| `ShellText.LexBack` | sh.c:265-308 | scanning printed tokens gives the tokens |
| `ShellText.PrintParse` | sh.c:265-446 | every legal tree printed as a line, scanned and parsed, is the tree again |
| `ShellText.Reprinted` | sh.c:265-446 | every line the parser accepts, printed from its tree, is read as the same tree |
| `ShellGrammar.ScannedIff` | sh.c:265-308 | the scanner gives exactly the tokens of the line: blanks, symbols, >> and longest words, each at its place |
| `ShellGrammar.ParsedIff` | sh.c:344-446 | the parser gives a tree exactly for the tokens that derive it in the grammar of lines, jobs, pipelines, blocks and simple commands, so unbalanced parentheses, missing file names, leftovers and a tenth word are refused |
| `ShellGrammar.ReadsOne` | sh.c:327-446 | a line has at most one tree, and one exactly if the parser accepts it |
| `ShellCode.Peek` | sh.c:310-320 | blanks are skipped, and the answer is whether the next character is one of those asked about |
| `ShellCode.GetToken` | sh.c:265-308 | the next token of the line with its place, and the position after it; 0 exactly at the end |
| `ShellCode.ReadRedirs` | sh.c:374-397 | the redirections at hand in order, or failure exactly where a file name is missing |
| `ShellCode.ReadExec` | sh.c:415-446 | succeeds exactly on a simple command or block of the grammar, with its tree and the rest of the line |
| `ShellCode.ReadBlock` | sh.c:399-413 | succeeds exactly on a parenthesised line with its redirections |
| `ShellCode.ReadPipe` | sh.c:361-372 | succeeds exactly on a pipeline of the grammar |
| `ShellCode.ReadLine` | sh.c:344-359 | succeeds exactly on a line of the grammar, and terminates |
| `ShellCode.NulTerminate` | sh.c:448-493 | a NUL right after each word of the tree and no other change to the buffer |
| `ShellCode.EndsBetween` | sh.c:448-493 | no NUL lands inside a word |
| `ShellCode.ParseCmd` | sh.c:327-342 | succeeds exactly if the line is in the grammar, with the one tree it derives; then every string of the tree, read up to its NUL, is the word the line had there |

## Left out

- Concurrency inside file-system calls: `Fs*` and `Link*` treat one call at a time; what other processes may do between two locks of one call is not modelled.
- Path lookup (`namex`, `skipelem`): its result and reference are parameters of the link operations.
- Inode cache slots (`iget`'s table): references are counted per inode, not per slot, and a full table is not modelled.
- `LinkCode.Tree.Create`: a directory whose new entry does not fit the disk is not looked at here; `SysCreate.Create` has it as an outcome.
- `SysCode.Kernel.constructor`: at most 65536 inodes, since a directory entry has sixteen bits for the number; file systems with more are not modelled.
- `SysCode.Kernel.Unlink`: the number of blocks logged is a bound, not a count.
- Buffer contents and `log_write`: in `LogMachine` a change of a buffer and its append to the header are two events, the change being made visible with the append.
- Hardware: port I/O, interrupt controllers, boot code, assembly and memory ordering; `xchg` is an atomic step and `swtch` an atomic control transfer.
- `ProcTheorems.StepInv`: the only sleep channels are sleep-locks and wait; a process that exits holds no sleep-lock; `sleep` on other locks is not part of this machine. The log's channel is in `LogSleep`, the pipe's in `PipeCode`; console, disk and ticks are left out.
- `LogSleep.SleepIsBounded`: new operations can keep a sleeper from its turn, so there is no bound with them.
- `ProcTheorems.WakeupsAreNotLost`: says that sleepers are woken, not that the scheduler eventually picks them.
- `VmCode.Machine.Mappages`: the range may not be empty and may not pass the end of the address space; no caller does either.
- `VmCode.Machine.Deallocuvm`: for sizes up to KERNBASE, since above it pages are shared with the kernel.
- `loaduvm`, `inituvm`, `clearpteu`, `copyout`, `freerange`: short loops over the operations above.
- `HeapCode.Heap.Malloc`: addresses are in units of eight bytes, and programs do not write outside their blocks.
- `PipeCode.Pipe.Close`: an end is closed only when no process is inside a call on it, which its file reference ensures.
- `BioCode.Cache.Unlock`: that a changed buffer has been logged or written before its release is a requirement here, as the callers' protocol.
- `runcmd` and failing `malloc` in the shell; `grep`'s line buffer; consoles, traps, system-call arguments, `exec` and the small user programs.
- `MkfsCode.MakeFs`: a disk or inode table that is too small, which mkfs does not look for, ends the model as a failure.
- `ShellText.PrintParse`: tokens are printed with one space between them; that other spacing reads the same is in the contract of `ShellCode.GetToken`.
