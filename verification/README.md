# A verified model of xv6 for RISC-V

This project models the hard parts of the xv6 kernel and of two of its user programs, and proves
what they are for. `dafny verify dfyconfig.toml` checks everything.

The modules, by subsystem:

- **Log, buffer cache, crash recovery.** `Blocks` has disk blocks as bytes and words, and a disk
  changed by one atomic block write at a time. `CrashRecovery` says what the block writes of commit
  and of recovery are and what a disk means after any prefix of them. `BufferCache` is the LRU list
  of 30 buffers with its pointers; `Log` is the write-ahead log on it, loop by loop. `LogProtocol`
  is the same protocol with any number of processes, interleaved, and crashes at any point.
- **Files.** `Bitmap` and `Inodes` are the free bitmap, the block addresses of inodes and the bytes
  of files; `FileSystem` has the operations on them, `FileWrite` the loop that cuts a large write
  into transactions, `Directory` directories as files of 16-byte slots and `Paths` path names.
  `CrashSafeFiles` puts files and log together: what a crash leaves of a file. `GroupCommit` says
  the same of commits that several operations share, and `TightBound` has a write that uses a
  transaction's reservation up.
- **Virtual memory.** `PageTables` is the three-level tree of section 4.4 (Sv39) of the RISC-V
  Privileged Architecture manual, version 20211203, and the flat map that it denotes;
  `VirtualMemory` has the page allocator and the operations on user memory.
- **Disk driver.** `Virtqueue` is the split virtqueue of sections 2.6 and 5.2 of VIRTIO 1.1, driver
  and device, with 16-bit ring indices. The device goes by what the descriptors say: it moves as many bytes
  as `len` says, and loads or stores only as the flags allow.
- **Processes.** `SleepWakeup` is sleep(chan, lk) and wakeup(chan) for any number of processes,
  spinlocks and channels, as interleaved steps with explicit locks, and proves that no wakeup is
  lost. Three protocols are proved to be uses of it, and safe because of it: `SleepLock`, a sleep
  lock; `WaitWakeup`, the sleep of wait2 and the wakeups of exit and reparent, over the protocol of
  `ExitWait` (fork, exit, wait2 and reparent); and `PipeWakeup`, the readers, writers and closers of
  a pipe. `Pipe` is the 512-byte ring with 32-bit counters.
- **User programs.** `Shell` is the grammar of commands with a printer, `ShellParser` the parser that
  runs over a buffer, and `ShellSyntax` command lines as a user writes them, with the tree that each
  means; `Grep` is the pattern matcher, and how pattern strings read as items.

Objects that the source updates in place are classes, loops are loops, and each method is proved
against a function or relation whose own properties are lemmas. A kernel panic is a result
(`ok == false`, `None`, `Panic`), and contracts say when it happens: exactly, or never.

## What the code does not do

- NBUF and LOGSIZE are both 30. A transaction that records 30 blocks pins every buffer, so commit
  cannot get one for a log block and panics, although `log_write` accepted every block.
  `Log.FillLogAndCommit` is such a run, from an empty disk through three operations to the panic;
  `Log.FullLogPanics` shows it for every full log, and `Log.Log.Commit` says exactly when commit
  succeeds: nothing is recorded, or some buffer is not in use.
- `log_write` panics on a full log even for a block that is recorded already and would be absorbed.
  `LogProtocol.FullLogHasNoReservation` says exactly when, and that no operation has a reservation
  left then.
- `dirlink` stores the inode number in 16 bits. `Directory.Dirlink` says what entry results; with a
  number divisible by 65536 it is none at all, though 0 is returned. By `Directory.EntryIsInum` the
  entry is the one asked for exactly when the number is between 1 and 65535.
- `uvmcopy` promises to free any allocated pages on failure (vm.c:306-311), and `uvmalloc` undoes
  its growth, but page-table pages made on the way stay. `VirtualMemory.FailedGrowthKeepsTable` is a
  run on three pages that ends so. By `VirtualMemory.Machine.Uvmalloc` and `.Uvmcopy`, when memory
  runs out the pages in use are those of before if and only if every page of the range had its
  lowest-level table, or fewer than two pages were left on reaching the first that had none.
- A writer that was killed leaves `pipewrite` in the middle (pipe.c:84-87) without the wakeup that
  every other way out makes. `PipeWakeup.KilledWriterStrandsReader` is a run in which a reader,
  not killed, sleeps on with a byte in the pipe and the lock free. By `PipeWakeup.ReadersSafe` no
  reader ever sleeps so in a run if and only if no killed writer takes that exit while a reader
  sleeps although bytes are there or no writer is; writers never do (`PipeWakeup.WritersSafe`).
- `kill` sets a flag and wakes a sleeper, but `wait2` makes its test before it takes its own lock in
  `sleep`. `ExitWait.KillMissed` is a run in which a parent killed in between sleeps on with its flag
  set, every lock free and its child running. By `ExitWait.KilledSleeper` that is the only way in
  which a killed process is ever in sleep in wait2.
- sleep and wakeup lose a wakeup whose caller never held the sleeper's lock in between:
  `SleepWakeup.LostWithoutLock` is such a run. With the lock held at some moment they never do.

## Model

| member | source | states |
|---|---|---|
| CrashRecovery.HeadRoundTrip | RISCV xv6/kernel/log.c:86-114 | what write_head stores in the header block, read_head reads back: the same block numbers in the same order |
| CrashRecovery.HeadBytes | RISCV xv6/kernel/log.c:86-114 | in bytes: the count is the number in the first four, low byte first, each entry the number in the next four, and write_head leaves every byte after its last entry |
| CrashRecovery.CutRecovery | RISCV xv6/kernel/log.c:117-123 | recovery cut off after any of its block writes leaves a disk that can be recovered and means the same for every home block |
| CrashRecovery.RebootRestores | RISCV xv6/kernel/log.c:117-123 | however many recoveries crash, the one that completes leaves every home block at what the disk meant, and an empty log |
| CrashRecovery.CutCommit | RISCV xv6/kernel/log.c:194-203 | commit cut off after any k block writes: the disk means the old contents if the header write is not among them, and the whole transaction if it is |
| CrashRecovery.CrashAtomicity | RISCV xv6/kernel/log.c:68-203 | crash atomicity: after a crash at any write of commit and any further crashes during recovery, all home blocks are old or all logged ones are new, new exactly when the first write_head reached the disk |
| BufferCache.Cache.constructor | RISCV xv6/kernel/bio.c:37-53 | binit links all NBUF buffers into a ring in both directions, none in use |
| BufferCache.RingUnlink | RISCV xv6/kernel/bio.c:128-129 | the two pointer writes take exactly that buffer out of the ring, in both directions |
| BufferCache.RingInsert | RISCV xv6/kernel/bio.c:130-133 | the four pointer writes put it in front and keep every other link |
| BufferCache.PointerWritesMoveToFront | RISCV xv6/kernel/bio.c:126-134 | together they move a buffer to the front and keep the order of the rest |
| BufferCache.Cache.Bget | RISCV xv6/kernel/bio.c:59-89 | a hit adds a reference; a miss recycles the unused buffer whose last release to zero is oldest; it panics exactly when the block is not cached and no buffer is unused |
| BufferCache.Cache.OldestUnused | RISCV xv6/kernel/bio.c:77-87 | the first unused buffer from the back of the list is the least recently released one |
| BufferCache.Cache.Bread | RISCV xv6/kernel/bio.c:93-103 | returns a buffer that holds the current contents of the block, cached or from disk, and fails exactly when all NBUF buffers are in use for other blocks |
| BufferCache.Cache.Bwrite | RISCV xv6/kernel/bio.c:107-112 | one block write, of the buffer's contents, to its block; the blocks in use do not change |
| BufferCache.Cache.Brelse | RISCV xv6/kernel/bio.c:117-137 | drops one reference of that block alone; the last one moves the buffer to the front of the list |
| BufferCache.Cache.Bpin | RISCV xv6/kernel/bio.c:140-144 | adds one reference to that block alone |
| BufferCache.Cache.Bunpin | RISCV xv6/kernel/bio.c:147-151 | drops one reference of that block alone, without moving the buffer |
| Log.Log.constructor | RISCV xv6/kernel/log.c:55-65 | initlog leaves the disk as recovery's block writes leave it, and an empty log |
| Log.Log.Recover | RISCV xv6/kernel/log.c:117-123 | makes exactly the block writes of recovery, in order, and ends with nothing in use |
| Log.Log.ReadHead | RISCV xv6/kernel/log.c:86-97 | the log's block list becomes the one on disk |
| Log.Log.WriteHead | RISCV xv6/kernel/log.c:103-114 | one block write, of the header with the log's block list; panics exactly when every buffer is in use |
| Log.Log.InstallTrans | RISCV xv6/kernel/log.c:69-83 | makes exactly the home writes of the transaction in order, and after a commit drops one pin of each home block |
| Log.Log.WriteLog | RISCV xv6/kernel/log.c:179-191 | makes exactly the log writes of the cached contents in order, and leaves the cache as it was |
| Log.Log.Commit | RISCV xv6/kernel/log.c:194-203 | makes exactly the block writes that CrashAtomicity cuts off, with the cached contents of the recorded blocks, unpins them and empties the log; it panics exactly when something is recorded and every buffer is in use |
| Log.Log.BeginOp | RISCV xv6/kernel/log.c:127-142 | goes ahead exactly when no commit is under way and one more reservation fits |
| Log.Log.EndOp | RISCV xv6/kernel/log.c:147-175 | the last operation to end commits; any other leaves disk, cache and log alone |
| Log.Log.LogWrite | RISCV xv6/kernel/log.c:215-235 | panics exactly on a full log or outside a transaction; a recorded block is absorbed, a new one is recorded last and pinned once |
| Log.CommitDisks | RISCV xv6/kernel/log.c:194-203 | the disks after write_log, write_head, install_trans and the second write_head are those of one list of block writes |
| Log.FullLogPanics | RISCV xv6/kernel/log.c:183-187 | with LOGSIZE blocks recorded every buffer is in use, so commit cannot succeed |
| Log.FillLogAndCommit | RISCV xv6/kernel/param.h:9-11 | from an empty disk, three operations record LOGSIZE different blocks, every log_write is accepted, and the commit panics |
| LogProtocol.StepKeepsInv | RISCV xv6/kernel/log.c:127-235 | every event of every process, of commit, of a crash and of recovery keeps the invariant of log space, cache, log and disk |
| LogProtocol.RunInv | RISCV xv6/kernel/log.c:127-235 | the invariant holds in every state of every interleaved run |
| LogProtocol.RunSafe | RISCV xv6/kernel/log.c:69-235 | in every run: a cached block not being modified holds the latest logged contents and an uncached one is on disk; a recorded block stays cached with a reference until it is installed; a crash here, followed by any crashes of recovery, gives the block map of the last commit point |
| LogProtocol.CommitPoint | RISCV xv6/kernel/log.c:194-203 | the header is written with no operation in progress and no buffer under modification; no home block on disk changes except by installing or replaying |
| LogProtocol.CommittedAtHeader | RISCV xv6/kernel/log.c:103-203 | in every run, crashes included, what is committed is the whole block map as it was at the last header write, or at first boot |
| LogProtocol.DiskMeansCommitted | RISCV xv6/kernel/log.c:117-203 | at every point the disk together with its log means the last committed map |
| LogProtocol.NewSlotFits | RISCV xv6/kernel/log.c:126-235 | lh.n plus unused reservations never exceeds LOGSIZE, so every log_write of a held buffer within its operation's reservation goes through |
| LogProtocol.Admits | RISCV xv6/kernel/log.c:131-139 | in a reachable state begin_op goes ahead exactly when no commit is under way and what is recorded, with ten blocks for each operation in progress and ten more, is at most 30 |
| LogProtocol.Gets | RISCV xv6/kernel/bio.c:59-89 | bget of a home block panics exactly when the block is not in use and thirty others are; it gives the latest contents, and the sleep lock at once if nobody holds it |
| LogProtocol.CommitGoesOn | RISCV xv6/kernel/log.c:69-203 | a commit or a recovery under way always has a step to take, as long as a buffer is to spare and nobody holds a recorded block |
| LogProtocol.FullLogHasNoReservation | RISCV xv6/kernel/log.c:220-229 | when a log_write that would be absorbed finds the log full and panics, no operation has a reservation left |
| LogProtocol.IdleLogAdmits | RISCV xv6/kernel/log.c:131-139 | an idle log that is not committing is empty, and begin_op goes ahead |
| Bitmap.TestAfterSet | RISCV xv6/kernel/fs.c:75-77 | setting or clearing one bit of a bitmap block changes that bit alone |
| Bitmap.WhichBit | RISCV xv6/kernel/fs.c:72-105 | the bit of block b is bit b % 8, by its value, of byte b % 8192 / 8 of the bitmap block b / 8192 |
| Bitmap.InUseAfterMark | RISCV xv6/kernel/fs.c:72-105 | marking a block changes the state of that block alone, over all bitmap blocks |
| Inodes.NoSharing | RISCV xv6/kernel/fs.c:383-421 | no block address is in two slots of inodes |
| Inodes.OtherContents | RISCV xv6/kernel/fs.c:383-539 | if an operation keeps the slots and blocks of other inodes, no byte of any other file changes |
| Inodes.FileByteOnDisk | RISCV xv6/kernel/fs.h:32-45 | from raw bytes: inode i is 64 bytes of block inodestart + i / 16, size at byte 8 and addresses from byte 12, low byte first; byte off of its file is byte off % 1024 of the block that address off / 1024, or entry off / 1024 - 12 of the indirect block, names |
| Inodes.RecordKept | RISCV xv6/kernel/fs.c:226-241 | iupdate changes no byte of the block outside the size and the addresses of that inode |
| FileSystem.FileSystem.FindFree | RISCV xv6/kernel/fs.c:72-87 | the first block whose bit is clear, over all bitmap blocks, or none when all are set |
| FileSystem.FileSystem.Balloc | RISCV xv6/kernel/fs.c:66-88 | returns the first free data block, now marked and zeroed, owned by nobody; 0 exactly when every block is in use, and then nothing changed |
| FileSystem.FileSystem.Bfree | RISCV xv6/kernel/fs.c:92-105 | clears exactly that block's bit; panics exactly when it is clear already |
| FileSystem.GrowDirect | RISCV xv6/kernel/fs.c:388-396 | storing a fresh block in a direct slot keeps ownership, bitmap, file contents and other inodes |
| FileSystem.GrowIndirect | RISCV xv6/kernel/fs.c:400-417 | storing one in an entry of the indirect block does so too |
| FileSystem.FileSystem.Bmap | RISCV xv6/kernel/fs.c:383-421 | the address in the slot of block bn; a mapped block is just found; a missing one is allocated, with the indirect block if needed, keeping ownership, bitmap, all data and other inodes; 0 only on a full disk; exactly which blocks are logged |
| Inodes.InodeAfterPut | RISCV xv6/kernel/fs.c:226-241 | storing an inode in its 64 bytes of an inode block and reading the block's inodes back: that one is what was stored, the others are as they were |
| FileSystem.FileSystem.constructor | RISCV xv6/kernel/fs.h:8-51 | a disk in order can be mounted: the inodes are those in the inode blocks |
| FileSystem.NewDisk | RISCV xv6/kernel/fs.h:8-51 | a new disk, with empty inodes and only the reserved blocks marked, is in order |
| FileSystem.FileSystem.Iupdate | RISCV xv6/kernel/fs.c:226-241 | the inode on disk becomes the one in memory, its inode block is logged, and no other inode, file or bitmap bit changes |
| FileSystem.StaysSynced | RISCV xv6/kernel/fs.c:533-536 | an operation on one inode that ends with iupdate leaves all inodes on disk as in memory |
| FileSystem.FileSystem.Itrunc | RISCV xv6/kernel/fs.c:426-453 | frees exactly the inode's blocks, direct, indirect and the indirect block, never panics, leaves an empty file on disk too, changes no other file, and logs every block it changes |
| FileSystem.PatchBytes | RISCV xv6/kernel/fs.c:517-526 | patching a mapped block changes exactly the patched bytes of the file |
| FileSystem.WroteContents | RISCV xv6/kernel/fs.c:506-539 | bytes stored block by block are one contiguous overwrite of the file's byte sequence, without holes |
| FileSystem.FileSystem.WriteThenRead | RISCV xv6/kernel/fs.c:472-539 | readi of the range that writei has just stored returns exactly the bytes stored |
| FileSystem.FileSystem.Readi | RISCV xv6/kernel/fs.c:472-496 | returns exactly the slice of the file that off and n name, cut at the end; empty past the end and when off + n wraps around 32 bits; changes nothing |
| FileSystem.FileSystem.Writei | RISCV xv6/kernel/fs.c:506-539 | -1 exactly for a refused range, and nothing changed; otherwise the first r bytes replace or extend exactly bytes off..off+r, r is short only on a full disk and at a block boundary past the old end, no byte of another file and no other inode on disk changes, every changed block is logged, and at most LogBound distinct ones of what was stored are |
| FileSystem.UnalignedMapped | RISCV xv6/kernel/fs.c:506-521 | an unaligned offset within the file lies in a block that is already mapped |
| FileWrite.ChunkFits | RISCV xv6/kernel/file.c:155-160 | LogBound, which bounds what writei logs, is at most MAXOPBLOCKS for every write of at most a chunk, at any offset |
| TightBound.BoundIsReached | RISCV xv6/kernel/file.c:149-160 | the bound is reached: on a mounted disk of 24746 blocks, with four bitmap blocks, full but for one block in the reach of each, writei of one whole chunk at an unaligned offset stores all of it and logs exactly MAXOPBLOCKS distinct blocks |
| FileWrite.File.WriteChunk | RISCV xv6/kernel/file.c:162-167 | one transaction logs at most MAXOPBLOCKS distinct blocks, every changed block among them, and advances the offset by what was written |
| FileWrite.File.Filewrite | RISCV xv6/kernel/file.c:149-174 | n exactly when every byte was stored, else -1 with the bytes up to the new offset stored; -1 only for an offset past the end, a range past MAXFILE or a full disk; every transaction on the way stayed within MAXOPBLOCKS and took the file from one prefix of the data to the next |
| FileWrite.FilewriteCrash | RISCV xv6/kernel/file.c:149-174 | a crash at any block write of any of these transactions, and any crashes of recovery, leaves the file with exactly a prefix of the data stored, ending at that transaction or the one before, and no other file changed |
| CrashSafeFiles.DiskHasFiles | RISCV xv6/kernel/fs.h:31-51 | the blocks on disk alone determine every file, through inode blocks, indirect blocks and data blocks |
| CrashSafeFiles.BlocksAtomic | RISCV xv6/kernel/log.c:68-203 | a transaction that logged every block it changed, cut off anywhere in commit and recovery, leaves all old blocks or all new ones |
| CrashSafeFiles.FilesAtomic | RISCV xv6/kernel/log.c:68-203 | after a crash at any block write of commit, and any crashes of recovery, every file on the recovered disk is as before the transaction, or every one is as after it, the latter exactly when the header was written |
| CrashSafeFiles.RecoveredIsSound | RISCV xv6/kernel/log.c:68-203 | the recovered disk is in order: no block in two files, the bitmap exact, no holes |
| CrashSafeFiles.CrashSafeWrite | RISCV xv6/kernel/fs.c:506-539 | after a writei of its own transaction and a crash anywhere, the file has exactly its old bytes or exactly the written bytes in place, and every other file is untouched |
| GroupCommit.CrashLeavesLastCommit | RISCV xv6/kernel/log.c:127-235 | with any operations sharing commits: if the block map at each header write holds a file system in order, a crash in any state of any run, and any crashes of recovery, leave a disk in order with exactly the files of the last header write |
| Directory.Strncmp | RISCV xv6/kernel/string.c:61-68 | zero exactly when the two strings agree up to their terminators or n bytes |
| Directory.Strncpy | RISCV xv6/kernel/string.c:71-81 | the string up to its terminator or n bytes, padded with zeros to n |
| Directory.CutPadded | RISCV xv6/kernel/fs.c:600 | a stored name compares as the name it was made from |
| Directory.EntryBytes | RISCV xv6/kernel/fs.h:54-59 | in bytes: entry k is the sixteen from 16k on, two for the inode number, low byte first, and fourteen for the name, zero-padded |
| Directory.LinkedMap | RISCV xv6/kernel/fs.c:580-606 | an entry under a new name, in a free slot or after the last, adds exactly one entry to the directory's map and keeps names unique |
| Directory.UnlinkedMap | RISCV xv6/kernel/sysfile.c:220-221 | zeroing a live slot removes exactly its entry |
| Directory.Dirlookup | RISCV xv6/kernel/fs.c:552-575 | finds what the directory's map has under the name cut to 14 bytes, and the slot; its panic cannot happen |
| Directory.Dirlink | RISCV xv6/kernel/fs.c:580-606 | refuses a present name; otherwise adds exactly the entry, or fails with the file unchanged when every slot is live and the file cannot grow |
| Directory.EntryIsInum | RISCV xv6/kernel/fs.c:599-602 | with the number cut to 16 bits, the directory's map gains exactly the entry asked for if and only if the number is between 1 and 65535 |
| Directory.Unlink | RISCV xv6/kernel/sysfile.c:207-222 | refuses ".", ".." and absent names, and otherwise removes exactly the name's entry; its panic cannot happen |
| Paths.FirstComponent | RISCV xv6/kernel/fs.c:613-617 | a path that starts with an element has that element first, then the components of what follows |
| Paths.SpelledComponents | RISCV xv6/kernel/fs.c:621-645 | any names put together to a path, with any runs of slashes before, between and after them, are what the path is taken apart into |
| Paths.Skipelem | RISCV xv6/kernel/fs.c:623-645 | takes off exactly the first nonempty component, whatever slashes surround it, cut to 14 bytes; the rest is empty exactly when it was the last |
| Paths.ResolveStep | RISCV xv6/kernel/fs.c:661-678 | one turn of namex's loop is one step of the fold over the components, with or without stopping early |
| Paths.ParentThenName | RISCV xv6/kernel/fs.c:650-686 | looking up the last name in the directory that nameiparent gives is what namei of the whole path gives, and fails exactly when that fails |
| Paths.Namex | RISCV xv6/kernel/fs.c:652-684 | equals folding directory lookup over the nonempty components, from root or current directory; nameiparent gives the last directory and the last component |
| PageTables.PathInjective | RISCV xv6/kernel/riscv.h:354-357 | the three 9-bit indices determine the virtual page |
| PageTables.ThreeLevels | RISCV xv6/kernel/riscv.h:341-357 | an address is translated by bits 30 to 38, 21 to 29 and 12 to 20 as indices into three tables, each named by the bits from 10 on of a valid entry of the one before; without one there is no translation |
| PageTables.LeafBits | RISCV xv6/kernel/vm.c:284-290 | an entry is a leaf exactly when bit 1, 2 or 3 is set, whatever the others are |
| PageTables.AttachTable | RISCV xv6/kernel/vm.c:99-107 | hanging a zeroed page-table page into an empty entry changes no translation of any tree |
| PageTables.SetLeaf | RISCV xv6/kernel/vm.c:165 | writing a leaf entry changes the translation of that virtual page alone, in that tree alone |
| PageTables.FreeTable | RISCV xv6/kernel/vm.c:293 | a table without valid entries can go out of use without touching any other |
| PageTables.Detach | RISCV xv6/kernel/vm.c:285-288 | clearing the entry that named a freed subtree makes the trees whole again |
| VirtualMemory.Machine.constructor | RISCV xv6/kernel/kalloc.c:27-40 | kinit and freerange put exactly the whole pages between end and PHYSTOP on the free list |
| VirtualMemory.Machine.Kfree | RISCV xv6/kernel/kalloc.c:47-63 | panics exactly outside managed memory; otherwise pushes the page on the linked free list and touches no other page |
| VirtualMemory.Machine.Kalloc | RISCV xv6/kernel/kalloc.c:69-82 | pops the first free page, in use nowhere; 0 exactly when the list is empty |
| VirtualMemory.Machine.Walk | RISCV xv6/kernel/vm.c:93-110 | panics exactly beyond MAXVA; finds the leaf entry's place, or null when there is no table and none could be made; with alloc it never changes what any tree denotes, and makes tables exactly if the lowest-level one is missing and a page is free |
| VirtualMemory.Machine.Mappages | RISCV xv6/kernel/vm.c:150-172 | success maps exactly the pages of the range, in order, none mapped before; running out of memory leaves an exact prefix mapped; panics only at a mapped or out-of-range page; no other translation changes |
| VirtualMemory.Machine.Uvmunmap | RISCV xv6/kernel/vm.c:178-199 | succeeds exactly when the range is aligned and all mapped, and then removes exactly its translations and, if asked, frees exactly its pages |
| VirtualMemory.Machine.Uvmcreate | RISCV xv6/kernel/vm.c:204-212 | a new root that maps nothing; other trees and pages as before; 0 exactly when no page is free |
| VirtualMemory.Machine.Uvmalloc | RISCV xv6/kernel/vm.c:228-257 | on success every page up to the new size is mapped to a page of its own, whose 512 words are all zero, with flags valid, readable, user and xperm and no other; without memory 0 is returned, every translation and page is as before, and no page table stays exactly under the condition stated; other trees are untouched |
| VirtualMemory.ZeroedIsZero | RISCV xv6/kernel/vm.c:243-250 | new zeroed pages hold zero in each of their 512 words, and their flags are 1 + 2 + 16 and xperm |
| VirtualMemory.Machine.Uvmdealloc | RISCV xv6/kernel/vm.c:263-274 | removes and frees exactly the pages between the rounded sizes, and returns the new size |
| VirtualMemory.Machine.Uvmcopy | RISCV xv6/kernel/vm.c:313-340 | every page gets a fresh copy with equal flags and contents in the new tree; on failure the new tree maps what it did before and nothing in use was lost, and no page table stays exactly under the condition of uvmalloc, over the new tree |
| VirtualMemory.FailedGrowthKeepsTable | RISCV xv6/kernel/vm.c:233-256 | with three managed pages and an empty tree, uvmalloc of one page fails and a page-table page other than the root is in use afterwards |
| VirtualMemory.PageSpent | RISCV xv6/kernel/vm.c:242-252 | adding a page costs that page alone if its lowest-level table is there; otherwise tables are made exactly if two pages were free |
| VirtualMemory.CopyIsSeparate | RISCV xv6/kernel/vm.c:313-340 | after a successful uvmcopy the two trees have equal flags and contents and no user page in common |
| VirtualMemory.Undone | RISCV xv6/kernel/vm.c:242-252 | pages added and removed again leave nothing behind but page tables |
| VirtualMemory.Machine.Freewalk | RISCV xv6/kernel/vm.c:279-294 | succeeds exactly on a tree without leaves, and then frees exactly its page-table pages |
| VirtualMemory.Machine.Uvmfree | RISCV xv6/kernel/vm.c:299-304 | succeeds exactly when all user memory up to the size is mapped and nothing beyond it is; then every table and page of the tree is free, and the free list and the pages in use still partition managed memory |
| Virtqueue.VirtioDisk.AllocDesc | RISCV xv6/kernel/virtio_disk.c:157-166 | the first free descriptor, now taken; none exactly when all are taken |
| Virtqueue.VirtioDisk.FreeDesc | RISCV xv6/kernel/virtio_disk.c:170-182 | panics exactly on a number out of range or a free descriptor |
| Virtqueue.VirtioDisk.Alloc3 | RISCV xv6/kernel/virtio_disk.c:201-213 | three different free descriptors; fails only when there are fewer than three, and then gives back what it took |
| Virtqueue.VirtioDisk.FreeChain | RISCV xv6/kernel/virtio_disk.c:186-197 | frees exactly the three descriptors of a chain, with no panic |
| Virtqueue.VirtioDisk.Submit | RISCV xv6/kernel/virtio_disk.c:216-279 | publishes a three-descriptor chain for sector 2 * blockno in the next avail slot, device-writable data exactly for a read, and leaves buffers and disk alone; with fewer than three descriptors free it does nothing |
| Virtqueue.VirtioDisk.DeviceTake | RISCV xv6/kernel/virtio_disk.c:268-279 | the device reads the oldest unread avail slot, and through its chain the request's command and buffer |
| Virtqueue.VirtioDisk.DeviceComplete | RISCV xv6/kernel/virtio_disk.c:249-261 | the device finishes any request it has taken by what the descriptors say: the whole transfer is allowed by their flags, moves BSIZE bytes, and is followed by the status byte and the next used slot |
| Virtqueue.VirtioDisk.Transfer | RISCV xv6/kernel/virtio_disk.c:252-263 | sector by sector the device stores into the buffer only where bit 1 of the flags is set and loads only where it is clear, up to len; for a live request every sector is allowed and the whole block moves, in the right direction |
| Virtqueue.ChainAllows | RISCV xv6/kernel/virtio_disk.c:232-265 | of every live chain: the command is 16 bytes that the device loads, the data BSIZE bytes that it stores if and only if the request reads the disk, the status one byte that it stores; the next links are these and end there |
| Virtqueue.SubmitInv | RISCV xv6/kernel/virtio_disk.c:268-274 | publishing overwrites no avail slot that the device has still to read, across 16-bit wrap |
| Virtqueue.TakeInv | RISCV xv6/kernel/virtio_disk.c:268-279 | what the device reads from the avail ring is always the head of a live, formatted chain |
| Virtqueue.CompleteInv | RISCV xv6/kernel/virtio_disk.c:308-323 | a completion in any order overwrites no used slot that is still to be seen |
| Virtqueue.SeeInv | RISCV xv6/kernel/virtio_disk.c:311-322 | every consumed used id names a live request with its buffer and status 0 |
| Virtqueue.VirtioDisk.Intr | RISCV xv6/kernel/virtio_disk.c:295-327 | marks exactly the completed requests done; its panic cannot happen |
| Virtqueue.VirtioDisk.Finish | RISCV xv6/kernel/virtio_disk.c:281-291 | once the buffer no longer waits it equals the two sectors of its block, and holds what the request was for: the disk contents at the request for a read, the buffer at the request for a write; the chain is freed and neither free_desc panic can happen |
| Virtqueue.RunInv | RISCV xv6/kernel/virtio_disk.c:216-327 | the queue's invariant holds in every state of every run from virtio_disk_init's state, of any requesters, failed allocations and any completion order |
| Virtqueue.StartInv | RISCV xv6/kernel/virtio_disk.c:66-153 | the state that virtio_disk_init leaves, every descriptor free and both rings empty, satisfies the invariant |
| Virtqueue.ChainsApart | RISCV xv6/kernel/virtio_disk.c:201-265 | in-flight chains are disjoint lists of three descriptors, and free[] marks exactly the others |
| ExitWait.StartInv | RISCV xv6/kernel/proc.c:110-172 | the table with init alone satisfies the invariant |
| ExitWait.StepInv | RISCV xv6/kernel/proc.c:280-448 | every step of fork, exit, reparent, wait2, sleep, wakeup, kill and the scheduler keeps the invariant, in which wait2's havekids says whether the part of the table passed holds a child |
| ExitWait.RunInv | RISCV xv6/kernel/proc.c:280-448 | the invariant holds in every state of every interleaving |
| ExitWait.SleeperHasChild | RISCV xv6/kernel/proc.c:439-447 | in every state of every run, a process in sleep in wait2 has a child |
| ExitWait.WaitTurn | RISCV xv6/kernel/proc.c:405-448 | one turn of wait2: a zombie child is freed and its number collected, unless a copyout fails; at the end of the table a process that has a child and is not killed goes to sleep, and any other returns |
| ExitWait.WaitGivesUp | RISCV xv6/kernel/proc.c:439-443 | a process that is not killed, and meets no failed copyout, leaves wait2 without collecting only if no process has it as parent |
| ExitWait.WaitCanGo | RISCV xv6/kernel/proc.c:405-448 | wait2's scan always has a step to take, but for the lock of the child it looks at |
| ExitWait.ParentMoves | RISCV xv6/kernel/proc.c:280-448 | the parent of a process changes only when its parent forks it, gives it to init in exit, or collects it as a zombie |
| ExitWait.ForkedChild | RISCV xv6/kernel/proc.c:280-327 | the process that fork makes runnable has the forker as its parent, and a number that no process has or had |
| ExitWait.KilledSleeper | RISCV xv6/kernel/proc.c:440-446 | throughout a run, a killed process is in sleep in wait2 only if the kill came between its test and taking its own lock, and it has been in that sleep since |
| ExitWait.KillMissed | RISCV xv6/kernel/proc.c:606-624 | a run from the start in which a kill in that gap leaves the parent asleep with its flag set, every lock free and its child running |
| WaitWakeup.ExitWaitSafe | RISCV xv6/kernel/proc.c:331-448 | a parent is never UNUSED or ZOMBIE; with wait_lock free no process asleep in wait2 has a ZOMBIE child, init included; every zombie has a parent to collect it and was not collected before |
| WaitWakeup.Simulates | RISCV xv6/kernel/proc.c:331-600 | every step of fork, exit, reparent, wait2 and kill is one step of SleepWakeup, or none, with wait_lock as the spinlock and one channel for each process |
| WaitWakeup.ZombieParentWoken | RISCV xv6/kernel/proc.c:331-448 | in every state of every run, a process in sleep in wait2 that has a zombie child, by exit or by reparent, is just being woken by the holder of wait_lock, whose loop has not come past it |
| ExitWait.GivenToInit | RISCV xv6/kernel/proc.c:331-341 | handing a child, zombie or not, to init in reparent's loop keeps the invariant |
| ExitWait.ReapInv | RISCV xv6/kernel/proc.c:416-436 | freeing a zombie child keeps the invariant: no process has it as its parent |
| ExitWait.CollectedOnce | RISCV xv6/kernel/proc.c:416-436 | a zombie's process number was not collected before, so each is freed by at most one wait2 |
| SleepLock.StepInv | RISCV xv6/kernel/sleeplock.c:22-41 | every step of acquiresleep, releasesleep, sleep, wakeup and kill keeps the invariant |
| SleepLock.TestingTurn | RISCV xv6/kernel/sleeplock.c:22-31 | at the test of the loop a process takes the lock exactly when it is free and sleeps exactly when it is not |
| SleepLock.SleepLockSafe | RISCV xv6/kernel/sleeplock.c:22-41 | in every run at most one process holds the lock; whoever is in sleep on a free lock is one that the holder of the spinlock is still to wake, and when the spinlock is free too, nobody is |
| SleepLock.Simulates | RISCV xv6/kernel/sleeplock.c:22-41 | every step of the sleep lock is one step of SleepWakeup, with the lock's spinlock and the lock itself as channel |
| SleepWakeup.StillToReach | RISCV xv6/kernel/proc.c:556-600 | for any locks and channels: once another process has held lk after p entered sleep(chan, lk), and starts wakeup(chan), with or without lk, then as long as p has not been made runnable that wakeup's loop is under way and has not come past p |
| SleepWakeup.NoLostWakeup | RISCV xv6/kernel/proc.c:556-600 | so when that process is out of the loop, p has been made runnable since it entered sleep |
| SleepWakeup.NapEnds | RISCV xv6/kernel/proc.c:587-624 | a sleep ends only by a wakeup of its own channel coming to that process, or by a kill of it: wakeup(chan) leaves sleepers on other channels asleep |
| SleepWakeup.LostWithoutLock | RISCV xv6/kernel/proc.c:556-600 | a run in which wakeup is called without ever holding lk, passes a process that has called sleep but not yet taken its own lock, and leaves it in sleep |
| SleepWakeup.RunInv | RISCV xv6/kernel/proc.c:556-620 | in every run a process on its way into sleep holds lk and then its own lock, and is SLEEPING on its channel only there |
| Pipe.EmptyAndFull | RISCV xv6/kernel/pipe.c:88-118 | the 32-bit comparisons of the counters say empty and full correctly across wrap, and their difference is the number of bytes in the pipe |
| Pipe.Pipe.Write | RISCV xv6/kernel/pipe.c:77-103 | appends the bytes in order until done, sleeping exactly on a full pipe, failing exactly without a reader |
| Pipe.Pipe.Read | RISCV xv6/kernel/pipe.c:106-130 | returns the next produced bytes, as many as there are up to n; sleeps exactly on an empty pipe with a writer |
| Pipe.Pipe.Close | RISCV xv6/kernel/pipe.c:59-74 | closes one end; the pipe is freed exactly when both are closed |
| Pipe.Pipe.Size | RISCV xv6/kernel/pipe.c:88-118 | nwrite - nread modulo 2^32 is the number of bytes produced and not consumed, at most 512 |
| PipeWakeup.Simulates | RISCV xv6/kernel/pipe.c:59-130 | every step of pipewrite, piperead and pipeclose, of any processes, is one step of SleepWakeup, or none |
| PipeWakeup.SleepersHaveReason | RISCV xv6/kernel/pipe.c:59-130 | in every state of every run, a writer in sleep has 512 bytes in the pipe and an open reader, and a reader no byte and an open writer, or the holder of pi->lock owes it a wakeup or is still to reach it in one; or, for a reader, a killed writer left while it slept so |
| PipeWakeup.CanGo | RISCV xv6/kernel/pipe.c:77-130 | whoever holds pi->lock in the loop of piperead or pipewrite always has a step to take |
| PipeWakeup.ReadTurn | RISCV xv6/kernel/pipe.c:113-119 | at the test of its loop a reader sleeps, or gives up if killed, exactly when there is no byte and a writer is open, and goes on to take bytes otherwise |
| PipeWakeup.WriteTurn | RISCV xv6/kernel/pipe.c:83-101 | at the test of its loop a writer with bytes left gives up exactly when killed or without a reader, goes on to sleep exactly on 512 bytes, and puts a byte in otherwise |
| PipeWakeup.ReadStretch | RISCV xv6/kernel/pipe.c:106-130 | a stretch of piperead under pi->lock, step by step: it ends in sleep exactly on an empty pipe with a writer, and otherwise takes as many bytes as there are, up to n |
| PipeWakeup.WriteStretch | RISCV xv6/kernel/pipe.c:77-103 | a stretch of pipewrite under pi->lock: how many bytes it puts in, and whether it ends asleep on a full pipe, done, or without a reader |
| PipeWakeup.ReadAgrees | RISCV xv6/kernel/pipe.c:106-130 | on a pipe with those counts, what the steps of a reader do is what Pipe.Read does: the same sleep, the same number of bytes |
| PipeWakeup.WriteAgrees | RISCV xv6/kernel/pipe.c:77-103 | and what the steps of a writer do is what Pipe.Write does |
| PipeWakeup.WritersSafe | RISCV xv6/kernel/pipe.c:77-130 | with pi->lock free no writer, killed or not, sleeps on a pipe that is not full or has no reader |
| PipeWakeup.ReadersSafe | RISCV xv6/kernel/pipe.c:77-130 | throughout a run, with pi->lock free no reader sleeps on a pipe that has a byte or no open writer, if and only if no killed writer ever takes the early exit of pipewrite while a reader sleeps so |
| PipeWakeup.KilledWriterStrandsReader | RISCV xv6/kernel/pipe.c:84-87 | a run in which that exit leaves a reader asleep with a byte in the pipe |
| Shell.RoundTrip | RISCV xv6/user/sh.c:335-453 | parsing the fully parenthesised printing of any command tree gives back the tree |
| Shell.LineRoundTrip | RISCV xv6/user/sh.c:352-453 | so it does inside a parenthesis, and what follows is left unread |
| ShellSyntax.ReadsWritten | RISCV xv6/user/sh.c:335-453 | every command line as a user writes it, with redirections before and among the words, pipes, lists, & and parentheses where needed, and any spacing, is parsed to its meaning: every word and every redirection in order, with mode and descriptor |
| ShellSyntax.OnlyWritten | RISCV xv6/user/sh.c:335-453 | and the parser accepts nothing else: whatever it accepts is such a line, and its tree is what that line means |
| ShellSyntax.PlainRoundTrip | RISCV xv6/user/sh.c:335-453 | printing any such line with single spaces and no added parentheses, and parsing it, gives its tree |
| ShellParser.Parser.Gettoken | RISCV xv6/user/sh.c:273-315 | the kind, text and place of the next token, and the cursor at the one after it |
| ShellParser.Parser.PeekTok | RISCV xv6/user/sh.c:318-327 | whether one of the characters comes next, past the spaces |
| ShellParser.Parser.ParseRedirs | RISCV xv6/user/sh.c:382-404 | the redirections that the grammar gives, or a panic exactly when it gives none |
| ShellParser.Parser.ParseExecCmd | RISCV xv6/user/sh.c:423-453 | the command that the grammar gives, argv within MAXARGS, or a panic exactly when there is none |
| ShellParser.Parser.ParseBlock | RISCV xv6/user/sh.c:407-420 | the same for a block |
| ShellParser.Parser.ParsePipeCmd | RISCV xv6/user/sh.c:369-379 | the same for a pipeline |
| ShellParser.Parser.ParseLineCmd | RISCV xv6/user/sh.c:352-366 | the same for a line, and it terminates on every input |
| ShellParser.Nulterminate | RISCV xv6/user/sh.c:457-500 | every word of the tree is followed by a zero byte, and no word character of the input is lost |
| ShellParser.CutReads | RISCV xv6/user/sh.c:457-500 | then every word and file name, read as a C string, equals its token |
| ShellParser.Parsecmd | RISCV xv6/user/sh.c:335-349 | a panic exactly when the line is no command, and otherwise the grammar's tree with every word a C string in the buffer |
| Grep.OneStep | RISCV xv6/user/grep.c:92-93 | a character item matches exactly when the next character fits and the rest matches what follows |
| Grep.StarStep | RISCV xv6/user/grep.c:98-105 | a starred item matches exactly when some run of fitting characters leaves a text that the rest matches |
| Grep.EndStep | RISCV xv6/user/grep.c:90-91 | a trailing '$' matches exactly at the end |
| Grep.PatternOfItems | RISCV xv6/user/grep.c:84-95 | every pattern string is the writing of the items it reads as: a character, a character with a star, or a last dollar |
| Grep.ItemsOfPattern | RISCV xv6/user/grep.c:84-95 | and every list of items that can be written so is what its writing reads as |
| Grep.Anchored | RISCV xv6/user/grep.c:72-81 | a pattern after ^ matches exactly at the beginning of the text, and any other exactly at some place in it |
| Grep.Match | RISCV xv6/user/grep.c:72-81 | 1 exactly when some part of the text has a decomposition into words that the pattern's items cover, from the beginning after '^' |
| Grep.MatchHere | RISCV xv6/user/grep.c:84-95 | 1 exactly when the text has such a decomposition at its beginning |
| Grep.MatchStar | RISCV xv6/user/grep.c:98-105 | 1 exactly when some run of c leaves a text that the rest of the pattern matches |

## Left out

- Hypotheses of the log: one device with a nonzero number, logged blocks outside the log area, a log of more than LOGSIZE blocks, callers that modify, log_write and release a buffer in this order, and bunpin called by a holder.
- BufferCache.Cache.Bget: the sleep lock of a buffer is not part of the cache class; LogProtocol has the locks, and SleepLock the lock itself.
- LogProtocol.StepKeepsInv: one turn of the loops of commit and of recovery is one step, because the block write in it is what a crash can cut; where the kernel would panic for lack of buffers the event is not enabled.
- FileSystem.FileSystem.Readi: copies to and from user addresses succeed; the exits for a failed copyin or copyout are not modelled.
- FileSystem.FileSystem.Iupdate: type, device and link count of an inode, which it also stores, are not modelled and their words stay; ialloc, iget, ilock and iput are left out.
- CrashSafeFiles.CrashSafeWrite: the transaction is one writei; FilesAtomic covers transactions of several operations. That the log's cache holds the file system's blocks is taken from LogProtocol, not proved by composing the classes.
- Directory.Unlink: the check that a removed directory is empty and the link counts are left out.
- Paths.Namex: inode types are given as a set of directories, and reference counts and inode locks are left out; every entry is taken to name an inode.
- VirtualMemory.Machine.Mappages: leaf permissions must have one of the bits R, W and X, as all callers' have, and va + size is taken not to wrap around 64 bits.
- VirtualMemory.Machine.Uvmunmap: what it does before a panic is not stated; pages to be freed must be in use for the range only, because freeing a page that is in use elsewhere breaks the allocator, and pages unmapped without freeing must not be recorded as user memory.
- walkaddr, copyin, copyout, copyinstr, uvmclear, uvmfirst and the kernel page table: they would only add reads and one-page cases of what is here.
- ExitWait.StepInv: open files, user memory and exit status are left out; a copyout of wait2 may fail, as its own step, wherever one is made; process numbers do not overflow.
- SleepLock.StepInv: one sleep lock; a process sleeping elsewhere is outside it.
- SleepWakeup.StillToReach: the checks that acquire, release and sched make (holding twice, sched with other locks) are left out, so processes may do more than the kernel lets them.
- GroupCommit.CrashLeavesLastCommit: that the operations sharing a commit leave a file system in order is a hypothesis, proved for each operation alone in FileSystem and Directory; their interleaving under inode locks is not modelled.
- Pipe.Pipe.Write: the exits of killed processes and of failed copies, and the wakeups, are in PipeWakeup, which counts the bytes but does not carry them.
- ShellParser.Parser.ParseRedirs: the redirections are returned and wrapped around the command by the caller, because the source wraps a command whose arguments it fills in later; sharing between tree nodes is not modelled.
- Virtqueue.VirtioDisk.DeviceComplete: the transfer is one step, made at completion, and two requests never share a buffer or a block, which the buffer cache guarantees.
- Memory barriers, interrupts, the scheduler's context switch and spinlocks below acquire and release.
- Assembly, traps, the console, UART, PLIC, ELF loading, system call plumbing, the other user programs, malloc, getcwd and the history shell.
