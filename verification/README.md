# Verified models of an xv6 kernel

This project models the stateful layers of an xv6-riscv kernel with extra schedulers, and
three of its user programs, and proves what they promise. Everything is Dafny; the models
are split by layer, and each layer keeps two views apart: a mathematical state with its
invariant and its theorems, and classes whose methods have the loops, branches and updates
of the C code and are proved against that state.

| files | what they model |
|---|---|
| RedoLog, LogSpace, Log | the write-ahead log: disk writes one block at a time, a crash after any of them, recoveries that crash too; the reservation of log space |
| BufList, BufCache, Bio | the buffer cache: its linked list, and what buffers hold while clients lock, change, log, write and release them |
| LogBuffers, CommitRuns, CommitTrace | commit on the buffer cache, alone and interleaved with every other user of it, and a crash at any moment of that |
| FsBlocks, FsFiles, FsOps, FsTight | bitmap, direct and indirect blocks, files as byte sequences, the write loop and its transactions |
| PageTables, VmEffects, PageCount, Vm, AddressSpaces | physical pages and their number, page tables, and the address spaces of all processes |
| Mmu, Isolation | Sv39 translation as the hardware does it (section 4.4 of the RISC-V Privileged Architecture, version 20211203), and what programs can touch through the tables of the kernel |
| WaitExit, WaitProgress | exit, wait, sleep and wakeup of any number of processes, interleaved at their lock operations |
| Mlfq | the multi-level feedback queue with aging, on one processor |
| VirtQueue, VirtioDisk | driver and device around the split virtqueue (sections 2.6 and 5.2 of VIRTIO 1.1) |
| HeapBlocks, Umalloc | malloc and free of the user library |
| ShellGrammar, ShellLex, ShellMeaning, Shell | the shell's lexer, parser and in-place termination of strings, and what a parsed line says in terms of its characters |
| Grep | the regular expression matcher |
| Pipe | the pipe's ring under 32-bit counters |
| Basics, Params | notions and limits shared by the models |

How to read them. A class keeps the C data in its fields; fields and parameters marked
`ghost` are bookkeeping for the proof (who owns a block, which requests are under way).
`Inv`, `Valid` and their relatives are invariants; they are stated clause by clause as
small predicates over one or two elements. Relations such as `Alloced`, `Unmaps`,
`Written` or `Trimmed` say what an operation changes and that the rest stays.

Where code and comments disagree, the code is followed. `log_write` tests for a full log
before it looks for the block in the log, so a call that has used its allowance and logs a
block again can panic although its comment speaks of absorption: `LogSpace.RelogCanPanic`
reaches such a state and `LogSpace.LogWriteSafeIff` gives the exact condition. The log and
the buffer cache have the same number of blocks, so that a transaction that fills the log
pins every buffer and commit finds none for the log's own blocks
(`LogBuffers.FullLogStopsCommit`); `LogBuffers.CommitHasRoom` gives the exact condition.
`malloc` passes the bytes it needs to `sbrk` as an int: `Umalloc.AskedIff` says from what
size on that is not what it goes on to use.

## Model

| member | source | states |
|---|---|---|
| RedoLog.CrashAtomicity | kernel/log.c:66-204 | a crash after any prefix of commit's block writes, then any number of crashed recoveries and one that completes, leaves the home blocks exactly as before the transaction if the header was not reached, else exactly as after it, and the log empty |
| RedoLog.RunAtomicity | kernel/log.c:66-204 | over any sequence of transactions, each completing or crashing anywhere with crashed recoveries after it, the home blocks equal those of a disk that applies each durable transaction at once |
| RedoLog.CommitLeavesInDoubt | kernel/log.c:194-204 | after any prefix of commit's writes the disk is in one of the two states recovery can resolve, decided by whether the header write was reached |
| RedoLog.RecoverInDoubt | kernel/log.c:66-124 | recovery interrupted after any number of writes keeps such a state resolvable; a complete one resolves it and empties the log |
| RedoLog.RecoveriesInDoubt | kernel/log.c:117-124 | so does any number of interrupted recoveries in a row |
| RedoLog.CompleteCommit | kernel/log.c:194-204 | all of commit's writes together install the transaction and leave the log empty |
| RedoLog.HeaderUnique | kernel/log.c:87-115 | a header block read back gives exactly the list of block numbers written into it |
| LogSpace.ReservationSafe | kernel/log.c:127-236 | in every interleaving of begin_op, log_write and end_op within the allowance, the logged blocks and what outstanding calls may still add never exceed LOGBLOCKS, blocks are distinct, no panic is reachable, and a commit runs only with no call outstanding |
| LogSpace.NextKeepsInv | kernel/log.c:127-236 | each of the steps keeps that invariant |
| LogSpace.NoPanic | kernel/log.c:147-236 | from a state that keeps it, no step within the allowance panics: neither a full log, nor a log_write outside a call, nor an end_op during a commit |
| LogSpace.NothingLost | kernel/log.c:127-236 | in every run the log lists exactly the blocks logged since the last commit, in order and once each, outstanding is the number of calls begun and not ended, and a commit runs only when there are none, and does whenever there are none and something is logged |
| LogSpace.RelogCanPanic | kernel/log.c:215-236 | a run within the allowance reaches a full log in which logging an already logged block panics |
| LogSpace.LogWriteSafeIff | kernel/log.c:215-236 | log_write inside a call panics exactly if the log is full, which it is not while the caller has allowance left |
| LogSpace.SparingIsSafe | kernel/log.c:127-236 | in every interleaving of calls that never log a block after MAXOPBLOCKS distinct ones, each call is within its allowance, so that the log is never over-committed and no panic is reachable |
| Log.LogManager.constructor | kernel/log.c:53-63 | initlog on any readable disk leaves the disk recovery leads to, an empty log and a manager every operation can be called on |
| Log.LogManager.WriteHead | kernel/log.c:103-115 | one block write: the header with the current block list, the rest of the block as it was |
| Log.LogManager.ReadHead | kernel/log.c:87-98 | the block list is the one the header on disk holds |
| Log.LogManager.InstallTrans | kernel/log.c:66-84 | each logged block is copied to its home in order, the header is untouched, and after a commit the buffers are unpinned |
| Log.LogManager.WriteLog | kernel/log.c:179-192 | the cached contents of the logged blocks go to the log area in order |
| Log.LogManager.CommitWritesOut | kernel/log.c:194-204 | commit makes exactly the writes log, header, homes, empty header, or none for an empty transaction |
| Log.LogManager.RecoverFromLog | kernel/log.c:117-124 | recovery makes exactly the writes homes and empty header for the header found on disk; the disk is then that of RedoLog's recovery, with no transaction on it |
| Log.LogManager.BeginOp | kernel/log.c:127-143 | a call is admitted exactly if no commit runs and n + (outstanding + 1) * MAXOPBLOCKS is at most LOGBLOCKS, and is then counted; otherwise nothing changes |
| Log.LogManager.Find | kernel/log.c:226-229 | the slot that records the block, or the number of logged blocks if none does |
| Log.LogManager.LogWrite | kernel/log.c:215-236 | whoever calls it inside a call: the block and its contents are in the transaction once, or it panics exactly if the log is full, which it is not while the caller has allowance left |
| Log.LogManager.EndOp | kernel/log.c:147-165 | the call is no longer counted, and exactly the last one that is outstanding sets committing and must commit |
| Log.LogManager.Commit | kernel/log.c:194-204 | afterwards the home blocks are those of the whole transaction, the log is empty, and the writes made are those of CrashAtomicity |
| Log.LogManager.CommitDone | kernel/log.c:167-175 | calls may be admitted again |
| Log.LogManager.CommitCrashSafe | kernel/log.c:194-204 | whatever the device holds when power fails inside the commit method, recovery turns into the state before or after it |
| BufList.Unlinked | kernel/bio.c:128-129 | unlinking a buffer leaves the list of all others in order |
| BufList.Pushed | kernel/bio.c:130-133 | pushing a buffer puts it first and keeps the rest in order |
| BufList.FrontByStamp | kernel/bio.c:126-134 | a list ordered by last move to the front stays so |
| BufList.FrontPermutes | kernel/bio.c:126-134 | moving a buffer to the front keeps the list a permutation |
| BufCache.NextKeepsInv | kernel/bio.c:58-151 | every step of cache and clients keeps: reference count equals users plus one if the block is in the open transaction, no two buffers for a block, unchanged valid buffers hold the latest contents, logged blocks stay cached |
| BufCache.ReadersSeeLatest | kernel/bio.c:92-103 | in every run a valid buffer its holder has not changed has the latest logged or written contents of its block, and no other buffer has that block; commit's own steps are such runs by CommitRuns.CommitsAreRuns |
| BufCache.PinnedStays | kernel/bio.c:139-151 | in every run a block of the open transaction is in a valid buffer that cannot be recycled |
| BufCache.UnpinKeepsLatest | kernel/log.c:66-84 | unpinning a block that has reached its home does not change what readers see; that it has is proved in LogBuffers.CachedLog.InstallBlock and CommitRuns.GoIsStep |
| BufCache.LatestChanges | kernel/bio.c:58-151 | the latest contents of a block change only when it is logged or written |
| Bio.BufferCache.constructor | kernel/bio.c:36-53 | all buffers are free and in the list |
| Bio.BufferCache.BuildList | kernel/bio.c:43-52 | the loop links every buffer into the list exactly once |
| Bio.BufferCache.Bget | kernel/bio.c:58-89 | the block's buffer if it is cached, else the unused buffer that was released longest ago, invalid and renamed; it panics exactly if the block is not cached and no buffer is unused |
| Bio.BufferCache.Find | kernel/bio.c:66-73 | the buffer of the block, or none has it |
| Bio.BufferCache.LeastRecent | kernel/bio.c:77-86 | the unused buffer every other unused one was released after, or none is unused |
| Bio.BufferCache.Bread | kernel/bio.c:92-103 | the locked buffer has the latest contents of its block, from memory or from disk |
| Bio.BufferCache.BreadBlock | kernel/bio.c:58-103 | bget and the lock: the block's latest contents in a held buffer, every other buffer as it was; it panics exactly if the block is not cached and no buffer is unused |
| Bio.BufferCache.Bwrite | kernel/bio.c:106-112 | the block on disk is the buffer's data; what is on disk for a block of the open transaction may only be what was logged |
| Bio.BufferCache.LogWrite | kernel/bio.c:139-144 | the buffer is pinned once per transaction and its data are the latest contents |
| Bio.BufferCache.Bunpin | kernel/bio.c:146-151 | the block leaves the transaction and the pin is gone; its caller install_trans is proved to call it only when the home block holds what was logged |
| Bio.BufferCache.Brelse | kernel/bio.c:116-137 | lock and reference are given up; a buffer without references moves to the front and the list stays a permutation ordered by last move |
| Bio.BufferCache.MoveToFront | kernel/bio.c:126-134 | the six pointer updates put the buffer first and keep all others in order |
| LogBuffers.CachedLog.constructor | kernel/log.c:53-63 | an empty transaction over a cache with nothing logged |
| LogBuffers.CachedLog.ReadBoth | kernel/log.c:75-76 | the log block and the home block are read into two held buffers with their latest contents, or one of the two reads panics for want of a buffer |
| LogBuffers.CachedLog.SaveBlock | kernel/log.c:184-191 | one round of write_log: the log block on disk is what was logged for the home block; all references, locks and pins are as before; it panics exactly if the log block cannot be read |
| LogBuffers.CachedLog.WriteLog | kernel/log.c:179-192 | exactly if every log block can be read, each holds what was logged, in order, and nothing else on disk has changed |
| LogBuffers.CachedLog.WriteHead | kernel/log.c:103-115 | the header on disk has the block list; all references are as before; it panics exactly if the header cannot be read |
| LogBuffers.CachedLog.InstallBlock | kernel/log.c:71-83 | one round of install_trans: memmove into the pinned buffer, bwrite and bunpin are all allowed, the home block has the contents of the log block, and the block leaves the transaction |
| LogBuffers.CachedLog.InstallTrans | kernel/log.c:66-84 | afterwards nothing is logged or pinned, no reader of any block sees a difference, and the block writes are RedoLog's |
| LogBuffers.CachedLog.Publish | kernel/log.c:197-199 | write_log and write_head: the whole transaction is in the log on disk, and no reader of a home block sees a difference |
| LogBuffers.CachedLog.Retire | kernel/log.c:200-202 | install_trans and write_head: the log is empty on disk and in memory |
| LogBuffers.CachedLog.Commit | kernel/log.c:194-204 | it panics exactly if a block of the log can find no buffer; else nothing is logged or pinned, every reader of a home block sees what it saw, and the block writes are exactly the list RedoLog.CrashAtomicity is about |
| LogBuffers.CommitHasRoom | kernel/log.c:194-204 | with nobody else at a buffer, commit finds its buffers exactly if the transaction has fewer blocks than the cache has buffers |
| LogBuffers.FullLogStopsCommit | kernel/param.h:9-11 | with NBUF buffers, a transaction of LOGBLOCKS blocks leaves none for the log's header |
| CommitRuns.CommitsAreRuns | kernel/log.c:66-204 | every interleaving of commits, operation by operation and with no guard on what disk or buffers hold, with all other users of the cache is a run of BufCache |
| CommitRuns.GoIsStep | kernel/log.c:66-192 | every bwrite of commit to a pinned block writes what was logged, every bunpin finds it at home, and no changed buffer is released, whatever others do in between |
| CommitRuns.MovesKeepInv | kernel/log.c:66-204 | every move keeps the invariant behind it: which log blocks hold what, and which buffers commit holds |
| CommitRuns.ReadersSeeLatestThroughout | kernel/bio.c:92-103 | at every point of every such interleaving, whoever holds a buffer it has not changed sees the latest contents of its block |
| CommitRuns.CommitIsInvisible | kernel/log.c:66-204 | while a commit runs nothing that happens changes what readers of a home block see, and when it ends nothing is logged |
| CommitTrace.MoveProgress | kernel/log.c:66-204 | while a commit runs among other users of the cache, the disk is the one it began on with the first so many of the writes of RedoLog's commit made, in order, and nothing else written |
| CommitTrace.BeginProgress | kernel/log.c:147-165 | a commit begins with none of its writes made, on a transaction of exactly the logged blocks and contents |
| CommitTrace.HeadProgress | kernel/log.c:103-115 | what write_head writes is the list of logged blocks, or the empty list, into the header found on disk |
| CommitTrace.CommitEnds | kernel/log.c:194-204 | a commit that ends has made all its writes: the homes hold the transaction and the log is empty |
| CommitTrace.CrashAnywhere | kernel/log.c:53-204 | power may fail at any moment of any interleaving of any number of commits with all other users of the cache, and again during recovery; recovery leaves the homes as they were when the running commit began, or with its whole transaction, decided by whether the header was written |
| FsBlocks.WordOfSetWord | kernel/fs.c:430-437 | an entry written into an indirect block reads back, and no other entry changes |
| FsBlocks.TakeInv | kernel/fs.c:66-89 | taking a free block keeps block ownership and every pointer and block of every inode |
| FsBlocks.LinkInv | kernel/fs.c:405-444 | entering a block in hand as a pointer keeps block ownership |
| FsBlocks.LinkSlots | kernel/fs.c:405-444 | the pointer leads to the block and every other pointer stays, also inside a new or changed indirect block |
| FsBlocks.ReleaseInv | kernel/fs.c:92-106 | the block of a pointer is marked in use when bfree gets it, so "freeing free block" is unreachable, and ownership is kept |
| FsBlocks.ClearInv | kernel/fs.c:448-476 | clearing a freed pointer keeps ownership although its block may already belong to another inode |
| FsBlocks.StoreInv | kernel/fs.c:528-562 | writing a data block changes no pointer and no block of another pointer |
| FsBlocks.NextInv | kernel/fs.c:405-562 | every single step of bmap, writei and itrunc keeps block ownership |
| FsBlocks.RunsKeepInv | kernel/fs.c:405-562 | so does every interleaving of steps on any set of inodes: a block is in use exactly if it is metadata or has one owner |
| FsBlocks.MkfsInv | mkfs/mkfs.c:92-112 | a file system as mkfs lays it out satisfies the invariant |
| FsBlocks.RunsFromMkfs | kernel/fs.c:405-562 | from there on, after every interleaving, no two pointers share a block and each leads to a block in use |
| FsBlocks.RunsLog | kernel/fs.c:66-562 | in every interleaving, every data block, indirect block and bitmap block that has changed has been passed to log_write |
| FsBlocks.NoSharedBlock | kernel/fs.c:405-476 | no two pointers, of one inode or of two, lead to the same block, and what they lead to is marked in use |
| FsBlocks.NextLeavesOthers | kernel/fs.c:405-562 | a step on one inode leaves pointers, blocks and progress of every other inode alone |
| FsBlocks.StepsCommuteIntoEnabled | kernel/fs.c:405-562 | a step an operation is about to take stays possible after a step on another inode, unless both take the same free block |
| FsFiles.WrittenStore | kernel/fs.c:538-551 | one turn of writei's loop extends the written range by exactly the bytes copied |
| FsFiles.FinishContents | kernel/fs.c:553-554 | with the new size the contents are the old ones with the written range replaced and, if need be, extended |
| FsFiles.FinishMapped | kernel/fs.c:553-554 | every block below the new size is there |
| FsFiles.OthersSame | kernel/fs.c:528-562 | the contents of every other file are unchanged by a write |
| FsFiles.SpliceSplice | kernel/file.c:155-172 | writing in pieces is writing the whole |
| FsFiles.TrimRelease | kernel/fs.c:448-476 | each block itrunc frees is in use and leaves exactly its pointer without an owner |
| FsFiles.TrimEmptied | kernel/fs.c:448-476 | when all pointers are done, exactly the inode's blocks have been freed and no other file has changed |
| FsOps.FileSystem.constructor | mkfs/mkfs.c:92-112 | every file is empty, nothing is under way and the invariant holds |
| FsOps.FileSystem.Balloc | kernel/fs.c:66-89 | the first free block, marked in use and zeroed, with bitmap block and block logged in that order; 0 only if none is free |
| FsOps.FileSystem.Bfree | kernel/fs.c:92-106 | the block is free again; the panic branch is never taken |
| FsOps.FileSystem.AddBlock | kernel/fs.c:412-417 | a block is allocated and entered as a pointer of the inode or of its indirect block; no file changes |
| FsOps.FileSystem.Bmap | kernel/fs.c:405-444 | the address of the block, unchanged if it was there, else a new zero block; 0 only on a full disk; at most one bitmap block is logged for it and one for a new indirect block |
| FsOps.FileSystem.LoadIndirect | kernel/fs.c:423-429 | the indirect block, allocated empty if it was missing |
| FsOps.FileSystem.Entry | kernel/fs.c:430-441 | the entry of the indirect block, allocated if it was missing |
| FsOps.FileSystem.Writei | kernel/fs.c:528-562 | the file holds the written bytes at the offset, extended if need be, all other bytes and files unchanged; rejected exactly past the end or past the largest size, short only on a full disk; every block that changed is logged, the inode's last, and fewer than LogBound before it |
| FsOps.FileSystem.WriteBlocks | kernel/fs.c:538-551 | the loop writes a prefix of the data, all of it unless the disk is full |
| FsOps.FileSystem.WriteBlock | kernel/fs.c:538-551 | one turn: the next bytes up to the end of a block |
| FsOps.FileSystem.WriteInode | kernel/fs.c:553-561 | size and disk inode after the loop |
| FsOps.ThreeBlocksFit | kernel/file.c:149-158 | at most MAXOPBLOCKS blocks are logged for any 3072 bytes, aligned or not |
| FsTight.TenBlocks | kernel/file.c:149-158 | the bound is attained: on disks with one free block under each of four bitmap blocks, the steps of a write of 3072 bytes that starts inside block 11 log exactly MAXOPBLOCKS blocks |
| FsOps.AccountsTurn | kernel/fs.c:538-551 | the tally of logged blocks after one more turn: a data block, a bitmap block only if it is new, the indirect block once |
| FsOps.AccountsBound | kernel/fs.c:528-562 | the tally of writei's loop leaves room within LogBound for the inode's block |
| FsOps.FirstBlockMapped | kernel/fs.c:528-562 | a write that starts inside a block finds that block already mapped |
| FsOps.FileSystem.Readi | kernel/fs.c:494-519 | the slice of the file, empty past its end or on wrap-around; nothing is allocated and nothing changes |
| FsOps.FileSystem.ReadBlocks | kernel/fs.c:504-517 | the loop returns exactly the requested slice |
| FsOps.FileSystem.ReadBlock | kernel/fs.c:504-517 | one turn: the bytes up to the end of a block; bmap never fails in it |
| FsOps.FileSystem.Itrunc | kernel/fs.c:446-476 | the file is empty, exactly the blocks it owned are free, every other file is unchanged, the disk inode agrees, and every block that changed is logged |
| FsOps.FileSystem.TrimDirects | kernel/fs.c:455-460 | the direct blocks are freed and their pointers cleared |
| FsOps.FileSystem.TrimEntries | kernel/fs.c:462-468 | the blocks of the indirect block's entries are freed |
| FsOps.FileSystem.TrimIndirects | kernel/fs.c:461-472 | the indirect block goes after its entries, and no pointer is left |
| FsOps.FileSystem.WriteOp | kernel/file.c:160-165 | one transaction of filewrite: its log_write calls cover every block that changed, they are for at most MAXOPBLOCKS blocks, and before each of them fewer than MAXOPBLOCKS had been logged, which by LogSpace.SparingIsSafe excludes the panic |
| FsOps.FileSystem.Filewrite | kernel/file.c:148-173 | the first bytes of the data, as many as the offset moved, are in the file, and all others are unchanged; n or -1; stops early only past the end, past the largest size or on a full disk; every transaction stays within the allowance of a call at each of its log_write calls |
| FsOps.FileSystem.WriteNext | kernel/file.c:155-172 | a further transaction extends what is written by what it returns |
| PageTables.PteRoundTrip | kernel/riscv.h:371-375 | PTE2PA and PTE_FLAGS undo PA2PTE with flags |
| PageTables.PxDigits | kernel/riscv.h:377-386 | the three 9-bit indices are the digits of the virtual page number, so distinct pages have distinct index triples |
| PageTables.LinkInv | kernel/vm.c:107-111 | a new zeroed table linked into the tree adds no mapping and keeps the invariant |
| PageTables.MapLeafInv | kernel/vm.c:166-168 | writing a leaf entry adds exactly one mapping |
| PageTables.UnmapLeafInv | kernel/vm.c:204-210 | clearing it removes exactly that mapping and, if asked, frees exactly its page |
| PageTables.DropTableInv | kernel/vm.c:262-278 | a table without entries can be given back: no link and no mapping goes through it |
| PageTables.KallocInv | kernel/kalloc.c:68-82 | the page leaves the free list and belongs to nobody else |
| PageTables.KfreeInv | kernel/kalloc.c:46-63 | a page that is in no table and mapped nowhere goes back exactly once |
| Mmu.TranslateIsFlat | kernel/vm.c:85-115 | for every 64-bit address the hardware's walk through the words in memory, superpages included, finds exactly the usable entry of a flat map from (address space, virtual page) to page-table entry |
| Mmu.ReachFlat | kernel/riscv.h:364-380 | which accesses go through and to what physical address, by mode and permission bits |
| Mmu.DataPage | kernel/vm.c:216-242 | an entry with the flags of user data can be read and written by user programs and not executed |
| PageCount.Conservation | kernel/kalloc.c:46-82 | the pages are those on the free list, one for each table, one for each mapping that owns its page, and those somebody outside the tables has |
| PageCount.Enough | kernel/vm.c:216-240 | mapping pages takes from the free list exactly the pages and the tables on the way that did not exist |
| PageCount.ShortLater | kernel/vm.c:226-236 | if the free list runs out at one of the pages, it was too short for all of them |
| PageCount.CopyNeed | kernel/vm.c:296-324 | what a copy of an address space takes, counted from the parent alone |
| Vm.Memory.constructor | kernel/kalloc.c:26-40 | exactly the whole pages between the two addresses are free |
| Vm.Memory.Kalloc | kernel/kalloc.c:68-82 | the first page of the free list, or none if it is empty |
| Vm.Memory.Kfree | kernel/kalloc.c:46-63 | the page is on the free list with junk in it |
| Vm.Memory.Walk | kernel/vm.c:97-115 | the bottom table of the address if it exists, built if asked; no mapping changes and no table is made off the way; it fails only without memory or, if not asked, without the table |
| Vm.Memory.WalkStep | kernel/vm.c:103-112 | one level of the walk |
| Vm.Memory.MapPage | kernel/vm.c:163-168 | exactly one mapping is added; "remap" is reported exactly if the page was mapped |
| Vm.Memory.Mappages | kernel/vm.c:145-174 | the flat map gains exactly the pages mapped so far, all of them unless memory ran out or a page was mapped already |
| Vm.Memory.UnmapPage | kernel/vm.c:199-211 | exactly one mapping is removed, or nothing if there is none |
| Vm.Memory.Uvmunmap | kernel/vm.c:192-212 | the flat map loses exactly the range, pages are freed exactly once if asked, all other entries stay |
| Vm.Memory.AllocPage | kernel/vm.c:226-236 | a page is allocated, filled and mapped exactly if the free list has a page for it and one for each missing table, else memory is as before but for new tables; "remap" is not reached |
| Vm.Memory.Uvmalloc | kernel/vm.c:216-240 | exactly if the free list has all the pages and tables needed, exactly the new pages are mapped, zeroed; on failure every mapping is as before and every page is back |
| Vm.Memory.Uvmdealloc | kernel/vm.c:246-258 | exactly the pages above the new size are unmapped and freed |
| Vm.Memory.Freewalk | kernel/vm.c:262-278 | all tables of the tree are free again and nothing else changes; "freewalk: leaf" is not reached on a tree without leaves |
| Vm.Memory.Uvmfree | kernel/vm.c:282-288 | the address space is gone with all its pages and tables |
| Vm.Memory.Uvmcreate | kernel/vm.c:178-187 | an empty address space, or none exactly if no page is free |
| Vm.Memory.Uvmcopy | kernel/vm.c:296-324 | exactly if the free list has all the pages and tables needed, the child has copies of exactly the parent's pages with the same flags; on failure its leaf map is as before |
| Vm.Memory.CopyPage | kernel/vm.c:304-317 | one page, or none if the parent has none there; it fails only if memory does not suffice for the whole copy |
| Vm.Memory.Vmfault | kernel/vm.c:452-473 | a zeroed page is mapped exactly if the address is below the size, its page was not mapped and the free list has a page for it and for each missing table |
| Vm.Memory.IsMapped | kernel/vm.c:475-486 | whether the flat map has the page |
| VmEffects.RollBack | kernel/vm.c:228-236 | allocating pages and unmapping them again restores every mapping, owner and page |
| VmEffects.FreedLast | kernel/vm.c:262-278 | the loop over all entries and the final kfree give back exactly the subtree |
| AddressSpaces.Kernel.Growproc | kernel/proc.c:277-302 | the size and exactly the pages between old and new size change, and new memory reads as 0 and can be written by the program; growing fails exactly if it would pass TRAPFRAME or the free list is too short, and then leaves all mappings |
| AddressSpaces.Kernel.GrowBy | kernel/proc.c:285-295 | growing: zeroed pages the program can read and write up to the new size, or, exactly if it would pass TRAPFRAME or the free list is too short, the old size and all old mappings |
| AddressSpaces.Kernel.ShrinkBy | kernel/proc.c:296-300 | shrinking unmaps and frees exactly the pages above the new size; below zero the size wraps and nothing changes |
| AddressSpaces.Kernel.Sbrk | kernel/sysproc.c:40-66 | the old size, or -1 exactly if growth would pass TRAPFRAME or, eagerly, the free list is too short; eager growth maps zeroed pages, lazy growth changes only the size, a shrink unmaps and frees exactly the pages above the new size |
| AddressSpaces.Kernel.Fault | kernel/vm.c:452-473 | a fault maps one zeroed page exactly if it is in promised memory, the page is not mapped and the free list suffices, and the retried access then goes through and reads 0; any other fault changes no mapping |
| AddressSpaces.Kernel.ProcPagetable | kernel/proc.c:214-248 | exactly TRAMPOLINE and TRAPFRAME are mapped, to the trampoline page with R and X and to the given trapframe page with R and W, neither for user mode, with three pages; on failure, exactly if there are not three, nothing is left behind |
| AddressSpaces.Kernel.MapFixed | kernel/proc.c:230-245 | a page the process does not own is mapped exactly if the free list has the tables it lacks; "remap" is not reached |
| AddressSpaces.Kernel.MapTrapframe | kernel/proc.c:239-245 | TRAPFRAME leads to the trapframe page; mapping it takes no page, so the branch for its failure is never taken |
| AddressSpaces.Kernel.ProcFreepagetable | kernel/proc.c:250-257 | the address space is gone; trampoline and trapframe pages are not freed with it |
| AddressSpaces.Kernel.Allocproc | kernel/proc.c:117-177 | a trapframe page and an address space without user memory, or, exactly if fewer than four pages are free, memory as before |
| AddressSpaces.Kernel.Userinit | kernel/proc.c:259-275 | the first process is added with size 0, exactly if four pages are free |
| AddressSpaces.Kernel.Fork | kernel/proc.c:304-355 | exactly if the free list has the trapframe, root, tables and pages a copy takes, the child has the parent's size and copies of its pages, shares none and no page is lost; on failure every page, table and mapping is as before |
| AddressSpaces.Kernel.Freeproc | kernel/proc.c:179-212 | exactly the pages, tables and trapframe of the process are free again, all other processes unchanged |
| AddressSpaces.AllKept | kernel/proc.c:277-302 | a change confined to one address space keeps every process well formed: leaves below its rounded size, size at most TRAPFRAME, trampoline and its own trapframe mapped where they belong, nothing shared, every table owned by a process, every other page in use a trapframe or the kernel's |
| AddressSpaces.EveryPageKept | kernel/proc.c:117-355 | no page is lost or shared: each is on the free list, or the kernel's, or has exactly one process as its keeper, and only one of these |
| Isolation.UserReaches | kernel/vm.c:85-172 | every user access that does not fault is below the rounded size and falls at the same offset of the page the process has for that address |
| Isolation.Isolated | kernel/proc.c:117-355 | no two user addresses, of one process or of two, reach the same byte, and none reaches a page table, a trapframe, a free page or a page of the kernel |
| Isolation.TopsReached | kernel/proc.c:214-248 | in every address space the supervisor executes the trampoline page at TRAMPOLINE and reads and writes the process's trapframe at TRAPFRAME; user mode can use neither |
| Isolation.OthersSee | kernel/proc.c:277-355 | an operation of one process leaves every access of every other process going where it went, to the same contents |
| Isolation.ChildSees | kernel/vm.c:290-330 | after fork the child can make exactly the accesses the parent could, and each finds the same page contents |
| WaitExit.WakeupsAreNotLost | kernel/proc.c:357-490 | in every run of any number of processes, whenever wait_lock is free no process is asleep in kwait, or past the point of no return before it, while a child of it, own or inherited, is a zombie |
| WaitExit.NextKeepsInv | kernel/proc.c:357-490 | every step of every process keeps the invariant behind it: state, place in the code and lock agree, free slots are clear, and what each parent and child have seen of each other |
| WaitExit.RunsKeepInv | kernel/proc.c:357-490 | so does every interleaving |
| WaitExit.BootInv | kernel/proc.c:57-69 | it holds at boot, with one process and all other slots unused |
| WaitExit.PairChild | kernel/proc.c:376-436 | an exiting process has woken its parent before it becomes a zombie, and the parent cannot go back to sleep until wait_lock is free |
| WaitExit.PairParent | kernel/proc.c:440-490 | a process that goes to sleep has seen all its children, and none has become a zombie since |
| WaitExit.PairWoken | kernel/proc.c:991-1009 | wakeup reaches a process that is going to sleep only once it sleeps, because it needs its lock |
| WaitExit.PairPassed | kernel/proc.c:357-371 | children passed to init are followed by a wakeup of init |
| WaitExit.WaitGivesUp | kernel/proc.c:480-485 | kwait returns without a child only if there is none or the caller was killed |
| WaitExit.NoOrphans | kernel/proc.c:357-371 | a zombie or a free slot is never anybody's parent |
| WaitExit.StepsAreLegal | kernel/proc.c:304-490 | a process changes state only so: born by fork, woken, dispatched, set aside or put to sleep by itself, a zombie by its own exit, and unused only when its parent reaps it; its parent changes only by fork, reparent and freeproc |
| WaitExit.StepsTakeEffect | kernel/proc.c:304-490 | and these do happen: the child of a fork is runnable and not killed, kill marks and wakes its target, and who has begun to exit never runs user code again |
| WaitExit.ReapFrees | kernel/proc.c:440-478 | when kwait returns with a child, exactly one slot, a zombie child of the caller, has become unused without parent, and all other processes are as before |
| WaitExit.ProcessesAreCounted | kernel/proc.c:304-490 | in every run from boot the slots in use are one plus the forks minus the children reaped |
| WaitProgress.ParentExists | kernel/proc.c:357-490 | in every run every process but init has a parent, which is neither unused nor a zombie |
| WaitProgress.WaitDecides | kernel/proc.c:480-489 | at the end of its scan kwait returns exactly if the caller was killed or has no child, and else goes to sleep |
| WaitProgress.HolderGoesOn | kernel/proc.c:357-490 | in every run who holds wait_lock can take its next step, or waits for the lock of a process that can |
| WaitProgress.NobodyStuck | kernel/proc.c:357-490 | in every run, while some process is on a processor inside kexit or kwait, some process can take a step: the locks never deadlock |
| WaitProgress.HoldsBriefly | kernel/proc.c:357-490 | wait_lock is held for at most a fixed number of the holder's steps |
| Mlfq.StarvationBound | kernel/proc.c:709-821 | once a runnable process has waited longer than starv_cut, each other process is dispatched at most once, plus once for each reuse of its slot, before it runs; so at most NPROC - 1 dispatches if none is created |
| Mlfq.StarvationBoundFromBoot | kernel/proc.c:709-821 | the same in every run from boot, for every process that comes to wait |
| Mlfq.WaitingStep | kernel/proc.c:709-821 | every step while it waits: a process dispatched is one not dispatched since |
| Mlfq.ChoiceIsNew | kernel/proc.c:748-769 | a choice made while it waits falls on a process that ran no later than it |
| Mlfq.NextKeepsInv | kernel/proc.c:709-821 | every step keeps 0 <= queue_level <= priority <= 2, time_slice within the quantum of the priority, and a positive slice above the bottom level |
| Mlfq.RunsKeepInv | kernel/proc.c:709-821 | so does every run |
| Mlfq.BootInv | kernel/proc.c:57-69 | it holds at boot, with one runnable process and all other slots unused |
| Mlfq.AgedOk | kernel/proc.c:720-730 | aging keeps the bookkeeping although it lowers only the level |
| Mlfq.AccountedOk | kernel/proc.c:788-809 | accounting and demotion keep it, also after kexit has charged the process already |
| Mlfq.SearchFinds | kernel/proc.c:748-769 | the search never overlooks a runnable process |
| Mlfq.ChosenIsUnique | kernel/proc.c:748-769 | the choice is determined: best level, longest ago, first slot |
| Mlfq.LevelByUse | kernel/proc.c:785-809 | in every run from boot a process that was never aged is at level 0, 1 or 2 exactly by whether it has used less than 5000, less than 15000 or more of its slices since it was created, and its slice is what is left of that |
| Mlfq.OneLongStretch | kernel/proc.c:785-809 | time on the processor is not what counts: one stretch of 15000 uses up one slice of 5000 and leads to level 1 |
| Mlfq.ProcTable.StarvationClean | kernel/proc.c:713-731 | exactly the runnable processes below the top level that have waited more than 10000000 move up one level, with that level's quantum; everything else stays |
| Mlfq.ProcTable.Search | kernel/proc.c:748-774 | the runnable process of the best level that ran longest ago, the first such; none only if none is runnable |
| Mlfq.ProcTable.Userinit | kernel/proc.c:259-275 | after procinit and userinit the table is a boot state |
| Mlfq.ProcTable.Dispatch | kernel/proc.c:748-783 | the process chosen is the one Chosen describes, and it alone changes: it runs, from now on; none is chosen exactly if none is runnable |
| Mlfq.ProcTable.Leaves | kernel/proc.c:785-815 | the process that yields, sleeps or exits is charged by the same rule as in Account, an exiting one twice, and all others stay; it is the step Return |
| Mlfq.ProcTable.OneTurn | kernel/proc.c:745-816 | one turn of the loop, whatever other processes do meanwhile, is a run of steps with one dispatch, or with none if nobody is runnable |
| Mlfq.ProcTable.ScheduleMlfq | kernel/proc.c:737-821 | everything the loop does is a run of the steps the bounds are about; it returns only when nobody is runnable |
| Mlfq.ProcTable.ChargeExit | kernel/proc.c:409-429 | kexit charges the elapsed time |
| Mlfq.ProcTable.Account | kernel/proc.c:788-809 | the time since it was dispatched is taken off the slice; if that uses it up above the bottom level, level and priority go down one and the slice is 5000, 10000 or 20000 by priority |
| VirtQueue.RingPush | kernel/virtio_disk.c:271-277 | writing the next slot overwrites no entry the other side has not seen, also when the 16-bit counter wraps |
| VirtQueue.RingPop | kernel/virtio_disk.c:312-323 | the slot at the counter holds the oldest unseen entry |
| VirtQueue.UnusedInv | kernel/virtio_disk.c:143-145 | a queue with all descriptors free and both rings empty keeps the protocol's invariant |
| VirtQueue.SubmitInv | kernel/virtio_disk.c:215-277 | queueing a request on three free descriptors keeps it |
| VirtQueue.ConsumeInv | kernel/virtio_disk.c:271-281 | what the device takes from the avail ring is a queued request |
| VirtQueue.CompleteInv | kernel/virtio_disk.c:294-327 | the device may complete its requests in any order |
| VirtQueue.Served | kernel/virtio_disk.c:237-268 | what the device does with the chain of a request, from its header, flags, addresses and lengths, is to read its block into its buffer, or write its buffer to its block, and set its status to 0 |
| VirtQueue.ReportInv | kernel/virtio_disk.c:312-324 | every used entry names a live request with status 0 and its own buffer |
| VirtQueue.RetireInv | kernel/virtio_disk.c:184-197 | freeing the chain of a finished request keeps the invariant |
| VirtQueue.RunsKeepInv | kernel/virtio_disk.c:156-327 | every interleaving of driver and device keeps it |
| VirtQueue.ChainsDisjoint | kernel/virtio_disk.c:156-327 | in every run each chain under way has three descriptors, none of them free, and no two chains share one |
| VirtQueue.OnlyWhatWasAsked | kernel/virtio_disk.c:215-327 | a block on disk changes only when a write to it completes, to the contents of the buffer; a buffer changes only by its owner outside requests, or when a read into it completes |
| VirtQueue.RequestDone | kernel/virtio_disk.c:215-291 | whatever other requests do meanwhile, when a request is reported its buffer and its block hold the same: for a write what the buffer held when it started, for a read what the disk held |
| VirtQueue.NeverStuck | kernel/virtio_disk.c:215-327 | a request under way always has a next step, of the device or of the driver |
| VirtioDisk.Disk.constructor | kernel/virtio_disk.c:143-145 | the queue starts with all descriptors free and both rings empty |
| VirtioDisk.Disk.AllocDesc | kernel/virtio_disk.c:155-166 | the first free descriptor, or none is free |
| VirtioDisk.Disk.FreeDesc | kernel/virtio_disk.c:168-182 | the descriptor is free and cleared; the panics are not reached |
| VirtioDisk.Disk.Alloc3Desc | kernel/virtio_disk.c:199-213 | three distinct free descriptors, or, exactly if fewer than three are free, everything as before |
| VirtioDisk.Disk.Start | kernel/virtio_disk.c:215-281 | the request for that buffer, block and direction is built, recorded and queued, or, exactly if fewer than three descriptors are free, everything is as before |
| VirtioDisk.Disk.Intr | kernel/virtio_disk.c:294-327 | exactly the requests in the used ring are reported, no data change, and the status panic is not reached |
| VirtioDisk.Disk.Finish | kernel/virtio_disk.c:283-291 | the request is gone and its three descriptors are free |
| VirtioDisk.Disk.FreeChain | kernel/virtio_disk.c:184-197 | the loop follows the chain and frees exactly its descriptors |
| HeapBlocks.BlocksDisjoint | user/umalloc.c:24-90 | no two blocks, free or live, overlap |
| HeapBlocks.TakeWholeInv | user/umalloc.c:75-77 | unlinking an exact fit keeps the list circular, sorted and coalesced and the tiling of memory |
| HeapBlocks.TakeTailInv | user/umalloc.c:78-82 | so does splitting the end off a larger block |
| HeapBlocks.GrowInv | user/umalloc.c:46-61 | memory from sbrk above all else becomes one more block |
| HeapBlocks.InsertPlainInv | user/umalloc.c:30-36 | linking a freed block in its place keeps the list sorted |
| HeapBlocks.InsertJoinInv | user/umalloc.c:33-35 | joining it with the block above keeps the tiling |
| HeapBlocks.MergeDownInv | user/umalloc.c:37-40 | joining it with the block below leaves the list fully coalesced |
| Umalloc.GivenInv | user/umalloc.c:24-44 | free keeps all of this, the block is no longer live, memory is the same, and a block at least as large is free |
| Umalloc.WalkStep | user/umalloc.c:73-89 | a walk that is back at its start has passed every free block |
| Umalloc.Allocator.Free | user/umalloc.c:24-44 | the block is no longer live and the list stays circular, sorted, coalesced and a tiling with the live blocks |
| Umalloc.Allocator.FindPlace | user/umalloc.c:30-32 | the search ends, at the header the block goes after |
| Umalloc.AskedIff | user/umalloc.c:52-54 | sbrk's int argument is the memory morecore goes on to use exactly if that is below two gigabytes |
| Umalloc.HugeRequest | user/umalloc.c:52-54 | for a request of the largest int it is negative |
| Umalloc.Allocator.Morecore | user/umalloc.c:46-61 | at least 4096 units are added and some free block is large enough, or nothing changes; more is claimed than asked for exactly from two gigabytes on |
| Umalloc.Allocator.Malloc | user/umalloc.c:63-90 | for every request: a new live block of enough units, disjoint from all live blocks. If a free block fits, the first one from the last place round the list is taken, from its end, and memory does not grow; else memory grows once, exactly if sbrk grants it and the size is below two gigabytes, and otherwise the result is 0 |
| Umalloc.Allocator.Take | user/umalloc.c:74-85 | a free block is taken whole or its end is split off |
| ShellGrammar.ParserIsGrammar | user/sh.c:333-452 | the recursive descent accepts a line exactly if the grammar derives it, and builds the one tree the grammar gives |
| ShellGrammar.LineSound | user/sh.c:350-365 | what parseline consumes is a line of the grammar with the tree it returns |
| ShellGrammar.LineComplete | user/sh.c:350-365 | every line of the grammar, followed by nothing or ')', is consumed exactly |
| ShellGrammar.SimpleComplete | user/sh.c:430-448 | every mix of words and redirections with fewer than MAXARGS words is consumed exactly |
| ShellLex.LineStrings | user/sh.c:421-452 | every argument and file name of a command is a word token of the line |
| ShellLex.EndsOutside | user/sh.c:454-499 | the end of a string never lies inside a string |
| ShellMeaning.LexIsTokens | user/sh.c:271-314 | the tokens are the one way to cut the line at blanks and symbols, character by character |
| ShellMeaning.LineTold | user/sh.c:333-452 | every word of the line is in its tree, and every redirection operator with the word after it |
| ShellMeaning.LineFrom | user/sh.c:333-452 | every redirection of the tree is an operator of the line with the word after it: '<' opens for reading as descriptor 0, '>' creates and truncates, '>>' creates, both as descriptor 1 |
| ShellMeaning.LineOrdered | user/sh.c:333-452 | arguments are in line order, a later redirection is outside an earlier one, and the left side of a pipe or list comes before the right |
| ShellMeaning.LineSays | user/sh.c:333-452 | all of this of the characters: the last character before the blanks before a file name, and whether it is doubled, decide mode and descriptor |
| Shell.Parser.Peek | user/sh.c:316-326 | whether the next token is one of the symbols; no token is consumed |
| Shell.Parser.GetToken | user/sh.c:271-314 | the next token with its span is consumed, NUL only at the end |
| Shell.Parser.Scan | user/sh.c:282-307 | the token that starts at the cursor |
| Shell.Parser.ParseRedirs | user/sh.c:380-403 | as the token parser: the redirections in order, each with the file, mode and descriptor that ShellMeaning.LineSays ties to its characters, or a panic for a missing file |
| Shell.Parser.ParseArgs | user/sh.c:433-448 | as the token parser: arguments and redirections, or a panic |
| Shell.Parser.ParseExec | user/sh.c:421-452 | as the token parser |
| Shell.Parser.ParseBlock | user/sh.c:405-419 | as the token parser |
| Shell.Parser.ParsePipe | user/sh.c:367-378 | as the token parser |
| Shell.Parser.ParseLine | user/sh.c:350-365 | as the token parser |
| Shell.Parser.Ampersands | user/sh.c:356-359 | one background node for each '&' |
| Shell.Parser.ParseCmd | user/sh.c:333-348 | parsing ends; it panics exactly if the grammar has no command for the line, else returns it; every string of it read as a C string is the word as lexed, every redirection is what the characters before its file say, no word is left out, and words and redirections are in line order |
| Shell.Parser.NulTerminate | user/sh.c:454-499 | NULs are written at the ends of the strings and nowhere else |
| Shell.StringsReadBack | user/sh.c:454-499 | after that every string reads back exactly |
| Grep.Match | user/grep.c:72-82 | ends, and is true exactly if the text contains a match under the denotation of the pattern, at its start after '^' |
| Grep.MatchHere | user/grep.c:84-96 | true exactly if a prefix of the text is a word of the pattern, reaching the end of the text after a final '$' |
| Grep.MatchStar | user/grep.c:98-106 | true exactly if some number of fitting characters is followed by a match of the rest |
| Grep.HereStar | user/grep.c:90-91 | a starred character matches zero or more fitting characters and then the rest |
| Grep.HereOne | user/grep.c:94-95 | a plain character or '.' matches one character and then the rest |
| Grep.HereEnd | user/grep.c:92-93 | a final '$' matches only the end of the text |
| Pipe.FifoRuns | kernel/pipe.c:76-134 | over any run of writes, reads and other steps, what was in the pipe and was accepted is what was delivered and is still in it, in order, never more than 512 bytes, while the 32-bit counters wrap |
| Pipe.DeliveredIsPrefix | kernel/pipe.c:76-134 | from an empty pipe, the bytes delivered are a prefix of the bytes accepted |
| Pipe.PutAppends | kernel/pipe.c:90-97 | a byte written to a pipe that is not full goes to the end of the queue |
| Pipe.GetRemoves | kernel/pipe.c:121-130 | a byte read from a pipe that is not empty comes from its front |
| Pipe.FullEmpty | kernel/pipe.c:86-121 | the tests on the wrapping counters say exactly when the pipe holds 512 bytes or none |
| Pipe.PipeBuffer.Write | kernel/pipe.c:76-103 | until it sleeps or returns: exactly the bytes counted are appended; -1 exactly for a closed or killed end with bytes left, sleep exactly on a full pipe |
| Pipe.PipeBuffer.Read | kernel/pipe.c:105-134 | until it sleeps or returns: exactly the bytes delivered leave the front; a byte that could not be copied out stays |
| Pipe.PipeBuffer.Copy | kernel/pipe.c:118-129 | the copy loop: all bytes asked for, or up to the first that cannot be copied, or all there were |
| Pipe.PipeBuffer.Close | kernel/pipe.c:58-74 | one end is closed; the pipe is freed exactly when both are |

## Left out

- Boot, traps, interrupt controllers, assembly, MMIO set-up and weak memory: the models start from initialised structures and assume locks exclude.
- kexec, path names, directories, the file table, system call argument fetching: not part of this model.
- copyin, copyout and copyinstr: memory is modelled in page-table words, and user copies in writei, readi and pipes succeed or fail as parameters say.
- Copies that fail inside writei leave a changed buffer unlogged in the source; FsOps covers successful copies.
- The round robin, FIFO, SJF and STCF schedulers and the run time statistics: argmin scans, and sums that the source adds up more than once.
- Sleep locks and spin locks: taken as given, except for sleep and wakeup of exit and wait.
- Inode allocation, reference counts and link counts: inodes are given by number, with their lock held by the operation.
- The free list of kalloc is a sequence, not links through the free pages.
- Bitmap bits are booleans, not bits in bytes of a buffer; the blocks that hold them appear as the blocks logged.
- The accessed and dirty bits of page-table entries are not modelled; Mmu takes the hardware to manage them.
- begin_op, pipewrite and virtio_disk_rw that have to wait are modelled up to where they sleep, and are called again.
- runcmd, getcmd and grep's read loop: system call plumbing.
- Umalloc.Allocator.Malloc: stops where memory would be overrun, and does not model 32-bit sizes of joined blocks above 64 gigabytes.
- Bio.BufferCache.Bread: starts when the sleep lock is free, and so do BreadBlock and the methods of LogBuffers; waiting for a lock held by another user is the Lock step of BufCache and the Take step of CommitRuns.
- LogBuffers.CachedLog.InstallTrans: in recovery it is shown to make the right block writes when every bread finds a buffer, not that it always does.
- VirtQueue.RequestDone: takes from the buffer cache that two requests under way are never for the same block.
- FsOps.FileSystem.constructor: the files mkfs copies in are not modelled; the file system starts with empty files.
- FsTight.TenBlocks: is about the steps of a write, with the blocks of other files in the hands of an operation on another inode.
- Mlfq.ProcTable.ScheduleMlfq: what happens between two clock readings is a parameter, and its loop ends with the list of these.
- WaitExit.NextKeepsInv: fork enters its child in one step under wait_lock, and locks of other processes are taken and released within one step.
- Mlfq.NextKeepsInv: one processor, as the build configures it; creating and freeing processes happens while one runs.
