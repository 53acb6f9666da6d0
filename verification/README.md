# A verified model of the xv6 core

This project models the parts of this xv6 fork where correctness rests on more than one
function, and proves what each part is for.

| modules | part of the system |
|---|---|
| LogMachine, LogProof, LogRuns, LogCode | the write-ahead log: crash atomicity over whole runs, waiting in begin_op, and the log code taking exactly the proved steps |
| LogBudget, LogPanic, LogAbsorb | space in the log: reservation, and exactly when log_write panics |
| Bcache | the buffer cache: one buffer per block, an LRU ring, and a logical view of the disk no cache operation changes |
| Blocks, Dinodes, Inodes, InodeCode, InodeTight | blocks, bitmap, inodes on disk, inode block trees and filewrite: exact block ownership, block trees as flat files, exact panics, and a log budget that is reached |
| LogAlone, FileCrash | the file system on the log: after a crash a write has happened or has not |
| Directory, Paths, Namespace, NamespaceLinks, NamespaceWalk, NamespaceCode | directories as finite maps, path walks as folds, link counts and the directory tree under create, link, unlink and iput, and the walks that meet a freed inode |
| Umalloc | the K&R heap: a sorted, coalesced circular free list, disjoint live blocks, conservation |
| PageTable, Kalloc, Vm, VmSpace | two-level page tables as a flat map, conservation of frames, mappages, setupkvm, allocuvm, deallocuvm, freevm and copyuvm with exact outcomes |
| SleepLock, ExitWait, Pipe | protocols as state machines over their steps: no lost wakeup, exit/wait, the pipe as a FIFO that blocks correctly |
| Shell, ShellPrint, ShellPlain, ShellGrammar, ShellCode | the command parser: a grammar, its print/parse round trip, the lines it accepts and their trees without the parser, and the cursor code that implements it |
| Grep | the regular-expression matcher against a declarative language, and patterns against their text |
| Options, CStrings | a shared datatype and a shared predicate |

Protocols and the log are state machines: a run is a sequence of labelled steps, and results
hold for every run. Code that works in place is a class with loops, and its contracts name
the specification functions or machine steps the theorems are about. A panic ends a run; it
is a label, an outcome or a failed result, and contracts say exactly when it happens.

Some promises do not hold as the code stands. For each there is a counterexample and a
condition that is necessary and sufficient:

- log_write refuses a transaction when the list holds `size - 1` entries, and mkfs makes the
  region LOGSIZE blocks, header included, so three operations that call it ten times each can
  panic (`LogPanic.PanicFreeIff`, `LogPanic.SmallLogPanics`). A full log also refuses a block
  it would absorb: operations that keep to k distinct blocks are safe exactly when `10 + 2k`
  stays below both limits (`LogAbsorb.AbsorbFreeIff`, `LogAbsorb.LargeBudgetPanics`).
- malloc serves a request exactly up to 0x7FFFFFF0 bytes; above, sbrk gets an argument that is
  not positive (`Umalloc.ServedIff`, `Umalloc.TwoGigabytes`).
- processes that wait for a sleep lock can all be stuck, exactly when everybody inside is
  asleep with the spinlocks free, and then the owner sleeps on another channel
  (`SleepLock.NoDeadlock`, `SleepLock.StuckRun`).
- a killed writer that finds the pipe full returns without waking the readers
  (`Pipe.AwakeIffPolite`, `Pipe.Stranded`), and a process killed between the killed test and
  the sleep sleeps on (`Pipe.PromptIffTimely`, `Pipe.KilledAsleep`).
- a file created in a directory that was removed while open has a link nobody accounts for,
  and link counts are 16-bit (`Namespace.RunIff`, `NamespaceLinks.InterleavedIff`,
  `Namespace.UnsoundRun`).
- a path can lead to an inode that has been freed, exactly by climbing out of removed
  directories (`NamespaceWalk.WalkPanicsIff`, `NamespaceWalk.OrphanRun`).
- a failed allocuvm unmaps the whole requested range, so it restores the old map exactly when
  no page of that range was mapped before (`Vm.AllocUvm`, `Vm.LosesPage`).
- kfree accepts a page that is free already, and then the free list has no end
  (`Kalloc.PhysMem.Free`, `Kalloc.TwiceFreed`).

Three quirks are kept as they are: `>>` opens a file exactly as `>` does (sh.c:388-393), `a & b`
is a syntax error because only `;` or the end can follow a `&` (sh.c:345-359), and kill(0) can
mark an unused slot, whose `killed` flag allocproc does not clear
(proc.c:600-617, proc.c:79-121).

## Model

| member | source | states |
|---|---|---|
| `LogMachine.SetHeader` | xv6-public/log.c:102-113 | the header block write_head builds is read back by read_head as exactly the list that was written |
| `LogProof.StepRefines` | xv6-public/log.c:70-233 | every step of every interleaving (operations, block copies, header writes, installs, evictions, crashes, recovery) keeps the log invariant and refines one atomic store: only log_write changes what is visible, only the header write of commit changes what is durable, and it makes durable exactly what was visible |
| `LogProof.LogWriteKeeps` | xv6-public/log.c:214-233 | log_write with absorption changes the visible contents at its block alone and keeps dirty buffers equal to the logged list |
| `LogProof.CommitKeeps` | xv6-public/log.c:193-202 | at the commit point the durable contents become the visible ones, and every logged block has its copy in the log |
| `LogProof.InstallKeeps` | xv6-public/log.c:70-82 | each install keeps the invariant: installed blocks equal their log copies, uninstalled ones stay pinned |
| `LogProof.InstallDurable` | xv6-public/log.c:70-82 | installing a block, once or again after a crash, does not change what recovery would produce |
| `LogProof.ClearingDurable` | xv6-public/log.c:193-202 | when all blocks are home the disk without the log stands for the same contents, so erasing the header loses nothing |
| `LogProof.FillFrame` | xv6-public/bio.c:97-106 | reading a block into the cache changes neither what is visible nor what is durable |
| `LogProof.EvictFrame` | xv6-public/bio.c:78-91 | recycling a clean buffer changes nothing; dirty (logged) buffers are the ones that may not be recycled |
| `LogRuns.CrashAtomicity` | xv6-public/log.c:70-233 | in every run, with a crash between any two block writes of commit or recovery, any number of times, what recovery would yield is the initial disk changed by a sequence of whole committed batches in order; no operation is split over two batches |
| `LogRuns.RecoveryExact` | xv6-public/log.c:116-122 | after a crash at any point and a recovery interrupted at will, the file system shows exactly the batches committed before the crash |
| `LogRuns.RecoveryCompletes` | xv6-public/log.c:116-122 | from every reachable crashed state recovery can run to its end with the header in range |
| `LogBudget.Reservation` | xv6-public/log.c:126-174 | in every run in which no operation adds more than MAXOPBLOCKS entries, the listed blocks plus the unspent reservations fit in LOGSIZE, a commit has no operation running, and the panic in end_op is unreachable |
| `LogRuns.SleepersWaitForSomeone` | xv6-public/log.c:126-174 | in every run, whoever sleeps in begin_op would still be refused now, and a committer or a running operation, which will call wakeup, is there |
| `LogRuns.SleepersWake` | xv6-public/log.c:126-174 | from every reachable state a run of commit steps, with at most one end_op before it, wakes every sleeper in begin_op |
| `LogPanic.BigLogSuffices` | xv6-public/log.c:214-219 | with more than LOGSIZE blocks in the region, no run in which each operation calls log_write at most MAXOPBLOCKS times meets the panic |
| `LogPanic.SmallLogPanics` | xv6-public/log.c:214-219 | with a region of at most LOGSIZE blocks some run within that budget meets the panic |
| `LogPanic.PanicFreeIff` | xv6-public/mkfs.c:25 | log_write is panic-free for operations within budget if and only if the log region has more than LOGSIZE blocks; mkfs makes it exactly LOGSIZE |
| `LogAbsorb.AbsorbFreeIff` | xv6-public/log.c:214-230 | for operations that add at most k entries and then write listed blocks again at will, 1 <= k <= 10, log_write is panic-free in every run if and only if 10 + 2k is below both LOGSIZE and the size of the log data area; absorption does not help a full log |
| `LogAlone.AllOrNothing` | xv6-public/log.c:126-233 | from an empty log on, with one operation writing and any number of crashes, recovery restores either the blocks from before it or all of its writes |
| `LogAlone.Performed` | xv6-public/log.c:126-233 | every list of writes that fits the log is made by some such run |
| `LogCode.Log.WriteLog` | xv6-public/log.c:178-190 | the loop performs exactly one copy step per listed block |
| `LogCode.Log.InstallTrans` | xv6-public/log.c:70-82 | the loop performs exactly one install step per listed block |
| `LogCode.Log.WriteHead` | xv6-public/log.c:102-113 | the written block carries the whole in-memory list |
| `LogCode.Log.LoadHeader` | xv6-public/log.c:86-96 | the in-memory list becomes the one in the header block |
| `LogCode.Log.Commit` | xv6-public/log.c:193-202 | the code takes exactly the steps of a commit and leaves a disk that alone stands for everything the system calls wrote |
| `LogCode.Log.RecoverFromLog` | xv6-public/log.c:116-122 | the code takes exactly the steps of a recovery and shows what the crashed disk stood for |
| `LogCode.Log.BeginOp` | xv6-public/log.c:126-142 | admits the operation exactly when no commit is under way and the reservation fits |
| `LogCode.Log.EndOp` | xv6-public/log.c:146-174 | never panics; the last operation out commits and afterwards disk and view agree |
| `LogCode.Log.Absorb` | xv6-public/log.c:224-230 | finds the block in the list or appends it, keeping entries distinct |
| `LogCode.Log.LogWrite` | xv6-public/log.c:214-233 | panics exactly when the list has LOGSIZE or size - 1 entries or no operation is open, and otherwise takes the log-write step |
| `Bcache.Unlink` | xv6-public/bio.c:132-133 | the two pointer assignments take one node out of a well-linked ring |
| `Bcache.PushFront` | xv6-public/bio.c:134-137 | the four pointer assignments put a node at the front of a well-linked ring |
| `Bcache.RecycleLogical` | xv6-public/bio.c:81-91 | recycling an idle clean buffer changes no block of the logical view |
| `Bcache.FillLogical` | xv6-public/memide.c:39-60 | reading into an invalid buffer yields the logical contents and changes no block of the view |
| `Bcache.DataLogical` | xv6-public/bio.c:110-116 | new data in a valid buffer changes the view at its block alone |
| `Bcache.Cache.constructor` | xv6-public/bio.c:39-56 | binit links all NBUF buffers into one ring |
| `Bcache.Cache.Find` | xv6-public/bio.c:68-76 | finds the buffer of a block if and only if there is one |
| `Bcache.Cache.FindIdle` | xv6-public/bio.c:78-82 | finds the least recently released idle clean buffer, or shows there is none |
| `Bcache.Cache.Bget` | xv6-public/bio.c:62-93 | shares the one buffer of a cached block, else recycles the least recently used idle one; fails exactly when there is none; the view never changes |
| `Bcache.Cache.Iderw` | xv6-public/memide.c:39-60 | writes a dirty buffer to its disk block or fills an invalid one, with each of its panics exactly when its test fails |
| `Bcache.Cache.Bread` | xv6-public/bio.c:97-106 | returns the logical contents of the block with one reference more and no other buffer touched, sleeps with a reference on a buffer that is locked, or panics exactly when there is no buffer or no such block; the view never changes |
| `Bcache.Cache.Locked` | xv6-public/bio.c:67-103 | once the lock is free the buffer gets the logical contents, from the disk if it was not valid |
| `Bcache.Cache.Bwrite` | xv6-public/bio.c:110-116 | the disk block and the view get the buffer data; all other blocks and buffers stay |
| `Bcache.Cache.Change` | xv6-public/log.c:231 | a buffer its holder has changed and pinned is what the view has for its block; every other block is as it was |
| `Bcache.Cache.Brelse` | xv6-public/bio.c:121-141 | drops one reference, and on the last one moves that buffer, and no other, to the front of the ring |
| `Blocks.SetWord` | xv6-public/fs.c:390-393 | storing one word of an indirect block is read back, and no other word changes |
| `Blocks.SetBit` | xv6-public/fs.c:67-68 | setting a bitmap bit sets that bit and no other |
| `Blocks.ClearBit` | xv6-public/fs.c:89-92 | clearing a bitmap bit clears that bit and no other |
| `Inodes.AllocKeeps` | xv6-public/fs.c:57-78 | balloc takes a block no slot owns, zeroes it, and leaves every slot and file as it was |
| `Inodes.AddrKeeps` | xv6-public/fs.c:378-388 | filling a direct slot gives that slot sole ownership of the new block and changes no file byte |
| `Inodes.EntryKeeps` | xv6-public/fs.c:389-396 | filling an indirect entry gives it sole ownership of the new block and changes no file byte |
| `Inodes.DataKeeps` | xv6-public/fs.c:500-504 | overwriting a file block changes that block of that file alone |
| `Inodes.FreedKeeps` | xv6-public/fs.c:82-95 | clearing the bit of a block whose slot is emptied keeps the bitmap exact |
| `InodeCode.FileSystem.Balloc` | xv6-public/fs.c:57-78 | returns the lowest free block, sets its bit and no other, fills it with zeros and leaves every other block; fails exactly when every bit is set |
| `InodeCode.FileSystem.MarkUsed` | xv6-public/fs.c:67-72 | sets the bit of the block and no other, fills the block with zeros, and leaves every other block |
| `InodeCode.FileSystem.Bfree` | xv6-public/fs.c:82-95 | clears exactly the bit of the block; the panic on a free block is exactly an already clear bit |
| `InodeCode.FileSystem.Bmap` | xv6-public/fs.c:373-400 | returns entry bn of addrs or entry bn - 12 of the indirect block, filling only missing slots; it panics if and only if bn is out of range or fewer blocks are free than it must allocate; no file byte changes and the logged blocks are bounded above and below |
| `InodeCode.FileSystem.Readi` | xv6-public/fs.c:453-477 | returns exactly the clipped slice of the flat file, fails exactly on its range test, and changes nothing |
| `InodeCode.FileSystem.Writei` | xv6-public/fs.c:483-512 | the flat file becomes c[..off] + src + c[off+n..] across the direct/indirect boundary and every other file is unchanged; it fails exactly on its range tests and panics if and only if fewer blocks are free than the range must allocate; the inode on disk stays the one in memory, and the logged blocks are bounded by Cost and include all that Must demands |
| `InodeCode.ReadBack` | xv6-public/fs.c:453-512 | a read where a write was returns what was written |
| `InodeCode.FileSystem.Iupdate` | xv6-public/fs.c:221-238 | the inode goes into its 64 bytes of its block: ilock will read it back, the other seven inodes of the block, every slot, every bit and every file byte stay |
| `Dinodes.StoreLoad` | xv6-public/fs.c:221-312 | what iupdate stores in a block is what ilock loads, shorts sign-extended, and no other inode of the block changes |
| `InodeCode.FileSystem.Ilock` | xv6-public/fs.c:298-309 | a write-through cache entry dropped and loaded again is the same inode |
| `InodeCode.FileSystem.Itrunc` | xv6-public/fs.c:408-435 | exactly the blocks of the inode are given back, once each, so bfree never panics; the file is empty, on disk too, and other files are unchanged |
| `InodeCode.FileSystem.FileWrite` | xv6-public/file.c:121-159 | the chunk loop writes the prefix it reports, stops early only where a single write would fail, panics only if the blocks missing in the whole range exceed the free ones and returns only if those of what it wrote do not, and no chunk logs more than MAXOPBLOCKS blocks |
| `InodeCode.ChunkFits` | xv6-public/file.c:131-155 | a chunk of at most 1536 bytes costs at most 10 blocks at every alignment |
| `InodeCode.TenBlocks` | xv6-public/file.c:131-155 | a full chunk that starts in the last direct block, allocates the indirect block and draws on four bitmap blocks logs ten distinct blocks |
| `InodeTight.ImageOk` | xv6-public/fs.c:57-95 | a disk of 12289 blocks, four bitmap blocks with one free bit each, on which every other data block is owned by one of 59 files |
| `InodeTight.TenLogged` | xv6-public/file.c:131-155 | on that disk one 1536-byte write at the end of a file succeeds and logs ten blocks |
| `FileCrash.WriteOnce` | xv6-public/fs.c:483-512 | one writei as a log operation: stop the machine at any point of any run in which it alone writes, recover, read the inodes from the disk, and the file is as it was or has all the new bytes, every other file is as it was, and ownership and bitmap are consistent |
| `FileCrash.OldOrNew` | xv6-public/log.c:193-233 | the disk image that recovery restores is the one before the write or the one after it |
| `InodeCode.SpliceJoin` | xv6-public/file.c:136-155 | writing chunk after chunk is one write of the whole |
| `Umalloc.InsertOk` | xv6-public/umalloc.c:24-44 | inserting a block with its two merges keeps the list sorted, disjoint and fully coalesced |
| `Umalloc.InsertCovers` | xv6-public/umalloc.c:24-44 | inserting a block covers exactly the old units and its own |
| `Umalloc.FreeKeeps` | xv6-public/umalloc.c:24-44 | free of a live block keeps the whole heap invariant |
| `Umalloc.GrowKeeps` | xv6-public/umalloc.c:46-61 | a new sbrk region, entered through free, keeps the heap invariant |
| `Umalloc.TakeKeeps` | xv6-public/umalloc.c:75-84 | taking a block whole or cutting its tail keeps the heap invariant, with the new block live |
| `Umalloc.Canonical` | xv6-public/umalloc.c:24-44 | two fully coalesced sorted lists that cover the same units are equal: the order of frees does not matter |
| `Umalloc.OneBlock` | xv6-public/umalloc.c:24-44 | free units in a row lie in one block |
| `Umalloc.CoreTail` | xv6-public/umalloc.c:46-90 | when no free block was large enough, every block that is large enough after morecore ends at the new end of the process |
| `Umalloc.Conservation` | xv6-public/umalloc.c:24-90 | free units plus live units are the units obtained from sbrk |
| `Umalloc.Allocator.FindPlace` | xv6-public/umalloc.c:29-32 | the circular search ends at the neighbour of the block, from any starting point |
| `Umalloc.Allocator.Link` | xv6-public/umalloc.c:33-42 | the pointer and size updates give the list of Insert |
| `Umalloc.Allocator.Free` | xv6-public/umalloc.c:24-44 | removes exactly that block from the live ones, makes room of its size, and leaves freep at the free block below it |
| `Umalloc.GrowsIff` | xv6-public/proc.c:164-180 | sbrk gives the bytes asked for if and only if there is memory, fewer than 2^31 are asked for, and the sum stays below KERNBASE; from 2^31 up a success leaves the process no larger |
| `Umalloc.ShrinksBy` | xv6-public/proc.c:164-180 | a negative count shrinks the process by so many bytes, fails if that leaves nothing, and does nothing if it is larger than the process |
| `Umalloc.BackedIff` | xv6-public/umalloc.c:46-61 | the byte count morecore passes to sbrk stays below 2^31 if and only if nbytes <= 0x7FFFFFF0 or nbytes + 7 wraps |
| `Umalloc.RoomExact` | xv6-public/umalloc.c:69 | nunits is the least number of units that holds a header and nbytes bytes, unless nbytes + 7 wraps |
| `Umalloc.ServedIff` | xv6-public/umalloc.c:63-90 | the block has room for nbytes and lies in memory obtained from sbrk if and only if nbytes <= 0x7FFFFFF0; the room alone fails only for the seven largest requests |
| `Umalloc.TwoGigabytes` | xv6-public/umalloc.c:46-61 | at 0x80000000 bytes sbrk succeeds and the process has not grown |
| `Umalloc.Allocator.MoreCore` | xv6-public/umalloc.c:46-61 | fails exactly when there is no memory or the process would reach KERNBASE, without change; else the heap gains exactly the units from the old end of the process, at least 4096 and as many as asked for; it enters memory it does not have exactly when the byte count is at least 2^31 |
| `Umalloc.Allocator.Take` | xv6-public/umalloc.c:75-84 | the block found is handed out whole or cut from its tail, and freep moves to the block before it |
| `Umalloc.Allocator.Search` | xv6-public/umalloc.c:73-89 | the loop of malloc visits the circular list once from freep, and once more after morecore, and ends at the first block large enough |
| `Umalloc.Allocator.Malloc` | xv6-public/umalloc.c:63-90 | returns 0 if and only if no free block is large enough and morecore fails; a result is a new live block apart from all others, cut from the tail of the first block after freep that is large enough, else from the end of the new core; the heap grows only then, by exactly that core; it hands out memory it does not have exactly when none fits and the request is past the limit of ServedIff |
| `PageTable.NewTableInv` | xv6-public/vm.c:44-53 | adding an empty page table changes no entry of the flat map and takes one frame |
| `PageTable.MapStep` | xv6-public/vm.c:69-73 | writing one entry changes the flat map at that page alone and moves one frame from hand to table |
| `PageTable.ClearStep` | xv6-public/vm.c:269-276 | clearing a present entry changes the flat map at that page alone and moves its frame to the free list |
| `Kalloc.PhysMem.Alloc` | xv6-public/kalloc.c:83-96 | takes the head of the list threaded through the free pages, or reports that it is empty |
| `Kalloc.PhysMem.Free` | xv6-public/kalloc.c:60-78 | pushes the page, filled with ones but for the link to the old head, keeping the chain and its freedom from repeats; panics exactly on an address that is not one of its pages; for a page already free the list is left without an end |
| `Kalloc.TwiceFreed` | xv6-public/kalloc.c:60-78 | after a page has been freed twice no finite chain of next pointers starts at the head |
| `Kalloc.PhysMem.FreeRange` | xv6-public/kalloc.c:46-53 | frees exactly the whole pages of the range, each once |
| `Vm.Walk` | xv6-public/vm.c:35-55 | leaves the flat map unchanged with and without allocation; a table it adds is empty, and its directory entry allows every access; fails exactly when there is no table and none may be or can be made |
| `Vm.MapPage` | xv6-public/vm.c:60-80 | one turn of mappages: exactly the remap panic, the failure, or one new mapping; frames are conserved |
| `Vm.DeallocUvm` | xv6-public/vm.c:256-279 | for oldsz at most KERNBASE, exactly the pages of [newsz, oldsz) are unmapped and their frames freed, in spite of the jump over missing tables |
| `Vm.AllocUvm` | xv6-public/vm.c:221-249 | every page of [oldsz, newsz) gets its own zeroed frame if and only if none was mapped and the frames suffice; it panics if and only if the frames reach as far as a mapped page; a failure loses no frame, and restores the old map if and only if no page of the range was mapped |
| `Vm.LosesPage` | xv6-public/vm.c:233-246 | a failed allocuvm over a mapped page unmaps that page |
| `VmSpace.MapPages` | xv6-public/vm.c:60-80 | on any range, user or kernel, maps page i to frame i; it succeeds, fails or panics each exactly by the mapped pages in the range and the free frames its missing tables need |
| `VmSpace.KmapFine` | xv6-public/vm.c:105-115 | the four kernel regions lie above KERNBASE and do not meet |
| `VmSpace.KmapMaps` | xv6-public/vm.c:105-115 | what the four regions map: page by page the physical memory and devices, writable except kernel text and read-only data |
| `VmSpace.SetupKvm` | xv6-public/vm.c:118-136 | builds exactly the kernel mappings from free frames, or gives everything back; it succeeds if and only if there are frames for the directory and the tables of the regions |
| `VmSpace.FreeVm` | xv6-public/vm.c:283-299 | every user frame, table page and the directory become free exactly once, and nothing else changes |
| `VmSpace.CopyUvm` | xv6-public/vm.c:316-346 | the child maps the pages of [0, sz) with the same flags and bytes in frames that were free, disjoint from the parent, which is untouched; it succeeds if and only if all pages are there and the frames suffice, panics if and only if the frames reach as far as a missing page, and otherwise the set of free frames is what it was |
| `VmSpace.Independent` | xv6-public/vm.c:316-346 | a table built from free frames shares no frame with an existing one and leaves its map and pages as they were |
| `SleepLock.StepKeeps` | xv6-public/sleeplock.c:23-42 | every step of acquiresleep, releasesleep, sleep, wakeup, sched and kill, by any process, keeps the invariant |
| `SleepLock.NoLostWakeup` | xv6-public/proc.c:538-617 | in every run of any number of processes, which may also sleep on other channels, at most one owns the lock, and with the inner spinlock free a process asleep on it or committed to sleep implies a locked lock whose owner is not waiting for it |
| `SleepLock.StaysTidy` | xv6-public/proc.c:538-570 | in every run only a process that sleeps, was woken and has not run yet, or is about to leave sleep has a channel |
| `SleepLock.NoDeadlock` | xv6-public/sleeplock.c:23-42 | some process inside the protocol can step towards leaving it, without help from kill, if and only if not everybody inside is asleep with both spinlocks free; and that happens only while the owner sleeps on another channel |
| `SleepLock.StuckRun` | xv6-public/sleeplock.c:23-42 | a run reaches that state |
| `ExitWait.StepKeeps` | xv6-public/proc.c:264-617 | fork, exit, wait, sleep, wakeup, kill and scheduling steps each keep the process-table invariant |
| `ExitWait.ExitWaitSafe` | xv6-public/proc.c:345-432 | in every run nobody asleep in wait has a zombie child, no process has a dead or zombie parent, each exited process is reaped at most once, and by the process that forked it, or by init after that process has exited |
| `ExitWait.LineageStep` | xv6-public/proc.c:264-432 | every step keeps the parent of a process its heir: its forker, or init if the forker has exited |
| `ExitWait.ReapPids` | xv6-public/proc.c:407-419 | a reaped process was an unreaped zombie, and is accounted for once |
| `ExitWait.ExitTree` | xv6-public/proc.c:372-379 | passing the children of an exiting process to init keeps every parent alive and older |
| `ExitWait.PTable.Wakeup1` | xv6-public/proc.c:578-585 | the loop makes runnable exactly the sleepers on the channel |
| `ExitWait.PTable.Exit` | xv6-public/proc.c:367-385 | slot by slot: p becomes a zombie, exactly its children go to init, exactly the sleepers on its parent, and on init when it inherits a zombie, become runnable, and nothing else changes |
| `ExitWait.PTable.WaitScan` | xv6-public/proc.c:400-427 | reaps a zombie child if there is one, leaving its slot free and every other as it was, else tells whether there are children at all |
| `ExitWait.PTable.Kill` | xv6-public/proc.c:600-617 | sets killed in the first slot with that pid, used or not, and makes it runnable if it slept; fails exactly when there is none |
| `Pipe.Tests` | xv6-public/pipe.c:86-115 | the tests for full and empty are right across wrap-around of the 32-bit counters |
| `Pipe.PutQueue` | xv6-public/pipe.c:94 | storing a byte appends it to the queue the ring stands for, across wrap-around |
| `Pipe.GetQueue` | xv6-public/pipe.c:117 | taking a byte removes the oldest |
| `Pipe.Delivery` | xv6-public/pipe.c:79-122 | in every run the finished reads laid end to end are a prefix of the stored bytes and at most 512 behind; every write that returned stored all its bytes in order and nothing else |
| `Pipe.SleepStep` | xv6-public/pipe.c:59-122 | one kind of step alone strands a sleeper: a killed writer leaving a full pipe past a sleeping reader; a kill between the killed test and the sleep is among the steps |
| `Pipe.AwakeIffPolite` | xv6-public/pipe.c:86-92 | sleepers are never stranded throughout a run if and only if the run has no such step |
| `Pipe.NoStall` | xv6-public/pipe.c:59-122 | in such runs, with the lock free, a sleeping reader means empty with the write end open, a sleeping writer full with the read end open |
| `Pipe.NoKillPolite` | xv6-public/pipe.c:87-90 | runs without kill have no such step |
| `Pipe.Stranded` | xv6-public/pipe.c:87-90 | the lost wakeup happens: a run ends with a full pipe, the lock free and a reader asleep |
| `Pipe.PromptIffTimely` | xv6-public/pipe.c:87-112 | no killed process sleeps in the pipe, at any point of a run, if and only if no kill falls between the test of p->killed and the sleep |
| `Pipe.KilledAsleep` | xv6-public/pipe.c:108-112 | such a kill happens: the reader sleeps on |
| `Pipe.Pipe.Write` | xv6-public/pipe.c:79-99 | stores what fits, in order, stops only at the end or at a full ring, and wakes readers unless it fails |
| `Pipe.Pipe.Read` | xv6-public/pipe.c:102-122 | returns the oldest bytes, as many as asked or present; sleeps or fails exactly on an empty pipe with its write end open |
| `Shell.LineLegal` | xv6-public/sh.c:344-446 | from any C string, a tree the parser returns has at most 9 words per command, legal words and one of two open modes |
| `Shell.ParseLine` | xv6-public/sh.c:344-359 | on every string the parser returns a tree and a remainder no longer than its input, or a panic; the remainder is the measure on which the mutual recursion terminates |
| `ShellPrint.RoundTrip` | xv6-public/sh.c:327-446 | every legal tree, printed with parentheses, is parsed back to itself with all input consumed |
| `ShellPrint.LegalIffParsed` | xv6-public/sh.c:327-446 | a tree is legal if and only if some C string parses to it |
| `ShellPrint.Normal` | xv6-public/sh.c:327-342 | printing what was parsed and parsing again gives the same tree |
| `ShellPlain.SimpleRead` | xv6-public/sh.c:416-446 | words and redirections in any interleaving, with any white space, parse to the words in order inside the redirections in order, the first innermost; ten words or more are the panic |
| `ShellPlain.OperandRead` | xv6-public/sh.c:400-446 | an operand, a command or a block in parentheses with its redirections, parses to its tree and stops at the character after it |
| `ShellPlain.PipeRead` | xv6-public/sh.c:362-372 | a pipeline of any operands parses to a tree that groups to the right |
| `ShellPlain.LineRead` | xv6-public/sh.c:345-359 | pipelines separated by ; parse to a list that groups to the right, each pipeline under one back node for every & after it |
| `ShellPlain.TypedLine` | xv6-public/sh.c:328-342 | every line that can be typed parses to its tree, which is defined on the line without the parser |
| `ShellPlain.Leftovers` | xv6-public/sh.c:328-359 | text after a & other than ; or another & is the syntax panic: a & b is no command |
| `ShellGrammar.LineShown` | xv6-public/sh.c:345-446 | whatever the parser accepts is the typing of a line followed by what it left |
| `ShellGrammar.Accepted` | xv6-public/sh.c:328-342 | the parser accepts a C string if and only if it is the typing of a line, and returns the tree of that line: no text has two readings |
| `ShellCode.Parser.Next` | xv6-public/sh.c:266-308 | gettoken returns the token and position the grammar defines |
| `ShellCode.Parser.Sees` | xv6-public/sh.c:311-320 | peek skips white space and tests the next character |
| `ShellCode.Parser.Redirs` | xv6-public/sh.c:375-397 | parseredirs collects exactly the redirections of the grammar, or its panic |
| `ShellCode.Parser.ExecCmd` | xv6-public/sh.c:416-446 | parseexec agrees with the grammar, panics included |
| `ShellCode.Parser.Arguments` | xv6-public/sh.c:429-445 | the argument loop fills argv in place as the grammar says, with its two panics; SimpleRead says what the grammar makes of words and redirections in any order |
| `ShellCode.Parser.Block` | xv6-public/sh.c:400-413 | parseblock agrees with the grammar |
| `ShellCode.Parser.PipeCmd` | xv6-public/sh.c:362-372 | parsepipe agrees with the grammar |
| `ShellCode.Parser.Line` | xv6-public/sh.c:345-359 | parseline agrees with the grammar |
| `ShellCode.Parser.Command` | xv6-public/sh.c:328-342 | accepts a line if and only if it can be typed, and returns the tree of that line; agrees with the grammar, panics included |
| `Grep.MatchHere` | xv6-public/grep.c:85-96 | true if and only if some prefix of the text, all of it after $, is in the language of the items |
| `Grep.MatchStar` | xv6-public/grep.c:99-106 | true if and only if a run of c, of some length, is followed by a match |
| `Grep.Match` | xv6-public/grep.c:72-82 | true if and only if some substring, placed as the anchors demand, is in the declarative language of the pattern that ReadShow and ShowRead tie to its text |
| `Grep.ReadShow` | xv6-public/grep.c:72-96 | every pattern that can be written down is read back from its text: anchors, starred and single items, $ as an anchor only at the end |
| `Grep.ShowRead` | xv6-public/grep.c:72-96 | every text is the writing of the pattern read from it, so nothing of it is dropped or reordered |
| `Grep.EndsIff` | xv6-public/grep.c:72-96 | w$ matches exactly the texts that end in w |
| `Grep.BeginsIff` | xv6-public/grep.c:72-96 | ^w matches exactly the texts that begin with w |
| `Grep.WholeIff` | xv6-public/grep.c:72-96 | ^w$ matches exactly the text w |
| `Grep.MiddleIff` | xv6-public/grep.c:72-106 | between anchors, u, one item and w match exactly u, what the item stands for, and w |
| `Grep.SpecialsIff` | xv6-public/grep.c:85-106 | c* stands for any run of c, . for any one character, .* for any text |
| `Grep.PlainContains` | xv6-public/grep.c:72-82 | a pattern without special characters matches exactly the texts that contain it |
| `Directory.Strncmp` | xv6-public/string.c:58-66 | zero if and only if the two names are equal up to NUL or n bytes, and else the difference of the first bytes that differ |
| `Directory.Strncpy` | xv6-public/string.c:68-79 | the field holds the name, padded with NULs, and reads back as it |
| `Directory.StoreSlots` | xv6-public/fs.c:573-576 | writing 16 bytes at an entry replaces or appends that entry alone |
| `Directory.Added` | xv6-public/fs.c:553-579 | a live entry under a new name adds exactly that binding and keeps names unique |
| `Directory.Removed` | xv6-public/sysfile.c:222-224 | clearing an entry removes exactly its binding |
| `Directory.OnlyDots` | xv6-public/sysfile.c:171-184 | the entries after the dots are all free if and only if the map binds only the dots |
| `Directory.Dir.Lookup` | xv6-public/fs.c:526-549 | finds the binding of the name under 14-byte comparison if and only if there is one |
| `Directory.Dir.Link` | xv6-public/fs.c:553-579 | fails if and only if the name is present, and otherwise adds exactly that binding, in the first free entry or a new last one; panics exactly on a full directory file |
| `Directory.Dir.Erase` | xv6-public/sysfile.c:222-224 | zeroes that entry, which removes exactly its binding |
| `Directory.Dir.IsEmpty` | xv6-public/sysfile.c:171-184 | true if and only if the directory binds only its dots |
| `Paths.SkipElem` | xv6-public/fs.c:597-619 | splits off the first element cut to DIRSIZ; fails if and only if there is none; the rest is empty exactly when no element is left |
| `Paths.Spelled` | xv6-public/fs.c:597-619 | names written with one or more slashes between them, and any before and after, have as elements exactly those names cut to 14 bytes |
| `Paths.Namex` | xv6-public/fs.c:626-658 | from the root for a path that begins with a slash and from the current directory for any other, folds lookup over the elements of the path, with the panic of ilock on a freed inode as an outcome; the parent form stops one element early and leaves the last name |
| `Paths.FromRoot` | xv6-public/fs.c:626-633 | a leading slash makes the current directory irrelevant and adds no element |
| `Paths.ArrivesIff` | xv6-public/fs.c:626-658 | the fold arrives at an inode if and only if a chain of lookups leads there |
| `Paths.ParentIff` | xv6-public/fs.c:626-658 | the parent form ends in (d, n) if and only if n is the last name, d is a directory and a chain of lookups of the other names leads to it |
| `Paths.ParentThenLast` | xv6-public/fs.c:626-658 | looking up the last name in that directory is the whole walk |
| `Paths.PanicsIff` | xv6-public/fs.c:288-312 | it panics if and only if the lookups lead to an inode that is not there with a name left to look up |
| `Namespace.CreateIff` | xv6-public/sysfile.c:247-290 | a create keeps link counts and tree if and only if its directory still has a link and, for a directory, a count below 32767 |
| `Namespace.LinkIff` | xv6-public/sysfile.c:118-158 | a link keeps them if and only if its directory still has a link and the count of the inode is below 32767 |
| `Namespace.UnlinkKeeps` | xv6-public/sysfile.c:206-234 | a successful unlink always keeps them, freeing the inode when nothing holds it |
| `Namespace.DropKeeps` | xv6-public/fs.c:332-352 | iput keeps them, and frees only an inode no linked entry names |
| `Namespace.EmptyDir` | xv6-public/sysfile.c:214-220 | a directory that holds only its dots has exactly one link, so rmdir brings its count to zero |
| `Namespace.CreatedIs` | xv6-public/sysfile.c:247-290 | create makes an inode of the kind asked for, with one link, one reference and, for a directory, its two dots; dp gains the name and, for a directory, a link; nothing else changes |
| `Namespace.AddedIs` | xv6-public/sysfile.c:118-158 | link adds one to the count of the inode and the name to dp, and changes nothing else |
| `Namespace.RemovedIs` | xv6-public/sysfile.c:206-234 | unlink takes the name from dp and one link from the inode, which goes if that was the last and nobody holds it; dp loses a link when a directory goes; nothing else changes |
| `Namespace.Tree` | xv6-public/sysfile.c:118-290 | from every linked directory, ".." leads to the root |
| `Namespace.RunIff` | xv6-public/sysfile.c:118-290 | counts and tree hold after every operation of a run of whole operations if and only if every create and link in it targets a linked directory without overflow |
| `NamespaceLinks.InterleavedIff` | xv6-public/sysfile.c:118-167 | with the two halves of sys_link apart and every other operation free to run in between, a count is the names and the links in progress, and the tree holds, throughout a run if and only if every step is sound: a link overflows when it starts and can miss its directory when it finishes |
| `NamespaceLinks.AtRest` | xv6-public/sysfile.c:118-167 | when no link is in progress the counts are the names |
| `NamespaceWalk.SoundWalk` | xv6-public/fs.c:626-658 | in every sound run an absolute path, and one taken from a linked directory, meets no freed inode |
| `NamespaceWalk.WalkPanicsIff` | xv6-public/fs.c:288-312 | a walk panics if and only if it climbs out of removed directories, by dots alone, to a freed one and has a name left |
| `NamespaceWalk.OrphanRun` | xv6-public/sysfile.c:187-244 | a sound run after which "../x" panics from a directory that was removed while in use |
| `NamespaceWalk.MissingName` | xv6-public/sysfile.c:187-290 | the only name that can miss its inode is the ".." of a removed directory, so unlink never panics there and create only for that name |
| `Namespace.UnsoundRun` | xv6-public/sysfile.c:247-290 | a run that creates a file in a removed directory kept open breaks the counts |
| `NamespaceCode.Files.Ialloc` | xv6-public/fs.c:195-214 | the lowest free inode number, or none if all are taken |
| `NamespaceCode.Files.CreateAt` | xv6-public/sysfile.c:247-290 | makes an inode of the kind asked for with one link, one reference and its dots, bound to the name in dp, whose count rises for a directory; or returns the existing file with a reference; or refuses, or panics (on a name whose inode is gone, or with no inode left); each exactly when it should, and nothing else changes |
| `NamespaceCode.Files.LinkAt` | xv6-public/sysfile.c:118-167 | binds the name to the inode and adds one to its count, and nothing else; panics exactly on a freed inode; on every error path the count is restored |
| `NamespaceCode.Files.UnlinkAt` | xv6-public/sysfile.c:187-244 | takes the name from dp and one link from its inode, which goes with the last link unless somebody holds it, exactly when allowed; panics exactly on a freed inode or a count below one |
| `NamespaceCode.Files.Iput` | xv6-public/fs.c:332-352 | the inode is freed if and only if it has no links and this was the last reference; otherwise it loses one reference; every other inode and the invariant of counts and tree stay |

## Left out

- InodeCode.FileSystem.Readi: the device branch returns an outcome of its own; device tables are not modelled.
- InodeCode.FileSystem.Writei: the device branch returns an outcome of its own; device tables are not modelled.
- InodeCode.FileSystem.FileWrite: between its chunks other operations may run; each chunk is a log operation, and the call as a whole is not atomic.
- InodeCode.FileSystem.Ilock: the inode map holds every inode in use, so the recycling of cache entries (iget, idup, iunlock) is not modelled beyond reference counts.
- FileCrash.WriteOnce: stated for a write that starts from an empty log with no other writer; LogRuns.CrashAtomicity covers operations that share a batch, block by block.
- Bcache.Cache.Bread: waiting for the buffer lock is an outcome; its protocol is the subject of SleepLock.
- Namespace.RunIff: a directory file grown to its largest size is not modelled, which Directory.Dir.Link covers.
- NamespaceCode.Files.CreateAt: path lookup, the device check of sys_link and locking come in as arguments or not at all.
- Vm.DeallocUvm: oldsz is at most KERNBASE, as at every call.
- ShellCode.Parser.Arguments: words and redirections are values, so the node that argv is filled into behind its redirections is built at the end; nulterminate's stores into the line are not modelled.
- Pipe.Pipe.Write: sleeping is an outcome, and the caller continues from the byte reached; the machine in the same module has the sleeping.
- uva2ka, copyout, clearpteu, inituvm, loaduvm: thin page copies over walkpgdir.
- mmap, munmap, VMA lists, and the copying of shared and private mappings in fork.
- The grep() read loop, which drops a partial line when its buffer has no newline.
- Spinlock nesting counters, trap frames, context-switch internals and memory ordering: steps are atomic and sequentially consistent.
- exec, system call argument fetching, the file table, printf and the small user programs: easy compared with the rest.
- Device and boot code, the IDE driver, the console and mkfs host I/O; the initial image is assumed to satisfy the file-system invariant.
- memmove and memset are slice copies and fills.
