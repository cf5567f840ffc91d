# Verified models of xv6-la and the lacpu arithmetic and cache units

This project models the hard core of two programs that ship together: the xv6
kernel and user land in `lasoft/xv6-la`, and the LoongArch CPU in `lacpu`. Each
group below is a model in the form of its source (classes and loops where the
source updates fields in place, state machines where processes interleave,
registers clocked cycle by cycle where it is hardware) with the properties the
source relies on proved of it for all inputs, all runs or all reachable states.

**Write-ahead log over the buffer cache.** `RedoLog` is the log as it lies on
disk: commit and recovery as sequences of single-block writes, a crash keeping a
prefix. `LogRun` is every run of concurrent operations, group commit, crash and
recovery. `BufferCache` is bio.c with its pointer ring, reference counts and sleep
locks. `CacheRun` is every interleaving of any number of processes that use it, in
operations or only reading, with a commit, a crash and a recovery among them: who
refers to, holds, has changed and has pinned which buffer. `CacheSteps` shows that
the methods of `BufferCache` make exactly these steps, with their preconditions
given by the invariant. `TransactionLog` is log.c: its loops are proved to issue,
write by write, the very sequences of `RedoLog`, and `LogCalls` shows that its calls
make the runs of `LogRun`, so that what an operation logged is durable when the last
end_op returns.

**Page tables over the page allocator.** `PageTable` and `VirtualMemory` refine
three-level trees to flat maps with one owner per page; `AddressSpace` has the
process-level operations, `AddressRun` conservation over all runs of them, and
`CopyUser` the copies between kernel and user space.

**Process protocol.** `SleepLock`, `Scheduler` and `ExitWait` are state machines
over any number of processes, locks and CPUs, one step per lock operation, test,
scanned process or half of swtch.

**File contents and disk driver.** `Bitmap` and `FileSystem` refine blocks, bitmap
and inodes to byte sequences, `FileRun` any sequence of calls to a map from inode
to byte string; `Virtio` has the descriptor table as arrays;
`VirtioRun` every interleaving of drivers, device and interrupts, following
sections 2.6 and 5.2 of the OASIS virtio 1.1 specification.

**User level.** `Umalloc` is the first-fit allocator; `Shell` the parser and
`ShellGrammar` the language: exactly which texts it accepts and what they mean.

**CPU.** `HwCache` is the two-way write-back cache against a flat memory of bytes; `Divider`
the multiply and divide unit with its operand latch and sign wrapper (section 2.2.1
of the LoongArch Reference Manual, Volume 1).

`dafny verify dfyconfig.toml` checks everything. `Finite` holds facts about finite
sets and lists, `Options` the type of a value that may be missing.

## What the proofs say about the code

- mkfs gives the log LOGSIZE blocks including its header (`mkfs/mkfs.c:25`), while
  begin_op reserves LOGSIZE data blocks. `LogRun.NewBlockRoom`: disciplined operations
  can then meet the panic "too big a transaction", and never could with one block
  more. `LogRun.AbsorbedRefused`: log_write also refuses a block that is logged
  already when the log is full.
- NBUF equals LOGSIZE (`kernel/param.h:10-11`), so with a log of LOGSIZE+1 blocks a
  commit of LOGSIZE blocks would find no buffer for the log block
  (`TransactionLog.SpareExactly`); the smaller log of mkfs rules that out.
- A failing mappages leaves the first pages mapped (`VirtualMemory.Memory.MapRange`);
  failing uvmalloc and uvmcopy restore every map but may keep empty table pages.
- growproc takes a shrink below size 0 as no shrink and reports success. It does not
  check growth against the trapframe page; mappages panics there.
- malloc passes a byte count to sbrk's int parameter. From 2^31 bytes on, sbrk shrinks
  the process or does nothing, and morecore uses memory that is not there
  (`Umalloc.ChunkExists`, `Umalloc.SbrkWraps`).
- sched's check that only p->lock is held is the only one of its checks that a caller
  can fail (`Scheduler.SchedPasses`).
- The sector number of a disk block is computed in 32 bits: from block 2^31 on it is that
  of another block (`VirtioRun.SectorExact`).
- itrunc leaves stale entries in the indirect block it frees; balloc zeroes it before
  it can be read again.
- The signed high word of a product (MULH.W) is right exactly for the operands of
  `Divider.HighWordRight`: equal signs, or a zero product, or magnitudes whose product
  has a non-zero high word and a non-zero low word.

Integers are unbounded except where the width decides: 32-bit sizes in growproc,
readi, writei and malloc, the 16-bit ring indices, bytes, entries and words of
blocks, and every register of the CPU units. `uint64` has 64 bits.

## Model

| member | source | states |
|---|---|---|
| `RedoLog.PutHead` | lasoft/xv6-la/kernel/log.c:102-114 | the header block written reads back as exactly the count and the block list |
| `RedoLog.RecoverProgress` | lasoft/xv6-la/kernel/log.c:68-123 | after any k single-block writes of recovery the disk is exactly: first k listed home blocks installed, all else untouched, header cleared only by the last write |
| `RedoLog.CrashInRecovery` | lasoft/xv6-la/kernel/log.c:116-123 | a crash after any k writes of recovery leaves a disk that recovery accepts and whose durable contents are unchanged |
| `RedoLog.RecoveryDone` | lasoft/xv6-la/kernel/log.c:116-123 | a finished recovery leaves an empty log and the durable contents in every home block |
| `RedoLog.RecoveryConverges` | lasoft/xv6-la/kernel/log.c:116-123 | however many recoveries are cut short, and wherever, the one that finishes leaves exactly the durable contents of the first disk |
| `RedoLog.CommitStage` | lasoft/xv6-la/kernel/log.c:178-203 | the disk after any k of the 2n+2 writes of a commit: header, copies and home blocks, each either old or new as k says |
| `RedoLog.CommitPoint` | lasoft/xv6-la/kernel/log.c:99-114 | write_head is the commit point: before it every home block is durably old, from it on every home block is durably new |
| `RedoLog.CommitDone` | lasoft/xv6-la/kernel/log.c:193-203 | a finished commit leaves the new contents in every home block and an empty log |
| `RedoLog.CrashAtomicity` | lasoft/xv6-la/kernel/log.c:68-203 | for every transaction, every crash point of its commit and any number of crashed recoveries, the finished recovery leaves all old or all new contents, all new exactly when the header had reached the disk |
| `LogRun.InvKept` | lasoft/xv6-la/kernel/log.c:68-235 | every step of begin_op, log_write, end_op, commit, crash and recovery keeps the invariant that ties disk, cache view, header and reservations to the history |
| `LogRun.RunInv` | lasoft/xv6-la/kernel/log.c:68-235 | that invariant holds in every state of every run |
| `LogRun.RunCrashSafety` | lasoft/xv6-la/kernel/log.c:68-235 | crash any run anywhere, any number of times: the home blocks then hold the replay, in order, of the updates of committed transactions and of no others |
| `LogRun.RunAdmission` | lasoft/xv6-la/kernel/log.c:126-175 | in every reachable state logged blocks plus unused reservations are at most LOGSIZE; committing implies nothing outstanding; a new block of a disciplined operation is refused exactly when lh.n reaches log.size-1; no operation is committed in part |
| `LogRun.NewBlockRoom` | lasoft/xv6-la/kernel/log.c:214-235 | log_write takes every new block of every disciplined operation in every run if and only if log.size is at least LOGSIZE+1 |
| `LogRun.AbsorbedRefused` | lasoft/xv6-la/kernel/log.c:219-230 | a run that ends with log_write refusing a block that is logged already, for every log of at least LOGSIZE+1 blocks |
| `LogRun.HeaderStable` | lasoft/xv6-la/kernel/log.c:146-203 | in every run header list, view and operations stay the same from the first to the last write of a commit, although neither log_write nor end_op tests for one |
| `LogRun.NoEndPanic` | lasoft/xv6-la/kernel/log.c:146-175 | end_op panics when it finds log.committing set; no run reaches that |
| `LogRun.IdleCommitted` | lasoft/xv6-la/kernel/log.c:146-175 | in every run, while no operation is outstanding and no commit under way, the header list is empty and nothing logged is left uncommitted |
| `LogRun.NothingLost` | lasoft/xv6-la/kernel/log.c:146-235 | in every run committed updates stay committed, and only a crash loses a logged one |
| `LogRun.LoggedIsDurable` | lasoft/xv6-la/kernel/log.c:146-175 | what log_write took is committed, and stays so through every later crash, from the first moment on at which the last end_op has returned |
| `LogRun.CommittedWasLogged` | lasoft/xv6-la/kernel/log.c:214-235 | only what an operation logged is ever committed |
| `LogRun.CommitFinishes` | lasoft/xv6-la/kernel/log.c:178-203 | a commit can be finished from every state of it, and then everything logged is committed and the log empty |
| `LogRun.RecoverFinishes` | lasoft/xv6-la/kernel/log.c:116-123 | a recovery can be finished from every state of it, and then the home blocks hold exactly the committed updates |
| `LogCalls.BeginOp` | lasoft/xv6-la/kernel/log.c:126-142 | begin_op on the log of any reachable state is admitted exactly when a run may begin an operation |
| `LogCalls.Update` | lasoft/xv6-la/kernel/log.c:205-235 | the documented use of log_write is a step of the run; it is refused only where log_write may not go on |
| `LogCalls.EndOp` | lasoft/xv6-la/kernel/log.c:146-175 | end_op ends the operation in the run and, with the last one, runs through the whole commit, write by write; when it returns everything logged so far is committed |
| `BufferCache.UnlinkRemoves` | lasoft/xv6-la/kernel/bio.c:128-129 | the two pointer writes take exactly one buffer out of the doubly linked ring |
| `BufferCache.InsertPrepends` | lasoft/xv6-la/kernel/bio.c:130-133 | the four pointer writes put the buffer at the head of the ring |
| `BufferCache.RelinkMovesToFront` | lasoft/xv6-la/kernel/bio.c:126-134 | brelse keeps prev and next a cycle over exactly the same buffers, the released one in front |
| `BufferCache.RecencyMove` | lasoft/xv6-la/kernel/bio.c:116-137 | moving a released buffer to the front keeps the list in order of last release |
| `BufferCache.Cache.BInit` | lasoft/xv6-la/kernel/bio.c:36-53 | the ring over all NBUF buffers, nothing cached, invariant established |
| `BufferCache.Cache.FindCached` | lasoft/xv6-la/kernel/bio.c:66-73 | the forward search finds a buffer of the block if and only if there is one |
| `BufferCache.Cache.FindUnused` | lasoft/xv6-la/kernel/bio.c:77-87 | the backward search finds the least recently released unreferenced buffer, or there is none |
| `BufferCache.Cache.BGet` | lasoft/xv6-la/kernel/bio.c:58-89 | a cached block is found and counted, else the least recently released unreferenced buffer is recycled; the panic happens exactly when neither exists; no referenced or pinned buffer is recycled and no block is cached twice |
| `BufferCache.Cache.AcquireSleep` | lasoft/xv6-la/kernel/bio.c:70-84 | the sleep lock of a referenced buffer is taken; invariant kept |
| `BufferCache.Cache.Load` | lasoft/xv6-la/kernel/bio.c:98-101 | the disk read fills an invalid buffer with what the cache is to show for its block |
| `BufferCache.Cache.BRead` | lasoft/xv6-la/kernel/bio.c:92-103 | bread returns the buffer of the block, locked, holding the disk overlaid with all changes not yet written back; or it waits, exactly when another holds that buffer; or it panics, exactly when no buffer is left; other buffers untouched |
| `BufferCache.Cache.Modify` | lasoft/xv6-la/kernel/log.c:205-213 | the holder changes the data: the view changes at that block only |
| `BufferCache.Cache.BWrite` | lasoft/xv6-la/kernel/bio.c:106-112 | exactly one disk write, of the held contents |
| `BufferCache.Cache.ReleaseSleep` | lasoft/xv6-la/kernel/bio.c:116-122 | a clean or pinned buffer is unlocked; agreement of cache and disk kept |
| `BufferCache.Cache.MoveFront` | lasoft/xv6-la/kernel/bio.c:128-133 | the ring surgery on the fields: same buffers, released one first, recency order kept |
| `BufferCache.Cache.Unref` | lasoft/xv6-la/kernel/bio.c:124-136 | the reference is dropped; the buffer moves to the front exactly when it was the last one |
| `BufferCache.Cache.BRelse` | lasoft/xv6-la/kernel/bio.c:116-137 | brelse as a whole, with its effect on the buffer and the counts |
| `BufferCache.Cache.CopyBlock` | lasoft/xv6-la/kernel/log.c:183-190 | one round of write_log when its two blocks are idle, whatever else is locked: the log block gets the cached contents by one disk write, both buffers given back, cached blocks stay |
| `BufferCache.Cache.InstallBlock` | lasoft/xv6-la/kernel/log.c:73-82 | one round of install_trans when its two blocks are idle, whatever else is locked: the home block gets the logged contents by one disk write, unpinned unless recovering |
| `BufferCache.Cache.StoreBlock` | lasoft/xv6-la/kernel/log.c:105-113 | the head of write_head: one held block written and released |
| `BufferCache.Cache.BPin` | lasoft/xv6-la/kernel/bio.c:139-144 | one more pin; the invariant stays |
| `BufferCache.Cache.BUnpin` | lasoft/xv6-la/kernel/bio.c:146-151 | one pin less, allowed when the block is locked or clean; the invariant stays |
| `CacheRun.InvKept` | lasoft/xv6-la/kernel/bio.c:58-151 | every step of any process - bget, acquiresleep, disk read, change, log_write, both halves of brelse, begin_op, end_op, every step of a commit, crash and recovery - keeps the invariant on list, counts, locks, pins, cache, disk and log |
| `CacheRun.RunInv` | lasoft/xv6-la/kernel/bio.c:58-151 | it holds in every state of every interleaving of any number of processes |
| `CacheRun.CacheAgreement` | lasoft/xv6-la/kernel/bio.c:10-16 | in every run: the list is a cycle over the NBUF buffers in order of last release, no block is cached twice, refcnt is references plus pins, cache and disk agree but for blocks kept in memory, and each lock has exactly one holder, which holdingsleep finds |
| `CacheRun.ReadsSeeLogged` | lasoft/xv6-la/kernel/bio.c:92-103 | in every run a process that holds an unchanged home block sees every update logged so far, committed or not, on top of the initial disk |
| `CacheRun.NotRecycled` | lasoft/xv6-la/kernel/bio.c:58-89 | in every run no step recycles a buffer that somebody refers to or that is pinned |
| `CacheRun.HolderElse` | lasoft/xv6-la/kernel/bio.c:124-136 | a process between the halves of brelse drops a reference that is not the one of the lock holder |
| `CacheRun.SafeToRelease` | lasoft/xv6-la/kernel/bio.c:116-122 | a holder without an unlogged change has a pinned buffer, or the disk is up to date |
| `CacheRun.WriteIsNext` | lasoft/xv6-la/kernel/log.c:178-203 | what the committing process writes, amid the steps of the others, is the next write of the commit sequence |
| `CacheRun.CommitInOrder` | lasoft/xv6-la/kernel/log.c:178-203 | in every run the log, the disk and the header change only as in LogRun, and every write of a commit comes in its turn |
| `CacheRun.RunCrashSafety` | lasoft/xv6-la/kernel/log.c:68-235 | crash any such run anywhere, cut any number of recoveries short: the home blocks hold the updates of the committed operations, in order |
| `CacheRun.LoggedIsDurable` | lasoft/xv6-la/kernel/log.c:146-235 | among any interleaving of processes: what a process put through log_write is committed, and stays so through every later crash, once no operation is outstanding and no commit under way |
| `CacheSteps.Get` | lasoft/xv6-la/kernel/bio.c:58-89 | bget on the cache of any state of any run is a step of the run |
| `CacheSteps.Acquire` | lasoft/xv6-la/kernel/bio.c:70-71 | so is taking the sleep lock once it is free |
| `CacheSteps.Load` | lasoft/xv6-la/kernel/bio.c:97-101 | so is the disk read |
| `CacheSteps.Modify` | lasoft/xv6-la/kernel/log.c:205-213 | so is a change by a process in an operation |
| `CacheSteps.CopyToLog` | lasoft/xv6-la/kernel/log.c:183-186 | so is the copy of write_log between two held buffers |
| `CacheSteps.PutHeader` | lasoft/xv6-la/kernel/log.c:105-111 | so is putting the list over the held header block |
| `CacheSteps.CopyHome` | lasoft/xv6-la/kernel/log.c:73-76 | so is the copy of install_trans between two held buffers |
| `CacheSteps.Release` | lasoft/xv6-la/kernel/bio.c:116-122 | so is the first half of brelse, which does not panic |
| `CacheSteps.Drop` | lasoft/xv6-la/kernel/bio.c:124-136 | so is the second half, with its move to the front of the list |
| `CacheSteps.WriteOut` | lasoft/xv6-la/kernel/bio.c:106-112 | so is bwrite in a commit, which does not panic and issues the next write of the commit sequence |
| `CacheSteps.Unpin` | lasoft/xv6-la/kernel/bio.c:146-151 | so is bunpin after the block was installed |
| `CacheSteps.Pin` | lasoft/xv6-la/kernel/bio.c:139-144 | so is bpin in log_write |
| `TransactionLog.Log.constructor` | lasoft/xv6-la/kernel/log.c:54-65 | an empty in-memory log over the cache |
| `TransactionLog.Log.WriteLogBlock` | lasoft/xv6-la/kernel/log.c:178-191 | one round of write_log: exactly one write, of the cached contents, into slot tail |
| `TransactionLog.Log.WriteLog` | lasoft/xv6-la/kernel/log.c:178-191 | the loop issues exactly the first n writes of the commit sequence and changes no home block |
| `TransactionLog.Log.WriteHead` | lasoft/xv6-la/kernel/log.c:102-114 | exactly one write, of the header with the current list |
| `TransactionLog.Log.InstallLogged` | lasoft/xv6-la/kernel/log.c:68-83 | one round of install_trans(0): the logged copy goes home and the block is unpinned |
| `TransactionLog.Log.InstallCommitted` | lasoft/xv6-la/kernel/log.c:68-83 | install_trans(0) issues exactly the n home writes of the commit sequence and unpins every block |
| `TransactionLog.Log.Commit` | lasoft/xv6-la/kernel/log.c:193-203 | the writes issued are, one for one, the sequence whose crash behaviour is proved; afterwards disk and view agree on all home blocks and the log is empty |
| `TransactionLog.Log.ReadHead` | lasoft/xv6-la/kernel/log.c:86-97 | the in-memory list becomes the list on disk |
| `TransactionLog.Log.InstallRecovered` | lasoft/xv6-la/kernel/log.c:68-83 | one round of install_trans(1) |
| `TransactionLog.Log.Recover` | lasoft/xv6-la/kernel/log.c:116-123 | the writes issued are exactly the recovery sequence for the disk found at boot; home blocks end with the durable contents |
| `TransactionLog.Log.LogWrite` | lasoft/xv6-la/kernel/log.c:214-235 | the exact condition of its panics; absorption; a new block is pinned in its buffer, one pin per logged block |
| `TransactionLog.Log.ChangeHeld` | lasoft/xv6-la/kernel/log.c:205-235 | changing and logging a held block changes the view there, pins it and leaves every other buffer alone; it fails exactly when log_write panics |
| `TransactionLog.Log.ReleaseLogged` | lasoft/xv6-la/kernel/bio.c:116-137 | releasing a logged block keeps every logged block pinned and cached |
| `TransactionLog.Log.UpdateBlock` | lasoft/xv6-la/kernel/log.c:205-213 | the documented use (bread, change, log_write, brelse), whatever others hold: the cache shows the change and nothing reaches the disk, or it waits, has no buffer or is refused, each exactly when the source does |
| `TransactionLog.Log.EndOp` | lasoft/xv6-la/kernel/log.c:146-175 | the last operation commits all that was logged and clears committing; the panic happens exactly when committing |
| `TransactionLog.SpareExactly` | lasoft/xv6-la/kernel/log.c:178-191 | with nothing else referenced a buffer is free for the log block exactly when fewer than NBUF blocks are logged, which a log area of at most NBUF blocks ensures |
| `TransactionLog.CleanUnlessLogged` | lasoft/xv6-la/kernel/log.c:205-213 | where nobody has an unlogged change, cache and disk differ on logged blocks only |
| `TransactionLog.CommitAdvance` | lasoft/xv6-la/kernel/log.c:193-203 | one more write of the commit sequence advances the progress by one |
| `TransactionLog.RecoverAdvance` | lasoft/xv6-la/kernel/log.c:116-123 | one more write of the recovery sequence advances the progress by one |
| `PageTable.PxInjective` | lasoft/xv6-la/kernel/riscv.h:354-363 | two pages below MAXVA with the same three indices are the same page |
| `PageTable.PxTop` | lasoft/xv6-la/kernel/riscv.h:354-363 | below MAXVA the top index stays below 256 |
| `PageTable.VpnOf` | lasoft/xv6-la/kernel/riscv.h:354-363 | every triple of indices is the page of an address below MAXVA |
| `PageTable.PteFields` | lasoft/xv6-la/kernel/riscv.h:341-352 | page number and flags of an entry are read back as put in |
| `PageTable.PteBits` | lasoft/xv6-la/kernel/riscv.h:341-352 | which bits of an entry are V, R, W, X and U, and which the page number |
| `PageTable.WalkOwned` | lasoft/xv6-la/kernel/vm.c:85-103 | in a well formed tree every step of a walk ends on the table page owned for exactly that path; interior entries carry only V |
| `PageTable.NoSharing` | lasoft/xv6-la/kernel/vm.c:85-103 | a table page is reached along one path of one tree |
| `PageTable.TreeThroughTables` | lasoft/xv6-la/kernel/vm.c:85-192 | pages that are no tables do not matter to any flat map |
| `PageTable.SetLeaf` | lasoft/xv6-la/kernel/vm.c:142-192 | writing one leaf changes the flat map of that tree at that page and no other map anywhere |
| `PageTable.AddMid` | lasoft/xv6-la/kernel/vm.c:85-103 | linking a zeroed second-level table changes no flat map |
| `PageTable.AddLow` | lasoft/xv6-la/kernel/vm.c:85-103 | linking a zeroed third-level table changes no flat map |
| `VirtualMemory.Memory.Kinit` | lasoft/xv6-la/kernel/kalloc.c:26-40 | exactly the whole pages between end and PHYSTOP, in bytes, are free |
| `VirtualMemory.Memory.Kalloc` | lasoft/xv6-la/kernel/kalloc.c:68-82 | the head of the free list, filled with junk, leaves the list; 0 exactly when it is empty |
| `VirtualMemory.Memory.Kfree` | lasoft/xv6-la/kernel/kalloc.c:46-63 | an owned page goes to the head of the free list |
| `VirtualMemory.PopFree` | lasoft/xv6-la/kernel/kalloc.c:68-82 | after the pop every page is still either free once or owned once |
| `VirtualMemory.PushFree` | lasoft/xv6-la/kernel/kalloc.c:46-63 | after the push every page is still either free once or owned once |
| `VirtualMemory.Memory.AddTable` | lasoft/xv6-la/kernel/vm.c:91-100 | a missing table is allocated, zeroed and linked, or the pool is empty and nothing changed |
| `VirtualMemory.Memory.Walk` | lasoft/xv6-la/kernel/vm.c:85-103 | the third-level table of the page; no flat map changes; with alloc it fails only when the pool is empty |
| `VirtualMemory.Memory.LookUp` | lasoft/xv6-la/kernel/vm.c:85-103 | walk without alloc, changing nothing |
| `VirtualMemory.Memory.SetPte` | lasoft/xv6-la/kernel/vm.c:155-161 | the entry is written; only that page of that map changes |
| `VirtualMemory.Memory.MapRange` | lasoft/xv6-la/kernel/vm.c:142-165 | the loop of mappages: all pages mapped, or the first k and the pool is empty; nothing else changes |
| `VirtualMemory.Memory.MapPages` | lasoft/xv6-la/kernel/vm.c:142-165 | rounding to pages, then the pages of the range and no others |
| `VirtualMemory.Memory.UnmapOne` | lasoft/xv6-la/kernel/vm.c:178-191 | one page unmapped and, if asked, freed |
| `VirtualMemory.Memory.UvmUnmap` | lasoft/xv6-la/kernel/vm.c:170-192 | exactly the requested pages become unmapped and are freed if asked |
| `VirtualMemory.Memory.FreeWalk` | lasoft/xv6-la/kernel/vm.c:271-287 | the recursion frees exactly the table pages under its argument |
| `VirtualMemory.Memory.UvmCreate` | lasoft/xv6-la/kernel/vm.c:196-205 | an empty address space, or 0 and no change |
| `VirtualMemory.Memory.AllocOne` | lasoft/xv6-la/kernel/vm.c:235-247 | one page allocated, filled and mapped, or given back; it fails only when at most one page is free |
| `VirtualMemory.Memory.UvmAlloc` | lasoft/xv6-la/kernel/vm.c:225-249 | in bytes: exactly the pages that start at or after the old size and before the new one are new, zeroed, with the permissions asked for; or no flat map and no user page changes; it fails only when no more pages are free than were asked for |
| `VirtualMemory.Memory.UvmDealloc` | lasoft/xv6-la/kernel/vm.c:255-267 | in bytes: exactly the pages that start at or after the new size are unmapped and freed |
| `VirtualMemory.Memory.UvmCopy` | lasoft/xv6-la/kernel/vm.c:305-333 | every page with a byte below the size copied with its flags and no other mapped, or the child is as before and no more pages are free than the parent has; the parent never changes |
| `VirtualMemory.Memory.UvmFree` | lasoft/xv6-la/kernel/vm.c:291-297 | no page of the address space stays owned, no other map or page changes |
| `VirtualMemory.Memory.UvmClear` | lasoft/xv6-la/kernel/vm.c:337-346 | PTE_U is cleared, page and other flags stay |
| `VirtualMemory.RolledBack` | lasoft/xv6-la/kernel/vm.c:225-267 | growing and giving the same pages up restores every flat map |
| `VirtualMemory.BelowRoot` | lasoft/xv6-la/kernel/vm.c:271-287 | a tree that maps nothing meets the panic condition of freewalk nowhere |
| `VirtualMemory.TreeAfterCut` | lasoft/xv6-la/kernel/vm.c:271-297 | the other trees survive the freeing of one |
| `VirtualMemory.RemovedAll` | lasoft/xv6-la/kernel/vm.c:291-297 | freeing user pages and then tables leaves nothing of the address space |
| `AddressSpace.ProcPagetable` | lasoft/xv6-la/kernel/proc.c:176-206 | a fresh space with trampoline and trapframe, or every owner, map and page as before and at most four pages were free |
| `AddressSpace.ProcFreePagetable` | lasoft/xv6-la/kernel/proc.c:210-216 | everything of the space is free again, nothing else changed |
| `AddressSpace.Process.GrowProc` | lasoft/xv6-la/kernel/proc.c:259-275 | in bytes: exactly the pages with a byte below the new size are mapped, each to a page of its own, usable by user code if the old ones were; new pages zero, kept pages kept; failure changes nothing and means the pool ran out; a panic means growth into the trapframe page; a shrink below 0 changes nothing |
| `AddressSpace.CopySpace` | lasoft/xv6-la/kernel/proc.c:291-296 | the memory part of fork: the child has the bytes of the parent page for page and no others, or stays empty and no more pages are free than the parent has |
| `AddressSpace.SpaceKept` | lasoft/xv6-la/kernel/proc.c:176-275 | an operation on one address space leaves every other as it was |
| `AddressSpace.GoneAgain` | lasoft/xv6-la/kernel/proc.c:176-216 | a space created and removed again leaves no trace in owners, maps or pages |
| `AddressRun.StepOwners` | lasoft/xv6-la/kernel/proc.c:176-296 | create, refused create, grow or shrink, copy and free, each as its method is proved to act: the pages of no living space are those owned at the start |
| `AddressRun.RunOwners` | lasoft/xv6-la/kernel/proc.c:176-296 | so at every point of every run of these operations |
| `AddressRun.Conservation` | lasoft/xv6-la/kernel/proc.c:176-296 | once every space that was created has been freed, every page has the owner it had at the start and the same pages are free |
| `AddressRun.ProcTable.Spawn` | lasoft/xv6-la/kernel/proc.c:176-206 | proc_pagetable makes a step of such a run and leaves the other spaces |
| `AddressRun.ProcTable.Grow` | lasoft/xv6-la/kernel/proc.c:259-275 | so does growproc of any process |
| `AddressRun.ProcTable.Fork` | lasoft/xv6-la/kernel/proc.c:279-300 | so does the memory part of fork, which gives the new space back when the copy fails |
| `AddressRun.ProcTable.Exit` | lasoft/xv6-la/kernel/proc.c:210-216 | so does proc_freepagetable |
| `AddressRun.Lifetime` | lasoft/xv6-la/kernel/proc.c:176-296 | any sequence of these calls and then the exit of all that is left, without a panic of growproc: every owner and every free page is as before |
| `CopyUser.WalkAddr` | lasoft/xv6-la/kernel/vm.c:108-126 | the page exactly when it is below MAXVA, valid and user |
| `CopyUser.CopyIn` | lasoft/xv6-la/kernel/vm.c:376-396 | succeeds exactly when every touched page is user-mapped, and delivers the bytes in order |
| `CopyUser.CopyOut` | lasoft/xv6-la/kernel/vm.c:351-371 | writes exactly a prefix of the bytes, all of them exactly when every touched page is user-mapped, and nothing else |
| `CopyUser.CopyInStr` | lasoft/xv6-la/kernel/vm.c:402-438 | succeeds exactly when a NUL lies within max mapped bytes; delivers up to the first one |
| `CopyUser.ScanPage` | lasoft/xv6-la/kernel/vm.c:417-432 | the scan of one page stops at the first NUL |
| `CopyUser.RoundTrip` | lasoft/xv6-la/kernel/vm.c:351-396 | copyout then copyin of the same range returns the same bytes |
| `CopyUser.NoAlias` | lasoft/xv6-la/kernel/vm.c:225-333 | two user pages of one space are different pages of memory |
| `CopyUser.OthersUnseen` | lasoft/xv6-la/kernel/vm.c:351-371 | no other address space sees the write |
| `CopyUser.SpaceUserOwned` | lasoft/xv6-la/kernel/proc.c:176-275 | process address spaces meet what the copies need |
| `SleepLock.Kept` | lasoft/xv6-la/kernel/sleeplock.c:21-52 | every step of acquiresleep, releasesleep, sleep, wakeup and kill keeps the invariant |
| `SleepLock.RunInv` | lasoft/xv6-la/kernel/sleeplock.c:21-52 | the invariant holds throughout every interleaving of any number of processes and locks |
| `SleepLock.MutualExclusion` | lasoft/xv6-la/kernel/sleeplock.c:21-52 | at most one process holds a sleeplock, and holdingsleep says yes to exactly that one |
| `SleepLock.NoLostWakeup` | lasoft/xv6-la/kernel/proc.c:535-580 | a process sleeping on a free lock exists only while a holder of the spinlock still has it to scan; with the spinlock free there is none |
| `SleepLock.WokenExactly` | lasoft/xv6-la/kernel/proc.c:567-580 | a sleeping process is woken if and only if it is killed or a wakeup on the very channel it sleeps on comes to it |
| `SleepLock.TakenWhenFree` | lasoft/xv6-la/kernel/sleeplock.c:21-31 | acquiresleep takes the lock if and only if it finds it free |
| `SleepLock.NeverStuck` | lasoft/xv6-la/kernel/sleeplock.c:21-41 | a process in acquiresleep or releasesleep can take its next step unless it is asleep or another holds the spinlock it needs |
| `SleepLock.ReleaseEnds` | lasoft/xv6-la/kernel/sleeplock.c:33-41 | each step of releasesleep, its wakeup included, brings it nearer to its end |
| `Scheduler.Kept` | lasoft/xv6-la/kernel/proc.c:444-510 | every step of scheduler, sched, yield, swtch halves, of others under p->lock - interrupt handlers on an idle CPU included - and of push_off and pop_off keeps the invariant; which process runs is in TakesRunnable |
| `Scheduler.RunInv` | lasoft/xv6-la/kernel/proc.c:444-510 | it holds throughout every run of any number of CPUs and processes |
| `Scheduler.OneCpuPerProcess` | lasoft/xv6-la/kernel/proc.c:444-510 | no process is current on, or executed by, two CPUs |
| `Scheduler.OnlySavedContexts` | lasoft/xv6-la/kernel/proc.c:444-510 | a CPU loads only contexts that were saved completely, its own on the way back; the panics of acquire, release and pop_off and three of the four of sched are unreachable |
| `Scheduler.SchedPasses` | lasoft/xv6-la/kernel/proc.c:481-500 | sched goes through if and only if its caller holds no spinlock but its p->lock; otherwise it is the panic about noff |
| `Scheduler.InterruptsOff` | lasoft/xv6-la/kernel/spinlock.c:88-110 | a CPU that holds a spinlock has its interrupts off, so a timer interrupt finds a thread without spinlocks |
| `Scheduler.OffAndOn` | lasoft/xv6-la/kernel/spinlock.c:88-110 | pop_off undoes push_off: interrupts are on again exactly when they were on before |
| `Scheduler.TakesRunnable` | lasoft/xv6-la/kernel/proc.c:455-470 | the scheduler takes the process it looks at if and only if that is RUNNABLE |
| `Scheduler.StateChanges` | lasoft/xv6-la/kernel/proc.c:444-625 | in every run a process becomes RUNNING only from RUNNABLE in the scheduler, leaves RUNNING only by its own yield, sleep or exit, and leaves SLEEPING only when another wakes it |
| `Scheduler.EnteredRunnable` | lasoft/xv6-la/kernel/proc.c:455-463 | a CPU enters a process only from having found it RUNNABLE |
| `Scheduler.ScansOn` | lasoft/xv6-la/kernel/proc.c:451-456 | the scheduler looks at every process in turn and starts over with interrupts on |
| `Scheduler.GoesRound` | lasoft/xv6-la/kernel/proc.c:463-470 | after a process has run the scheduler goes on with the next one |
| `Scheduler.NeverStuck` | lasoft/xv6-la/kernel/proc.c:444-510 | a CPU can take its next step unless another holds the p->lock it needs |
| `Scheduler.TouchedOffStack` | lasoft/xv6-la/kernel/proc.c:535-580 | a process changed by another through its lock is on no CPU and, if asleep, has its context saved |
| `ExitWait.Kept` | lasoft/xv6-la/kernel/proc.c:330-435 | every step of fork, exit, reparent, wait, sleep, wakeup and kill keeps the invariant |
| `ExitWait.RunInv` | lasoft/xv6-la/kernel/proc.c:330-435 | it holds throughout every interleaving |
| `ExitWait.ExitMarks` | lasoft/xv6-la/kernel/proc.c:346-386 | when a process becomes a zombie its parent is not asleep in wait |
| `ExitWait.HandedOver` | lasoft/xv6-la/kernel/proc.c:330-341 | a child handed to init is followed by a wakeup of init before the lock is released |
| `ExitWait.FreesChild` | lasoft/xv6-la/kernel/proc.c:402-424 | the zombie that wait frees has left its kernel stack |
| `ExitWait.ParentsLive` | lasoft/xv6-la/kernel/proc.c:279-435 | every started process but init has a parent until it is freed, and a parent is never unused, a zombie or the process itself |
| `ExitWait.NoSleeperOverZombie` | lasoft/xv6-la/kernel/proc.c:346-435 | whenever wait_lock is free no process asleep in wait has a zombie child |
| `ExitWait.FreedOnceByParent` | lasoft/xv6-la/kernel/proc.c:390-435 | each zombie is freed at most once, by its current parent, after it has left its kernel stack |
| `ExitWait.WaitEnds` | lasoft/xv6-la/kernel/proc.c:402-435 | wait frees a zombie child it comes to; at the end of its search it returns without a child if and only if it has none, and sleeps if and only if it has children, none of them a zombie |
| `ExitWait.WokenByChild` | lasoft/xv6-la/kernel/proc.c:330-386 | a process asleep in wait is woken only by kill, or by a wakeup for itself from an exiting child or, for init, from an exiting process |
| `ExitWait.ParentChanges` | lasoft/xv6-la/kernel/proc.c:279-424 | a process gets its parent from fork, goes to init when the parent exits, and loses its parent only when that frees it as a zombie |
| `ExitWait.AllHandedOver` | lasoft/xv6-la/kernel/proc.c:330-341 | past reparent nobody has the exiting process as parent |
| `ExitWait.NeverStuck` | lasoft/xv6-la/kernel/proc.c:279-435 | a process in fork, exit or wait can take its next step unless it is asleep or another holds the lock it needs |
| `ExitWait.ExitEnds` | lasoft/xv6-la/kernel/proc.c:346-386 | each step of exit brings it nearer to its end |
| `Bitmap.SetBit` | lasoft/xv6-la/kernel/fs.c:75-77 | or-ing a clear bit sets that bit and no other |
| `Bitmap.ClearBit` | lasoft/xv6-la/kernel/fs.c:98-102 | and-ing the mask away clears that bit and no other |
| `Bitmap.FlipTurns` | lasoft/xv6-la/kernel/fs.c:65-105 | one bitmap byte changed turns exactly one block used or free |
| `FileSystem.WordPut` | lasoft/xv6-la/kernel/fs.c:407-414 | an entry of an indirect block is read back; the other entries stay |
| `FileSystem.BlockOwnership` | lasoft/xv6-la/kernel/fs.c:65-105 | a data block is marked used exactly when one inode slot refers to it, and never two |
| `FileSystem.TookOk` | lasoft/xv6-la/kernel/fs.c:382-421 | giving a fresh block to an empty slot keeps that |
| `FileSystem.TookBytes` | lasoft/xv6-la/kernel/fs.c:382-421 | and changes no byte of any file |
| `FileSystem.GaveOk` | lasoft/xv6-la/kernel/fs.c:425-453 | emptying a slot and freeing its block keeps it too |
| `FileSystem.AttachAddr` | lasoft/xv6-la/kernel/fs.c:388-406 | a block from balloc is one no slot refers to, so ip->addrs may take it |
| `FileSystem.AttachVia` | lasoft/xv6-la/kernel/fs.c:407-416 | likewise for an entry of the indirect block |
| `FileSystem.WriteBlock` | lasoft/xv6-la/kernel/fs.c:520-527 | new contents for one block of one file change no other byte of any file |
| `FileSystem.WroteContent` | lasoft/xv6-la/kernel/fs.c:516-538 | the bytes written and the new size are the overlay on the contents; holes do not appear |
| `FileSystem.Fs.FirstFree` | lasoft/xv6-la/kernel/fs.c:74-83 | the inner loop finds the first clear bit of its bitmap block |
| `FileSystem.Fs.Balloc` | lasoft/xv6-la/kernel/fs.c:65-88 | the first free block, marked and zeroed, nothing else changed; 0 exactly when all are used |
| `FileSystem.Fs.Bfree` | lasoft/xv6-la/kernel/fs.c:91-105 | exactly that bit is cleared |
| `FileSystem.Fs.AllocAddr` | lasoft/xv6-la/kernel/fs.c:388-406 | the block of ip->addrs[k], allocated on demand |
| `FileSystem.Fs.AllocVia` | lasoft/xv6-la/kernel/fs.c:407-418 | the block behind the indirect block, allocated on demand |
| `FileSystem.Fs.Bmap` | lasoft/xv6-la/kernel/fs.c:382-421 | the block of that piece of the file; allocates only for that piece, changes no byte of any file, and fails only on a full disk |
| `FileSystem.Fs.TruncDirect` | lasoft/xv6-la/kernel/fs.c:432-437 | the direct blocks are freed; no bfree panic |
| `FileSystem.Fs.TruncVia` | lasoft/xv6-la/kernel/fs.c:439-446 | the blocks behind the indirect block are freed; no bfree panic |
| `FileSystem.Fs.ITrunc` | lasoft/xv6-la/kernel/fs.c:425-453 | the file is empty, exactly its blocks are free, every other file has its contents; no hole appears |
| `FileSystem.Fs.WriteBytes` | lasoft/xv6-la/kernel/fs.c:516-528 | the loop of writei writes exactly the bytes it counts |
| `FileSystem.Fs.WriteI` | lasoft/xv6-la/kernel/fs.c:505-539 | the contents become the old ones overlaid at off with exactly the bytes counted; the exact error condition with 32-bit wrap; short only on a full disk; other files unchanged; no hole appears |
| `FileSystem.Fs.ReadI` | lasoft/xv6-la/kernel/fs.c:471-496 | returns the clipped slice of the contents; contents never change, without holes nothing is allocated, and no hole appears in any file |
| `FileRun.Serve` | lasoft/xv6-la/kernel/fs.c:425-539 | on files without holes writei, readi and itrunc act on a map from inode to byte string, readi changes nothing at all, and no hole appears |
| `FileRun.ServeAll` | lasoft/xv6-la/kernel/fs.c:425-539 | so does every sequence of these calls: in particular readi never allocates |
| `FileRun.ReadBack` | lasoft/xv6-la/kernel/fs.c:471-539 | what writei wrote is what a later readi returns, whatever calls on other files and reads come in between |
| `FileRun.RangeIs` | lasoft/xv6-la/kernel/fs.c:471-496 | which bytes a read returns: those of the file from the offset on, up to the count |
| `Virtio.AllocDesc` | lasoft/xv6-la/kernel/virtio_disk.c:156-166 | the lowest free descriptor, or -1 exactly when none is free |
| `Virtio.FreeChain` | lasoft/xv6-la/kernel/virtio_disk.c:185-197 | exactly the descriptors of the chain are cleared and freed |
| `Virtio.PutBack` | lasoft/xv6-la/kernel/virtio_disk.c:201-213 | the failing path of alloc3_desc restores the table |
| `Virtio.Alloc3Desc` | lasoft/xv6-la/kernel/virtio_disk.c:201-213 | the three lowest free descriptors, or no change and fewer than three are free |
| `VirtioRun.PutOk` | lasoft/xv6-la/kernel/virtio_disk.c:271-277 | a new ring entry overwrites no unread one |
| `VirtioRun.DropOk` | lasoft/xv6-la/kernel/virtio_disk.c:312-324 | different 16-bit indices mean an unread entry, and the oldest one is read |
| `VirtioRun.Decoded` | lasoft/xv6-la/kernel/virtio_disk.c:235-269 | following the chain gives the device the operation, sector, buffer and status byte of the request |
| `VirtioRun.SubmitTakes` | lasoft/xv6-la/kernel/virtio_disk.c:226-233 | submitting takes descriptors as alloc3_desc does |
| `VirtioRun.FinishFrees` | lasoft/xv6-la/kernel/virtio_disk.c:288-289 | finishing frees the chain as free_chain does, none of whose panics applies |
| `VirtioRun.Kept` | lasoft/xv6-la/kernel/virtio_disk.c:215-327 | every step of drivers, device and interrupts keeps the invariant |
| `VirtioRun.RunInv` | lasoft/xv6-la/kernel/virtio_disk.c:215-327 | it holds throughout every interleaving |
| `VirtioRun.Partition` | lasoft/xv6-la/kernel/virtio_disk.c:156-292 | each descriptor is free or has exactly one place in exactly one request; no panic is reached |
| `VirtioRun.NoOverwrite` | lasoft/xv6-la/kernel/virtio_disk.c:271-277 | in every run no unread avail entry is overwritten, whatever the wrap-around |
| `VirtioRun.CarriedOut` | lasoft/xv6-la/kernel/virtio_disk.c:215-292 | from the call of virtio_disk_rw to its return the device carries the request out exactly once: a write puts on disk what the buffer held at the call, after a read the buffer holds what was on disk |
| `VirtioRun.SectorExact` | lasoft/xv6-la/kernel/virtio_disk.c:218-218 | every block below 2^31 has its two sectors to itself; from there on they are those of another block |
| `VirtioRun.NeverStuck` | lasoft/xv6-la/kernel/virtio_disk.c:215-327 | the next step of every request can be taken: by the device, the interrupt or the caller |
| `VirtioRun.OwnCompletion` | lasoft/xv6-la/kernel/virtio_disk.c:283-327 | an interrupt clears the flag of the buffer whose request was completed and of no other; a caller returns only after its own |
| `Umalloc.StopsAt` | lasoft/xv6-la/user/umalloc.c:30-32 | the exit test of the search in free holds at exactly one block of the circle |
| `Umalloc.FreeGood` | lasoft/xv6-la/user/umalloc.c:24-44 | inserting and joining keeps the heap invariant |
| `Umalloc.SplitGood` | lasoft/xv6-la/user/umalloc.c:78-82 | cutting the tail off a free block keeps it |
| `Umalloc.TakeGood` | lasoft/xv6-la/user/umalloc.c:76-77 | taking a whole free block out of the circle keeps it |
| `Umalloc.GrowGood` | lasoft/xv6-la/user/umalloc.c:46-61 | new memory from sbrk as a block keeps it |
| `Umalloc.HeapLaws` | lasoft/xv6-la/user/umalloc.c:24-90 | what the invariant means: every unit from sbrk lies in exactly one block, blocks are disjoint, two free blocks never touch, no live block is on the list |
| `Umalloc.ChunkExists` | lasoft/xv6-la/user/umalloc.c:46-61 | sbrk takes an int: the chunk morecore is about to use exists if and only if it has fewer than 2^27 units, that is less than 2^31 bytes |
| `Umalloc.SbrkWraps` | lasoft/xv6-la/user/umalloc.c:54-54 | malloc(0x7FFFFFE1) is the smallest request for which it does not: sbrk is asked for -2^31 bytes and the break stays |
| `Umalloc.Heap.constructor` | lasoft/xv6-la/user/umalloc.c:70-73 | the empty heap |
| `Umalloc.Heap.FindPlace` | lasoft/xv6-la/user/umalloc.c:30-32 | the search of free ends, at the block after which the freed one belongs |
| `Umalloc.Heap.Free` | lasoft/xv6-la/user/umalloc.c:24-44 | the block is free and joined, every other live block is untouched, no unit is lost |
| `Umalloc.Heap.MoreCore` | lasoft/xv6-la/user/umalloc.c:46-61 | the circle grows by exactly the new chunk, at least 4096 units; failure changes nothing; all units are backed by memory afterwards if and only if sbrk failed or the request fits its int |
| `Umalloc.Heap.TakeFrom` | lasoft/xv6-la/user/umalloc.c:75-85 | the block handed out has exactly the units asked for and was not live |
| `Umalloc.Heap.Search` | lasoft/xv6-la/user/umalloc.c:74-90 | the loop ends; it looks at every block once before it asks for memory, and takes the first that fits |
| `Umalloc.Heap.Malloc` | lasoft/xv6-la/user/umalloc.c:63-90 | first fit: the last units of the first block after freep that is large enough, and sbrk asked only when none is; the block has room for nbytes behind its header and less than 16 bytes more; 0 exactly when none fits and sbrk failed; no unit is lost; all units are backed exactly unless sbrk was asked for 2^31 bytes or more |
| `Shell.GetToken` | lasoft/xv6-la/user/sh.c:266-308 | the loop computes the token of the grammar at the cursor |
| `Shell.ParseRedirs` | lasoft/xv6-la/user/sh.c:375-397 | the loop computes the list of redirections |
| `Shell.ParseExec` | lasoft/xv6-la/user/sh.c:416-447 | the loop computes the simple command that ShellGrammar characterises: arguments in order inside the redirections in order, the limits and the panics |
| `Shell.ParseLine` | lasoft/xv6-la/user/sh.c:345-359 | background marks and lists; the mutual recursion ends because input is consumed |
| `Shell.NulTerminate` | lasoft/xv6-la/user/sh.c:450-494 | writes NUL at the end of every stored word and nowhere else |
| `Shell.ParseCmd` | lasoft/xv6-la/user/sh.c:328-342 | the command of the whole text or one of the panics; every stored word read in place as a C string equals its token |
| `Shell.LineTokens` | lasoft/xv6-la/user/sh.c:266-447 | every word the parser stores is a whole token of the text |
| `Shell.WordsSurvive` | lasoft/xv6-la/user/sh.c:450-494 | writing the NULs spoils no word |
| `ShellGrammar.ItemsParse` | lasoft/xv6-la/user/sh.c:375-447 | words and redirections of a simple command in any order: parsed to the words inside the redirections, the first one written innermost |
| `ShellGrammar.LineParses` | lasoft/xv6-la/user/sh.c:328-447 | every line of the grammar, with as few or as many parentheses as it is written with, is parsed to its meaning |
| `ShellGrammar.LineAccepted` | lasoft/xv6-la/user/sh.c:328-447 | whatever the parser accepts is a line of the grammar with that meaning |
| `ShellGrammar.Language` | lasoft/xv6-la/user/sh.c:328-342 | parsecmd accepts a text if and only if it is a line of the grammar that fits the argument vector; otherwise it panics |
| `ShellGrammar.Lexes` | lasoft/xv6-la/user/sh.c:266-308 | gettoken finds the tokens of a text whatever white space is between them, as long as it keeps two words, or two arrows, apart |
| `ShellGrammar.RoundTrip` | lasoft/xv6-la/user/sh.c:266-447 | writing any line with any such white space and parsing it gives its meaning |
| `ShellGrammar.CommandBack` | lasoft/xv6-la/user/sh.c:266-447 | every command tree with legal words and fewer than MAXARGS arguments comes back from its writing |
| `HwCache.WayRefill` | lacpu/rtl/mycpu/cache_data.v:64-72 | a refill replaces line and tag of the victim way and leaves the other |
| `HwCache.WayAccess` | lacpu/rtl/mycpu/cache_data.v:64-72 | without refill a way changes only where it is hit, by the enabled bytes |
| `HwCache.WayReadOut` | lacpu/rtl/mycpu/cache_data.v:365-400 | write-back reads the whole victim set out and changes nothing |
| `HwCache.Kept` | lacpu/rtl/mycpu/cache_tag.v:55-241 | every cycle under the bus contract keeps the invariant |
| `HwCache.RunInv` | lacpu/rtl/mycpu/cache_tag.v:55-241 | it holds in every cycle of every run from reset |
| `HwCache.CycleIsFlatStep` | lacpu/rtl/mycpu/cache_data.v:64-72 | one cycle leaves every line as a flat memory would have it; StoreBytes says which bytes change |
| `HwCache.StoreBytes` | lacpu/rtl/mycpu/cache_data.v:64-72 | a store that hits writes byte lane k of its word exactly where sram_we[k] is set; no other byte changes in any cycle |
| `HwCache.LoadBytes` | lacpu/rtl/mycpu/cache_data.v:326-363 | a load that hits gets the four bytes of its word one cycle later |
| `HwCache.HitOrMiss` | lacpu/rtl/mycpu/cache_tag.v:55-68 | an enabled cached access hits or waits |
| `HwCache.RefillThenHit` | lacpu/rtl/mycpu/cache_tag.v:138-241 | after the refill every access to the line hits |
| `HwCache.LoadReturns` | lacpu/rtl/mycpu/cache_data.v:326-363 | a load that hits gets the word of the flat memory one cycle later |
| `HwCache.CacheRefinesMemory` | lacpu/rtl/mycpu/cache_tag.v:138-241 | in every run every byte is the initial one overwritten by the enabled bytes of the stores that hit |
| `HwCache.LoadsReadMemory` | lacpu/rtl/mycpu/cache_data.v:326-363 | in every run every load hit returns the four bytes of that memory |
| `HwCache.VictimRules` | lacpu/rtl/mycpu/cache_tag.v:55-68 | no set holds a line twice; victims go to their own address; the victim is the way not used last |
| `Divider.RemainderFits` | lacpu/rtl/mycpu/div.v:33-45 | after i steps the partial remainder is below 2^i, so the shift loses no bit |
| `Divider.DivStep` | lacpu/rtl/mycpu/div.v:33-45 | one step divides one more bit |
| `Divider.DivGoes` | lacpu/rtl/mycpu/mul_div_lock.v:31-79 | while the divider counts, no input reaches it or the latch |
| `Divider.DivRun` | lacpu/rtl/mycpu/mul_div_lock.v:31-79 | in every run the operands stay latched and step t is as far as t-1 bits |
| `Divider.DividesMagnitudes` | lacpu/rtl/mycpu/div.v:20-49 | for all operands but divisor 0, 33 cycles give quotient and remainder of the magnitudes |
| `Divider.SignRestored` | lacpu/rtl/mycpu/mul_div_top.v:89-93 | the 31-bit negation used is right up to 2^31 |
| `Divider.Divides` | lacpu/rtl/mycpu/mul_div_top.v:38-93 | DIV.W, DIV.WU, MOD.W and MOD.WU give truncating division for every operand pair with non-zero divisor, whatever the inputs do meanwhile |
| `Divider.DivStalls` | lacpu/rtl/mycpu/mul_div_lock.v:31-79 | the pipeline is held in every cycle until the quotient is there |
| `Divider.DivReleases` | lacpu/rtl/mycpu/mul_div_lock.v:31-79 | then it is let go; the unit keeps the result until the pipeline moves on and is then ready for the next request |
| `Divider.MulStalls` | lacpu/rtl/mycpu/mul_div_lock.v:31-79 | likewise for a product after three cycles |
| `Divider.TruncatingDivision` | lacpu/rtl/mycpu/mul_div_top.v:89-93 | the reference quotient and remainder: dividend = divisor times quotient plus remainder, remainder smaller and of the sign of the dividend |
| `Divider.Multiplies` | lacpu/rtl/mycpu/mul_div_top.v:38-93 | MUL.W and MULH.WU give the low and the unsigned high word |
| `Divider.MultipliesHigh` | lacpu/rtl/mycpu/mul_div_top.v:90-90 | MULH.W gives the signed high word if and only if the operands meet HighWordRight |
| `Divider.HighWordWrong` | lacpu/rtl/mycpu/mul_div_top.v:90-90 | for -1 times 1 the unit gives 0 where the high word is 0xFFFFFFFF |

## Left out

- Device registers, memory-mapped I/O and virtio_disk_init: only the rings and an abstract device are modelled.
- Trap entry, trampoline and swtch assembly: swtch is a save step and a load step.
- Weak memory ordering: a critical section of a spinlock, or the part of it between two steps that others can see, is one step.
- Other sleep channels than sleeplocks and wait (pipes, console, log, disk): the same sleep and wakeup, no new property.
- Directories, path names, link counts, ialloc, iget and iput, and the layout of inodes in blocks: inodes are a map from number to addresses and size, with the copy on disk beside it.
- readi and writei with user-space buffers: the copy may fail half way, which ends the loop early and, in writei, leaves a changed buffer that is not logged.
- The number of blocks each file system call logs: operations are assumed to keep to MAXOPBLOCKS.
- exec, system call dispatch, console, pipes, printf, uvmfirst, kvmmap and runcmd: sequencing or easier members.
- Process ids: a process is its slot in the table; the lookup by pid in kill and wait returns are not modelled.
- The bus controller of the cache is an environment contract: it refills only on a miss, with the line of memory at axi_raddr, and only after it stored a valid victim at axi_waddr.
- Uncached accesses and flush of the hardware cache beyond their having no effect on hits and lines.
- Division by zero, and the rest of the CPU.
- LogRun.RunCrashSafety: its runs take the cache as large enough; SpareExactly says when a commit finds its buffers.
- BufferCache.Cache.CopyBlock: requires that its two blocks are idle and a buffer is left, so that it need not wait; with waits it is steps of CacheRun.
- BufferCache.Cache.InstallBlock: requires the same; with waits it is steps of CacheRun.
- TransactionLog.Log.WriteLogBlock: is the call that need not wait: nobody holds a block the commit reads, nobody has an unlogged change, a buffer is left; every interleaving is in CacheRun, and SpareExactly says when a buffer is left.
- TransactionLog.Log.WriteLog: is the call that need not wait, as WriteLogBlock.
- TransactionLog.Log.WriteHead: is the call that need not wait, as WriteLogBlock.
- TransactionLog.Log.InstallLogged: is the call that need not wait, as WriteLogBlock.
- TransactionLog.Log.InstallCommitted: is the call that need not wait, as WriteLogBlock.
- TransactionLog.Log.Commit: is the call that need not wait, as WriteLogBlock; CacheRun.CommitInOrder has the waits.
- TransactionLog.Log.EndOp: is the call that need not wait, as Commit.
- TransactionLog.Log.Recover: requires that nobody uses the cache, as at boot.
- LogCalls.EndOp: is the call whose commit need not wait, as TransactionLog.Log.EndOp.
- LogCalls.Update: is one call that need not wait; every interleaving is in CacheRun.
- CacheRun.InvKept: bget's panic is no step, and a process that waits takes none; that a wait ends is not stated.
- CacheRun.RunInv: processes follow log.c's rule for its users: they change home blocks only between begin_op and end_op, and log each change before they release the buffer or end the operation.
- AddressRun.Lifetime: after a panic of growproc nothing is stated.
- Scheduler.Kept: the value that sched saves in intena and restores is left open.
- VirtualMemory.Memory.MapPages: requires unmapped pages and a non-empty range, the conditions of its panics.
- Umalloc.Heap.Malloc: requires that sbrk returns no memory below the break and that all units are backed before the call; base lies below the heap.
- Shell.ParseCmd: requires a NUL-terminated buffer without other NULs, as getcmd leaves it.
