# xv6 in Dafny

A model of the core of the xv6 teaching kernel for RISC-V and of three of its user-level programs, with
proofs of what they promise. Every part keeps the form of the code: objects that are changed in place are
classes, their methods loop where the code loops, and each is proved against a function or predicate on
values. Concurrency is a state machine over the steps between which other CPUs, threads, the disk or a crash
may come, and its theorems speak of every finite run.

| files | what they model |
|---|---|
| `Params`, `Seqs`, `Blocks` | shared constants, sequence functions, blocks as bytes and as words |
| `Disk`, `LogProtocol`, `LogSpace`, `LogTrace`, `Log` | the redo log: group commit, crashes at any disk write, recovery, the space that reservations leave |
| `FsLayout`, `FsBlocks`, `FsCode` | blocks and files: free map, inodes on disk, direct and indirect blocks, `readi`, `writei`, `itrunc`, the chunks of `filewrite` |
| `FsBoot` | the file system on the log: a crash during a `filewrite`, recovery and boot |
| `Mkfs` | the program that makes the first image |
| `Sv39`, `VmSteps`, `VmFree`, `VmCopy`, `Vm` | page tables, the page allocator, copying from and to user memory |
| `Proc`, `ProcSafety` | scheduler, `sleep`, `wakeup`, `fork`, `exit`, `wait`, `kill` on any number of CPUs |
| `Pipe`, `PipeRuns`, `PipeCode` | pipes with readers and writers that sleep and are killed |
| `Bcache`, `Bio`, `BioRuns` | the buffer cache: its ring, its eviction order, its transparency |
| `FreeRing`, `Umalloc` | the user-level `malloc` and `free` |
| `Virtqueue`, `VirtioRuns`, `VirtioSafety` | the virtio disk driver with a disk that completes requests in any order |
| `Grep`, `GrepLines` | the pattern matcher of `grep` and its buffered line loop |

`dafny verify dfyconfig.toml` checks everything.

## How the parts are stated

- **Log.** The disk changes one block at a time and the machine may crash between any two writes, also during
  recovery. `CrashSafety` and `CrashAtomicity` are about the same code from two sides: the first about every
  interleaving of operations, the second about the exact sequence of writes that the methods of class `Log`
  are proved to issue; `CommitIssuesTrace` and `RecoveryIssuesTrace` join them. Nothing holds an operation to the
  number of blocks that `begin_op` reserves for it, and only the panic depends on it. The reservation does not
  exclude the panic in `log_write` for the log that `mkfs` makes; `PanicFreeIff` gives the exact condition and
  `TightLogPanics` the run.
- **Blocks and files.** A map from each block to the one place that names it makes ownership exact.
  `OwnershipExact` says the same without the map. Inodes are kept in memory and stored by `iupdate`; a read that
  fills a hole leaves them different on disk, as in the kernel. User copies succeed or fail as a whole.
- **Crashes.** `FilewriteCrash` joins file system and log: the states between the transactions of `Filewrite`, the
  block writes of their commits, a cut at any of these, recovery, and what is then read from the disk. The log sees
  a block as words, the file system as bytes; the bytes are proved to come back from the words.
- **Page tables.** Each page has one role: free, held, a table on one path of one address space, or owned by
  one mapping. Whether a mapping owns its page is up to who makes it: process memory does, the kernel's direct
  map, trapframe and trampoline do not. The tree in memory is proved to read as a flat map. User memory is a map
  from address space and address to byte; that only process memory is mapped for user access, and filled
  before, is asked of callers.
- **Processes.** A process lock is held by a CPU, since it passes through `swtch`. A critical section that holds
  one process lock and nothing else is one step; `wait`, `exit`, `fork`, the scheduler and `sleep` are cut at
  every point where another lock is taken or released. Wherever a CPU holds none of these locks its process may
  be preempted and go on elsewhere, and an interrupt handler may wake sleepers.
- **Pipes, cache, disk driver.** A step is what a thread does under the object's lock, up to its return or its
  `sleep`.
- **Allocator.** Addresses and sizes are in bytes. `base` lies below the heap, and `sbrk` may be used by others,
  so new memory need not adjoin the old nor begin at a multiple of a header's size.

Quantities that the code keeps in fixed widths are modelled in these widths where it matters: the pipe's
counters, the ring indices of the disk queue, the offsets of `readi` and `writei`, the argument of `sbrk`.
`rel` and `clock` in the cache, `queued`, `working` and `finished` in the disk driver, `ring`, `live` and `own`
in the allocator, `owner` in the file system and `role` and `at` in the page tables record history or
ownership; the code has no such variables.

Where the code differs from what one might expect, the model follows the code: `mkfs` adds a whole block to a
root directory whose size is already a multiple of the block size; a killed writer leaves `pipewrite` without
waking readers; all buffers start out for block 0 of device 0; `grep` stops at a line that does not fit into
its buffer.

## Model

| member | source | states |
|---|---|---|
| `LogProtocol.HeadRoundTrip` | kernel/log.c:87-114 | Reading the header block that `write_head` builds gives back exactly the list of logged block numbers, whatever the block held before. |
| `LogProtocol.InitInv` | kernel/log.c:55-65 | A machine about to boot from a disk with an empty log satisfies the log invariant. |
| `LogProtocol.NextKeepsInv` | kernel/log.c:69-235 | Every single step keeps the invariant: an operation beginning, logging a block or ending, one disk write of a commit or of recovery, eviction of an unpinned buffer, a crash. |
| `LogProtocol.RunKeepsInv` | kernel/log.c:69-235 | The invariant holds after every finite interleaving of these steps. |
| `LogProtocol.DurableIsLastCommitted` | kernel/log.c:194-203 | What recovery would restore is the cached view at the last header write of the run. |
| `LogProtocol.GroupCommit` | kernel/log.c:126-203 | In every run a commit has no operation outstanding, `end_op` never finds a commit under way, the outstanding count is the number of open operations, and recovery of the disk as it stands yields the cached view at the last completed header write. |
| `LogProtocol.CrashSafety` | kernel/log.c:69-123 | Crash any run anywhere and let recovery be interrupted any number of times: once it completes, disk and cached view hold exactly the view at the last header write before the crash, and the log is empty. |
| `LogProtocol.RecoveryCompletes` | kernel/log.c:117-123 | From every state of a boot there is a run of recovery steps that reaches the mounted state. |
| `LogProtocol.CommitCompletes` | kernel/log.c:179-203 | From every state inside a commit the remaining number of its steps finishes it, and disk, cache and recoverable contents are then the whole view it started from. |
| `LogProtocol.IdleAgrees` | kernel/log.c:69-83 | Between transactions disk, cached view and durable contents agree on every home block. |
| `LogProtocol.LogWritesStayInside` | kernel/log.c:183-188 | Every log block that a commit writes in any run lies past the header and inside the log area. |
| `LogSpace.ReservationsFit` | kernel/log.c:126-142 | In every run in which operations keep to a budget of distinct blocks, logged blocks plus the unused part of all budgets stay within ten plus two budgets, or three if a budget exceeds ten; with a budget of at most MAXOPBLOCKS that is within LOGSIZE. |
| `LogSpace.TightLogPanics` | kernel/log.c:214-223 | If the log is not larger than that bound, a run is constructed that keeps to the budget and in which an operation would hit the panic of `log_write`. |
| `LogSpace.PanicFreeIff` | kernel/log.c:214-223 | For every log size and every budget: no run that keeps to the budget reaches the panic of `log_write`, if and only if that bound is below the smaller of LOGSIZE and the log size less one. |
| `LogSpace.MkfsLogPanicFreeIff` | mkfs/mkfs.c:25 | With the log of LOGSIZE blocks that `mkfs` makes, the panic is unreachable if and only if every operation writes fewer than MAXOPBLOCKS distinct blocks. |
| `LogTrace.CommitPrefix` | kernel/log.c:179-203 | Where the disk stands after each number of writes of a commit: before the header write it recovers to the old contents, from then on to the new. |
| `LogTrace.RecoverWhole` | kernel/log.c:69-123 | A complete recovery restores every home block and leaves an empty header. |
| `LogTrace.CrashAtomicity` | kernel/log.c:69-203 | For every prefix of the writes of a commit, any sequence of interrupted recoveries and one complete recovery, the home blocks are all old if the header write was not reached and all new otherwise. |
| `LogTrace.CommitWhole` | kernel/log.c:194-203 | All writes of a commit leave every home block as the cached view has it and the header empty. |
| `LogTrace.RunWritesExact` | kernel/log.c:69-203 | The writes read off the steps of a run, applied to the disk it starts from, give the disk it ends with: steps change the disk by these writes only. |
| `LogTrace.ProtocolCommitStarts` | kernel/log.c:147-175 | Every state of the protocol in which a commit begins meets what crash atomicity asks for. |
| `LogTrace.CommitIssuesTrace` | kernel/log.c:179-203 | The commit steps of the protocol, from where `end_op` starts them, write exactly the commit trace of which crash atomicity is proved, and leave the whole view in place. |
| `LogTrace.RecoveryIssuesTrace` | kernel/log.c:69-123 | From every boot state of the protocol an undisturbed recovery reaches the idle state and writes exactly the recovery trace. |
| `LogCode.Log.WriteLog` | kernel/log.c:179-191 | Issues one write per logged block, in order, of its cached contents to the log area, and no other write. |
| `LogCode.Log.InstallTrans` | kernel/log.c:69-83 | Issues one write per logged block, in order, of the log block to its home, and no other write. |
| `LogCode.Log.Commit` | kernel/log.c:194-203 | Issues exactly the commit trace of which crash atomicity is proved, and empties the in-memory list. |
| `LogCode.Log.RecoverFromLog` | kernel/log.c:117-123 | On a recoverable disk, issues exactly the recovery trace; afterwards every home block has the durable contents and the header is empty. |
| `LogCode.Log.TryBeginOp` | kernel/log.c:126-142 | Admits an operation exactly when no commit runs and its reservation fits into the log. |
| `LogCode.Log.LogWrite` | kernel/log.c:214-235 | A block is listed once, however often it is written, and the list stays distinct and outside the log area. |
| `LogCode.Log.EndOp` | kernel/log.c:147-175 | The last operation to end issues exactly the commit trace; an earlier one issues nothing. |
| `Blocks.PutWordReads` | kernel/fs.c:403-416 | Storing a block number in an indirect block changes exactly that entry, as read back from the little-endian bytes. |
| `Blocks.PutWordsReads` | kernel/fs.c:226-242 | Storing consecutive words, as of an inode, the log header or the superblock, changes exactly these and they read back. |
| `FsLayout.OrBitTests` | kernel/fs.c:76-78 | Setting a bit of the free map changes exactly that bit. |
| `FsLayout.AndNotBitTests` | kernel/fs.c:98-103 | Clearing a bit of the free map changes exactly that bit. |
| `FsBlocks.MarkUsedBits` | kernel/fs.c:66-88 | On disk, marking a block used changes the state of that block alone, for every block of every bitmap block. |
| `FsBlocks.MarkFreeBits` | kernel/fs.c:92-105 | On disk, marking a block free changes the state of that block alone. |
| `FsBlocks.OwnershipExact` | kernel/fs.c:66-105 | What the ownership invariant means: no block number is stored in two places of any inodes, and the blocks marked in use are exactly the metadata and the blocks reachable from an inode. |
| `FsBlocks.AllocKeepsInv` | kernel/fs.c:66-88 | A block allocated is one that nobody owned, no owned block changes, and ownership stays exact with the block pending. |
| `FsBlocks.FreeKeepsInv` | kernel/fs.c:92-105 | Freeing a block that is allocated but linked nowhere keeps ownership exact. |
| `FsBlocks.LinkKeepsInv` | kernel/fs.c:388-416 | Storing a pending block in an empty direct slot, as the indirect block or in an entry of it makes it owned there and keeps ownership exact. |
| `FsBlocks.LinkKeepsBytes` | kernel/fs.c:388-416 | Linking a zeroed block changes no byte of any file. |
| `FsBlocks.DataBytes` | kernel/fs.c:519-528 | Writing a data block changes the bytes of that block of that file and no other byte of any file. |
| `FsBlocks.InodeReads` | kernel/fs.c:226-242 | Round trip: what `iupdate` stores of an inode is what `ilock` reads, and no other inode on disk changes. |
| `FsBlocks.InodeKeepsInv` | kernel/fs.c:226-242 | Storing an inode touches neither the free map nor a block of a file. |
| `FsCode.FileSystem.Balloc` | kernel/fs.c:66-88 | Returns the lowest free block, owned by nobody; the disk changes by its bit and by that block becoming zero, and both blocks are logged. Returns 0 exactly when the disk is full, and then changes nothing. |
| `FsCode.FileSystem.Bfree` | kernel/fs.c:92-105 | Clears the bit of a block in use, which it always is when the file system calls it. |
| `FsCode.FileSystem.Bmap` | kernel/fs.c:383-421 | Finds or allocates the block, keeps ownership exact and the bytes of all files, and returns 0 only when the disk is full. Write-ahead: it changes only the free map and blocks of that slot, logs every block it changes, and logs no other. |
| `FsCode.FileSystem.Itrunc` | kernel/fs.c:426-453 | The inode ends up empty, in memory and on disk; exactly its blocks become free, all of them; every other file keeps its contents. It changes only the free map and its inode, and logs every block it changes. |
| `FsCode.FileSystem.Readi` | kernel/fs.c:472-496 | Returns exactly the slice of the file clipped to its size, in any alignment and across the indirect boundary; short only if the copy out fails, or the disk is full and there is a hole in the range. Without a hole it changes and logs nothing; a complete read that changes nothing met no hole. Blocks for holes are allocated as by `bmap`, and logged. |
| `FsCode.FileSystem.Writei` | kernel/fs.c:506-539 | Rejects exactly the bad ranges; otherwise the file becomes itself with the bytes returned replaced or appended at the offset, other files are unchanged, and the inode on disk is the one in memory. Write-ahead: it changes only blocks of the range, the indirect block, the free map and the inode, logs every block it changes, and logs no other. |
| `FsCode.FileSystem.Iupdate` | kernel/fs.c:226-242 | The inode goes to its words of its block, which is logged; nothing else on disk changes. |
| `FsCode.WriteFits` | kernel/file.c:148-162 | If the bitmap is one block, a chunk of `filewrite` logs at most seven distinct blocks, for every offset, alignment and allocation pattern. |
| `FsCode.WriteIsTransaction` | kernel/file.c:148-162 | A chunk written by `writei` is a transaction: ownership is exact before and after, all it changed is logged, nothing in or before the log is touched, and inodes on disk agree with memory if they did before. |
| `FsCode.FileSystem.Filewrite` | kernel/file.c:148-175 | A write in chunks that succeeds equals one unchunked write, and one that fails has written a prefix. It is a sequence of transactions, after each of which a whole number of chunks is written, or all that is written in the end; none logs more than seven blocks. |
| `FsCode.OverwriteTwice` | kernel/file.c:148-175 | Two adjoining writes are one write of the concatenation. |
| `FsBoot.ChunkCommits` | kernel/file.c:148-162 | Every chunk can commit: if the free map is one block, what it logs fits into a log of eight blocks or more. |
| `FsBoot.CrashAmongTransactions` | kernel/log.c:69-203 | The same for blocks: cut any sequence of transactions at any write of their commits; recovery leaves the blocks as they were after exactly the transactions whose header was written. |
| `FsBoot.FilewriteCrash` | kernel/file.c:148-175 | A crash at any block write during a `filewrite`, recovery interrupted any number of times, then a complete recovery: inodes and files read from the disk are those before the call, except that the first chunks of the data are in the file, as many as had their log header written; block ownership is exact. |
| `FsBoot.BytesOfWords` | kernel/fs.c:403-416 | Seen as words by the log and as bytes by the file system a block is the same: the bytes come back. |
| `FsBoot.SuperRoundTrip` | mkfs/mkfs.c:94-117 | The superblock that `mkfs` writes is what `readsb` reads. |
| `FsBoot.BootFinds` | kernel/fs.c:293-315 | An image that agrees with a file system outside the log has its inodes and files, and exact block ownership. |
| `FsBoot.Fsinit` | kernel/fs.c:29-48 | Booting from any disk whose log replays to a file system in order gives that file system: the superblock as stored, the same inodes, read from disk, and the same files; it refuses exactly a wrong magic number. |
| `Mkfs.TakeKeepsDraft` | mkfs/mkfs.c:265-282 | Handing the next free block to an empty slot keeps the unfinished image in order. |
| `Mkfs.PieceWrites` | mkfs/mkfs.c:283-287 | Copying a piece into a block of a file changes exactly those bytes of that file. |
| `Mkfs.SetBit` | mkfs/mkfs.c:243-245 | One turn of the loop that builds the map extends the run of set bits by exactly one. |
| `Mkfs.MapFinishes` | mkfs/mkfs.c:235-248 | Writing the map turns the unfinished image into one with exact block ownership and the same files. |
| `Mkfs.Builder.constructor` | mkfs/mkfs.c:94-119 | The zeroed image with its superblock is a valid unfinished image with empty files, inodes on disk included. |
| `Mkfs.Builder.Winode` | mkfs/mkfs.c:185-196 | The inode is stored in its place, nothing else on the image changes, and no file does. |
| `Mkfs.Builder.FileBlock` | mkfs/mkfs.c:262-282 | Finds or links the block of a file without changing a byte of any file or another data slot; it fails only if the image is used up. |
| `Mkfs.Builder.Iappend` | mkfs/mkfs.c:253-294 | The file becomes itself followed by the bytes and has no block behind its end, every other file is unchanged; it fails only if the file would be too long or the image is used up. |
| `Mkfs.Builder.RoundUp` | mkfs/mkfs.c:163-168 | The root directory grows to the next block boundary, by a whole block if it was aligned, and then ends in a hole; what it gains reads as zeros. The image stays in order if and only if the directory did not have the largest size already. |
| `Mkfs.MapBlock` | mkfs/mkfs.c:235-248 | The bits below the first free block are set and all others clear. |
| `Mkfs.Builder.Balloc` | mkfs/mkfs.c:235-248 | The finished image satisfies the ownership invariant that the kernel starts from and keeps, with every file, block list and inode as built; only the map block changes. |
| `Mkfs.Mount` | mkfs/mkfs.c:170-173 | Base case: the kernel boots from what `mkfs` makes, with the superblock that was written, the inodes and files as they were built, and exact block ownership. |
| `Sv39.PteRoundTrip` | kernel/riscv.h:341-352 | Decoding an encoded page-table entry gives it back, flags and page number. |
| `Sv39.IndicesUnique` | kernel/riscv.h:354-357 | The three 9-bit indices determine the virtual page and conversely, so distinct pages use distinct entries. |
| `Sv39.WalkReadsFlat` | kernel/vm.c:86-103 | Refinement: for every root and page the three-level walk through memory reads the flat map. |
| `Sv39.TakenKeepsInv` | kernel/kalloc.c:69-82 | Taking the first free page keeps the invariant that every page has exactly one role, and changes no translation. |
| `Sv39.GivenKeepsInv` | kernel/kalloc.c:47-63 | Giving back a held page keeps it and changes no translation. |
| `VmCode.Vm.constructor` | kernel/kalloc.c:27-40 | After `freerange` exactly the pages of the range are there and all are free. |
| `VmCode.Vm.Kalloc` | kernel/kalloc.c:69-82 | Returns the head of the free list, or 0 exactly when it is empty and then changes nothing. |
| `VmCode.Vm.Kfree` | kernel/kalloc.c:47-63 | The page becomes free and is the next to be allocated. |
| `VmCode.Vm.Walk` | kernel/vm.c:86-103 | Finds the lowest table for a page; with `alloc` it adds page-table pages only and no translation of any address space changes; 0 means that memory has run out or the table is missing. |
| `VmCode.Vm.Mappages` | kernel/vm.c:143-165 | On success exactly the pages asked for are mapped, to consecutive frames, and nothing else changes; on failure an initial part is, and memory has run out. For mappings that come to own their pages, as those of process memory, and for those that do not, as `kvmmap`'s, trapframe and trampoline. |
| `VmCode.Vm.Uvmunmap` | kernel/vm.c:171-192 | Removes exactly the mappings of its range and changes no other translation; the pages they own are freed if asked to, which takes that all are owned, and otherwise stay with the caller unchanged. |
| `VmCode.Vm.Uvmcreate` | kernel/vm.c:197-205 | The first free page becomes a root that maps nothing; every other page, root and translation stays as it was. 0 exactly when memory has run out, and then nothing changes. |
| `VmCode.Vm.Uvmalloc` | kernel/vm.c:226-249 | On success exactly the new pages are mapped, each to a zeroed page of its own, with the right permissions; it fails only when memory runs out, so that no more pages are free than were asked for, and then no translation has changed and only page-table pages remain. |
| `VmCode.Vm.Uvmdealloc` | kernel/vm.c:256-267 | Unmaps and frees exactly the pages beyond the new size. |
| `VmCode.Vm.Uvmcopy` | kernel/vm.c:306-333 | On success the child maps its own copies of the parent's pages with the same flags; it fails only when memory runs out, so that no more pages are free than were asked for, and then the child's map is unchanged. |
| `VmCode.Vm.Freewalk` | kernel/vm.c:272-287 | Frees a table and all tables below it, every one once, and nothing else. |
| `VmCode.Vm.Uvmfree` | kernel/vm.c:292-297 | After the user pages and all tables of a root are freed every page of its tree is back on the free list, every other page keeps its role, and no entry of any other address space has changed. |
| `VmSteps.EachPageOnce` | kernel/vm.c:171-333 | Conservation: every page of the allocator is in exactly one of the free list, where it occurs once, the hands of the kernel, the tables, or the mappings that own a page. |
| `VmSteps.NoSharedPages` | kernel/vm.c:306-333 | Two mappings that own the same page, in whatever address spaces, are one mapping. |
| `VmCopy.PokeStores` | kernel/vm.c:362-363 | A `memmove` through one mapping changes exactly those bytes of that address space: no byte of any other and no translation. |
| `VmCopy.OutThenIn` | kernel/vm.c:352-396 | Round trip: whatever user memory the pages make up after a `copyout`, what was stored is read there, by the user and by `copyin`. |
| `VmCode.Vm.Walkaddr` | kernel/vm.c:109-126 | Returns the page behind an address, and 0 exactly if the user has no access to it. |
| `VmCode.Vm.Copyin` | kernel/vm.c:377-396 | Returns the bytes that the user sees, for any alignment and across pages; it fails exactly if some address of the range is not accessible, and has then read all before the first such address. |
| `VmCode.Vm.Copyout` | kernel/vm.c:352-371 | User memory becomes itself with the bytes stored at the address in that address space alone, and no page changes but those that the range translates to; it fails exactly if some address of the range is not accessible, and has then stored all before the first such address. |
| `ProcSafety.BootInv` | kernel/proc.c:48-59 | After boot the process invariant holds. |
| `ProcSafety.SchedKeepsInv` | kernel/proc.c:445-472 | Every step of every CPU's scheduler loop keeps the invariant. |
| `ProcSafety.SwtchKeepsInv` | kernel/proc.c:482-499 | The context switch out of a process keeps it, with the process lock passing from the process to the scheduler. |
| `ProcSafety.ScanKeepsInv` | kernel/proc.c:391-435 | Every step of the scan in `wait` keeps it, including freeing a zombie child. |
| `ProcSafety.ExitKeepsInv` | kernel/proc.c:347-386 | Every step of `exit` keeps it: reparenting, both wakeup loops, becoming a zombie, letting go of `wait_lock`. |
| `ProcSafety.ForkKeepsInv` | kernel/proc.c:280-326 | Every step of `fork` keeps it, including its failure. |
| `ProcSafety.CallKeepsInv` | kernel/proc.c:503-604 | Yielding wherever no lock is held, in system calls as in user code, sleeping on another channel, killing and entering `wait` keep it. |
| `ProcSafety.WakeKeepsInv` | kernel/proc.c:567-580 | A wakeup by an interrupt handler or other code on any CPU that holds none of these locks, one in its scheduler loop included, keeps it. |
| `ProcSafety.NextKeepsInv` | kernel/proc.c:280-604 | Every step of every CPU keeps the invariant, a preemption in the middle of `fork`, `exit` or `wait` included. |
| `ProcSafety.RunKeepsInv` | kernel/proc.c:280-604 | The invariant holds after every interleaving, for any number of CPUs and processes. |
| `ProcSafety.LocksExact` | kernel/proc.c:482-562 | Mutual exclusion: after any run a CPU holds exactly the process lock that its code says it holds, and `wait_lock` exactly where the code is between taking and releasing it. |
| `ProcSafety.HandOff` | kernel/proc.c:445-510 | After any run, if nobody holds the lock of a process, it is RUNNING exactly when it is the current process of some CPU; that CPU is the only one and executes on its stack, and no CPU executes on the stack of a process that is not RUNNING. |
| `ProcSafety.SchedNeverPanics` | kernel/proc.c:482-499 | After any run a caller of `sched` holds its own process lock and no other lock and has left state RUNNING, and a zombie is never resumed. |
| `ProcSafety.ZombieIsOff` | kernel/proc.c:402-424 | When `wait` has the lock of a zombie child, the child has left its stack. |
| `ProcSafety.FreedWhenOff` | kernel/proc.c:402-424 | After any run, a process that `wait` is about to free is executed by no CPU and will not be resumed. |
| `ProcSafety.NoLostExit` | kernel/proc.c:331-435 | After any run, a process asleep in `wait`, or past its scan and about to sleep, has a zombie child only if it is the first process, was just given the child, and the giver is still about to wake it; never while `wait_lock` is free. |
| `ProcSafety.NoChildrenIsTrue` | kernel/proc.c:391-435 | `wait` gives up for want of children only if the process has none. |
| `ProcSafety.NoOrphans` | kernel/proc.c:331-341 | After any run every process but the first has a living parent other than itself, so every zombie can be waited for. |
| `ProcSafety.CollectedOnce` | kernel/proc.c:347-435 | Every exit of a process slot has been collected by `wait` exactly once, except that of a process that is now a zombie. |
| `Pipes.Tests` | kernel/pipe.c:88-117 | The tests for full and empty on the wrapped 32-bit counters mean that 512 bytes, or none, are in the ring. |
| `Pipes.WriteRunStores` | kernel/pipe.c:77-103 | A stretch of `pipewrite` stores exactly the bytes it counts, in order; how it ends says why. |
| `Pipes.WriteFailsPartWayIff` | kernel/pipe.c:84-97 | A write fails after storing something if and only if it is killed part-way with the read end open and neither a bad address nor a full ring stops it before. |
| `Pipes.CopyRunTakes` | kernel/pipe.c:118-126 | The copy loop removes the oldest bytes in order, and stops only at the count, at an empty ring or at a bad address. |
| `Pipes.EndOfFile` | kernel/pipe.c:106-130 | A read of at least one byte to a good address returns 0 if and only if the pipe is empty and its write end closed. |
| `PipeCode.Pipe.Write` | kernel/pipe.c:77-103 | The loop on the ring in memory is the write stretch of which the other results are proved. |
| `PipeCode.Pipe.Read` | kernel/pipe.c:106-130 | Likewise for the read stretch. |
| `PipeCode.Pipe.Close` | kernel/pipe.c:59-74 | Closes one end only, and reports the pipe dead exactly when both are closed. |
| `PipeRuns.Fifo` | kernel/pipe.c:59-130 | After any interleaving of any number of readers and writers, bytes removed followed by bytes in the ring are the bytes stored, and at most 512 are in the ring. |
| `PipeRuns.WritesInOrder` | kernel/pipe.c:77-103 | After any interleaving, what a thread has stored in its current write is the prefix of its source that it has counted. |
| `PipeRuns.SleepingWriterWaits` | kernel/pipe.c:77-103 | After any interleaving a writer sleeps only while 512 bytes are buffered and the read end is open. |
| `PipeRuns.ForgottenStep` | kernel/pipe.c:84-90 | A step makes a reader sleep on a pipe that is ready for it if and only if, before it, a reader sleeps and a writer is about to be killed part-way, with room for the bytes up to there and no bad address before. |
| `PipeRuns.SleepingReaderWaitsIff` | kernel/pipe.c:84-130 | Along a whole run no reader sleeps on a pipe that has data or no writers, if and only if the run has no such step. |
| `PipeRuns.KilledWriterForgetsReader` | kernel/pipe.c:84-87 | The run that shows it: a reader sleeps, a writer stores one byte of two and is killed. |
| `PipeRuns.NeverBothAsleep` | kernel/pipe.c:77-130 | In a run without such a step a reader and a writer never sleep at once. |
| `Bcache.GetWf` | kernel/bio.c:59-89 | `bget` keeps every buffer in the ring and the ring sorted by the time of last release. |
| `Bcache.ReleaseWf` | kernel/bio.c:117-137 | `brelse` keeps that too, moving a buffer that became unreferenced to the front. |
| `Bcache.VictimIsOldest` | kernel/bio.c:74-88 | The recycled buffer is unreferenced and of all unreferenced buffers the one released longest ago; the panic happens exactly if there is none. |
| `Bcache.GetKeeps` | kernel/bio.c:59-89 | `bget` returns a buffer for the block asked for, finds a cached one, and leaves every referenced buffer with its block and contents. |
| `BioCode.Unlinks` | kernel/bio.c:127-128 | Unlinking a buffer leaves `next` and `prev` describing the ring without it, in opposite directions. |
| `BioCode.Pushes` | kernel/bio.c:129-132 | Linking a buffer behind the head leaves them describing the ring with it in front. |
| `BioCode.BufferCache.constructor` | kernel/bio.c:37-53 | After `binit` the links describe all buffers, last one first, all unreferenced and unfilled. |
| `BioCode.BufferCache.Bget` | kernel/bio.c:59-89 | Both searches along the links find what the ring order says; the links stay as they were. |
| `BioCode.BufferCache.Brelse` | kernel/bio.c:117-137 | The links afterwards describe the ring with the buffer moved to the front, if it became unreferenced. |
| `BioCode.BufferCache.Bunpin` | kernel/bio.c:147-151 | Gives up one reference and leaves ring and contents alone. |
| `BioRuns.NextKeepsInv` | kernel/bio.c:59-151 | Every step of every thread keeps reference counts, locks and contents accounted for, one buffer per block, and of the buffers for block 0 of device 0 at most the foremost in the ring used or filled. |
| `BioRuns.UnusedIsClean` | kernel/bio.c:74-88 | A buffer without references is used by no thread and not pinned, and if it is the one that `bget` would find, its block is up to date on disk. |
| `BioRuns.UsedIsForemost` | kernel/bio.c:66-88 | A buffer in use is the one that `bget` finds for its block, also for block 0 of device 0. |
| `BioRuns.Transparent` | kernel/bio.c:93-137 | After any interleaving, a thread that holds a filled buffer, for any block of any device, finds in it what was last written to the block through any buffer, as without a cache. |
| `BioRuns.OneHolderPerBlock` | kernel/bio.c:59-103 | After any interleaving no two threads hold buffers for the same block, whichever it is. |
| `BioRuns.HeldIsNotRecycled` | kernel/bio.c:59-151 | After any interleaving no step recycles a buffer that is pinned or that a thread has a reference to. |
| `BioRuns.OneBufferPerBlockIff` | kernel/bio.c:59-89 | In every reachable state a block has at most one buffer, if and only if it is not block 0 of device 0, for which all buffers start out. |
| `FreeRing.PlaceIff` | user/umalloc.c:29-32 | The test with which `free` ends its search holds at a position of the ring if and only if that is the place of the block. |
| `FreeRing.StopsOnce` | user/umalloc.c:29-32 | It holds at exactly one position. |
| `FreeRing.AbsorbFloats` | user/umalloc.c:33-35 | Joining with the upper neighbour keeps the ring sorted and every byte in one block. |
| `FreeRing.SinkGood` | user/umalloc.c:38-40 | Joining into the lower neighbour gives a good ring. |
| `FreeRing.LinkInGood` | user/umalloc.c:41-42 | Linking the block in where it touches nothing gives a good ring, with no two adjacent free blocks. |
| `FreeRing.TakeEndGood` | user/umalloc.c:78-82 | Splitting the end off a block keeps the ring good, and the new header was not one before. |
| `FreeRing.EachByteOnce` | user/umalloc.c:25-90 | Conservation: every byte obtained from `sbrk` is in exactly one block, free or in use. |
| `FreeRing.BlocksDisjoint` | user/umalloc.c:25-90 | No two blocks, free or in use, overlap. |
| `FreeRing.FreeBlocksApart` | user/umalloc.c:25-44 | No two free blocks touch. |
| `Umalloc.Allocator.FindSpot` | user/umalloc.c:29-32 | The search in `free` terminates, at the place of the block. |
| `Umalloc.Allocator.Free` | user/umalloc.c:25-44 | Exactly that block leaves use, it lies in a free block afterwards, no memory is lost, other blocks keep their sizes, and the ring stays good. |
| `Umalloc.Allocator.Morecore` | user/umalloc.c:47-61 | Takes in exactly the memory asked for, wherever `sbrk` puts it, and makes the only block that is big enough free; the byte count is misread exactly from 2^31 bytes on, and the process then ends where `growproc` puts its end, which is where it was if the count is negative and larger than the process. |
| `Umalloc.Allocator.Malloc` | user/umalloc.c:64-90 | The search terminates and asks for memory at most once, exactly if no block fits; it then fails if refused; otherwise it adds one block of exactly the size needed, disjoint from all others. The ring is in order in any case. All its memory is the process's, except exactly if it must ask for 2^31 bytes or more: then the block returned reaches beyond the end of the process. |
| `Umalloc.SbrkArgumentIff` | user/umalloc.c:54 | `sbrk` is told the right byte count if and only if it is below 2^31. |
| `Umalloc.LargestRequest` | user/umalloc.c:69 | That is so if and only if the request is for at most 2^31 - 32 bytes. |
| `Umalloc.HugeRequestAsksForLittle` | user/umalloc.c:54-69 | A request for 2^32 - 1 bytes asks `sbrk` for 16. |
| `Virtqueue.Descriptors.Alloc3Desc` | kernel/virtio_disk.c:201-213 | Takes three different free descriptors exactly if there are three; otherwise all flags are as before, and descriptors have changed only where free, by being cleared. |
| `Virtqueue.Descriptors.FreeChain` | kernel/virtio_disk.c:186-197 | Terminates and frees the three descriptors of the chain and no other. |
| `VirtioSafety.NextKeepsInv` | kernel/virtio_disk.c:216-327 | Every step of driver threads, interrupt handler and disk keeps the invariant of queue and requests. |
| `VirtioSafety.FewInFlight` | kernel/virtio_disk.c:201-213 | At most two requests are in flight, so the rings of eight entries never fill. |
| `VirtioSafety.NextUsed` | kernel/virtio_disk.c:312-321 | The entry that the interrupt handler reads names a completed request, and the buffer recorded for it is that request's. |
| `VirtioSafety.DescriptorsConserved` | kernel/virtio_disk.c:157-213 | After any run, whatever the disk's order, free descriptors plus three per request in flight are eight. |
| `VirtioSafety.ChainsDisjoint` | kernel/virtio_disk.c:157-213 | After any run the chains of different requests in flight share no descriptor. |
| `VirtioSafety.FreeNeverPanics` | kernel/virtio_disk.c:170-197 | After any run the chain of a request in flight has three different descriptors in range, none of them free. |
| `VirtioSafety.RingsIntact` | kernel/virtio_disk.c:271-325 | After any run, however often the 16-bit indices wrap, the unread entries of both rings are intact and in order, and the indices tell correctly whether there are any. |
| `VirtioSafety.ReturnsAfterCompletion` | kernel/virtio_disk.c:282-291 | After any run `virtio_disk_rw` returns if and only if its own request has been completed and acknowledged. |
| `VirtioSafety.SleepersWait` | kernel/virtio_disk.c:232-285 | After any run a thread sleeps for descriptors only while fewer than three are free, and for its request only until that is acknowledged. |
| `Grep.SpellsCons` | user/grep.c:84-95 | A text is spelled by a list of items if and only if it can be cut so that the first item spells the front and the others the rest. |
| `Grep.HereOne` | user/grep.c:92-94 | A pattern that begins with a plain character or dot matches here exactly if the first character fits and the rest matches behind it. |
| `Grep.MatchHere` | user/grep.c:84-95 | Terminates, and returns true if and only if the pattern, read as items, spells a prefix of the text, the whole of it if the pattern ends with `$`. |
| `Grep.MatchStar` | user/grep.c:98-105 | Terminates, and returns true if and only if some number of fitting characters is followed by a match of the rest. |
| `Grep.Match` | user/grep.c:72-81 | Returns true if and only if the pattern matches at some position of the text, or at its start if it begins with `^`. |
| `GrepLines.RestIs` | user/grep.c:17-33 | What the loop accumulates is what was printed followed by the selection from the rest. |
| `GrepLines.PrintLines` | user/grep.c:21-28 | The inner loop prints the matching lines in the buffer and stops where no whole line is left. |
| `GrepLines.GrepFile` | user/grep.c:11-34 | Whatever sizes the reads have, the output is the matching lines of the input, up to the first line that is unfinished, longer than the buffer or holds a NUL. |

## Left out

- Machine-level code, traps, devices other than the disk queue, and the memory order of the hardware: locks are
  taken and released in single steps.
- `exec`, ELF loading, the console, `printf` and the shell.
- Path lookup, directory entries, link counts and the in-memory inode table.
- Type, device numbers and link count of an inode; they stay as they are in its block.
- `copyinstr`; and where pipes, files and `wait` call `copyin` or `copyout`, the outcome is a parameter, with
  file data copied as a whole or not at all.
- Interleaving of several threads inside the file system between two chunks of a `filewrite`; `FilewriteCrash` is
  about one thread, so that every chunk commits when it ends.
- The panics for running out of buffers or inodes: they depend on the load of the whole system.
- Error status from the disk, which makes the interrupt handler panic.
- The contents of registers and user memory in `fork` and `exit`, open files and the current directory.
- Progress: nothing says that the scheduler is fair or that the disk ever completes a request.
- LogProtocol.HeadRoundTrip: the words of a block are numbers of any size in the log modules; the 32-bit width of block numbers is modelled in `Blocks` and where `FsBoot` turns words into bytes.
- FsCode.FileSystem.Bfree: requires the block to be in use; that callers meet this is part of the proof of `Itrunc`.
- Mkfs.Builder.Ialloc: the inode number is not checked against the inode area, as in the program.
- Umalloc.Allocator.Malloc: calls after one for which `sbrk` has misread the byte count are not modelled, nor the fault that such a call may run into.
