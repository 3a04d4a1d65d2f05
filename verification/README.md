# A verified model of xv6

This project models the hard parts of the xv6 kernel for RISC-V, and of its user
programs, in Dafny, and proves what they are for:

- **The redo log** (`RedoLog`, `LogObject`, `GroupCommit`, `LogCalls`, `LogCache`). A disk with atomic block
  writes, `commit()` and recovery as sequences of writes that may be cut anywhere,
  and `begin_op`/`log_write`/`end_op` of any number of operations as a step system
  with crashes. The abstraction is `Meaning`: the home blocks as recovery would
  leave them. `LogCache` runs write_log and install_trans on the buffer cache of `Bio`.
- **Processes** (`Proc`, `ProcRule`, `ProcMoves`, `ProcTheorems`, `ProcSteps`,
  `ProcCalls`, `ProcProgress`, `ProcWitness`). The process table as a step system over CPUs, threads with program counters, per-process locks handed
  across `swtch`, `wait_lock`, and timer and device interrupts wherever no lock is
  held, in threads and in idle CPUs. `Inv` is an inductive invariant; the theorems
  quantify over every run: what may change an entry of the table, what each system
  call has done when it returns, and that some CPU can always go on.
- **Page tables and frames** (`PageTable`, `Vm`). Three-level trees in physical memory
  refine flat maps, and every frame is accounted for through every failure path.
- **Files** (`Arithmetic`, `Blocks`, `Fs`, `FileSystem`, `FileBytes`, `FileBudget`,
  `Dinodes`, `MkfsDisk`, `Mkfs`, `MkfsTree`, `Dirents`, `Links`). Exact block ownership, files as byte sequences, the
  transaction bound of `filewrite` and when it is met, the image and the tree `mkfs`
  builds, and link counts.
- **The buffer cache** (`Bio`), **the virtio disk driver** (`Virtio`) and **pipes**
  (`Pipe`): objects whose methods are the steps taken under the lock, in any order.
- **User programs**: the allocator (`Umalloc`), the shell's parser (`Shell`,
  `ShellGrammar`, `ShellRun`), and grep (`Grep`).

Sizes (LOGSIZE, MAXOPBLOCKS, NBUF, NPROC, BSIZE, NDIRECT, NUM, PIPESIZE and so on) are
parameters, so the theorems hold of every configuration that meets the stated
conditions. Where the code does less than one would expect, the model follows the
code, and a lemma gives the exact condition:

- `log_write` tests for a full log before it looks for the block in the log, and its
  second test needs `nlog > LOGSIZE` while mkfs sets them equal. In a state, it panics if
  and only if the log holds LOGSIZE blocks, or `nlog - 1` where that is less
  (`PanicsWhenFull`). In a configuration, no new block ever panics if and only if the log
  area is larger than the most blocks begin_op lets in: LOGSIZE from two operations on,
  MAXOPBLOCKS for one (`NeverPanicsIff`). Absorbed writes are safe in fewer
  configurations (`AbsorbedNeverPanicsIff`): xv6's own is not one of them.
- `filewrite` reckons with a bitmap block for every block of a chunk. The bound depends on
  how many the disk has (`ChunkLimit`): it is 7 on the disk mkfs makes and reaches
  MAXOPBLOCKS = 10 from four on, and both are met (`MkfsBudgetMet`, `FourBitmapsMet`).
- Neither `link` nor `create` asks whether the directory still has a name. Link counts stay
  exact if and only if it does, or nothing was named in it (`Link`, `Create`).
- mkfs's `ialloc` never asks whether there is an inode left. Past the inode blocks it
  writes the bitmap, then data. A run that gets to its end has put the files in the image
  if and only if their inode numbers fit the inode blocks, 208 with NINODES 200, and the
  16 bits of a directory entry (`Make`); `OneTooMany` is the first case that fails. When
  the numbers fit, a run gets to its end if and only if the names are accepted and there
  are blocks enough. The link counts are then exact if and only if no file is called "."
  or "..".
- mkfs rounds the root directory's size up to the *next* block. `RootRounding`: every
  byte of the root is mapped afterwards if and only if the size was no multiple of the
  block size.
- A pipe writer that is killed after storing bytes returns without waking readers.
  `Pipe.Write` says exactly when that leaves a reader asleep beside unread bytes, no
  other call does, and `Strand` is such a run.
- grep prints no line that lacks a newline or does not fit its buffer, and stops at the
  first of the latter; `Output` says so, and `Grep` is proved to print just that.

`dafny verify dfyconfig.toml` checks all of it.

## Model

| member | source | states |
|---|---|---|
| RedoLog.CrashAtomicity | kernel/log.c:68-203 | Cut commit() after any number of block writes, cut any number of recoveries anywhere, then recover: the home blocks are exactly the old ones or exactly the new ones, new if and only if the first write_head reached the disk, and the log is empty |
| RedoLog.CommitCut | kernel/log.c:178-203 | After every prefix of commit()'s writes the disk means the old state before the commit point and the new state from it on |
| RedoLog.CommitCompletes | kernel/log.c:193-203 | A commit that is not cut installs exactly the listed updates and leaves the log empty |
| RedoLog.CommitInOrder | kernel/log.c:178-203 | What commit() writes, one by one: the cached blocks to the log, the header that lists them, the same blocks to their homes, an empty header; nothing for an empty transaction |
| RedoLog.CommitPointMeansNew | kernel/log.c:99-114 | With the log blocks written and the header naming them, the disk means the home blocks with every update applied |
| RedoLog.RecoveryCut | kernel/log.c:68-123 | After every prefix of recovery's writes the disk means what it meant before |
| RedoLog.RecoverCompletes | kernel/log.c:116-123 | Recovery makes the home blocks equal to what the disk meant, and empties the log |
| RedoLog.RecoverIsIdempotent | kernel/log.c:116-123 | Recovering twice is recovering once |
| RedoLog.CutRecoveriesKeepMeaning | kernel/log.c:116-123 | Any number of recoveries, each cut anywhere, keep the meaning of the disk |
| RedoLog.FreshLog | kernel/log.c:55-65 | The zeroed log mkfs leaves is in order for every configuration initlog accepts: it is empty, and the disk means its home blocks |
| LogObject.Log.LogWrite | kernel/log.c:214-235 | Panics exactly on the three tests of the source, otherwise absorbs a listed block or appends a new one, and the buffer's data is what will be committed |
| LogObject.Log.WriteLog | kernel/log.c:178-191 | Issues one write per listed block, in order, of the cached data to the log area |
| LogObject.Log.WriteHead | kernel/log.c:102-114 | Writes the header block with the in-memory list and nothing else |
| LogObject.Log.ReadHead | kernel/log.c:86-97 | The in-memory list becomes the one on disk |
| LogObject.Log.InstallTrans | kernel/log.c:68-83 | Issues the installation writes whose prefixes are the crashes above, and unpins exactly the listed buffers unless recovering |
| LogObject.Log.RecoverFromLog | kernel/log.c:116-123 | Issues exactly recovery's writes; the home blocks become what the disk meant |
| LogObject.Log.Commit | kernel/log.c:193-203 | Issues exactly commit's writes; the home blocks become the old ones with the cached updates |
| LogCache.LogWrite | kernel/log.c:214-235 | On the buffer cache: the list becomes the absorbed list, and the pinned buffers are again exactly those of the listed blocks |
| LogCache.Copy | kernel/log.c:72-81 | bread twice, memmove, bwrite, brelse twice: one disk block becomes the current contents of another, and no other block is seen to change |
| LogCache.WriteLog | kernel/log.c:178-191 | On the buffer cache, whatever buffers other processes use or hold but those of the blocks copied: the disk changes by exactly the log writes of the current contents of the listed blocks, the pins hold, and bget panics only when every buffer is in use |
| LogCache.InstallTrans | kernel/log.c:68-83 | The same for install_trans, in a commit and during recovery: the disk changes by exactly the installation writes, nothing stays pinned, and afterwards every block whose buffer is not held is seen as it is on disk; bget panics in a commit only when every buffer is in use, during recovery when all but one are |
| LogCache.EnoughBuffers | kernel/bio.c:77-88 | With fewer listed blocks than buffers and no other users, a buffer is free |
| GroupCommit.NextInv | kernel/log.c:126-235 | Every step of every operation, of the commit and of recovery, and every crash, keeps the invariant |
| GroupCommit.RunInv | kernel/log.c:126-235 | The invariant holds at every point of every run |
| GroupCommit.GroupCommitSafety | kernel/log.c:126-175 | In every reachable state: committing means no operation is outstanding and none may log; logged block numbers are distinct; n plus the unused budgets of the outstanding operations is at most LOGSIZE |
| GroupCommit.EndIsEnabled | kernel/log.c:146-175 | No operation runs during a commit, and each can always end: the commit the last one starts meets the requirements of commit() |
| GroupCommit.SleepersAreWoken | kernel/log.c:126-175 | In every reachable state, while a process sleeps in begin_op, a commit is under way or n + (outstanding + 1) * MAXOPBLOCKS exceeds LOGSIZE; and unless MAXOPBLOCKS exceeds LOGSIZE a commit or an operation is under way, whose end calls wakeup |
| GroupCommit.CrashRecoversWholeOps | kernel/log.c:126-235 | Recovery from a crash in any reachable state gives exactly the durable log_writes, in order, over the disk at boot; an operation with a durable write is over and has no write that is not durable |
| GroupCommit.RunningView | kernel/log.c:214-235 | Between commits, the home blocks overlaid with the pinned buffers are all log_writes so far, in order |
| GroupCommit.DurableGrows | kernel/log.c:193-203 | A step makes either no log_write durable or all of the pending ones at once |
| GroupCommit.NeverPanicsIff | kernel/log.c:214-224 | log_write of a new block, by an operation within MAXOPBLOCKS, panics in no run if and only if nlog is greater than the most blocks ever listed: none when MAXOPBLOCKS is 0 or above LOGSIZE, MAXOPBLOCKS when LOGSIZE is less than twice that, otherwise LOGSIZE |
| GroupCommit.PanicsWhenFull | kernel/log.c:214-224 | In every reachable state with an operation outstanding, log_write panics if and only if the log lists LOGSIZE blocks, or nlog - 1 when that is less; also for a block that is listed already |
| GroupCommit.AbsorbedNeverPanicsIff | kernel/log.c:214-235 | A write to a block that is listed already panics in no run if and only if no operation ever lists a block (MAXOPBLOCKS is 0 or above LOGSIZE, or nlog is 1), or MAXOPBLOCKS < LOGSIZE < 2 * MAXOPBLOCKS and nlog > MAXOPBLOCKS + 1 |
| GroupCommit.ReachableMost | kernel/log.c:126-142 | No reachable state lists more blocks than that |
| GroupCommit.ReachFill | kernel/log.c:126-142 | Every number of blocks up to that is reached, as far as the log area has room, with an operation outstanding |
| GroupCommit.ReachFilled | kernel/log.c:126-142 | Operations can fill the log to every level, none beyond its budget, with any one operation left outstanding and its share of any size: those that end while others are outstanding leave their blocks behind |
| LogCalls.BeginsIff | kernel/log.c:126-142 | In every reachable state, recovery over: begin_op goes on if and only if no commit is under way and n + (outstanding + 1) * MAXOPBLOCKS <= LOGSIZE, and sleeps if and only if not |
| LogCalls.BeginAdds | kernel/log.c:136-140 | It adds one operation, which has logged nothing, and changes nothing else |
| LogCalls.OutstandingIff | kernel/log.c:126-142 | Some run has k operations outstanding at a time if and only if k * MAXOPBLOCKS <= LOGSIZE, for every k > 0 |
| LogCalls.LogWriteIff | kernel/log.c:214-224 | An operation within its budget gets past the tests of log_write if and only if fewer than LOGSIZE blocks, and fewer than nlog - 1, are listed |
| LogCalls.LogWriteLists | kernel/log.c:226-235 | The block is listed once, at the end if it is new, and charged to the operation only then; the contents seen change at that block alone; one write more is pending, and nothing reaches the disk |
| LogCalls.EndTakes | kernel/log.c:146-175 | end_op takes its operation away and keeps list, cache and writes; it starts the commit if and only if it was the last, and otherwise wakes every sleeper |
| LogCalls.CommitGoesOn | kernel/log.c:163-174 | A commit or a recovery that is not over can always take its next step |
| LogCalls.CommitMakesDurable | kernel/log.c:193-203 | Over every run: when a commit ends that no crash has cut, every write pending at its start is durable, the home blocks hold all writes so far, and the log is empty |
| LogCalls.CrashesAnywhere | kernel/log.c:116-123 | A crash is possible in every reachable state, also in a commit and in recovery; disk and durable writes stay, and the rest is lost |
| ProcTheorems.NextInv | kernel/proc.c:280-604 | Every step of every CPU keeps the invariant, interrupts included |
| ProcTheorems.IntrInv | kernel/trap.c:134-161 | So does every step of an interrupt in kernel code: yield() in the middle of a system call that holds no lock, its return there later, and wakeup() by a device |
| ProcTheorems.IdleWakeInv | kernel/trap.c:164-220 | So does wakeup() by an interrupt that finds the CPU in scheduler() |
| ProcTheorems.InitInv | kernel/proc.c:48-59 | The table after boot meets the invariant |
| ProcTheorems.RunInv | kernel/proc.c:280-604 | The invariant holds at every point of every run |
| ProcTheorems.NoLostWakeup | kernel/proc.c:347-435 | Whenever wait_lock is free, a process asleep in wait() has no ZOMBIE child |
| ProcWitness.SomeoneSleepsInWait | kernel/proc.c:391-435 | A run, from boot through fork() and wait(), to a process that sleeps in wait() with wait_lock free and a live child |
| ProcWitness.SomeoneIsReaped | kernel/proc.c:347-435 | The same run goes on through the child's exit() and the wakeup to a wait() that has reaped it |
| ProcTheorems.ParentsAreLive | kernel/proc.c:331-386 | At all times a parent is neither ZOMBIE nor UNUSED |
| ProcTheorems.ReapedOnce | kernel/proc.c:391-435 | No pid is returned by wait() twice, and each one returned had exited |
| ProcTheorems.ReapIsSafe | kernel/proc.c:403-424 | wait() frees a ZOMBIE child of the caller and returns its pid; the child's kernel stack is on no CPU, its thread inside the swtch of its exit() |
| ProcTheorems.ZombieStaysParked | kernel/proc.c:445-472 | For as long as a process stays ZOMBIE, over any part of any run, its thread, once off its CPU, is started on none |
| ProcTheorems.CurrentOnOneCpu | kernel/proc.c:445-472 | A process is the current process of at most one CPU |
| ProcTheorems.RunningIsCurrent | kernel/proc.c:445-510 | A RUNNING process whose lock is free is current on exactly one CPU, which runs its thread |
| ProcTheorems.ZombieNeverResumes | kernel/proc.c:482-499 | A thread that comes back from swtch, called by sched() or by an interrupt, holds its p->lock on that CPU and is not one that called exit() |
| ProcCalls.WaitEnds | kernel/proc.c:391-435 | Over every run, one round of wait() ends in one of two ways: it returns, and just before it has reaped a ZOMBIE child and added its pid to the result, or failed to copy out the status of one, or found no process whose parent is the caller, or found the caller killed, adding no pid; or it sleeps on the caller's own address without wait_lock, and then there was a child, no child was a ZOMBIE, and the caller was not killed |
| ProcCalls.RunKids | kernel/proc.c:398-421 | At every point of the scan havekids is set if and only if a child has been seen |
| ProcCalls.KillReturns | kernel/proc.c:585-604 | Over every run, when kill(pid) returns it has just marked the process with that pid killed, and made it RUNNABLE if it was SLEEPING; or it has seen every process of the table without that pid |
| ProcCalls.WakeupReturns | kernel/proc.c:566-579 | Over every run, when wakeup(chan) returns, every process but the caller has, at some time during the call, not been asleep on chan |
| ProcCalls.ForkReturns | kernel/proc.c:110-325 | Over every run, when fork() returns it has just made a child of the caller RUNNABLE, with a pid not given before the call; or given back the entry it had allocated; or seen every entry of the table in use |
| ProcCalls.SchedulerRound | kernel/proc.c:445-472 | Over every run, in one round of scheduler() a CPU runs every process, or sees that it is not RUNNABLE |
| ProcCalls.SleeperIsWoken | kernel/proc.c:536-604 | Over every run, a process that slept on a channel and no longer does was woken by wakeup() of that channel or by kill() of its pid |
| ProcCalls.ChangeHasCause | kernel/proc.c:110-604 | Over every run, a change of a table entry has one of thirteen causes, each of which fixes the new entry, the state it starts from and who makes it |
| ProcSteps.StepCause | kernel/proc.h:85-96 | The same for one step; it holds p->lock where it changes state, chan, killed or pid, and wait_lock where it changes parent |
| ProcSteps.OnlyOwnSteps | kernel/proc.c:445-510 | A thread's place and registers change in its own steps only, or when allocproc sets up a new thread |
| ProcSteps.SchedulerSteps | kernel/proc.c:445-472 | scheduler() runs a process it has locked if it is RUNNABLE, and goes on from one that is not or that has run |
| ProcProgress.NoDeadlock | kernel/proc.c:23-27 | In every state of every run some CPU can take a step: who holds the lock of a process waits for no lock, who holds wait_lock only for those |
| ProcProgress.ThreadCan | kernel/proc.c:280-604 | A thread that has the lock of a process, or finds all locks free, can go on wherever it is |
| ProcRule.UpdateInv | kernel/proc.c:280-604 | A step that makes the right moves keeps all ten parts of the invariant |
| PageTable.PteRoundTrip | kernel/riscv.h:348-352 | PTE2PA undoes PA2PTE for page-aligned addresses whatever the flags, and the flags come back |
| PageTable.PxNamesPage | kernel/riscv.h:355-363 | Below MAXVA, two addresses have the same three 9-bit indices if and only if they are in the same page |
| PageTable.TablesUnshared | kernel/vm.c:86-103 | In a well-shaped forest a table page hangs in one place of one tree |
| PageTable.LeafTableIsOwned | kernel/vm.c:86-103 | A walk that does not stop early ends in the table page owned by that root at that path |
| PageTable.SetLeafView | kernel/vm.c:154-190 | Storing a leaf PTE changes the mapping of one page of one address space and of no other |
| PageTable.AddTableView | kernel/vm.c:95-100 | Hanging a zeroed table page into a tree changes no mapping of any address space |
| Vm.MapsInserts | kernel/vm.c:143-165 | What mappages does is an insertion into the flat map of that address space, and nothing to any other |
| Vm.UnmapsDeletes | kernel/vm.c:171-192 | What uvmunmap does is a deletion from the flat map, and nothing to any other |
| Vm.PopulatesUndone | kernel/vm.c:226-267 | Unmapping the pages a failed growth had added gives back the mappings, and the user frames, from before it |
| Vm.FreedTreeKeeps | kernel/vm.c:272-287 | With the tables of one root gone, every other address space maps what it did |
| Vm.Kernel.constructor | kernel/kalloc.c:27-31 | The partition holds at first, with every frame held by the kernel |
| Vm.Kernel.Freerange | kernel/kalloc.c:34-40 | Exactly the page addresses whose pages lie within [start, end) become free |
| Vm.Kernel.Kalloc | kernel/kalloc.c:69-82 | Fails if and only if nothing is free; otherwise hands out a frame that was in no other use, filled with junk |
| Vm.Kernel.Kfree | kernel/kalloc.c:47-63 | Panics if and only if the address is no frame, changing nothing; otherwise the frame goes from the caller to the free list, filled with junk, and the partition holds |
| Vm.Kernel.Walk | kernel/vm.c:86-103 | Panics if and only if the address is not below MAXVA, changing nothing; otherwise finds the PTE of the address by descending; without alloc nothing changes, with it only empty tables are added, and failure means no frame is free |
| Vm.Kernel.Mappages | kernel/vm.c:143-165 | Maps the pages that hold an address of the range, one after the other, all of them on success, a prefix when frames have run out; panics only on size 0, or at the first page that is mapped already or past MAXVA, with the pages before it mapped |
| Vm.Kernel.Uvmunmap | kernel/vm.c:171-192 | Unmaps exactly the pages given, frees exactly their frames if asked to, and leaves every other frame's contents alone; panics only on an unaligned address or at the first page that is not mapped, with the pages before it gone |
| Vm.Kernel.UnmapOne | kernel/vm.c:179-191 | One round of that loop, which panics if and only if the page is not mapped |
| Vm.Kernel.AddPage | kernel/vm.c:236-246 | A new frame with given contents is mapped, or the frame is back and no mapping has changed; panics only on a page that is mapped already or past MAXVA |
| Vm.Kernel.Uvmdealloc | kernel/vm.c:256-267 | Shrinks the address space: exactly the pages that start at or above the new size and below the old one go, frames and all |
| Vm.Kernel.Uvmalloc | kernel/vm.c:226-249 | On success every page that starts at or above oldsz and below newsz, none of them mapped before, is mapped with the right flags to a zeroed frame of its own, and no other page changes; on failure every mapping and user frame is as before, more tables at most, and memory had run out; panics only when some page of the growth is mapped already or past MAXVA |
| Vm.Kernel.Uvmcopy | kernel/vm.c:306-333 | On success every address below sz is mapped in the child, each page with the flags and contents of the parent's, in a frame of its own, and no other page changes; on failure as above; panics only when some page is missing in the parent, mapped in the child, or past MAXVA |
| Vm.Kernel.Freewalk | kernel/vm.c:272-287 | Frees exactly the tables below and including a table that maps nothing |
| Vm.Kernel.Uvmcreate | kernel/vm.c:197-205 | A new root that maps nothing, or nothing at all when no frame is free |
| Vm.Kernel.Uvmfree | kernel/vm.c:292-297 | Panics if and only if some page that starts below sz is not mapped; otherwise every table and every user frame of the address space goes to the free list, and nothing else does; every other mapping stays |
| Vm.PagesOf | kernel/riscv.h:338-339 | PGROUNDUP in pages: sz <= n * PGSIZE < sz + PGSIZE |
| Vm.Span | kernel/vm.c:149-163 | How many pages a range of bytes touches: the last of them holds its last byte |
| Blocks.WordPut | kernel/fs.c:407-414 | Writing word j of an indirect block changes word j and no other |
| Blocks.BitAfterSet | kernel/fs.c:75-77 | Setting a bit by or-ing a mask into its byte changes that bit and no other |
| Blocks.BitAfterClear | kernel/fs.c:98-102 | Clearing a bit changes that bit and no other |
| Fs.OwnershipIsExact | kernel/fs.c:66-105 | The invariant in plain words: a block's bit is set if and only if the block is metadata or some inode or its indirect block refers to it; no two references share a block |
| Fs.MarkBits | kernel/fs.c:66-105 | Marking a block in the bitmap changes that block's bit only, across all bitmap blocks |
| Fs.OwnAdd | kernel/fs.c:383-421 | Filling an empty slot with a block that was free keeps ownership exact |
| Fs.OwnCut | kernel/fs.c:426-453 | Freeing an owned block keeps ownership exact but for the slot that still names it |
| FileSystem.Filesystem.Balloc | kernel/fs.c:66-88 | Returns the first free block, zeroed and marked, or 0 if and only if every block is in use; logs that block and its bitmap block |
| FileSystem.Filesystem.Bfree | kernel/fs.c:92-105 | Panics if and only if the block's bit is clear, changing nothing; otherwise clears it; callers are proved to free only blocks whose bit is set |
| FileSystem.Filesystem.FillAddr | kernel/fs.c:388-406 | An empty slot of the inode gets a block nobody owned, or the disk is full and nothing changes |
| FileSystem.Filesystem.FillWord | kernel/fs.c:407-416 | The same for a word of the indirect block, which is logged too |
| FileSystem.Filesystem.Bmap | kernel/fs.c:383-421 | The reference is unchanged if there was one; otherwise it is a new zeroed block that belongs to this slot alone; 0 only when the disk is full; no other slot of any inode changes; ownership stays exact; what is logged |
| FileSystem.Filesystem.BmapIndirect | kernel/fs.c:397-418 | The same for the part through the indirect block, which may allocate two blocks and fail between them |
| FileSystem.Filesystem.Itrunc | kernel/fs.c:426-453 | Frees exactly the blocks of this inode, each once, and clears it; other files and their data stay; logs exactly the bitmap blocks of what it freed and the block of the inode |
| FileSystem.Filesystem.TruncDirectSlots | kernel/fs.c:432-437 | The loop over the direct slots |
| FileSystem.Filesystem.TruncThroughIndirect | kernel/fs.c:439-449 | The loop over the indirect block, and the indirect block itself |
| FileBytes.Readi | kernel/fs.c:472-496 | Returns the slice of the file clipped at its size, and 0 or -1 exactly on the source's tests; allocates and changes nothing |
| FileBytes.Writei | kernel/fs.c:506-539 | Returning r, it has replaced exactly r bytes at off and grown the file if they reach past its end; other files are as they were; short only when the disk is full or the source unreadable; -1 exactly on the source's tests, changing nothing; no holes arise |
| FileBytes.SpliceAt | kernel/fs.c:500-505 | What replacing means: the bytes written are read back, every other byte stays, and the file grows only as far as they reach |
| FileBytes.WriteRound | kernel/fs.c:516-528 | One round of that loop, up to the end of a block |
| FileBytes.FirstIsMapped | kernel/fs.c:511-521 | Without holes, the block an unaligned write starts in is mapped already |
| FileBytes.ChunkBudget | kernel/file.c:149-167 | A chunk of at most ((MAXOPBLOCKS-1-1-2)/2) blocks logs at most MAXOPBLOCKS distinct blocks, whatever the offset, the file and the number of bitmap blocks |
| FileBytes.WriteChunk | kernel/file.c:162-167 | One transaction: writei's contract and the bound |
| FileBytes.Filewrite | kernel/file.c:149-175 | Every transaction keeps the bound; the file has exactly the bytes by which the offset moved; all of them or -1, and -1 only for the reasons writei has or, with no transaction at all, a negative count |
| FileBudget.TightChunk | kernel/file.c:149-167 | On any valid file system without holes where the file has no indirect block, the bytes start inside its last direct block and end in the q-th block after it, and exactly q + 1 blocks are free: writei writes them all and logs exactly q + 3 blocks and the bitmap blocks of the free ones |
| FileBudget.ChunkLimit | kernel/file.c:149-167 | A chunk of q blocks logs at most q + 3 blocks and min(bitmap blocks, q + 1) more, on any valid file system without holes |
| FileBudget.ExactlyLogged | kernel/fs.c:506-539 | What writei has logged on such a file system, counted |
| FileBudget.CrossingExists | kernel/fs.c:383-421 | Such file systems exist, for every geometry with enough blocks and inodes, every q and every choice of q + 1 free blocks |
| FileBudget.MkfsBudget | kernel/param.h:9-12 | With MAXOPBLOCKS 10 a chunk is 3 blocks, and on the disk of FSSIZE 2000 that mkfs makes the bound is 7 |
| FileBudget.MkfsBudgetMet | mkfs/mkfs.c:20-27 | It is met there, with NDIRECT 12 and 1024-byte blocks, by a disk full of files of 12 blocks whose inodes fit the inode blocks |
| FileBudget.FourBitmapsMet | kernel/file.c:149-167 | On a disk with four bitmap blocks the bound is 10, which is MAXOPBLOCKS, and it is met |
| MkfsDisk.LayoutIsOk | mkfs/mkfs.c:20-27 | Every block mkfs's layout has is covered by a bitmap block, and the bitmap, log and inode regions lie below the first data block, none overlapping |
| MkfsDisk.LayoutPlan | mkfs/mkfs.c:20-27 | The inode blocks lie between the log and the bitmap, and hold more than NINODES inodes |
| MkfsDisk.SlotIs | kernel/fs.h:41-45 | The inode blocks hold exactly the numbers below IPB times their count; the next is the first place of the bitmap |
| Dinodes.RinodeWinode | mkfs/mkfs.c:184-209 | An inode read back from its block is the inode written, and writing one changes no other, IPB of them to a block |
| Dinodes.WordPutWords | kernel/fs.h:31-39 | The words of a struct written into a block are those words, and no other word of the block changes |
| Mkfs.Image.constructor | mkfs/mkfs.c:93-115 | The zeroed image, seen with its metadata marked, meets the kernel's invariants, and holds no inode |
| Mkfs.Image.Ialloc | mkfs/mkfs.c:221-232 | A new empty inode with the next number and one link, in its place on the disk; past the inode blocks, which it does not notice, the block that is written instead |
| Mkfs.Image.StoreInode | mkfs/mkfs.c:184-196 | Writing an inode into its block changes no file, no bit and no other inode |
| Mkfs.Image.Iappend | mkfs/mkfs.c:253-294 | Succeeds if and only if the file and the image have room for the bytes; then the file is what it was followed by them, and takes exactly the blocks for its size, zero after its end; other files and inodes stay; ownership stays exact and there are no holes |
| Mkfs.Image.AppendRound | mkfs/mkfs.c:264-291 | One round of that loop, up to the end of a block, and exactly when it cannot go on |
| Mkfs.Image.BlockFor | mkfs/mkfs.c:266-283 | The block for a file position: the one it has, or the next block of the image, zero and owned by that slot alone; fails if and only if the image has not the blocks that are missing |
| Mkfs.Image.IndirectFor | mkfs/mkfs.c:273-283 | The same through the indirect block |
| Mkfs.Image.Balloc | mkfs/mkfs.c:235-248 | Refuses if and only if the blocks do not fit one bitmap block; otherwise writes the block with the first bits set, and nothing else |
| MkfsDisk.BitmapBits | mkfs/mkfs.c:235-248 | Of that block exactly the first `used` bits are set |
| MkfsDisk.WrittenBitmap | mkfs/mkfs.c:235-248 | Writing it last is the same as having marked every block when it was handed out |
| Mkfs.Image.Finish | mkfs/mkfs.c:163-170 | Gets to its end if and only if the blocks fit one bitmap block; the finished disk meets the kernel's invariants and holds every inode in its place and every file with its bytes, the root with zeros up to its rounded size; a block's bit is set if and only if it was handed out or is metadata |
| Mkfs.RootRounding | mkfs/mkfs.c:163-168 | After the root's size is rounded, the image has no holes if and only if the size was not a multiple of the block size |
| Dirents.DecodeEncode | kernel/fs.h:53-60 | A directory entry packed into 16 bytes and read back is the entry, names of all 14 characters included |
| Dirents.EncodedBytes | kernel/fs.h:53-60 | The bytes: the inode number, low byte first, then the name, padded with NULs |
| Dirents.EntriesRound | kernel/fs.h:53-60 | So is a whole directory |
| MkfsTree.CopyIn | mkfs/mkfs.c:154-157 | The loop over read() puts the whole file into its inode and changes no other, if and only if file and image have room |
| MkfsTree.EntersName | mkfs/mkfs.c:132-154 | With or without "user/" and a leading underscore, a file is entered under the first 14 characters of its own name |
| MkfsTree.TreeCounts | mkfs/mkfs.c:117-152 | A root that lists each file once and then empty entries, and link counts 1, has exact counts if and only if no file is called "." or ".." |
| MkfsTree.Build | mkfs/mkfs.c:117-161 | From the zeroed image to the last file: unless it leaves the inode blocks, main dies if and only if a name is refused, a file cannot be opened or is too long, or the blocks do not suffice; the blocks in use are known exactly |
| MkfsTree.AddFile | mkfs/mkfs.c:131-161 | One turn of that loop |
| MkfsTree.RootLists | kernel/fs.h:53-60 | The root read back is the entries written and then empty ones, if and only if their inode numbers fit 16 bits |
| MkfsTree.BitmapIsNoInode | mkfs/mkfs.c:221-248 | Whatever came before, after balloc the place of the first inode past the inode blocks holds no type of inode |
| MkfsTree.Make | mkfs/mkfs.c:117-172 | All of main: when the inode numbers fit, it gets to its end if and only if names and blocks allow; whenever it does, the disk holds every file under its name if and only if the numbers fit the inode blocks and a directory entry; then the disk meets the kernel's invariants, and its link counts are exact if and only if no file is called "." or ".." |
| MkfsTree.OneTooMany | mkfs/mkfs.c:221-232 | With xv6's own numbers the inode blocks hold 208 inodes, and 207 empty files, which fit otherwise, are on no disk that balloc finishes |
| Umalloc.Heap.constructor | user/umalloc.c:21-22 | Before the first malloc there is no heap |
| Umalloc.Heap.Free | user/umalloc.c:25-44 | The block is no longer allocated, every other allocation stays with every cell in it, and the heap is well formed: free blocks in address order on one circle, none touching another, free and allocated blocks tiling the memory; freep is the last element of the circle below it |
| Umalloc.Heap.FindPredecessor | user/umalloc.c:30-32 | The search around the circle terminates at the place where the block belongs |
| Umalloc.SearchStep | user/umalloc.c:30-32 | Each step of that search either may stop, at the right place, or comes nearer to it around the circle |
| Umalloc.Heap.Relink | user/umalloc.c:33-43 | Joining upward and downward, on memory |
| Umalloc.FreeKeepsHeap | user/umalloc.c:33-43 | In all four cases of joining the heap stays well formed |
| Umalloc.FreeKeepsOthers | user/umalloc.c:33-43 | In all four cases exactly the freed block is no longer allocated |
| Umalloc.FreeBlocksApart | user/umalloc.c:25-44 | In a well-formed heap no free block ends where another begins |
| Umalloc.Join | user/umalloc.c:33-40 | Joining neighbours keeps every unit in exactly one block |
| Umalloc.Split | user/umalloc.c:78-82 | So does splitting a block |
| Umalloc.Heap.Morecore | user/umalloc.c:47-61 | Adds exactly max(nu, 4096) units to the heap and frees them, so that a block of nu units is free; or fails and changes nothing |
| Umalloc.Heap.Take | user/umalloc.c:74-86 | A block of exactly nunits, the tail of a larger one or all of an equal one, becomes allocated, and the next search starts before it |
| Umalloc.Heap.Malloc | user/umalloc.c:64-90 | Terminates with at most one morecore; the block has the least number k of 16-byte units with (k - 1) * 16 >= nbytes, is new, disjoint from every other, and no cell of an allocated block is written; if some free block has k units it is the tail of the first such one on the way round from freep, and the heap does not grow; otherwise the heap grows; 0 if and only if no free block has k units and sbrk fails, changing no allocation |
| Umalloc.Heap.Search | user/umalloc.c:73-89 | The loop of malloc, with that contract |
| Umalloc.Units | user/umalloc.c:69 | The least number of units that hold a header and nbytes bytes |
| Umalloc.Heap.Store | user/umalloc.c:64-90 | A program may store into any cell of a block it was given: the heap stays well formed and no other block changes |
| Links.LinkKeeps | kernel/sysfile.c:124-170 | Naming a file once more and raising its count keeps counts equal to names |
| Links.DeadLinkBreaks | kernel/sysfile.c:124-170 | In a directory without links it does not, whatever the rest: the name there does not count |
| Links.BornKeeps | kernel/fs.c:199-219 | So does an inode without links and names |
| Links.MakeKeeps | kernel/sysfile.c:265-294 | So does a new directory with its dots, its name and its parent's raised count |
| Links.DeadMakeBreaks | kernel/sysfile.c:265-294 | In a directory without links it does not: the parent has a link again, and no entry |
| Links.UnlinkFileKeeps | kernel/sysfile.c:222-233 | So does removing a name of a file |
| Links.UnlinkDirKeeps | kernel/sysfile.c:222-233 | So does removing an empty directory |
| Links.EmptyDirCount | kernel/sysfile.c:174-186 | A directory that holds only its dots has link count 1, is not the root, and is named in one place, the directory its ".." names |
| Links.NamedIsLinked | kernel/sysfile.c:211-216 | What a live directory names has a positive count: the panic of unlink is unreachable |
| Links.ReapKeeps | kernel/fs.c:337-362 | So does freeing an inode without links |
| Links.MkfsCounts | mkfs/mkfs.c:117-160 | Link counts of 1 are exact in a root that names every file once; MkfsTree.Make derives this shape from what main does |
| Links.Directories.Dirlookup | kernel/fs.c:552-575 | The first entry with the name, or there is none |
| Links.Directories.Dirlink | kernel/fs.c:580-606 | Writes the entry into the first empty place, or at the end; fails if and only if the name is there already or the write fails, changing nothing |
| Links.Directories.Isdirempty | kernel/sysfile.c:174-186 | Whether every entry from the third on is empty |
| Links.Directories.Link | kernel/sysfile.c:124-170 | Succeeds exactly when the target is no directory, the parent exists, the name is free and the write succeeds; otherwise everything, the raised count included, is as before; counts stay exact if and only if it fails or the parent has links |
| Links.Directories.Unlink | kernel/sysfile.c:189-243 | Removes exactly the first entry with that name and lowers the counts; refuses exactly dots, missing names and directories that are not empty, changing nothing |
| Links.Directories.Ialloc | kernel/fs.c:199-219 | The first free inode, or there is none |
| Links.Directories.Create | kernel/sysfile.c:246-302 | Returns an existing file, or makes the new inode with its name (a directory with its dots); makes and returns nothing if and only if the name is taken, or there is no inode or no room for an entry; the rollbacks leave at most an inode without links; ilock panics if and only if the name is of a free inode, which only a dot of a directory without links can be; counts stay exact if and only if nothing was made or the parent has links |
| Links.Directories.FinishDir | kernel/sysfile.c:273-301 | The part for directories with its rollback, and when counts stay exact |
| Links.Directories.Iput | kernel/fs.c:337-362 | Drops a reference; the last one frees the inode if and only if it has been read and has no links |
| Bio.Unlink | kernel/bio.c:128-129 | Taking a buffer out of the list leaves one well-formed ring of the others |
| Bio.InsertFirst | kernel/bio.c:130-133 | Putting it back at the front leaves one well-formed ring |
| Bio.MovedIsRecent | kernel/bio.c:128-133 | Moving a buffer to the front keeps the ring in order of when buffers were left unused |
| Bio.Cache.constructor | kernel/bio.c:37-53 | binit links all buffers into one ring |
| Bio.Cache.Bget | kernel/bio.c:59-89 | Returns the one buffer of that block, with one more reference; if there is none, the buffer without users and pin that brelse left unused longest ago, which is to hold the block; fails if and only if the block is in no buffer and all are in use; no block's current contents change |
| Bio.Cache.Search | kernel/bio.c:66-73 | The forward search finds the block's buffer if there is one |
| Bio.Cache.Unused | kernel/bio.c:77-87 | The backward search finds, of the unused buffers, the one left unused longest ago, if there is any |
| Bio.Cache.Fill | kernel/bio.c:93-103 | bread returns a buffer with the block's current contents |
| Bio.Cache.Modify | kernel/log.c:205-213 | Changing a locked buffer changes the current contents of its block and of no other |
| Bio.Cache.Bwrite | kernel/bio.c:107-112 | The disk block becomes the buffer's data; no current contents change |
| Bio.Cache.Bpin | kernel/bio.c:140-144 | A pinned buffer is in use |
| Bio.Cache.Bunpin | kernel/bio.c:147-151 | Its inverse |
| Bio.Cache.Unlock | kernel/bio.c:117-122 | After it the cache is in order if and only if the buffer is pinned, was not read, or equals its disk block |
| Bio.Cache.Brelse | kernel/bio.c:117-137 | Drops one user; the last one makes it the buffer left unused most recently, by moving it to the front of the ring; no current contents change |
| Bio.ViewRecycled | kernel/bio.c:77-87 | Recycling an unused buffer changes no block's current contents |
| Shell.RoundTrip | user/sh.c:329-447 | For every command tree with legal words and fewer than MAXARGS arguments, parsing its print gives the tree back |
| Shell.AcceptedReprints | user/sh.c:329-447 | Every line the shell accepts, with whatever white space, is a command that can be printed, and the print is accepted as the same command |
| ShellGrammar.AcceptsIff | user/sh.c:329-447 | For every line and every command: the shell parses the line to that command if and only if the line's tokens derive it. A simple command's arguments are its words that follow no redirection symbol, in order, fewer than MAXARGS; its redirections are all pairs of a symbol and the word after it, in order, wherever they stand; lines, backgrounds, pipes and blocks are made of these |
| ShellGrammar.RefusesIff | user/sh.c:329-447 | The shell refuses a line if and only if its tokens derive no command |
| ShellGrammar.LexemesIff | user/sh.c:267-309 | gettoken splits any line into its tokens, which are unique: symbols, >> and longest words, with white space between them and nothing else |
| ShellGrammar.LineParses | user/sh.c:346-360 | What is derived is parsed, wherever it stands, with the cursor left before what follows |
| ShellGrammar.LineSound | user/sh.c:346-360 | What parseline has parsed is derived by the tokens it has read |
| ShellGrammar.ArgsTake | user/sh.c:430-443 | The loop of parseexec takes all words and all redirections of a simple command, however they are mixed |
| Shell.LineRound | user/sh.c:346-360 | The same for parseline, wherever the line stands, with the cursor left at what follows |
| Shell.PipeRound | user/sh.c:363-373 | The same for parsepipe |
| Shell.ExecRound | user/sh.c:417-447 | The same for parseexec and parseblock |
| Shell.RedirsRound | user/sh.c:376-398 | The same for parseredirs, in order |
| Shell.ArgsRound | user/sh.c:430-443 | The same for the argument loop |
| ShellRun.Gettoken | user/sh.c:267-309 | The token with its span, and the cursor after white space |
| ShellRun.Peek | user/sh.c:312-321 | Whether the next character that is no white space is one of toks |
| ShellRun.Parseredirs | user/sh.c:376-398 | The loop terminates and computes the redirections of module Shell |
| ShellRun.Parseexec | user/sh.c:417-447 | The same for the argument loop, with too many arguments and missing words as errors |
| ShellRun.Parseblock | user/sh.c:401-414 | The same, with missing parentheses as errors |
| ShellRun.Parsepipe | user/sh.c:363-373 | The same |
| ShellRun.Parseline | user/sh.c:346-360 | The same, the loop over & included |
| ShellRun.Parsecmd | user/sh.c:329-343 | Computes the parse of module Shell, or fails as it does; afterwards every word read as a C string is exactly its token |
| ShellRun.Nulterminate | user/sh.c:451-494 | Writes NUL at the ends of the words of the command, and nowhere else |
| ShellRun.EndsAreSafe | user/sh.c:451-494 | Those ends are white space, symbols or the end of the line: in no word |
| ShellRun.WordsSurvive | user/sh.c:451-494 | So every word is still there, ends in NUL and holds none |
| Virtio.Driver.constructor | kernel/virtio_disk.c:62-153 | All descriptors are free |
| Virtio.Driver.AllocDesc | kernel/virtio_disk.c:157-166 | The first free descriptor, or there is none |
| Virtio.Driver.Alloc3 | kernel/virtio_disk.c:202-213 | Three distinct free descriptors, or none is taken and at most two are free |
| Virtio.Driver.FreeDesc | kernel/virtio_disk.c:170-182 | Panics if and only if there is no such descriptor or it is free already, changing nothing; otherwise it is cleared and free |
| Virtio.Driver.Submit | kernel/virtio_disk.c:216-281 | Three distinct free descriptors become a chain for this buffer alone and the chain is published; if there are not three, nothing changes |
| Virtio.Driver.Publish | kernel/virtio_disk.c:271-277 | The head goes to the end of the available ring, also when the 16-bit index wraps |
| Virtio.Driver.Take | kernel/virtio_disk.c:271-281 | The device finds a published chain, complete and in order |
| Virtio.Driver.Complete | kernel/virtio_disk.c:309-314 | The device's completion joins the used ring, which has room |
| Virtio.Driver.Intr | kernel/virtio_disk.c:295-327 | Exactly the completed chains are seen, each once, and exactly their buffers released |
| Virtio.Driver.See | kernel/virtio_disk.c:312-324 | The completion names a chain still in flight whose status is 0, and releases that chain's buffer and no other's |
| Virtio.Driver.Finish | kernel/virtio_disk.c:283-291 | Exactly the three descriptors of this chain become free |
| Virtio.Driver.FreeChain | kernel/virtio_disk.c:186-197 | Following next frees the three descriptors and stops |
| Virtio.LaunchKeeps | kernel/virtio_disk.c:239-277 | Chains stay disjoint, free flags the exact complement of chains, and queues exact, when a request is launched |
| Virtio.CompleteKeeps | kernel/virtio_disk.c:309-314 | The same when the device completes one |
| Virtio.SeeKeeps | kernel/virtio_disk.c:312-324 | The same when the interrupt handler takes a completion |
| Virtio.FinishKeeps | kernel/virtio_disk.c:288-289 | The same when the process frees its chain |
| Pipe.Pipe.Write | kernel/pipe.c:77-103 | Appends a prefix of the rest to what was ever stored; sleeps, stops and fails exactly where the source does: sleeps only when the ring is full, open for reading and the process not killed, and after waking readers; readers are left asleep beside bytes if and only if it returns -1 with readers asleep and bytes there, its own or from before |
| Pipe.Pipe.Read | kernel/pipe.c:106-130 | Returns the next bytes ever stored, in order: as many as are asked for, are there, and can be copied out, whichever is least; one more is lost if and only if copying out is what stops it; sleeps exactly when the pipe is empty, open for writing and the process not killed; wakes writers; strands no one; who is asleep afterwards |
| Pipe.Pipe.Kill | kernel/proc.c:585-604 | A killed process sleeps no more, and no one is stranded by that |
| Pipe.Pipe.StoreByte | kernel/pipe.c:95-96 | A byte goes to its place in the ring, also when nwrite wraps at 32 bits |
| Pipe.Pipe.TakeByte | kernel/pipe.c:121-123 | A byte comes from its place in the ring |
| Pipe.Pipe.Close | kernel/pipe.c:59-74 | Closing one end wakes the other side, so no one sleeps on a closed pipe; the pipe is freed if and only if both ends are closed, with no one asleep |
| Pipe.FullOrEmpty | kernel/pipe.c:88-113 | The 32-bit comparisons tell full and empty apart, across wrap-around |
| Pipe.Strand | kernel/pipe.c:84-87 | On every open empty pipe: a read sleeps, a killed writer stores one byte and returns -1, and the reader still sleeps beside that byte |
| Grep.Match | user/grep.c:72-81 | Terminates, and returns 1 if and only if some part of the text is a match of the pattern as a language |
| Grep.Matchhere | user/grep.c:84-95 | The same for a match at the start of the text |
| Grep.Matchstar | user/grep.c:98-105 | Tries every number of repetitions: 1 if and only if some number works |
| Grep.OnePattern | user/grep.c:92-93 | The language unfolds at a single character |
| Grep.StarPattern | user/grep.c:88-89 | The language unfolds at a starred character |
| Grep.Lines | user/grep.c:20-28 | The complete lines in the buffer are printed if they match, and what is left holds no newline |
| Grep.PrintsMatching | user/grep.c:20-28 | Line by line: a line that fits is printed, newline and all, if and only if it has a match, and the rest goes on; one that does not fit ends the output |
| Grep.Grep | user/grep.c:11-34 | What is printed depends on the input only, not on how read() cuts it up: the matching lines up to the first that does not fit the buffer; after a read error, the same of what was read |

## Left out

- Hardware and assembly: start.c, plic.c, the trampoline, and of trap.c all but where interrupts call yield and wakeup; swtch is an atomic transfer of control.
- Spinlocks and sleep-locks: assumed atomic. A lock's critical section is one step.
- uart.c, console.c, printf.c, ramdisk.c, syscall.c, sysproc.c, exec.c, string.c, and the remaining user programs.
- walkaddr, copyin, copyout, copyinstr, uvmfirst and the kernel's own page table: they add lookups in the flat map and no new invariant.
- The reference counts of iget/iput, idup, filealloc, filedup and fileclose; the inode cache is identified with the inodes on disk.
- The packing of inodes into blocks in the kernel (iupdate, ilock): there inodes are a table beside the blocks, and only which block holds an inode is modelled, for the transaction bound. For mkfs they are in their blocks.
- Path walking (namex, skipelem) and the truncation of names to DIRSIZ: directory operations start from an inode and a name.
- exec, pipes of the shell at run time, and getcmd: only the parser of sh.c is modelled.
- Liveness beyond `NoDeadlock`: that a sleeping process does wake up, or that the device answers, is not stated.
- ProcTheorems.NextInv: pids and the reaped history are unbounded, and freeproc's release of memory is not modelled beside the table entry.
- Vm.Kernel.Kfree: the free list is a sequence of frames and not links stored in the free pages, and it is a precondition that the caller holds the frame, since the source does not notice a frame in use.
- Vm.Kernel.Uvmunmap: the mapped pages must be user frames of that address space with do_free, and none of them without, since the source does not notice the difference; so for Uvmcopy and Uvmfree.
- Vm.Kernel.Uvmfree: that no page is mapped above sz is a precondition, as the comment of freewalk demands; the source panics.
- FileBytes.Filewrite: other processes' writes between two transactions are not modelled, and MAXOPBLOCKS is at least 6, without which the source's chunk size is 0.
- FileBytes.Writei: a failed copy from user space leaves the buffer unchanged.
- Umalloc.Heap.Malloc: sbrk gives memory above base and above all it gave before, and sizes fit its int argument.
- Links.Directories.Create: system calls run one after the other, and link counts are unbounded where the source has a short.
- Links.Directories.Iput: the number of references is an argument, not a count kept with iget and idup.
- Bio.Cache.Bget: for devices other than 0, which empty buffers carry at first, and for a block the caller has not locked already, which would wait for itself.
- LogCache.WriteLog: no other process holds the buffer of a listed block or of a log block while the loop runs, so bread does not wait.
- MkfsTree.Make: a run that has written an inode outside the inode blocks is not traced further, its disk may be any; the super block; files are read in whole blocks.
- Virtio.Driver.constructor: the negotiation with the device and its registers.
- Virtio.Driver.Take: the device takes chains in ring order and completes each once; register writes and interrupts beyond that are not modelled.
- Pipe.Pipe.Close: a process does not close the end it sleeps on.
- Grep.Grep: patterns and input hold no NUL.
