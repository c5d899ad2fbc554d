# xv6 in Dafny

A model of the hard parts of this kernel, and proofs about it: the write-ahead log
and buffer cache, the file layer, virtual memory and the page allocator, the process
life cycle, CPU quotas, the Peterson pipe, the virtio disk queue, the user-level
allocator and the shell's parser. `dafny verify dfyconfig.toml` checks all of it.

How the parts are modelled:

- Code that updates a structure in place is a class with that structure's fields
  (`BufCache`, `Log`, `Fs`, `Vm`, `Umalloc`, `Disk`); its methods keep an invariant and
  state the whole new state. Ghost fields hold what the C code does not store: who
  owns a block or page, the flat array the cache stands for, histories of the rings.
- Protocols between concurrent parties are state machines over values (`LogProtocol`,
  `ProcLife`, `Quota`, `Pipe`); theorems range over all runs, written as sequences of
  states.
- A panic is a result (`ok == false`, `Panic`) where the caller can meet it, and a
  proof obligation where it is claimed to be unreachable.

Files, by subject:

- Log and cache: `Blocks`, `LogProtocol`, `BufList`, `Bio`, `Log`, `LogCrash`. The disk is a
  sequence of blocks, one block write is atomic, a crash may fall between any two.
- File layer: `FsBlock`, `FsVolume`, `FsSpace`, `FsInode`, `FsContent`, `FsTrunc`, `Fs`, `FsTight`.
- Processes and quotas: `ProcLife`, `ProcProgress`, `Quota`.
- Memory: `VmPte`, `VmTable`, `VmSpec`, `VmUser`, `VmNeed`, `VmSpace`, `Vm`.
- Pipe: `Pipe`. Disk queue: `VirtioQueue`, `Virtio`.
- User space: `FreeList`, `Umalloc`, `ShToken`, `ShSyntax`, `Sh`.

What the proofs turned up:

- `log_write` tests for a full log before it looks for absorption (kernel/log.c:221-229).
  Ten distinct blocks per operation therefore do not rule out the panic
  (`AbsorbedWriteCanPanic`); fewer than ten logged before each call do
  (`ReservationPreventsPanic`), and `filewrite` keeps to that (`Fs.Fs.FileWrite`).
- NBUF equals LOGBLOCKS (kernel/param.h:10-11), so a transaction of LOGBLOCKS blocks pins
  every buffer and the commit cannot read a log block. Three operations that keep to
  their ten blocks each reach it from any idle log (`Log.Log.FullTransactionPanics`); with
  one block fewer the commit succeeds (`Log.Log.Commit`).
- `writei` releases a block unlogged when the source gives out inside it, although part of
  the chunk has been copied (kernel/fs.c:545-549): the file has changed, and the count
  does not say so (`Fs.Fs.GivenUpWrite`). It happens exactly if the readable part of the
  source is not all of it, not empty, and ends inside a block, and the volume before the
  call has a free block for every slot, data and indirect, that this part of the source
  still needs (`Fs.Fs.Writei`, for whole writes `Fs.Fs.FileWrite`).
- `sys_setquota` runs only in a process that is not throttled, so its line that clears
  `throttled` (kernel/sysproc.c:136-137) never does anything (`SetQuotaLiftsNothing`).
- In `proc_pagetable` the second `mappages` never fails (kernel/proc.c:269-276): trampoline
  and trapframe share their tables, so its error path is dead and is not in the model
  (`Vm.Vm.ProcPagetable`).
- `sbrk` with a negative count larger than the process wraps around in
  `uvmdealloc(sz, sz + n)` and succeeds without changing anything (`Vm.Vm.Sbrk`).
- kernel/proc.c:498 has a stray token `q`; the evident intent is modelled.

## Model

| member | source | states |
|---|---|---|
| LogProtocol.RunKeepsInv | kernel/log.c:66-236 | In every state of every run of the log, with any number of operations, crashes between any two disk writes and repeated recoveries, the disk, pin and reservation invariants hold. |
| LogProtocol.CommitHoldsWholeOperations | kernel/log.c:127-176 | While a commit is in progress no operation is outstanding, and the logged blocks plus all unspent reservations never exceed LOGBLOCKS. |
| LogProtocol.ReservationPreventsPanic | kernel/log.c:215-236 | In every reachable state an operation that has logged fewer than MAXOPBLOCKS distinct blocks does not meet the "too big a transaction" panic. |
| LogProtocol.PanicOnlyWhenExhausted | kernel/log.c:215-236 | Conversely, when the panic does strike, every outstanding operation has used up exactly its whole reservation. |
| LogProtocol.AbsorbedWriteCanPanic | kernel/log.c:221-229 | MAXOPBLOCKS distinct blocks per operation are not enough: a reachable state in which an operation re-logs a block it has already logged and panics, because the test for a full log comes before absorption. |
| LogProtocol.PinnedOnce | kernel/log.c:67-84 | Each block of the transaction is pinned exactly once, none more than once, and all pins are gone when the commit has finished. |
| LogProtocol.CommittedIsLastCommit | kernel/log.c:104-115 | The image that the log commits to is the cache contents at the last header write of the run. |
| LogProtocol.RecoveryRestoresLastCommit | kernel/log.c:66-124 | After a crash at any point and a recovery that may itself be cut off any number of times, once the log runs again the home blocks are those of the last transaction whose header was written before the crash. |
| LogProtocol.CommitIsAtomic | kernel/log.c:179-204 | A crash anywhere during a commit leaves, after recovery, either all home blocks as before the transaction or all with its contents. |
| LogProtocol.FinishedCommitIsDurable | kernel/log.c:195-204 | Once a commit has finished, its contents are on the home blocks and are what any later crash recovers. |
| LogProtocol.IdleIsDurable | kernel/log.c:147-176 | Whenever no operation is outstanding and no commit or recovery is under way, everything the cache shows is on the disk, is what a crash would recover, and nothing is logged or pinned. |
| LogProtocol.EndedIsDurable | kernel/log.c:147-204 | What the operations had written when the last of them ended is on the disk when the log runs again, unless the machine crashes in between. |
| LogProtocol.CommitAndRecoveryEnd | kernel/log.c:66-124 | In every reachable state a commit or recovery under way can go on, and short of a crash each step brings it nearer its end. |
| LogProtocol.CanBeginAndEnd | kernel/log.c:127-176 | While the log runs, an operation can be admitted exactly if MAXOPBLOCKS more blocks fit for it and all others, and each outstanding one can end. |
| LogProtocol.CanLog | kernel/log.c:215-236 | Whatever an operation wants in a block it may log, one step puts it there. |
| LogProtocol.OnlyLoggedChanges | kernel/log.c:215-236 | No other step changes what the cache shows of a home block: short of a crash and recovery, what changes has just been logged by an outstanding operation. |
| BufList.UnlinkKeepsList | kernel/bio.c:126-128 | Unlinking a buffer from the doubly linked circular list gives the list without it, in both directions. |
| BufList.PushFrontKeepsList | kernel/bio.c:129-133 | Splicing a buffer in behind the head gives the list with it in front. |
| Bio.BufCache.constructor | kernel/bio.c:36-53 | After binit all NBUF buffers are on the list, last one first, none referenced, and the flat array of blocks is the disk. |
| Bio.BufCache.FindCached | kernel/bio.c:65-73 | The first scan finds the buffer that holds the block, or no buffer holds it. |
| Bio.BufCache.FindUnused | kernel/bio.c:75-87 | The second scan finds the least recently used unreferenced buffer, or every buffer is referenced. |
| Bio.BufCache.BGet | kernel/bio.c:58-89 | A cached block gets one more reference; otherwise the least recently used free buffer is given to it; "no buffers" exactly when neither exists. No two buffers with dev other than 0 hold the same block. |
| Bio.BufCache.BRead | kernel/bio.c:91-103 | bread takes a reference to the block's buffer, and finds none exactly when the block is not cached and no buffer is free. It sleeps exactly if another process has the buffer locked; otherwise it returns it locked with the block's latest contents in the flat array, whatever was recycled, pinned or committed before. No other buffer changes. |
| Bio.BufCache.BWrite | kernel/bio.c:105-112 | bwrite is one disk write after which disk and flat array agree on the block. |
| Bio.BufCache.BRelse | kernel/bio.c:114-137 | Releasing the last reference moves the buffer to the front of the list; the cache still stands for the same flat array exactly if the client had logged or written what it changed. |
| Bio.BufCache.BPin | kernel/bio.c:139-144 | A pin adds one reference and keeps all cache invariants. |
| Bio.BufCache.BUnpin | kernel/bio.c:146-151 | Unpinning removes one reference; a buffer whose contents are not on its home block keeps a pin. |
| Log.Log.LogWrite | kernel/log.c:206-236 | log_write makes the buffer's contents the block's latest ones and records the block once, pinned once, absorbing repeats; it fails exactly when the log is full or no operation is outstanding. |
| Log.Log.FindSlot | kernel/log.c:224-228 | The absorption scan finds the slot of the block, or the block is not in the transaction. |
| Log.Log.WriteLog | kernel/log.c:178-192 | Every block of the transaction is copied from the cache to its place in the log, in order, and no home block changes; it runs out of buffers exactly when none is free and some log block is not cached. |
| Log.Log.InstallTrans | kernel/log.c:66-84 | Every logged block is copied to its home block and unpinned unless recovering. It finds its buffers exactly if it recovers, or one is free, or the log blocks are cached, all of them or those up to one whose home buffer nobody else holds. |
| Log.Log.WriteHead | kernel/log.c:100-115 | The header block on disk names exactly the blocks of the transaction, in one write. |
| Log.Log.ReadHead | kernel/log.c:86-98 | The in-memory header is what the header block on disk says. |
| Log.Log.Commit | kernel/log.c:194-204 | commit succeeds exactly if nothing is logged, or a buffer is free, or the header and all log blocks are cached; if no process holds a buffer, exactly when fewer than LOGBLOCKS blocks are logged. It then has performed exactly the writes CommitWrites lists, in that order, and disk and flat array are equal, the log empty and nothing pinned. If it fails it has made only the first of these writes, none of them to a home block or the header. |
| Log.Log.RecoverFromLog | kernel/log.c:117-124 | Whatever image the log on disk commits to, the home blocks hold it afterwards and the log is empty, in memory and on disk. |
| Log.Log.BeginOp | kernel/log.c:126-143 | An operation is admitted exactly when no commit runs and the worst case of all outstanding operations fits in the log. |
| Log.Log.EndOp | kernel/log.c:145-176 | The last outstanding operation commits; the others leave disk and transaction alone; it fails exactly if a commit is running or, for the last operation, if commit finds no buffer, and then no home block and no header has changed. |
| Log.FullTransactionStarvesCommit | kernel/log.c:178-192 | With LOGBLOCKS blocks logged every one of the NBUF buffers is pinned and none holds a log block. |
| Log.PartTransactionLeavesBuffer | kernel/log.c:178-192 | With fewer than LOGBLOCKS blocks logged some buffer is not pinned. |
| Log.Log.CanCommitUnlessFull | kernel/log.c:194-204 | So, when no process holds a buffer, commit finds its buffers exactly when fewer than LOGBLOCKS blocks are logged. |
| Log.Log.ThreeOperations | kernel/log.c:126-143 | From every idle log, three operations that keep to their MAXOPBLOCKS blocks are admitted together and fill the log. |
| Log.Log.FullTransactionPanics | kernel/log.c:145-204 | The last of those three operations to end makes bget panic, whatever was cached before; no home block and no header has changed by then. |
| LogCrash.CommitCutOff | kernel/log.c:178-204 | Commit cut off after any number of its disk writes leaves a log that commits to the image before up to the header write, and to the new image from it on. |
| LogCrash.CutOffRecoveriesKeepImage | kernel/log.c:117-124 | However often and wherever recovery is cut off, the image the log commits to stays the same. |
| LogCrash.CrashSafety | kernel/log.c:66-124 | For the write sequences that commit and recover_from_log are proved to perform: commit cut off after k writes, recovery cut off any number of times, then a complete recovery leaves all home blocks as before, or all as the transaction left them, and k decides which. |
| LogCrash.ReadyToCommit | kernel/log.c:194-204 | Every log object that has recovered and has something logged meets the premise of CrashSafety, with the disk as the image from before. |
| LogCrash.CommitSurvivesCrashes | kernel/log.c:178-204 | commit on such a log, whether it succeeds or runs out of buffers: after any number of the writes it makes, a crash and recoveries cut off at will leave the home blocks of before up to the header write, and those of the transaction from it on. |
| FsBlock.WordRoundTrip | kernel/fs.c:431-439 | An entry stored in an indirect block reads back as stored and no other entry changes. |
| FsBlock.MarkedBits | kernel/fs.c:66-106 | Setting or clearing one bit of a bitmap block changes that bit only. |
| FsVolume.AllocKeepsInv | kernel/fs.c:66-89 | Marking a free block and zeroing it keeps the volume invariant: a bit is set exactly for metadata, owned blocks and blocks in hand, and each owned block has one slot of one inode. |
| FsVolume.FreeKeepsInv | kernel/fs.c:91-106 | Clearing the bit of a block in hand keeps the volume invariant. |
| FsVolume.AttachKeepsInv | kernel/fs.c:411-430 | Storing a block in hand into an empty inode slot makes that slot its only owner. |
| FsVolume.AttachEntryKeepsInv | kernel/fs.c:431-439 | The same for an empty entry of the indirect block. |
| FsVolume.DataWriteKeepsInv | kernel/fs.c:539-552 | Writing into a data block keeps ownership, bitmap and fill, and changes only that block of that file. |
| Fs.Fs.Balloc | kernel/fs.c:66-89 | balloc returns the lowest-numbered free block, marked and zeroed, logging its bitmap block and itself, or 0 exactly when every bit is set. |
| Fs.Fs.Bfree | kernel/fs.c:91-106 | bfree clears exactly the block's bit, refuses exactly when the bit is already clear, and logs the bitmap block it changes. |
| Fs.Fs.Bmap | kernel/fs.c:405-444 | bmap returns the block in the file's slot, allocating it and the indirect block if needed; an allocated block is returned without any change; 0 only on a full disk, the slot staying empty; no byte and no kind of any file changes, no allocated block moves, only the slots for that block can be filled, and every block that changes is logged. |
| Fs.Fs.Writei | kernel/fs.c:528-562 | -1 exactly for a bad range. Otherwise the file reads as its old contents overwritten at off with the k bytes copied, its size reaching the r bytes counted. The volume before the call decides both (Settled): all bytes are counted exactly if the source gives them all and there are as many free blocks as empty slots, data and indirect, that they need (Room); k and r differ exactly if the source gives out inside a block and there is room for what it gives, and then one changed block is not logged on that account. All other changed blocks are logged, no allocated block moves, other files read as before; a write of at most three blocks' worth logs at most MAXOPBLOCKS distinct blocks and never calls log_write with MAXOPBLOCKS already logged. |
| Fs.Settle | kernel/fs.c:539-552 | From where the loop of writei ended and what it had allocated by then: what the volume before it said about room. |
| Fs.SettledEarly | kernel/fs.c:539-552 | Without counting: nothing is copied beyond the count if the source ends with a block of the file, and if no block is missing only then. |
| FsSpace.FreeCount | kernel/fs.c:405-444 | However a file has grown, the free blocks have become fewer by exactly the slots that were filled. |
| FsSpace.ThereWasRoom | kernel/fs.c:405-444 | What is stored after a write, there was room for before it. |
| FsSpace.ThereWasNoRoom | kernel/fs.c:405-444 | If a write met a full disk at some position, no range with that position in it had room. |
| FsSpace.RoomForRest | kernel/file.c:146-172 | After the first part of a write there is room for the rest exactly if there was room for all of it at the start. |
| Fs.Fs.GivenUpWrite | kernel/fs.c:545-549 | On every non-empty file, a two-byte write at its start from a source that ends after one byte, other than the file's first, counts nothing and changes that byte of the file. |
| FsContent.ProgressDone | kernel/fs.c:539-562 | The end of writei: whatever was copied and counted, the file reads as its old contents overwritten and cut at the new size, and every other file reads as before. |
| Fs.Fs.Readi | kernel/fs.c:494-519 | readi returns exactly the slice of the file's contents, 0 or a clipped count at the end, -1 exactly when the destination cannot take it, the part it can take having been copied; it allocates and logs nothing. |
| Fs.Fs.Iupdate | kernel/fs.c:226-242 | The on-disk inode becomes the in-memory one, type, device numbers, link count, size and addresses, at its place in its block; every other inode on disk stays as it is, and that block alone changes and is logged. |
| FsInode.InodeRoundTrip | kernel/fs.c:293-318 | The 64 bytes that iupdate stores are read back by ilock as the same inode, and no other inode of the block changes. |
| FsInode.StoreOne | kernel/fs.c:226-242 | Over all inode blocks: one inode is replaced, the others are as before. |
| Fs.Fs.Itrunc | kernel/fs.c:446-476 | The file is empty and of the same kind, each of its blocks is free, every other file keeps inode and contents, every bfree in it finds its bit set, and every block that changes is logged. |
| Fs.Fs.FileRead | kernel/file.c:121-124 | fileread returns the slice at the offset and moves the offset by its length, or not at all if the destination cannot take it, outside any transaction since nothing is logged. |
| Fs.Fs.FileChunk | kernel/file.c:156-172 | One transaction of filewrite advances the write by its chunk, or says why it is the last; what it counts and copies is settled by the volume before it; the blocks it changes are among the at most MAXOPBLOCKS distinct ones it logs, but for one if the source gives out inside a block. |
| Fs.Fs.FileWrite | kernel/file.c:145-173 | filewrite overwrites exactly the bytes it advanced over, returns n exactly if that is all of them, and leaves other files alone. The volume before the call decides (AllSettled): up to the transaction that would pass the largest file, it writes everything exactly if the source gives it and there is room, and it copies bytes beyond those counted exactly if the source gives out inside a block, not between two transactions, and there is room for what it gives. In none of its transactions does log_write find MAXOPBLOCKS blocks logged, for any offset, length and number of bitmap blocks. |
| Fs.ChunkSettles | kernel/file.c:153-172 | The last transaction's outcome, told from the volume before it, is the whole write's outcome told from the volume before the first. |
| Fs.VisitStep | kernel/fs.c:539-552 | The first block of an unaligned write inside the file is already allocated, which is what the chunk size of filewrite relies on. |
| Fs.CountBound | kernel/file.c:146-151 | A chunk of at most three blocks' worth touches at most four blocks, three of them new, so at most seven data and bitmap blocks. |
| FsTight.LogsTen | kernel/file.c:146-172 | Whatever an unaligned chunk at the end of the direct blocks allocates, if no two free blocks share a bitmap block it must log at least MAXOPBLOCKS distinct blocks: four bitmap blocks, four data blocks, the indirect block and the inode's block. |
| FsTight.NotFull | kernel/fs.c:405-444 | Such a chunk fills at most four slots, so five free blocks are enough for it. |
| FsTight.VolumeOk | kernel/fs.c:66-89 | A volume on which the premises hold: consistent bitmap and ownership, one free block for each of five bitmap blocks. |
| FsTight.TenBlocks | kernel/file.c:146-172 | The bound is tight: whatever filewrite's first transaction does on that volume within what it promises, it writes its three blocks' worth of bytes and logs exactly MAXOPBLOCKS distinct blocks. |
| FsTight.FirstPass | kernel/file.c:146-172 | filewrite's first transaction does promise that, on every volume. |
| FsTight.TenBlocksLogged | kernel/file.c:146-172 | That volume built, and that transaction of filewrite on it: ten distinct blocks are logged. |
| Fs.ReadAfterWrite | kernel/fs.c:494-562 | Reading the range of a write gives the bytes written; all bytes outside it are as before. |
| Fs.OverwriteMore | kernel/file.c:153-172 | Two consecutive chunks amount to one write of both. |
| ProcLife.RunKeepsInv | kernel/proc.c:331-489 | Every state of every run of fork, exit, wait, sleep, wakeup, kill, scheduling and timer preemption wherever a process holds no spinlock, inside fork and wait too, on any number of CPUs and slots, satisfies the process invariant. |
| ProcLife.NoMissedExit | kernel/proc.c:441-489 | In every reachable state with wait_lock free, no process sleeps in kwait while it has a zombie child. |
| ProcLife.ParentIsAlive | kernel/proc.c:381-394 | In every reachable state a parent pointer names a process that exists and has not exited, and only init has none. |
| ProcLife.FreedIsOffCpu | kernel/proc.c:225-245 | In every run a slot becomes UNUSED, in kwait or after a failed kfork, only while no CPU uses its kernel stack, is about to use it or has just left it. |
| ProcLife.CollectedIsGone | kernel/proc.c:441-489 | When the scan of a kwait is about to return a child, that child was its zombie, and its slot is UNUSED and nobody's child from then until it is allocated again. |
| ProcLife.CollectedOnce | kernel/proc.c:441-489 | Between two times that kwait, of whichever process, returns the same slot, the slot has been allocated. |
| ProcLife.ZombieEndsScan | kernel/proc.c:452-470 | The scan of kwait does not pass by a zombie child: it ends there, with the child or with -1 if the status cannot be copied out. |
| ProcLife.CanCollect | kernel/proc.c:452-470 | A scan that has come to a zombie child whose lock is free can collect it. |
| ProcLife.ForkReturnsChild | kernel/proc.c:331-379 | When kfork returns, the child is RUNNABLE and has the caller for its parent; when it fails, the slot is free again. |
| ProcLife.CanStart | kernel/proc.c:371-378 | kfork that has linked its child and finds the child's lock free can start it and return. |
| ProcLife.KilledIsAwake | kernel/proc.c:738-759 | Whoever kills a process also wakes it. |
| ProcLife.CanKill | kernel/proc.c:738-759 | Any process whose lock is free can be killed, and is not sleeping then. |
| ProcLife.CanWake | kernel/proc.c:719-734 | A process that sleeps on a channel and whose lock is free can be woken by a wakeup on that channel. |
| ProcLife.NextChanges | kernel/proc.c:331-489 | What any step does to any process: it stays where it is, goes on in its call or in sched, or is one of the pair of a collection, an allocation, a failed kfork or a start. |
| ProcLife.OneCpuPerStack | kernel/proc.c:599-638 | No kernel stack is on two CPUs, and a CPU on a stack whose process is not RUNNING holds that process's lock. |
| ProcLife.SchedNeverPanics | kernel/proc.c:613-638 | sched is only reached with the caller's own lock held, neither wait_lock nor any other process's lock held, and a state other than RUNNING, and it never returns to kexit. |
| ProcLife.GivesUpWithoutChildren | kernel/proc.c:441-489 | At the end of its scan kwait gives up, unless it was killed, only if no process has it as parent. |
| ProcLife.StepsAreSound | kernel/proc.c:331-379 | A CPU about to switch finds a saved context; the child that kfork sets up is another slot, USED, and no other kfork sets it up, also while its maker is preempted; an exiting process has a parent to wake. |
| ProcProgress.NoDeadlock | kernel/proc.c:331-489 | In no reachable state is a CPU stuck in kfork, kwait, kexit, sched or scheduler: it can go on, or waits for a process's lock held by a CPU that can go on, or for wait_lock, whose holder can go on or waits for such a lock in turn. |
| ProcProgress.CallsEnd | kernel/proc.c:331-489 | In every run each step of kfork, kwait and kexit brings the call nearer its end, or kwait nearer to sleeping, unless the timer makes it yield, and then it goes on where it was; kexit ends as a zombie. |
| ProcProgress.CanRun | kernel/proc.c:599-611 | An idle CPU can run any process that is RUNNABLE and whose lock is free. |
| Quota.RunKeepsInv | kernel/trap.c:83-100 | In every run a throttled process is either waiting to be dispatched or on its way from the tick to yield. |
| Quota.ChargeIsBounded | kernel/trap.c:83-100 | The ticks that a process takes in a window, counted from the timer steps alone, never exceed the largest quota in force in it, whatever setquota calls are made, and one violation is counted exactly if they have reached one. |
| Quota.ChargeIsExact | kernel/trap.c:83-100 | In every window a process has been charged exactly the timer ticks it took, and is throttled exactly if with one of them it had used up the quota then in force. |
| Quota.QuotaIsInForce | kernel/sysproc.c:122-142 | The quota of a process is always the one its last accepted setquota asked for, or the default since it was allocated. |
| Quota.SpentIsStopped | kernel/proc.c:532-611 | From the tick that used up the quota a process takes no other tick and is not dispatched until the window ends. |
| Quota.DispatchUnlessSpent | kernel/proc.c:599-611 | A process can be dispatched exactly if it is RUNNABLE and has not used up a quota in this window. |
| Quota.ThrottledIsNotDispatched | kernel/proc.c:599-611 | From being throttled until its next reset a process stays throttled and is never dispatched. |
| Quota.SetQuotaLiftsNothing | kernel/sysproc.c:122-142 | sys_setquota is never executed by a throttled process, so its line that lifts the throttling has no effect. |
| VmPte.MadePte | kernel/riscv.h:358-369 | PTE2PA and PTE_FLAGS undo PA2PTE(pa) | perm | PTE_V. |
| VmPte.SplitJoin | kernel/riscv.h:371-374 | The three indices of a page number determine it. |
| VmPte.JoinSplit | kernel/riscv.h:371-374 | Every triple of indices is that of one page. |
| VmPte.DistinctSlots | kernel/riscv.h:371-380 | Distinct pages reach distinct entries. |
| VmTable.WriteOther | kernel/vm.c:97-115 | Storing one entry changes no entry that is not below it, in any page table. |
| VmTable.InstallKeeps | kernel/vm.c:103-113 | A zeroed page installed as a table changes no other entry and keeps the invariant that each table page, frame and slot belong to each other. |
| VmTable.MapKeeps | kernel/vm.c:145-174 | A leaf entry set changes that entry only and makes its slot the owner of the frame. |
| VmTable.UnmapKeeps | kernel/vm.c:192-212 | A leaf entry cleared changes that entry only and releases the frame. |
| VmTable.FreeKeeps | kernel/vm.c:260-278 | Freeing an empty lower table and clearing the entry that pointed to it keeps the invariant and every entry not below it. |
| VmTable.FreeRootKeeps | kernel/vm.c:260-278 | Freeing an empty root leaves no page that belongs to that page table and all other page tables as they were. |
| VmSpec.KmemTake | kernel/kalloc.c:65-82 | Taking the head of the free list keeps every page either on the list or owned, never both. |
| VmSpec.KmemGive | kernel/kalloc.c:42-63 | Pushing an owned page keeps every page either on the list or owned, never both. |
| Vm.Vm.constructor | kernel/kalloc.c:26-40 | After kinit every page of the range is on the free list once, and there is no address space. |
| Vm.Vm.Kalloc | kernel/kalloc.c:65-82 | kalloc returns the first free page, or 0 exactly when there is none. |
| Vm.Vm.Kfree | kernel/kalloc.c:42-63 | kfree puts an owned page in front of the free list. |
| Vm.Vm.Walk | kernel/vm.c:85-115 | walk finds the level-0 table of the page; without alloc it changes nothing; with alloc it adds only tables of this page table, maps nothing, and fails exactly if fewer pages are free than tables are missing on the way. |
| Vm.Vm.Lookup | kernel/vm.c:474-486 | The entry that walk without alloc finds is the one the page-table invariant speaks of. |
| Vm.Vm.Mappages | kernel/vm.c:140-174 | mappages maps exactly its pages to consecutive frames, and succeeds exactly if the tables they are missing fit in the free pages; otherwise exactly the first k are mapped. |
| Vm.Vm.Uvmunmap | kernel/vm.c:189-212 | uvmunmap unmaps exactly its range, frees exactly the frames of that range if asked to, and leaves every other page and frame alone. |
| Vm.Vm.Freewalk | kernel/vm.c:260-278 | freewalk panics exactly if some page is still mapped; otherwise it frees each page of the tree once and nothing else. |
| Vm.Vm.Uvmcreate | kernel/vm.c:176-187 | A new page table maps nothing and changes nothing else; there is none exactly when no page is free. |
| Vm.Vm.Uvmfree | kernel/vm.c:280-288 | uvmfree succeeds exactly if no page beyond sz is mapped; then all pages that belong to the page table, and no others, go back to the free list. |
| Vm.Vm.ProcPagetable | kernel/proc.c:247-279 | It succeeds exactly if three pages are free, and takes three; the new page table maps the trampoline and the trapframe only and starts an address space of size 0; if it fails, every page is back where it was. |
| Vm.Vm.ProcFreepagetable | kernel/proc.c:281-289 | For every address space that calls of this file have produced, freewalk does not panic, and all page-table pages and user frames of the process, and no others, go back exactly once. |
| Vm.Vm.Uvmalloc | kernel/vm.c:214-240 | Growing succeeds exactly if the frames and the missing tables of the new pages together fit in the pages free before the call, and then maps zeroed frames for exactly the new pages; if it fails, every page is mapped as before and only tables may have been added; no byte that any process reads changes either way. |
| Vm.Vm.Uvmdealloc | kernel/vm.c:242-258 | Shrinking unmaps and frees exactly the pages beyond the new size. |
| Vm.Vm.Uvmcopy | kernel/vm.c:290-324 | It succeeds exactly if frames for the pages the parent maps and the tables the child is missing fit in the pages free before the call. On success the child maps, with the same flags, a frame of its own with the same bytes for exactly those pages; on failure it maps nothing. |
| Vm.Vm.Vmfault | kernel/vm.c:448-473 | A page fault is served exactly if it is below sz, its page is not mapped, and the frame and the missing tables fit in the free pages; it gets a zeroed frame and changes no byte any process reads and no other mapping. |
| Vm.Vm.UserFrame | kernel/vm.c:117-138 | walkaddr followed by vmfault gives the frame behind a user page, never the trampoline or the trapframe; it fails exactly on pages beyond sz, kept from the user, or not mapped with too few pages free for frame and tables. |
| Vm.Vm.Copyin | kernel/vm.c:377-403 | The bytes returned are exactly those user code sees at srcva, pages not yet faulted in reading as zeroes, and the address spaces are unchanged; it succeeds exactly if the whole range is open to the user and all pages of it that must be faulted in, with their tables, fit in the pages free before the call. |
| Vm.Vm.Copyout | kernel/vm.c:339-375 | On success exactly the target bytes change, to src, in this address space only; on failure a prefix of them; it succeeds exactly if the whole range is open to the user and writable and all pages of it that must be faulted in, with their tables, fit in the pages free before the call. |
| Vm.Vm.ForkMemory | kernel/proc.c:331-351 | kfork's memory: it succeeds exactly if the pages free before the call cover the child's root, its tables and a frame for each page the parent maps (ForkNeed); then the child reads every page as the parent did; otherwise every page is back where it was. |
| Vm.Vm.Sbrk | kernel/sysproc.c:49-75 | It returns -1 exactly if the new size is too large or, eagerly, the new frames and tables do not fit in the free pages; otherwise the old size, and the size has changed by n. Growing eagerly or lazily changes no byte that can be read; shrinking zeroes exactly the pages given up; shrinking by more than the size wraps around and changes nothing. |
| Vm.Vm.Perform | kernel/proc.c:247-351 | Every call of every process keeps all address spaces sound (nothing user-mapped beyond the size, trampoline and trapframe kept from the user, every page table known), and which address spaces of which sizes there are afterwards follows from the state before. |
| Vm.Vm.RunAndExit | kernel/proc.c:281-289 | After any sequence of calls by any processes, once all have exited every page is on the free list except those the kernel holds itself. |
| Vm.NoProcessNoPage | kernel/kalloc.c:42-63 | In a sound state without address spaces the kernel alone owns pages. |
| VmSpace.SpacesKept | kernel/vm.c:214-324 | An operation on one page table that leaves the others' mappings alone keeps every other address space within its size and guarded. |
| VmSpace.AddedSpaces | kernel/vm.c:214-240 | Pages added up to a larger size, and the size with them, keep all address spaces sound. |
| VmSpace.ShrunkSpaces | kernel/vm.c:242-258 | So do pages removed down to a smaller size. |
| VmNeed.FreeIs | kernel/kalloc.c:42-82 | Free and owned pages together are all the pages, so what one side gains the other loses. |
| VmNeed.NeedKept | kernel/vm.c:85-174 | However an operation has filled part of the entries it needs, those still empty are fewer by exactly the pages it took. |
| VmNeed.RoomKept | kernel/vm.c:214-324 | So at every point of a loop there is room for the rest exactly if there was room for all of it at the start. |
| VmNeed.PathsRoom | kernel/vm.c:214-324 | If every page of a set got its tables and frame, there was room for all before the first. |
| VmNeed.PathsNoRoom | kernel/vm.c:214-324 | If one of them found none, there was not room for all, whichever came before it. |
| VmNeed.ForkRoom | kernel/proc.c:331-351 | Once the new page table is there, the copy finds room exactly if the whole fork did before it. |
| VmSpace.FaultedAll | kernel/vm.c:339-403 | If a copy to or from user space got through its range, all faults it met had room at the start. |
| VmSpace.FaultedNot | kernel/vm.c:339-403 | If it stopped at a page for lack of memory, they had not. |
| VmSpec.NoLeavesBelow | kernel/vm.c:260-278 | If every page below a table is gone and no mapped page was lost on the way, nothing was mapped below it. |
| VmUser.MappingAddsRange | kernel/vm.c:140-174 | As a finite map from page to frame and flags, the page table gains exactly the range that mappages was given. |
| VmUser.UnmappingRemovesRange | kernel/vm.c:189-212 | As a finite map the page table loses exactly the range of uvmunmap. |
| VmUser.OtherTablesKept | kernel/vm.c:140-212 | Neither changes the map of any other page table. |
| VmUser.FramesAreDisjoint | kernel/vm.c:290-324 | Two user pages, of one process or of two, never share a frame. |
| VmUser.AddedUndone | kernel/vm.c:224-238 | Unmapping what a failed uvmalloc or uvmcopy has added leaves at most new tables. |
| FreeList.ChainInsert | user/umalloc.c:36-42 | Linking a block in at its place keeps the list circular and in address order. |
| FreeList.ChainRemove | user/umalloc.c:33-42 | Unlinking the block after p keeps the list circular and in address order. |
| FreeList.JoinTiled | user/umalloc.c:33-41 | Joining two adjacent blocks keeps the blocks disjoint and their units the same. |
| FreeList.SplitTiled | user/umalloc.c:79-83 | Cutting a block in two keeps the blocks disjoint and their units the same. |
| Umalloc.EveryUnitOnce | user/umalloc.c:24-90 | Each unit obtained from sbrk is in exactly one block, which is live or free: live blocks are disjoint, and free plus live units are the units from sbrk. |
| Umalloc.Umalloc.FindPlace | user/umalloc.c:30-32 | The search of free ends, at the list element after which the block belongs. |
| Umalloc.Umalloc.Free | user/umalloc.c:24-44 | free returns the block, joined to its neighbours, so that no two free blocks are adjacent; other live blocks keep place and size, and a request of that size can now be served. |
| Umalloc.Umalloc.Morecore | user/umalloc.c:46-61 | The granted units become free and can serve the request; a refusal changes nothing. |
| Umalloc.Umalloc.Cut | user/umalloc.c:76-86 | A fitting block is taken whole or its last units are, at exactly that place, and becomes live. |
| Umalloc.Umalloc.Malloc | user/umalloc.c:63-90 | malloc ends and calls sbrk exactly if no free block is large enough, once; it returns 0 exactly if sbrk then refuses, and otherwise a new live block with room for nbytes; other live blocks keep place and size. |
| Pipe.RunKeepsInv | kernel/pipe.c:113-189 | Every state of every interleaving of single loads and stores of one writer and one reader satisfies the pipe invariant. |
| Pipe.MutualExclusion | kernel/pipe.c:29-44 | Writer and reader are never both in the critical section. |
| Pipe.WriterNotStuck | kernel/pipe.c:29-38 | When both wait and turn is 0, the writer takes at most one more step before it enters, whatever the reader does. |
| Pipe.ReaderNotStuck | kernel/pipe.c:29-38 | When both wait and turn is 1, the reader takes at most one more step before it enters. |
| Pipe.WriterNotStuckAlone | kernel/pipe.c:29-38 | While the reader asks for nothing, a waiting writer takes at most one more step before it enters. |
| Pipe.ReaderNotStuckAlone | kernel/pipe.c:29-38 | While the writer asks for nothing, a waiting reader takes at most one more step before it enters. |
| Pipe.ReaderBypassesOnce | kernel/pipe.c:29-44 | While the writer waits, having written turn, the reader enters at most once. |
| Pipe.WriterBypassesOnce | kernel/pipe.c:29-44 | While the reader waits, having written turn, the writer enters at most once. |
| Pipe.FirstInFirstOut | kernel/pipe.c:113-189 | The bytes dequeued are a prefix of the bytes enqueued, and nwrite - nread modulo 2^32 is their difference, in 0..512, also after the counters wrap. |
| Pipe.EndOfFile | kernel/pipe.c:162-172 | When the reader sees the end of the file, every byte written has been dequeued and none will follow; that it does see it is ReaderPass. |
| Pipe.ReaderPass | kernel/pipe.c:152-189 | From entering to leaving the critical section: a reader that finds bytes in the ring takes exactly one, the oldest; one that finds none takes none, and leaves at the end of the file if the writer was done when it entered. |
| Pipe.WriterPass | kernel/pipe.c:113-150 | From entering to leaving: with room in the ring and the reader open throughout, exactly the writer's byte is appended; with the ring full, or the reader closed when it entered, none is. |
| Pipe.FoundOpenWrites | kernel/pipe.c:131-145 | A writer that has found the pipe open, with fewer than 512 bytes in the ring, leaves with exactly its byte appended, even if the reader closes meanwhile. |
| Pipe.WriterGoesOn | kernel/pipe.c:29-44 | A writer under way can always step, and each step brings it nearer leaving unless it waits in peterson_enter. |
| Pipe.ReaderGoesOn | kernel/pipe.c:29-44 | The same for the reader. |
| Pipe.MayWrite | kernel/pipe.c:119-128 | Outside, the writer may ask to write any byte exactly if the reader is open, and may always close. |
| Pipe.MayRead | kernel/pipe.c:157-163 | Outside, the reader may always ask to read, and close. |
| VirtioQueue.RingPut | kernel/virtio_disk.c:271-279 | A new ring entry overwrites none that is unread, and the 16-bit index goes on across its wrap. |
| VirtioQueue.RingGet | kernel/virtio_disk.c:309-325 | The next unread entry is the one that was put there. |
| VirtioQueue.CountSet | kernel/virtio_disk.c:156-182 | Taking or freeing one descriptor changes the number of free ones by one. |
| Virtio.Disk.constructor | kernel/virtio_disk.c:144-146 | Initially all descriptors are free and both rings are empty. |
| Virtio.Disk.AllocDesc | kernel/virtio_disk.c:155-166 | The lowest free descriptor is taken, or -1 exactly when none is free. |
| Virtio.Disk.FreeDesc | kernel/virtio_disk.c:168-182 | A descriptor in use is cleared and freed. |
| Virtio.Disk.Alloc3Desc | kernel/virtio_disk.c:199-213 | Three distinct free descriptors are taken, or none, and then fewer than three were free. |
| Virtio.Disk.Format | kernel/virtio_disk.c:235-269 | The three descriptors, the request header and the record for the interrupt handler say exactly what was asked for. |
| Virtio.Disk.Submit | kernel/virtio_disk.c:215-283 | A new request with a chain of its own is queued for the device, or it has to wait because two requests are in flight. |
| Virtio.Disk.DeviceFetch | kernel/virtio_disk.c:271-279 | The device finds on the available ring the oldest head submitted and not yet fetched. |
| Virtio.Disk.DeviceComplete | kernel/virtio_disk.c:235-269 | A device that follows the chain moves exactly the buffer and the sectors that were asked for, in the direction asked for; outstanding heads may complete in any order. |
| Virtio.Disk.SeeOne | kernel/virtio_disk.c:312-325 | Each completion releases the buffer of the request it belongs to, with status 0, and no other buffer. |
| Virtio.Disk.Intr | kernel/virtio_disk.c:294-327 | The interrupt handler ends having seen exactly the completions on the used ring. |
| Virtio.Disk.FreeChain | kernel/virtio_disk.c:184-197 | free_chain ends having freed exactly the three descriptors of the chain, none of which was free. |
| Virtio.Disk.Finish | kernel/virtio_disk.c:283-292 | A finished request leaves the in-flight ones and gives back three descriptors. |
| Virtio.Conservation | kernel/virtio_disk.c:156-327 | In every valid state free descriptors plus three per request in flight total NUM, chains are disjoint, and no ring holds more than two unread entries. |
| ShToken.GetToken | user/sh.c:271-314 | gettoken returns the next word, operator or end, passing over exactly that token and the whitespace around it: what is left lexes as the rest of the token sequence. |
| ShToken.Peek | user/sh.c:316-326 | peek skips whitespace only, which changes no token, and tells whether the next character is one of those asked for. |
| Sh.ParseRedirs | user/sh.c:380-403 | parseredirs consumes all redirections that follow, each with the mode and descriptor its operator means, and fails exactly where the token parser does. |
| Sh.ParseWords | user/sh.c:432-451 | The loop of parseexec collects every word once and in order, never more than MAXARGS - 1 of them, through any mixture with redirections, and agrees with the token parser. |
| Sh.ParseExec | user/sh.c:421-452 | parseexec ends, its command stands for exactly the text it consumed, and it accepts, with the same command and rest, exactly what the token parser does. |
| Sh.ParseBlock | user/sh.c:405-419 | parseblock ends, its command stands for exactly the text between and after the parentheses, and it agrees with the token parser. |
| Sh.ParsePipe | user/sh.c:367-378 | parsepipe ends, its command stands for exactly the text it consumed, and it agrees with the token parser. |
| Sh.ParseLine | user/sh.c:350-365 | parseline ends on every input, since each nesting consumes a character; its command has the words of the text, each once and in order, and its operators in order, and it agrees with the token parser. |
| Sh.ParseCmd | user/sh.c:333-348 | parsecmd returns a command exactly if the whole line derives it in the shell's grammar, and then every argument and file reads back from the buffer as exactly its token's text. |
| ShSyntax.LinePrinted | user/sh.c:350-451 | Every syntax tree of the grammar, printed, parses to the command it means. |
| ShSyntax.LineTree | user/sh.c:350-451 | Whatever parses is the print of a syntax tree that means the command. |
| ShSyntax.AcceptsExactlyTheGrammar | user/sh.c:333-451 | The parser accepts a token sequence with a command exactly if the grammar derives it. |
| ShSyntax.GrammarIsUnambiguous | user/sh.c:333-451 | No token sequence stands for two different commands. |
| Sh.NulTerminate | user/sh.c:454-499 | nulterminate stores a NUL at the end of each word of the command and changes no other character. |
| Sh.ReadsBack | user/sh.c:454-499 | No NUL lands inside a word: each word of the command reads back as its text. |

## Left out

- Fs.Fs.Writei: the file system's blocks are the cached ones; that a changed and unlogged block may later be dropped from the cache, and its change with it, is not followed further.
- Fs.Fs.Iupdate: the inode blocks are an array of their own beside the other blocks; the layout of the disk keeps the two apart. The 16-bit fields are bit patterns.
- Fs.Fs.Bmap: the buffer cache below it is the flat array of blocks that `Bio.BufCache` is proved to implement; the two are not composed in one object.
- Fs.Fs.FileWrite: lengths are those of byte sequences, so a negative n (which returns -1 without any effect) has no counterpart.
- Bio.BufCache.BRead: the end of a sleep is `LockAndFill`, when the lock is free. There is one device, ROOTDEV, as the disk driver ignores the number.
- Log.Log.Commit: log methods run one at a time; interleaving with other operations is in `LogProtocol`, whose steps are the same disk writes.
- ProcLife.RunKeepsInv: files, working directory, pids, names and memory of a process are left out, and so is the order in which the scheduler prefers processes; any RUNNABLE process may be picked.
- ProcLife.NoMissedExit: a critical section under one other process's lock is one step; sections that nest, and locks held across swtch, are split into steps.
- Quota.ChargeIsBounded: each process's reset is a step of its own that may fall anywhere, which covers every timing of the window test; the number of ticks between resets is not modelled, and eco_mode is ECO_QUOTA throughout, as nothing changes it.
- Vm.Vm.Vmfault: the page table passed in is that of the running process; the case where kexec passes a new page table while vmfault maps into the old one is not modelled.
- Vm.Vm.Copyout: addresses are natural numbers; a 64-bit wrap of the address cannot occur, since an address at or beyond sz that is not mapped ends the copy.
- Vm.Vm.Mappages: misaligned arguments and remapping, where the kernel panics, are preconditions; every caller in the model is proved to meet them.
- Vm.Vm.Kfree: freeing a page that nobody owns is a precondition; every caller in the model is proved to meet it. Page locks are left out, as each operation runs alone.
- Umalloc.Umalloc.Malloc: sizes are natural numbers, and what sbrk grants is a parameter above all earlier grants; requests of 2^31 bytes or more, which sbrk's int cannot express, are not modelled.
- Pipe.RunKeepsInv: one writer process and one reader process, as all writers share participant 0; memory is sequentially consistent although the code has no fences. Killed callers and a failing copyin, which leave before the critical section, the failure of copyout after a byte was dequeued, and the page of the pipe are left out.
- Virtio.Disk.Submit: the wait for descriptors and for the interrupt is the caller's; sector numbers are natural numbers; the device reports success, and the register negotiation of virtio_disk_init is left out.
- Sh.ParseCmd: where and with which message a line is rejected is left out, and so is running commands.
- The selection order of the scheduler (kernel/proc.c:550-597), waiting_tick and kps: they would only add easy members.
- Directories, path lookup, link counts, exec's ELF loading, system-call argument fetching, copyinstr, console, UART, PLIC, timers, boot and assembly: device plumbing, or no clean invariant.
- The kernel page table (kvmmake, kvmmap, proc_mapstacks) and uvmclear: they map pages that no page table owns.
