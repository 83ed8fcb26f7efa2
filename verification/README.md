# xv6 with a CFS run queue: a verified model

This project models the hard parts of an xv6 kernel for RISC-V whose scheduler keeps its run queue in an intrusive
red-black tree, and proves what those parts promise. `dafny verify dfyconfig.toml` checks all of it.

| files | what they model |
|---|---|
| `Weights`, `RbTree`, `RunQueue` | weights, the red-black tree as a value, and the tree as links inside the process table |
| `Scheduler`, `SchedulerCode`, `Preemption`, `Slices`, `Fairness`, `Bypass` | the process state machine, its refinement by the run-queue code, who keeps the CPU and is charged for it, weights and slices, dispatch order, bounded bypass |
| `LogDisk`, `Log`, `LogProtocol`, `LogCompletion`, `LogSpace` | the redo log: crashes, the code that writes the disk, all interleavings, how commit and recovery end, the space it needs |
| `BufferCache`, `LogBuffers` | the buffer cache as a doubly linked list of buffers, and the log protocol's steps on it |
| `Blocks`, `BlockMap`, `Truncate`, `FileContents`, `FileWrite`, `Mkfs` | bitmap, block maps, truncation, byte contents, write transactions, and the initial image |
| `LogUse` | what write transactions and commit need of the initial image's log and of the buffers |
| `PageTable`, `UserMemory`, `Teardown` | the page allocator, page tables, user memory, freeing it |
| `Sv39` | address translation as the hardware does it (section 4.4 of the RISC-V Privileged Architecture manual) on those tables |
| `Malloc` | the user-level first-fit allocator |
| `VirtioDisk` | the disk driver's rings against a conforming device (sections 2.6 and 5.2 of VirtIO 1.1) |
| `Params`, `Finite` | shared limits, sizes of finite sets |

Code that changes things in place is a class with a `Valid()` predicate and methods. Each method is proved against a
function or relation on values, and the lemmas about whole runs are about those. Linked structures carry a ghost
abstraction: the run queue a tree, the buffer list a sequence, memory pages and disk blocks a map from each page or
block to its one use.

## Hypotheses

- A region under a lock is one atomic step. The steps of different CPUs, operations and the device interleave freely.
- `chprio` (kernel/proc.c:1254-1274) takes no lock and is one atomic step here. In the code it can also fall between the
  two reads of `weightValue` in `retrieveProcess` (kernel/proc.c:501, 504) or inside `insertProcess`
  (kernel/proc.c:344-347), and then the total drifts by more than `Slices.WeightConserved` counts.
- An operation gives every buffer it has modified to `log_write` before it releases it.
- The read of `min_vRuntime` in `yield` takes no lock, so it is an arbitrary snapshot.
- A disk block is written atomically, and a crash can fall between any two block writes, also during recovery.
- Files have no holes to begin with: every block below the size is mapped. The operations keep it so, and `Mkfs`
  says for which images it holds.
- Copies between the kernel and user memory inside `readi` and `writei` are all-or-nothing.
- The `double` in `calculateWeight` is an exact real, and integers are unbounded except where the width matters: ring
  indices, file offsets, block numbers, `malloc`'s argument and `sbrk`'s.
- The hardware sets the accessed and dirty bits of page-table entries itself.
- `panic` ends the run. A step that would panic is not enabled, and where the code can reach the panic a finding says so.

## Findings

Where the code does not do what its comments or its design promise, a lemma gives the input or the run, and another
one the exact condition under which the promise holds.

- kernel/proc.c:1254-1274. A `chprio` of a queued process moves `rbTreeWeight` away from the queued weights.
  `Slices.WeightConserved` says when the two agree and `Slices.SliceIff` when a slice is in range. In
  `Slices.ChprioBreaksSlice` a process running on one CPU renices another, which then gets 26208 ticks in a period of 32.
- mkfs/mkfs.c:25. `mkfs` gives the log LOGSIZE blocks including its header, one too few for what `begin_op` admits.
  `LogSpace.RoomIff` says that operations of MAXOPBLOCKS blocks always find room if and only if the log has more than
  LOGSIZE blocks, and `LogSpace.LogTooSmall` gives the run into the "too big a transaction" panic for every smaller log.
  No system call is shown to reach it: by `LogUse.FilewritesFit` operations that log no more than `filewrite` does,
  seven blocks on an image of `mkfs`, never do.
- kernel/param.h:10-11. A log with the missing block is no remedy, because there are as many buffers as the log may pin.
  In `LogUse.CommitLacksBuffer` three operations within their budgets pin all of them, and `commit` ends in the "no
  buffers" panic of `bget`. `LogBuffers.CommitRoomIff` is the exact condition, and by `LogUse.CommitHasBuffer` it holds
  with the log of `mkfs` unless somebody holds a buffer outside the transaction. Here too no system call is shown to
  reach the panic.
- kernel/log.c:220. `log_write` tests its limits before absorption. In `LogSpace.AbsorptionPanicsWhenFull` rewriting a
  block that is already in a full log panics. `LogSpace.LogWriteGoesThrough` is the exact condition.
- kernel/virtio_disk.c:218. The sector is computed in the 32 bits of the block number. `VirtioDisks.SectorIff` says that
  it is right exactly for blocks below 2^31.
- user/umalloc.c:54. `morecore` passes an unsigned byte count to `sbrk(int)`. `Malloc.GrantExact` says for which requests
  the memory granted is the memory recorded, `Malloc.ExtendIff` that anything else breaks the heap, and
  `Malloc.GrantTooSmall` gives two requests.
- mkfs/mkfs.c:163-168. `mkfs` rounds the root directory's size up by a whole block when it is already a multiple of the
  block size. `Mkfs.MakeImage` and `Mkfs.RoundedDense` say that the root directory then has a hole: exactly when the
  number of entries, with those for itself and its parent, is a multiple of 64.
- mkfs/mkfs.c:220-232. `mkfs` never tests an inode number. `Mkfs.InodesFit` says that from 207 files on an inode lies on
  the bitmap block, which is written last, and with fewer none does.
- kernel/proc.c:75-82. `calculateWeight` starts its product at 1.25, so the weight is 1024/1.25^(nice+1), not
  1024/1.25^nice as its comment says: `Weights.WeightOfDefault`.

## Model

| member | source | states |
|---|---|---|
| Weights.CalculateWeight | kernel/proc.c:78-98 | the loop computes floor(1024/1.25^(n+1)) for n the nice value cut to 0..30 |
| Weights.WeightBounds | kernel/proc.c:78-98 | every weight lies in 1..819 |
| Weights.WeightAntitone | kernel/proc.c:85-98 | a higher nice value never weighs more |
| Weights.WeightOfDefault | kernel/proc.c:75-82 | nice value 0 weighs 819, not the 1024 of the comment's formula |
| Weights.WeightOfNicest | kernel/proc.c:87-89 | nice value 30 weighs 1, so no weight is 0 |
| RbTree.RepairCorrect | kernel/proc.c:260-330 | from a tree that is red-black but for one red node under a red parent, the five insertion cases restore all red-black laws and keep the in-order sequence |
| RbTree.InsertedCorrect | kernel/proc.c:226-330 | descent plus repair gives a red-black tree whose in-order sequence is the old one with the new slot enqueued, for every tree and key, ties included |
| RbTree.EnqueueCut | kernel/proc.c:226-246 | enqueueing cuts the sorted queue once: no larger key before the new slot and only larger ones behind, so equals keep their order of arrival |
| RbTree.RebalanceCorrect | kernel/proc.c:415-457 | the fix-up loop ends, makes up for the missing black node and keeps the in-order sequence |
| RbTree.BlackSiblingDeficient | kernel/proc.c:418-429 | in the fix-up loop the process is its parent's left child and has a sibling, before and after a red sibling is rotated away, so the loop needs no other branch |
| RbTree.PushedUpDeficient | kernel/proc.c:430-434 | recolouring a sibling without red children moves the missing black node one level up |
| RbTree.BorrowCorrect | kernel/proc.c:435-450 | the closing rotation, with the sibling's colour taken over, restores all red-black laws |
| RbTree.ExtractCorrect | kernel/proc.c:371-464 | taking out the leftmost node leaves a red-black tree whose in-order sequence lost exactly its first slot |
| ProcTable.MinimumRefresh | kernel/proc.c:352-355 | after an insertion with its rotations the old minimum has a left child exactly when it is no longer the leftmost node |
| RunQueues.RunQueue.Rbinit | kernel/proc.c:55-66 | the empty tree on a fresh table is valid, with weight 0 and the default period |
| RunQueues.RunQueue.RotateLeft | kernel/proc.c:156-174 | the links of every slot of the table, and the root, after a left rotation |
| RunQueues.RunQueue.RotateRight | kernel/proc.c:183-204 | the links of every slot of the table, and the root, after a right rotation |
| RunQueues.RunQueue.RetrieveUncle | kernel/proc.c:134-146 | the links lead to the uncle in the tree, or nowhere at the root and below it |
| RunQueues.RunQueue.SetMinimumVRuntime | kernel/proc.c:213-224 | the recursion finds the first slot in order, or null in an empty tree |
| RunQueues.RunQueue.InsertProc | kernel/proc.c:226-246 | the recursive descent links the new slot in as the leaf the tree model says, parent links and all, and touches no other field |
| RunQueues.RunQueue.InsertionCase1 | kernel/proc.c:266-330 | the mutually recursive cases leave the table linked as the repaired tree and change only colours and links of its slots |
| RunQueues.RunQueue.InsertionCase2 | kernel/proc.c:274-277 | under a black parent nothing is to be done; under a red one the repair is completed |
| RunQueues.RunQueue.InsertionCase3 | kernel/proc.c:279-294 | with a red uncle the family is recoloured and the repair goes on at the grandparent; the recursion ends because the path above is shorter |
| RunQueues.RunQueue.InsertionCase4 | kernel/proc.c:296-324 | an inner child is rotated outward first; then the outer rotation completes the repair |
| RunQueues.RunQueue.InsertionCase5 | kernel/proc.c:310-324 | the outer rotation leaves the table linked as the tree with the parent black above the red grandparent |
| RunQueues.RunQueue.InsertProcess | kernel/proc.c:332-359 | the queue is the old one with the process enqueued; links, colours, parent pointers, count, cached minimum and order stay valid; weight and running total are set; no other field of any process changes |
| RunQueues.RunQueue.RetrievingCase1 | kernel/proc.c:377-414 | unlinking the leftmost slot leaves the table linked as the tree without it and the slot without links |
| RunQueues.RunQueue.RetrievingCase2 | kernel/proc.c:415-457 | the fix-up loop over the links terminates and leaves the table linked as the rebalanced tree |
| RunQueues.RunQueue.RetrieveProcess | kernel/proc.c:466-510 | takes exactly the head of the queue, if it is runnable, with slice period times weight over the running total, and subtracts its weight; otherwise it changes only the period |
| RunQueues.RunQueue.Chprio | kernel/proc.c:1254-1274 | only nice value and weight of that slot change, and the running total drifts from the queued weights by the change if the slot is queued |
| Scheduler.InitialInv | kernel/proc.c:55-66 | the scheduler's invariant holds of the empty table |
| Scheduler.StepInv | kernel/proc.c:816-1274 | every step of fork, scheduler, yield, sleep, exit, wait, wakeup, kill and chprio keeps the invariant |
| Scheduler.RunInv | kernel/proc.c:816-1174 | so does every interleaving of them, over any number of CPUs |
| Scheduler.RunnableInOnePlace | kernel/proc.c:858-1016 | a runnable process is in exactly one of the tree, a fork about to insert it, and the hands of one scheduler |
| Scheduler.RunningOnOneCpu | kernel/proc.c:983-1066 | a process is running exactly when it is on a CPU, and only runnable ones are queued |
| Scheduler.OneStackPerCpu | kernel/proc.c:983-1043 | no two CPUs are on the stack of one process |
| Scheduler.RoomInQueue | kernel/proc.c:332-342 | a process outside the tree finds room: the full-tree branch never drops one |
| Scheduler.PeriodBounds | kernel/proc.c:478-480 | the period lies between half and twice the number of process slots |
| Scheduler.TickInv | kernel/trap.c:80-85 | a tick leaves the process running within its budget or requeued with at most max(slice, minimum granularity) added to its runtime |
| Scheduler.WakeInv | kernel/proc.c:1122-1143 | a woken process is queued and charged at most its budget |
| Preemption.TickIff | kernel/proc.c:526-555 | after a tick a process is off the CPU if and only if it has run for slice and two ticks, or somebody runnable was seen with less virtual runtime and it has run for two ticks or not at all; otherwise only its count of ticks changes |
| Preemption.TickCharges | kernel/proc.c:1047-1066 | whoever loses the CPU is charged the ticks of this dispatch and queued behind exactly those with no more virtual runtime |
| Preemption.WholeSlice | kernel/proc.c:526-555 | over every run in which it is nowhere seen to be ahead of another, a process keeps the CPU for its slice, or two ticks if that is longer, and loses it at the tick that uses it up |
| Preemption.RuntimeIsCpuTime | kernel/trap.c:80-85 | over every run, virtual runtime and runtime of the present dispatch together are the ticks the process took in user mode since it was allocated |
| Preemption.ForkStartsFresh | kernel/proc.c:652-662 | a forked process is queued with no runtime, nice value 0 and weight 819, behind exactly those that have no runtime either |
| Preemption.PeriodPerProcess | kernel/proc.c:478-480 | the period gives every queued process at least two ticks, exactly two above sixteen processes, and is otherwise unchanged |
| Preemption.HeadCanRun | kernel/proc.c:983-1016 | from every reachable state a free CPU can get the first queued process to run in at most three steps |
| Preemption.CanGoOn | kernel/proc.c:816-1174 | every process outside the queue has a step by which it goes on, or a CPU that has just left it can let go of it |
| SchedulerCode.Boot | kernel/proc.c:572-586 | a fresh table and tree are the state machine's initial state |
| SchedulerCode.Insert | kernel/proc.c:332-359 | insertProcess on the linked table is the state machine's insertion, links of off-tree slots included |
| SchedulerCode.Retrieve | kernel/proc.c:466-510 | retrieveProcess is the state machine's retrieval, and the head is always runnable |
| SchedulerCode.Requeue | kernel/proc.c:1131-1138 | adding the runtime of this dispatch, clearing it and inserting the process is the state machine's charge and insertion |
| SchedulerCode.Wake | kernel/proc.c:1131-1138 | charging and requeueing a sleeper is the state machine's wake step |
| SchedulerCode.Wakeup | kernel/proc.c:1122-1143 | the loop over the table is a run of wake steps, for exactly the sleepers on the channel other than the caller |
| SchedulerCode.Renice | kernel/proc.c:1254-1274 | chprio is the state machine's chprio step |
| SchedulerCode.Tick | kernel/proc.c:1046-1066 | the timer tick with yield is the state machine's tick step |
| Slices.StepDrift | kernel/proc.c:343-347 | each step changes running total minus queued weights by exactly what chprio did to a queued weight |
| Slices.WeightConserved | kernel/proc.c:343-510 | after any run from boot, rbTreeWeight is the sum of the queued weights if and only if those changes cancel out |
| Slices.DivTruncates | kernel/proc.c:501 | the machine division leaves a remainder smaller than the divisor, of the sign of the dividend |
| Slices.SliceExact | kernel/proc.c:497-501 | for every period, weight and total, zero and negative totals included, the machine division lies in 0..period if and only if an inequality on the three holds |
| Slices.SliceIff | kernel/proc.c:478-504 | a retrieval in any reachable state gives a slice in 0..period if and only if weight and running total satisfy it |
| Slices.SliceShare | kernel/proc.c:497-504 | from boot, with chprio off queued processes, a process leaves the queue with its share of the period by weight among all queued, rounded down |
| Slices.SlicesFromBoot | kernel/proc.c:478-504 | in every run from boot in which chprio stays off queued processes, for all nice values, the total is exact and every slice lies in 0..period |
| Slices.ChprioBreaksSlice | kernel/proc.c:1254-1274 | a run from boot on two CPUs: a running process gives a sleeper nice value 30, and 0 once it is woken and queued; its retrieval then gives slice 26208 in period 32 and leaves total -818 |
| Fairness.TakeAgrees | kernel/proc.c:466-495 | the head of the ordered queue is the first of the least entries of the bag, and removing both leaves them in step |
| Fairness.RunRefines | kernel/proc.c:332-510 | every sequence of insertions and retrievals gives what a stable priority queue on an unordered bag gives |
| Fairness.DispatchOrder | kernel/proc.c:983-1016 | over every run of the scheduler, processes leave the tree in that order |
| Fairness.DispatchOrderFromBoot | kernel/proc.c:983-1016 | from boot it is the order of the reference bag started empty |
| Bypass.BoundedBypass | kernel/proc.c:1046-1066 | with no new forks and a tick charged per dispatch, a process queued at runtime v waits through at most the sum over the other live processes q of max(0, v - v_q + 1) dispatches |
| LogDisk.RecoveryIdempotent | kernel/log.c:68-123 | a recovery cut off after any write leaves a disk from which recovery comes to the same home blocks |
| LogDisk.CommitAtomic | kernel/log.c:178-203 | a crash after any number of commit's writes: recovery restores the state before the transaction if the header was not written, and the state after it otherwise |
| LogDisk.CommitAtomicUnderCrashes | kernel/log.c:116-203 | the same with any number of further crashes during the recoveries |
| LogDisk.CommitComplete | kernel/log.c:193-203 | an uninterrupted commit installs the transaction and clears the header |
| RedoLog.CopyLoopWrites | kernel/log.c:178-191 | the copy loops write, in order, what each source block showed before the loop |
| RedoLog.CommitResult | kernel/log.c:178-203 | the writes commit does through the cache are the writes LogDisk is about, and no block is dirty afterwards |
| RedoLog.RecoverResult | kernel/log.c:68-123 | the writes recovery does through the cache are LogDisk's recovery writes |
| RedoLog.CommitKeepsView | kernel/log.c:193-203 | no reader sees a home block change while it is committed |
| RedoLog.Log.WriteLog | kernel/log.c:178-191 | the loop over the header's blocks is the copy of cached blocks into the log |
| RedoLog.Log.InstallTrans | kernel/log.c:68-83 | the loop is the copy of logged blocks home, and unpins them unless recovering |
| RedoLog.Log.WriteHead | kernel/log.c:102-114 | count and names go into the header block and to disk |
| RedoLog.Log.ReadHead | kernel/log.c:86-97 | the in-memory header is what the header block names |
| RedoLog.Log.Commit | kernel/log.c:193-203 | the whole store after commit, the header emptied, exactly the transaction's blocks unpinned; nothing at all for an empty transaction |
| RedoLog.Log.RecoverFromLog | kernel/log.c:116-123 | the disk becomes the recovered one by the recovery writes, and the log is empty and clean |
| RedoLog.Log.LogWrite | kernel/log.c:214-235 | panics exactly at the three limits; otherwise records the block once and pins it when it is new |
| RedoLog.Log.BeginOp | kernel/log.c:126-142 | joins exactly when not committing and the reservation fits |
| RedoLog.Log.EndOp | kernel/log.c:146-175 | the last one out commits; anyone else only leaves; panics exactly when already committing |
| LogProtocol.InitInv | kernel/log.c:54-65 | the protocol's invariant holds of a fresh file system |
| LogProtocol.StepRefines | kernel/log.c:126-235 | every step of every operation, of commit, eviction, crash or recovery keeps the invariant and is a step of atomic group commit or no change |
| LogProtocol.RunRefines | kernel/log.c:68-235 | so whole runs, with crashes anywhere, refine atomic group commit |
| LogProtocol.NoCommitInside | kernel/log.c:126-175 | no commit falls between begin_op and end_op of an operation, so all it logs lands in one commit |
| LogProtocol.UncommittedStaysOff | kernel/log.c:178-203 | before the header is written, no home block on disk shows an uncommitted change |
| LogProtocol.StepEvict | kernel/bio.c:77-87 | recycling a buffer that is neither held nor pinned loses nothing; `LogBuffers` ties both to the reference count |
| LogProtocol.RecoversToLastCommit | kernel/log.c:116-123 | after a crash and any interrupted recoveries, a finished one leaves the last commit |
| LogProtocol.DurableIsRecovered | kernel/log.c:68-123 | what the protocol calls durable is what recovery restores, block by block |
| LogCompletion.QuietIsDurable | kernel/log.c:146-175 | after every run from a fresh file system, with no operation under way, no commit and no recovery, the log is empty and all that users see is durable |
| LogCompletion.LastEndCommits | kernel/log.c:146-175 | the last end_op starts the commit of what is then seen, or that is durable already |
| LogCompletion.CommitDurable | kernel/log.c:178-203 | while a commit is under way no user sees a change, whatever readers and the cache do, and when it is over what was seen at its beginning is durable |
| LogCompletion.EndIsDurable | kernel/log.c:146-203 | so what was seen at the last end_op is durable as soon as the system runs on |
| LogCompletion.CommitEnds | kernel/log.c:178-203 | with no buffer locked, a commit of n blocks is over after 2n + 2 steps |
| LogCompletion.WriteIsDurable | kernel/log.c:126-235 | from rest, an operation that modifies any one block runs from begin_op to end_op, its commit takes four steps, and the block is then durable with its new contents and nothing else has changed |
| LogCompletion.StepsAreCommit | kernel/log.c:193-203 | these steps do to disk and cache what commit does in one go |
| LogCompletion.RecoveryEnds | kernel/log.c:116-123 | from any crash, recovery is over after as many steps as the log has blocks and two more, and leaves the recovered disk |
| LogSpace.SpaceAlways | kernel/log.c:126-142 | for every budget of at most MAXOPBLOCKS, while operations keep to it, logged blocks plus unspent budgets stay within LOGSIZE - MAXOPBLOCKS + budget while the system is up, in every run |
| LogSpace.BeginIff | kernel/log.c:126-142 | begin_op admits an operation if and only if ten blocks for it and each one under way fit besides those logged, and neither commit nor recovery is under way |
| LogSpace.LogWriteGoesThrough | kernel/log.c:214-235 | log_write within budget goes through if and only if the log has room for one more, for a block already logged too; a new block always does when the log has more than LOGSIZE blocks |
| LogSpace.NeverFull | kernel/log.c:214-235 | operations with a smaller budget never reach a limit of log_write, absorption included, when the log has as many blocks as they can fill and two more |
| LogSpace.LogTooSmall | mkfs/mkfs.c:25 | for every log of LOGSIZE blocks or fewer, a run of three operations within MAXOPBLOCKS each reaches the panic |
| LogSpace.RoomIff | kernel/log.c:126-235 | log_write of a new block goes through in every run within budgets if and only if the log has more than LOGSIZE blocks |
| LogSpace.AbsorptionPanicsWhenFull | kernel/log.c:220-229 | with a larger log, rewriting a block of a full log panics |
| BufferCaches.BufferCache.Binit | kernel/bio.c:36-53 | the ring built over zeroed buffers is a valid cache that holds no block |
| BufferCaches.BufferCache.Bget | kernel/bio.c:58-89 | the buffer that holds the block, or the unreferenced one released to zero longest ago, recycled; no other block's contents change; the panic exactly when no buffer holds the block and all are referenced |
| BufferCaches.BufferCache.Bread | kernel/bio.c:92-103 | a referenced, valid buffer with the block's contents, every other buffer as it was; the panic exactly when bget panics |
| BufferCaches.BufferCache.Bwrite | kernel/bio.c:106-112 | the disk gets the contents, and no block changes for its readers |
| BufferCaches.BufferCache.Bpin | kernel/bio.c:139-144 | one more reference and nothing else |
| BufferCaches.BufferCache.Bunpin | kernel/bio.c:146-151 | one reference less and nothing else, the place on the list included |
| BufferCaches.BufferCache.Brelse | kernel/bio.c:116-137 | one reference less; at zero the buffer is relinked as the most recently released, and the ring stays a doubly linked permutation |
| BufferCaches.LogicalUnique | kernel/bio.c:58-103 | in a valid cache every block of a real device holds exactly one thing |
| LogBuffers.ReferencedIff | kernel/bio.c:58-151 | between steps a buffer's reference count is positive if and only if its block is held or pinned |
| LogBuffers.FreeBufferIff | kernel/bio.c:76-88 | bget finds an unreferenced buffer if and only if fewer than NBUF blocks are held, pinned or referred to by commit |
| LogBuffers.Load | kernel/bio.c:58-103 | bread in commit: at most one eviction that the protocol allows; the panic exactly when the block is not cached and NBUF blocks are in use |
| LogBuffers.Acquire | kernel/bio.c:58-103 | bread by an operation or a reader is the protocol's acquire step after at most one eviction, with the exact condition of the panic |
| LogBuffers.Modify | kernel/log.c:209-213 | writing into a held buffer is the protocol's modify step |
| LogBuffers.LogWrite | kernel/log.c:214-235 | log_write is the protocol's step: it pins the buffer exactly when the block is new to the log |
| LogBuffers.Release | kernel/bio.c:116-137 | brelse by the holder is the protocol's release step; the invariant gives what brelse needs, that an unreferenced buffer has what the disk has |
| LogBuffers.Copy | kernel/log.c:68-83 | one turn of write_log or install_trans on the buffers is the protocol's copy, with bunpin exactly when a transaction is installed; it goes through if and only if both blocks find buffers |
| LogBuffers.WriteHead | kernel/log.c:102-114 | write_head on the buffers is the protocol's header write |
| LogBuffers.CommitTurn | kernel/log.c:178-203 | every step of commit is a run of the protocol on the buffers, and goes through if and only if a buffer is left for it |
| LogBuffers.ReadHead | kernel/log.c:86-97 | read_head after a crash is the protocol's first recovery step |
| LogBuffers.RecoverTurn | kernel/log.c:116-123 | every later step of recovery is a run of the protocol on the buffers, and never lacks one |
| LogBuffers.CrashedOk | kernel/bio.c:36-53 | the cache that binit leaves is the protocol's state after a crash |
| LogBuffers.CommitRoomIff | kernel/log.c:178-191 | while the log is written, exactly its blocks are pinned, and commit has a buffer if and only if they and the other held blocks are fewer than NBUF |
| BlockMaps.BitmapExact | kernel/fs.c:65-105 | a bit is set if and only if the block is metadata or reachable from an inode |
| BlockMaps.Unshared | kernel/fs.c:382-421 | a block is reachable from one place of one file only |
| BlockMaps.BitLocation | kernel/fs.c:72-76 | the bit of block b is bit b % 8 of byte b / 8 of the bitmap |
| Blocks.WordBytes | kernel/fs.c:405-410 | a block number in an indirect block is four bytes, low byte first |
| BlockMaps.FileSystem.Balloc | kernel/fs.c:65-88 | the first free block, marked and zeroed, or 0 exactly when none is free |
| BlockMaps.FileSystem.Bfree | kernel/fs.c:91-105 | clears the block's bit; the bit is set, so "freeing free block" is not reached |
| BlockMaps.FileSystem.Bmap | kernel/fs.c:382-421 | a mapped block is returned untouched; an unmapped one is mapped to a zeroed free block across the direct and indirect parts, with every other block of every file as it was; 0 only when no block is free; every block changed is logged |
| Truncation.Itrunc | kernel/fs.c:425-453 | exactly the blocks of this file and its indirect block become free, its map is empty, every other file is as it was; logged are the inode and exactly the bitmap blocks of the blocks freed, and so every block changed |
| FileContents.ByteLocation | kernel/fs.c:382-421 | where byte k of a file is: in one of twelve blocks the inode names, or of those the last block it names lists |
| FileContents.Readi | kernel/fs.c:471-496 | the bytes off..off+n cut at the size, exactly, with nothing allocated; the refused and the failed-copy cases |
| FileContents.Writei | kernel/fs.c:505-539 | r bytes of the source are spliced in at off and nothing else of any file changes; size is max(size, off+r); refused exactly when off is beyond the size or the end beyond 268 blocks; short only when a copy fails or no block is free; exactly which blocks are logged, and every block and inode changed is among them |
| FileContents.WriteThenRead | kernel/fs.c:471-539 | reading back gives the bytes written, and all other bytes of the file are as before |
| FileWrites.BitmapBlocks | kernel/fs.c:65-88 | the number of bitmap blocks is exactly that of the blocks with a bit for some block of the disk |
| FileWrites.ChunkFits | kernel/file.c:148-156 | one chunk to a file without holes logs at most six blocks and one for each bitmap block up to four, so at most MAXOPBLOCKS |
| FileWrites.TenBlocks | kernel/file.c:148-156 | from every state in which an unaligned chunk needs three data blocks and an indirect block that the bitmap has in four different blocks, writei logs exactly MAXOPBLOCKS blocks |
| FileWrites.WriteOp | kernel/file.c:161-166 | one transaction within the bound of ChunkFits that logs all it changes; the offset moves by what was written |
| FileWrites.Filewrite | kernel/file.c:148-175 | the chunks together are one write; the whole length or -1, and then why it stopped; every transaction keeps to the bound of ChunkFits, and every block and inode changed is logged in one of them; no more is written than user memory gives |
| LogUse.ImageLayout | mkfs/mkfs.c:20-27 | the parts of the image follow each other: boot block, super block, log, inodes, bitmap, data |
| LogUse.ChunkOnImage | mkfs/mkfs.c:23 | on an image of mkfs, with its one bitmap block, that bound is seven |
| LogUse.FilewritesFit | kernel/file.c:148-166 | with operations that log no more than that, log_write never panics on the log mkfs makes |
| LogUse.TruncationFits | kernel/fs.c:425-453 | itrunc logs at most as many blocks as the bitmap has, and the inode |
| LogUse.TruncationOnImage | mkfs/mkfs.c:23 | on an image of mkfs that is two blocks |
| LogUse.CommitHasBuffer | kernel/log.c:178-191 | with a log of at most NBUF blocks, commit has a buffer to copy with unless somebody holds one outside the transaction |
| LogUse.CommitLacksBuffer | kernel/param.h:9-11 | with every larger log, a run of three operations within their budgets reaches a commit without a buffer |
| Mkfs.MakeImage | mkfs/mkfs.c:69-173 | an image is made if and only if the blocks of directory and files, indirect ones included, are at most the data blocks; it has the super block in its place and exact block maps, and holds these files and this directory; every file is without holes, and the root directory is if and only if its entries do not fill whole blocks |
| Mkfs.RoundedDense | mkfs/mkfs.c:163-168 | after the size correction the root directory has no hole if and only if its size was not a multiple of the block size |
| Mkfs.InodesFit | mkfs/mkfs.c:175-196 | the inodes of the image lie before the bitmap block if and only if there are fewer than 207 files |
| Mkfs.Image.constructor | mkfs/mkfs.c:108-115 | the zeroed image with a super block has valid, empty block maps |
| Mkfs.Image.Ialloc | mkfs/mkfs.c:220-232 | the next inode, empty, and nothing else changes |
| Mkfs.Image.Iappend | mkfs/mkfs.c:252-294 | the bytes go behind those of the file and no other file changes; false if and only if the blocks still needed, indirect one included, are more than those left |
| Mkfs.Image.FixRootSize | mkfs/mkfs.c:163-168 | only the root's size changes, to the end of the block after its last whole one |
| Mkfs.Image.Balloc | mkfs/mkfs.c:234-248 | with the bitmap written, the file-system invariant holds of the disk itself |
| PageTables.Unshared | kernel/vm.c:85-103 | no table hangs from two entries, and none below an entry is a root |
| PageTables.SetLowPte | kernel/riscv.h:347-363 | writing an entry of a lowest-level table changes the flat map at that one page number of that one root |
| PageTables.LinkPte | kernel/vm.c:94-100 | hanging an empty table changes nothing in any flat map |
| PageTables.Machine.constructor | kernel/kalloc.c:21-24 | memory with nothing on the free list and nothing in a table is valid |
| PageTables.Machine.Freerange | kernel/kalloc.c:33-40 | exactly the whole pages of the range become free |
| PageTables.Kinit | kernel/kalloc.c:26-31 | after kinit every page whose bytes lie between the end of the kernel and PHYSTOP is free and the machine valid |
| PageTables.Machine.Kfree | kernel/kalloc.c:46-63 | the page is filled, linked in front of the free list, and no mapping changes |
| PageTables.Machine.Kalloc | kernel/kalloc.c:68-82 | the head of the free list, filled, or 0 exactly when the list is empty |
| PageTables.Machine.Walk | kernel/vm.c:85-103 | leads to the lowest-level table of the page number without changing any mapping; 0 only for an unmapped page, and then, if allocating, with no page left; takes at most two pages |
| PageTables.Machine.Mappages | kernel/vm.c:142-165 | the flat map gains exactly the range reached and changes nowhere else; all of it if and only if it succeeds; fails only with no page left; `Sv39.MappedBits` has the entries bit by bit |
| PageTables.Machine.Uvmunmap | kernel/vm.c:170-192 | the flat map loses exactly the range, the pages are freed or only given up, and nothing else changes |
| UserMemory.Uvmdealloc | kernel/vm.c:255-267 | unmaps and frees exactly the pages between the two sizes |
| UserMemory.MapFresh | kernel/vm.c:233-246 | a fresh page with the given contents and permission is mapped, or everything is as before and at most three pages were free |
| UserMemory.Undone | kernel/vm.c:237-245 | mapping fresh pages and unmapping them again leaves every flat map as it was and loses no page |
| UserMemory.Uvmalloc | kernel/vm.c:225-249 | zeroed user pages up to the new size, or on failure the flat map as before; it fails only when fewer pages were free than it could need |
| UserMemory.Uvmcopy | kernel/vm.c:305-333 | the child gets equal contents and flags on pages of its own and the parent is untouched, or on failure the child has nothing; it fails only when fewer pages were free than it could need |
| Sv39.HardwareAgrees | kernel/vm.c:85-103 | for every address below MAXVA and every kind of access, the hardware comes to the page of the flat map, with the same offset, if the entry allows it to user mode, and faults otherwise |
| Sv39.LeafBits | kernel/vm.c:277 | the kernel takes for a leaf exactly the entries with R, W or X |
| Sv39.MappedBits | kernel/vm.c:158 | an entry written by mappages is the page number above ten flags, those asked for and the valid bit |
| Sv39.GrownIsUsable | kernel/vm.c:225-249 | after uvmalloc user code can read every byte up to the new size, finds it in a zeroed page of its own, and can write or execute it exactly when asked for |
| Sv39.CopyIsEqual | kernel/vm.c:305-333 | after uvmcopy the child may do at every address what the parent may, and finds equal contents in a page of its own |
| Sv39.UnmappedFaults | kernel/vm.c:170-192 | after uvmunmap every access to the range faults |
| Sv39.Walkaddr | kernel/vm.c:107-126 | 0 unless user mode may use the page; where the hardware lets user code through, the page it finds |
| Teardown.EntryFree | kernel/vm.c:277-283 | freewalk meets no leaf, so its panic is not reached |
| Teardown.Freewalk | kernel/vm.c:271-287 | every table of the tree is freed, and no other root's mapping changes |
| Teardown.Uvmfree | kernel/vm.c:291-297 | every user page and table page of the root goes back to the free list, and every other page and mapping stays |
| Teardown.Uvmcreate | kernel/vm.c:196-205 | a zeroed page as a root with nothing mapped, every other page as it was, or 0 exactly when no page is free |
| Malloc.GrantExact | user/umalloc.c:46-61 | for every malloc argument, the units sbrk grants are the units recorded if and only if the request is at most 0x7FFFFFE0 bytes |
| Malloc.GrantTooSmall | user/umalloc.c:54 | two requests whose sbrk argument is cut to an int and grants nothing, or one unit |
| Malloc.SbrkArgIs | user/umalloc.c:54 | the argument of sbrk is the one int equal to the bytes wanted modulo 2^32 |
| Malloc.AskedFor | user/umalloc.c:46-61 | the heap grows by 64 kilobytes, or by the request with its header rounded up if that is more |
| Malloc.ExtendIff | user/umalloc.c:54-60 | a block recorded with n units of which g were granted leaves a sound heap if and only if g is n |
| Malloc.Heap.Free | user/umalloc.c:24-44 | the block is back in a circular, address-ordered, fully coalesced list, every other live block is untouched, and a request of its size can be met |
| Malloc.Heap.Morecore | user/umalloc.c:46-61 | the units granted join the free list, or nothing changes when sbrk refuses |
| Malloc.Heap.Malloc | user/umalloc.c:63-90 | a block that was not live, with room for the request and less than 16 bytes more, the end of the first free block after freep that is large enough; asks sbrk at most once, only when none is, and returns 0 only when it refuses |
| Malloc.BlocksApart | user/umalloc.c:24-90 | an allocated block overlaps no other allocated block and no free one |
| Malloc.Conserved | user/umalloc.c:24-90 | free plus allocated units are the units obtained from sbrk |
| VirtioDisks.InitialInv | kernel/virtio_disk.c:126-146 | the driver's invariant holds after initialisation |
| VirtioDisks.StepInv | kernel/virtio_disk.c:215-327 | every step of driver and device keeps it, across the wrap of the 16-bit indices |
| VirtioDisks.DeviceSeesRequest | kernel/virtio_disk.c:238-269 | what the device reads off the chain is the request that was made: direction, sector, the 1024 bytes of its buffer, which the device may write exactly for a read of the disk, and the status byte |
| VirtioDisks.SectorIff | kernel/virtio_disk.c:218 | a sector number is twice the block number if and only if that is below 2^31 |
| VirtioDisks.BlockServed | kernel/virtio_disk.c:215-280 | serving a request for a block moves exactly its 1024 bytes, between disk and buffer in the direction asked for, and no other byte of the disk |
| VirtioDisks.RingsHaveRoom | kernel/virtio_disk.c:226-277 | at most two requests are in flight, so no unread ring slot is overwritten |
| VirtioDisks.ExactlyOnce | kernel/virtio_disk.c:215-327 | in every run each request of a buffer is reported done exactly once or is still outstanding |
| VirtioDisks.NothingStuck | kernel/virtio_disk.c:215-327 | for every request in flight the next step of driver or device is enabled, and takes one from the work left |
| VirtioDisks.Drains | kernel/virtio_disk.c:215-327 | from every state they can go on until no request is in flight and every descriptor is free |
| VirtioDisks.VirtioDisk.AllocDesc | kernel/virtio_disk.c:156-166 | the first free descriptor, or -1 exactly when none is free |
| VirtioDisks.VirtioDisk.FreeDesc | kernel/virtio_disk.c:169-182 | the descriptor is cleared and free; it is not free before, so the panic is not reached |
| VirtioDisks.VirtioDisk.Alloc3Desc | kernel/virtio_disk.c:201-213 | three different free descriptors if and only if three are free; otherwise none is kept |
| VirtioDisks.VirtioDisk.FillChain | kernel/virtio_disk.c:238-277 | the request is laid out in its three descriptors and its head put on the avail ring |
| VirtioDisks.VirtioDisk.Submit | kernel/virtio_disk.c:215-280 | publishes the request on a chain of its own if and only if fewer than two are in flight |
| VirtioDisks.VirtioDisk.FreeChain | kernel/virtio_disk.c:185-197 | follows the chain and frees its three descriptors |
| VirtioDisks.VirtioDisk.Finish | kernel/virtio_disk.c:283-289 | exactly the request's three descriptors become free |
| VirtioDisks.VirtioDisk.Intr | kernel/virtio_disk.c:294-327 | every request the device has finished becomes done, and no other changes |

## Left out

- SchedulerCode.Wakeup: the channel is given as the set of slots sleeping on it, and that a sleeper's lock is free stands in for waiting on it, because waiting has no step here.
- Mkfs.MakeImage: where the blocks run out the source exits in `rsect`, and the model returns false; each read of a host file but the last gives a whole block, and directory entries are given as 16 bytes each, because names are cut by string routines that are not part of this model.
- FileContents.WriteThenRead: user copies that fail half way are not modelled, because they change a buffer that is then not logged.
- FileWrites.TenBlocks: is about every state of the kind it requires and constructs none, because that takes an image with four bitmap blocks.
- LogBuffers.Acquire: the sleep-lock of a buffer is the protocol's condition that nobody holds its block, because waiting has no step here.
- PageTables.Machine.Walk: the panic for addresses from MAXVA on is a precondition.
- Fairness of the environment: that a step is possible is proved, not that a sleeping waiter is woken or that the device gets on with a request.
- Memory ordering and the spin in `acquire`: lock regions are atomic.
- `kernel/exec.c`, system-call argument fetching, pipes, the console, `kernel/sysfile.c` with its link counts, directories as name maps: easy members or many side conditions, and no property above needs them.
- Trap entry and exit, the PLIC, the UART, boot code and assembly.
- `kernel/ramdisk.c`, which is not built.
