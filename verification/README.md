# A model of the xv6 kernel's hard parts

This project models the logic of a teaching kernel derived from xv6 and proves what its design relies
on: that a crash at any disk write leaves a transaction whole or absent, that the buffer cache is
invisible, that the process lists partition the process table through every interleaving of system
calls, that no wakeup is lost, that every file is one sequence of bytes however its blocks lie on
disk, that file operations running at the same time survive a crash whole or not at all, that memory
is neither shared nor (except where the code loses it) lost, and that what the shell's parser reads is
what was written.

A module models one source file or one concern of it.

| module | about |
|---|---|
| `Words`, `Sequences` | 32-bit little-endian words in blocks; sequences without repetitions |
| `LogSpec` | the log on disk: header format, the block writes of commit and recovery, crashes |
| `LogProtocol` | processes, operations, commits, crashes and reboots as one machine, and its runs |
| `Log` | log.c itself, over the buffer cache |
| `CacheSpec`, `RecencyList`, `BufferCache` | bio.c over the memory disk of memide.c |
| `ProcSpec`, `ProcScan`, `ProcRuns` | the process table with its lists; the array scans the lists replace; whole runs |
| `ProcLinks`, `ProcTable` | the linked lists of proc.c and the functions on them |
| `Scheduler` | dispatch order, promotion, fairness within a queue, budgets |
| `SleepWakeup` | sleep and wakeup with their locks, any number of processes |
| `FsSpec`, `FileSystem` | bitmap, inodes, direct and indirect blocks; readi, writei, itrunc and what they log |
| `FileSteps` | writei and itrunc one log_write at a time: a file in the middle of a call, and all others |
| `FileCrashes`, `FileCalls` | processes running file operations over the log, interleaved at every log_write, through crashes |
| `FileBudget` | how many blocks file operations log, against what begin_op reserves |
| `HeapSpec`, `Heap` | the user-level allocator |
| `Grep` | the regular expression matcher |
| `PipeSpec`, `Pipes` | the pipe's ring buffer |
| `ShellSpec`, `ShellLex`, `Shell` | the shell's grammar, its tokens, and the parser over a character buffer |
| `VmSpec`, `Vm` | the page allocator and two-level page tables |
| `VmRuns` | growproc, fork and exit of all processes over one memory, as runs |

Conventions. A structure that the source updates in place is a class; its methods are stated against
functions or relations on its value (`View()`, `Files()`, the blocks of the heap, the map of an
address space). Concurrency is a machine whose steps are the critical sections of the source; a
theorem about runs holds for every sequence of enabled steps. Unsigned 32-bit arithmetic is written
out with its wrap-around. A `panic` ends a run: a method reports it in its result. Time (`ticks`),
what `sbrk` answers and where the machine crashes are parameters.

Properties that turn out not to hold of the code in general, with an input that shows it and the
condition under which they do:

- The header's list of blocks fits the log in every run, for operations of at most `max` blocks each, exactly
  if `max` is 0, the log has one block, or `max` is at most MAXOPBLOCKS and the log has more than
  MAXOPBLOCKS + 2 max blocks: `log_write` tests the count before it takes the lock. mkfs makes the log
  LOGSIZE blocks (mkfs.c:25), enough for operations of nine blocks and not of ten.
  `LogProtocol.LogOverruns`, `LogProtocol.LogFitsIff`.
- File operations do not keep to what begin_op reserves. A chunk of filewrite (file.c:132), which the comment
  before it says is within the size of a transaction, takes 13 or 14 blocks of data alone, against
  MAXOPBLOCKS = 10: no log is large enough for it, and three processes that write such chunks at the same
  time need more blocks than the header has. Operations that do keep to
  it never overrun a log of the size above. `FileBudget.ChunkSpan`, `FileBudget.ThreeWrites`,
  `FileBudget.FilesFit`, `LogProtocol.LogFitsIff`.
- `writei` panics when the disk is full, in the middle of the write, exactly if fewer blocks are free than
  the write needs. `FileSystem.FileSystem.Writei`.
- A `log_write` that would only be absorbed panics when the header is full, although no operation has
  used more than it reserved. `LogProtocol.AbsorbPanics`; `LogProtocol.ReservationRuns` says when.
- A commit of as many blocks as there are buffers panics for want of a buffer to copy through, since
  LOGSIZE equals NBUF. `Log.CommitWithoutRoom`, `Log.Log.Commit`, `Log.Log.EndOp`.
- The scheduler does not always take the lowest non-empty queue, and can idle with work to do: a
  promotion in the middle of its scan moves processes to a queue it has passed.
  `Scheduler.IdlesWithWork`, `Scheduler.DispatchOrderIff`, `Scheduler.SweepInOrderIff`.
- `kill` on the lists does not always do what `kill` on the array does. `ProcScan.KillDiffers`,
  `ProcScan.KillRefinesScanIff`.
- A process that sleeps without a lock can miss its wakeup. `SleepWakeup.NullLockLosesWakeup`,
  `SleepWakeup.NullLostIff`.
- A time slice longer than the budget leaves a huge budget, the subtraction being unsigned.
  `Scheduler.BudgetWraps`, `Scheduler.BudgetInRangeIff`.
- `malloc` of close to 2^32 bytes can return a block that is too small, and `morecore` asks for the
  memory it then uses only below 2^28 units. `Heap.MallocTooSmall`, `HeapSpec.UnitsEnoughIff`,
  `HeapSpec.SbrkWraps`, `HeapSpec.SbrkExactIff`.
- `allocuvm` and `copyuvm` lose a page when memory runs out between a page and the table for it, and
  `allocuvm` may then report success: the process has a gap below its size. Whatever else happens, and
  however much memory is free again, the gap stays until the process shrinks to or below it or exits, and
  until then its `fork` does not succeed, and panics if memory lasts to the gap. `VmRuns.StarvedGap`,
  `VmRuns.GapStep`, `VmRuns.GapRuns`, `VmRuns.GrowthLosesPage`, `VmRuns.ForkPanics`,
  `Vm.Memory.AllocUvm`, `Vm.Memory.CopyUvm`.
- `growproc` to size 0 frees every page, fails, and leaves the size, since deallocuvm's answer 0 is taken for
  a failure. `VmRuns.ShrinkToNothing`.
- `deallocuvm` leaves a page behind where its step of 4 MB over a missing table jumps over it. A process
  comes to that by growing 1024 times when memory is out, then once with memory, and shrinking.
  `VmRuns.DeallocSkips`, `Vm.Memory.DeallocUvm`; in a space without holes it jumps over none
  (`Vm.ShrunkShape`).
- A command line is read back as written only if no simple command has MAXARGS words or more.
  `ShellLex.RoundTripIff`.

## Model

| member | source | states |
|---|---|---|
| LogSpec.HeaderRoundTrip | log.c:85-112 | what read_head reads back is the list of blocks write_head wrote, whatever the block held before |
| LogSpec.CrashedCommitIsDurable | log.c:175-199 | a crash after any block write of a commit leaves the disk such that recovery finds the old contents before the header write and the new ones after it |
| LogSpec.CrashedRecoveryIsDurable | log.c:69-121 | a crash after any block write of recovery keeps what is durable; recovery that completes leaves the disk clean |
| LogSpec.RecoverDurable | log.c:115-121 | recovery brings the durable contents home and empties the log |
| LogSpec.CrashesKeepDurable | log.c:115-121 | any number of crashes, each inside the recovery from the one before, keep what is durable |
| LogSpec.CrashAtomicity | log.c:69-199 | crash at any write of a commit and any number of times in recovery: the recovery that completes finds all home blocks old or all new, new exactly if the header had been written, and every other block untouched |
| LogProtocol.DurableRuns | log.c:125-230 | in every interleaving of operations of any number of blocks, commits, crashes and reboots, in which no commit starts with more blocks than the log holds: a reboot now restores exactly the durable log_writes in order; no operation is split between durable and not; an operation in progress is not durable; memory shows all log_writes; with none pending all are durable |
| LogProtocol.ControlledRuns | log.c:125-171 | in every interleaving, whatever the operations use, the header has no block twice and a commit runs only with no operation in progress |
| LogProtocol.ReservationRuns | log.c:125-230 | in every run in which operations keep to MAXOPBLOCKS, the header's blocks and all unused reservations fit LOGSIZE; with more than LOGSIZE log blocks log_write panics exactly at a full header, and then every operation in progress has used its whole reservation |
| LogProtocol.HeaderFrozen | log.c:145-171 | while a commit runs nothing but its end or a crash changes the header, the logged contents or the count of operations |
| LogProtocol.BigLogIsSafe | log.c:211-230 | with more than LOGSIZE log blocks no transaction of operations within MAXOPBLOCKS outgrows the log in any run |
| LogProtocol.ModestIsSafe | log.c:125-230 | with more than MAXOPBLOCKS + 2 max log blocks no transaction of operations of at most max blocks, max at most MAXOPBLOCKS, outgrows the log in any run |
| LogProtocol.EmptyLogIsSafe | log.c:215-216 | a log of one block refuses every log_write, in every run |
| LogProtocol.LogOverruns | log.c:125-230 | for every other log and bound there is a run of operations within the bound in which the list outgrows the log or its array |
| LogProtocol.LogFitsIff | log.c:125-230 | for every bound on what operations use, from 0 up: the list fits in every run exactly if the bound is 0, the log has one block, or the bound is at most MAXOPBLOCKS and the log has more than MAXOPBLOCKS and twice the bound |
| LogProtocol.AbsorbPanics | log.c:215-225 | a run of operations within MAXOPBLOCKS after which a log_write of a block listed already panics |
| LogProtocol.AtEnd | log.c:145-152 | in every reachable state end_op of an operation does not meet its panic, and keeps the invariant |
| LogProtocol.CommitIsRun | log.c:145-199 | the block writes of a commit, as far as any of them, are steps of the protocol that lead from end_op to the state with those writes done |
| LogProtocol.CommitRunEnds | log.c:163-170 | and after the last of them the commit's end is enabled and keeps the invariant |
| LogProtocol.RecoveryIsRun | log.c:115-121 | the block writes of recovery, as far as any of them, are steps of the protocol from the crashed state |
| Log.Log.constructor | log.c:37-47 | before initlog: no operation, no commit and an empty header |
| Log.Log.InitLog | log.c:52-65 | after a crash the disk goes through the protocol's recovery; when done, the log's fields and the cache are those of the protocol's state just up; it is done if no buffer is held |
| Log.Log.WriteLog | log.c:175-187 | copies each block of the transaction from the cache to the log, in order, as a prefix of the commit's writes; with no buffer held it completes if a clean buffer is left, and cannot if none is |
| Log.Log.WriteHead | log.c:101-112 | one block write of the header with the current list, nothing else; completes if no buffer is held and one is clean |
| Log.Log.InstallTrans | log.c:69-81 | copies the log blocks home in order and unpins them; the log area is untouched; completes if no buffer is held and one is clean |
| Log.Log.Commit | log.c:190-199 | the disk goes through exactly the writes of CommitWrites, in order; afterwards the log is empty, no buffer dirty and every block outside the log has the contents it had; with no buffer held it completes if and only if the transaction has fewer than NBUF blocks |
| Log.CommitKeepsHome | log.c:190-199 | all the writes of a commit together leave the contents of every block outside the log |
| Log.RoomIff | bio.c:82-95 | with the transaction's blocks the only dirty buffers, a buffer can be recycled exactly if there are fewer blocks than buffers |
| Log.FullHeader | log.c:125-230 | over every clean disk with more than LOGSIZE log blocks: a run of the protocol from boot, of three operations within MAXOPBLOCKS, at whose end the header has LOGSIZE blocks and one operation is left, and log.c's state is that run's |
| Log.CommitWithoutRoom | log.c:145-199 | after that run, end_op of the last operation commits, and the commit stops with the protocol's states up to a block write it does not get to, for want of a buffer |
| Log.Log.ReadHead | log.c:85-95 | the in-memory list becomes the one on disk; the disk is untouched |
| Log.Log.Recover | log.c:115-121 | after boot the disk goes through exactly the writes of recovery and ends as LogSpec's Recover; it always completes if no buffer is held |
| Log.Log.BeginOp | log.c:125-140 | one pass admits exactly if the protocol's begin step is enabled, and the log then shows the protocol's next state, and otherwise the same |
| Log.Log.LeaveOp | log.c:145-160 | panics exactly if the protocol's end step is not enabled; otherwise the log shows the state after it, and the process goes on to commit exactly if it is the committer there |
| Log.Log.EndOp | log.c:145-171 | from any state of the protocol: without a commit the log shows the state after the end step; with one, the protocol's states up to the write it got to, or past the commit when done; with no buffer held it is done if and only if there are fewer than NBUF blocks |
| Log.Log.LogWrite | log.c:211-230 | panics, changing nothing, exactly if the protocol's check is not enabled; otherwise the log shows the state after check and record: the block is listed once, its buffer pinned and its data published |
| Log.Log.RecordAndPin | log.c:220-229 | the search and append leave the list with the block absorbed or at its end, the buffer pinned and its data the contents of its block |
| CacheSpec.CacheRuns | bio.c:63-142 | in every interleaving, each block is cached at most once, an idle buffer holds the latest contents, and a block that is not pinned has them on disk |
| CacheSpec.BreadLatest | bio.c:100-109 | in every run a read returns what was last published for its block, from cache or disk |
| CacheSpec.PinnedRuns | bio.c:63-96 | in every run a logged block stays cached and its home block on disk unchanged until bwrite is called on it |
| CacheSpec.RecycleRuns | bio.c:82-142 | in every run the buffer recycled was released longer ago than every other idle clean buffer |
| CacheSpec.RefinesStep | bio.c:63-142 | each step of the cache is a step of the plain block map: only log_write and bwrite change it |
| RecencyList.Unlink | bio.c:131-132 | unlinking a buffer leaves the doubly linked ring of the others in order |
| RecencyList.PushFront | bio.c:133-136 | linking a buffer behind the head puts it first in the ring |
| BufferCache.BufferCache.constructor | bio.c:40-57 | all buffers unused, listed last first; the cache stands for the disk |
| BufferCache.BufferCache.Bget | bio.c:63-96 | a hit, a wait or a recycled buffer, the last recyclable of the list and only if the block is not cached; no buffers only if none is recyclable |
| BufferCache.BufferCache.Iderw | memide.c:38-59 | panics exactly where the request is not for a busy buffer with work on a block of disk 1; otherwise writes a dirty buffer or fills a clean one |
| BufferCache.BufferCache.Bread | bio.c:100-109 | the buffer returned is held and has the block's latest contents; nothing else changes; fails only for the reasons named |
| BufferCache.BufferCache.Bwrite | bio.c:113-119 | a buffer returned by bread is written, and its block's contents published, without panic |
| BufferCache.BufferCache.Brelse | bio.c:124-142 | panics exactly on a buffer that is not held; otherwise the buffer is free and moves to the front of the recency list; contents stay |
| BufferCache.BufferCache.Pin | log.c:228 | the buffer becomes dirty and its data the contents of its block |
| ProcSpec.MovePartition | proc.c:1027-1082 | moving a process from the list of its state to that of its next state keeps the lists a partition of the table |
| ProcSpec.PromotionShifts | proc.c:1437-1481 | promotion moves every ready queue up one level, the second behind the first, keeps order, loses nobody, raises exactly the ready, sleeping and running processes below the top, and sets the next promotion time |
| ProcScan.ScanWakeup1 | proc.c:799-806 | the array loop wakes exactly the sleepers on the channel |
| ProcScan.ScanExit | proc.c:299-338 | the array loops hand every child to init, wake parent and init as needed and make the process a zombie |
| ProcScan.ScanWait | proc.c:412-450 | the array loop reaps a zombie child if there is one, fails if there is no child or the caller is killed, and sleeps otherwise |
| ProcScan.ScanKill | proc.c:847-864 | the array loop marks the first process with the pid and wakes it if asleep |
| ProcScan.WakeupRefinesScan | proc.c:809-830 | for every table, waking along the sleep list has the effect of the array scan |
| ProcScan.ExitRefinesScan | proc.c:341-405 | for every table, exit on the lists has the effect of exit on the array |
| ProcScan.WaitRefinesScan | proc.c:453-508 | wait on the lists reaps, fails and sleeps in the same cases as on the array, and reaps a zombie child the scan may reap |
| ProcScan.KillRefinesScanIff | proc.c:867-923 | kill on the lists agrees with the array scan exactly if the pid is not that of a zombie or a slot out of use |
| ProcScan.KillDiffers | proc.c:847-923 | on every table as boot leaves it, kill(0) succeeds on the array and fails on the lists |
| ProcRuns.StepChecks | proc.c:72-1375 | in every state of the invariant, each critical section that can run meets no failing check: every removal finds its process, every state is the one its panic tests for |
| ProcRuns.StepInv | proc.c:72-1375 | every critical section keeps the machine's invariant, and no check of any of them fails |
| ProcRuns.PartitionRuns | proc.c:72-1481 | in every run from boot, with any number of CPUs and forks: each process is on exactly one list, that of its state, a Runnable one on the queue of its priority; CPUs and forks refer to processes in the right state; no check of any critical section that can run next fails |
| ProcTable.ProcTable.constructor | proc.c:148-207 | boot leaves a partition with all slots free but the first process, which is ready |
| ProcTable.ProcTable.AddToFrontOfList | proc.c:1027-1034 | the process is first on the list; the other lists are as they were |
| ProcTable.ProcTable.RemoveFromFront | proc.c:1046-1054 | takes the first process off; fails exactly on an empty list |
| ProcTable.ProcTable.RemoveFromList | proc.c:1057-1082 | takes the process off wherever it is on the list; fails, changing nothing, exactly if it is not there |
| ProcTable.ProcTable.AddToReadyPriorityList | proc.c:1378-1397 | the process is last on the queue; the other lists are as they were |
| ProcTable.ProcTable.AllocProc | proc.c:72-143 | takes the first free slot with the next pid, or none exactly if the free list is empty; the partition holds |
| ProcTable.ProcTable.ForkDone | proc.c:270-292 | the child goes from the embryo list to the end of its ready queue |
| ProcTable.ProcTable.GiveBack | proc.c:233-292 | a fork that fails returns its slot to the free list |
| ProcTable.ProcTable.Dispatch | proc.c:592-615 | the head of the queue becomes the running process with its slice started |
| ProcTable.ProcTable.Yield | proc.c:681-710 | the running process goes, charged, to the end of the queue of its new priority; no check fails |
| ProcTable.ProcTable.Sleep | proc.c:738-792 | the running process goes, charged, to the front of the sleep list with its channel |
| ProcTable.ProcTable.Wakeup1 | proc.c:809-830 | the walk, although each woken process changes lists under it, wakes every sleeper on the channel, in list order |
| ProcTable.ProcTable.Exit | proc.c:341-405 | init may not exit; any other process ends a zombie with its children handed to init on every list |
| ProcTable.ProcTable.AdoptOnList | proc.c:1105-1119 | the children on the list, and no others, become init's |
| ProcTable.ProcTable.HaveKids | proc.c:1085-1102 | true exactly if some process on the lists of those that have not exited is a child |
| ProcTable.ProcTable.Wait | proc.c:453-508 | one pass reaps the first zombie child, fails or would sleep; the slot reaped is free again |
| ProcTable.ProcTable.Kill | proc.c:867-923 | finds the process on the lists, marks it and makes a sleeper ready; -1 exactly if not found |
| ProcTable.ProcTable.SetPriority | proc.c:1309-1375 | changes priority, budget and queue of the process found, or nothing with -1 |
| ProcTable.ProcTable.Promote | proc.c:578-591 | the loops over lists and queues have the effect PromotionShifts describes |
| ProcTable.ProcTable.LookAt | proc.c:577-593 | one turn of the scheduler's scan up to its test, with promotion if it is due |
| ProcTable.ProcTable.Schedule | proc.c:565-630 | the scan starts the process the Sweep function names, or idles where it does |
| Scheduler.DispatchOrderIff | proc.c:565-630 | in every scan, whatever happens between its turns: the next process is from the lowest non-empty queue, and idling means all are empty, if and only if no promotion fired above level 0 at a non-empty queue since the index was 0 |
| Scheduler.SweepInOrderIff | proc.c:565-630 | the same decided from the table a sweep starts with and its readings of the clock: it is in order exactly if none of them above level 0 meets the promotion time where the promotions before it in the sweep have brought the lowest non-empty queue |
| Scheduler.IdlesWithWork | proc.c:577-593 | a table and readings for which a CPU idles with a process ready |
| Scheduler.PromotionWindow | proc.c:578-591 | in every run two promotions are at least TICKS_TO_PROMOTE apart |
| Scheduler.OnlyPromotionSetsTimer | proc.c:590 | no other critical section changes the promotion time |
| Scheduler.FifoRuns | proc.c:1046-1054 | in every run a process ahead of another on a ready queue is dispatched before it, through promotions and everything else but setpriority on one of the two |
| Scheduler.DemotedIff | proc.c:694-702 | a charge costs a priority level exactly if the slice equals the budget modulo 2^32 and there is a level to lose; otherwise budget and slice add up to the old budget modulo 2^32 |
| Scheduler.BudgetInRangeIff | proc.c:694-702 | a charge leaves a budget between 1 and DEFAULT_BUDGET exactly if the slice was within the budget or wraps into the range again |
| Scheduler.BudgetWraps | proc.c:694-702 | a slice of two ticks on a budget of one leaves 2^32 - 1 |
| SleepWakeup.NoLostWakeup | proc.c:738-840 | in every interleaving of any number of processes, channels and locks, whoever sleeps without one: a process that went to sleep with a lock and is asleep while its condition holds has a wakeup coming that has not yet passed it |
| SleepWakeup.AllPaidAllAwake | proc.c:835-840 | once every wakeup owed is done nobody who had a lock sleeps on a condition that holds |
| SleepWakeup.WakeupWakesAll | proc.c:809-840 | a finished wakeup leaves nobody asleep on its channel |
| SleepWakeup.SchedLocks | proc.c:658-676 | sched is entered holding ptable.lock and nothing else, and sleep returns holding the lock it was called with, if any, and nothing else |
| SleepWakeup.OwnerChange | spinlock.c:25-64 | in every step a lock changes hands only between nobody and the process taking the step |
| SleepWakeup.StepInv | proc.c:738-840 | every step of every process keeps the locking and no-lost-wakeup invariant |
| SleepWakeup.NullLockLosesWakeup | sysproc.c:61-76 | a run with a sleep without a lock that ends asleep with the condition true and no wakeup owed |
| SleepWakeup.NullLostIff | proc.c:738-792 | in every run, a process asleep without a lock is lost, its condition true and no wakeup coming, exactly if the condition was true and no wakeup for its channel owed when it took ptable.lock, and since then that condition has not changed and no other of its channel has come true |
| FsSpec.BitOfWithBit | fs.c:63-91 | setting or clearing one bit of a bitmap byte changes no other |
| FsSpec.UsedAfter | fs.c:54-93 | marking or unmarking a block changes the set of blocks in use by that block only |
| FsSpec.OwnedDistinct | fs.c:367-394 | no block number occurs in two places of inodes or indirect blocks, and each is marked in use |
| FsSpec.OwnTake | fs.c:367-394 | a free block can be given to any place of any inode without sharing |
| FileSteps.StepWhole | fs.c:42-507 | every log_write of writei or itrunc keeps every block number in one place only, and marked |
| FileSteps.StepSpares | fs.c:42-507 | no log_write of a call on one file changes the inode, the block numbers, the data or the blocks on their way of any other file |
| FileSteps.StepAdvances | fs.c:400-507 | every log_write brings a call, from wherever it is, to where its next is due, with the bytes written so far in the file, or to its end, with the file what it should be |
| FileSteps.JobCanStep | fs.c:54-507 | a call that is not at its end can always go on, but for a block when the disk is full |
| FileSteps.Starts | fs.c:402-507 | a call can start on any file nobody is at |
| FileSteps.MidEnd | fs.c:402-507 | at its end one file is overwritten or emptied and every other is what it was |
| FileSteps.RanDisk | log.c:205-230 | the disk after a call is the disk before with what it logged put in place, none of it before the inode blocks |
| FileSteps.RanPlaces | fs.c:402-507 | whatever a call logs, its different blocks are no more than the places it may log at: bitmap, inode, indirect block and the blocks of the bytes |
| FileSteps.PlacesFit | fs.c:402-507 | those are at most the bitmap blocks and one, and for writei the blocks its bytes span and perhaps one more |
| FileSteps.RanNeed | fs.c:367-394 | free blocks and blocks writei still needs go down together, log_write by log_write |
| FileSystem.FileSystem.constructor | mkfs.c:68-168 | an image of zeros with the blocks before the data blocks marked is a sound file system whose files are all empty |
| FileSystem.FileSystem.Balloc | fs.c:42-75 | the lowest free block, marked and zeroed, with the bitmap block and the block logged; panics, changing nothing, exactly on a full disk |
| FileSystem.FileSystem.Bfree | fs.c:79-93 | unmarks the block and logs the bitmap block; panics, changing nothing, exactly if it is free |
| FileSystem.FileSystem.Bmap | fs.c:367-394 | the block of that number, direct or indirect: the same one, and nothing changes or is logged, if there was one; otherwise one that was free, and an indirect block that was free if there was none, and what is logged for both; no block number is in two places; fails only out of range, changing nothing, or when the disk is full, perhaps with the indirect block made |
| FileSystem.FetchRan | fs.c:367-394 | what bmap does and logs for writei are the next steps of its job |
| FileSystem.StuckRan | fs.c:70-74 | where bmap finds no block, writei still needed more blocks than were free |
| FileSystem.FileSystem.Iupdate | fs.c:200-220 | one block logged, in which the inode is the one in memory and the other inodes are untouched |
| FileSystem.FileSystem.Readi | fs.c:450-473 | exactly the bytes of the file from off on, as many as asked for and there are; -1 exactly if off is beyond the end or off + n wraps |
| FileSystem.FileSystem.Writei | fs.c:478-507 | the file becomes the old one overwritten from off on, every other file is as it was; -1, changing nothing, exactly if off is beyond the end or the result too long; otherwise it panics exactly if fewer blocks are free than it needs, leaving every other file as it was; what it logs are the steps of its job, in order, which make the new disk of the old, in at most as many blocks as it may and at least those of its bytes |
| FileSystem.FileSystem.Itrunc | fs.c:402-429 | the file becomes empty, exactly its blocks become free, no double free can happen, every other file is as it was; what it logs are the steps of its job, in at most the bitmap blocks and one |
| FileSystem.RanFreed | fs.c:402-429 | from one bfree to the next, the blocks in use that are not the file's are the same |
| FileCrashes.FilesSurvive | fs.c:400-507 | in every run of any number of processes that run file operations at the same time, interleaved at every log_write, with commits, crashes anywhere and recoveries, in which no commit starts with more blocks than the log has: a reboot now finds a sound file system, whose files are what the first so many operations that ended have made of them, and those are exactly the operations whose log_writes are durable |
| FileCrashes.FilesNow | fs.c:400-507 | in every such run, while the machine is up, memory has every file nobody is at as all operations that have ended have made it |
| FileCrashes.SysStep | fs.c:400-507 | every event keeps the invariant: begin_op, end_op, the halves of a log_write, a block write of a commit or of recovery, a crash |
| FileCrashes.RecordGoesOn | log.c:211-230 | in every such run, what a process past log_write's tests is about to log is still what its step makes, whatever others have logged since |
| FileCrashes.SameFiles | fs.c:361-473 | what lies before the inode blocks, the log among it, does not matter to any file |
| FileCalls.CallIsRun | fs.c:402-507 | in every state of such a run, what a call of writei or itrunc of fs.c does and logs, a process of the system does and records, event by event, if nobody is in the middle of a log_write and the header has room for the blocks it may log |
| FileBudget.FilesFit | log.c:125-140 | in every run in which the file operations between begin_op and end_op keep to max blocks, max at most MAXOPBLOCKS, no commit starts with more blocks than a log of more than MAXOPBLOCKS + 2 max has |
| FileBudget.ChunkSpan | file.c:123-148 | a chunk of filewrite takes 13 or 14 blocks of data, more than MAXOPBLOCKS, and no log is large enough for operations of that many blocks |
| FileBudget.ThreeWrites | file.c:123-148 | in every run, when three processes have each written their data, the header lists at least the blocks of all three |
| HeapSpec.UnitsEnoughIff | umalloc.c:64-69 | the units asked for hold the bytes requested exactly if the rounding does not wrap |
| HeapSpec.SbrkExactIff | umalloc.c:47-61 | sbrk is asked for that many units exactly below 2^28 of them |
| HeapSpec.SbrkWraps | umalloc.c:47-61 | 2^28 units make sbrk's argument negative, 2^29 make it zero |
| HeapSpec.Cut | umalloc.c:75-82 | cutting a block keeps the blocks a tiling of the heap |
| HeapSpec.Join | umalloc.c:33-42 | joining touching blocks keeps the blocks a tiling of the heap |
| Heap.FreeStep | umalloc.c:25-44 | putting a block in its place and joining it with its neighbours keeps the list sorted, circular, with no two blocks touching, and every live block as it was |
| Heap.Heap.constructor | umalloc.c:21-22 | an empty heap |
| Heap.Heap.FindPlace | umalloc.c:25-32 | the walk, from anywhere on the ring, ends at the one place where the block belongs |
| Heap.Heap.Free | umalloc.c:25-44 | exactly that block stops being live, all memory stays accounted for, and a free block of its size exists |
| Heap.Heap.Morecore | umalloc.c:47-61 | fresh memory, at least 4096 units, goes on the free list; refused, nothing changes |
| Heap.Heap.Malloc | umalloc.c:64-90 | a live block of the units asked for, disjoint from all others; sbrk is asked at most once and exactly if no free block fits; NULL exactly if it refuses |
| Heap.MallocTooSmall | umalloc.c:64-90 | on a new heap, malloc of 2^32 - 1 bytes returns a block of one unit |
| Grep.HereOne | grep.c:85-96 | a single item matches exactly one character and the rest after it |
| Grep.HereStar | grep.c:99-106 | a repetition matches exactly some number of characters and the rest after them |
| Grep.MatchHere | grep.c:85-96 | true exactly if the items of the pattern, in order, match from the start of the text, to its end if $ says so |
| Grep.MatchStar | grep.c:99-106 | true exactly if some number of repetitions lets the rest match |
| Grep.Match | grep.c:73-82 | true exactly if the pattern's language has a match at the start or, without ^, anywhere |
| PipeSpec.CountersTell | pipe.c:78-120 | through every wrap of the 32-bit counters, full means 512 bytes unread and empty none |
| PipeSpec.FillHolds | pipe.c:78-97 | writing appends what it takes and stops early only at a full pipe |
| PipeSpec.DrainHolds | pipe.c:100-120 | reading gets the next bytes in order and stops early only at an empty pipe |
| PipeSpec.QueueRuns | pipe.c:59-120 | in every run the bytes read are a prefix of those written, at most 512 are in between, and a read gets nothing only at the end of the stream |
| Pipes.PipeBuffer.constructor | pipe.c:22-43 | an empty pipe, open at both ends |
| Pipes.PipeBuffer.Write | pipe.c:78-97 | fills until done, full or closed, and returns n, -1 or sleeps accordingly |
| Pipes.PipeBuffer.Read | pipe.c:100-120 | sleeps exactly while empty and open for writing; otherwise drains and returns the count |
| Pipes.PipeBuffer.Close | pipe.c:59-74 | closes one end, keeps the bytes held, and the pipe goes exactly if the other end was closed |
| ShellSpec.CommandInverse | sh.c:444-545 | before anything that may follow it, every command is parsed back from its tokens exactly if none of its simple commands has MAXARGS words or more, and the parser panics otherwise |
| ShellSpec.TokensRoundTripIff | sh.c:427-545 | for every command tree, parsing its tokens gives the tree back or, with too many words, a panic |
| ShellLex.RoundTripIff | sh.c:365-545 | the same from text: lexing and parsing the text of every command over ordinary words gives back the command, or a panic exactly with too many words |
| ShellLex.WordsReadBack | sh.c:549-592 | for every line that parses, after nulterminate each word is a C string with exactly the characters of its token |
| Shell.GetToken | sh.c:365-407 | returns the next token of the line, its place, and where the rest begins |
| Shell.Peek | sh.c:410-419 | tells whether the next token begins so, and skips only white space |
| Shell.ParseRedirs | sh.c:474-496 | the loop over the buffer agrees with the grammar's redirections |
| Shell.ParseArgs | sh.c:524-545 | the loop over the buffer agrees with the grammar's simple command |
| Shell.ParseExec | sh.c:515-545 | agrees with the grammar on every line, result, rest and panic |
| Shell.ParseBlock | sh.c:499-512 | agrees with the grammar on every line, result, rest and panic |
| Shell.ParsePipe | sh.c:461-471 | agrees with the grammar on every line, result, rest and panic |
| Shell.ParseBacks | sh.c:449-452 | the loop takes every trailing ampersand |
| Shell.ParseLine | sh.c:444-458 | agrees with the grammar on every line, result, rest and panic |
| Shell.ParseCmd | sh.c:427-441 | the command a whole line stands for; panics exactly where the grammar has none or something is left over |
| Shell.NulTerminate | sh.c:549-592 | writes exactly the ends of the words of the command, in place |
| VmSpec.NoSharing | vm.c:71-90 | no page is mapped in two places, and a mapped page is neither free nor a table |
| VmSpec.Pop | kalloc.c:83-95 | a page taken off the free list belongs to nobody else |
| VmSpec.Push | kalloc.c:60-77 | a page in hand can be freed without its being on the list already |
| VmSpec.SetPde | vm.c:46-65 | a new empty table changes no mapping and is shared with nobody |
| VmSpec.SetPte | vm.c:71-90 | mapping a page in hand at a place without one keeps pages unshared |
| VmSpec.ClearPte | vm.c:250-273 | an unmapped page is in nobody's hands but the caller's |
| Vm.Memory.constructor | kalloc.c:31-43 | all pages free, none twice |
| Vm.Memory.FreeRange | kalloc.c:46-52 | exactly the pages of the range become free |
| Vm.Memory.Kalloc | kalloc.c:83-95 | a page that was free, out of everyone's hands; none exactly if the list is empty |
| Vm.Memory.Kfree | kalloc.c:60-77 | the page, filled with junk, is first on the free list |
| Vm.Memory.NewSpace | vm.c:129-136 | a new address space with no user page and no table, from the first free page; every other mapping is as it was; none exactly if memory is out |
| Vm.Memory.WalkPgdir | vm.c:46-65 | the table for the page, made exactly if asked for, missing and there is memory; no mapping of any address space changes |
| Vm.Memory.MapPage | vm.c:71-90 | that virtual page maps that page, every other mapping of every address space is as it was; fails exactly without memory for a table, panics exactly on a remap |
| Vm.CostIs | vm.c:46-65 | in any space, a range of pages costs those pages and one for every directory entry in the range that has no table |
| Vm.EmptyCost | vm.c:46-65 | n pages in a space without tables cost n pages and one for every 1024 begun |
| Vm.Memory.AllocUvm | vm.c:221-243 | on any space with nothing mapped above: grows by fresh zeroed pages and touches nobody else's; succeeds exactly if there is memory for the pages and tables, a table for the very last page not counted, and leaves exactly the rest of the free pages; loses one page exactly if memory runs out between a page and its table, and then a success is one page short and no page is free; on failure every mapping and its contents are as they were |
| Vm.GrownShape | vm.c:221-243 | a space without holes that grows has none up to where it grew |
| Vm.Memory.DeallocUvm | vm.c:250-273 | on any space: exactly the pages from newsz to oldsz are unmapped and free, but for those its step of 4 MB over a missing table jumps over |
| Vm.WalkJump | vm.c:259-262 | the step over a missing table lands where the pages jumped over are exactly those the closed form names |
| Vm.ShrunkShape | vm.c:250-273 | a space without holes that shrinks has none, and all of the range is gone |
| Vm.Memory.CopyUvm | vm.c:310-337 | the new space has the same pages with the same contents and flags in fresh pages exactly if all the pages are there and memory lasts for pages and tables; it panics exactly if memory lasts up to a missing page; otherwise it is freed, every user page and every mapping of every other space is as it was; one page is lost exactly if memory ran out at a table |
| Vm.Memory.FreeVm | vm.c:278-292 | on any space: every page, table and the directory of the space are freed once, nobody else's pages or mappings changed |
| VmRuns.Spaces.constructor | kalloc.c:31-43 | no process, and all pages free |
| VmRuns.Spaces.Create | vm.c:129-136 | a process of size 0 from the first free page; none exactly if memory is out |
| VmRuns.Spaces.Growproc | proc.c:212-227 | on every process and every number of bytes, the size, the pages and the free pages are those the exact relation of growproc allows: growth, growth one page short, failure, shrinking, and the wrap of the sum |
| VmRuns.Spaces.Fork | proc.c:233-258 | a child with the same pages and size exactly if memory lasts and no page is missing; a panic exactly if memory lasts to a missing page; otherwise every process is as it was |
| VmRuns.Spaces.Exit | proc.c:341-405 | the pages of the process are free, every other process is as it was |
| VmRuns.StarvedGap | vm.c:229-241 | growproc that reports success where memory ran out at a table leaves the last page below the new size missing |
| VmRuns.GapStep | proc.c:212-292 | a page missing below the size stays missing through every call of any process, exactly unless its process shrinks to or below it or exits |
| VmRuns.ForkMeetsGap | vm.c:319-325 | with a page missing below the size fork does not succeed, however much memory is free, and panics if memory lasts to the first such page |
| VmRuns.GapRuns | proc.c:212-292 | in every run, from the growth that left the page missing on, both hold until the process shrinks to or below it or exits |
| VmRuns.ShrinkToNothing | proc.c:220-222 | growproc to size 0 fails, leaves the size, and every page below it is missing |
| VmRuns.LoseFirst | vm.c:221-243 | with one free page, growth of a process of size 0 to one page reports success and the page is missing |
| VmRuns.GrowthLosesPage | proc.c:212-227 | two calls after boot, in a machine of two pages, after which a process lacks a page it was given |
| VmRuns.ForkPanics | vm.c:320-325 | five calls after boot, in a machine of three pages, the last of them a fork that panics |
| VmRuns.DeallocSkips | vm.c:250-273 | a run of growproc calls of two processes from boot after which a page above the size of one is still mapped |

## Left out

- Boot, assembly, interrupt controllers, traps, the console and the disk driver of ide.c; memide.c is the disk.
- exec, directories and path names, link counts, the inode cache (iget, ilock, iput), ialloc, open files and the system call wrappers; chmod, chown and the protection bits.
- Device inodes: readi and writei report that the device's function is called and stop there.
- setupkvm's kernel mappings, inituvm, loaduvm, clearpteu, copyout, and kfree's checks of address and alignment.
- Memory ordering and interrupts: a critical section is one step, and releasing a spinlock makes its writes visible.
- Liveness: starvation of a ready process, and that a process woken gets its buffer or its turn.
- Process listings, user and group ids, CPU times, and the consistency checks compiled in for debugging.
- Page tables, kernel stacks and open files in fork, exit and wait; failure of kalloc there is a failure event.
- Pids are unbounded; the wrap of nextpid after 2^31 forks is not modelled.
- grep's reading of lines into its buffer, the shell's execution of commands and its built-in commands, and pipealloc's file structures.
- LogProtocol.DurableRuns: for runs in which the header array never overflows and no commit starts with more blocks than the log has; what an overrun does to memory and disk is not modelled. LogProtocol.LogFitsIff says for which logs every run is such.
- Log.Log.Commit: where another process holds a buffer it needs, it stops there with a prefix of its writes done; waiting for the buffer is not modelled. So do Log.Log.EndOp, Log.Log.InitLog and Log.Log.Recover.
- Log.Log.Recover: starts from a cache with nothing dirty and a log whose header is in order, as every run of LogProtocol leaves it.
- BufferCache.BufferCache.Brelse: only for buffers whose changes have been published by log_write or bwrite, as bio.c asks of its callers.
- FileSystem.FileSystem.Readi: for files without holes, which writei keeps so; a hole would be allocated by reading it.
- ProcRuns.PartitionRuns: a parent pointer is a slot number, and CPU identity is an index.
- Heap.Heap.Malloc: an answer of sbrk counts as memory only if it was asked for what the block is said to have, which is below 2^28 units (HeapSpec.SbrkExactIff).
- Vm.Memory.DeallocUvm: the two writes for a page, clearing its entry and freeing it, are in the other order; nothing can be seen between them.
- Vm.Memory.MapPage: one page at a time, as all callers for user memory map.
- Log.Log.ReadHead: for a count of at most LOGSIZE, which is what write_head writes and every run of LogProtocol leaves; a larger one would overrun the array.
- Vm.Memory.AllocUvm: nothing may be mapped from oldsz up; a page there would meet the panic of Vm.Memory.MapPage.
- Vm.Memory.Kfree: the panic on an address that is not a page's is left out; pages are numbers.
- Vm.Memory.NewSpace: without the kernel's own mappings, which are the same in every space.
- Log.Log.InitLog: where the log starts and how many blocks it has are the constructor's; reading them from the superblock is left out.
- FileSystem.FileSystem.constructor: mkfs's superblock, root directory and first files are left out.
- FileCrashes.FilesSurvive: the file operations are writei and itrunc; ialloc, link counts and directories would be more of them. For runs in which no commit starts with more blocks than the log has, as LogProtocol.DurableRuns.
- FileCalls.CallIsRun: only for calls that come to their end with room left in the header; log_write panics otherwise.
- VmRuns.Spaces.Growproc: growth is for a process with no page mapped above its size, as Vm.Memory.AllocUvm.
- VmRuns.Spaces.Fork: the memory of it only; a child whose copy fails gives its slot back (ProcTable.ProcTable.GiveBack).
