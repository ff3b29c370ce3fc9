# Verified model of the xv6 kernel with copy-on-write fork and a priority scheduler

This project models the parts of the system whose correctness does not follow from reading one function, and
proves what they are for. `dafny verify dfyconfig.toml` checks all of it.

| files | source | main results |
|---|---|---|
| LogMachine, LogSafety, LogTheorems, LogReservation, Log | kernel/log.c | crash atomicity of group commit for every interleaving and every crash, also during recovery; the exact condition under which the log cannot overflow |
| BufferRing, LogBuffers | kernel/bio.c | the LRU list through its prev and next pointers, least-recently-used replacement, one buffer per block; the ring with its counts is the block map of the log's theorems, also through commits and recovery |
| PageRefs, Memory, Processes | kernel/vm.c, kalloc.c, trap.c, proc.c | copy-on-write memory refines a machine whose fork copies every page; exactly when each command succeeds, what it takes and gives back, when a reference is lost and when permissions survive; isolation |
| PageTree, PageTable, PageEntries, PageSpaces, PageRuns | kernel/vm.c, riscv.h | the three-level trees of 64-bit words of all processes, as the hardware walks them, refine one flat map from process and page number to entry, over any run of mappages and uvmunmap |
| SleepLock, SleepOutcomes | kernel/sleeplock.c, proc.c | no lost wakeup; mutual exclusion; a process holds a sleep lock exactly from acquiresleep to releasesleep; no deadlock |
| WaitExit, WaitOutcomes | kernel/proc.c | no missed child; parents are never dead; a process is freed only once it is off its stack; how fork, exit, wait and kill end in every run; no deadlock |
| Scheduler | kernel/proc.c | the PBS scan leaves out no process and picks the best while other CPUs and interrupts go on, exactly unless led astray; no deadlock |
| DiskBlocks, FileBlocks, FileSystem | kernel/fs.c | the bitmap is exactly what inodes own; file contents refine flat byte sequences |
| VirtioQueue, VirtioRun, Virtio | kernel/virtio_disk.c | with the device acting at any time, every request is carried out once and as asked before its requester goes on; descriptors are conserved; 16-bit indices wrap |
| HeapList, HeapOps, Umalloc | user/umalloc.c | the free list is one coalesced cycle, determined by what is free; searches end; held blocks keep their contents over whole runs |
| Patterns and Grep in Grep | user/grep.c | the matcher is sound and complete; grep prints the matching lines for any read sizes |
| ShellGrammar, ShellRoundTrip, Shell, ShellSentences | user/sh.c | the parser reads exactly the sentences of a grammar stated apart from it; parsing inverts rendering; nulterminate makes every string equal its token |

There are three kinds of model. Kernel code that several CPUs run at once (log, sleep and wakeup, exit and wait,
the scheduler) is a state machine: `Next` takes a state and a labelled event to the next state, one event for each
stretch that other CPUs cannot enter, and theorems are about `Exec`, a run of events. Code that updates memory in
place (log, buffer cache, physical memory, page tables, file system, disk driver, heap, parser, grep) is a class or
a method over the same fields, with its loops. The classes of the log and of the disk driver also keep a ghost trace
that is a run of a machine; those of memory and of the heap have a method `Run` for any sequence of commands, with
the state before and after each; for the others every method is a step that keeps `Valid()`. What the methods
compute is a function of values, about which the theorems are lemmas.

Reading the log's theorems: `Abs` has `current` contents (as of the last log_write) and `durable` contents (as of
the last commit point). `CrashAtomicity` says which of the two every home block shows after a crash.

Where the code does something other than its comments or callers suggest, the model follows the code:

- mkfs makes the log LOGSIZE blocks long, header included, so that operations of MAXOPBLOCKS new blocks each, all
  admitted by begin_op, do reach log_write's panic. `LogReservation.PanicFreeIff` gives the exact condition.
- If uvmcopy cannot map page i in the child, it has counted that page already and does not take the count back: one
  reference is lost for good. Counts are exact through a run if and only if none of its forks starts with frames for
  a new process (4) but not for all tables of its pages too (`CowRefinesEager.ExactIffNoLeak`; in figures,
  `CowRefinesEager.ForkFramesIs`). `CowRefinesEager.ForkLosesAFrame` is a run that loses one.
- uvmcopy marks read-only pages copy-on-write too, and the fault handler then makes them writable. Over a fork and a
  later store, the permissions of a page survive if and only if it was writable and, if the fork came to it, not
  copy-on-write before (`CowRefinesEager.PermissionsSurviveIff`). A fork that fails has come to the pages before the
  one whose tables did not fit, and to that one. In `CowRefinesEager.TextBecomesWritable` a program comes to write to
  its text, in `CowRefinesEager.EvenIfForkFails` after a fork that returned -1.
- growproc with a negative amount larger than the process wraps around in uint64, changes nothing and succeeds.
  With a positive one that reaches the trapframe page it panics, if memory lasts that far
  (`CowMemory.Memory.UvmAlloc`).
- malloc passes a 64-bit byte count to sbrk's int. From 2^31 - 31 to 2^32 - 16 bytes, sbrk is asked to take memory
  away, or for none; beyond that, for 16 bytes (`Umalloc.OverrunsWhen`, with `Umalloc.AskTooMuch` as an instance).
  The model stops there with `Overrun` instead of following writes past the break.
- bunpin does not move a buffer in the LRU list when it drops the last reference; only brelse does. "Least recently
  used" is therefore stated with the time of the last brelse that dropped a count to 0. The list would be in the
  order of all last drops after a bunpin if and only if the buffer is first on it already (`BufferCache.DropOrder`).
  (log.c unpins only buffers it holds.)
- A failing copy from user memory in writei may leave bytes in a cached block that are neither logged nor counted.
  They vanish if the buffer is recycled and the block read again before somebody logs it (`kept` in
  `FileSystem.FileSys.Writei`). If they stay, the file has exactly the bytes reported if and only if those others
  fall beyond its end or change nothing (`FileSystem.UnreportedBytes`).
- mkfs rounds the root directory's size up by a whole block when its names fill whole blocks (64 of them, say);
  the last block of that size is then missing (`FileSystem.RootRounded`).
- kill(0) finds an unused slot, whose pid is 0, and marks it; allocproc does not clear the mark. A child is born
  killed if and only if kill(0) has hit its slot since the slot was last taken (`WaitExit.BornKilledIff`);
  `WaitExit.KilledBeforeBirth` is such a run.
- A kill that comes after wait has tested killed(p) and before sleep takes p->lock does not end the wait: the process
  sleeps, killed, until a child exits or it is killed again. A process asleep in wait has been killed if and only if
  a kill came then (`WaitOutcomes.SleepsOnIff`); `WaitOutcomes.KilledYetAsleep` is such a run.
- The PBS scan reads dp of one process up to four times, and a tick may change it in between. A look leads the pass
  astray if and only if its outcome is not that of comparing with the value used (`SchedulerRaces.MisledIff`), and
  the pass picks the best if and only if it is not astray at the end (`SchedulerRaces.PicksTheBest`).
  `SchedulerRaces.WorseIsRun` is a run that ends with the worse of two processes running.
- grep prints nothing of a last line without newline, and stops for good at a line longer than its buffer.

## Model

| member | source | states |
|---|---|---|
| LogSafety.HeadRoundTrip | initial-xv6/src/kernel/log.c:87-114 | a header block written by write_head is read back by read_head as the same list, whatever stale words lie behind it |
| LogSafety.LogWriteStep | initial-xv6/src/kernel/log.c:215-235 | log_write, absorbed or appended, keeps the safety invariant and changes only the block's current contents, not the durable ones |
| LogSafety.CopyStep | initial-xv6/src/kernel/log.c:179-191 | copying one cached block into its log slot changes neither current nor durable contents: a crash after it still recovers the old group boundary |
| LogSafety.CommitPointStep | initial-xv6/src/kernel/log.c:194-203 | the header write with n > 0 is the one step at which durable contents become the current ones, all at once |
| LogSafety.InstallStep | initial-xv6/src/kernel/log.c:69-83 | installing one block, in a commit or in recovery, leaves durable contents as they are, so that it may be cut short and repeated |
| LogSafety.EraseStep | initial-xv6/src/kernel/log.c:194-203 | the header write with n = 0 loses nothing: every logged block already equals its home block |
| LogSafety.CrashStep | initial-xv6/src/kernel/log.c:117-123 | after power loss at any point the disk still determines the durable contents, and only those survive |
| LogSafety.ReadHeaderStep | initial-xv6/src/kernel/log.c:87-97 | reading the header after a crash finds exactly the group whose header write landed, or none |
| LogSafety.StepRefines | initial-xv6/src/kernel/log.c:67-235 | every step of the log, the cache and the disk, crashes included, is a step of a two-level abstract disk (current and durable contents) |
| LogSafety.RunRefines | initial-xv6/src/kernel/log.c:67-235 | the same for every interleaved run of operations, commits, evictions, crashes and recoveries |
| LogTheorems.FreshIsGood | initial-xv6/src/kernel/log.c:55-65 | a machine just booted over any disk with a well-formed log header, empty or not, satisfies the invariant; its contents are those replaying the log gives |
| LogTheorems.CrashAtomicity | initial-xv6/src/kernel/log.c:67-235 | crash atomicity: after power loss anywhere, and any number of crashes inside recovery, all home blocks read as before the commit group or all as after it, and as after it exactly if the header write had landed |
| LogTheorems.GroupOnDisk | initial-xv6/src/kernel/log.c:103-114 | in every run, once the header write has landed, the disk itself names the group: word 0 of block start counts it, word 1 + i is its i-th block, and block start + 1 + i has what that block was last logged with |
| LogTheorems.RecoveryRuns | initial-xv6/src/kernel/log.c:117-123 | recover_from_log is never stuck; it ends with an empty log and the home blocks equal to the durable contents |
| LogTheorems.OperationInOneGroup | initial-xv6/src/kernel/log.c:127-175 | no commit point falls between an operation's begin_op and its end_op, so all its log_writes land in one group |
| LogTheorems.BreadReturnsLastLogged | initial-xv6/src/kernel/bio.c:93-103 | in every run, from a boot over any such disk or from any other state that satisfies the invariant, bread returns what was logged last for the block, installed or not |
| LogTheorems.UnpinnedIsClean | initial-xv6/src/kernel/bio.c:58-151 | in every such run, a cached buffer neither held nor pinned equals the disk block |
| LogReservation.BeginReserves | initial-xv6/src/kernel/log.c:127-142 | an operation admitted by the test in begin_op leaves the blocks in the log plus all unused budgets within the reservation |
| LogReservation.EnoughSpace | initial-xv6/src/kernel/log.c:219-233 | if MAXOPBLOCKS + 2 * budget is below the capacity, no run of operations that add at most budget new blocks each reaches the full log |
| LogReservation.FillLog | initial-xv6/src/kernel/log.c:219-233 | otherwise there is such a run: it keeps every budget and ends with the log full and an operation outstanding |
| LogReservation.PanicFreeIff | initial-xv6/src/kernel/log.c:127-142 | the exact condition under which log_write's "too big a transaction" panic is unreachable: MAXOPBLOCKS + 2 * budget < min(LOGSIZE, size - 1) |
| LogReservation.MkfsLayout | initial-xv6/src/mkfs/mkfs.c:25 | with the log mkfs makes, operations of MAXOPBLOCKS - 1 new blocks are safe and operations of MAXOPBLOCKS are not |
| LogCode.Log.InitLog | initial-xv6/src/kernel/log.c:55-65 | boot: recover_from_log runs to the end, its block writes being a run of the machine above from a crash |
| LogCode.Log.RecoverFromLog | initial-xv6/src/kernel/log.c:117-123 | read_head, install_trans and the clearing write_head are the recovery events of the machine, in order |
| LogCode.Log.LoadHeader | initial-xv6/src/kernel/log.c:87-97 | log.lh becomes the list the header block on disk holds |
| LogCode.Log.InstallTrans | initial-xv6/src/kernel/log.c:69-83 | every logged block is copied home, one disk write each, and unpinned unless recovering; readers may hold other blocks meanwhile |
| LogCode.Log.WriteLog | initial-xv6/src/kernel/log.c:179-191 | every block of the group is copied from the cache to its log slot, one disk write each; readers may hold other blocks meanwhile |
| LogCode.Log.Commit | initial-xv6/src/kernel/log.c:194-203 | a commit is the machine's copy, commit-point, install and erase events in that order, and nothing if n is 0 |
| LogCode.Log.BeginOp | initial-xv6/src/kernel/log.c:127-142 | an operation is admitted, or made to wait, exactly as the machine's Begin is enabled or not |
| LogCode.Log.EndOp | initial-xv6/src/kernel/log.c:147-175 | the last operation out commits its whole group; any other only leaves. The caller holds no buffer, and nobody one of the group's; other buffers may be held throughout |
| LogCode.Log.LogWriteBlock | initial-xv6/src/kernel/log.c:215-235 | log_write absorbs a block already in the group and appends and pins a new one; its panics are exactly the machine's refusals |
| LogCode.Log.Lock | initial-xv6/src/kernel/bio.c:93-103 | bread is the machine's Acquire: it succeeds just if nobody holds the block, and yields its cached bytes or those on disk |
| LogCode.Log.Store | initial-xv6/src/kernel/log.c:215-235 | a store into b->data by the holder, inside its operation, is the machine's Modify |
| LogCode.Log.Unlock | initial-xv6/src/kernel/bio.c:117-137 | brelse of a buffer not changed since it was read or logged is the machine's Release |
| LogCode.Log.Recycle | initial-xv6/src/kernel/bio.c:72-84 | taking the buffer of a block that nobody holds or has pinned for another is the machine's Evict |
| LogCode.Log.WriteOne | initial-xv6/src/kernel/log.c:7-23 | begin_op, bread, a store, log_write, brelse and end_op, one after the other: the home blocks on disk are then as before but for this one, and the log is empty |
| Ring.Unlinked | initial-xv6/src/kernel/bio.c:128-129 | taking a buffer out by its two neighbours' pointers leaves one ring of all the others |
| Ring.LinkedFirst | initial-xv6/src/kernel/bio.c:130-133 | linking a buffer behind the head gives one ring with it as most recent; binit and brelse do this |
| Ring.MutualInverses | initial-xv6/src/kernel/bio.c:36-53 | next and prev undo each other at every buffer and at the head |
| BufferCache.BufCache.constructor | initial-xv6/src/kernel/bio.c:37-53 | binit: one ring of the head and all NBUF buffers, none of them in use or valid, so that no block of any device is cached |
| BufferCache.BufCache.Bget | initial-xv6/src/kernel/bio.c:59-89 | a cached block is found and referenced; otherwise the unused buffer whose last user left first is recycled; it fails exactly when every buffer is in use |
| BufferCache.BufCache.Fill | initial-xv6/src/kernel/bio.c:93-103 | bread reads the disk only into a buffer that is not valid |
| BufferCache.BufCache.Brelse | initial-xv6/src/kernel/bio.c:117-137 | the last reference dropped makes the buffer the most recent one, and no other drop moves it |
| BufferCache.BufCache.Bpin | initial-xv6/src/kernel/bio.c:140-144 | pinning adds one reference and nothing else |
| BufferCache.BufCache.Bunpin | initial-xv6/src/kernel/bio.c:147-151 | unpinning takes one reference and nothing else, in particular not the buffer's place in the ring; were that a last use, the ring would still be in order exactly if the buffer is first on it |
| BufferCache.DropOrder | initial-xv6/src/kernel/bio.c:117-151 | the ring is in the order of last drops, with b's drop now the latest, exactly if b follows the head |
| BufferCache.InUseIsKept | initial-xv6/src/kernel/bio.c:59-89 | a held or pinned buffer is never recycled: it keeps its block and its bytes through any bget |
| BufferCache.BreadRefinesMap | initial-xv6/src/kernel/bio.c:59-103 | bread on the ring is a lookup in a plain block map; at most one other block is forgotten, and that one nobody used |
| LogBuffers.BreadIsAcquire | initial-xv6/src/kernel/bio.c:59-103 | on the buffers of one device, bread is the log machine's Evict of at most one block followed by its Acquire: the ring, its counts and the block map of the log's theorems stay in agreement |
| LogBuffers.BrelseIsRelease | initial-xv6/src/kernel/bio.c:117-137 | brelse is the machine's Release, and its counts still cover every hold and every pin |
| LogBuffers.PinIsLogWrite | initial-xv6/src/kernel/log.c:215-235 | bpin by log_write of a block not yet in the group is the machine's LogWrite: the count goes up just when the block becomes pinned |
| LogBuffers.CopyIsBuffers | initial-xv6/src/kernel/log.c:179-191 | a pass of write_log, its two breads, memmove and two brelses on the ring, is the machine's Copy after the evictions those cause, and all counts are as before but for the victims |
| LogBuffers.InstallIsBuffers | initial-xv6/src/kernel/log.c:69-83 | a pass of install_trans, in a commit or in recovery, with its bunpin, is the machine's InstallOne: the count drops just when the block ceases to be pinned |
| LogBuffers.HeadIsBuffers | initial-xv6/src/kernel/log.c:103-114 | write_head on the ring is the machine's commit point, or its erasure of the log |
| CowMemory.Memory.Kinit | initial-xv6/src/kernel/kalloc.c:55-73 | freerange leaves every frame free, once each, with count 0 |
| CowMemory.Memory.Kalloc | initial-xv6/src/kernel/kalloc.c:111-128 | a free frame with count 0 that nothing refers to is handed out with count 1; it fails exactly when the free list is empty |
| CowMemory.Memory.Kfree | initial-xv6/src/kernel/kalloc.c:80-105 | one reference is dropped; the frame joins the free list just when it was the last, and no frame in use loses its contents |
| CowMemory.Memory.SafeIncCount | initial-xv6/src/kernel/kalloc.c:41-46 | one more reference to a frame in use |
| CowMemory.Memory.Accounts | initial-xv6/src/kernel/kalloc.c:41-128 | frames neither appear nor vanish: those free, those that hold tables, and those that entries or lost references name are all there are, and each is one of these only |
| CowMemory.Memory.WalkAlloc | initial-xv6/src/kernel/vm.c:84-105 | it succeeds exactly if as many frames are free as tables above the page are missing, and then adds just those; otherwise it leaves the upper one if one frame was free; no leaf entry or page content changes |
| CowMemory.Memory.MapPage | initial-xv6/src/kernel/vm.c:143-166 | a page gets its entry and the entry takes over the caller's reference; on failure no leaf entry has changed |
| CowMemory.Memory.UvmUnmap | initial-xv6/src/kernel/vm.c:171-194 | exactly the named pages are unmapped, and each loses the one reference its entry held |
| CowMemory.Memory.CowPageFault | initial-xv6/src/kernel/trap.c:32-66 | succeeds exactly for a mapped user page marked copy-on-write while memory lasts; the page becomes private and writable and nobody's contents change |
| CowMemory.Memory.UvmCopy | initial-xv6/src/kernel/vm.c:312-340 | it succeeds exactly if as many frames are free as the child's page table still lacks tables, and takes just those; then parent and child have the same unwritable copy-on-write entries for every page, all else as before. Otherwise contents are as before, the pages of the parent it came to stay unwritable and copy-on-write, and one reference is lost, that to the first page whose tables did not fit |
| CowMemory.Memory.UvmAlloc | initial-xv6/src/kernel/vm.c:227-253 | it succeeds exactly if there are frames for the new pages and for the tables they lack, below the trapframe page; they are then zero, private and mapped with the permissions asked for, and nothing else changes. With too few frames the leaf entries are those before the call, and just the tables it had made stay; it comes to the panic of mappages exactly if memory lasts up to the trapframe page and one frame further |
| CowMemory.Memory.UvmDealloc | initial-xv6/src/kernel/vm.c:260-272 | exactly the pages between the two rounded sizes go |
| CowMemory.Memory.FreeWalk | initial-xv6/src/kernel/vm.c:276-295 | every table page of a subtree without leaves is freed once, and its references with it |
| CowMemory.Memory.UvmFree | initial-xv6/src/kernel/vm.c:299-304 | user pages and then all table pages of the process go, and nothing of any other process |
| CowMemory.Memory.UserStore | initial-xv6/src/kernel/trap.c:72-141 | a store to a writable user page, or to a copy-on-write one while a frame is free, changes one byte of the storing process and of no other; exactly the others are refused and change nothing |
| CowMemory.Memory.CopyOut | initial-xv6/src/kernel/vm.c:357-389 | the bytes given appear at the addresses given in this process alone, and the copy-on-write pages on the way become private and writable, no other entry changing; a failing call has written what precedes the first page that is not the user's or that cannot be made private for want of memory |
| CowMemory.Memory.CopyIn | initial-xv6/src/kernel/vm.c:394-414 | the bytes read are those at the user addresses; a failing call is one that meets an address without a user page |
| CowMemory.Memory.CreatePageTable | initial-xv6/src/kernel/proc.c:203-234 | three frames: the root and the tables above the trampoline and trapframe pages; with fewer free, no trace of it |
| CowMemory.Memory.CreateSpace | initial-xv6/src/kernel/proc.c:124-138 | a trapframe and a page table, for exactly four frames, or no trace of them |
| CowMemory.Memory.DestroySpace | initial-xv6/src/kernel/proc.c:172-198 | freeproc: the trapframe, the user pages and the tables go, and all reference counts stay exact |
| CowRefinesEager.Processes.Fork | initial-xv6/src/kernel/proc.c:307-355 | fork, or its undoing by freeproc, is one step of a machine whose fork copies every page. It succeeds exactly if there are frames for a trapframe, the top of a page table and every table below it, and takes just these; it loses a reference exactly if there are four frames and not that many, and then gives back every frame and table but leaves the pages it came to copy-on-write |
| CowRefinesEager.Processes.Grow | initial-xv6/src/kernel/proc.c:284-303 | growproc is the eager machine's growth and shrinking, and succeeds exactly when the frames suffice; failing, it leaves the entries alone and keeps the tables it made; a shrink removes just the entries cut off and no table; one below zero wraps in uint64 and changes nothing; growth to the trapframe page panics, if memory lasts that far |
| CowRefinesEager.Processes.Store | initial-xv6/src/kernel/trap.c:32-66 | a user store is a store on the eager machine, let through exactly if the page is the user's and is writable, or copy-on-write while a frame is free, and then moved to a frame nobody named; a refused one changes nothing |
| CowRefinesEager.Processes.CopyOut | initial-xv6/src/kernel/vm.c:357-389 | copyout is a write of the bytes it got to on the eager machine, with the copy-on-write pages on the way made private; short of them all, the next address is not the user's or its page cannot be made private |
| CowRefinesEager.Processes.Exit | initial-xv6/src/kernel/proc.c:172-198 | freeing a process takes away its own entries and tables only |
| CowRefinesEager.Processes.Run | initial-xv6/src/kernel/vm.c:312-414 | any commands, up to the first that panics: for each, exactly whether it succeeds, what it does to memory as the eager machine sees it, to every entry and to the tables, that no frame appears or vanishes, so that the free ones are what is left, and whether a reference is lost; at no time is a frame mapped twice that is not copy-on-write and unwritable in both places |
| CowRefinesEager.ExitFrees | initial-xv6/src/kernel/proc.c:172-198 | what exit gives back: its tables and trapframe, and the frames that only its entries named |
| CowRefinesEager.ShrinkFrees | initial-xv6/src/kernel/vm.c:260-272 | what shrinking gives back: the frames that only the entries cut off named |
| CowRefinesEager.StoreTakes | initial-xv6/src/kernel/trap.c:46-63 | what a store takes: one frame, if the page was not writable and its frame is named elsewhere too, and else none |
| CowRefinesEager.GrownIsZero | initial-xv6/src/kernel/vm.c:226-252 | memory a process is given by growproc or exec reads 0 in every byte, whoever used its frames before |
| CowRefinesEager.RunsAreEager | initial-xv6/src/kernel/vm.c:312-414 | every run of spawn, fork, store, copyout, growth, exec's loading, shrink and exit is a run of the eager machine: every process reads the same bytes at every mapped address |
| CowRefinesEager.ExactIffNoLeak | initial-xv6/src/kernel/vm.c:312-340 | through any run reference counts stay exact if and only if none of its forks finds memory for a new process but not for all of its tables |
| CowRefinesEager.LossIsLeaks | initial-xv6/src/kernel/vm.c:312-340 | the references lost in a run are as many as those forks, and nothing gives one back |
| CowRefinesEager.ForkFramesIs | initial-xv6/src/kernel/proc.c:307-355 | the number of frames in that condition, in figures, for any size below the trapframe page: 4, one for every 512 pages but at most 131071, and one for every 512 * 512 but at most 255, rounded up |
| CowRefinesEager.ForkLosesAFrame | initial-xv6/src/kernel/vm.c:326-331 | from a boot with 11 frames: a process is made and grows by a page, its fork fails, and then one reference is lost |
| CowRefinesEager.ForkMakesStorable | initial-xv6/src/kernel/trap.c:32-66 | a store to any user page that a fork came to, by the parent or by the child of a successful fork, is let through exactly while a frame is free, whatever its permissions were; after a failed fork some frame is |
| CowRefinesEager.PermissionsSurviveIff | initial-xv6/src/kernel/trap.c:41-57 | over a fork, failed or not, and a later store to a page, by parent or child, the permissions of its entry come out as they were if and only if the page was writable and, if the fork came to it, not copy-on-write before |
| CowRefinesEager.TextBecomesWritable | initial-xv6/src/kernel/vm.c:325 | from a boot with 16 frames: a process whose page exec has mapped readable and executable is refused a store, forks, and then is let through |
| CowRefinesEager.EvenIfForkFails | initial-xv6/src/kernel/vm.c:325-339 | the same from a boot with 11 frames, where the fork fails |
| CowRefinesEager.UntouchedPages | initial-xv6/src/kernel/vm.c:312-340 | isolation: whatever the other processes do, the pages of a process that does nothing keep their bytes |
| CowRefinesEager.Processes.ExactCounts | initial-xv6/src/kernel/kalloc.c:80-128 | while nothing has been lost, a frame's count is the number of its user mappings and table links, and the free frames are those with none |
| PageTree.EntryParts | initial-xv6/src/kernel/riscv.h:350-357 | a word built from a frame number and flags gives back both, and its V and R/W/X tests look only at the flags |
| PageTree.Descend | initial-xv6/src/kernel/vm.c:84-105 | following the words from the root arrives at the level-0 table that covers the page |
| PageTree.AddMid | initial-xv6/src/kernel/vm.c:84-105 | a zeroed table linked into the root changes no translation |
| PageTree.AddLow | initial-xv6/src/kernel/vm.c:84-105 | a zeroed table linked below that changes no translation |
| PageTree.SetLow | initial-xv6/src/kernel/vm.c:143-166 | writing one word of a level-0 table changes that page's entry and no other |
| PageTree.MmuFinds | initial-xv6/src/kernel/vm.c:75-83 | what walk finds is what the hardware's own Sv39 walk, written from the index shifts alone, translates by, for every address of 39 bits |
| PageTable.PageTable.Walk | initial-xv6/src/kernel/vm.c:84-105 | the place of the page's entry; interior tables made on the way change no translation, and it fails only for want of a table or of memory |
| PageTable.PageTable.WalkAddr | initial-xv6/src/kernel/vm.c:111-128 | the physical page exactly of valid user entries below MAXVA |
| PageTable.PageTable.MapPages | initial-xv6/src/kernel/vm.c:143-166 | the pages of the range, up to where it stopped, map to successive frames with the permissions given; every other translation is as before; each way of stopping names its cause |
| PageTable.PageTable.UvmUnmap | initial-xv6/src/kernel/vm.c:171-194 | the pages of the range, up to where it stopped, are unmapped and their frames freed in order; every other translation is as before |
| PageTable.PageTable.FreeWalk | initial-xv6/src/kernel/vm.c:276-295 | each table of the subtree is passed to kfree exactly once, and it panics exactly when some page there is still mapped |
| PageEntries.RoundTrip | initial-xv6/src/kernel/riscv.h:340-357 | the flags and frame of an entry survive being written as a word |
| PageEntries.EncodeBits | initial-xv6/src/kernel/riscv.h:340-348 | the bits of the word are those of the entry: V set, R, W, X, U and the copy-on-write bit at 1 to 5 each just if the entry has it, so that walkaddr's test of U passes exactly for user pages |
| PageEntries.SharedWord | initial-xv6/src/kernel/vm.c:325 | the mask arithmetic of uvmcopy clears W, sets COW and leaves every other one of the ten flag bits and the frame as they were, for any word |
| PageEntries.PrivateWord | initial-xv6/src/kernel/trap.c:41-57 | the mask arithmetic of the fault handler sets W, clears COW, keeps the other flag bits and names the new frame, for any word and frame |
| PageEntries.SharedEntry | initial-xv6/src/kernel/vm.c:325 | read as an entry, that is the change uvmcopy makes in the model of memory |
| PageEntries.PrivateEntry | initial-xv6/src/kernel/trap.c:41-57 | and this the change the fault handler makes there |
| PageEntries.OneLeaf | initial-xv6/src/kernel/vm.c:143-194 | a word written into the tree is one entry added to, or removed from, the flat map of leaf entries that CowMemory works on |
| PageSpaces.LeafWritten | initial-xv6/src/kernel/vm.c:143-166 | all processes' trees in one memory represent one flat map of leaf entries and one of tables; writing a page's word is setting its entry, and no other process's space changes |
| PageSpaces.LeafCleared | initial-xv6/src/kernel/vm.c:171-194 | clearing the word is dropping the entry |
| PageSpaces.MidLinked | initial-xv6/src/kernel/vm.c:84-105 | linking a zeroed page into a root is adding a level-1 table, and nothing else |
| PageSpaces.LowLinked | initial-xv6/src/kernel/vm.c:84-105 | linking one below that is adding a level-0 table, and nothing else |
| PageSpaces.RootMade | initial-xv6/src/kernel/vm.c:199-208 | a zeroed page is the root of a process that has no pages |
| PageSpaces.TreeDropped | initial-xv6/src/kernel/vm.c:276-304 | giving up the tables of a process without leaf entries leaves all others represented |
| PageRuns.MapRange | initial-xv6/src/kernel/vm.c:143-166 | a whole call of mappages on one process's tree, wherever it stops, is one change of the flat maps: the entries of the pages done and the tables made; all other processes' spaces are as before |
| PageRuns.UnmapRange | initial-xv6/src/kernel/vm.c:171-194 | a whole call of uvmunmap removes just the entries of the pages done from the flat map |
| PageRuns.StepRefines | initial-xv6/src/kernel/vm.c:84-194 | the same for any change that a tree shows to have been made to a range of its entries |
| PageRuns.RunRefines | initial-xv6/src/kernel/vm.c:84-194 | any run of such calls by any processes is a run of changes of the flat map, which goes on saying what walking the trees finds |
| PageRuns.LookUp | initial-xv6/src/kernel/vm.c:111-128 | on every process's tree, for addresses below the trapframe page, walkaddr gives the frame that the flat map has for the page if its entry is the user's, and else 0 |
| SleepWakeup.StepInv | initial-xv6/src/kernel/proc.c:619-665 | every step of any process, with sleep split where p->lock is taken, lk released and the state not yet SLEEPING, keeps the ownership of locks and the rule that nobody is left asleep on a free lock |
| SleepWakeup.RunInv | initial-xv6/src/kernel/proc.c:619-665 | the same over every interleaving |
| SleepWakeup.NoLostWakeup | initial-xv6/src/kernel/sleeplock.c:22-41 | whenever a sleep lock and its spinlock are both free, no process is asleep on it or committed to falling asleep |
| SleepWakeup.WakeupReachesAll | initial-xv6/src/kernel/proc.c:649-665 | when wakeup returns, lk still held, no process that gave lk up before is asleep on the channel |
| SleepWakeup.HolderKept | initial-xv6/src/kernel/sleeplock.c:22-41 | no step but the holder's own release takes a sleep lock from its holder |
| SleepWakeup.MutualExclusion | initial-xv6/src/kernel/sleeplock.c:22-41 | over whole runs, from acquiring until releasing the lock has one holder |
| SleepOutcomes.HeldIff | initial-xv6/src/kernel/sleeplock.c:22-41 | in every run, a process outside of the calls holds a sleep lock if and only if its last call about it was acquiresleep: acquiresleep returns with the lock, releasesleep without it, and kill does not change that |
| SleepOutcomes.ChanIs | initial-xv6/src/kernel/proc.c:619-646 | in every run, p->chan is set from falling asleep until the process runs again, and then clear |
| SleepOutcomes.NoDeadlock | initial-xv6/src/kernel/proc.c:619-665 | in every run, behind each process that is on a CPU inside a call, itself or at most two spinlocks away, is one that can make a step |
| SleepOutcomes.WaitsForSomebody | initial-xv6/src/kernel/proc.c:619-665 | whoever is RUNNABLE can be dispatched, and whoever is asleep sleeps on a lock that is held or has the wakeup to come before it |
| SleepOutcomes.KillWakes | initial-xv6/src/kernel/proc.c:670-690 | whoever is asleep can be killed at once, is then RUNNABLE and can be dispatched, still inside acquiresleep |
| SleepOutcomes.FirstAcquire | initial-xv6/src/kernel/sleeplock.c:22-32 | from the start, any process gets any sleep lock, in the five steps given |
| WaitExit.StepInv | initial-xv6/src/kernel/proc.c:307-472 | every step of fork, exit, reparent, wait, wakeup, kill (also of a slot not in use), scheduling and preemption keeps the invariant on locks, states, parents and zombies |
| WaitExit.RunInv | initial-xv6/src/kernel/proc.c:307-472 | the same for every interleaving from the state with init alone |
| WaitExit.NoMissedChild | initial-xv6/src/kernel/proc.c:376-472 | whenever wait_lock is free, each zombie has a parent and that parent is not asleep in wait, nor about to be |
| WaitExit.ParentsNeverDead | initial-xv6/src/kernel/proc.c:359-418 | every parent pointer names another process that is neither ZOMBIE nor UNUSED nor half made |
| WaitExit.ReapedIsGone | initial-xv6/src/kernel/proc.c:422-472 | a process is freed by its own parent's wait only, and only once it has left its kernel stack for good |
| WaitExit.WaitFailsOnlyAlone | initial-xv6/src/kernel/proc.c:461-466 | wait gives up on a process that was not killed only if no process has it as parent |
| WaitExit.MarkedIffStray | initial-xv6/src/kernel/proc.c:670-690 | in every run, an unused slot is marked killed exactly if kill(0) has hit it while unused and no fork has taken it since |
| WaitExit.BornKilledIff | initial-xv6/src/kernel/proc.c:107-150 | in every run, the child fork makes is killed from birth exactly if kill(0) has hit its slot, unused, since the slot was last taken |
| WaitExit.KilledBeforeBirth | initial-xv6/src/kernel/proc.c:670-690 | from the state with init alone: the scheduler runs init, kill(0) finds slot 1 unused, init forks into it, and the child is killed though nobody killed it |
| WaitExit.NobodyBornKilled | initial-xv6/src/kernel/proc.c:107-150 | so in a run without a kill of an unused slot no child is ever born killed |
| WaitOutcomes.OnlyWhileForked | initial-xv6/src/kernel/proc.c:305-355 | in every run, a slot is USED if and only if some process is in the middle of forking it |
| WaitOutcomes.ForkEnds | initial-xv6/src/kernel/proc.c:316-354 | in every run, fork ends with the child RUNNABLE, the caller its parent and its lock free, so that it can be dispatched at once; or, if memory did not suffice, with the slot unused and free again |
| WaitOutcomes.ExitEnds | initial-xv6/src/kernel/proc.c:376-418 | in every run, exit ends with a zombie whose lock is free, and with no process left that calls it its parent |
| WaitOutcomes.WaitEnds | initial-xv6/src/kernel/proc.c:422-472 | in every run, wait ends in one of three ways, with wait_lock free: a zombie child off its stack is freed, all of its fields cleared; the copy of its status failed and nothing has changed; or the caller has no child or has been killed, and nothing has changed |
| WaitOutcomes.NoDeadlock | initial-xv6/src/kernel/proc.c:305-472 | in every run, behind each process that is on a CPU inside fork, exit or wait, itself or at most two locks away, is one that can make a step: wait_lock and the p->locks do not deadlock |
| WaitOutcomes.RunnableRuns | initial-xv6/src/kernel/proc.c:501-549 | in every run, whoever is RUNNABLE has its lock free and can be dispatched |
| WaitOutcomes.UserCalls | initial-xv6/src/kernel/proc.c:107-150 | in every run, a process in user code can wait, block and be preempted, can exit unless it is init, and can fork into exactly the unused slots, whose locks are free |
| WaitOutcomes.SleeperWakes | initial-xv6/src/kernel/proc.c:670-690 | in every run, whoever is asleep can be killed at once |
| WaitOutcomes.KillWakes | initial-xv6/src/kernel/proc.c:670-690 | in every run, a process killed in its sleep is RUNNABLE and can be dispatched; otherwise it is marked and no more |
| WaitOutcomes.SleepsOnIff | initial-xv6/src/kernel/proc.c:462-469 | in every run, a process asleep in wait has been killed if and only if the kill came between wait's test of killed(p) and sleep's taking of p->lock |
| WaitOutcomes.KilledYetAsleep | initial-xv6/src/kernel/proc.c:462-469 | such a run: init forks, waits, is killed at that point and is asleep in the end, its child not having run |
| WaitExit.NotMissedKept | initial-xv6/src/kernel/proc.c:376-472 | the step in which a parent could miss its child: a zombie never faces a parent asleep in wait, save init about to be woken by reparent |
| WaitExit.ToldKept | initial-xv6/src/kernel/proc.c:391-418 | an exiting process has woken its parent, and the parent cannot fall asleep again before wait_lock is released |
| WaitExit.OrphanedKept | initial-xv6/src/kernel/proc.c:359-371 | processes reparent has passed are no longer, and do not become again, children of the exiting process |
| WaitExit.ScannedKept | initial-xv6/src/kernel/proc.c:430-459 | children wait has looked at are not zombies for as long as it holds wait_lock, and none is found if it counted none |
| Priorities.BestIsUnique | initial-xv6/src/kernel/proc.c:530 | the order by priority, number of runs, creation time and then position leaves one best process |
| Priorities.BestAdd | initial-xv6/src/kernel/proc.c:513-536 | comparing one more process with the best so far, by the code's three tests, gives the best of all |
| Proctable.Table.Schedule | initial-xv6/src/kernel/proc.c:481-558 | one pass: the RUNNABLE process with least priority value, then fewest runs, then earliest creation, lowest index on ties, is RUNNING, has run and sleep time 0 and one more run to its count (modulo 2^32), its other fields and all other processes being as before, and is the only one left locked; with none RUNNABLE nothing changes |
| SchedulerRaces.StepInv | initial-xv6/src/kernel/proc.c:481-558 | every step of any number of scanning CPUs, of the processes they run, of other code under p->lock and of clockintr writing dp keeps the lock and choice invariant |
| SchedulerRaces.RunInv | initial-xv6/src/kernel/proc.c:481-558 | the same for every interleaving |
| SchedulerRaces.PicksTheBest | initial-xv6/src/kernel/proc.c:492-556 | whatever the others do during a pass, the process switched to is still RUNNABLE and is the only one whose lock the CPU holds; it is the best of those the pass saw, by their keys as read, if and only if the pass has not been led astray, or a process taken later was ahead of all before it |
| SchedulerRaces.LooksAtAll | initial-xv6/src/kernel/proc.c:501-538 | no process is left out: whatever a pass has behind it it has looked at, in one of its own steps, and what it saw is exactly those that were RUNNABLE then, with the keys they had, dp as one of the look's reads |
| SchedulerRaces.MisledIff | initial-xv6/src/kernel/proc.c:530-536 | one look leads a pass astray exactly if it takes a process that does not beat the best so far with dp as min_dp is set from it, or passes over one that does with dp as first read |
| SchedulerRaces.SteadyPasses | initial-xv6/src/kernel/proc.c:492-538 | in any run in which dp is not written during a look at it, no pass is astray |
| SchedulerRaces.WorseIsRun | initial-xv6/src/kernel/proc.c:530-549 | a run from a quiet start, with two processes of dp 7 and 5 and a tick that writes 9 after 5 has been read: the CPU sees both and switches to the worse |
| SchedulerRaces.OneCpuEach | initial-xv6/src/kernel/proc.c:539-556 | a process is RUNNING exactly while one CPU has switched to it |
| SchedulerRaces.RunsCounted | initial-xv6/src/kernel/proc.c:541-549 | over a run in which other code leaves it alone, a process's numSch grows by the number of times a CPU switched to it, modulo 2^32 |
| SchedulerRaces.NoDeadlock | initial-xv6/src/kernel/proc.c:501-538 | locks being taken in rising order while the best one is kept, behind every spinning CPU there is a holder able to go on |
| SchedulerRaces.CanGoSteps | initial-xv6/src/kernel/proc.c:501-538 | and if that holder is a CPU, it has a step |
| DiskBlocks.BlockBitsApart | initial-xv6/src/kernel/fs.c:75-77 | setting or clearing one bitmap bit changes that block's bit and no other |
| DiskBlocks.WordsApart | initial-xv6/src/kernel/fs.c:408-412 | an entry stored into an indirect block's bytes reads back, and the other entries are as before |
| DiskBlocks.WordIs | initial-xv6/src/kernel/fs.c:408-409 | an entry of an indirect block is the number its four bytes are, the lowest first |
| DiskBlocks.PutWordIs | initial-xv6/src/kernel/fs.c:412 | and storing an entry puts just these bytes |
| FileBlocks.AllocGood | initial-xv6/src/kernel/fs.c:66-88 | a block balloc hands out was in nobody's use, and the bitmap stays exact |
| FileBlocks.FreeGood | initial-xv6/src/kernel/fs.c:92-105 | a block some inode owns is marked in the bitmap, so bfree of it does not panic |
| FileBlocks.AttachGood | initial-xv6/src/kernel/fs.c:383-421 | storing an allocated block's number in an empty place keeps every block with one owner |
| FileBlocks.DropIndirectGood | initial-xv6/src/kernel/fs.c:439-449 | dropping the indirect block after freeing all it names leaves the bitmap exact |
| FileBlocks.UntouchedContent | initial-xv6/src/kernel/fs.c:472-539 | a file whose blocks nobody touched reads the same |
| FileBlocks.FileByteIs | initial-xv6/src/kernel/fs.c:383-421 | in terms of bytes on the disk: byte k of a file is byte k mod 1024 of the block that addrs[k / 1024] names, or from 12 KB on the block whose number stands, little-endian, at 4 * (k / 1024 - 12) of the block that addrs[12] names |
| FileBlocks.BitmapBit | initial-xv6/src/kernel/fs.c:75-77 | and block b is in use just if bit b mod 8 of byte b mod 8192 / 8 of block bmapstart + b / 8192 is set |
| FileSystem.FormattedIsGood | initial-xv6/src/mkfs/mkfs.c:234-294 | a disk as mkfs lays it out, its files one block after the other and everything below the first free block marked, satisfies the invariant, whatever files and directories are on it |
| FileSystem.RootRounded | initial-xv6/src/mkfs/mkfs.c:163-168 | mkfs rounds the root directory's size up past its names; its blocks cover that size exactly if the names do not fill a whole number of blocks |
| FileSystem.FileSys.Balloc | initial-xv6/src/kernel/fs.c:66-88 | the lowest unused block, marked and zeroed; 0 exactly when every block is in use |
| FileSystem.FileSys.Bfree | initial-xv6/src/kernel/fs.c:92-105 | one block owned by an inode is marked unused; "freeing free block" is unreachable |
| FileSystem.FileSys.Bmap | initial-xv6/src/kernel/fs.c:383-421 | the block that holds the n-th part of the file, added if missing, direct or indirect; no byte of any file changes, the bitmap stays exact also when balloc fails midway, and 0 means the disk is full |
| FileSystem.FileSys.ITrunc | initial-xv6/src/kernel/fs.c:426-453 | exactly this inode's direct blocks, indirect block and indirect entries become unused; every other file is untouched |
| FileSystem.FileSys.Readi | initial-xv6/src/kernel/fs.c:472-496 | the slice of the file's bytes, cut at its end, across block and indirect boundaries; nothing is written. It fails exactly if the user's memory cannot take that many bytes, and has then delivered a prefix |
| FileSystem.FileSys.Writei | initial-xv6/src/kernel/fs.c:506-539 | the file is its old bytes with those copied spliced in, its size grown by those reported if need be; every other file is untouched; it is short only when the disk is full or user memory cannot be read, and refuses exactly bad offsets and oversize files; bytes of a failing copy count only if their buffer is logged before it is recycled |
| FileSystem.UnreportedBytes | initial-xv6/src/kernel/fs.c:521-525 | when a copy from user memory fails midway and its bytes stay, they are in the block though not in the result: the file has exactly the bytes reported if and only if the others fall beyond its end or are what was there |
| FileSystem.WritePiece | initial-xv6/src/kernel/fs.c:516-528 | bytes written into one block appear in that part of that file and nowhere else |
| HeapOps.FreedCoalesced | initial-xv6/src/user/umalloc.c:25-44 | linking a block in and joining it to the neighbours it touches leaves one address-ordered cycle with a single wrap and no two touching blocks |
| HeapOps.TakenGood | initial-xv6/src/user/umalloc.c:75-77 | unlinking a block of the exact size keeps the list so |
| HeapOps.CarvedGood | initial-xv6/src/user/umalloc.c:78-82 | carving the tail off a larger block keeps the list so |
| HeapOps.ExtendedGood | initial-xv6/src/user/umalloc.c:54-58 | memory added by sbrk keeps the list so |
| HeapOps.ListIsCanonical | initial-xv6/src/user/umalloc.c:25-44 | the free list, with its pointers and sizes, is determined by which units are free: the order of calls leaves no trace |
| Umalloc.FreedIs | initial-xv6/src/user/umalloc.c:33-42 | the code's assignments to the two or three headers are linking and joining, in all four cases |
| Umalloc.SbrkIsExact | initial-xv6/src/user/umalloc.c:54 | sbrk is asked for as many bytes as morecore records exactly when that is below 2^31 |
| Umalloc.UnitsFit | initial-xv6/src/user/umalloc.c:69 | the units computed hold the request and a header, with less than a header to spare, and overflow nothing |
| Umalloc.UserHeap.Search | initial-xv6/src/user/umalloc.c:30-32 | the search loop ends, at the free block after which the freed one belongs, also across the wrap |
| Umalloc.UserHeap.Free | initial-xv6/src/user/umalloc.c:25-44 | the block's units become free and nothing else changes hands; live blocks keep place, size and contents |
| Umalloc.UserHeap.Morecore | initial-xv6/src/user/umalloc.c:47-61 | it grows, by memory all of it free and a block of the size needed, exactly if sbrk grants what it is asked for and the request is below 2^27 units; it overruns exactly if sbrk grants and the request is larger |
| Umalloc.UserHeap.Malloc | initial-xv6/src/user/umalloc.c:64-90 | it succeeds exactly if some free block is large enough or, up to 2^31 - 32 bytes, sbrk grants more: a block of exactly the units needed, from free memory only, all other blocks untouched; the search ends, also when resumed after morecore |
| Umalloc.OverrunsWhen | initial-xv6/src/user/umalloc.c:54-58 | from 2^31 - 31 to 2^32 - 16 bytes malloc always goes wrong, sbrk being asked for none or fewer than none; beyond that, exactly if sbrk grants 16 bytes |
| Umalloc.AskTooMuch | initial-xv6/src/user/umalloc.c:64-90 | malloc of 2^31 - 31 bytes does so in every state: sbrk is asked for -2^31 bytes |
| Umalloc.UserHeap.Run | initial-xv6/src/user/umalloc.c:25-90 | any sequence of calls, stores into held blocks and the program's own sbrk, each with exactly the outcome its turn has; it stops only at a call the program must not make or an overrun, and no managed unit is lost |
| Umalloc.Untouched | initial-xv6/src/user/umalloc.c:25-90 | over any such run, a held block that is neither freed nor stored into keeps its place, its size and every word in it |
| Umalloc.HeldApart | initial-xv6/src/user/umalloc.c:25-90 | at any moment of it, the blocks held do not overlap and lie within the program's memory |
| VirtioQueue.Push | initial-xv6/src/kernel/virtio_disk.c:272-277 | a ring entry added at idx % NUM with a 16-bit idx extends the queue, also where the index wraps |
| VirtioQueue.Pop | initial-xv6/src/kernel/virtio_disk.c:312-323 | the oldest entry of the queue is at the consumer's index, also where the index wraps |
| VirtioQueue.Room | initial-xv6/src/kernel/virtio_disk.c:272 | the rings cannot overrun: a free descriptor means fewer than NUM requests are queued |
| VirtioQueue.AddChain | initial-xv6/src/kernel/virtio_disk.c:247-265 | a new chain shares no descriptor with the others |
| VirtioQueue.DropRequest | initial-xv6/src/kernel/virtio_disk.c:288-289 | a finished request's three descriptors, and no others, leave its chain |
| VirtioQueue.TwoAtMost | initial-xv6/src/kernel/virtio_disk.c:202-213 | with eight descriptors at most two requests are under way, and three descriptors are free exactly if fewer than two are |
| Virtio.VirtioDisk.AllocDesc | initial-xv6/src/kernel/virtio_disk.c:157-166 | a free descriptor, marked used; -1 exactly when none is free |
| Virtio.VirtioDisk.FreeDesc | initial-xv6/src/kernel/virtio_disk.c:170-182 | a descriptor in hand is given back; neither panic is reachable |
| Virtio.VirtioDisk.Alloc3Desc | initial-xv6/src/kernel/virtio_disk.c:202-213 | three distinct descriptors, or no change at all, the latter exactly if fewer than three are free; the device may act all the while |
| Virtio.VirtioDisk.Submit | initial-xv6/src/kernel/virtio_disk.c:216-286 | a request becomes a chain of three descriptors offered to the device, with b->disk set; it has to wait exactly if two are under way |
| Virtio.VirtioDisk.TakeRequest | initial-xv6/src/kernel/virtio_disk.c:272-277 | the entry the device reads next is the oldest offered request |
| Virtio.VirtioDisk.Complete | initial-xv6/src/kernel/virtio_disk.c:216-286 | whichever request the device finishes, following its descriptors transfers between the block and the buffer that the request named, in the right direction |
| Virtio.SectorBytes | initial-xv6/src/kernel/virtio_disk.c:218 | the sector asked for, of 512 bytes, begins at the first byte of the block |
| Virtio.BlockRead | initial-xv6/src/kernel/virtio_disk.c:218-262 | so the 1024 bytes the device reads from there, across two sectors, are just that block |
| Virtio.BlockWritten | initial-xv6/src/kernel/virtio_disk.c:218-262 | and those it writes there replace just that block |
| Virtio.VirtioDisk.Intr | initial-xv6/src/kernel/virtio_disk.c:295-327 | b->disk is cleared for exactly the buffers whose requests have completed, in any order, those included that the device adds during the loop; none is left when it ends; the status panic is unreachable |
| Virtio.VirtioDisk.Finish | initial-xv6/src/kernel/virtio_disk.c:283-292 | exactly the three descriptors of this request become free, while the device goes on with others |
| Virtio.VirtioDisk.FreeChain | initial-xv6/src/kernel/virtio_disk.c:186-197 | following the next fields frees the chain's three descriptors and stops, whatever the device does between them |
| Virtio.VirtioDisk.Publish | initial-xv6/src/kernel/virtio_disk.c:270-280 | the device may run between the store into the avail ring and the increment of its index; the request is offered at the latter |
| Virtio.VirtioDisk.See | initial-xv6/src/kernel/virtio_disk.c:312-323 | one turn of the interrupt loop: the oldest completion is taken, and its b->disk cleared |
| Virtio.VirtioDisk.ClearIsDone | initial-xv6/src/kernel/virtio_disk.c:283-286 | a requester that finds b->disk clear finds its own request completed |
| Virtio.VirtioDisk.Run | initial-xv6/src/kernel/virtio_disk.c:157-327 | any calls by requesters and interrupts, the device acting between all of the driver's accesses: no panic, each call has the outcome it should, a request ends only after its b->disk was cleared, and all of it is a run of the machine of VirtioRun |
| VirtioRun.RequestDone | initial-xv6/src/kernel/virtio_disk.c:216-291 | in every run of that machine, a request that was started and came back has been carried out exactly once, between: a write put the buffer's bytes on the disk, a read left in the buffer what was on the disk at that moment |
| VirtioRun.Served | initial-xv6/src/kernel/virtio_disk.c:216-291 | the same for any two events of a run from rest that start and end a request |
| Patterns.HereIff | initial-xv6/src/user/grep.c:84-95 | matchhere accepts exactly the texts of which a prefix (all, under a final $) falls into pieces fitting the pattern's items |
| Patterns.StarIff | initial-xv6/src/user/grep.c:98-105 | matchstar tries every run of fitting characters |
| Grep.Match | initial-xv6/src/user/grep.c:72-81 | match returns 1 exactly when some substring, placed as ^ and $ demand, is in the pattern's language |
| Grep.MatchHere | initial-xv6/src/user/grep.c:84-95 | the recursion computes that, and ends |
| Grep.MatchStar | initial-xv6/src/user/grep.c:98-105 | the do-while loop computes that, and ends |
| Grep.Grep | initial-xv6/src/user/grep.c:11-34 | whatever sizes read returns, the output is the matching lines in order, up to the first line that does not end within a buffer (or contains NUL, or has no newline) |
| ShellRoundTrip.RoundTrip | initial-xv6/src/user/sh.c:329-447 | for every command tree with plain words and fewer than MAXARGS arguments, parsing its fully parenthesised text gives the tree back |
| ShellRoundTrip.RenderedLine | initial-xv6/src/user/sh.c:346-360 | the same inside a larger line, up to the closing parenthesis |
| Shell.LineIsGood | initial-xv6/src/user/sh.c:346-447 | every parse that succeeds yields words of plain characters ending at a character that is not plain, and fewer than MAXARGS of them |
| Shell.ParseRenderParse | initial-xv6/src/user/sh.c:329-447 | any line that parses has the same tree as that tree written out in full |
| ShellSentences.ItemsIff | initial-xv6/src/user/sh.c:267-309 | the tokens of a line are the only way to read its text as words, arrows and symbols, each as long as it can be, with blanks between them or not |
| ShellSentences.ParsesIff | initial-xv6/src/user/sh.c:329-447 | the parser is the grammar: a line parses to a command if and only if its tokens make that command by the rules for lines, pipes, blocks, words and redirections, stated without cursor or lookahead |
| ShellSentences.SpellsIff | initial-xv6/src/user/sh.c:267-447 | both in one: a command is read from a text if and only if the text spells out items that make it |
| ShellSentences.AllWords | initial-xv6/src/user/sh.c:376-447 | the arguments and file names of the command are exactly the words of its line: none is lost and none made up |
| ShellSentences.TypedRoundTrip | initial-xv6/src/user/sh.c:329-447 | any command tree with plain words, typed with blanks and with parentheses only where a part would not stand on its own, any number of redirections in a row included, parses to itself |
| Shell.CutWords | initial-xv6/src/user/sh.c:451-494 | with a NUL at the end of every word, each argument and file name reads as its word, however close the next one is |
| Shell.Nulterminate | initial-xv6/src/user/sh.c:451-494 | a NUL goes to the end of every word of the tree and to no other place |
| Shell.Parser.Gettoken | initial-xv6/src/user/sh.c:267-309 | token, span and cursor are the grammar's, for every line and position |
| Shell.Parser.Parseline | initial-xv6/src/user/sh.c:346-360 | tree and cursor, or the panic, are the grammar's; the mutual recursion ends on all inputs |
| Shell.Parser.Parsepipe | initial-xv6/src/user/sh.c:363-373 | likewise |
| Shell.Parser.Parseredirs | initial-xv6/src/user/sh.c:376-398 | likewise |
| Shell.Parser.Parseblock | initial-xv6/src/user/sh.c:401-414 | likewise; the panic "parseblock" is unreachable |
| Shell.Parser.Parseexec | initial-xv6/src/user/sh.c:417-447 | likewise |
| Shell.Parser.Parsecmd | initial-xv6/src/user/sh.c:329-343 | the whole line's tree, or a panic; afterwards every argv and file string equals its token |

## Left out

- swtch, trampoline, kernelvec, start, plic, CSR and TLB handling, uart: hardware and assembly; a context switch, a disk block transfer and a page-table store are single steps.
- Memory is stored in fields of type `seq` and `map` for frames, disk blocks, descriptors and heap headers, rather than in one address space: aliasing between different kinds of object is not modelled, except where the code relies on it (frames shared by processes, an indirect block among data blocks, headers inside freed memory).
- Concurrency of the memory system: kalloc, fork, faults and growth are taken one call at a time; the interleavings inside them, under kmem.lock and the per-page counts, are not modelled.
- CowMemory.Memory.CreatePageTable: the tables above the trampoline and trapframe pages are in the model, their two leaf entries are not; the trapframe page is counted as one reference of its process.
- CowMemory.Memory.DestroySpace: for the same reason says nothing of unmapping those two entries.
- exec, but for its uvmalloc of a segment (`Load` in CowRefinesEager); userinit's initcode, uvmclear, copyinstr and the ELF loader.
- The fault path for pages that are not copy-on-write, which returns to the user program: a store there is simply refused.
- LogCode.Log: pinning is the position of a block in log.lh, not a count; LogBuffers relates the counts of BufferCache.BufCache to it. There a pass of write_log or install_trans on the ring is taken without other processes' breads in between.
- LogCode.Log.WriteOne: an operation of one block with no other under way; operations together are for the machine's theorems.
- PageRuns.RunRefines: covers the pages below the trapframe page, and mappages and uvmunmap; that uvmcopy, uvmalloc and the fault handler, in CowMemory on the flat map, call these is not part of it.
- BufferCache.BufCache.Bget: the wait for the buffer's sleep lock is not part of it; the panic for want of buffers is the result None.
- BufferCache.BufCache.Bunpin: asks for a positive reference count; the uint underflow of an unpin without a pin is not modelled.
- SleepOutcomes.NoDeadlock: fairness of the spinlocks and of the scheduler is not claimed; a process that acquires a sleep lock it holds waits for ever.
- WaitOutcomes.WaitEnds: the exit status (xstate) is not modelled; copying it out succeeds or fails.
- WaitExit.NoMissedChild: waitx is the same code as wait with two more results and has no machine of its own; allocproc's search for a slot is the event's choice of slot; nested sleeps elsewhere in the kernel are one anonymous channel.
- SchedulerRaces.PicksTheBest: no claim of fairness is made; wtime is never reset.
- sys_set_priority and the computation of rbi and dp in clockintr: dp is any value at any time.
- FileSystem.FileSys.ITrunc: iupdate and ilock, the transfer between the in-memory inode and its dinode, are not modelled; an inode's fields are taken as stored.
- FileSystem.FileSys.Readi: user memory is the number of bytes that can be stored before a copy fails; likewise in Writei.
- FileSystem.FileSys.Writei: whether the bytes of a failing copy stay is decided when the call returns (kept); the time in between, in which others may read them from the buffer, is not modelled.
- Directories, link counts, path names, inode allocation and file tables: a removed directory that is still somebody's current directory can gain entries, so that the simple link-count equation does not hold.
- The file system is not run inside the log: its block writes are those of a plain block map, which is what LogTheorems.BreadReturnsLastLogged shows bread to be.
- Umalloc.UserHeap.Malloc: what happens after sbrk was asked for a truncated amount; a program that shrinks its memory with a negative sbrk of its own.
- Umalloc.UserHeap.Run: the program's own sbrk moves the break by whole headers of 16 bytes; by other amounts it would leave malloc's memory misaligned.
- Virtio.VirtioDisk.Run: the device takes a request, or carries one out and puts it on the used ring, in one step; it always reports success. Between the driver's two stores that publish a request it may run, within one of them it may not. Initialisation and feature negotiation are not modelled.
- Shell.Parser.Parsecmd: runcmd and the commands it runs, and failing malloc in the constructors.
- Grep.Grep: a failing read, and argument handling in main.
- Pipes, console and uart buffers, string helpers, the round-robin scheduler, statistics, printing, ramdisk, mkfs (but for its constants and the disk it leaves) and the other user programs: easier members that would add little.
