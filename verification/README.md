# xv6 kernel and shell: a verified model

This project models the parts of a teaching operating system (xv6 for x86, in the `Lottery` tree, plus the
scheduler of the `RR` tree) whose correctness depends on an invariant over many operations, and proves what
those operations keep, over all inputs and over all interleavings where processes, crashes or CPUs interleave.

Each component is modelled in the form its source has: loops over arrays and links are methods with loop
invariants on classes whose fields are the source's variables; what the loops compute is specified by functions
of the values before, and the properties are proved about those functions. Where several processes or CPUs take
turns, a state machine has one step for each stretch that a lock, or the atomicity of one block write or of a
single read, makes indivisible, and the properties hold in every state of every run.

| files | component |
|---|---|
| `LogDisk`, `LogProtocol`, `Log` | write-ahead log: crash recovery, group commit, log space |
| `LogLimits`, `LogBuffers` | how far the log can be filled, and the buffers a commit needs |
| `FsModel`, `FsOwnership`, `FsWrite`, `FileSystem` | inodes, block map, free map, file reads and writes |
| `FileRuns`, `FileCrash` | concurrent writers, and files over the log after a crash |
| `BufferValues`, `BufferCache`, `BufferProtocol` | buffer cache over the memory disk, and the processes that share it |
| `Heap`, `Umalloc` | user-level memory allocator |
| `VmModel`, `Vm` | page tables over the page allocator |
| `ProcTable`, `Processes`, `SleepWakeup`, `Scheduling` | process table, sleep and wakeup, the two schedulers |
| `Shell`, `ShellRoundTrip`, `ShellWords`, `ShellGrammar`, `ShellParser` | shell command parser |
| `Pipe` | pipes |
| `Mt` | MT19937 generator |
| `Grep` | regular expression matcher |
| `Common`, `Params` | notions and constants that several components share |

## Main results

- Log: at every moment of every run with any number of processes and crashes, recovery yields exactly the
  committed transactions, whole and in order, and every operation's blocks are in one of them
  (`LogProtocol.GroupCommit`), on exactly the logs that are large enough (`LogLimits.Overrun`); the methods of
  `Log.Log` are stretches of that protocol's steps, with exactly its block writes.
- Files over the log: a crash at any moment and a recovery leave the files after a first part of the chunks that
  were written, each chunk whole (`FileCrash.CrashedFiles`).
- File system: after every allocation, write and truncation each block in use occurs in exactly one slot of one
  inode, and a write replaces exactly its bytes (`FsOwnership.AllocOwned`, `FsWrite.WrittenAll`,
  `FsWrite.TruncOwned`, `FileSystem.FileSystem.Writei`).
- Buffer cache: whatever other processes do and however long it waits, bread returns what was last written into
  the block (`BufferProtocol.ReadReturnsLastWritten`), whichever buffer it recycles (`BufferCache.Cache.Bread`).
- Allocator: the heap stays a partition into live and free blocks on one sorted cycle without adjacent free
  blocks, units are conserved, both searches terminate (`Umalloc.Allocator.Free`, `Umalloc.Allocator.Malloc`), and
  each call of malloc goes on looking where the last one stopped (`Umalloc.SecondCall`).
- Page tables: no physical page is lost or freed twice, also when memory runs out half way
  (`Vm.Kernel.Copyuvm`, `Vm.Kernel.Allocuvm`, `Vm.Kernel.Freevm`), and the user can reach the user half alone.
- Processes: the invariants of fork, exit and wait hold in every run (`Processes.Supervised`), kill takes exactly the
  process meant out of its sleep (`Processes.KillReaches`), no wakeup is lost (`SleepWakeup.NoLostWakeup`), and the
  lottery's weights are exact (`Scheduling.GeneratorWeight`).
- Shell: the parser accepts exactly the lines of a grammar over tokens, and builds the tree that derives all of them
  (`ShellGrammar.ParseExact`); parsing inverts printing (`ShellRoundTrip.RoundTrip`), and NUL termination spoils no
  word (`ShellParser.Parser.Parsecmd`).
- Generator: the recurrence across refills (`Mt.Generator.Refill`), and every bit of the returned word
  (`Mt.Generator.Genrand`, `Mt.TemperBits`).
- Matcher: which pattern each text is (`Grep.ParseShow`, `Grep.ShowParse`), and the language of each pattern
  (`Grep.Match`, `Grep.JoinedWords`).
- Pipe: `PipeProtocol.Keep`.

## Findings

What the code does differs from what one would expect in these places; each is stated and proved, with the
exact condition under which the expectation holds.

- `log_write` can panic with "too big a transaction" although every operation stays within its reservation.
  `LogLimits.PanicIff` is the exact condition: on a log of the size that `mkfs.c` makes, or a larger one, operations
  of ten blocks can meet it, and operations of nine or fewer, such as those of filewrite, cannot.
- `log_write` tests the number of entries before it takes the lock, so two processes can both pass the test while
  there is room for one block. `LogLimits.Overrun`: operations of at most m blocks overrun exactly the logs of two to
  10 + 2 * m blocks that are smaller than the buffer cache; the commit then overwrites the block behind the log.
- With operations of ten blocks, on a log of LOGSIZE blocks or more, the header can pin all NBUF buffers; the commit
  then panics in bget (`LogLimits.StuckIff`, `LogBuffers.StuckPanics`). Files survive that, as any crash.
- `malloc` of a size within seven bytes of 2^32 returns a block without room for a single byte
  (`Umalloc.BlockCovers`).
- A process can be born killed: `kill(0)`, or any pid left on a free slot by a failed fork, marks a free slot,
  and `allocproc` never clears the mark (`Processes.CleanUnless`, `Processes.KillZero`).
- After the lottery winner has run, the rest of the same pass dispatches every runnable process, without a draw
  (`Scheduling.Cpu.LotteryPass`).
- A pipe writer that is killed when it has filled the pipe leaves readers asleep next to a full pipe; nothing else
  does (`PipeProtocol.Keep`), and a run leads there (`PipeProtocol.StrandReachable`).

## Model

| member | source | states |
|---|---|---|
| LogDisk.CommitCrash | Lottery/log.c:193-202 | a crash between any two block writes of a commit: recovery yields the old home blocks if the first write_head has not finished, and otherwise the home blocks with every block of the transaction, never a mixture |
| LogDisk.RecoverCrash | Lottery/log.c:116-122 | a crash between any two block writes of a recovery: a later recovery yields the same home blocks as the interrupted one would have |
| LogDisk.RepeatedCrashes | Lottery/log.c:116-122 | the same for any number of recoveries cut short one after the other |
| Log.Log.Bwrite | Lottery/bio.c:110-116 | one atomic block write, recorded in order, that clears the pin |
| Log.Log.ReadHead | Lottery/log.c:86-96 | the in-memory header equals the one on disk |
| Log.Log.WriteHead | Lottery/log.c:102-113 | exactly one block write, of the header block with the count and the first n entries replaced |
| Log.Log.WriteLog | Lottery/log.c:178-190 | the block writes are exactly the pinned blocks, in header order, into consecutive log blocks |
| Log.Log.InstallTrans | Lottery/log.c:70-82 | the block writes are exactly the log blocks, in order, to their home places, and each unpins its block |
| Log.Log.Commit | Lottery/log.c:193-202 | the block writes of a commit are, in order, those of the plan that LogDisk.CommitCrash is about; none if the log is empty; it panics iff every buffer is pinned |
| Log.Log.RecoverFromLog | Lottery/log.c:116-122 | the block writes of a recovery are, in order, those of the plan that LogDisk.RecoverCrash is about, and the whole is the recovery of the protocol |
| Log.Log.TryBeginOp | Lottery/log.c:126-141 | a round of begin_op is a step of the protocol, which admits the caller or puts it to sleep; the bound on the log space is kept, for any promise of the callers, and so is that sleepers have something to wait for |
| Log.Log.EndOp | Lottery/log.c:146-174 | the last operation out commits everything pinned: the protocol's step, all its block writes, and the end of the commit; the others take one step and change nothing on disk |
| Log.Log.LogWriteTest | Lottery/log.c:218-221 | the test without the lock panics iff the protocol does not let the operation go on, and changes nothing else |
| Log.Log.LogWrite | Lottery/log.c:223-232 | the part under the lock is a step of the protocol: the block is pinned and listed once, absorbed if it was in the header, appended if not |
| LogProtocol.CrashSafe | Lottery/log.c:69-82 | in every state that satisfies the invariant, a crash followed by a completed recovery yields exactly the committed transactions, applied in order |
| LogProtocol.GroupCommit | Lottery/log.c:126-174 | in every state of every run with crashes, with operations of at most m blocks on a log that is roomy for them: recovery yields exactly the transactions whose first write_head finished; a commit runs only with no operation outstanding; all blocks an operation logged are in one transaction |
| LogProtocol.HistoryGrows | Lottery/log.c:193-202 | what is durable stays durable through any number of crashes |
| LogProtocol.ReadsSeeLatest | Lottery/log.c:214-233 | a read sees all committed transactions and every block logged since, also in the middle of a commit |
| LogProtocol.KeepStep | Lottery/log.c:126-233 | every step of begin_op, log_write, end_op, commit, recovery and crash keeps the invariant, unless it is an entry for which the log has no block |
| LogProtocol.EndOpNeverPanics | Lottery/log.c:152-153 | in every state of every run, whatever callers log, the panic "log.committing" is unreachable |
| LogProtocol.NobodySleepsForNothing | Lottery/log.c:129-134 | in every state of every run, a process asleep in begin_op waits for a commit to end or for room, and somebody is there to wake it |
| LogProtocol.SpaceReachable | Lottery/log.c:132-137 | if no operation logs more than m distinct blocks, logged blocks and unspent reservations stay within 10 + 2 * m in every state of every run, which is LOGSIZE for m == MAXOPBLOCKS |
| LogLimits.PanicIff | Lottery/log.c:218-221 | operations of at most m blocks can meet the panic iff the entries that log_write allows are no more than 10 + 2 * m; on a log of LOGSIZE blocks or more, iff m is MAXOPBLOCKS |
| LogLimits.PanicOnlyIf | Lottery/log.c:218-221 | in every run, where an operation that keeps its promise meets the panic there is no room for 10 + 2 * m blocks; for a block it has not logged before, not even for one less |
| LogLimits.PanicIf | Lottery/log.c:218-221 | a run to the panic, by a block new to the log iff there is room for less than 10 + 2 * m blocks |
| LogLimits.Overrun | Lottery/log.c:218-223 | crash safety fails in some run of operations of at most m blocks iff the log has from two to 10 + 2 * m blocks and less than NBUF: two tests of lh.n come before two entries, and write_log overwrites the block behind the log |
| LogLimits.StuckIff | Lottery/log.c:178-184 | on a log of LOGSIZE blocks or more, a run leads to a commit with every buffer pinned iff operations may log MAXOPBLOCKS blocks |
| LogLimits.NeverBeyondHeader | Lottery/log.c:224-230 | in every run of operations of at most MAXOPBLOCKS blocks, an entry that has passed the test finds a place in the header array |
| LogLimits.SmallOperations | Lottery/log.c:214-233 | operations of fewer than MAXOPBLOCKS blocks, on a log of LOGSIZE blocks or more, meet no panic, never overrun the log and leave a buffer for every commit |
| LogBuffers.NoBufferIff | Lottery/bio.c:78-92 | bget of a block without a buffer panics iff the blocks in the header and the unpinned buffers in use make up all buffers |
| LogBuffers.StuckPanics | Lottery/log.c:183-184 | the first bread of write_log panics in such a commit, whatever the buffers are used for |
| FsOwnership.AllocOwned | Lottery/fs.c:57-78 | giving a free block to an empty slot keeps the ownership invariant: a bit is set iff the block is metadata or occurs in a slot, and then in exactly one |
| FsOwnership.AllocGrown | Lottery/fs.c:374-401 | it changes no other slot and no byte of any file |
| FsOwnership.GrownContent | Lottery/fs.c:374-401 | so the content of every file without holes stays the same |
| FsWrite.PutOwned | Lottery/fs.c:496-505 | writing into a data block keeps ownership |
| FsWrite.WrittenNext | Lottery/fs.c:496-505 | one round of writei's loop extends the written range by m bytes and changes no other byte of any file |
| FsWrite.WrittenAll | Lottery/fs.c:483-512 | a completed loop and the size update replace exactly bytes off to off + n of one file, leave it without holes and leave every other file alone |
| FsWrite.WriteDoneTwice | Lottery/file.c:140-152 | two adjacent writes are one write of the joined bytes |
| FsWrite.StillInUse | Lottery/fs.c:82-96 | while itrunc runs, the next block it frees is still marked: "freeing free block" is unreachable |
| FsWrite.FreedNext | Lottery/fs.c:409-437 | one more slot handled frees exactly that slot's block |
| FsWrite.TruncOwned | Lottery/fs.c:409-437 | itrunc frees exactly the blocks of its inode; ownership holds again, the file is empty and the others are untouched |
| FileSystem.FileSystem.Balloc | Lottery/fs.c:57-78 | a free block, marked and zeroed; it panics iff there is none |
| FileSystem.FileSystem.Bfree | Lottery/fs.c:82-96 | the bit is cleared and its block logged; it panics iff it was clear |
| FileSystem.FileSystem.BmapIndirect | Lottery/fs.c:385-398 | the address in the indirect block, with the block and the table allocated if they are missing |
| FileSystem.FileSystem.Bmap | Lottery/fs.c:374-401 | the address in the slot of block bn; ownership is kept, an existing block costs nothing, and at most the bitmap block, the new block and the indirect block are logged |
| FileSystem.FileSystem.Itrunc | Lottery/fs.c:409-437 | the whole new state: the inode empty, its blocks freed exactly once, nothing else changed; every block that changes is logged |
| FileSystem.FileSystem.Readi | Lottery/fs.c:454-477 | the slice of the content from off, with the error cases and the clipping; nothing is allocated, logged or changed |
| FileSystem.FileSystem.Writei | Lottery/fs.c:483-512 | exactly when it fails; otherwise the content is overwritten from off, the size is the larger of the two, other files keep theirs, ownership and the absence of holes are kept, every block that changes is logged, and the logged blocks are bounded |
| FileSystem.FileSystem.WriteOp | Lottery/file.c:140-145 | one log operation of filewrite writes its chunk whole or not at all, logs every block that it changes and none outside the file system, and at most 7 distinct ones when the disk has one bitmap block |
| FileSystem.File.FileWrite | Lottery/file.c:118-156 | while nobody else writes: how many bytes get written, that they are the content afterwards, the offset, the result, and that every log operation stays within 7 blocks |
| FileSystem.FitAll | Lottery/file.c:134-154 | filewrite writes everything iff everything fits the largest file |
| FileSystem.ChunkBlocks | Lottery/file.c:134-142 | a chunk of at most 1536 bytes, at any alignment, touches at most four blocks |
| FileRuns.LastChunkWins | Lottery/file.c:140-145 | chunks of any number of writers, in any order: each byte of each file is what the last chunk to cover it put there |
| FileRuns.ChunkStays | Lottery/file.c:140-145 | a chunk that no later one overlaps is in the file whole |
| FileRuns.SharedFileJoins | Lottery/file.c:141-144 | writers through one struct file together write the join of their chunks, in the order they come, and change no other file |
| FileRuns.SharedFileKeepsAll | Lottery/file.c:141-144 | and none of them overwrites what another one wrote |
| FileCrash.EncSame | Lottery/fs.c:483-512 | a block that a write does not log holds on disk what it held |
| FileCrash.ContentStored | Lottery/mkfs.c:94-108 | what the disk holds determines the content of every file |
| FileCrash.KeepFiles | Lottery/file.c:140-145 | every step of the log, every chunk, every log_write and every crash keeps the invariant that ties committed transactions to whole chunks |
| FileCrash.CrashedFiles | Lottery/log.c:9-19 | in every state of every run: a crash and a recovery leave exactly the file system after a first part of the chunks written, each whole; after all of them if no operation is in progress |
| FileCrash.SavedStays | Lottery/log.c:193-202 | chunks that a crash would leave now are left by every later crash |
| BufferValues.RecycleKeeps | Lottery/bio.c:79-91 | recycling an idle buffer loses the latest contents of no block and keeps names unique |
| BufferValues.FlushKeeps | Lottery/memide.c:54-56 | writing a dirty buffer changes the latest contents of no block, and the buffer then agrees with the disk |
| BufferValues.ModifySets | Lottery/log.c:204-213 | the holder of a buffer changes the latest contents of its block and of no other |
| BufferCache.Cache.constructor | Lottery/bio.c:39-56 | all NBUF buffers on one ring with consistent links, all idle, agreeing with the disk |
| BufferCache.Splice | Lottery/bio.c:131-137 | the pointer writes of brelse move exactly that buffer to the front of the ring |
| BufferCache.Cache.Bget | Lottery/bio.c:62-93 | the buffer that names the block, or, if none does, the idle clean one released longest ago, renamed; it panics iff there is neither; no block's latest contents change |
| BufferCache.Cache.Iderw | Lottery/memide.c:39-60 | when it panics, and otherwise that it writes a dirty buffer or fills one |
| BufferCache.Cache.Fill | Lottery/bio.c:97-106 | bread from the moment the lock is free, after any wait: the latest written or pinned contents of the block, in a locked buffer |
| BufferCache.Cache.Bread | Lottery/bio.c:97-106 | bread until it returns the latest contents of the block, whichever buffer had to be recycled, or has to wait, with a reference, exactly because the block's buffer is locked, or panics |
| BufferProtocol.StepAgrees | Lottery/bio.c:62-141 | with any number of processes in any stage, the latest contents of a block change only by the holder of its buffer |
| BufferProtocol.Keep | Lottery/bio.c:62-141 | every step keeps the invariant: a buffer in use keeps its name, its reference count is the number of its users, its lock has one holder, and what is not pinned agrees with the disk |
| BufferProtocol.ClaimedKeepsName | Lottery/bio.c:79-91 | in every state of every run, from bget to brelse a buffer keeps the name of the block, and one process at most holds its lock |
| BufferProtocol.ReadReturnsLastWritten | Lottery/bio.c:97-106 | in every run, when bread returns, after any wait, the caller alone has the lock of the buffer of that block, and it contains what was last written into the block |
| BufferProtocol.LatestIsLastWritten | Lottery/bio.c:97-141 | in every state of every run, cache and disk together hold for each block what was last written into it |
| BufferProtocol.CallersMayRely | Lottery/bio.c:110-141 | whenever a process takes a step, what the methods of BufferCache.Cache require of their callers holds |
| BufferCache.Cache.Bwrite | Lottery/bio.c:110-116 | the buffer's contents are on disk and it is clean; no block's latest contents change |
| BufferCache.Cache.Pin | Lottery/log.c:229-230 | marking a buffer dirty keeps the cache in agreement with the disk |
| BufferCache.Cache.ReleaseSleep | Lottery/bio.c:121-126 | releasing the lock of a buffer that was written or pinned keeps the cache in agreement with the disk |
| BufferCache.Cache.Brelse | Lottery/bio.c:128-141 | one reference fewer, and a buffer without references becomes the most recently released one; the ring stays one ring of all buffers |
| Heap.InsertedCircle | Lottery/umalloc.c:30-43 | inserting a block at its place keeps one address-ordered cycle through base |
| Heap.JoinedUnits | Lottery/umalloc.c:33-40 | coalescing conserves units |
| Heap.CarvedUnits | Lottery/umalloc.c:78-82 | splitting conserves units |
| Heap.Conservation | Lottery/umalloc.c:22-23 | live and free units add up to all units, and the free blocks are those on the list |
| Umalloc.FreedOk | Lottery/umalloc.c:25-44 | free keeps the cycle, the disjointness of all blocks and the number of units |
| Umalloc.FreedApart | Lottery/umalloc.c:33-42 | after free no two free blocks touch |
| Umalloc.FreedHeaders | Lottery/umalloc.c:33-42 | the assignments of free to headers are the insertion and the two merges |
| Umalloc.BlockCovers | Lottery/umalloc.c:69 | the block looked for holds the bytes asked for iff nbytes <= 2^32 - 8, and is never larger than it must be |
| Umalloc.Allocator.Search | Lottery/umalloc.c:30-32 | the loop of free terminates at the block after which bp belongs |
| Umalloc.Allocator.Free | Lottery/umalloc.c:25-44 | the whole new heap, and freep at the block before the freed one; the heap invariant is kept, the other live blocks keep place and size, and the freed units are part of a free block |
| Umalloc.Allocator.Morecore | Lottery/umalloc.c:47-61 | it fails and changes nothing, or a region at the old break, as large as is asked for and at least 4096 units, has been freed into the heap, and freep is the block before it |
| Umalloc.Allocator.FindBlock | Lottery/umalloc.c:74-89 | the search terminates, asks sbrk only if no free block is big enough, takes at most one region, and finds the first big enough block after freep unless sbrk refuses, and then nothing has changed |
| Umalloc.Allocator.TakeTail | Lottery/umalloc.c:78-82 | a larger block loses exactly its tail; freep is the block before it |
| Umalloc.Allocator.Malloc | Lottery/umalloc.c:64-90 | when it fails, and that only the list has been set up then; otherwise a new live block of nunits units, disjoint from all others, at the end of the first big enough block after freep; the whole new heap, freep at the block before that one, and what it took from sbrk |
| Umalloc.SecondCall | Lottery/umalloc.c:74-84 | two calls in succession: if the first leaves something of the block it takes from, the second looks at that block first, and takes from it if it is big enough |
| Umalloc.SecondCallNext | Lottery/umalloc.c:74-84 | if the first leaves nothing of it, the second looks first at the block behind it |
| VmModel.WithTableHolds | Lottery/vm.c:45-54 | a zeroed page entered in the directory adds a table and no mapping |
| VmModel.PutHolds | Lottery/vm.c:73 | writing one entry changes the mapping of that page and of no other |
| VmModel.SameMappings | Lottery/vm.c:235-247 | a space that keeps its tables and its mappings has grown by page tables at most |
| VmModel.AccountedTrans | Lottery/vm.c:222-249 | the conservation of pages composes over operations |
| Vm.Kernel.Freerange | Lottery/kalloc.c:47-53 | exactly the pages of the range become free |
| Vm.Kernel.Kalloc | Lottery/kalloc.c:83-95 | the first page of the free list, which loses it, or 0 iff there is none |
| Vm.Kernel.Kfree | Lottery/kalloc.c:60-77 | the page becomes the first of the free list; no other page is written |
| Vm.Kernel.WalkAlloc | Lottery/vm.c:36-55 | the table for the page, added if missing; the mappings are unchanged, and it fails only when a table is missing and memory is out |
| Vm.Kernel.Mappages | Lottery/vm.c:61-80 | all pages of the range are mapped to consecutive frames, or a prefix is; nothing else changes and no page is lost |
| Vm.Kernel.Setupkvm | Lottery/vm.c:119-136 | a space with exactly the kernel half, which the user cannot reach and whose text cannot be written to, or failure with the free set unchanged |
| Vm.Kernel.Allocuvm | Lottery/vm.c:222-249 | new zeroed pages between the sizes; when memory runs out, the mappings are as before and only page tables may stay; what is protected stays protected |
| Vm.Kernel.Deallocuvm | Lottery/vm.c:256-279 | the walk that skips absent tables terminates and frees exactly the mapped pages between the sizes; what is protected stays protected |
| Vm.KernelProtected | Lottery/vm.c:105-115 | by the permission bits of both levels: no page of the kernel half can be reached from user mode, and all of it but kernel text and read-only data can be written to |
| Vm.GrownProtected | Lottery/vm.c:222-249 | new pages can be reached and written to from user mode, and what else was protected still is |
| Vm.CopiedProtected | Lottery/vm.c:316-345 | the same for a child |
| Vm.Kernel.Freevm | Lottery/vm.c:284-298 | every page of the space becomes free, exactly once |
| Vm.Kernel.Copyuvm | Lottery/vm.c:316-345 | a child with equal copies of all pages in pages of its own, or failure with the free set unchanged; the parent is untouched, and the child is protected if the parent is |
| ProcTable.Ptable.Allocproc | Lottery/proc.c:163-185 | the first unused slot, or none; its pid, state and tickets are new, its mark, parent and channel those of the last process; no other slot changes |
| ProcTable.Ptable.WakeAll | Lottery/proc.c:592-599 | exactly the sleepers on the channel become runnable, and nothing else about any slot changes |
| ProcTable.Ptable.Kill | Lottery/proc.c:614-631 | 0 iff some slot has the pid; the first one is then marked and not asleep, runnable if it was asleep and otherwise in the state it was in; nothing else about it or about any other slot changes |
| ProcTable.Ptable.Scan | Lottery/proc.c:379-405 | it finds a zombie iff there is a zombie child, and reaps the first: its pid is returned, and its slot is free, without pid, parent or mark; no other slot changes; otherwise whether there are children |
| ProcTable.Ptable.PassAll | Lottery/proc.c:349-356 | all children go to init, which is woken iff one of them is a zombie, also when that happens in the middle of the loop; nothing else changes |
| ProcTable.Ptable.Orphan | Lottery/proc.c:346-356 | the parent runs on if it waits, and so does init if it gets a zombie; the children are init's; nothing else changes |
| Processes.Keep | Lottery/proc.c:273-631 | every step of every process, CPU and interrupt handler keeps the process-table invariant |
| Processes.RunInv | Lottery/proc.c:273-631 | the invariant holds in every state of every run from boot |
| Processes.Supervised | Lottery/proc.c:324-413 | in every state of every run: zombies have no children and a live parent that is not asleep in wait; every process but init has a live parent; a process asleep in wait has a child and no zombie child; RUNNING processes are exactly those on one CPU each |
| Processes.StepFields | Lottery/proc.c:324-631 | what kill, wakeup, exit and wait do to the fields of every slot, at every step of every run: a killed sleeper runs on, sleepers on the channel and whoever waits for the exit run on, a zombie child is reaped, or the caller sleeps if it has children and is not killed; nothing else changes |
| Processes.KillReaches | Lottery/proc.c:163-185 | in every state of every run each process has a pid above 0 that no other slot has, so that kill of it marks that process, takes it out of its sleep and changes no other slot |
| Processes.CleanUnless | Lottery/proc.c:614-631 | free slots stay unmarked exactly as long as kill hits no free slot and no fork fails for a killed embryo |
| Processes.BornKilled | Lottery/proc.c:163-185 | in a run from boot no process is born killed before the first step that marks a free slot, and that step leaves one marked |
| Processes.KillZero | Lottery/proc.c:614-631 | a run from boot in which the first child of init is killed before it has run |
| SleepWakeup.Keep | Lottery/proc.c:552-608 | every acquire, release and write of sleep and wakeup keeps the hand-over invariant |
| SleepWakeup.NoLostWakeup | Lottery/proc.c:552-586 | in no run does a process sleep while its condition holds and its lock is free |
| Scheduling.RandomAtMost | Lottery/rand.c:103-120 | the first accepted draw decides, and the result is at most max |
| Scheduling.ExactBins | Lottery/rand.c:103-120 | every result comes from exactly bin_size of the accepted values, and more than half of all values are accepted |
| Scheduling.SomeoneWins | Lottery/proc.c:451-459 | every draw up to the total has a winner if a process is runnable |
| Scheduling.OneWinner | Lottery/proc.c:451-459 | no draw has two winners |
| Scheduling.TicketWeight | Lottery/proc.c:437-459 | a slot wins exactly as many of the draws from 0 to the total as it has tickets, the first runnable one more |
| Scheduling.GeneratorWeight | Lottery/proc.c:437-459 | the same in 31-bit values of the generator: bin_size times as many |
| Scheduling.Cpu.CountTickets | Lottery/proc.c:440-446 | the tickets of all runnable processes |
| Scheduling.Cpu.LotteryPass | Lottery/proc.c:449-485 | which slots a pass dispatches: the winner of the draw, and after it every slot that is runnable when the scan gets there, whatever the processes do meanwhile |
| Scheduling.RoundRobin | RR/proc.c:430-464 | from any point of its scan, one CPU comes to a process that stays runnable after fewer than NPROC turns, and so fewer than NPROC other dispatches, whatever happens to the table; at each turn it dispatches the slot's process iff that is runnable then |
| ShellRoundTrip.RoundTrip | Lottery/sh.c:328-446 | parsing the printed text of any command tree gives the tree back and consumes all of it |
| ShellRoundTrip.UnitAt | Lottery/sh.c:375-446 | what stands between pipes, printed anywhere in a line, is read back, with its redirections |
| ShellRoundTrip.LineAt | Lottery/sh.c:345-359 | the same for a whole list |
| ShellWords.ParseSound | Lottery/sh.c:266-308 | in every accepted line all words are maximal runs of word characters, and no command has more than MAXARGS - 1 arguments |
| ShellWords.WordsApart | Lottery/sh.c:266-308 | two such words are the same, or at least one character apart |
| ShellWords.TerminatedWords | Lottery/sh.c:450-493 | after the writes of nulterminate every word of the tree, read as a C string, is exactly that word |
| ShellWords.Reprint | Lottery/sh.c:328-446 | every line the parser accepts can be printed and parsed again to the same tree |
| ShellGrammar.LineRight | Lottery/sh.c:262-308 | the tokens of a line: words as long as they can be, >> before >, the other symbols alone, in order, with nothing but white space left out |
| ShellGrammar.ParseExact | Lottery/sh.c:328-446 | a line is accepted with a tree iff the grammar derives that tree from all of its tokens: arguments are the words that follow no redirection sign, in order; the k-th redirection is the k-th wrapper from the inside, with the word behind its sign as its file, read for < and written otherwise; pipes and lists nest to the right |
| ShellGrammar.SimpleLine | Lottery/sh.c:416-446 | a line of words and redirections alone: its tree, or a panic iff it has MAXARGS arguments or more |
| ShellGrammar.AddUnder | Lottery/sh.c:429-445 | an argument that comes after redirections goes into the command inside them |
| ShellParser.Parser.Get | Lottery/sh.c:266-308 | gettoken: kind, place and next position of the token |
| ShellParser.Parser.TakeRedirs | Lottery/sh.c:375-397 | parseredirs against its function, panics included |
| ShellParser.Parser.TakeExec | Lottery/sh.c:416-446 | parseexec: the tree that the grammar derives from the tokens it has taken, panics included; the recursion terminates |
| ShellParser.Parser.TakeBlock | Lottery/sh.c:400-413 | parseblock against its function |
| ShellParser.Parser.TakePipe | Lottery/sh.c:362-372 | parsepipe against its function |
| ShellParser.Parser.TakeLine | Lottery/sh.c:345-359 | parseline against its function |
| ShellParser.Parser.Nulterminate | Lottery/sh.c:450-493 | NUL is written at the end of each word of the tree and nowhere else |
| ShellParser.Parser.Parsecmd | Lottery/sh.c:328-342 | it gives a tree iff the grammar derives that tree from all tokens of the line, and panics iff there is none; every word of the tree is then a C string in the buffer |
| Pipe.Counters | Lottery/pipe.c:85-108 | counters modulo 2^32 tell full and empty apart, and their difference is the number of bytes in the pipe |
| Pipe.Buffer.Pipewrite | Lottery/pipe.c:79-98 | the bytes a stretch of pipewrite stores, in order, when it fails or sleeps, whom it wakes, and that it is a step of the protocol |
| Pipe.Buffer.Piperead | Lottery/pipe.c:101-121 | the bytes delivered are the next ones stored, as many as are there and wanted, also across wraparound; when it fails or sleeps, whom it wakes, and that it is a step of the protocol |
| Pipe.Buffer.Pipeclose | Lottery/pipe.c:60-75 | it is a step of the protocol, and the memory is released iff both ends are closed |
| PipeProtocol.Keep | Lottery/pipe.c:60-121 | a step keeps readers from sleeping beside data and writers from sleeping beside room, iff it is not a killed writer that fills the pipe while a reader sleeps |
| PipeProtocol.RunInv | Lottery/pipe.c:60-121 | so in every run without such a step nobody sleeps for nothing |
| PipeProtocol.StrandReachable | Lottery/pipe.c:85-88 | a run in which a reader is left asleep next to a full pipe |
| Mt.Bijection | Lottery/rand.c:90-94 | tempering is a bijection on 32-bit words |
| Mt.TemperBits | Lottery/rand.c:91-94 | every bit of the tempered word in bits of the word: per statement that bit xor the one 11 above, 7 below where 0x9d2c5680 has a one, 15 below where 0xefc60000 has a one, 18 above |
| Mt.TwistBits | Lottery/rand.c:77-78 | every bit of what the recurrence adds: the bit above in the top bit of one word and the low bits of the next, xor that of 0x9908b0df if the next word is odd |
| Mt.KnuthIs | Lottery/rand.c:60 | the seeding step is multiplication by 69069 modulo 2^32, counted in the natural numbers |
| Mt.SeededWord | Lottery/rand.c:58-60 | the k-th seeded word is 69069 to the k times the seed, modulo 2^32 |
| Mt.UnshiftShift | Lottery/rand.c:91-94 | correcting n times undoes a tempering statement up to the n + 1 times shifted word |
| Mt.Generator.Sgenrand | Lottery/rand.c:52-61 | the first 624 words are the ones the seed determines |
| Mt.Generator.Refill | Lottery/rand.c:70-86 | the refill in place produces exactly the next 624 words of the recurrence |
| Mt.Generator.Genrand | Lottery/rand.c:64-99 | each call returns the next word of the recurrence, across any number of refills, tempered: every bit of it in bits of that word, the top bit stripped |
| Grep.ParseShow | Lottery/grep.c:85-96 | a pattern written down is read back as it was iff each of its plain characters can stand for itself where it stands: none comes before a star or is a final $ |
| Grep.ShowParse | Lottery/grep.c:85-96 | every text is exactly one such pattern, written down |
| Grep.LiteralWords | Lottery/grep.c:93 | the words of plain characters: the same text, with anything where a dot is |
| Grep.StarWords | Lottery/grep.c:99-106 | the words of a starred character: any number of it, and of a starred dot every text |
| Grep.JoinedWords | Lottery/grep.c:85-96 | the words of one pattern behind another: a word of the one and then one of the other |
| Grep.StarStep | Lottery/grep.c:99-106 | a starred pattern matches iff its rest matches after some fitting characters |
| Grep.Matchhere | Lottery/grep.c:85-96 | for every pattern, given as it is written: 1 iff the text starts with a word of its language, which is all of the text if there is a final $; it terminates |
| Grep.Matchstar | Lottery/grep.c:99-106 | 1 iff, after some characters that fit c, the text goes on with a word of the rest, for every pattern as the rest |
| Grep.Match | Lottery/grep.c:73-82 | for every pattern, given as it is written: 1 iff some position of the text starts a word of its language; behind a ^, iff the first does |

## Left out

- Byte layouts: the log header, inodes and page table entries are datatypes; only the words of an indirect block and the bits of the free map are modelled as bytes.
- The disk is a sequence of blocks with atomic block writes, as in memide.c; ide.c, interrupts and the boot code are not part of this model.
- FileCrash: a chunk changes the file system in one step, and its blocks are logged one by one afterwards, mixed with those of other operations; that a block may also be logged half way through a chunk is not modelled, and makes no difference to what is committed. Operations other than filewrite's are not replayed through the log.
- LogProtocol: an entry beyond the header array, and a commit that comes upon one of its own home blocks behind an overrun log, are not followed further; LogLimits.NeverBeyondHeader shows that callers who keep their promise never get to the first.
- Operations on one inode are atomic in FileSystem, because the source holds its sleep lock; ilock, iget, iput, directories, path lookup and link counts are not modelled.
- FileSystem.FileSystem.Readi: it requires a file without holes that is not a device, because writei leaves no holes and the driver of a device is not part of this model; fileread is not modelled.
- FileSystem.File.FileWrite: it covers one writer at a time; FileRuns says what the chunks of several writers leave. The pipe branch is not modelled.
- FileSystem.FileSystem.Writei: it requires a file without holes that is not a device, like Readi; after a panic of balloc it only states that no block is free, because the source stops the machine there.
- BufferCache.Cache.Bget: it requires dev != 0, which is the name of a buffer that has never been used.
- BufferProtocol: which idle buffer bget recycles is left open there; BufferCache.Cache.Bget says that it is the one released longest ago. Callers write or pin a buffer that they have changed before they release it, as the file system does.
- Umalloc.Allocator.Malloc: like Morecore and FindBlock, it requires the rounded request to stay below 2^31 bytes, because sbrk takes a signed argument; what a larger request does is not modelled.
- Vm.Kernel.Copyuvm: it requires every page of the parent to be present, because the source panics otherwise; the remap panic of mappages is a precondition in the same way. clearpteu, loaduvm, inituvm, copyout and switching spaces are not modelled, so the page that clearpteu takes from the user is not either.
- Vm counts addresses in pages; the bytes within a page matter only for rounding.
- Processes: a critical section under ptable.lock is one step; spinning, interrupt masking, context switches and memory ordering are not modelled, nor are the wrap of nextpid and of ticks, response times and the system call history.
- Processes and ProcTable: the state machine uses the functions that the loops of ProcTable.Ptable are proved to compute.
- Scheduling.Cpu.LotteryPass: the count and the scan are two critical sections; the weights are for a table that does not change between them.
- Scheduling.RandomAtMost: the values of genrand are an input, and the loop ends only if one of them is accepted.
- ShellParser: commands are values, so the argument vector that parseexec fills in place under redirections is rebuilt with each argument; getcmd, runcmd and running out of memory are not modelled.
- Pipe: whether a process has been killed is an input of each stretch; pipealloc's failure paths and the release of the page are not modelled.
- The loop of grep over a file is not modelled: it drops a buffer that holds no newline, so it has no clean specification.
- User programs, printf, the console, argument fetching and traps are not modelled.
