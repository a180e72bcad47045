# xv6 in Dafny

A model of the storage stack, the process machine, the address spaces, the user heap, the shell parser and a few self-contained algorithms of xv6 (x86, with VGA calls), with proofs that hold for every input, every run or every interleaving.

`dafny verify dfyconfig.toml` checks the whole project.

## How it is laid out

| modules | what they model |
|---|---|
| `Blocks`, `RedoLog`, `LogMachine`, `LogRuns`, `Log` | the redo log: the header block and the exact block writes of commit and recovery; operations, commits and power failures as one machine; safety over whole runs; log.c as a class |
| `Buffers`, `Bio` | the buffer cache: the doubly linked list, reference counts, flags, and the map from blocks to bytes that cache and disk together implement |
| `FsLayout`, `FsFiles`, `Dinodes`, `FsTrace`, `Fs`, `Mkfs` | bitmap, inodes as bytes of their blocks, inode block maps, readi and writei, truncation, file writes in chunks as lists of block writes, and the image that mkfs builds |
| `FsCrash` | the file system on the log: what power failures make of a file write |
| `Dirs`, `Dirents`, `FileTree` | directories, their entries as bytes of a file, link counts, create, link and unlink |
| `ProcTable`, `ProcMachine`, `ProcInv`, `ProcSteps`, `ProcRuns`, `ProcLife`, `ProcIntr` | the process table and its scans; processes, CPUs, spin locks and sleep locks as one machine; its invariant; safety over whole runs: locks and wakeups, children and process numbers, interrupts |
| `Frames`, `VmSteps`, `VmFill`, `VmKernel`, `VmWalk`, `VmAccess`, `Vm` | physical frames and who owns them, two-level page tables, the walk of deallocuvm in 32 bits, what the processor lets a program read and write, and kalloc.c with vm.c as a class |
| `FreeList`, `Umalloc` | the Kernighan and Ritchie allocator (section 8.7 of The C Programming Language, 2nd edition) |
| `ShellLexer`, `ShellParser`, `ShellGrammar`, `ShellAccepts`, `ShellPrinter`, `ShellWords`, `ShellAppend` | the shell's scanner and parser, a grammar over tokens that the parser accepts exactly, a printer that it undoes, nulterminate, and `>>` against `>` |
| `Grep`, `Ring`, `Pipe`, `Console`, `DrawLine` | the matcher of chapter 9 of The Practice of Programming, the two ring buffers with 32-bit counters, and line drawing |

Code that updates state in place is a class or a method with loops. Each such method is proved against a function or a predicate on values, and the promises are proved about that value. Where several processes or CPUs interleave, either the methods are the pieces that run under one lock, so that any interleaving is a sequence of calls (`Bio`, `Pipe`, `Console`), or the steps form a machine and the theorems are about all its runs (`LogMachine`, `ProcMachine`).

## What the model takes from outside

- The disk is a sequence, or a map, of 512-byte blocks. A block write is atomic and a power failure may fall between any two.
- `sbrk`, the inode that `ialloc` gives to `create`, the resolved parent of a path, the keys typed, and whether a process has been killed are parameters.
- The linker's addresses of the kernel's `data` and `end` are parameters, and so are the devices that have drivers.
- `xchg` is atomic, and a process that spins or sleeps simply takes no step.

## What turned out not to hold

- `log_write` tests for a full header before it looks for a block to absorb, so an operation that has logged ten distinct blocks cannot even rewrite one of them: `LogRuns.BudgetIsTight`.
- The image that mkfs.c ships has `nlog` equal to LOGSIZE, while log.c needs one block more for its header. "too big a transaction" is out of reach exactly when the log holds LOGSIZE blocks behind the header: `LogRuns.LogLargeEnough`.
- mkfs rounds the size of the root directory up. If that size is a multiple of 512 before rounding, the directory ends up with a block less than its size says: `Mkfs.Image.Finish`, and `Mkfs.FullRoot` builds such an image.
- `malloc` computes the units for a request in 32 bits, and they hold the request exactly up to 0xFFFFFFF8 bytes: `Umalloc.UnitsSuffice`. If memory has to be obtained for them, the byte count handed to `sbrk` is an int, and what sbrk then gives is what the new header claims exactly for requests up to 0x7FFFFFF0 bytes and for the seven that wrap to one unit: `Umalloc.SbrkGives`, `Umalloc.MallocAsks`. A request of 0xFFFFFFF8 bytes makes sbrk succeed and give nothing: `Umalloc.SbrkGivesNothing`. `Umalloc.Heap.Malloc` says of every call whether it is one of these.
- A file created in, linked into or a directory made in a directory that has itself been removed leaves a link count or a parent that no entry accounts for. Counts stay right if and only if the directory is still linked: `Dirs.EntryKeepsIff`, `Dirs.MkdirKeepsIff`. Removed directories that are still usable come about: `Dirs.RemovedThenUsed`.
- `deallocuvm` need not end: the jump over a missing page table goes back to address 0 in the last table, and so does the last step of all. A call comes to an end if and only if it has nothing to do, or its size stays below the last table, or that table is there and the size below the last page, or some page below the size stops it: `VmWalk.WalkEndsIff`. Two directories on which it goes on for ever are in `VmWalk.WalkNeverEnds`.
- In a directory made by setupkvm it always comes to an end, but beyond KERNBASE not to a good one. Coming to the kernel's own pages or the devices' it panics, and starting among the pages through which the kernel sees all memory it frees a frame that is not its own, whose owner may be this very directory: `VmWalk.KernelWalk` and `Vm.Memory.DeallocUvm` say exactly which, from the two sizes.
- `copyuvm` beyond KERNBASE or at a page that is not there, and `allocuvm` over a page that is mapped, panic unless memory runs out first. How many free pages make sure of the panic is part of the contracts: one is enough for `allocuvm` if the first page is mapped. Running out first, `allocuvm` unmaps the whole range, mapped before or not: `Vm.Memory.CopyUvm`, `Vm.Memory.AllocUvm`.
- `kill` finds slots, not processes. `kill(0)` marks a slot that nobody uses and reports success, and since allocproc does not clear the mark, the process that gets the slot next is born killed: `ProcLife.KillZero`, `ProcLife.BornMarked`. Of the processes in use it marks exactly the one with the number: `ProcLife.KillHits`.
- `DrawLine` overflows for some lines wider than tall. The largest sum it forms is known from the two sides and their greatest common divisor, and the line is drawn if and only if that fits an int: `DrawLine.Draw`, `DrawLine.Limits`.
- `>>` does not append: no line is read in any other way when every `>>` is written as `>`: `ShellAppend.AppendIsOutput`, with the line `a>>b` in `ShellAppend.AppendWitness`.

## Model

| member | source | states |
|---|---|---|
| `RedoLog.PutHeader` | log.c:102-113 | a header block written with a list of block numbers reads back as that list, whatever a longer header left behind it |
| `RedoLog.RecoveredAt` | log.c:70-122 | recovery leaves every listed block equal to its log copy, every other home block untouched and the header empty |
| `RedoLog.RecoveryResumes` | log.c:116-122 | a crash after any number of recovery's block writes leaves a disk that recovers to the same disk |
| `RedoLog.RecoveryUnderCrashes` | log.c:116-122 | any number of boots that crash at any point, then one that completes, end where an undisturbed recovery ends |
| `RedoLog.CommitThenRecovery` | log.c:193-202 | from the header write on, the block writes still to come are the ones recovery would issue |
| `RedoLog.CommitIsAtomic` | log.c:193-202 | a crash after any block write of a commit recovers to all old or all new home blocks, switching exactly at the non-empty header write |
| `RedoLog.CommitCompletes` | log.c:193-202 | an undisturbed commit installs exactly the logged blocks and empties the log |
| `LogMachine.StepKeeps` | log.c:126-233 | every step of operations, commit, crash and recovery keeps the invariant of the log |
| `LogRuns.CrashSafety` | log.c:54-66 | in every run, however the following boots crash, the disk comes back to the durable prefix of the history, which consists of whole operations |
| `LogRuns.OperationsAreAtomic` | log.c:126-174 | no operation is split by the durable mark |
| `LogRuns.GroupCommit` | log.c:126-174 | in every run a commit runs with no operation outstanding, the header lists distinct home blocks including all those logged, list plus unused budget stays within LOGSIZE, and the panic of end_op is out of reach |
| `LogRuns.DurableForever` | log.c:146-174 | what is durable stays durable whatever happens next |
| `LogRuns.QuietIsDurable` | log.c:146-174 | once nothing is logged any more, all that was done is durable |
| `LogRuns.WithinBudget` | log.c:214-233 | an operation that has logged fewer than MAXOPBLOCKS blocks never panics in log_write when the log is large enough |
| `LogRuns.LogLargeEnough` | log.c:218-219 | "too big a transaction" is out of reach for operations within budget if and only if LOGSIZE <= size - 1 |
| `LogRuns.BudgetIsTight` | log.c:218-230 | with a large enough log, log_write is safe for an operation if and only if it has logged fewer than MAXOPBLOCKS blocks |
| `Log.Log.InstallTrans` | log.c:70-82 | issues exactly the install writes that the crash theorems are about, on disk and in the cache |
| `Log.Log.ReadHead` | log.c:86-96 | the in-memory header becomes the list that the header block announces |
| `Log.Log.WriteHead` | log.c:102-113 | issues exactly the one header write, which is the commit point |
| `Log.Log.RecoverFromLog` | log.c:116-122 | issues exactly the recovery writes and leaves disk and cache at the recovered disk |
| `Log.Log.WriteLog` | log.c:178-190 | issues exactly the copies to the log and leaves the home blocks in the cache alone |
| `Log.Log.Commit` | log.c:193-202 | issues exactly the writes of a commit, nothing for an empty header, and leaves the header empty |
| `Log.Log.BeginOp` | log.c:126-141 | reserves for one operation if and only if no commit runs and the header could hold all budgets |
| `Log.Log.LogWrite` | log.c:214-233 | panics exactly when the header is full, the log is full or no operation is open; otherwise lists the block once |
| `Log.Log.EndOp` | log.c:146-174 | panics exactly during a commit; the last operation commits everything, others change nothing on disk |
| `Buffers.UnlinkKeeps` | bio.c:128-129 | taking a buffer out leaves the pointers running both ways through exactly the others |
| `Buffers.PushFrontKeeps` | bio.c:130-133 | putting a buffer after the head leaves the pointers running both ways through it and all the others |
| `Buffers.RecycleKeeps` | bio.c:79-83 | giving a clean, unreferenced buffer another key changes what no block holds and keeps keys unique |
| `Buffers.UpdateKeeps` | bio.c:94-112 | a buffer made valid, changed or written changes what its own block holds and nothing else |
| `Bio.BufferCache.constructor` | bio.c:38-53 | the list is a doubly linked permutation of all buffers and every block holds what the disk has |
| `Bio.BufferCache.BGet` | bio.c:59-90 | finds the one buffer of the block, or recycles the least recently released clean unreferenced one, or panics exactly when all are dirty or referenced; no block changes, block 0 of device 0 included, whose key all unused buffers claim |
| `Bio.BufferCache.Lookup` | bio.c:65-72 | the list scan finds the first buffer with the key if any buffer has it |
| `Bio.BufferCache.Victim` | bio.c:78-89 | the backward scan finds the oldest buffer that is clean and unreferenced, if there is one |
| `Bio.BufferCache.IdeRw` | ide.c:138-171 | a dirty buffer goes to disk, an invalid one comes from disk; then both agree |
| `Bio.BufferCache.Fill` | bio.c:94-102 | bread returns the bytes that the block holds and changes none |
| `Bio.BufferCache.BWrite` | bio.c:106-112 | panics exactly if the process does not have the lock; otherwise disk and block hold the buffer's bytes |
| `Bio.BufferCache.Modify` | bio.c:8-15 | changing a locked buffer changes what its block holds and nothing else |
| `Bio.BufferCache.Pin` | log.c:231 | marking a buffer dirty changes no block; BGet then does not recycle it |
| `Bio.BufferCache.TryLock` | bio.c:59-90 | a waiting process gets the lock exactly when nobody has it |
| `Bio.BufferCache.Unlock` | bio.c:117-122 | panics exactly if the process does not have the lock; otherwise gives it up and keeps every block, given that changes were written or pinned |
| `Bio.BufferCache.Unref` | bio.c:124-136 | the last user moves the buffer to the front of the list, others leave the list alone; no block changes |
| `FsLayout.SetBit` | fs.c:61-63 | adding a clear bit's weight sets that bit and no other |
| `FsLayout.ClearBit` | fs.c:82-86 | taking a set bit's weight away clears that bit and no other |
| `FsFiles.AllocIsFresh` | fs.c:53-73 | a block that balloc returns is owned by no inode, and no slot and no owned block changes |
| `FsFiles.TruncEnds` | fs.c:388-415 | clearing the slots in the order of itrunc leaves bitmap, slots and all other files consistent |
| `FsFiles.FreedExactly` | fs.c:388-415 | after truncation a block is in use exactly if it was and the inode did not own it |
| `FsFiles.ChunkCounts` | file.c:127-150 | a chunk of filewrite touches at most four data blocks and needs at most four bitmap blocks, for any offset and alignment |
| `FsFiles.SpliceTwice` | file.c:127-150 | writing consecutive chunks is writing the whole |
| `Dinodes.PutGetInode` | fs.c:215-221 | an inode stored among the eight of its block is read back field by field, and the other seven keep theirs |
| `Dinodes.PutStores` | fs.c:210-223 | storing an inode changes that one in the table that the inode blocks hold |
| `Dinodes.InodeWriteKeeps` | fs.c:210-224 | an inode block belongs to no file and no bitmap: writing one keeps the layout and every file's bytes |
| `Fs.Fs.BAlloc` | fs.c:53-73 | returns the first free block, zeroed and marked, or panics exactly when all are in use; inode blocks are left alone |
| `Fs.Fs.BFree` | fs.c:76-89 | panics exactly on a free block; otherwise clears that block's bit and no other |
| `Fs.Fs.BMap` | fs.c:353-381 | a block below the size is found and nothing changes; the block at the size is newly allocated, owned by that slot alone, and the slots are filled exactly up to it |
| `Fs.Fs.WriteI` | fs.c:459-490 | the file's bytes become the splice, all other files keep theirs, the on-disk inode equals the cached one, and the number of blocks logged is bounded, also before the last log_write; errors exactly as tested, a device without a driver included; a file or directory within the limits is written unless the disk is full |
| `Fs.Fs.ReadI` | fs.c:430-455 | the bytes read are the slice of the file, short at its end; errors exactly as tested, a device without a driver included; nothing changes; a file or directory within the limits is read |
| `Fs.Fs.ITrunc` | fs.c:388-415 | frees exactly the inode's blocks, once each, so bfree cannot panic; all other files keep their bytes |
| `Fs.Fs.IPut` | fs.c:316-335 | the last reference to an unlinked inode frees it and its blocks, any other reference changes nothing on disk |
| `Fs.Fs.IAlloc` | fs.c:186-204 | takes the first free inode in the inode blocks and leaves it empty, or panics exactly when none is free; all files keep their bytes |
| `Fs.Fs.IUpdate` | fs.c:210-224 | if the layout is right with the cached inode in place of the stored one, then afterwards it is right as stored: inode blocks hold the table, cached and stored inode agree, no file's bytes and no block's allocation changed, and one block was logged |
| `Fs.Fs.ILock` | fs.c:273-298 | an inode not read yet is decoded from its block and agrees with the table; panics exactly on a free inode |
| `Fs.Fs.WriteChunk` | file.c:127-150 | one chunk logs at most MAXOPBLOCKS distinct blocks, every one of its log_write calls finds fewer than that logged, and its bytes are spliced in at the offset; the calls of log_write, in order, account for all that changed on the disk |
| `Fs.Fs.FileWrite` | file.c:111-154 | the bytes up to where it stopped are spliced in at the offset, and it stops early only at an error of writei, with the position of the failing chunk; between any two of its transactions the file system is intact and the file has the bytes of the chunks so far |
| `FsCrash.WritesAreAtomic` | log.c:126-233 | operations run one after the other from a state where all is durable: after any power failures the disk has the first so many of them, whole, and no other change; the durable mark says how many |
| `FsCrash.IntactHome` | log.c:70-122 | what the log area holds makes no difference to inodes, bitmap and files |
| `FsCrash.WriteSurvives` | file.c:127-150 | a file write on the log: after any power failures, at any point and during recovery, the file system is intact and the file has the bytes of the chunks that were durable, in order and each whole |
| `FsCrash.OpRuns` | log.c:126-233 | a chunk's writes, being within the budget, can be run as one operation up to its commit: begin_op does not wait and log_write does not panic |
| `Mkfs.Image.IAlloc` | mkfs.c:214-224 | stores the next inode, empty, with one link; all files keep their bytes |
| `Mkfs.Image.WInode` | mkfs.c:180-190 | the inode blocks hold the table with the new inode, and every file keeps its bytes |
| `Mkfs.Image.IAppend` | mkfs.c:242-283 | appends the bytes to the file and keeps all others, keeping slots filled exactly up to the size; it needs exactly the blocks it hands out |
| `Mkfs.Image.Finish` | mkfs.c:157-164 | the finished image satisfies the inode, bitmap and slot invariant that fs.c keeps; slots match sizes if and only if the root's size was not a multiple of 512 |
| `Mkfs.FullRoot` | mkfs.c:113-164 | a root directory of exactly one block gives an image whose slots do not match its sizes, whatever the entries and on any layout with room for it |
| `Dirs.FindPut` | fs.c:530-558 | a new entry is found under its name and no other lookup changes |
| `Dirs.FindClear` | sysfile.c:224-227 | a cleared entry's name is gone and no other lookup changes |
| `Dirs.NewEntryKeeps` | sysfile.c:122-163 | one more link and one more entry keep every link count equal to the number of entries naming the inode, and names unique |
| `Dirs.NewDirKeeps` | sysfile.c:262-283 | a new directory with its dots keeps all counts right, the parent's included |
| `Dirs.OnlyName` | sysfile.c:217-222 | an empty directory is named by one entry and by nothing else |
| `Dirs.UnlinkFileKeeps` | sysfile.c:224-236 | clearing a file's entry and lowering its count keeps all counts right |
| `Dirs.UnlinkDirKeeps` | sysfile.c:224-236 | removing an empty directory leaves it with no links, its parent still linked, and all counts right |
| `Dirs.FreeKeeps` | fs.c:316-335 | freeing an inode without links leaves no entry naming it |
| `Dirs.EntryKeepsIff` | sysfile.c:122-163 | a new name for a file, new or not, keeps the counts right if and only if its directory is itself still linked |
| `Dirs.MkdirKeepsIff` | sysfile.c:262-283 | so does a new directory: in a removed one it makes a live directory that nothing names |
| `Dirs.RemovedThenUsed` | sysfile.c:182-288 | from any sound tree: make a directory, remove it, and create in it; the tree is sound up to the last step and not after it |
| `Dirents.DecodeEncode` | fs.c:551-552 | an entry's sixteen bytes read back as the entry |
| `Dirents.RecordAt` | fs.c:509-512 | the record read at an entry's offset is that entry's |
| `Dirents.RecordWritten` | fs.c:542-555 | writing a record in place or at the end of the directory's file is putting one entry, for every directory and place |
| `Dirents.RecordCleared` | sysfile.c:224-227 | sixteen zeros over a record clear that entry and leave the others |
| `FileTree.Tree.DirLookup` | fs.c:501-527 | finds the first entry whose name agrees in the first 14 characters |
| `FileTree.Tree.DirLink` | fs.c:530-558 | fails exactly if the lookup finds the name, succeeds exactly if it does not and the entry fits the largest file and its blocks the disk, and panics otherwise; it fills the first unused place |
| `FileTree.NeededIs` | fs.c:353-381 | a place inside the directory's file needs no block; one at its end needs a block when the last one is full, and two at the 385th entry |
| `FileTree.Tree.IsDirEmpty` | sysfile.c:166-179 | true exactly if nothing but the dots is in use |
| `FileTree.Tree.Link` | sysfile.c:113-163 | succeeds exactly for a non-directory, a parent without the name, and room; the name then finds the inode, no other lookup and no other inode changes; a failed link leaves everything, the count included, as it was; counts stay right if and only if the directory is still linked |
| `FileTree.Tree.Unlink` | sysfile.c:182-241 | succeeds exactly for a name that is found, not a dot, and not a directory with entries past the dots; the name is then gone and no other lookup and no other inode changes; whatever inode is found has a link, so the nlink panic is out of reach |
| `FileTree.Tree.Create` | sysfile.c:243-288 | an existing inode is returned exactly if a plain file is asked for and the name finds one, and it is that one; any other name that finds an inode in use is an error; a new name finds the new inode and nothing else changes; counts stay right if and only if the directory is still linked; a linked directory gives no panic unless it or the disk is full |
| `FileTree.Tree.Put` | fs.c:316-335 | the last reference, and only that, to an inode without links frees it |
| `FileTree.Tree.constructor` | mkfs.c:113-124 | a root directory that is its own parent satisfies the invariant |
| `ProcTable.Wakeup1` | proc.c:452-460 | exactly the sleepers on the channel become runnable, and nothing else changes |
| `ProcTable.ExitTable` | proc.c:251-265 | slot by slot: children go to init, whoever waits as the parent, or as init for an inherited child that has exited, is runnable, the process is a zombie, and nothing else changes |
| `ProcTable.ScanFinds` | proc.c:280-301 | the scan of wait finds the first exited child if there is one, and otherwise tells whether there is a child |
| `ProcTable.WaitScan` | proc.c:280-303 | reaps the first exited child exactly if there is one, gives up exactly if there is no child, and no other slot changes |
| `ProcTable.Kill` | proc.c:472-489 | the first slot with the pid is marked and is not asleep afterwards, no other slot changes; succeeds exactly if there is one |
| `ProcTable.FindUnused` | proc.c:75-84 | the first unused slot, if there is one |
| `ProcInv.AcquireKeeps` | spinlock.c:22-41 | taking a spin lock keeps the invariant, interrupt state and lock count included |
| `ProcInv.ReleaseKeeps` | spinlock.c:44-65 | releasing keeps the invariant and never panics: the releasing CPU is the holder, interrupts are off and the count is positive |
| `ProcInv.PreemptKeeps` | trap.c:100-105 | a timer tick at any point where no spin lock is held, the middle of fork included, keeps the invariant; the process goes back there after its yield |
| `ProcInv.SchedKeeps` | proc.c:362-381 | entering sched keeps the invariant and meets none of its four panics |
| `ProcInv.SPickKeeps` | proc.c:331-341 | choosing a process keeps the invariant: no other CPU has it |
| `ProcInv.SSwitchKeeps` | proc.c:336-343 | switching to it keeps the invariant: ptable.lock passes to the process with the CPU |
| `ProcInv.SClearKeeps` | proc.c:346-348 | clearing `c->proc` keeps the invariant: the process is then on no CPU |
| `ProcInv.SReleaseKeeps` | proc.c:350 | the scheduler's release keeps the invariant and finds its own CPU as holder |
| `ProcSteps.AcqSleepKeeps` | sleeplock.c:20-28 | going to sleep on a sleep lock keeps every sleeper guarded |
| `ProcSteps.RelWakeKeeps` | sleeplock.c:30-36 | waking the sleepers of an unlocked sleep lock leaves none behind, not even one about to sleep |
| `ProcSteps.WaitBodyKeeps` | proc.c:272-311 | reaping, giving up and going to sleep keep the invariant |
| `ProcSteps.ExitBodyKeeps` | proc.c:227-268 | exit keeps the invariant: nobody sleeps in wait with an exited child, init and inherited zombies included |
| `ProcSteps.KillBodyKeeps` | proc.c:472-489 | kill keeps the invariant |
| `ProcSteps.ForkAllocKeeps` | proc.c:68-82 | taking a slot keeps the invariant: no other fork is filling it |
| `ProcSteps.ForkFailKeeps` | proc.c:191-196 | giving a slot back keeps the invariant |
| `ProcSteps.ForkParentKeeps` | proc.c:197-198 | setting the parent of a slot that is being filled keeps the invariant |
| `ProcSteps.ForkGoKeeps` | proc.c:215-219 | the child becomes runnable with a live parent |
| `ProcSteps.StepKeeps` | proc.c:180-489 | every step of every CPU keeps the invariant, and it panics if and only if it is exit by init or giving up a sleep lock that is not held |
| `ProcRuns.NoPanic` | proc.c:227-381 | in every run a step panics if and only if it is exit by init or giving up a sleep lock that is not held; release, popcli and sched never do, and no exited process runs again |
| `ProcRuns.NoSelfDeadlock` | spinlock.c:22-26 | no run lets a CPU acquire a spin lock it holds |
| `ProcRuns.NcliCountsLocks` | spinlock.c:99-120 | in every reachable state a CPU's ncli is the number of spin locks it holds, and its interrupts are off while it holds one |
| `ProcRuns.OneCpuPerProcess` | proc.c:320-381 | in every reachable state a process is current on at most one CPU, on exactly one if it is running, and while ptable.lock is free on none unless it is running |
| `ProcRuns.WaitLosesNoWakeup` | proc.c:227-311 | in no reachable state does a parent sleep in wait while a child, its own or inherited, has exited |
| `ProcRuns.SleepLockLosesNoWakeup` | sleeplock.c:20-36 | in every reachable state whoever sleeps on a sleep lock finds it locked or its releaser about to wake the sleepers |
| `ProcRuns.EveryProcessHasAParent` | proc.c:254-262 | in every reachable state every process but init, exited or not, has a live parent other than itself |
| `ProcRuns.SleepLocksExclude` | sleeplock.c:20-36 | in every run a sleep lock that a process has locked changes only by that process unlocking it |
| `ProcLife.WaitersWait` | proc.c:272-311 | in every reachable state whoever sleeps in wait has a child that is alive, and has not been killed |
| `ProcLife.PidsUnique` | proc.c:86-87 | in every reachable state no two processes, exited or not, have the same number, and none has number 0 |
| `ProcLife.ForkMakesAChild` | proc.c:197-219 | in every run, when fork is done its child is ready to run, is the caller's child, and has a number that no other process has |
| `ProcLife.NoSlotIsLost` | proc.c:86-196 | in every reachable state a slot that is being set up is being set up by exactly one process |
| `ProcLife.KillHits` | proc.c:472-489 | in every reachable state kill marks and wakes exactly the process with the number, of all that are in use |
| `ProcLife.KillZero` | proc.c:475-484 | in every reachable state kill(0) marks a slot that nobody uses, if there is one without a number |
| `ProcLife.BornMarked` | proc.c:86-87 | a slot handed out by allocproc is marked killed if and only if it was before |
| `ProcIntr.InterruptsComeBack` | spinlock.c:99-120 | in every reachable state a CPU in a process has its interrupts on if and only if it holds no spin lock, across any switches |
| `Frames.AddTableKeeps` | vm.c:43-50 | a new empty page table keeps every frame owned once and in its place |
| `Frames.MapUserKeeps` | vm.c:58-79 | mapping a frame at a user page makes that page its one owner |
| `Frames.UnmapUserKeeps` | vm.c:268-276 | the frame of a mapped user page is owned by it, and clearing the entry frees it of its owner |
| `Frames.DisownKeeps` | vm.c:283-297 | without user pages, directory and tables can be given up together |
| `VmSteps.UnmapStep` | vm.c:268-276 | freeing a page and clearing its entry unmaps that page and changes no other page of any address space |
| `VmFill.UnfilledRestores` | vm.c:234-245 | undoing a failed growth restores every page if none in the range was mapped before |
| `VmWalk.RoundKeeps` | vm.c:268-276 | a round frees a frame that is this page's own, so neither the directory nor a table: every table stays where it was and every other page as it was |
| `VmWalk.WalkStops` | vm.c:262-277 | the walk with its jumps, each round on the memory that the one before left, stops at the first page that a walk page by page would stop at: with a panic if kfree refuses its frame, astray if the frame is not its own |
| `VmWalk.WalkRuns` | vm.c:262-277 | if no page stops it and nothing wraps, it gets to the end |
| `VmWalk.WalkGoesOn` | vm.c:262-277 | if no page stops it and it wraps, it goes on for ever |
| `VmWalk.WalkEndsIff` | vm.c:254-277 | for every directory, start and size: a call comes to an end if and only if it has nothing to do, or stays below the last page table, or has that table and stays below the last page, or a page below the size stops it |
| `VmWalk.WalkNeverEnds` | vm.c:262-277 | an empty directory and one whose last table is empty, with the sizes for which no number of rounds is enough |
| `VmWalk.KernelWalk` | vm.c:254-279 | on a directory of setupkvm every call, for any two sizes, ends well, panics or frees a frame of somebody else, as `KernelEnding` says from the two addresses |
| `VmAccess.RightsAre` | vm.c:43-50 | the rights at a page, those of its directory entry and its table entry together, are those of the table entry |
| `VmAccess.KernelRights` | vm.c:104-114 | the kernel's pages are where the layout says, text without write permission, none with user permission, and there are no others |
| `VmAccess.UserIsolation` | vm.c:33-79 | a page that a program can get at is one of its own below KERNBASE, and its frame is mapped at no other user page of any address space |
| `VmKernel.KmapsApart` | vm.c:104-114 | the kernel's mappings are aligned, in the kernel's part and do not overlap, so mappages cannot panic on them |
| `VmKernel.Unborn` | vm.c:283-297 | freeing an address space made of free frames leaves every frame with the owner it had |
| `Vm.Memory.constructor` | kalloc.c:31-48 | exactly the whole pages of the range are free, each once on the list |
| `Vm.Memory.KAlloc` | kalloc.c:78-92 | hands out a free frame, or none exactly when none is free |
| `Vm.Memory.KFree` | kalloc.c:54-73 | panics exactly on an address that is unaligned, below the end of the kernel or beyond memory; otherwise the frame is free, and no address space and no page of data changes |
| `Vm.Memory.WalkAlloc` | vm.c:33-53 | finds or makes the table for the page, under a directory entry that takes no rights away, and fails only without free frames, changing nothing |
| `Vm.Memory.MapPages` | vm.c:58-79 | the pages, user or kernel, are mapped in order to consecutive frames with the flags; it stops at the first page that is mapped already, where it panics, or where memory runs out, and leaves a prefix; it takes no more frames than the pages have tables, and runs out only if there are fewer; each page's rights are exactly those asked for; no other page or address space changes |
| `Vm.Memory.DeallocUvm` | vm.c:254-279 | unmaps exactly the pages between the sizes, as a page-by-page walk would, and frees exactly their frames; beyond KERNBASE it ends, panics or goes astray exactly as `KernelEnding` says, with the user pages before that freed |
| `Vm.Memory.AllocUvm` | vm.c:220-248 | maps pages between the sizes in which the program finds zeros and may read and write, or panics at one that was mapped, or runs out of memory and leaves none mapped there; it runs out only with too few free pages to get to the end or to a mapped page, and so panics if and only if there is one when there are enough; if none was mapped, every page of every address space is as before; frames are conserved either way |
| `Vm.Memory.FreeVm` | vm.c:283-297 | frees exactly the frames of the address space and no other, and keeps all others' pages |
| `Vm.Memory.SetupKvm` | vm.c:117-136 | the kernel's mappings with their rights and nothing else, from free frames, or everything as it was, which needs fewer than 67 free frames |
| `Vm.Memory.CopyUvm` | vm.c:313-343 | every address reads as in the source and every page has the same rights, in frames that were free, the kernel's part is as setupkvm makes it, and the source is unchanged, or everything is as it was; it runs out of memory only with too few free pages, and otherwise panics if and only if a page is not there or the size is beyond KERNBASE |
| `FreeList.InsertKeeps` | umalloc.c:24-48 | inserting a run at its place keeps the list sorted and fully coalesced and conserves units |
| `FreeList.InsertUnits` | umalloc.c:24-48 | a unit is free after an insertion exactly if it was free or belongs to the inserted run |
| `FreeList.TakeKeeps` | umalloc.c:77-87 | taking the tail of a run keeps the list sorted and coalesced and conserves units |
| `FreeList.RelinkInserts` | umalloc.c:33-46 | the pointer updates of free implement the insertion on the ring |
| `FreeList.UnlinkRemoves` | umalloc.c:78-80 | the pointer update of an exact fit removes the run from the ring |
| `FreeList.ShrinkTakes` | umalloc.c:81-85 | the split at the tail implements the taking on the ring |
| `Umalloc.UnitsSuffice` | umalloc.c:71 | the units computed in 32 bits have room for the request if and only if nbytes <= 0xFFFFFFF8, and one fewer would not |
| `Umalloc.SbrkGives` | umalloc.c:57 | whenever sbrk succeeds the process has grown by the units the header claims, if and only if their bytes fit an int |
| `Umalloc.MallocAsks` | umalloc.c:57-71 | for malloc that is so if and only if nbytes <= 0x7FFFFFF0 or nbytes > 0xFFFFFFF8 |
| `Umalloc.SbrkGivesNothing` | proc.c:157-175 | for 0xFFFFFFF8 bytes sbrk succeeds and gives nothing; for sixteen less it takes memory away |
| `Umalloc.Heap.Free` | umalloc.c:24-48 | exactly the block's units become free, the list stays circular, sorted, coalesced and apart from blocks in use; the search ends |
| `Umalloc.Heap.MoreCore` | umalloc.c:50-65 | at least 4096 new units join the free list, or nothing changes; `wild` exactly if sbrk succeeds for a byte count that does not fit an int |
| `Umalloc.Heap.Malloc` | umalloc.c:67-95 | for every request: hands out a block apart from all others, fails exactly when nothing fits and sbrk fails, and is `wild` exactly when nothing fits and sbrk succeeds for a byte count that does not fit an int; free plus used units always equal the units obtained; the search ends |
| `ShellLexer.Scanner.Next` | sh.c:254-300 | the cursor loops of gettoken compute the token, with the word or sign and the position after it |
| `ShellLexer.Scanner.Peeks` | sh.c:302-311 | the cursor ends at the next non-blank and the answer is about that character |
| `ShellLexer.WordTokens` | sh.c:284-288 | a word token is a maximal run of characters that are neither blank nor sign |
| `ShellParser.ParseRedirs` | sh.c:359-381 | the loop reads the redirections of the grammar or panics where it does |
| `ShellParser.ParseArgs` | sh.c:414-431 | the loop reads the words of the grammar, nine at most, or panics where it does |
| `ShellParser.ParseSimple` | sh.c:399-432 | reads a simple command or a block of the grammar |
| `ShellParser.ParseBlock` | sh.c:383-397 | reads a block of the grammar or panics where it does |
| `ShellParser.ParsePipe` | sh.c:348-357 | reads a pipeline of the grammar |
| `ShellParser.ParseLine` | sh.c:333-346 | reads a line of the grammar |
| `ShellParser.ParseCommand` | sh.c:318-331 | terminates on every text, with the tree of the grammar or the panic it meets |
| `ShellAccepts.AcceptsIff` | sh.c:318-432 | a text is accepted with a tree if and only if the grammar over its tokens has that tree; so no text has two trees, and nothing is left unread |
| `ShellAccepts.NothingLost` | sh.c:318-331 | in an accepted text every character that is neither blank nor sign is in a word of the tree, those words are exactly the word tokens, apart from one another, and the parentheses match |
| `ShellAccepts.ToksAscend` | sh.c:254-300 | tokens come from left to right and are not empty |
| `ShellPrinter.ParsePrinted` | sh.c:318-432 | every command tree with at most nine words a command, all of them words to the scanner, is what its printed text parses to |
| `ShellWords.LineWords` | sh.c:333-432 | every word in a parsed tree is a maximal run of word characters of the text |
| `ShellWords.NormalForm` | sh.c:318-331 | printing and reparsing any accepted line gives the same tree |
| `ShellWords.NulTerminate` | sh.c:435-479 | writes a NUL right after every word and nowhere else |
| `ShellWords.CutWords` | sh.c:435-479 | after that, the string at every word's start is exactly its token text |
| `ShellWords.ParseCmd` | sh.c:318-331 | parses the line in the buffer and leaves every word of the tree readable as a string |
| `ShellAppend.AppendIsOutput` | sh.c:366-378 | writing every `>>` of any text as `>` and a blank changes nothing about its tree, spans included, or its panic, and leaves no append token |
| `ShellAppend.AppendWitness` | sh.c:366-378 | the line `a>>b` has an append token and the tree of `a> b` |
| `Grep.HereIff` | grep.c:83-97 | matchhere succeeds if and only if the text from there on can be cut into pieces that fit the pattern's items one by one |
| `Grep.StarIff` | grep.c:100-108 | matchstar succeeds if and only if some number of the character and then the rest can be cut so |
| `Grep.Match` | grep.c:69-80 | true if and only if the pattern fits some part of the text, or its start after a caret; terminates |
| `Ring.Apart` | pipe.c:87 | counters that wrap still tell empty, full and the number in between |
| `Ring.PutKeeps` | pipe.c:95 | storing an item overwrites none that is still to be read |
| `Pipe.Pipe.Write` | pipe.c:82-100 | the bytes stored are appended in order, at most 512 are in flight, and it stops short only when the pipe is full |
| `Pipe.Pipe.ReadBytes` | pipe.c:102-122 | the bytes read are the next ones stored, as many as asked for or available; none only from an empty pipe whose writer is closed |
| `Pipe.Pipe.Close` | pipe.c:63-80 | closes one end and keeps the bytes in flight; the pipe is freed exactly when the other end is closed already |
| `Console.Console.Key` | console.c:269-305 | the ring does to the text what a plain line editor does, for every key and across counter wrap |
| `Console.Console.KillLine` | console.c:279-285 | the pending line has no newline, so the loop empties exactly it |
| `Console.KillsTheLine` | console.c:279-285 | after any keys, kill line leaves nothing pending and what was committed as it was |
| `Console.TypeThenErase` | console.c:286-303 | a typed character is at the end of the line, and either backspace takes exactly it away |
| `Console.TypedLine` | console.c:293-303 | a line typed without editing keys is committed as typed, a return as a newline |
| `Console.CommittedStays` | console.c:269-305 | no key changes what was committed before, or lets line and unread text outgrow the ring |
| `Console.Console.Intr` | console.c:269-310 | a burst of keys is the line editor applied key by key |
| `Console.Console.Read` | console.c:312-347 | all that readers ever got is a prefix of the committed text without end-of-file marks; a read ends at a newline, a mark or the count, and keeps a mark for the next read if it has bytes |
| `DrawLine.Draw` | cutinto8.c:70-96 | terminates; the pixels run from one end to the other, max(dx, dy) + 1 of them, each a neighbour of the one before and within half a pixel of the line; all values computed are ints if and only if `FitsInt` holds of the two sides |
| `DrawLine.NearestStep` | cutinto8.c:82-92 | the error term stays in the range that makes the shorter side nearest to the line |
| `DrawLine.BelowLargest` | cutinto8.c:84-86 | the error term below dy never exceeds dy - g + (dx / 2) % g, with g the greatest common divisor |
| `DrawLine.TakesLargest` | cutinto8.c:84-86 | and some round reaches exactly that value |
| `DrawLine.Limits` | cutinto8.c:73-92 | a line no wider than tall never overflows, nor one with dx + dy - 1 an int; dx = INT_MAX with dy = 2 does |

## Left out

- Port I/O, interrupt controllers, UART, boot code and assembly: hardware effects.
- The VGA code of console.c: `setpixel` adds into bytes instead of setting bits, so there is no clean property to state.
- Path resolution (`namex`, `skipelem`): operations on directories get the resolved parent and the last name.
- The inode cache's table (`iget`): an inode in memory is an object, and the operations that change it are modelled with its lock held.
- `filealloc`, `filedup`, `fileclose`: plain reference counts.
- `growproc`, `exec`, system call argument fetching, `inituvm`, `loaduvm`, `clearpteu`, `copyout`.
- The read loop of grep.c, printf and the user test programs.
- Liveness: that a sleeper is eventually run, and that `bget` eventually finds a buffer.
- `pid` wrap-around and `nlink` overflow of a 16-bit count.
- The cache of `Log` and the blocks of `Fs` are sequences, and `Bio` shows what a buffer cache makes of them; the classes are not put on top of one another. `FsCrash` joins `Fs` and the log machine through the lists of block writes, and `Dirents` ties entries to file bytes as values, while `FileTree` and `Fs` are separate classes.
- FsCrash.WriteSurvives: other operations that interleave with the write are not considered; `LogRuns` has any number of them.
- FileTree.Tree.DirLink: the free blocks of the disk are a number given to each call, and the directory's file is taken to have blocks exactly up to its size.
- ProcSteps.AcqSleepKeeps: the owner of a sleep lock is a slot of the process table rather than a pid, and `holdingsleep` is part of the caller's step, without taking the spin lock inside the sleep lock.
- ProcInv.AcquireKeeps: the spinning itself is not modelled; the step happens when the lock is free.
- ShellParser.ParseArgs: the words and redirections are collected as values and put together at the end, while the source extends the node it has already wrapped.
- Vm.Memory.DeallocUvm: nothing is said of what follows once a frame of somebody else has been freed. The kernel makes no such call.
- Umalloc.Heap.Malloc: nothing is said of what follows once memory is used that sbrk did not give; `wild` says that it comes to that.
- ProcIntr.InterruptsComeBack: interrupt handlers are not modelled; the gate that a timer tick comes through turns interrupts off, so that the yield it forces runs with them off until it returns.
- ProcRuns.NoPanic: the interrupt flag is modelled as pushcli, popcli and the scheduler use it; a timer tick may come at any point without spin locks, whatever the flag.
