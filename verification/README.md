# Verification of xv6-riscv

A Dafny model of the hardest parts of the xv6-riscv variants in this repository, with proofs.
Check it with `dafny verify dfyconfig.toml`.

| area | files | main results |
|---|---|---|
| redo log | LogMachine, LogRuns, LogReservation, Log | crash atomicity over whole runs, for operations of any size, with crashes during recovery; reservation bound; exactly when log_write panics |
| buffer cache | BioMachine, Bio | one buffer per block, referenced buffers never recycled, bread returns the latest data exactly as long as no dirty buffer is recycled |
| files | FsLayout, Fs | block ownership; writei and readi as operations on a byte sequence |
| page tables and pages | Sv39, FreeWalk, Vm, Kalloc, Physical, CopyUser | three-level trees refine a flat map; every page has exactly one use; failed calls give back what they took |
| copy-on-write | CowMachine, Cow | refines eager copying in bytes and permissions, with the exact condition for user stores and for the kernel's own |
| sleep, wakeup, exit, wait | SleepLock, WaitExit, WaitCalls | mutual exclusion, no lost wakeup, no lost exit, no orphan, and what each wait that returns or sleeps has seen, in every interleaving |
| virtio disk | VirtioMachine, Virtio | disjoint chains, no overwritten ring entry, every completion at its own buffer |
| user-level allocator | FreeList, Umalloc | free undoes malloc; the list is determined by heap and live blocks |
| SHA-256 | Words, Sha256, Sha256Laws | streaming equals one-shot hashing; constants, bit functions, byte orders and rounds are those of FIPS 180-4 |
| grep, threads, shell | Grep, UlThread, ShellGrammar, ShellParser, ShellSyntax, ShellRoundTrip | declarative meaning of patterns; bounded waiting; the parser accepts exactly a grammar over tokens, with its trees, whatever the spacing |

How the source's concurrency and input appear: a critical section of a spinlock, one disk
write, or one visible store is one step of a state machine, and a run is any sequence of
enabled steps. What the environment decides is a parameter: the page kalloc finds, what sbrk
returns, how many bytes a read delivers, which part of a user buffer is readable, when the
machine crashes and when the device acts. Integers are unbounded except where the width
matters and is written out (16-bit ring indices, 32-bit offsets in readi and writei, 64-bit
bit counts, 32-bit hash words). Ghost owners and ghost histories record what each page, block,
descriptor or buffer is for; they do not influence the code.

Where the code does not do what one might expect, the model follows the code:

- mkfs gives the log exactly LOGSIZE blocks, so three operations within their reservations can
  reach log_write's panic with a new block (`LogReservation.SmallLogPanics`). A larger log rules
  that out for new blocks (`LogReservation.NewBlockPanicIff`), but not for a block that is
  already listed: log_write tests for a full log before it looks for absorption
  (`LogReservation.ListedPanicIff`). The exact test is `LogReservation.PanicExactly`.
- After fork(1) a store to a page that was never writable succeeds, on a private copy
  (`Cow.ReadOnlyPageDiverges`).
- copyout does not look at PTE_W: it writes through a frame that copy-on-write shares, so that
  a system call changes the other process's page too (`Cow.ForkThenCopyout`,
  `CowMachine.KernelIsolatedIff`). Agreement with eager copying holds exactly for user stores to
  writable pages, kernel stores to frames mapped once, and stores that change nothing
  (`Cow.RunSimIff`).
- A writei whose source becomes unreadable in the middle of a chunk has put the readable part
  of that chunk into a buffer that it then releases without log_write. If the buffer is kept,
  bytes beyond the count it returns are new (`FsLayout.BeyondCountIff`,
  `Fs.ShortWriteExample`); and if its block is already in the log they are committed with it
  (`LogRuns.ScribbleCounts`). Crash atomicity is stated with that in view
  (`LogRuns.CrashAtomicity`).
- A kill that comes between wait's test of p->killed and sleep's acquire of p->lock does not keep
  the process from going to sleep; it sleeps until a child exits or it is killed again
  (`WaitCalls.KillReaches`, `WaitCalls.KillMissed`).
- Round robin stops when the only live thread is the one that just yielded
  (`UlThread.StopIff`).
- With no live thread, priority mode reads the element before the thread table; the model
  does not make that read, whose value cannot matter because no thread is RUNNABLE.

## Model

| member | source | states |
|---|---|---|
| `LogMachine.DecodeEncode` | Project-2/cse536-release/xv6-riscv/kernel/log.c:86-114 | read_head recovers exactly the block numbers that write_head stored, whatever the header block held before |
| `LogMachine.StepRefines` | Project-2/cse536-release/xv6-riscv/kernel/log.c:54-235 | every step of the log and of recovery (one bwrite, one critical section, an unlogged change of a buffer, the recycling of one, or a crash) keeps the invariant and does to the abstract store what that step is allowed to do: only the header write moves durable contents, exactly the listed blocks; recycling takes a block back to what is durable and never costs a listed block its data |
| `LogRuns.RunInv` | Project-2/cse536-release/xv6-riscv/kernel/log.c:54-235 | the log's invariant (header empty while the log is written, logged blocks distinct and outside the log, log blocks' buffers equal to the disk, and all buffers during recovery) holds in every state of every run, crashes and unlogged changes included |
| `LogRuns.RunRefines` | Project-2/cse536-release/xv6-riscv/kernel/log.c:54-235 | every run is, event by event, a run of the atomic store |
| `LogRuns.CrashAtomicity` | Project-2/cse536-release/xv6-riscv/kernel/log.c:57-123 | a transaction of operations of any size, interrupted by a crash at any disk write and followed by recovery that may crash and recycle buffers any number of times, leaves the home blocks as before it, or as before with each block it logged as its buffer stood at the header write: the latter exactly when the header write had happened |
| `LogRuns.CrashAtomicWrites` | Project-2/cse536-release/xv6-riscv/kernel/log.c:57-123 | where every change of the transaction is logged, that is none of its writes or all of them in order |
| `LogRuns.ScribbleCounts` | Project-2/cse536-release/xv6-riscv/kernel/fs.c:522-525 | a change without log_write to a block already logged goes to disk with it: the outcome is the logged writes if and only if it changes nothing |
| `LogRuns.CommitIsComplete` | Project-2/cse536-release/xv6-riscv/kernel/log.c:178-203 | at the end of a commit the home blocks are as before the transaction, with each block it logged as its buffer stood at the header write; the log is empty and no operation is outstanding |
| `LogRuns.CommitIsAllWrites` | Project-2/cse536-release/xv6-riscv/kernel/log.c:178-203 | and where every change is logged, they hold every write of every operation in order |
| `LogRuns.RecoveryKeepsDurable` | Project-2/cse536-release/xv6-riscv/kernel/log.c:68-123 | no number of recovery steps, crashes and recycled buffers during recovery changes the durable contents, and memory equals the disk throughout |
| `LogRuns.PinsAndOps` | Project-2/cse536-release/xv6-riscv/kernel/log.c:146-235 | in every run committing implies no outstanding operation, and the pinned blocks are exactly the listed ones not yet installed |
| `LogReservation.ReservationBound` | Project-2/cse536-release/xv6-riscv/kernel/log.c:126-175 | in every interleaving of operations that log at most MAXOPBLOCKS new blocks each, lh.n plus the unused reservations stays within LOGSIZE |
| `LogReservation.PanicExactly` | Project-2/cse536-release/xv6-riscv/kernel/log.c:214-235 | a log_write within its operation's reservation, of a new block or of one already listed, panics if and only if the on-disk log has no room for one more block, or the block is listed in a log of LOGSIZE blocks |
| `LogReservation.NewBlockPanicIff` | Project-2/cse536-release/xv6-riscv/kernel/log.c:214-235 | for new blocks, "too big a transaction" is reachable within reservations if and only if the on-disk log has at most LOGSIZE blocks and the disk has blocks enough to fill it (Project-2 mkfs/mkfs.c:25 makes the log exactly LOGSIZE) |
| `LogReservation.ListedPanicIff` | Project-2/cse536-release/xv6-riscv/kernel/log.c:219-227 | for a block already listed, the panic is reachable within reservations for every log size, whenever the log can be filled: the capacity test comes before absorption |
| `LogReservation.SmallLogPanics` | Project-2/cse536-release/xv6-riscv/kernel/log.c:220-221 | with a log of at most LOGSIZE blocks three operations within their reservations reach the panic |
| `Log.LogDevice.BeginOp` | Project-2/cse536-release/xv6-riscv/kernel/log.c:126-142 | admission exactly when no commit runs and a full reservation fits; recorded as a run of the machine |
| `Log.LogDevice.LogWrite` | Project-2/cse536-release/xv6-riscv/kernel/log.c:214-235 | absorption: a block already listed is not listed again; a new one is listed and pinned; the panic cases |
| `Log.LogDevice.Scribble` | Project-2/cse536-release/xv6-riscv/kernel/fs.c:522-525 | a buffer changed by a running operation and released without log_write |
| `Log.LogDevice.Recycle` | Project-2/cse536-release/xv6-riscv/kernel/bio.c:75-87 | an unpinned buffer recycled: its block is what the disk holds |
| `Log.LogDevice.WriteLog` | Project-2/cse536-release/xv6-riscv/kernel/log.c:178-191 | copies each cached block to its log block, one disk write at a time |
| `Log.LogDevice.BuildHeader` | Project-2/cse536-release/xv6-riscv/kernel/log.c:102-114 | the header buffer that write_head builds is Encode of the in-memory list |
| `Log.LogDevice.InstallTrans` | Project-2/cse536-release/xv6-riscv/kernel/log.c:68-83 | copies each log block home, unpinning it unless recovering |
| `Log.LogDevice.Commit` | Project-2/cse536-release/xv6-riscv/kernel/log.c:193-203 | performs exactly the commit events in order |
| `Log.LogDevice.EndOp` | Project-2/cse536-release/xv6-riscv/kernel/log.c:146-175 | the last operation commits: afterwards the disk's home blocks are as before, with the listed blocks as memory held them before the call; what memory shows is unchanged |
| `Log.LogDevice.ReadHead` | Project-2/cse536-release/xv6-riscv/kernel/log.c:86-97 | the in-memory list becomes what the header block encodes |
| `Log.LogDevice.RecoverFromLog` | Project-2/cse536-release/xv6-riscv/kernel/log.c:116-123 | recovery leaves disk and memory equal to the replay of the log found on disk |
| `BioMachine.StepInv` | Project-2/cse536-release/xv6-riscv/kernel/bio.c:58-152 | every step of every interleaving keeps: the list a permutation of all buffers ordered by last use, at most one buffer per block of a device other than 0, refcnt equal to references plus pins, one lock holder per buffer, and every reference still on the block it asked for |
| `BioMachine.RunInv` | Project-2/cse536-release/xv6-riscv/kernel/bio.c:37-152 | that invariant in every state of every run from binit |
| `BioMachine.RecycledIdle` | Project-2/cse536-release/xv6-riscv/kernel/bio.c:75-87 | a buffer that is referenced or pinned is never recycled |
| `BioMachine.ListByDrop` | Project-2/cse536-release/xv6-riscv/kernel/bio.c:117-138 | in every run the list stands in the order in which the buffers last lost their last reference through brelse, the most recent first and the never used ones last |
| `BioMachine.RecycledOldest` | Project-2/cse536-release/xv6-riscv/kernel/bio.c:75-87 | so in every run the recycled buffer is the unused one whose last reference was dropped longest ago |
| `BioMachine.PanicIff` | Project-2/cse536-release/xv6-riscv/kernel/bio.c:66-88 | bget panics exactly when the block is not cached and every buffer is in use |
| `BioMachine.StepCoherent` | Project-2/cse536-release/xv6-riscv/kernel/bio.c:58-152 | a step keeps cache and disk in agreement with the last data given to each block if and only if it does not recycle a buffer whose data never reached the disk |
| `BioMachine.ReadsLatest` | Project-2/cse536-release/xv6-riscv/kernel/bio.c:91-103 | a buffer returned by bread holds the data last given to its block |
| `BioMachine.RunCoherent` | Project-2/cse536-release/xv6-riscv/kernel/bio.c:58-152 | over every run, agreement at all moments if and only if no step loses data |
| `BioMachine.PinnedRunsReadLatest` | Project-2/cse536-release/xv6-riscv/kernel/bio.c:91-152 | if dirty buffers stay referenced or pinned until written, every bread of every run returns the latest data |
| `BioMachine.LockedHeld` | Project-2/cse536-release/xv6-riscv/kernel/bio.c:58-138 | in every run a locked buffer is locked by one of the callers that refer to it, so a recycled one is unlocked |
| `BioMachine.FlushCleans` | Project-2/cse536-release/xv6-riscv/kernel/bio.c:105-113 | bwrite leaves its buffer clean and every other block on the disk as it was |
| `Bio.NextPrevInverse` | Project-2/cse536-release/xv6-riscv/kernel/bio.c:43-52 | next and prev are inverse on the whole cycle, the head included |
| `Bio.RingUnlink` | Project-2/cse536-release/xv6-riscv/kernel/bio.c:129-130 | unlinking a buffer leaves a cycle through the others in the same order |
| `Bio.RingPush` | Project-2/cse536-release/xv6-riscv/kernel/bio.c:131-134 | the four assignments put a buffer in front of the cycle |
| `Bio.Cache.constructor` | Project-2/cse536-release/xv6-riscv/kernel/bio.c:37-53 | binit builds the cycle of all buffers, the last one in front |
| `Bio.Cache.FindCached` | Project-2/cse536-release/xv6-riscv/kernel/bio.c:66-73 | the forward scan ends and finds the first buffer holding the block, if any |
| `Bio.Cache.FindUnused` | Project-2/cse536-release/xv6-riscv/kernel/bio.c:77-87 | the backward scan ends and finds the last unreferenced buffer, if any |
| `Bio.Cache.Bget` | Project-2/cse536-release/xv6-riscv/kernel/bio.c:58-89 | on the linked list, the critical section of bget does what the machine's step says, or panics exactly when that is not enabled |
| `Bio.Cache.AcquireBuf` | Project-2/cse536-release/xv6-riscv/kernel/bio.c:70-70 | the step Lock of the machine |
| `Bio.Cache.FillBuf` | Project-2/cse536-release/xv6-riscv/kernel/bio.c:98-101 | the step Fill: the transfer only where the buffer is not valid |
| `Bio.Cache.Bread` | Project-2/cse536-release/xv6-riscv/kernel/bio.c:91-103 | bget, the sleep-lock and the transfer in a row: a valid buffer of that block, or the panic of bget |
| `Bio.Cache.Change` | Project-2/cse536-release/xv6-riscv/kernel/bio.c:91-103 | the holder of the lock gives the block new data |
| `Bio.Cache.Bwrite` | Project-2/cse536-release/xv6-riscv/kernel/bio.c:105-113 | the disk holds the buffer's data for its block |
| `Bio.Cache.ReleaseBuf` | Project-2/cse536-release/xv6-riscv/kernel/bio.c:123-123 | the step Unlock |
| `Bio.Cache.Brelse` | Project-2/cse536-release/xv6-riscv/kernel/bio.c:117-138 | likewise brelse, with the move to the front when the count reaches 0 |
| `Bio.Cache.Bpin` | Project-2/cse536-release/xv6-riscv/kernel/bio.c:140-145 | likewise bpin |
| `Bio.Cache.Bunpin` | Project-2/cse536-release/xv6-riscv/kernel/bio.c:147-152 | likewise bunpin |
| `FsLayout.SetWordWord` | Project-2/cse536-release/xv6-riscv/kernel/fs.c:408-415 | storing one entry of an indirect block changes that entry and no other |
| `FsLayout.FlipMarkMarked` | Project-2/cse536-release/xv6-riscv/kernel/fs.c:74-77 | setting or clearing a block's bit changes that block's bit and no other |
| `FsLayout.SlotsDisjoint` | Project-2/cse536-release/xv6-riscv/kernel/fs.c:382-421 | no block is in two slots, of one inode or two, and a block in a slot has its bit set |
| `FsLayout.TakeBlock` | Project-2/cse536-release/xv6-riscv/kernel/fs.c:65-88 | marking and zeroing a free block keeps the invariant and every byte of every file |
| `FsLayout.Attach` | Project-2/cse536-release/xv6-riscv/kernel/fs.c:390-417 | putting the new zeroed block into an empty direct, indirect or listed slot keeps the invariant and every byte of every file |
| `FsLayout.StoreByte` | Project-2/cse536-release/xv6-riscv/kernel/fs.c:518-527 | writing block bn of one file changes those bytes of that file and no other byte of any file |
| `FsLayout.WroteStep` | Project-2/cse536-release/xv6-riscv/kernel/fs.c:515-527 | one turn of writei's loop extends what has been written by that chunk and changes nothing else |
| `FsLayout.Truncated` | Project-2/cse536-release/xv6-riscv/kernel/fs.c:425-453 | after itrunc the invariant holds and all other files are as they were |
| `Fs.FileSystem.Balloc` | Project-2/cse536-release/xv6-riscv/kernel/fs.c:65-88 | the lowest free block, zeroed; 0 exactly when none is free; no block changes but that one and its bitmap block, and no file's bytes change |
| `Fs.FileSystem.Bfree` | Project-2/cse536-release/xv6-riscv/kernel/fs.c:91-105 | panics exactly on a free block; otherwise clears that bit and no other; no block changes but its bitmap block |
| `Fs.FileSystem.FreeListed` | Project-2/cse536-release/xv6-riscv/kernel/fs.c:437-444 | itrunc's loop frees exactly the blocks the indirect block lists |
| `Fs.FileSystem.FillDirect` | Project-2/cse536-release/xv6-riscv/kernel/fs.c:388-404 | fills an empty slot of the inode with the block balloc returns |
| `Fs.FileSystem.FillIndirect` | Project-2/cse536-release/xv6-riscv/kernel/fs.c:407-417 | fills an empty entry of the indirect block with the block balloc returns |
| `Fs.FileSystem.Bmap` | Project-2/cse536-release/xv6-riscv/kernel/fs.c:382-421 | the block of the n-th file block across the direct/indirect boundary; 0 only when no block is free; a block already there changes nothing; no file's bytes change |
| `Fs.FileSystem.WriteChunk` | Project-2/cse536-release/xv6-riscv/kernel/fs.c:515-528 | one turn of writei's loop: the chunk is stored whole, or the turn ends because no block is free or the source is unreadable, and then stores what there is exactly when the unlogged buffer is kept |
| `Fs.FileSystem.Itrunc` | Project-2/cse536-release/xv6-riscv/kernel/fs.c:425-453 | bfree never meets a free block, and exactly the blocks of that inode become free |
| `Fs.FileSystem.Readi` | Project-2/cse536-release/xv6-riscv/kernel/fs.c:471-496 | exactly the clipped slice of the file's bytes, or 0 or -1 in the stated cases; nothing changes |
| `Fs.FileSystem.Writei` | Project-2/cse536-release/xv6-riscv/kernel/fs.c:505-539 | exactly which bytes are in the file afterwards: the count returned, or up to the end of the readable source where the copy failed and the unlogged buffer is kept; a write that copies all its data splices it in at the offset; the size becomes the larger of old size and end; other files are unchanged; short and refused writes as stated |
| `FsLayout.BeyondCountIff` | Project-2/cse536-release/xv6-riscv/kernel/fs.c:519-528 | bytes beyond the count a short write returns change if and only if the unlogged buffer is kept and the source differs there |
| `Fs.ShortWriteExample` | Project-2/cse536-release/xv6-riscv/kernel/fs.c:519-528 | a write of two bytes of which one is readable returns 0 and changes the file |
| `Fs.SpliceRead` | Project-2/cse536-release/xv6-riscv/kernel/fs.c:471-539 | reading back the written range gives what was written, and the rest of the file is what it was |
| `Sv39.WalkOwned` | Project-3/cse536-release/xv6-riscv/kernel/vm.c:89-107 | the tables a walk passes through belong to that address space at that place in its tree |
| `Sv39.SlotsDistinct` | Project-3/cse536-release/xv6-riscv/kernel/vm.c:89-107 | distinct virtual pages, of one address space or of two, never share a leaf entry |
| `Sv39.LeafOnce` | Project-3/cse536-release/xv6-riscv/kernel/vm.c:146-169 | a managed page is the leaf of at most one virtual page |
| `Sv39.LinkTranslate` | Project-3/cse536-release/xv6-riscv/kernel/vm.c:97-103 | an allocating walk changes no translation |
| `Sv39.Link` | Project-3/cse536-release/xv6-riscv/kernel/vm.c:97-103 | and keeps the partition of pages into free, tables and leaves |
| `Sv39.SetLeafTranslate` | Project-3/cse536-release/xv6-riscv/kernel/vm.c:160-163 | writing one leaf entry changes one translation |
| `Sv39.MapKeep` | Project-3/cse536-release/xv6-riscv/kernel/vm.c:160-163 | mapping a page keeps the invariant |
| `Sv39.ClearLeaf` | Project-3/cse536-release/xv6-riscv/kernel/vm.c:182-196 | clearing an entry whose page has been taken in hand keeps the invariant |
| `Sv39.GiveFree` | Project-3/cse536-release/xv6-riscv/kernel/kalloc.c:46-63 | freeing a page nothing maps keeps the invariant |
| `Sv39.TakeFree` | Project-3/cse536-release/xv6-riscv/kernel/kalloc.c:68-82 | the page kalloc takes is mapped nowhere |
| `Vm.Memory.Kalloc` | Project-3/cse536-release/xv6-riscv/kernel/kalloc.c:68-82 | takes the head of the list, or fails exactly when it is empty |
| `Vm.Memory.Kfree` | Project-3/cse536-release/xv6-riscv/kernel/kalloc.c:46-63 | puts back a page in hand |
| `Vm.Memory.Walk` | Project-3/cse536-release/xv6-riscv/kernel/vm.c:89-107 | finds or makes the leaf slot; no translation changes; fails exactly when a table is missing and cannot be made |
| `Vm.Memory.Mappages` | Project-3/cse536-release/xv6-riscv/kernel/vm.c:146-169 | maps exactly the pages of the range up to where it stops, and says why it stops |
| `Vm.Memory.Uvmunmap` | Project-3/cse536-release/xv6-riscv/kernel/vm.c:174-198 | removes exactly the mappings of the range, holes included, and frees exactly their pages; only freed pages change contents; it stops exactly where a page has no leaf slot or an entry that is no leaf |
| `Vm.Memory.Uvmdealloc` | Project-3/cse536-release/xv6-riscv/kernel/vm.c:261-273 | likewise for the pages between the two rounded sizes, with the size it returns and the exact condition for success |
| `Vm.Memory.Uvmalloc` | Project-3/cse536-release/xv6-riscv/kernel/vm.c:231-255 | maps zeroed pages of its own for the range, or on failure returns every leaf page it took and changes no translation; every page in use before keeps its contents either way |
| `Vm.Memory.Uvmcopy` | Project-3/cse536-release/xv6-riscv/kernel/vm.c:311-339 | gives the child pages of its own with the parent's flags and contents, or on failure returns every leaf page it took; every page in use before, the parent's included, keeps its contents either way |
| `Vm.Memory.ForkMemory` | Project-3/cse536-release/xv6-riscv/kernel/proc.c:290-300 | uvmcreate then uvmcopy as fork uses them: the child's pages have the parent's flags and contents, and every page in use keeps its contents |
| `Vm.Memory.Uvmcreate` | Project-3/cse536-release/xv6-riscv/kernel/vm.c:202-211 | an empty root; every other translation and the contents of every page in use unchanged |
| `Vm.Memory.Freewalk` | Project-3/cse536-release/xv6-riscv/kernel/vm.c:277-293 | frees each table of the subtree once and nothing else, without meeting a leaf; no other page changes contents |
| `Vm.Memory.Uvmfree` | Project-3/cse536-release/xv6-riscv/kernel/vm.c:297-303 | succeeds exactly when every page below the size can be unmapped; then every leaf and every table of the address space becomes free, once, no other page changes use or contents, and other address spaces translate as before |
| `FreeWalk.EntryKind` | Project-3/cse536-release/xv6-riscv/kernel/vm.c:281-290 | without mappings every valid entry points to a table of the next level: the panic is unreachable |
| `FreeWalk.PrunedTranslate` | Project-3/cse536-release/xv6-riscv/kernel/vm.c:277-293 | tearing down one tree changes no translation of another |
| `FreeWalk.PrunedInv` | Project-3/cse536-release/xv6-riscv/kernel/vm.c:277-293 | and keeps the partition of pages |
| `Kalloc.ChainKept` | Project-3/cse536-release/xv6-riscv/kernel/kalloc.c:16-24 | writes to pages that are not free leave the list threaded through the free pages intact |
| `Kalloc.ChainDetermined` | Project-3/cse536-release/xv6-riscv/kernel/kalloc.c:16-24 | memory and head determine the list |
| `Kalloc.Kmem.constructor` | Project-3/cse536-release/xv6-riscv/kernel/kalloc.c:26-31 | after kinit the list holds exactly the whole pages from end to PHYSTOP, each once |
| `Kalloc.Kmem.Kfree` | Project-3/cse536-release/xv6-riscv/kernel/kalloc.c:46-63 | pushes the page, or panics exactly on a misaligned or unmanaged address |
| `Kalloc.Kmem.Kalloc` | Project-3/cse536-release/xv6-riscv/kernel/kalloc.c:68-82 | pops the first page, which is then on the list no more; 0 exactly when empty |
| `Kalloc.Kmem.Freerange` | Project-3/cse536-release/xv6-riscv/kernel/kalloc.c:33-40 | every whole page of the range is on the list once, and nothing else is added |
| `Physical.StorePte` | Project-3/cse536-release/xv6-riscv/kernel/vm.c:160-163 | with tables, data and free list in one memory, storing an entry changes that entry of that table and no other view |
| `Physical.StoreData` | Project-3/cse536-release/xv6-riscv/kernel/vm.c:384-384 | storing into a page of data changes those bytes and no other view |
| `Physical.TakePage` | Project-3/cse536-release/xv6-riscv/kernel/kalloc.c:73-80 | kalloc unlinks the page through its own first word and fills it; no other view changes |
| `Physical.GivePage` | Project-3/cse536-release/xv6-riscv/kernel/kalloc.c:54-62 | kfree fills a page of data or an unlinked table and links it through its own first word; no other view changes |
| `Physical.MakeTable` | Project-3/cse536-release/xv6-riscv/kernel/vm.c:100-102 | a zeroed page in hand reads as an empty table; no other view changes |
| `Physical.PteRoundTrip` | Project-3/cse536-release/xv6-riscv/kernel/riscv.h:355-359 | an entry survives packing into a word |
| `CopyUser.Space.Copyout` | Project-3/cse536-release/xv6-riscv/kernel/vm.c:370-391 | writes exactly the bytes up to the first page that is not the user's, and nothing else; succeeds if and only if the whole range is accessible |
| `CopyUser.Space.Copyin` | Project-3/cse536-release/xv6-riscv/kernel/vm.c:396-416 | returns the bytes of the range, and succeeds if and only if all of it is accessible |
| `CopyUser.ReadsWhatWasWritten` | Project-3/cse536-release/xv6-riscv/kernel/vm.c:370-416 | copyin after copyout gives back the bytes |
| `CowMachine.StepInv` | Project-2/cse536-release/xv6-riscv/kernel/cow.c:95-166 | fork, loads, stores, write faults and kernel stores keep every mapped page backed and every writable page exclusive |
| `CowMachine.StoreEffect` | Project-2/cse536-release/xv6-riscv/kernel/cow.c:142-166 | a store, faulting or not, changes one byte of one page of one process; no entry loses a permission, and only the stored-to one may change, to a writable entry of the fresh page |
| `CowMachine.ForkSim` | Project-2/cse536-release/xv6-riscv/kernel/cow.c:95-140 | fork(1) gives the child what eager copying would |
| `CowMachine.ForbiddenStore` | Project-2/cse536-release/xv6-riscv/kernel/cow.c:142-166 | a store to a page the program may not write goes through after fork(1); it agrees with eager copying exactly when it changes nothing |
| `CowMachine.KernelEffect` | Project-2/cse536-release/xv6-riscv/kernel/vm.c:379-400 | a byte written by copyout appears in every page that shares the frame, and nowhere else |
| `CowMachine.KernelIsolatedIff` | Project-2/cse536-release/xv6-riscv/kernel/vm.c:379-400 | copyout leaves all other pages alone if and only if the frame is mapped once or the byte was there already |
| `CowMachine.KernelSimIff` | Project-2/cse536-release/xv6-riscv/kernel/vm.c:379-400 | and it agrees with eager copying under exactly that condition |
| `Cow.NeverSharedWritable` | Project-2/cse536-release/xv6-riscv/kernel/cow.c:95-166 | in every run no page is writable in one address space while mapped in another |
| `Cow.StepSim` | Project-2/cse536-release/xv6-riscv/kernel/cow.c:95-166 | one access keeps the two in step if and only if it is agreeable |
| `Cow.RunSimIff` | Project-2/cse536-release/xv6-riscv/kernel/cow.c:95-166 | over every run each process sees the bytes and has the permissions (apart from W) that private copies would give it, at every moment, if and only if every user store is to a page the program may write, every kernel store is to a frame mapped once, or the byte was there already |
| `Cow.PermissionsKept` | Project-2/cse536-release/xv6-riscv/kernel/cow.c:95-166 | in every run no page of any process loses or gains a flag other than W |
| `Cow.ForkedMayStore` | Project-2/cse536-release/xv6-riscv/kernel/cow.c:95-166 | after fork(1) parent and child map the same pages with the same flags, and each can store to every one of them |
| `Cow.LoadsAgree` | Project-2/cse536-release/xv6-riscv/kernel/pfault.c:145-149 | every load returns the byte a private copy would hold |
| `Cow.ReadOnlyPageDiverges` | Project-2/cse536-release/xv6-riscv/kernel/cow.c:142-166 | the concrete divergence: fork(1), then a store to a read-only page |
| `Cow.ForkThenCopyout` | Project-2/cse536-release/xv6-riscv/kernel/vm.c:379-400 | after fork(1) a byte copied out for the child appears in the parent, for every page and byte |
| `Cow.Kernel.UvmcopyCow` | Project-2/cse536-release/xv6-riscv/kernel/cow.c:95-140 | the entry-by-entry loop yields the two read-only tables |
| `Cow.Kernel.Fork` | Project-2/cse536-release/xv6-riscv/kernel/proc.c:334-369 | fork(1) performs the machine's fork step |
| `Cow.Kernel.CopyOnWrite` | Project-2/cse536-release/xv6-riscv/kernel/cow.c:142-166 | the fault handler performs the machine's fault: the page is mapped writable at a copy of its contents, with the flags it had |
| `Cow.Kernel.Store` | Project-2/cse536-release/xv6-riscv/kernel/pfault.c:145-149 | a retried store changes exactly one byte as seen by its process |
| `Cow.Kernel.CopyoutByte` | Project-2/cse536-release/xv6-riscv/kernel/vm.c:393-393 | copyout's store goes through the frame without a fault |
| `SleepLock.StepInv` | Project-2/cse536-release/xv6-riscv/kernel/sleeplock.c:21-41 | every step of every interleaving keeps the lock invariants |
| `SleepLock.MutualExclusion` | Project-2/cse536-release/xv6-riscv/kernel/sleeplock.c:21-41 | in every interleaving at most one process holds the sleep-lock, and pid names it |
| `SleepLock.NoLostWakeup` | Project-2/cse536-release/xv6-riscv/kernel/proc.c:612-660 | a process asleep on the lock has the lock held against it, or a releaser's scan yet to reach it |
| `SleepLock.QuietLockNoSleepers` | Project-2/cse536-release/xv6-riscv/kernel/sleeplock.c:21-41 | lock free and nobody inside: nobody asleep |
| `SleepLock.NoDeadlock` | Project-2/cse536-release/xv6-riscv/kernel/proc.c:612-660 | while anyone sleeps on the lock, a process on the way to the next wakeup can move: the holder of lk->lk, a process whose p->lock that holder's scan waits for, or with lk->lk free the owner of the sleep-lock |
| `SleepLock.AcquireHolds` | Project-2/cse536-release/xv6-riscv/kernel/sleeplock.c:21-30 | whoever leaves acquiresleep has held the lock, in its own name, since calling it |
| `SleepLock.SleptAndWoken` | Project-2/cse536-release/xv6-riscv/kernel/proc.c:612-684 | a process that has seen the lock held tests it again only after a releaser's wakeup has come to it, or a kill |
| `SleepLock.StepsBounded` | Project-2/cse536-release/xv6-riscv/kernel/sleeplock.c:21-41 | every call takes boundedly many steps of its own between one sleep and the next |
| `WaitExit.StepInv` | Project-2/cse536-release/xv6-riscv/kernel/proc.c:407-512 | every step of fork, exit, reparent and wait keeps the invariant |
| `WaitExit.NoLostExit` | Project-2/cse536-release/xv6-riscv/kernel/proc.c:467-512 | in every interleaving, whenever wait_lock is free no process is asleep in wait while it has a ZOMBIE child, children handed to init included |
| `WaitExit.NoLostExitWindow` | Project-2/cse536-release/xv6-riscv/kernel/proc.c:407-463 | the only window is a child handed to init whose wakeup is still under way with wait_lock held |
| `WaitCalls.ScanOutcome` | Project-2/cse536-release/xv6-riscv/kernel/proc.c:480-511 | a scan of wait goes to sleep exactly when there are children, none of them a ZOMBIE, and the caller is not killed; a ZOMBIE is freed, one and nothing else, unless its status cannot be copied out; without one nothing changes |
| `WaitCalls.WaitReturns` | Project-2/cse536-release/xv6-riscv/kernel/proc.c:467-512 | in every run a wait that returns has since its call freed one ZOMBIE child, or freed nothing because it had no child, was killed, or could not report a status |
| `WaitCalls.ScansAgain` | Project-2/cse536-release/xv6-riscv/kernel/proc.c:509-511 | a wait that has gone to sleep scans again only after an exit of a child, a child handed to init, or a kill |
| `WaitCalls.KilledAsleep` | Project-2/cse536-release/xv6-riscv/kernel/proc.c:503-511 | a process asleep in wait although killed was killed between the test of p->killed and sleep's acquire of p->lock |
| `WaitCalls.KillReaches` | Project-2/cse536-release/xv6-riscv/kernel/proc.c:665-684 | a kill leaves a waiting process on its way to sleep if and only if it comes in that window |
| `WaitCalls.KillMissed` | Project-2/cse536-release/xv6-riscv/kernel/proc.c:503-511 | and a run in which it does |
| `WaitCalls.LifeCycle` | Project-2/cse536-release/xv6-riscv/kernel/proc.c:303-512 | in every run a status changes only from UNUSED through fork, to running, to ZOMBIE by the process's own exit, to UNUSED by its parent's wait; a parent changes only by fork, by that wait, or to init by the parent's exit |
| `WaitCalls.NoOrphans` | Project-2/cse536-release/xv6-riscv/kernel/proc.c:407-512 | in every state of every run each process but init has a living parent, so each ZOMBIE has one to free it |
| `WaitCalls.ForkReturns` | Project-2/cse536-release/xv6-riscv/kernel/proc.c:303-403 | a fork that returns has turned an UNUSED slot into a running child of the caller |
| `WaitCalls.ChildrenGiven` | Project-2/cse536-release/xv6-riscv/kernel/proc.c:407-463 | while an exiting process holds wait_lock, its children become init's and no other parent changes |
| `WaitCalls.StepsBounded` | Project-2/cse536-release/xv6-riscv/kernel/proc.c:303-512 | every call takes boundedly many steps of its own between one sleep and the next |
| `WaitCalls.NoDeadlock` | Project-2/cse536-release/xv6-riscv/kernel/proc.c:407-512 | while a process is inside fork, exit or wait and not asleep, some process can take a step |
| `VirtioMachine.Alloc3Iff` | Project-2/cse536-release/xv6-riscv/kernel/virtio_disk.c:199-213 | alloc3_desc succeeds exactly when three descriptors are free |
| `VirtioMachine.FreeChainThree` | Project-2/cse536-release/xv6-riscv/kernel/virtio_disk.c:184-197 | free_chain on a request's chain ends after freeing exactly its three descriptors |
| `VirtioMachine.ChainsDisjoint` | Project-2/cse536-release/xv6-riscv/kernel/virtio_disk.c:215-292 | in-flight requests own disjoint three-descriptor chains, none of them free |
| `VirtioMachine.DeviceObeys` | Project-2/cse536-release/xv6-riscv/kernel/virtio_disk.c:235-265 | acting on the descriptors alone, the device carries out exactly the request, on its own buffer |
| `VirtioMachine.IntrWakesOwn` | Project-2/cse536-release/xv6-riscv/kernel/virtio_disk.c:294-327 | the interrupt handler never meets a bad status, and wakes the buffer of the request it reads |
| `VirtioMachine.FinishDone` | Project-2/cse536-release/xv6-riscv/kernel/virtio_disk.c:283-289 | when b->disk is 0 the request's own transfer is done, its data is in the buffer, and free_chain does not panic |
| `VirtioMachine.SeenAhead` | Project-2/cse536-release/xv6-riscv/kernel/virtio_disk.c:312-323 | the 16-bit indices tell empty from non-empty and index the rings correctly across wrap-around |
| `Virtio.RingAppend` | Project-2/cse536-release/xv6-riscv/kernel/virtio_disk.c:271-277 | a ring entry not yet consumed is never overwritten |
| `Virtio.StepInv` | Project-2/cse536-release/xv6-riscv/kernel/virtio_disk.c:156-327 | every submit, publish, device and interrupt step keeps the invariant |
| `Virtio.RunInv` | Project-2/cse536-release/xv6-riscv/kernel/virtio_disk.c:156-327 | so it holds in every state of every run |
| `Virtio.RequestKept` | Project-2/cse536-release/xv6-riscv/kernel/virtio_disk.c:215-292 | nothing but its own return ends a request or changes what it asks for |
| `Virtio.ReadGetsSector` | Project-2/cse536-release/xv6-riscv/kernel/virtio_disk.c:215-292 | in every run a virtio_disk_rw(b, op) that returns was completed by the device between call and return; after a read b holds what op's sector held at that step, and a write has put b's data on that sector |
| `Virtio.NeverStuck` | Project-2/cse536-release/xv6-riscv/kernel/virtio_disk.c:215-327 | while a request is in flight, driver or device can take a step |
| `Virtio.Interrupt` | Project-2/cse536-release/xv6-riscv/kernel/virtio_disk.c:294-327 | the handler's loop ends, across index wrap-around, having acknowledged every request reported so far and no other |
| `Virtio.Descriptors.AllocDesc` | Project-2/cse536-release/xv6-riscv/kernel/virtio_disk.c:156-166 | the lowest free descriptor, or -1 |
| `Virtio.Descriptors.FreeDesc` | Project-2/cse536-release/xv6-riscv/kernel/virtio_disk.c:169-182 | panics exactly on a bad or free index |
| `Virtio.Descriptors.Alloc3Desc` | Project-2/cse536-release/xv6-riscv/kernel/virtio_disk.c:201-213 | the three lowest free descriptors; a failed call leaves every descriptor as free as it was |
| `Virtio.Descriptors.FreeChainFrom` | Project-2/cse536-release/xv6-riscv/kernel/virtio_disk.c:185-197 | terminates on every descriptor table, and frees what FreeChain says |
| `FreeList.CoalesceSeparated` | Project-2/cse536-release/xv6-riscv/user/umalloc.c:24-44 | free keeps the list ordered, disjoint and never adjacent |
| `FreeList.CoalesceUnits` | Project-2/cse536-release/xv6-riscv/user/umalloc.c:24-44 | free adds exactly the block's units |
| `FreeList.CarveSeparated` | Project-2/cse536-release/xv6-riscv/user/umalloc.c:73-83 | malloc keeps the list ordered, disjoint and never adjacent |
| `FreeList.CarveUnits` | Project-2/cse536-release/xv6-riscv/user/umalloc.c:73-83 | malloc removes exactly the units it hands out |
| `FreeList.CarveCoalesce` | Project-2/cse536-release/xv6-riscv/user/umalloc.c:24-90 | free undoes malloc: the list is restored |
| `FreeList.Canonical` | Project-2/cse536-release/xv6-riscv/user/umalloc.c:24-44 | the free units determine the list |
| `Umalloc.FreeListDetermined` | Project-2/cse536-release/xv6-riscv/user/umalloc.c:24-90 | whatever calls led there, heap and live blocks determine the free list |
| `Umalloc.FreePartition` | Project-2/cse536-release/xv6-riscv/user/umalloc.c:24-44 | units stay partitioned into free and live when a block is freed |
| `Umalloc.MallocPartition` | Project-2/cse536-release/xv6-riscv/user/umalloc.c:63-90 | and when one is handed out: live blocks stay disjoint |
| `Umalloc.FreeChain` | Project-2/cse536-release/xv6-riscv/user/umalloc.c:32-43 | the pointer updates of free turn the ring of the old list into the ring of the new one |
| `Umalloc.Allocator.FindSlot` | Project-2/cse536-release/xv6-riscv/user/umalloc.c:30-32 | free's search ends at the block below, wherever freep starts |
| `Umalloc.Allocator.Free` | Project-2/cse536-release/xv6-riscv/user/umalloc.c:24-44 | the block's units become free; ring, order and partition are kept; every unit of every other live block keeps its contents |
| `Umalloc.Allocator.MoreCore` | Project-2/cse536-release/xv6-riscv/user/umalloc.c:46-61 | the heap grows by exactly the granted units, and a fitting block then exists |
| `Umalloc.Allocator.Search` | Project-2/cse536-release/xv6-riscv/user/umalloc.c:73-87 | one round of the loop from freep ends, with the first block that fits and the one before it, or knowing that none fits |
| `Umalloc.Allocator.Take` | Project-2/cse536-release/xv6-riscv/user/umalloc.c:74-83 | both ways of taking a block out of the list |
| `Umalloc.Allocator.Malloc` | Project-2/cse536-release/xv6-riscv/user/umalloc.c:63-90 | terminates; returns a block of enough units, disjoint from all live ones, every unit of which keeps its contents; grows the heap only when nothing fits; fails only when sbrk does |
| `Sha256.Context.Transform` | Project-1/cse536-release/xv6-riscv/bootloader/sha256.c:48-87 | the loops over m[64] and a..h compute the compression function defined by recursion |
| `Sha256.Context.Update` | Project-1/cse536-release/xv6-riscv/bootloader/sha256.c:103-116 | the message so far grows by the piece, whatever the piece's length and the buffer's fill |
| `Sha256.Context.PadBuffer` | Project-1/cse536-release/xv6-riscv/bootloader/sha256.c:122-136 | both padding cases |
| `Sha256.Context.Final` | Project-1/cse536-release/xv6-riscv/bootloader/sha256.c:118-162 | the digest of the one-shot definition for the whole message |
| `Sha256.PadShort` | Project-1/cse536-release/xv6-riscv/bootloader/sha256.c:125-129 | the padded message when the last block has room for the length |
| `Sha256.PadLong` | Project-1/cse536-release/xv6-riscv/bootloader/sha256.c:130-136 | the padded message when it takes one more block |
| `Sha256.EightBytes` | Project-1/cse536-release/xv6-riscv/bootloader/sha256.c:139-147 | the eight length bytes |
| `Sha256.HashPieces` | Project-1/cse536-release/xv6-riscv/bootloader/sha256.c:89-162 | for every way of cutting a message into pieces, init, updates and final give the one-shot hash of their concatenation |
| `Words.ChBit` | Project-1/cse536-release/xv6-riscv/bootloader/sha256.c:28-28 | CH: each bit of x chooses between y and z |
| `Words.MajBit` | Project-1/cse536-release/xv6-riscv/bootloader/sha256.c:29-29 | MAJ: the value at least two of the three bits have |
| `Words.Ep0Bit` | Project-1/cse536-release/xv6-riscv/bootloader/sha256.c:30-30 | each bit is the parity of the bits 2, 13 and 22 places up, around the word |
| `Words.Ep1Bit` | Project-1/cse536-release/xv6-riscv/bootloader/sha256.c:31-31 | likewise 6, 11 and 25 |
| `Words.Sig0Bit` | Project-1/cse536-release/xv6-riscv/bootloader/sha256.c:32-32 | likewise 7 and 18, and 3 without wrapping |
| `Words.Sig1Bit` | Project-1/cse536-release/xv6-riscv/bootloader/sha256.c:33-33 | likewise 17 and 19, and 10 without wrapping |
| `Sha256Laws.KeysAreRoots` | Project-1/cse536-release/xv6-riscv/bootloader/sha256.c:36-45 | each k[t] is the first 32 bits of the fraction of the cube root of the t-th prime |
| `Sha256Laws.StartsAreRoots` | Project-1/cse536-release/xv6-riscv/bootloader/sha256.c:89-101 | the initial state likewise, of square roots |
| `Sha256Laws.ScheduleWords` | Project-1/cse536-release/xv6-riscv/bootloader/sha256.c:52-55 | m[t] is the number its four bytes stand for, and from 16 on the sum the standard gives |
| `Sha256Laws.Registers` | Project-1/cse536-release/xv6-riscv/bootloader/sha256.c:57-77 | after t rounds the eight variables are the last four members each of two sequences A and E, defined without them |
| `Sha256Laws.Compressed` | Project-1/cse536-release/xv6-riscv/bootloader/sha256.c:79-86 | those of the last round are added to the state word by word |
| `Sha256Laws.Padded` | Project-1/cse536-release/xv6-riscv/bootloader/sha256.c:118-147 | the padded message: the message, 0x80, fewer than 64 zeros, and the length in bits as a number, in whole blocks |
| `Sha256Laws.OutputWords` | Project-1/cse536-release/xv6-riscv/bootloader/sha256.c:149-161 | the digest's bytes are the numbers of the eight words, highest byte first |
| `Grep.HoldsCons` | Project-2/cse536-release/xv6-riscv/user/grep.c:83-105 | a pattern matches exactly when its first item covers some part of the text and the rest matches after it |
| `Grep.Match` | Project-2/cse536-release/xv6-riscv/user/grep.c:71-81 | true exactly when some position satisfies the declarative meaning of literals, dot, star, leading caret and final dollar |
| `Grep.MatchHere` | Project-2/cse536-release/xv6-riscv/user/grep.c:83-95 | likewise at one position |
| `Grep.MatchStar` | Project-2/cse536-release/xv6-riscv/user/grep.c:97-105 | likewise for a starred character, with the loop's termination |
| `Grep.ReadOn` | Project-2/cse536-release/xv6-riscv/user/grep.c:16-33 | the lines selected from a stream depend only on the unfinished line carried over |
| `Grep.PrintLines` | Project-2/cse536-release/xv6-riscv/user/grep.c:20-28 | the buffer's matching lines, with the newline put back, and where the unfinished line starts |
| `Grep.GrepStream` | Project-2/cse536-release/xv6-riscv/user/grep.c:10-34 | however the reads fall, the output is the matching complete lines; input is left unread only behind a line of at least 1023 characters |
| `UlThread.StepInv` | Project-3/cse536-release/xv6-riscv/user/ulthread.c:146-277 | create, dispatch, yield and destroy keep the thread table consistent |
| `UlThread.NeverSame` | Project-3/cse536-release/xv6-riscv/user/ulthread.c:176-176 | the early stop at the end of the round-robin turn is never taken |
| `UlThread.StopIff` | Project-3/cse536-release/xv6-riscv/user/ulthread.c:151-169 | round robin stops exactly when no thread is left but the one that just yielded |
| `UlThread.WaitStep` | Project-3/cse536-release/xv6-riscv/user/ulthread.c:146-185 | a dispatch that passes a waiting thread over brings the scheduler strictly nearer to it |
| `UlThread.BoundedWaiting` | Project-3/cse536-release/xv6-riscv/user/ulthread.c:146-185 | in every run a waiting thread is dispatched within its cyclic distance, at most 99, of further dispatches, whatever is created, yielded or destroyed meanwhile |
| `UlThread.WaitingKeepsGoing` | Project-3/cse536-release/xv6-riscv/user/ulthread.c:166-169 | and the scheduler does not stop while one waits |
| `UlThread.ThreadLife` | Project-3/cse536-release/xv6-riscv/user/ulthread.c:39-277 | in every run a step does to each thread only what create, dispatch, its own yield and its own destroy allow, and a dispatch leaves every live thread runnable |
| `UlThread.YieldedWaits` | Project-3/cse536-release/xv6-riscv/user/ulthread.c:177-182 | in every run a yield is followed by a dispatch, after which the thread that yielded waits for its turn |
| `UlThread.Scheduler.CreateThread` | Project-3/cse536-release/xv6-riscv/user/ulthread.c:39-79 | the lowest free slot |
| `UlThread.Scheduler.ScheduleRoundRobin` | Project-3/cse536-release/xv6-riscv/user/ulthread.c:146-185 | one turn does the machine's dispatch, or stops exactly when it is not enabled; the table changes only in that the thread that yielded is runnable again |
| `UlThread.Scheduler.SchedulePriority` | Project-3/cse536-release/xv6-riscv/user/ulthread.c:186-243 | the thread chosen has maximal priority among the runnable ones, or among all that yielded when none is; it gives up only when all threads 1..99 are FREE |
| `UlThread.Scheduler.YieldThread` | Project-3/cse536-release/xv6-riscv/user/ulthread.c:250-256 | the machine's yield step |
| `UlThread.Scheduler.DestroyThread` | Project-3/cse536-release/xv6-riscv/user/ulthread.c:259-277 | the machine's destroy step; nothing for the main thread |
| `UlThread.Scheduler.Greatest` | Project-3/cse536-release/xv6-riscv/user/ulthread.c:218-223 | the scan ends on a runnable thread of greatest priority |
| `ShellGrammar.Parse` | Project-2/cse536-release/xv6-riscv/user/sh.c:328-343 | parsing ends on every line, and every token of the tree is a whole word of the line |
| `ShellParser.Parser.Next` | Project-2/cse536-release/xv6-riscv/user/sh.c:266-309 | gettoken's loops give the token function's result and cursor |
| `ShellParser.Parser.ParseRedirs` | Project-2/cse536-release/xv6-riscv/user/sh.c:375-398 | parseredirs agrees with the grammar's function |
| `ShellParser.Parser.ParseLine` | Project-2/cse536-release/xv6-riscv/user/sh.c:345-360 | parseline likewise |
| `ShellParser.Parser.ParsePipe` | Project-2/cse536-release/xv6-riscv/user/sh.c:362-373 | parsepipe likewise |
| `ShellParser.Parser.ParseExec` | Project-2/cse536-release/xv6-riscv/user/sh.c:416-447 | parseexec likewise |
| `ShellParser.Parser.ParseArgs` | Project-2/cse536-release/xv6-riscv/user/sh.c:430-446 | its argument loop, with the limit of nine |
| `ShellParser.Parser.ParseBlock` | Project-2/cse536-release/xv6-riscv/user/sh.c:400-414 | parseblock likewise |
| `ShellParser.Parser.ParseCmd` | Project-2/cse536-release/xv6-riscv/user/sh.c:328-340 | parsecmd likewise, leftovers included |
| `ShellSyntax.ScriptParse` | Project-2/cse536-release/xv6-riscv/user/sh.c:345-447 | a line of the grammar, its tokens standing anywhere before the end or a closing parenthesis, parses to its tree: a simple command, words and redirections in any order, to its words in order under its redirections in order; pipelines, "&" and ";" without parentheses |
| `ShellSyntax.AcceptsExactly` | Project-2/cse536-release/xv6-riscv/user/sh.c:328-447 | for every line: it parses if and only if its tokens are those of a line of the grammar, and then to that line's tree |
| `ShellRoundTrip.LexWritten` | Project-2/cse536-release/xv6-riscv/user/sh.c:256-309 | tokens written with any white space between them (needed only where two would run together) are read back as those tokens |
| `ShellRoundTrip.WrittenParses` | Project-2/cse536-release/xv6-riscv/user/sh.c:328-447 | so a line of the grammar written with any spacing parses to its tree |
| `ShellRoundTrip.AnySpacing` | Project-2/cse536-release/xv6-riscv/user/sh.c:256-343 | other spacing of the same tokens gives the same tree, or the same syntax panic |
| `ShellRoundTrip.RoundTrip` | Project-2/cse536-release/xv6-riscv/user/sh.c:328-447 | every tree with at most nine arguments per command can be written: parsing its parenthesised rendering gives it back |
| `ShellRoundTrip.TokenReadsBack` | Project-2/cse536-release/xv6-riscv/user/sh.c:449-494 | no terminator lands inside another token: each reads back as its own text |
| `ShellRoundTrip.NulTerminate` | Project-2/cse536-release/xv6-riscv/user/sh.c:449-494 | a terminator behind every token and no other change |
| `ShellRoundTrip.ParseCommand` | Project-2/cse536-release/xv6-riscv/user/sh.c:328-343 | on a NUL-terminated line: the grammar's tree, and every argument and file name a C string in the buffer |

## Left out

- Copy-on-write group bookkeeping (add_shmem, is_shmem, counts) and freeing of shared pages: the bookkeeping is keyed to the current process and reset by every exec, and its page array is bounded at 100 entries without a check.
- Page swapping in kernel/pfault.c: eviction writes one block four times where retrieval reads four, so there is no round trip to prove.
- Trap-and-emulate of Project-4: its read and write register tables disagree.
- FCFS scheduling in user/ulthread.c: the creation time it compares is never set.
- Umalloc.Allocator.MoreCore: does not model the truncation of nu * sizeof(Header) to sbrk's int argument, which matters from 2^31 bytes on.
- Umalloc.Allocator.Malloc: sbrk is a parameter; addresses count Header units, so alignment is not modelled.
- Vm.Memory.Uvmcopy: the size is given in pages, and a missing source page is a precondition where the code panics.
- Vm.Memory.Kalloc: the list is a sequence there; how it is threaded through the pages is Kalloc.Kmem.
- Kalloc.Kmem.Kfree: freeing a page twice is excluded; the code does not detect it.
- Fs.FileSystem.Bmap: one device; block contents are those bread and log_write present, so the log and the cache are not repeated there.
- Fs.FileSystem.Writei: iupdate is a copy of the inode, not its layout in an inode block; whether an unlogged buffer outlives the call is one parameter, so a read that sees its bytes before the buffer is recycled is not modelled.
- Bio.Cache.Bget: the model covers the critical section of bcache.lock; the wait for the buffer's sleep-lock is the step Lock of BioMachine.
- Virtio.StepInv: descriptor addresses are symbolic, and the device transfers a block and reports it in one step.
- Grep.GrepStream: input containing NUL characters, which end C strings early.
- UlThread.Scheduler.CreateThread: a full table, where the code overwrites slot 0.
- UlThread.BoundedWaiting: bounded waiting, not completion; one ulthread_schedule call after ulthread_init.
- ShellParser.Parser.ParseCmd: a syntax panic is a result value, and the printed message is not modelled.
- Sha256.Context.Update: pieces of 2^32 bytes or more, on which the 32-bit counter never reaches the length.
- Sleep-lock and exit/wait models have one lock and one table each; memory ordering is sequentially consistent.
- Directories and paths would need a model of directory contents as files of fixed-size entries and of inode reference counts; pipes and file descriptors a second use of sleep and wakeup over a ring buffer; exec an ELF reader over the calls of Vm; system-call plumbing the register conventions.
- Bootloader loading and PMP set-up, UART, PLIC, console, printf, trap entry, context switch, mkfs: device and register set-up.
