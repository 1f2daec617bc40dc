# A verified model of the kernel, the emulated MMU and the ordered map

The repository holds an annotated xv6 kernel (`xv6`), an extended one (`xv7`), a RISC-V emulator
(`semu`) and a small virtual machine (`vm`). This Dafny project models the parts of them whose
correctness spans many functions and many steps, and proves what they are for. `dafny verify
dfyconfig.toml` checks everything.

| files | what they model |
|---|---|
| `LogDisk`, `LogMachine`, `LogProofs`, `LogTheorems`, `LogCode`, `LogSleep`, `LogCache` | the write-ahead log: a machine of block writes, crashes and recoveries; its invariant; crash atomicity, durability and the reservation over all runs; the code as a class whose methods are runs of the machine; the sleeps and wakeups of `begin_op` and `end_op`; the log and the buffer cache together |
| `FsBlock`, `FsOwner`, `FsUpdate`, `FsFile`, `FsFill`, `FsBudget`, `FsTrunc`, `FsWrite`, `FsCode` | the block bitmap and the inode layer: blocks as bytes, words and bits; who owns a block; file contents; which places a write fills and how many blocks it logs; the code of `fs.c` and `filewrite` |
| `BufferCache`, `ListRing` | the buffer cache on a doubly linked ring: steps, runs from the initial state, and the code as these steps |
| `Sv39`, `PageAlloc`, `VirtualMemory`, `UserMemory`, `TableFree`, `ProcTable`, `Mmu` | the page allocator, the three-level page tables in physical pages, user memory and its accounting, the table of a process, and the translation of the emulated MMU |
| `SleepLock`, `ProcTree`, `ProcProofs` | sleep and wakeup under a sleep lock; fork, exit, wait and kill, statement by statement with explicit lock holders |
| `BuddySpec`, `BuddyAlloc`, `BitVector` | the buddy allocator: a split tree, and the code over packed bit vectors and intrusive lists |
| `RbSpec`, `RbRemove`, `RbMap` | the red-black map: trees seen from a hole in them, and the code over nodes with parent pointers |
| `VirtioState`, `VirtioProofs`, `VirtioCode` | the virtio disk queue with a device that completes in any order |
| `UmallocSpec`, `UmallocProofs`, `UmallocCode` | the Kernighan and Ritchie allocator of user programs |
| `Grep` | the regular-expression matcher |
| `Common` | what several files share |

Conventions. Code that updates fields is a class whose methods carry the source's loops and
branches; concurrent code is a step system in which each statement under a lock is a step. A panic
is a precondition that callers are shown to meet, or an outcome with its exact condition (`balloc`,
`writei`, `filewrite`, `bget`, `log_write`, `uvmunmap`, `uvmdealloc`). Ghost
arguments such as the tree that a node lies in only serve the proofs. Where a proof is long it is cut
into one lemma per invariant and step.

Places where the code differs from what is written about it, or where its promise has a condition:

- `log_write` tests for room with `log.size - 1` and before it looks for absorption
  (`xv6/kernel/log.c:221`). With `mkfs`'s log area of LOGSIZE blocks the reservation of `begin_op` does
  not exclude that panic; `LogTheorems.ReservationExact` gives the exact condition, and
  `LogTheorems.AbsorbedWriteCanPanic` shows that a full log rejects even a write that adds no block.
- The comment on `uvmdealloc` says that `oldsz` may exceed the process size. The code panics in
  `uvmunmap` as soon as it reaches for a page beyond the size: `UserMemory.DeallocPanicsIff` gives the
  condition, and `ProcTable.ShrinkNewProcess` meets it with the table of a new process.
- `xv7`'s `itrunc` does not walk the tree below the double-indirect slot. `FsCode.FileSys.Itrunc` says
  when it still frees the whole file, and `FsCode.TruncLeavesBlock` leads to a file where it does not.
- With `xv7`'s double-indirect blocks a chunk of `filewrite` may log more than MAXOPBLOCKS blocks.
  `FsCode.FileSys.WriteChunk` says how many it logs, as a function of the state before it;
  `FsBudget.TenWhereverBitsLie` when ten suffice for every bitmap: exactly when the touched places, the
  missing ones and the inode make at most ten. `FsCode.ChunkExceeds` logs eleven to thirteen,
  and `FsCode.GrowAndExceed` does so from an empty file.
- `proc_pagetable` handles a failure to map the trapframe (`xv6/kernel/proc.c:194-198`). It cannot happen:
  mapping the trampoline has made the tables (`ProcTable.ProcPagetable`).
- `c_map_insert` counts a rejected duplicate in `size`. `c_map_erase` then follows a null pointer when
  it removes the only node; `RbMap.Map.Erase` states the exact condition, and
  `RbMap.DuplicateThenErase` runs into it.
- `malloc` passes a wrapped number to `sbrk` for more than 0x7fffffe0 bytes, and `firstk` does not stop
  for more than 2^63; `UmallocCode.Allocator.Malloc` and `BuddyAlloc.FirstKStops` say exactly when.
- In a pattern such as `^*` the matcher takes `*` literally, and `$` is special only as the last
  character.

## Model

| member | source | states |
|---|---|---|
| LogTheorems.CrashAtomicity | xv6/kernel/log.c:68-204 | after any run with crashes between any two block writes, also inside repeated recoveries, recovery gives exactly the effect of the durable operations, all of which had ended; between commits the home blocks are that effect |
| LogTheorems.DurabilityStep | xv6/kernel/log.c:104-115 | a header write makes the whole open group durable at once; only a crash may lose the open group; ended operations write no more |
| LogTheorems.ReadsSeeLog | xv6/kernel/log.c:206-236 | between commits a read through the cache sees every logged write that no crash lost |
| LogTheorems.ReservationExact | xv6/kernel/log.c:128-143 | over all runs: as long as no operation logs more than MAXOPBLOCKS distinct blocks a write that adds a block finds room, if and only if the log area is larger than LOGSIZE |
| LogTheorems.RoomForAddingWrite | xv6/kernel/log.c:216-236 | under the same condition such a write finds `lh.n < LOGSIZE` |
| LogTheorems.AddedAtMostWritten | xv6/kernel/log.c:216-236 | in every run an operation takes no more log entries than the distinct blocks it wrote, and all of these are in the log |
| LogTheorems.AbsorbedWriteCanPanic | xv6/kernel/log.c:221-224 | with a large enough log the only panic is a full log, and a write that would be absorbed can meet it |
| LogTheorems.LogNeverOverfull | xv6/kernel/log.c:128-143 | the header list never exceeds LOGSIZE nor the log area |
| LogProofs.StepInv | xv6/kernel/log.c:68-236 | every step of operations, commit, crash and recovery keeps the invariant |
| LogDisk.HeaderRoundTrip | xv6/kernel/log.c:88-115 | the header that write_head stores is the one that read_head loads |
| LogDisk.RecoverAt | xv6/kernel/log.c:118-124 | recovery puts into each home block its last log slot, and leaves the others |
| LogDisk.RecoversToIsRecover | xv6/kernel/log.c:118-124 | the image predicate used in the invariant is exactly what recovery does |
| LogCode.Log.BeginOp | xv6/kernel/log.c:128-143 | starts exactly when no commit runs and the reservation fits |
| LogCode.Log.LogWrite | xv6/kernel/log.c:216-236 | panics exactly when the log is full; otherwise, with absorption, one step of the machine |
| LogCode.Log.EndOp | xv6/kernel/log.c:148-176 | the last operation's commit puts every ended write home and empties the log |
| LogCode.Log.Commit | xv6/kernel/log.c:195-204 | makes the group durable and leaves an empty log |
| LogCode.Log.WriteLog | xv6/kernel/log.c:180-192 | copies the logged blocks, and the machine's state says so |
| LogCode.Log.WriteHead | xv6/kernel/log.c:104-115 | one block write, the header |
| LogCode.Log.InstallTrans | xv6/kernel/log.c:70-84 | copies the log home and unpins unless recovering |
| LogCode.Log.RecoverFromLog | xv6/kernel/log.c:118-124 | the home blocks become what recovery promises, the header is empty |
| LogSleep.NoLostWakeup | xv6/kernel/log.c:128-176 | after any run, with kills anywhere, when log.lock is free and begin_op would not have to wait, no process sleeps on the log or is past the test on the way there |
| LogSleep.IdleLogWakesAll | xv6/kernel/log.c:128-176 | when no operation is outstanding and no commit runs the log is empty and nobody waits for it |
| LogSleep.SleeperHasWaker | xv6/kernel/log.c:148-176 | whoever waits for the log has a committer, an operation that will end, or a wakeup that has not reached it |
| LogSleep.NoPanic | xv6/kernel/log.c:148-156 | end_op never finds a commit running, and one process at a time commits |
| LogSleep.StepInv | xv6/kernel/log.c:128-176 | every statement of begin_op, end_op, sleep and wakeup keeps the invariant |
| LogCache.LoggedStays | xv6/kernel/log.c:216-236 | over all runs of the log on the cache a block stays, from its log_write until install_trans reaches it, in one buffer, its only one, which holds what the clients last wrote |
| LogCache.RunAgrees | xv6/kernel/log.c:180-236 | over all these runs every valid buffer, and the disk where there is none, holds what was last written, although logged blocks go home late |
| LogCache.InstallWritesBack | xv6/kernel/log.c:70-84 | install_trans brings the clients' contents to the home block and changes nothing that they see |
| LogCache.ReleaseCareful | xv6/kernel/bio.c:118-138 | when what was modified is written or logged before its release, the last release leaves a clean buffer |
| LogCache.ReferenceThere | xv6/kernel/log.c:70-84 | brelse by a holder and bunpin of a logged block always find a reference |
| LogCache.StepGood | xv6/kernel/log.c:70-236 | every step keeps: references are holders plus at most one pin, logged blocks are cached, copies in the log are current |
| LogCode.WriteThenCrash | xv6/kernel/log.c:53-66 | from power-on through one operation, a power failure after end_op and the next boot: the written block is there, all other home blocks are as before |
| FsOwner.OwnedMeans | xv6/kernel/fs.c:64-103 | a bitmap bit is set exactly for metadata and for blocks that some place names; no block is named from two places |
| FsOwner.BlocksDistinct | xv6/kernel/fs.c:377-405 | distinct block indices of any files go to distinct disk blocks |
| FsOwner.DataPlaceInjective | xv7/kernel/fs.c:378-438 | the direct, indirect and double-indirect slots of different block indices differ |
| FsUpdate.OwnedAttached | xv6/kernel/fs.c:382-401 | taking a free block for an empty place keeps the ownership invariant |
| FsUpdate.RefAttached | xv6/kernel/fs.c:382-401 | and changes no other block number, not even below a new index block |
| FsUpdate.OwnedFreed | xv6/kernel/fs.c:90-103 | an owned block has its bit set, and freeing it keeps the invariant but for the place that named it |
| FsUpdate.OwnedCleared | xv6/kernel/fs.c:415-433 | clearing that place restores the invariant |
| FsBlock.WordOps | xv6/kernel/fs.c:393-401 | a block number stored in an index block reads back, the other entries are as before |
| BitVector.BitOps | xv7/kernel/buddy.c:39-57 | setting or clearing one packed bit leaves all others alone |
| FsCode.FileSys.Balloc | xv6/kernel/fs.c:64-86 | the lowest free block, marked and zeroed; it panics only when every bit is set |
| FsCode.FileSys.Bfree | xv6/kernel/fs.c:90-103 | the block's bit is clear, every other bit and every block outside its bitmap block are as before, and ownership holds but for the place that named the block |
| FsCode.FileSys.Bmap | xv7/kernel/fs.c:378-438 | names the block of an index, filling exactly the missing places on the way with the lowest free blocks; what was there stays, the blocks it logs are exactly the new ones, their bitmap blocks and changed index blocks, and when it panics a proper part of the places was filled |
| FsCode.FileSys.Readi | xv6/kernel/fs.c:456-477 | returns the slice of the contents clipped to the size, nothing on overflow, and changes nothing |
| FsCode.FileSys.Writei | xv6/kernel/fs.c:487-517 | rejects exactly the writes with a gap, overflow or beyond MAXFILE; otherwise splices the bytes in, leaves other files alone, keeps ownership, fills exactly the missing places and logs exactly the given blocks; it panics if and only if it is not rejected and fewer blocks are free than places are missing |
| FsCode.FileSys.Itrunc | xv6/kernel/fs.c:410-437 | frees exactly the blocks of the file's direct and indirect slots, never a free one; other files are untouched; the file names no block any more if and only if its double-indirect slot was empty |
| FsCode.FileSys.Iupdate | xv6/kernel/fs.c:222-237 | inode `f` on disk equals the one in memory and no other inode changes, so when only `f` differed disk and memory agree again |
| FsCode.TruncLeavesBlock | xv7/kernel/fs.c:446-473 | a file of xv7 that bmap led into its double-indirect range still names a block after itrunc, at size zero; where the block was mapped there is no panic |
| FsFill.FillingAttached | xv6/kernel/fs.c:64-86 | taking the lowest free block for an empty place fills this place and changes no other number and no other bit |
| FsFill.FillingTrans | xv6/kernel/fs.c:377-405 | fillings one after the other are one, of disjoint places, with the lowest free blocks |
| FsFill.FillingCount | xv6/kernel/fs.c:377-405 | what was filled got exactly the lowest free blocks, and there were enough |
| FsFill.PartlyCount | xv6/kernel/fs.c:64-86 | a filling that ran out of blocks needed more than were free |
| FsTrunc.ContentsTrimmed | xv6/kernel/fs.c:410-437 | truncation does not change another file's contents |
| FsFile.WrotePoked | xv6/kernel/fs.c:497-507 | a turn of writei's loop adds its bytes and changes no other byte of any file |
| FsFile.WriteDone | xv6/kernel/fs.c:487-517 | all turns and the new size make the splice, with all blocks below the size mapped |
| FsBudget.LogCounted | xv6/kernel/file.c:149-155 | the number of blocks that a write logs follows from the state before it: one for each place that is a data block, new, or gets a new entry, the bitmap blocks of the lowest free blocks, and the inode's block |
| FsBudget.LoggedAtMost | xv6/kernel/file.c:149-155 | it is at most these places, the missing ones and one, also where the inode's block coincides with another |
| FsBudget.TenWhereverBitsLie | xv6/kernel/file.c:149-155 | a write logs at most MAXOPBLOCKS blocks whatever the free blocks are, if and only if touched places plus missing places plus one are at most MAXOPBLOCKS |
| FsBudget.ChunkBudget | xv6/kernel/file.c:149-161 | for a chunk of filewrite at any alignment this sum is at most MAXOPBLOCKS with xv6's block map and below the double-indirect blocks, and never more than 13 |
| FsBudget.ChunkIndex | xv7/kernel/fs.c:378-438 | the index places of a chunk and those of them that may be missing are at most five, at most two below the double-indirect blocks |
| FsBudget.BeyondSingle | xv7/kernel/fs.c:378-438 | four blocks, from the last mapped one, which is the last but one of the single-indirect range, touch seven places, five of them missing |
| FsCode.ChunkExceeds | xv7/kernel/file.c:153-171 | such a chunk, with its five new blocks in at least three bitmap blocks, succeeds and logs eight blocks plus these bitmap blocks, more than MAXOPBLOCKS |
| FsCode.GrowAndExceed | xv7/kernel/file.c:153-171 | from an empty file, with enough free blocks: one write and the next chunk lead there, whenever the five blocks after the lowest ones lie in at least three bitmap blocks |
| FsCode.FileSys.WriteChunk | xv6/kernel/file.c:162-167 | one transaction of filewrite logs exactly the counted number of blocks, at most MAXOPBLOCKS with xv6's block map and at most 13 with xv7's; it panics if and only if too few blocks are free |
| FsCode.FileSys.FileWrite | xv6/kernel/file.c:136-182 | returns n if and only if the whole write is acceptable; in any case the chunks before the first rejected one are spliced in and the offset advanced by them; it panics if and only if these chunks need more blocks than are free |
| FsCode.AcceptedIs | xv6/kernel/file.c:157-175 | the chunks before the first rejected one are the whole write if it is not rejected, else as many whole chunks as fit |
| FsCode.SpliceTwice | xv6/kernel/file.c:157-175 | two adjacent writes make one |
| BufferCache.Cache.constructor | xv6/kernel/bio.c:38-54 | the ring holds all buffers once, the state is the one runs start in |
| BufferCache.Cache.Bget | xv6/kernel/bio.c:60-90 | a cached block's own buffer, else the unreferenced buffer released longest ago; panics exactly when the block is not cached and all are referenced; what clients see of any block does not change |
| BufferCache.Cache.Bread | xv6/kernel/bio.c:94-104 | the buffer is valid and holds what was last stored into the block |
| BufferCache.Cache.Bwrite | xv6/kernel/bio.c:107-113 | the disk holds the buffer's data, what clients see does not change |
| BufferCache.Cache.Brelse | xv6/kernel/bio.c:118-138 | gives up a reference; the last one moves the buffer to the front with the newest stamp, and loses nothing when the buffer is clean |
| BufferCache.Cache.Bpin | xv6/kernel/bio.c:141-145 | the buffer is in use; what clients see does not change |
| BufferCache.Cache.Bunpin | xv6/kernel/bio.c:148-152 | one reference less; loses nothing when others remain or the buffer is clean |
| BufferCache.StepGood | xv6/kernel/bio.c:60-152 | every step keeps the ring a permutation in order of release, and no block of a device other than 0 in two buffers |
| BufferCache.StepKeeps | xv6/kernel/bio.c:60-152 | no step reassigns a buffer in use, and only its holders change its data |
| BufferCache.PinnedStays | xv6/kernel/bio.c:60-152 | in any run from the initial state a buffer that stays referenced, as by a pin of the log, keeps its block and its data but for changes by its holders, is the only buffer of that block, and is what every bget of it answers |
| BufferCache.ReadsSeeWrites | xv6/kernel/bio.c:60-152 | in any run whose last releases leave clean buffers a valid buffer holds what was last stored into its block, and so does the disk where there is none |
| BufferCache.Oldest | xv6/kernel/bio.c:77-88 | the first unreferenced buffer from the end of the ring was released before all other unreferenced ones |
| ListRing.ListMem.Remove | xv7/kernel/list.c:25-28 | takes one element out of the ring, wherever it is |
| ListRing.ListMem.Push | xv7/kernel/list.c:40-47 | puts an element in front, both ways round |
| ListRing.ListMem.Pop | xv7/kernel/list.c:31-37 | takes the first element |
| Sv39.TableIs | xv6/kernel/vm.c:81-98 | a walk reaches exactly the tables of the tree |
| Sv39.AddTableTree | xv6/kernel/vm.c:86-95 | a new zeroed table below an invalid entry keeps the tree |
| Sv39.AddTableLookup | xv6/kernel/vm.c:86-95 | and no translation changes |
| Sv39.SetLeafLookup | xv6/kernel/vm.c:138-157 | writing a leaf entry changes one page number's translation only |
| Sv39.TreeFrame | xv6/kernel/vm.c:81-98 | the map depends on the table pages only |
| PageAlloc.PhysMem.Kalloc | xv6/kernel/kalloc.c:70-85 | the first free page, filled with junk, or none |
| PageAlloc.PhysMem.Kfree | xv6/kernel/kalloc.c:47-64 | the page joins the free list, only its own contents change |
| VirtualMemory.Walk | xv6/kernel/vm.c:81-98 | the place of the entry; missing tables come from the free list and no translation changes; fails only when a table is missing and may not or cannot be made |
| VirtualMemory.MapPages | xv6/kernel/vm.c:138-157 | adds exactly the requested range, or on failure a proper prefix with the allocator empty |
| UserMemory.UvmUnmap | xv6/kernel/vm.c:163-184 | panics exactly at the first page number that is not a leaf, or on an unaligned address; up to there it removes exactly its range and frees each frame once |
| UserMemory.UvmAlloc | xv6/kernel/vm.c:219-242 | grows by zeroed distinct pages, or leaves the map as it was; no page is lost |
| UserMemory.UvmDealloc | xv6/kernel/vm.c:249-260 | panics exactly when a page number between the rounded sizes is not a leaf; otherwise removes exactly these pages and returns the size the code reports |
| UserMemory.DeallocPanicsIff | xv6/kernel/vm.c:244-260 | when of the pages below `oldsz` exactly those below the process size are mapped it panics if and only if it shrinks from beyond the rounded size, and not to the same page |
| UserMemory.UvmCopy | xv6/kernel/vm.c:299-326 | equal contents and flags on fresh pages, or the child's map as before; the parent does not change and no page is lost |
| UserMemory.GrowUndone | xv6/kernel/vm.c:228-239 | undoing a partial growth restores the map, all pages accounted for |
| TableFree.FreeWalk | xv6/kernel/vm.c:265-280 | frees every table below and including the given one, once |
| TableFree.UvmFree | xv6/kernel/vm.c:285-290 | every user page and table page becomes free exactly once |
| TableFree.EmptyTree | xv6/kernel/vm.c:265-290 | without translations freewalk meets no leaf |
| ProcTable.UvmCreate | xv6/kernel/vm.c:188-197 | an empty table, or none when no page is free |
| ProcTable.ProcPagetable | xv6/kernel/proc.c:172-201 | fails if and only if fewer than three pages are free, and then loses none; otherwise exactly the trampoline and the trapframe are mapped |
| ProcTable.ProcFreepagetable | xv6/kernel/proc.c:205-211 | the tables and the user pages become free, each once, the trampoline and the trapframe do not |
| ProcTable.ShrinkNewProcess | xv6/kernel/vm.c:244-260 | the table of a new process, of size 0: shrinking it from any size below the trapframe, as the comment allows, panics if and only if a whole page is to go |
| Mmu.CpuTranslate | semu/semu.c:677-733 | succeeds exactly when the kernel's walk finds an acceptable leaf, with that leaf's page plus the offset; else the given fault |
| Mmu.SatpRoundTrip | semu/semu.c:666-675 | the root and mode that the kernel writes to satp are the ones the emulator reads |
| SleepLock.NoLostWakeup | xv6/kernel/proc.c:530-574 | after any run with kills, when the spinlock is free and the lock is not taken, nobody sleeps on it or is past the test on the way there |
| SleepLock.MutualExclusion | xv6/kernel/sleeplock.c:22-41 | at most one owner, and `locked` and `pid` name it |
| SleepLock.SleeperHasWaker | xv6/kernel/sleeplock.c:34-41 | whoever counts on a wakeup has an owner or a releaser that will give it |
| SleepLock.StepInv | xv6/kernel/sleeplock.c:22-41 | every statement keeps the invariant |
| ProcProofs.ParentsLive | xv6/kernel/proc.c:274-380 | in every reachable state a set parent pointer names a slot that sleeps or can run |
| ProcProofs.NoSleepOnZombie | xv6/kernel/proc.c:341-429 | whenever wait_lock is free nobody is parked in wait() with a ZOMBIE child |
| ProcProofs.ReapedIsDead | xv6/kernel/proc.c:385-429 | wait() frees only a child that has left the processor for good |
| ProcProofs.StepInv | xv6/kernel/proc.c:274-598 | every statement of fork, exit, wait, sleep, wakeup and kill keeps the invariant |
| BuddySpec.Partition | xv7/kernel/buddy.c:122-194 | every unit lies in exactly one free block or block in use |
| BuddySpec.Canonical | xv7/kernel/buddy.c:122-194 | bits and free sets depend on the blocks in use only |
| BuddySpec.NotBothFree | xv7/kernel/buddy.c:169-194 | two buddies are never both free |
| BuddySpec.SizeFinds | xv7/kernel/buddy.c:158-165 | the first split bit above a block's start is at the block's class |
| BuddySpec.BelowTop | xv7/kernel/buddy.c:158-165 | a block in use has a class above it, so size() reads no vector beyond the top |
| BuddySpec.MergeWF | xv7/kernel/buddy.c:176-191 | merging with a free buddy keeps the invariant |
| BuddySpec.SplitOffWF | xv7/kernel/buddy.c:143-150 | splitting keeps it |
| BuddySpec.TakeWF | xv7/kernel/buddy.c:138-142 | taking a free block keeps it |
| BuddySpec.DropWF | xv7/kernel/buddy.c:190-193 | putting a block on its list keeps it |
| BuddyAlloc.FirstK | xv7/kernel/buddy.c:97-106 | the smallest class that holds n bytes, in 64-bit arithmetic |
| BuddyAlloc.FirstKStops | xv7/kernel/buddy.c:97-106 | the loop reaches its end if and only if n is at most 2^63 |
| BuddyAlloc.Allocator.Size | xv7/kernel/buddy.c:158-165 | the class of the block in use at an address |
| BuddyAlloc.Allocator.BdMalloc | xv7/kernel/buddy.c:123-154 | fails exactly when no large enough block is free; otherwise a block of the smallest sufficient class comes into use |
| BuddyAlloc.Allocator.BdFree | xv7/kernel/buddy.c:170-194 | the block goes out of use, merged as far as possible; bits and lists agree |
| BuddyAlloc.MallocThenFree | xv7/kernel/buddy.c:122-194 | bd_free straight after bd_malloc restores all bits and free sets |
| BuddyAlloc.FreeAll | xv7/kernel/buddy.c:169-194 | blocks freed in any order leave the heap that the remaining blocks determine, with none remaining the initial one |
| BuddyAlloc.BlkIndexStart | xv7/kernel/buddy.c:110-119 | blk_index undoes addr |
| RbSpec.InsFixGood | vm/lib/c_map.c:213-258 | the repair after an insertion restores black root, no red-red edge and equal black height, and keeps the order of entries |
| RbSpec.InorderPlug | vm/lib/c_map.c:77-141 | the entries of a tree are those before, in and after any place in it |
| RbSpec.PlugRedBlack | vm/lib/c_map.c:213-258 | a tree is red-black exactly when the subtree and its surroundings fit |
| RbRemove.DelFixGood | vm/lib/c_map.c:269-362 | the repair after a removal makes the surroundings fit a subtree one black node lower, in the same order |
| RbRemove.HeightBound | vm/lib/c_map.c:213-258 | the height is at most 2 log2(n + 1) |
| RbRemove.MapInsert | vm/lib/c_map.c:439-488 | an entry between smaller and larger keys extends the map |
| RbRemove.MapRemove | vm/lib/c_map.c:579-692 | leaving one entry out removes one key |
| RbMap.Map.RotateLeft | vm/lib/c_map.c:77-102 | the pointers, parent pointers included, describe the rotated tree in its place |
| RbMap.Map.RotateRight | vm/lib/c_map.c:116-141 | likewise |
| RbMap.Map.LeftLeft | vm/lib/c_map.c:143-157 | rotation and exchange of two colours |
| RbMap.Map.LeftRight | vm/lib/c_map.c:159-176 | the double rotation of the specification |
| RbMap.Map.RightRight | vm/lib/c_map.c:178-192 | the mirror image |
| RbMap.Map.RightLeft | vm/lib/c_map.c:194-211 | the mirror image |
| RbMap.Map.FixColors | vm/lib/c_map.c:213-258 | the node structure becomes the repaired tree |
| RbMap.Map.Insert | vm/lib/c_map.c:439-488 | insert-if-absent on a finite map; order, balance and parent pointers are kept; `size` grows in both cases |
| RbMap.Map.Find | vm/lib/c_map.c:522-562 | the node of the key, null exactly when it is absent |
| RbMap.Map.DeleteFixup | vm/lib/c_map.c:269-362 | the loop leaves the repaired tree |
| RbMap.Map.Erase | vm/lib/c_map.c:579-692 | removes exactly the node's key and keeps everything else; a null pointer is followed if and only if the map has one key while `size` is not one |
| RbMap.DuplicateThenErase | vm/lib/c_map.c:439-692 | inserting a key twice and erasing it follows the null pointer |
| VirtioState.TwoRequests | xv6/kernel/virtio_disk.c:190-220 | at most two requests hold descriptors |
| VirtioState.RingsShort | xv6/kernel/virtio_disk.c:255-312 | no ring holds more than two unread entries, and 16-bit indices tell when one is empty |
| VirtioProofs.PublishGood | xv6/kernel/virtio_disk.c:204-266 | publishing a chain keeps the invariant and overwrites no unread entry |
| VirtioProofs.FetchGood | xv6/kernel/virtio_disk.c:255-262 | the device finds a published request |
| VirtioProofs.CompleteGood | xv6/kernel/virtio_disk.c:298-304 | a completion in any order keeps the invariant |
| VirtioProofs.SeeGood | xv6/kernel/virtio_disk.c:298-312 | the handler finds status 0 and the request's own buffer, which was not delivered before |
| VirtioProofs.DropGood | xv6/kernel/virtio_disk.c:276-277 | freeing the chain keeps the invariant |
| VirtioCode.DeliveredOrInFlight | xv6/kernel/virtio_disk.c:204-315 | every request made is delivered for its buffer or still in flight with the buffer busy |
| VirtioCode.FreeOrOwned | xv6/kernel/virtio_disk.c:145-201 | a descriptor is free or in exactly one chain |
| VirtioCode.Disk.AllocDesc | xv6/kernel/virtio_disk.c:145-154 | a free descriptor, or -1 exactly when there is none |
| VirtioCode.Disk.FreeChain | xv6/kernel/virtio_disk.c:174-185 | frees the three descriptors of the chain |
| VirtioCode.Disk.Alloc3Desc | xv6/kernel/virtio_disk.c:190-201 | fails exactly with fewer than three free, and then changes nothing |
| VirtioCode.Disk.Submit | xv6/kernel/virtio_disk.c:204-266 | with the device moving after each write to a descriptor, the header, the bookkeeping and the avail ring: a new request for the buffer if and only if three descriptors are free, else no change; other requests only move on |
| VirtioCode.Disk.Offer | xv6/kernel/virtio_disk.c:228-266 | the outcome is that of an undisturbed publication after all of the device's moves |
| VirtioCode.SeesFetch | xv6/kernel/virtio_disk.c:228-266 | whatever the driver has written so far for the request it is making, the device fetches the same request with the same effect |
| VirtioCode.SeesComplete | xv6/kernel/virtio_disk.c:228-266 | and completes the same requests with the same effect |
| VirtioCode.MakingDone | xv6/kernel/virtio_disk.c:256-265 | once everything is written the new index publishes exactly the request |
| VirtioCode.PublishComplete | xv6/kernel/virtio_disk.c:228-266 | a completion before and one after a whole publication have the same outcome |
| VirtioCode.PublishFetch | xv6/kernel/virtio_disk.c:228-266 | likewise for the fetching of an earlier request |
| VirtioCode.Disk.Finish | xv6/kernel/virtio_disk.c:268-277 | the request was delivered for its buffer; its chain is freed |
| VirtioCode.Disk.Intr | xv6/kernel/virtio_disk.c:283-315 | with the device moving between its turns: no completed request is left undelivered at its end, deliveries stay, requests only move on; the status panic is unreachable |
| VirtioCode.Disk.SeeNext | xv6/kernel/virtio_disk.c:298-312 | one turn delivers one request, not delivered before, for its own buffer |
| UmallocSpec.LiveApart | xv6/user/umalloc.c:24-90 | blocks in use are disjoint from each other and from the free list |
| UmallocProofs.FreeGood | xv6/user/umalloc.c:25-44 | inserting and joining keeps an address-ordered ring without adjacent blocks, and loses no unit |
| UmallocProofs.SplitSound | xv6/user/umalloc.c:77-81 | cutting the end off a block keeps the arena in order |
| UmallocProofs.UnlinkSound | xv6/user/umalloc.c:75-76 | taking an exact fit keeps it |
| UmallocProofs.GrowSound | xv6/user/umalloc.c:47-61 | new memory becomes one block, exactly its units are added |
| UmallocCode.Allocator.FindPlace | xv6/user/umalloc.c:31-33 | the search ends at the only place for the block |
| UmallocCode.Allocator.Free | xv6/user/umalloc.c:25-44 | the block leaves the live ones, units are conserved, its units are in a free block |
| UmallocCode.Allocator.MoreCore | xv6/user/umalloc.c:47-61 | the arena grows by what was asked and a large enough block is free, unless sbrk fails or its argument wraps |
| UmallocCode.Allocator.Malloc | xv6/user/umalloc.c:64-90 | the search terminates; a new block of exactly the rounded size, or null only when none fits and sbrk fails; sbrk's argument wraps exactly when none fits and the request is too large |
| UmallocCode.WrapsAbove | xv6/user/umalloc.c:53 | too large means more than 0x7fffffe0 bytes |
| Grep.Match | xv6/user/grep.c:71-80 | true exactly when a part of the text, a prefix after `^`, reaching the end before `$`, is a word of the pattern's language |
| Grep.MatchHere | xv6/user/grep.c:83-94 | the same at the beginning of the text |
| Grep.MatchStar | xv6/user/grep.c:97-104 | the same after any number of one character |
| Grep.FirstToken | xv6/user/grep.c:83-104 | a word of a pattern is a word of its first token and one of the rest |

## Left out

- LogSleep: log_write() and the commit are one step each, and disk contents are not part of it; LogMachine has them.
- LogCache: crashes, which LogMachine has; the blocks of the log itself are cached like any others, but the copies that write_log() makes are kept apart from them.
- Spinning, memory ordering and interrupt state of spinlocks; acquire and release are atomic steps.
- LogCode.Log.LogWrite: the caller is inside a transaction, so the panic "outside of trans" does not arise.
- BuddyAlloc.FirstK: only sizes up to 2^63, for which the loop stops.
- BuddyAlloc.Allocator.BdMalloc: the search for the smallest non-empty list is a loop with the same result as the source's break; spinlock and address arithmetic in bytes are replaced by units of the leaf size.
- BuddyAlloc: bd_init, bd_mark and bd_initfree. The allocator starts from a well-formed state, because bd_initfree can count a pair twice and the check at `xv7/kernel/buddy.c:349` then panics.
- VirtualMemory.MapPages: the loop counts pages, where the source advances byte addresses by PGSIZE.
- UserMemory.UvmAlloc: the loop counts pages in the same way.
- UserMemory.UvmDealloc: sizes are unbounded; the wrap of PGROUNDUP near 2^64 and of the int page count from 2^43 bytes on are not modelled.
- Mmu.CpuTranslate: the table is one that the kernel built, so the emulator's cases for superpages do not arise; device registers enter as the set of addresses that are not memory.
- ProcTree: growproc, file and inode references, the trap frame and the scheduler's choice. `kill`'s and `wakeup`'s work on one slot under its lock is one step.
- FsCode.FileSys.Readi: only kernel buffers, so a copy never fails half way.
- FsCode.FileSys.Writei: only kernel buffers likewise; a full disk is the outcome `panicked`, after which the state is not described further.
- FsCode.FileSys.Bmap: an index beyond MAXFILE, where the source panics, is a precondition that the callers meet.
- FsCode.FileSys.Iupdate: inodes are kept as a sequence, not packed into blocks; only the number of the inode's block is used.
- ialloc, iget, iput, directories, path lookup, pipes and devices.
- BufferCache.Cache.Bget: ends where the source sleeps for the buffer's lock; that the holder of a buffer is the one who locked it is not part of the cache model.
- BufferCache.Cache.Bread: other processes' steps between bget and the read are steps of BufferCache's and LogCache's machines, where Get and Load are apart, not of this method.
- RbMap.Map.Find: the predecessor that the source also stores in the iterator, and the iterators themselves; c_map_calibrate, which only maintains them, is left out of insert and erase, and c_map_clear is not modelled.
- RbMap: keys and data are integers, so copying key and data buffers is an assignment and the comparator is the integer order.
- VirtioCode.Disk.Submit: a descriptor is written in one statement, where the source sets four fields; VirtioCode.Making allows any contents in between. The sleep and retry loop around the allocation is the caller's; notification and interrupt registers have no model.
- VirtioCode.Disk.Intr: the device moves after the test of each turn; the statements of one turn are a single step.
- UmallocCode.Allocator.Malloc: what happens after sbrk was given a wrapped number; sbrk's answer is a parameter above all earlier memory.
- Grep: the buffering of input lines in grep() and the reading of files.
- Assembly, trap entry, UART, PLIC, CLINT, instruction execution of semu and the opcodes of vm: long case lists whose claims are one branch each.
