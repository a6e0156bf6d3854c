# Cyanurus in Dafny

A Dafny model of the hardware-free parts of the Cyanurus kernel and proofs of what
they keep, over every input and every run.

| module | what it models |
|---|---|
| `Collections` | lists without repetition, set sizes, optional values |
| `Pages`, `Heap`, `Buddy` | the buddy page allocator: the heap as a value, the page descriptors and list heads updated in place |
| `Slab` | object caches over the buddy allocator |
| `Blocks`, `BlockCache` | blocks, words and bits; the card behind its write-through block cache |
| `Bitmap`, `Layout`, `ZoneTree`, `Volume`, `Growth`, `Content`, `Inode` | the MINIX v3 file store: bitmaps, inode table, zone trees, and files as byte sequences, all read and written through the block cache |
| `Image` | the same store as the bytes of the card: where inodes, zone numbers, bits and file contents lie |
| `Session` | runs of file operations against a store of byte sequences without a disk |
| `Pipe` | the ring buffer and its two wait queues |
| `Scheduler` | run queue, wait queues, rounds |
| `Descriptors` | descriptor tables, open files and pipe ends with their counts |
| `Wakeups`, `PipeTable`, `Effects`, `Machine` | the three above as one system: what each system call does to the descriptors, the pipes, the states of all processes and the run queue, and runs of such calls |
| `Runs` | two runs of three processes from the start of the system to a halt of all of them |
| `SignalSet`, `Signals` | signal sets in two words, frames on the user stack, masks |
| `PageTable`, `Mmu` | two-level translation tables and the address spaces made of them |
| `Printf` | `vsnprintf` |
| `Argv` | arguments and environment on a new program's stack |
| `Path` | `dirname`, `basename` and the path walk |

State the kernel updates in place is a class with a `Valid()` invariant that every
method keeps. The hard reasoning is in lemmas about values, which the methods call.

## What holds

- **Buddy allocator.** In every reachable state the free and the live blocks tile the pages,
  each free block is on the one list of its order, the flags say which blocks are free, and no
  two free buddies are left unmerged. So the live blocks alone determine the heap
  (`Heap.CanonicalFreeSet`), and freeing everything gives back the heap of `buddy_init`.
- **Slabs.** Free chains are acyclic and visit exactly the free slots, live objects are inside
  their slab and disjoint, and `slab_cache_free` finds the right header. An allocation fails
  exactly when a slab is needed and no free block is large enough. A cache uses the least slab order
  that holds eight objects.
- **Files.** The zone tree of a file refines a stack of zones, and the stack refines a byte
  sequence. Where all of it lies on the card is stated in bytes, as the MINIX format has it
  (`Image.NodeOnDisk`, `Image.WalkOnDisk`, `Image.FileOnDisk`, `Image.MapsOnDisk`). Creating, writing, truncating, reading and destroying a file do to the byte
  sequence what they should, leave every other file alone and lose no zone and no inode, over a
  card that is only reached through the block cache. From a volume whose free zones read as zeros
  every growing run, on any files, keeps them so and refines a store of byte sequences, free inodes
  and a number of free zones: it goes on exactly as long as the operations apply there, and shows
  in the end what they make of it (`Session.Run`). A file made, written, read and destroyed gives
  back its data and leaves the volume as it was (`Session.Lifetime`).
- **Pipes, scheduling, descriptors.** Bytes sent are bytes received followed by the contents of
  the ring; two single ends never sleep together; a ready process runs before the second round
  after begins; counts are the numbers of descriptors that refer to an object.
- **The joined system.** Every step of a run is one of the relations of `Effects`: a fork makes one
  ready process with the descriptors of its parent, an exit leaves a dead one without any, and after
  every change of descriptors a pipe is there exactly while somebody holds an end of it, counts its
  holders, and exactly those sleepers are ready who wait for an end that nobody holds
  (`Machine.System.Follow`). A step halts exactly when a process reads nothing from a full pipe.
  After any run of system calls by any processes, a process inside a read
  or a write of a pipe is blocked exactly while it is on that pipe's queue for that end, the pipe's
  counts are the numbers of open descriptors of living processes, and a pipe somebody sleeps on is
  neither freed nor closed at the other end (`Machine.System.NobodyAbandoned`). A pipe is stuck when
  writers sleep on an empty ring, readers on a full one, or both ends sleep, and nobody woken from
  it is about to go on. Along every run that starts with none stuck, none ever is if and only if no
  process goes on inside a write of no bytes while it is the only one awake at its end and others
  sleep there on an empty pipe (`Machine.FlowsThroughout`); `Runs.EmptyWriteStalls` is a run that
  gets there. While no pipe is stuck and no process can run, no pipe has sleepers on both ends, sleeping writers have
  bytes in the pipe to be read and sleeping readers have room to be written to
  (`Machine.System.IdleMeansWaiting`). A pipe that one process at most holds at each end has nobody
  asleep who could go on (`Machine.SoloThroughout`), and along every run whoever is ready runs before
  the second round after begins (`Scheduler.RunIsFair`).
- **Signals.** However deeply handlers nest, returning restores the context and the mask.
- **Address spaces.** After `mmu_alloc` every address of the range, up to the end of the page of its
  last byte, leads into a fresh frame and every other address where it led before. User code of one process reaches frames no other process reaches and no
  page that holds a table, and no store by user code changes a translation. A new space maps the
  kernel's ranges, the vectors and what was asked for, and nothing else. The kernel halts for want
  of memory exactly when the pages the call needs are not there.
- **`vsnprintf`.** The state machine computes what a grammar of formats says; the length does not
  depend on the size; nothing is written past the size. Any directive in any format leaves what its
  letter means: the shortest decimal or hexadecimal digits of the argument, filled up to the width,
  that read back as the argument, the string, the character or the percent sign
  (`Printf.DirectiveMeans`).
- **Program start.** `__cstart` finds the argument count, the arguments and the environment.
- **Paths.** Looking up a path is looking up its base name in its directory part.

## What the code relies on

These are preconditions of the members named; the code does not establish them.

- A zone that becomes an index block reads as zeros. `extend_zone` does not clear it.
  `ZoneTree.PushKeepsFile` shows that the file stays right if and only if it does; `Growth.Clean`
  is the condition on a whole growth, `Growth.ZeroedIsClean` shows that zeroed free zones meet it, and
  `Session.Step` that creating and growing files keeps them zeroed. Shrinking or destroying a file
  gives back zones that are not cleared.
- A file can be grown by `inode_truncate` if and only if the free zones suffice and every
  block of the new part can be looked up through the inode that is still on disk
  (`Content.Extendable`, a condition on the old and the new block number). An empty file, for
  one, cannot be grown past its first block (`Inode.EmptyFileStuck`). `inode_write` from at most the end of the file always
  meets the second condition, so it needs free zones only.
- Bit 0 of each bitmap is set, and zone numbers and block numbers fit 16 bits.
- `pipe_read` halts on its SYSTEM_BUG_ON if and only if it is asked for nothing and the pipe is full.
- `process_wake` wakes the sleeper that came last, and a woken process may leave without passing
  the wakeup on. `Runs.ShortReadStrands` leaves a reader asleep beside a byte it could read, and
  `Runs.EmptyWriteStalls` a reader and a writer asleep on an empty pipe, with no process to run.
- Signal 64 passes the range checks, but `actions` has 64 entries and is indexed by the signal. It
  may become pending; `Signals.Task.Dispatch` relies on its not being the least due signal and
  `Signals.Task.SigAction` on its not being asked for.
- `%d` is not given the least `int`, and field widths fit an `int`; `Printf.Expand` calls any
  other format undefined.
- `mmu_destroy` is called for a process that has a space: the loop that looks for it never ends
  with NULL, so the error return after it is not reached.
- Where the kernel halts because memory has run out, the model returns, says exactly when that
  is, and promises no more.

## Model

| member | source | states |
|---|---|---|
| Pages.BuddyProperties | src/kernel/buddy.c:28-34 | the buddy of a block is in range and aligned, is mutual, and the lower of the two is the aligned block of the next order that covers both |
| Heap.TilesExactly | src/kernel/buddy.c:83-207 | every page lies in exactly one block |
| Heap.SplitKeepsTiling | src/kernel/buddy.c:128-139 | cutting a block into its two halves keeps the pages tiled by aligned blocks |
| Heap.MergeKeepsTiling | src/kernel/buddy.c:186-204 | joining two buddies keeps the pages tiled by aligned blocks |
| Heap.FreeRegionIsOneBlock | src/kernel/buddy.c:173-207 | when no two free buddies are left, an aligned region without a live page lies inside a single free block |
| Heap.CanonicalFreeSet | src/kernel/buddy.c:83-207 | two heaps with the same live blocks are equal, whatever allocations and frees led to them |
| Heap.InitialTiled | src/kernel/buddy.c:83-108 | the first heap is tiled by maximal free blocks and nothing is live |
| Heap.AllFreedIsInitial | src/kernel/buddy.c:173-207 | once every block is freed the heap is again the one `buddy_init` built |
| Buddy.UnlinkKeeps | src/kernel/buddy.c:36-77 | taking any entry off a free list keeps all chains, flags and orders right and takes exactly that block out of the free ones |
| Buddy.LinkKeeps | src/kernel/buddy.c:48-57 | pushing a block whose buddy is not free keeps all chains, flags and orders right and leaves no two free buddies |
| Buddy.CutKeeps | src/kernel/buddy.c:128-139 | overwriting a list head while splitting loses no block, because that list is empty and the split head has no successor |
| Buddy.MergeKeeps | src/kernel/buddy.c:186-204 | two blocks off all lists become one of the next order with every descriptor right |
| Buddy.AllocatedWasFree | src/kernel/buddy.c:144-171 | the pages of a block handed out were all free before |
| Buddy.Allocator.constructor | src/kernel/buddy.c:83-108 | the lists, flags and orders of the first heap, all free in maximal blocks |
| Buddy.Allocator.Pop | src/kernel/buddy.c:36-46 | takes a free block of the order off its list, or says there is none |
| Buddy.Allocator.Push | src/kernel/buddy.c:48-57 | makes the block free and nothing else |
| Buddy.Allocator.Remove | src/kernel/buddy.c:59-77 | takes exactly the block with that index off the list if it is there; no descriptor off that list changes |
| Buddy.Allocator.PullBlock | src/kernel/buddy.c:110-142 | cuts a larger block down to the order asked for, all invariants kept; fails exactly when no larger block is free |
| Buddy.Allocator.Alloc | src/kernel/buddy.c:144-171 | hands out a block of the least order that fits, not live before, and changes no other live block; fails if and only if no free block is large enough |
| Buddy.Allocator.Free | src/kernel/buddy.c:173-207 | exactly that block stops being live, and all buddies are merged again |
| Buddy.Allocator.FreeBlock | src/kernel/buddy.c:173-207 | the recursion ends and leaves no two free buddies at any order |
| Buddy.Allocator.FindHead | src/kernel/page.c:42-54 | for any page of a live block, the head of that block; NULL exactly when there is no live head at or below |
| Slab.AtLeastEight | src/kernel/slab.c:99-106 | an object within the limit of an order fits at least eight times behind header and free array, and an object of whole words that fits eight times is within the limit |
| Slab.MaxObjects | src/kernel/slab.c:49-51 | the greatest number of objects that fit behind the header, each with a word of the free array |
| Slab.ChooseOrder | src/kernel/slab.c:110-139 | the size in whole words, which wraps to 0 just below 2 to the 32, and the least order whose slabs hold eight such objects; fails exactly for no size, a long name, or if eight do not fit in the largest block |
| Slab.FullTest | src/kernel/slab.c:161-192 | the end mark at the free index is there exactly when no slot is free |
| Slab.TakeKeepsChain | src/kernel/slab.c:161-192 | taking a slot keeps the chain acyclic over exactly the free slots and adds that slot to the taken ones |
| Slab.PutKeepsChain | src/kernel/slab.c:194-229 | giving a slot back keeps the chain acyclic over exactly the free slots |
| Slab.ObjectInside | src/kernel/slab.c:49-69 | every slot lies behind header and free array and before the end of the slab, the first one right behind the free array |
| Slab.ObjectsDisjoint | src/kernel/slab.c:161-192 | distinct objects share no byte, in one slab or in two, and neighbouring slots leave no gap |
| Slab.ObjectPage | src/kernel/slab.c:194-229 | the page of an object's address belongs to the object's slab |
| Slab.Cache.constructor | src/kernel/slab.c:121-138 | an empty cache with its lists in order |
| Slab.Cache.NewSlab | src/kernel/slab.c:53-69 | a fresh slab on the partial list, the only block that becomes live; no object appears or disappears; NULL and no change if and only if no free block is large enough |
| Slab.Cache.Alloc | src/kernel/slab.c:161-192 | one more live object, not live before, at the address of its slot; full slabs are on the full list and only they; NULL if and only if no slab has a free slot and no free block is large enough; at most that one block becomes live |
| Slab.Cache.Free | src/kernel/slab.c:194-229 | exactly the object at the address stops being live, found through the head of the enclosing live block |
| Slab.Cache.Find | src/kernel/slab.c:211-219 | the walk along the full list finds the slab, so the halt for a broken slab is not reached |
| Blocks.WordRoundTrip | src/kernel/inode.c:172-340 | storing a zone number in an index block changes that entry only |
| BlockCache.Device.GetBlock | src/kernel/block.c:61-90 | the entry of that block, its buffer equal to the card's block; the card is untouched and all other entries are still right |
| BlockCache.Device.Load | src/kernel/block.c:101-104 | what the card holds, whatever is cached |
| BlockCache.Device.Save | src/kernel/block.c:106-110 | the card changes in that block alone, and every cached block still equals the card |
| BlockCache.Device.Prepare | src/kernel/block.c:41-59 | as many more free buffers as fit a page, none of them in use |
| BlockCache.Written | src/kernel/block.c:106-110 | writing a buffer and through to the card keeps every other cached block right |
| Bitmap.OneBit | src/kernel/inode.c:64-108 | setting or clearing one bit changes that bit only, across any number of blocks |
| Bitmap.UnmarkUndoesMark | src/kernel/inode.c:98-108 | clearing a bit just taken gives back the same disk |
| Bitmap.MarkMap | src/kernel/inode.c:64-96 | takes the least clear bit below the limit and sets only it; 0 and no change if and only if there is none |
| Bitmap.UnmarkMap | src/kernel/inode.c:98-108 | clears that bit only |
| Layout.NodeRoundTrip | src/kernel/inode.c:144-170 | writing one inode is read back and changes no other |
| Image.NodeOnDisk | src/kernel/inode.c:144-156 | word k of inode ix is the little-endian number at byte 64 (ix - 1) + 4 k of the inode table, which starts behind the boot block, the superblock and the two bitmaps |
| Image.NodeBytesOnly | src/kernel/inode.c:158-170 | writing an inode puts its words there and changes no other byte of the card |
| Image.WalkOnDisk | src/kernel/inode.c:342-399 | blocks 0 to 6 are named from byte 24 of the inode on, the next 1024 in order in the block named at byte 52, the rest through the block named at byte 56; 0 where an index block is missing |
| Image.FileOnDisk | src/kernel/inode.c:580-619 | the size of a file is the number at byte 8 of its inode, and byte i of the file is byte i % 4096 of the zone of block i / 4096 |
| Image.MapsOnDisk | src/kernel/inode.c:64-142 | inode ix has bit ix of the map at block 2; a zone is free exactly when it is below the limits and its bit, counted from 1 at the first data zone, is clear in the map behind that |
| ZoneTree.MappedExactly | src/kernel/inode.c:342-399 | a file with the zones for last block `last` has exactly blocks 0 to `last` mapped, each to its own zone |
| ZoneTree.PushKeepsFile | src/kernel/inode.c:172-251 | storing the next zone maps one more slot and no other, if and only if a zone that becomes an index block reads as zeros |
| ZoneTree.PopKeepsFile | src/kernel/inode.c:253-340 | clearing the last slot unmaps it and no other |
| ZoneTree.FileFrame | src/kernel/inode.c:342-399 | where a file's blocks are depends on its own index blocks only |
| Volume.MarkZone | src/kernel/inode.c:122-132 | marking a zone takes exactly it out of the free zones and touches the zone bitmap only |
| Volume.UnmarkZone | src/kernel/inode.c:134-142 | unmarking a zone adds exactly it to the free zones and touches the zone bitmap only |
| Volume.WorkingPush | src/kernel/inode.c:172-251 | a marked zone stored in the next slot joins the file; all zones of all files stay distinct, marked and in range |
| Volume.WorkingPop | src/kernel/inode.c:253-340 | giving the last zone back keeps all zones of all files distinct, marked and in range |
| Growth.ZeroedIsClean | src/kernel/inode.c:172-251 | if every free zone reads as zeros any growth finds zeroed index blocks |
| Growth.GrowStep | src/kernel/inode.c:172-251 | taking the least free zone for the next slot changes its bit and one index block of the file, nothing else |
| Growth.ZonesConserved | src/kernel/inode.c:172-340 | growing a file and shrinking it back restores the mark of every zone |
| Content.GrewBytes | src/kernel/inode.c:172-251 | growing moves no byte the file had |
| Content.ShrankBytes | src/kernel/inode.c:253-340 | shrinking moves no byte below the new size |
| Content.OtherBytes | src/kernel/inode.c:455-578 | what happens in one file's blocks changes no byte of another |
| Content.StaysZeroed | src/kernel/inode.c:172-251 | if the blocks of zones that stay free do not change, free zones that read as zeros still do |
| Content.OldNodeReads | src/kernel/inode.c:342-399 | while a file grows, a lookup through the inode on disk finds a block exactly when the old pointers reach it |
| Content.ExtendableReach | src/kernel/inode.c:472-497 | the condition on block numbers holds exactly when every block of the new part is reached from the old pointers |
| Inode.FileSystem.ReadInode | src/kernel/inode.c:144-156 | the inode on the card, word by word where `Image.NodeOnDisk` has it |
| Inode.FileSystem.WriteInode | src/kernel/inode.c:158-170 | the words of the inode in its 64 bytes, and no other byte of the card changed |
| Inode.FileSystem.MarkZmap | src/kernel/inode.c:122-132 | takes the least free zone; 0 and no change if and only if none is free |
| Inode.FileSystem.UnmarkZmap | src/kernel/inode.c:134-142 | frees that zone; zone numbers below the first data zone change nothing |
| Inode.FileSystem.ExtendZone | src/kernel/inode.c:172-251 | succeeds if and only if the free zones suffice, and then exactly the blocks up to the new size are mapped, all zones distinct and marked |
| Inode.FileSystem.ShrinkZone | src/kernel/inode.c:253-340 | keeps exactly the blocks up to the new size and frees all other zones of the file, index blocks included |
| Inode.FileSystem.GetBlock | src/kernel/inode.c:342-399 | the zone the bytes of the card name for the block, by the three levels of `Image.WalkOnDisk`, 0 if none |
| Inode.FileSystem.ZeroFill | src/kernel/inode.c:472-497 | the gained bytes read as zeros and the old ones are kept; fails exactly when a block of the new part is out of reach |
| Inode.FileSystem.Truncate | src/kernel/inode.c:455-503 | the file's bytes are cut, or extended by zeros, to the size; succeeds if and only if it shrinks or can grow; the other attributes and all other files are kept; zones still free hold what they held, so a growth keeps them zeroed; on success free and used zones and inodes together stay the same; after a failure the inode, its size and its bytes are as before |
| Inode.EmptyFileStuck | src/kernel/inode.c:472-497 | a growth that fails whatever is free: an empty file to one byte more than a block |
| Inode.FileSystem.Write | src/kernel/inode.c:530-578 | the file's bytes with the bytes that were counted spliced in at the start; writes all of it if and only if the free zones suffice; the other attributes and all other files are kept; zones still free hold what they held and zeroed ones stay so; on success free and used zones and inodes together stay the same |
| Inode.FileSystem.Read | src/kernel/inode.c:580-619 | exactly the slice of the file's bytes, cut off at the end of the file, block boundaries included |
| Inode.FileSystem.Create | src/kernel/inode.c:415-439 | an empty file under a new number with one zone; its inode on the card has the low 16 bits of the mode, that zone and zeros elsewhere; exactly that inode and that zone are taken and zones still free hold what they held; 0 and the same disk if and only if no inode or no zone is free |
| Inode.FileSystem.Destroy | src/kernel/inode.c:441-453 | frees exactly the inode and every zone of the file, index blocks included; other files keep their bytes and free zones what they held |
| Inode.PoolConserved | src/kernel/inode.c:455-578 | a write or truncate moves zones between the file and the free ones and loses none |
| Inode.NothingLost | src/kernel/inode.c:415-578 | after any run of creations, writes, truncates and destructions of any files that ends with the files it began with, the free zones and the free inodes are those of the beginning |
| Inode.InodesOnDisk | src/kernel/inode.c:110-115 | an inode can be taken exactly if it is below the limits and its bit behind the superblock is clear |
| Inode.ReadBack | src/kernel/inode.c:530-619 | reading a written range gives the data, and bytes outside it are the old ones |
| Session.Step | src/kernel/inode.c:415-578 | on a volume with zeroed free zones a creation, a write or a growth succeeds exactly when it applies to the store the volume shows, makes of it what it should, keeps free zones zeroed, and loses no zone and no inode |
| Session.Run | src/kernel/inode.c:415-578 | every run of them on any files goes on exactly as long as they apply, and what the volume shows afterwards is what they make of the store, step by step |
| Session.MakeShown | src/kernel/inode.c:415-439 | a creation on disk is one on the store: an empty file under a free inode, one zone and that inode fewer |
| Session.StoreShown | src/kernel/inode.c:530-578 | a write on disk is one on the store: the data spliced in, the zones it took fewer, every other file the same |
| Session.StretchShown | src/kernel/inode.c:455-503 | a growth on disk is one on the store: zeros appended, the zones it took fewer, every other file the same |
| Session.Lifetime | src/kernel/inode.c:415-619 | a file made, written, read and destroyed: what is read is what was written, and files, free zones, free inodes and all other files are as before; succeeds if and only if an inode and enough zones are free |
| Pipe.RingDrop | src/kernel/pipe.c:47-80 | the bytes up to the end of the page are the first of the contents, and the rest stays in order across the wrap |
| Pipe.RingAppend | src/kernel/pipe.c:82-114 | bytes copied where the free part starts are appended to the contents, across the wrap |
| Pipe.Pipe.constructor | src/kernel/pipe.c:33-45 | an empty pipe with one reader and one writer |
| Pipe.Pipe.Take | src/kernel/pipe.c:62-76 | one chunk is the head of the contents and leaves the rest |
| Pipe.Pipe.Append | src/kernel/pipe.c:99-105 | one chunk goes to the end of the contents |
| Pipe.Pipe.Read | src/kernel/pipe.c:47-80 | the first min(size, available) bytes in order, and a sleeping writer is woken, one for each chunk; sleeps exactly when the pipe is empty and has a writer; the bug check fires if and only if the size is 0 and the pipe is full |
| Pipe.Pipe.Write | src/kernel/pipe.c:82-114 | what was written is appended in order; a sleeping reader is woken whenever there was room, also by a write of no bytes; sleeps exactly when the pipe fills up; -EPIPE without readers |
| Pipe.Pipe.CountUp | src/kernel/pipe.c:116-128 | one more holder of that end |
| Pipe.Pipe.Release | src/kernel/pipe.c:130-158 | one fewer; the last one of an end wakes everybody asleep on the other, and the pipe is freed exactly when both ends are gone |
| Pipe.Pipe.NeverBothAsleep | src/kernel/pipe.c:47-158 | with one process on each end the two are never asleep together and nobody sleeps on a closed end |
| Scheduler.ReadyOnesExactly | src/kernel/process.c:766-774 | a new round holds every ready process exactly once |
| Scheduler.NewestLast | src/kernel/process.c:766-774 | in a new round the process created last runs last |
| Scheduler.BoundedWait | src/kernel/process.c:516-774 | in every run a ready process has had its turn by the time the second round after begins |
| Scheduler.RunIsFair | src/kernel/process.c:516-774 | along every run whoever is ready at some moment has its turn before the second round after begins |
| Scheduler.Kernel.constructor | src/kernel/process.c:541-569 | no process, empty queues |
| Scheduler.Kernel.NewQueue | src/kernel/process.c:1496-1498 | an empty wait queue beside the others |
| Scheduler.Kernel.Alloc | src/kernel/process.c:336-350 | a new ready process under the next number, from 1 on, so no number is given twice; it is first in the list of all and nobody else changes |
| Scheduler.Kernel.Block | src/kernel/process.c:724-737 | the current process is blocked and in exactly one wait queue |
| Scheduler.Kernel.Wake | src/kernel/process.c:739-752 | the last sleeper of the queue becomes ready and leaves it, nobody else changes; says whether there was one |
| Scheduler.Kernel.Switch | src/kernel/process.c:754-764 | the next of the run queue gets control, after a new round if it ran empty; the run queue holds distinct ready processes and never the current one |
| Scheduler.Kernel.Schedule | src/kernel/process.c:766-774 | the run queue is the ready processes |
| Scheduler.Kernel.Exit | src/kernel/process.c:802-824 | the current process is dead and at most one process waiting for a child is woken; the descriptors go in `Machine.System.Exit` |
| Scheduler.Kernel.Destroy | src/kernel/process.c:352-359 | a dead process leaves every list, and the others keep their order |
| Descriptors.AddKeeps | src/kernel/process.c:300-310 | one more descriptor keeps every file and pipe count equal to the number of descriptors |
| Descriptors.DropKeeps | src/kernel/process.c:283-298 | one fewer descriptor keeps every count exact and frees files and pipes exactly at their last descriptor |
| Descriptors.PipeStays | src/kernel/pipe.c:130-158 | dropping a descriptor never frees a pipe that another open file refers to |
| Descriptors.NoLeaks | src/kernel/process.c:802-817 | when the last descriptor is gone no file and no pipe is left |
| Descriptors.SleepersPipe | src/kernel/pipe.c:47-114 | the pipe a process sleeps on exists and counts the end it sleeps on as open |
| Descriptors.Processes.AllocFile | src/kernel/process.c:266-281 | the lowest free descriptor refers to a new file; -EMFILE and no change if and only if none is free |
| Descriptors.Processes.Open | src/kernel/process.c:916-963 | a new file on the lowest free descriptor, flagged close-on-exec if asked for; fails without a change of descriptors exactly when none is free or with the error of the path, and then the flag of the descriptor it tried is cleared |
| Descriptors.Processes.Close | src/kernel/process.c:965-978 | drops exactly that descriptor; -EBADF and no change if and only if it is not open |
| Descriptors.Processes.Pipe2 | src/kernel/process.c:1428-1466 | the two lowest free descriptors get the two ends of a new pipe counted once each; succeeds for known flags if and only if two descriptors are free; -EMFILE and -EINVAL, told apart, leave descriptors and pipes as they were |
| Descriptors.Processes.Release | src/kernel/process.c:283-298 | exactly that descriptor is dropped; every count is exact, and no pipe somebody sleeps on is freed |
| Descriptors.Processes.Attach | src/kernel/process.c:300-310 | one slot refers to the file, with the file and the pipe end counted up |
| Descriptors.Processes.OpenTerminal | src/kernel/process.c:629-638 | the first three descriptors of a new process refer to one terminal, counted three times |
| Descriptors.TargetFound | src/kernel/process.c:328-334 | a descriptor leads to a file exactly when it is open, and a pipe file to an end of a pipe that is there |
| Wakeups.SeatedAfter | src/kernel/pipe.c:47-114 | when a call wakes some of the other end and sleeps or returns, whoever is inside a call and blocked is on the queue of that end, and nobody else is |
| Wakeups.SharedAfter | src/kernel/process.c:724-752 | the same for the scheduler's queues: they stay the pipes' queues |
| Wakeups.ReadLive | src/kernel/pipe.c:47-80 | a read leaves no pipe stuck if none was, whoever sleeps where |
| Wakeups.WriteLive | src/kernel/pipe.c:82-114 | a write leaves no pipe stuck if none was, if and only if it is not the return of a write of no bytes by the last one awake at its end while writers sleep on the empty pipe |
| Wakeups.WakingLive | src/kernel/pipe.c:130-158 | waking everybody on an end leaves no pipe stuck |
| PipeTable.Table.InOrder | src/kernel/pipe.c:47-114 | what was ever read from a pipe is a prefix of what was ever written to it, and what is between is what is in it |
| PipeTable.Table.Create | src/kernel/pipe.c:33-45 | one more pipe, empty and with one holder on each end; no other pipe changes |
| PipeTable.Table.Read | src/kernel/pipe.c:47-80 | a stretch of a read moves its own pipe alone, wakes the writers it says and sleeps or returns exactly when it should |
| PipeTable.Table.Write | src/kernel/pipe.c:82-114 | a stretch of a write moves its own pipe alone, wakes the readers it says and sleeps or returns exactly when it should |
| PipeTable.Table.CountUp | src/kernel/pipe.c:116-128 | one more holder of that end of that pipe |
| PipeTable.Table.Release | src/kernel/pipe.c:130-158 | one fewer; with the last holder of an end all sleepers of the other go, and with the last of both the pipe |
| Effects.FollowsOn | src/kernel/pipe.c:130-158 | two changes of descriptors in turn, the second of which gives no abandoned end a holder, do to pipes and sleepers what one change to the final descriptors does |
| Machine.System.constructor | src/kernel/process.c:541-569 | no process, no descriptor and no pipe, all tied together |
| Machine.System.WakeMany | src/kernel/process.c:739-752 | the first of the queue become ready and leave it, in order, and nobody else changes |
| Machine.System.ReadOn | src/kernel/pipe.c:47-80 | a read through a descriptor, from its start or from where it woke up: the process sleeps on the queue of its end or returns with the next bytes, all that ties descriptors, pipes, queues and states is kept, and no pipe gets stuck |
| Machine.System.WriteOn | src/kernel/pipe.c:82-114 | the same for a write: what is left to write goes on where it stopped; no pipe gets stuck if and only if there are bytes to write or the process does not strand writers asleep on the empty pipe |
| Machine.System.Read | src/kernel/process.c:1029-1068 | -EBADF exactly for a descriptor that is not open or is the writing end; a pipe is read as `ReadOn` says, sleeping writers are woken, one if the bytes lie in one piece; halts if and only if nothing is asked of a full pipe |
| Machine.System.Write | src/kernel/process.c:988-1027 | -EBADF exactly for a descriptor that is not open or is the reading end; a pipe is written to as `WriteOn` says, -EPIPE exactly without readers, sleep exactly when it does not fit; no pipe gets stuck |
| Machine.System.Resume | src/kernel/process.c:836-844 | a woken process goes on with the call it slept in, on the pipe it slept on, with what was left of it; no pipe gets stuck if and only if it does not strand writers with a write of no bytes |
| Machine.System.Release | src/kernel/process.c:283-298 | exactly that descriptor goes; exactly those are woken who sleep on a pipe whose other end nobody holds any more, with the last descriptor of both ends the pipe is freed, and no pipe anybody is inside a call on is |
| Machine.System.Attach | src/kernel/process.c:300-310 | one slot refers to the file, and the pipe's own count goes up with it |
| Machine.System.Follow | src/kernel/process.c:283-310 | whatever the descriptors are, a pipe is there exactly while somebody holds an end of it and counts those who do, nobody sleeps for an end that nobody holds, and exactly those who did are ready |
| Machine.System.Close | src/kernel/process.c:965-978 | drops exactly that descriptor, with what follows for pipes and sleepers; -EBADF and no change if and only if it is not open |
| Machine.System.Pipe2 | src/kernel/process.c:1428-1466 | two descriptors are the ends of a new empty pipe with two empty queues, flagged close-on-exec if asked for; -EINVAL exactly for unknown flags, -EMFILE exactly without two free descriptors, and then no descriptor and no pipe changes |
| Machine.System.Open | src/kernel/process.c:916-963 | a new file on a free descriptor, flagged close-on-exec if asked for; -EMFILE without a free descriptor, else the error of the path, and then no descriptor changes |
| Machine.System.DupFd | src/kernel/process.c:1339-1365 | the lowest free descriptor from the given one on refers to the same file; the three errors are told apart and change nothing |
| Machine.System.Dup2 | src/kernel/process.c:1367-1392 | the new descriptor refers to the old one's file, whatever it referred to before, and is not close-on-exec if it was open; a no-op on equal descriptors |
| Machine.System.Dup3 | src/kernel/process.c:1394-1422 | as dup2, but equal descriptors are -EINVAL, and with the close-on-exec flag set if asked for |
| Machine.System.NewProcess | src/kernel/process.c:336-350 | a new ready process without descriptors or flags and inside no call |
| Machine.System.Start | src/kernel/process.c:587-642 | a new ready process whose first three descriptors are one terminal, counted three times; no pipe and no other process changes |
| Machine.System.Fork | src/kernel/process.c:697-722 | one new ready process, which has every descriptor of the parent and no close-on-exec flag, with every file and pipe counted up; no pipe changes but in its counts |
| Machine.System.Inherit | src/kernel/process.c:713-718 | the child's slots are copies of the parent's and counted; nothing else changes |
| Machine.System.CloseOnExec | src/kernel/process.c:671-677 | exactly the process's close-on-exec descriptors are dropped and their flags cleared, with what follows for pipes and sleepers |
| Machine.System.ReleaseAll | src/kernel/process.c:810-817 | exactly the process's descriptors are dropped, and exactly those are woken who sleep on a pipe whose other end nobody else holds |
| Machine.System.Exit | src/kernel/process.c:802-824 | the process is dead and without descriptors, those are woken who sleep on a pipe whose other end nobody else holds, and so is the process that last went to sleep waiting for a child |
| Machine.System.AwaitChild | src/kernel/process.c:798-798 | the process is blocked and first on the queue for children; nothing else changes |
| Machine.System.Reap | src/kernel/process.c:786-796 | a dead process leaves every list; nothing else changes |
| Machine.System.Switch | src/kernel/process.c:754-764 | the next of the run queue gets control; nothing else changes |
| Machine.System.Step | src/kernel/process.c:697-1466 | whoever has control goes on with the call it slept in or makes the call asked for, with the effect of that call on descriptors, flags, states and pipes (`Effects.Performs`), and gives up control; halts if and only if it reads nothing from a full pipe; no pipe gets stuck if and only if it was not about to strand writers, pipes with one process on each end stay tight, and the scheduler takes a step of `Scheduler.Next` |
| Machine.System.Perform | src/kernel/process.c:697-1466 | each system call does exactly what the relation of that call says, and keeps all that ties the system together |
| Machine.HaltsOnly | src/kernel/pipe.c:47-80 | of all calls only a read of nothing from a full pipe halts the kernel |
| Machine.System.Run | src/kernel/process.c:697-1466 | the same of every step of any run, from moment to moment, as far as it gets; it stops short exactly when a step halts; the scheduler's trace is fair |
| Machine.System.NobodyAbandoned | src/kernel/pipe.c:47-158 | whoever sleeps on a pipe waits for an end that a living process has open; that may be the sleeper |
| Machine.System.IdleMeansWaiting | src/kernel/pipe.c:47-158 | when nobody can run, no pipe has sleepers on both ends, sleeping writers have bytes in the pipe to be read and sleeping readers have room to be written to |
| Machine.FlowsThroughout | src/kernel/pipe.c:47-158 | along any run no pipe is ever stuck if and only if nobody ever strands writers |
| Machine.SomethingToWrite | src/kernel/pipe.c:82-114 | nobody strands writers while nobody is inside a write of no bytes |
| Machine.SoloThroughout | src/kernel/pipe.c:47-158 | in a pipe that one process at most holds at each end ever since it is there, a blocked reader means an empty pipe and a blocked writer a full one |
| Machine.System.NobodyAwaits | src/kernel/process.c:776-800 | if all who are blocked are inside calls on pipes, the queue for children is empty |
| Runs.EmptyWriteStalls | src/kernel/pipe.c:47-114 | a run of three processes after which a writer and a reader sleep on an empty pipe, nobody can run and the pipe is stuck, because a write of no bytes took the wakeup |
| Runs.ShortReadStrands | src/kernel/pipe.c:47-114 | a run of three processes after which a reader sleeps beside a byte it could read and nobody can run, because the reader woken first left it |
| SignalSet.AddDelHas | src/kernel/lib/signal.c:31-57 | adding or removing a signal changes the membership of that signal alone, in either word; out of range nothing changes |
| SignalSet.AsNumber | src/kernel/lib/signal.c:31-57 | as a number of 64 bits, low word first, a set grows by 2 to the power of the signal less one when the signal joins and shrinks by it when it leaves |
| SignalSet.SetAlgebra | src/kernel/lib/signal.c:75-91 | the word operations are complement, union and intersection |
| SignalSet.PeekIsLeast | src/kernel/lib/signal.c:93-105 | the least member, 0 if and only if the set is empty |
| Signals.ContextRoundTrip | src/kernel/process.c:531-539 | a context copied to the stack and back is the same context |
| Signals.PushStacks | src/kernel/process.c:864-866 | for any stack pointer of at least 76, whatever its alignment, the two pushes put a new frame below it and leave all live frames alone |
| Signals.FrameWords | src/kernel/process.c:864-866 | the frame is the two words of the mask and then cpsr, r0 to r12, sp, lr and pc, and no other word of memory changes |
| Signals.FramesDisjoint | src/kernel/process.c:864-866 | live frames never overlap |
| Signals.StackedFrame | src/kernel/process.c:1282-1287 | frames that memory agrees on stay intact |
| Signals.PeekIsLeastDue | src/kernel/process.c:846-849 | dispatch picks the least signal that is pending and not blocked, and none only if there is none |
| Signals.NestingRestores | src/kernel/process.c:826-883 | in every run, when a delivered signal has returned, however deeply others nested in between, context, mask and frames are what they were |
| Signals.DeepFramesKept | src/kernel/process.c:826-883 | while a run stays above a depth the frames up to that depth do not change |
| Signals.Task.constructor | src/kernel/process.c:336-350 | nothing blocked, nothing pending, each of 64 actions the default |
| Signals.Task.Dispatch | src/kernel/process.c:846-880 | the least due signal, consumed once; default, ignored and handled signals told apart; a handler runs with its own mask added and the old context and mask in a frame; SIGKILL always kills |
| Signals.Task.Deliver | src/kernel/process.c:864-876 | the frame holds the old context and mask word by word and nothing else in memory changes; the handler starts with the signal in r0 and zeros in the other registers, its stack pointer at the frame, the restorer as its return address and the signals it asks for blocked |
| Signals.Task.SigReturn | src/kernel/process.c:1282-1287 | context and mask of the newest frame are restored and the frame is gone |
| Signals.Task.Kill | src/kernel/process.c:1324-1337 | exactly that signal becomes pending; refused exactly out of range |
| Signals.Task.SigAction | src/kernel/process.c:1258-1280 | the old action, and if a new one is given exactly that action changes, with SIGKILL and SIGSTOP taken out of its mask; refused for those two and out of range |
| Signals.Task.SigProcMask | src/kernel/process.c:1289-1322 | the mask becomes union, difference or the set, never with SIGKILL or SIGSTOP; an unknown request changes nothing |
| PageTable.Walk | src/kernel/mmu.c:99-125 | the hardware walk finds the second-level entry the space says, and nothing where no table hangs |
| PageTable.WalkInMemory | src/kernel/mmu.c:26-34 | the walk on physical addresses: the word at the table plus four times bits 31 to 20, then the word at that table plus four times bits 19 to 12 |
| PageTable.FullIsOwn | src/kernel/mmu.c:110-125 | what user code may touch is a frame of its own space, never a page that holds a table |
| PageTable.SetEntry | src/kernel/mmu.c:119-122 | writing one second-level entry changes the translation of its page alone |
| PageTable.AddTable | src/kernel/mmu.c:99-108 | hanging up a cleared second-level table changes no translation |
| PageTable.SpaceFrame | src/kernel/mmu.c:99-125 | a space's translations depend on the pages of its tables only |
| Mmu.Isolated | src/kernel/mmu.c:65-125 | full-access frames of two processes are different, and lie outside all tables of both |
| Mmu.TableAligned | src/kernel/mmu.c:81-85 | first-level tables lie on 16 KB boundaries |
| Mmu.OutOfPages | src/kernel/buddy.c:144-171 | a request of up to a page fails exactly when every page is live, however the free ones are cut up |
| Mmu.RoomTaken | src/kernel/mmu.c:65-85 | taking a page or a table lowers the number of free pages by one or four |
| Mmu.OthersKept | src/kernel/mmu.c:65-125 | steps on one space leave every other space and its translations as they were |
| Mmu.PageCount | src/kernel/mmu.c:34-34 | the least number of pages that hold the size; none if the sum wraps in 32 bits |
| Mmu.PagesInSection | src/kernel/mmu.c:31-32 | the addresses whose indices are those of a range in one section are exactly the addresses from the page of its start on |
| Mmu.EndInSection | src/kernel/mmu.c:114-116 | the check on the number of entries is the check that the bytes of the range stay within a megabyte |
| Mmu.Spaces.constructor | src/kernel/mmu.c:194-196 | no space yet |
| Mmu.Spaces.CreatePl1 | src/kernel/mmu.c:81-85 | an empty space on a fresh aligned block; fails if and only if no free block is large enough |
| Mmu.Spaces.CreatePl2 | src/kernel/mmu.c:87-91 | a cleared table on a fresh page; no translation changes; fails if and only if no page is free |
| Mmu.Spaces.FillPl2 | src/kernel/mmu.c:99-108 | the section has a table of its own; no translation changes; fails if and only if it needs a page and none is free |
| Mmu.Spaces.CreateMapping | src/kernel/mmu.c:110-125 | every address of the range, rounded to whole pages, leads to a fresh frame open to user code, page by page in order, and no other translation changes; refused without any change if and only if the range leaves its megabyte; halts if and only if the free pages do not cover the range and its table |
| Mmu.Spaces.CreateStraightMapping | src/kernel/mmu.c:127-142 | every address of the range, rounded to whole pages, leads to itself for the kernel alone, no other translation changes; refused without any change if and only if the range leaves its megabyte; halts if and only if a table is needed and no page is free |
| Mmu.Spaces.CreateVectorsMapping | src/kernel/mmu.c:144-153 | the vector address leads to a fresh page with the vectors, for the kernel alone, and no other translation changes; halts if and only if the pages it needs are not free |
| Mmu.Spaces.CreateKernelMappings | src/kernel/mmu.c:155-173 | the kernel's memory, the peripheral ranges and the vectors are mapped for the kernel alone and nothing else is; halts if and only if the pages it needs are not free |
| Mmu.Spaces.NewSpace | src/kernel/mmu.c:184-188 | a space that maps the kernel's ranges and nothing else; fails if and only if the pages it needs are not there |
| Mmu.Spaces.Fetch | src/kernel/mmu.c:175-192 | the space of the process, unchanged if it has one; a new one maps the kernel's ranges and nothing else, and every other translation is kept; fails if and only if a new space is needed and the pages for it are not there |
| Mmu.Spaces.SetTtb | src/kernel/mmu.c:230-252 | what is loaded as the table base is the address of the process's own table, masked or not; the process set before is returned; no other translation changes |
| Mmu.Spaces.Alloc | src/kernel/mmu.c:254-257 | every address from the page of the start on, for the least number of pages that hold the size, leads to a frame that was not live before, every other translation of this and all processes is kept, and the space took exactly the blocks that became live; no page for a size whose rounding wraps; a new space maps the kernel's ranges beside it and nothing else; refused if and only if the range leaves its megabyte; halts if and only if the pages it needs are not free |
| Mmu.Spaces.ReleasePages | src/kernel/mmu.c:70-79 | exactly the blocks of the list stop being live |
| Mmu.Spaces.Discard | src/kernel/mmu.c:222-225 | one space leaves the list, exactly its blocks are free again, memory and all other spaces stand |
| Mmu.Spaces.Destroy | src/kernel/mmu.c:208-228 | the space is gone, exactly the blocks it took are free again, the kernel's space is in force and all other spaces stand; fails if and only if the kernel has no space and the pages for one are not there |
| Mmu.Spaces.UserStore | src/kernel/mmu.c:110-125 | a store by user code where it may changes no translation of any process and no page of another |
| Printf.NumberOfDigits | src/kernel/lib/stdarg.c:85-162 | digits read back as the number, in both bases |
| Printf.UnsignedReadsBack | src/kernel/lib/stdarg.c:85-102 | `%x` and `%u` read back as the argument whatever width and padding |
| Printf.SignedReadsBack | src/kernel/lib/stdarg.c:104-143 | `%d` reads back as the argument, sign included, whatever width and padding |
| Printf.DigitsAreNumeral | src/kernel/lib/stdarg.c:48-162 | the digits are the shortest of the number: of the base, and without a leading zero |
| Printf.DirectiveMeans | src/kernel/lib/stdarg.c:190-310 | a percent sign, a zero or none, any width and any letter, wherever it stands in a format: rejected exactly by flag, width and letter; else `%u` leaves the decimal, `%x` the hexadecimal digits of the argument, `%d` those of the int it is with its sign, filled up to the width with zeros or spaces, which read back as the argument; `%s` the string and `%c` the low byte behind spaces; `%%` a percent sign and takes no argument, and every other letter takes one |
| Printf.BadDirective | src/kernel/lib/stdarg.c:190-216 | two zeros and a directive without a letter are refused |
| Printf.PlainText | src/kernel/lib/stdarg.c:177-188 | text outside directives stands for itself |
| Printf.Buffer.Assign | src/kernel/lib/stdarg.c:40-46 | writes the place if and only if it is below the size |
| Printf.Buffer.DigitCount | src/kernel/lib/stdarg.c:48-83 | the number of digits of the number |
| Printf.Buffer.PutDigits | src/kernel/lib/stdarg.c:95-101 | digits written from the right are the number's digits appended to the text, as far as they fit |
| Printf.Buffer.PutUnsigned | src/kernel/lib/stdarg.c:85-102 | the padded number is appended to the text |
| Printf.Buffer.PutSigned | src/kernel/lib/stdarg.c:104-143 | sign, padding and digits in the right order are appended to the text |
| Printf.Buffer.PutConversion | src/kernel/lib/stdarg.c:216-310 | a conversion appends what its letter means and takes its argument, or is refused exactly by flag, width and letter |
| Printf.Step | src/kernel/lib/stdarg.c:176-312 | one character in any state moves what the grammar has left to the text, or is refused exactly where the grammar refuses |
| Printf.Vsnprintf | src/kernel/lib/stdarg.c:164-324 | the length of the whole text the format means by `Printf.DirectiveMeans` and `Printf.PlainText`, the same for every size; its first min(length, size - 1) characters and a NUL in the buffer and nothing else changed; EOF if and only if the format is refused or the size exceeds an int |
| Argv.Prepare | src/kernel/process.c:385-433 | counts and size of the image; -E2BIG if and only if count, pointers, NULLs and strings take more than 4096 bytes |
| Argv.ImageSize | src/kernel/process.c:401-402 | the least multiple of eight from 0x100 on that holds the count, the pointers, two NULLs and the strings with their NULs |
| Argv.Stack.CopyText | src/kernel/process.c:448-459 | the string and its NUL, nothing else changed |
| Argv.Stack.CopyVector | src/kernel/process.c:448-460 | pointers to the strings one after the other and a NULL, nothing else changed |
| Argv.Stack.Copy | src/kernel/process.c:435-463 | an image of the arguments and the environment, written inside the given bytes below the stack top only |
| Argv.CStart | src/crt/runtime.c:32-37 | from any such image the count, a vector of the arguments and a vector of the environment |
| Argv.Stack.Exec | src/kernel/process.c:644-695 | an exec of at most 4096 bytes, and no other, gives the started program its count, arguments and environment |
| Argv.VectorUnique | src/crt/runtime.c:32-37 | memory holds one list of strings at a vector, so what the program reads is determined |
| Path.SlashSeparates | src/kernel/dentry.c:155-197 | the names of a path are those before a slash and those from it on |
| Path.LastComponent | src/kernel/lib/libgen.c:20-67 | the names of a path are those of its directory part and its last name, whatever the slashes between and after |
| Path.Dirname | src/kernel/lib/libgen.c:20-48 | all names but the last, absolute exactly when the path is; `/` for slashes only and `.` for the empty path and a lone relative name |
| Path.Basename | src/kernel/lib/libgen.c:50-67 | the last name; `/` for slashes only and `.` for the empty path |
| Path.FollowLast | src/kernel/dentry.c:155-197 | following a list of names is following all but the last and then the last |
| Path.FindEntry | src/kernel/dentry.c:179-184 | the node of the first entry of that name; nothing exactly if there is none |
| Path.FollowIsWalk | src/kernel/dentry.c:155-197 | a list of names leads to a node exactly if there is a walk of nodes to it, each the first entry of the next name in the one before |
| Path.Child | src/kernel/dentry.c:171-188 | a name leads somewhere from a directory exactly if it is at most 60 characters long and an entry has it |
| Path.Lookup | src/kernel/dentry.c:155-197 | what the names of an absolute path lead to from the root; nothing for a relative path, a missing or a too long name |
| Path.LookupInParent | src/kernel/fs.c:55-71 | the directory part looked up and the base name looked up in it is the path looked up, for every absolute path with a name |

## Left out

- Slab.Cache.constructor: an object size of 0, which a size within three bytes of 2 to the 32 wraps to.
- Buddy.Allocator.Free: of a page that is not the head of a live block; the kernel's callers give back what they were given.
- Inode.FileSystem.ExtendZone: index zones that do not read as zeros, which the code accepts and with which the file is wrong (`ZoneTree.PushKeepsFile`).
- Inode.FileSystem.Write: a start beyond the end of the file, where the code looks the gap up through the old inode; and growths into index zones that do not read as zeros.
- Inode.FileSystem.Write: after a short count the inode, its bytes and all other files are right, but the file may hold zones past its size, since the code does not give back what `extend_zone` took.
- Inode.FileSystem.Truncate: the same after a failed growth; and growths into index zones that do not read as zeros.
- Inode.FileSystem.Read: a start plus size beyond 32 bits, where the sum wraps around.
- Pipe.Pipe.NeverBothAsleep: several processes on one end; `Machine.FlowsThroughout` and `Machine.System.IdleMeansWaiting` are what holds for any number.
- Session.Run: operations that give zones back, after which free zones need not read as zeros; `Session.Lifetime` has one destruction and `Inode.NothingLost` any number.
- Pipe.Pipe.Write: the SIGPIPE that goes with -EPIPE; raising a signal is `Signals.Task.Kill`, and signals are not joined with the system.
- Scheduler.Kernel.Exit: that a waiting parent is woken when it should be; `process_wake` wakes one waiter, whoever it is.
- Machine.System.Exit: the shutdown after the last process; and the state is set to dead after the descriptors are released instead of before, which nothing looks at in between.
- Machine.System.Read: terminals and regular files, which are `Elsewhere`; regular files are `Inode.FileSystem.Read`.
- Machine.System.Write: the same.
- Machine.System.Step: `process_wait` is given the child it finds, which may be any dead process, and does not look again by itself when woken, so the runs include more than the kernel's; files and terminals are `Elsewhere`, so no process sleeps on a terminal.
- Machine.System.Perform: the same.
- Signals.PushStacks: stack pointers below 76, where the frame would wrap around the address space.
- Signals.Task.Deliver: the same.
- Signals.Task.Dispatch: the same, and signal 64 as the least due one, which indexes past the actions.
- Signals.Task.Kill: the search for the process and -ESRCH.
- Signals.Task.SigAction: signal 64, which indexes past the actions.
- Signals.Task.SigReturn: a stack pointer other than that of the newest frame, which only user code can bring about.
- Signals.Task.RunUser: user code that writes into live frames or raises its stack pointer above them.
- Printf.Buffer.PutSigned: the least `int`, whose negation overflows.
- Printf.Buffer.PutConversion: conversions the grammar calls undefined: the least `int` and widths beyond an `int`.
- Printf.Step: formats the grammar calls undefined, as above.
- Printf.Vsnprintf: formats the grammar calls undefined, texts longer than an `int`, and `sprintf`, which passes a size larger than its buffer.
- Argv.Prepare: the copy of the strings in a kernel page; they are values between the two halves of an exec.
- Mmu.Spaces.constructor: the space of process 0 that `mmu_init` makes next; that is `Mmu.Spaces.SetTtb`.
- Mmu.Spaces.Fetch: the record `mmu_mapping_fetch` takes from the mapping cache is a value here, so the block a new slab for it may take is not counted.
- Mmu.Spaces.Alloc: the same.
- Mmu.Spaces.Destroy: of a process without a space, where the loop of the code ends on the head of the list and takes it for a space.
- Mmu.Spaces.ReleasePages: the chain of a space's pages runs through the page descriptors in the kernel and is a sequence here.
- Mmu.Spaces.CreateMapping: the privileged variant, which has no caller.
- Path.Lookup: directories are a map from nodes to entries; reading them from disk into the dentry cache is not modelled.
- Loading and saving of directory entries, the dentry cache, linking and unlinking (`dentry.c`, `fs.c`).
- Drivers, registers and interrupts (`mmc.c`, `uart.c`, `gic.c`, `timer.c`, `tty.c`, `io.h`); the card is a sequence of blocks.
- Assembly, `setjmp`, caches and the TLB; a switch is a step of the scheduler.
- System call decoding and fault reporting (`syscall.c`, `system.c`), demand paging and `brk`.
- ELF loading, `uname`, `ioctl`, `termios`, `stat`.
- `lib/list.c` and `lib/string.c`; lists are sequences and strings are sequences of characters.
- The page a block cache buffer lies in is not taken from the page allocator.
