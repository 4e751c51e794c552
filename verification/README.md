# Proofs about the LodaxOS kernel

LodaxOS is an x86-64 kernel in Rust. This project models the parts of it whose correctness is not
plain from the code, and proves what they promise over all inputs, all reachable states or all runs.

- **Physical pages** (`BuddyBlocks`, `BuddyZone`, `BuddyRuns`, `BuddyKeptBack`): the buddy allocator of
  `kernel/src/mm/phys.rs`. A page's number of covering blocks says at once that blocks are disjoint
  and that none is lost. The methods are the allocator run by one caller; the runs let any number of
  threads interleave at the lock boundaries, each carrying one block in flight.
- **Page tables** (`PageTableModel`, `PageTableViews`, `PageTableSplit`, `PageTableFork`, `PageTables`):
  map, unmap, fork and free of four-level tables of `kernel/src/mm/virt.rs`, as in section 5.3 of volume
  2 of the AMD64 Architecture Programmer's Manual. Tables may hold huge pages. Memory is a map from
  frame number to table, with the pages the allocator will hand out next.
- **VMA radix tree** (`VmaRadix`): insert, lookup and remove of `kernel/src/mm/vma.rs`.
- **Slab heap** (`SlabRuns`, `SlabMemory`): one cache of `kernel/src/mm/heap.rs`, as runs of
  interleaved allocations and frees, and as the linked lists in memory that perform the steps.
- **ext4 reader** (`ExtentTree`, `LargeBlocks`, `FileReader`, `FileContents`): the extent tree and file
  reader of `boot/src/load_kernel.rs`, from bytes up, as in the ext4 on-disk format, section "Extent
  Tree".
- **Ready queue and driver switch** (`ReadyQueues`, `DriverSwitch`): `kernel/src/percpu.rs` and the
  recovery scan of `kernel/src/gdf.rs`.
- **Driver mailboxes** (`Mailboxes`, `DriverTables`): send, receive, answer and call of
  `kernel/src/gdf.rs`.
- **Scheduler** (`SchedulerModel`, `SchedulerSteps`, `SchedulerRuns`, `SchedulerFreed`,
  `SchedulerContexts`, `SchedulerScenarios`, `SchedulerStamps`, `SchedulerFairness`, `SchedulerCode`):
  `kernel/src/scheduler.rs` with crash recovery. Crash recovery does not take the gang table's lock, so
  a scheduling pass is three steps, save, choice and load, and recovery on another CPU may come between
  any two. Each CPU has a current vCPU, which the kernel keeps, and a context, the vCPU whose frame it
  returns with.
- `Basics` and `Multiples` are shared helpers.

Where the source changes things in place there is a class or a method with a loop whose contract ties
the new state to a function of the old one; the lemmas are about those functions. Clocks, devices and
the hardware's trap frames are parameters.

The code does less than it seems to in places; the model follows the code, and each case has its exact
condition. The carving loops do not always take the largest block that fits
(`BuddyBlocks.ChunkIsLargest`). A 4096-byte buffer makes the extent listing incomplete on larger blocks
(`ExtentTree.AllLookupsAgreeIff`). An extent length of 0x8000, which the format reads as 32768 blocks, is
read as 0 (`ExtentTree.LengthIff`); that condition is about the length alone, and extents marked as not
yet written, which the format reads as zeros, are read from the disk like any other. The fallback slab
order does not fit every size (`SlabMemory.CacheParams`). Order-0 pages that alloc_pages or free_pages
return can be kept back by the reference-count gate (`BuddyZone.ReturnedAllIff`) and are then on no list
(`BuddyKeptBack.PagesAreLost`). A pass that reports no switch leaves its CPU on the vCPU it came from, or
on the one whose load it rejected, while the idle vCPU becomes current (`SchedulerContexts.FaithfulIff`);
from then on two CPUs can run one vCPU (`SchedulerScenarios.OneVcpuTwice`). So they can when crash
recovery takes a vCPU that a pass has saved (`SchedulerScenarios.TakenAfterSave`) or chosen
(`SchedulerContexts.RejectedYetRun`); there are no other cases (`SchedulerContexts.CollisionCases`). The
deferred clean-up of terminated vCPUs finds one only if it was registered after its crash, because crash
handling takes it out of its gang (`SchedulerFreed.FreedIff`). A driver with two names answers the first whatever it
received (`Mailboxes.AnswerReachesIff`) and leaves the second in the table when it crashes
(`Mailboxes.CrashLeavesNoneIff`). A driver that starts late can widen the spread of vruntimes once
(`SchedulerFairness.VruntimesStayCloseIff`). Mapping one page of a huge page unmaps the others
(`PageTableSplit.MapKeepsOthersIff`), and unmapping it again does not bring them back
(`PageTableSplit.MapThenUnmapHuge`).

Check everything with `dafny verify dfyconfig.toml`.

## Model

| member | source | states |
|---|---|---|
| `BuddyBlocks.BuddyCompletes` | kernel/src/mm/phys.rs:190-212 | the block found by flipping bit k of the page number is the other half of the aligned block of order k + 1, so joining the two gives an aligned block |
| `BuddyBlocks.BuddyOfBuddy` | kernel/src/mm/phys.rs:190-212 | buddies are mutual: flipping the bit twice gives the page number back, for every page and order |
| `BuddyBlocks.CoverOnceDisjoint` | kernel/src/mm/phys.rs:125-142 | when no page is counted twice over the eleven lists, any two places on the lists hold blocks without a common page |
| `BuddyBlocks.FreePagesCounted` | kernel/src/mm/phys.rs:125-142 | then the set of free pages has exactly the sum of 2^k over all listed blocks as its size |
| `BuddyBlocks.ChunksTile` | kernel/src/mm/phys.rs:168-187 | the greedy loop ends and tiles every page range exactly: each page of the range is in one chunk, no other page in any, and every chunk is aligned to its order and at most order 10 |
| `BuddyBlocks.ChunkIsLargest` | kernel/src/mm/phys.rs:288-293 | the documentation says the loop takes the largest block that fits; it does if and only if the pages left are not exactly the largest power of two that alignment and order 10 would allow |
| `BuddyBlocks.LargestOrderIsLargest` | kernel/src/mm/phys.rs:288-293 | the order that statement is measured by: no aligned order that fits is larger |
| `BuddyBlocks.TwoAlignedPagesAreSplit` | kernel/src/mm/phys.rs:168-187 | a case where it does not: two pages from any even page on become two blocks of one page |
| `BuddyZone.Zone.AddBlock` | kernel/src/mm/phys.rs:125-131 | the block is on its list and the counter grows by its pages; each page is covered once more exactly if it lies in the block |
| `BuddyZone.Zone.PopBlock` | kernel/src/mm/phys.rs:133-142 | fails exactly on an empty list; otherwise the head leaves and exactly its pages are covered once less |
| `BuddyZone.Zone.RemoveBlock` | kernel/src/mm/phys.rs:145-165 | found if and only if the block was on the list, and then exactly its pages leave |
| `BuddyZone.Zone.CarveRange` | kernel/src/mm/phys.rs:168-187 | exactly the pages of the range become free, once each; lists of orders larger than the range are not touched |
| `BuddyZone.Zone.Coalesce` | kernel/src/mm/phys.rs:190-212 | through any number of joins exactly the freed block's pages are added to the free pages, and alignment and counter are kept |
| `BuddyZone.Zone.AllocOrder` | kernel/src/mm/phys.rs:418-470 | fails if and only if no block of the order or more is free; otherwise returns the top 2^k pages of the first block of the lowest such order, and exactly those pages leave the free lists; only order 0 resets the reference count |
| `BuddyZone.Zone.SplitDown` | kernel/src/mm/phys.rs:448-456 | the cuts put back everything of the popped block but its last 2^k pages |
| `BuddyZone.Zone.UnrefPage` | kernel/src/mm/phys.rs:487-494 | the count drops with 16-bit wrap-around and the answer is yes exactly for a count of 1 |
| `BuddyZone.Zone.FreeOrder` | kernel/src/mm/phys.rs:505-530 | a block outside the zone, reserved or kept back by the reference-count gate changes no list; any other becomes free exactly |
| `BuddyZone.Zone.FreePagesChunked` | kernel/src/mm/phys.rs:580-597 | from a byte address on a page boundary exactly the chunks that pass the checks and the gate become free, the gate judged on the counts at entry, and exactly the accepted one-page chunks lose a reference; off a page boundary nothing changes |
| `BuddyZone.Zone.FreePages` | kernel/src/mm/phys.rs:599-605 | the same for the public entry, which also refuses a count of 0 and a reserved first page |
| `BuddyZone.ReturnedAllIff` | kernel/src/mm/phys.rs:580-597 | every page of a freed range comes back if and only if each chunk is accepted and each one-page chunk passes the gate |
| `BuddyZone.Zone.AllocPages` | kernel/src/mm/phys.rs:540-570 | fails if and only if the count is 0, above 1024, or no block is large enough; the pages returned leave the free lists, of the tail the chunks that pass the gate come back, the tail's one-page chunks lose a reference, and from disjoint lists no returned page is left free |
| `BuddyZone.AllocatedLeave` | kernel/src/mm/phys.rs:540-570 | the pages handed out were free before and are not after |
| `BuddyZone.Zone.RemoveRange` | kernel/src/mm/phys.rs:226-274 | takes exactly the pages of one order's blocks inside the range off the lists; what lies outside comes back at lower orders, and the 64-entry buffer never overflows because each end of the range is in one block at most |
| `BuddyZone.LeftOversStep` | kernel/src/mm/phys.rs:249-258 | at most as many remainders arise as removed blocks contain an end of the range |
| `BuddyZone.Zone.ReserveRange` | kernel/src/mm/phys.rs:401-416 | afterwards the free pages are the old ones without the range rounded out to whole pages, for every range, although remainders go back to lists already gone through |
| `BuddyZone.Zone.InitFromRegions` | kernel/src/mm/phys.rs:294-399 | each page is free as often as it lies in a region and is neither reserved nor excluded; the lists are disjoint if and only if no usable page lies in two regions, and then total_pages is the number of free pages; a second call does nothing |
| `BuddyZone.Zone.CarveRegion` | kernel/src/mm/phys.rs:354-381 | the walk over one region frees exactly its usable pages |
| `BuddyZone.Bounds` | kernel/src/mm/phys.rs:333-348 | base is the least first page and top the greatest end over the non-empty regions, and both are 0 if there are none |
| `BuddyRuns.StepConserves` | kernel/src/mm/phys.rs:418-530 | each critical section of alloc_order, coalesce and free_order, by any thread at any time, keeps the invariant and moves no page in or out of the blocks free, in flight, held or shared |
| `BuddyRuns.RunsAreSafe` | kernel/src/mm/phys.rs:418-530 | in every interleaving all free, in-flight and held blocks are disjoint, aligned, inside the zone and free of reserved pages, and each page is in as many blocks as at the start |
| `BuddyRuns.HeldIsExclusive` | kernel/src/mm/phys.rs:418-530 | a held page is on no list, in no other held block and in nobody's hands, and its block will be accepted back |
| `BuddyRuns.CounterIsExact` | kernel/src/mm/phys.rs:125-142 | in every such state the counter is the number of free pages |
| `BuddyRuns.QuiescentPageIsFree` | kernel/src/mm/phys.rs:190-212 | when no thread is inside the allocator, every page that was free and is not held or shared is on a list again |
| `BuddyKeptBack.PagesAreLost` | kernel/src/mm/phys.rs:418-605 | for any two free buddies among the 32768 pages that have a reference count, all counts 1, there is a run that ends with nothing held, no thread inside and both pages on no list: they are allocated and freed singly, then allocated and freed as two pages, which free_pages does in two chunks that the gate keeps back |
| `BuddyKeptBack.OnlyTrackedKept` | kernel/src/mm/phys.rs:487-530 | in every run the gate keeps back nothing but single pages that have a reference count, so pages beyond the count array and larger blocks are never lost to it |
| `PageTables.Mmu.EnsureTable` | kernel/src/mm/virt.rs:168-296 | links a zeroed page if the entry is absent, replaces a huge page by a table of 512 absent entries that keep its flags, and otherwise does nothing; fails only without memory and then changes nothing |
| `PageTables.Mmu.MapPage` | kernel/src/mm/virt.rs:519-548 | performs MapInto, the walk that makes missing tables and sets one last-level entry; it fails only once every page is used up |
| `PageTableSplit.MapPageCorrect` | kernel/src/mm/virt.rs:519-548 | after map_page, on every address space and huge pages included, the page translates to the frame and every other page is seen as before, except that the other pages of a huge page it lay in are seen no more |
| `PageTableSplit.MapKeepsOthersIff` | kernel/src/mm/virt.rs:200-296 | so map_page leaves every other page alone if and only if its page lies in no huge page |
| `PageTableSplit.SplitFirst` | kernel/src/mm/virt.rs:200-296 | the walk through a huge page goes as if that had been split beforehand, down to which page became which table |
| `PageTables.Mmu.MapPagesFromPhys` | kernel/src/mm/virt.rs:1027-1038 | maps the frames one page at a time; the simple form |
| `PageTables.Mmu.MapContiguous` | kernel/src/mm/virt.rs:1043-1107 | the batched mapper leaves exactly the tables, and takes exactly the pages in the same order, that mapping frame, frame + 1, ... one page at a time does, for every start, length and flags, through huge pages too |
| `PageTableSplit.BatchIsEach` | kernel/src/mm/virt.rs:1043-1107 | a batch inside one last-level table equals the page-by-page calls, the repeated walks and a split included |
| `PageTableSplit.MapEachKeeps` | kernel/src/mm/virt.rs:519-548 | mapping keeps the tree well-formed, the supply apart from it and every table reached once |
| `PageTables.Mmu.ReadPte` | kernel/src/mm/virt.rs:1137-1159 | outside huge pages, the last-level entry of the page, or nothing if the path to it breaks off |
| `PageTables.Mmu.TranslatePage` | kernel/src/mm/virt.rs:578-625 | outside huge pages, the frame the page maps to, if it maps |
| `PageTables.Mmu.IsTableEmpty` | kernel/src/mm/virt.rs:150-159 | true exactly for an all-zero table |
| `PageTables.Mmu.UnmapPage` | kernel/src/mm/virt.rs:627-710 | performs Unmap: clears the entry and frees tables upward while they are empty |
| `PageTableViews.UnmapCorrect` | kernel/src/mm/virt.rs:627-710 | outside huge pages unmap removes exactly one page's translation; the tables freed are exactly those on the page's path that, with those below them, held nothing but the path, and exactly those stop being tables; no empty table appears below the root |
| `PageTableViews.ClearEmptiesIff` | kernel/src/mm/virt.rs:627-710 | a table is empty after the entry is cleared if and only if it and the tables below it held nothing but the path |
| `PageTableViews.ClearKeepsOthers` | kernel/src/mm/virt.rs:627-710 | every other page of the range keeps its entry, whether it shares tables with the cleared one or not |
| `PageTableViews.ClearLeavesNoneEmpty` | kernel/src/mm/virt.rs:627-710 | no reachable table but the root is empty afterwards if none was before |
| `PageTableViews.MapThenUnmap` | kernel/src/mm/virt.rs:519-710 | mapping a page and unmapping it restores the exact tables if and only if the entry was empty, no table on its path was, and USER was already set on the path when the flags ask for it; then the tables created are freed in reverse order |
| `PageTableViews.KernelPageRestorable` | kernel/src/mm/virt.rs:519-710 | a page without translation meets that condition with kernel flags whenever every entry is present or zero and no table below the root is empty; splitting a huge page leaves entries that are neither |
| `PageTableSplit.MapThenUnmapHuge` | kernel/src/mm/virt.rs:519-710 | mapping a page that lies in a huge page and unmapping it never restores the tables: the page's path still leads to the table that replaced the huge page, whose other 511 entries stay as the split made them, absent |
| `PageTables.Mmu.CopyTableInto` | kernel/src/mm/virt.rs:839-887 | performs CopyTable, the recursive copy with its reference-count updates; a copy that fails has used up every page and given none back |
| `PageTables.Mmu.FreeTable` | kernel/src/mm/virt.rs:1008-1022 | performs FreeFrom, the recursive free, children first |
| `PageTableFork.ForkCorrect` | kernel/src/mm/virt.rs:948-984 | fork of a non-kernel root, whatever its shared upper half holds, fails if and only if memory is short by count; otherwise it takes exactly the pages it needs, leaves every table of the parent alone, copies upper-half entries as they are, and raises each page's count by its number of copy-on-write entries, huge pages by their first page, saturating |
| `PageTableFork.ForkedPage` | kernel/src/mm/virt.rs:839-887 | each lower-half page is seen by the child as by the parent, with WRITABLE cleared and COW set exactly when it, or the huge page it lies in, was writable and user, through tables none of which the parent had |
| `PageTableFork.ForkThenFree` | kernel/src/mm/virt.rs:989-1022 | free_pml4 of a fresh child frees exactly the pages the fork took, each once, and restores the tables |
| `PageTableFork.CopyTableCorrect` | kernel/src/mm/virt.rs:839-887 | the recursive copy of a table of any level: success, pages taken, counts and shape |
| `VmaRadix.VmaTree.Lookup` | kernel/src/mm/vma.rs:131-157 | returns what the map holds for bits 12..51 of the address |
| `VmaRadix.VmaTree.Insert` | kernel/src/mm/vma.rs:102-126 | succeeds if and only if there is a page for every missing node of the path; then the map changes at the key and nowhere else, exactly the missing nodes are made, and no reachable node is empty |
| `VmaRadix.VmaTree.Remove` | kernel/src/mm/vma.rs:178-243 | answers whether the key was there; then the map loses it and nothing else, exactly the emptied nodes of the path are freed, and no reachable node is empty; otherwise nothing changes |
| `VmaRadix.VmaTree.FreeIfEmpty` | kernel/src/mm/vma.rs:207-240 | one turn of the upward loop: an empty node goes and its parent's entry with it, a node with an entry ends the climb |
| `VmaRadix.Canonical` | kernel/src/mm/vma.rs:102-126 | the same nodes and contents make the same tree |
| `VmaRadix.InsertThenRemove` | kernel/src/mm/vma.rs:102-243 | inserting a fresh key and removing it restores the exact tree and frees exactly the nodes the insertion made, last first |
| `SlabRuns.StepKeeps` | kernel/src/mm/heap.rs:114-266 | every locked section and page-allocator call of alloc and free, in any order by any number of threads, keeps the invariant |
| `SlabRuns.ListsTellTheCount` | kernel/src/mm/heap.rs:114-266 | in every run a slab is on full exactly if it has no free object, otherwise on partial with a free and a used one; its free list is exactly its objects that are not live; a slab without used objects is on no list |
| `SlabRuns.LiveObjectsAreDisjoint` | kernel/src/mm/heap.rs:20-83 | in every run live objects do not overlap, lie in their slab past the header, and stay clear of pages on their way back |
| `SlabRuns.HandedOutFresh` | kernel/src/mm/heap.rs:114-266 | in every run an object handed out was not live, by the fast path or after losing the race to install a slab, and a free takes away exactly its object |
| `SlabRuns.LiveIsFound` | kernel/src/mm/heap.rs:268-284 | find_slab_ptr finds the slab a live object came from |
| `SlabMemory.CacheParams` | kernel/src/mm/heap.rs:381-397 | the least order whose slab holds an object and the most objects it holds; the fallback holds an object if and only if it is at most 65496 bytes |
| `SlabMemory.KmemCache.InitSlab` | kernel/src/mm/heap.rs:20-51 | the loop threads all objects in order and touches no other slab |
| `SlabMemory.KmemCache.AllocObj` | kernel/src/mm/heap.rs:53-61 | takes the head of the threaded list, or nothing when the count is 0 |
| `SlabMemory.KmemCache.FreeObj` | kernel/src/mm/heap.rs:63-67 | puts the object at the head of the threaded list |
| `SlabMemory.KmemCache.PushFront` | kernel/src/mm/heap.rs:301-332 | the doubly linked list gains the slab at its head; links of other lists stay |
| `SlabMemory.KmemCache.Splice` | kernel/src/mm/heap.rs:286-323 | the list loses exactly the slab, wherever it was; links of other lists stay |
| `SlabMemory.KmemCache.FindSlab` | kernel/src/mm/heap.rs:268-284 | the walk over partial and full finds the first slab containing the address |
| `SlabMemory.KmemCache.RemoveFromAny` | kernel/src/mm/heap.rs:343-371 | the slab leaves the list it is on |
| `SlabMemory.KmemCache.AllocLocked` | kernel/src/mm/heap.rs:114-146 | the memory holds what Take says: the head of partial, else of free, moved to full when used up |
| `SlabMemory.KmemCache.MakeSlab` | kernel/src/mm/heap.rs:147-173 | the slow path's private slab: all objects free but the first |
| `SlabMemory.KmemCache.InstallLocked` | kernel/src/mm/heap.rs:174-221 | uses a slab that has appeared and gives the new one back, or lists the new one, as the Install step says |
| `SlabMemory.KmemCache.FreeLocked` | kernel/src/mm/heap.rs:223-259 | the object is free again and the slab on the right list or reclaimed, as the Free step says |
| `ExtentTree.ScanOfListing` | boot/src/load_kernel.rs:560-661 | on every well-formed tree of any depth the listing succeeds, the list is sorted and disjoint, and scanning it finds exactly the blocks the descent finds by way of entries inside the listing's 4096-byte buffer |
| `ExtentTree.LookupsAgreeIff` | boot/src/load_kernel.rs:607-750 | the descent and a scan of the list give the same answer for a logical block if and only if the descent finds nothing or goes through the first 340 entries of each node |
| `ExtentTree.AllLookupsAgreeIff` | boot/src/load_kernel.rs:607-750 | on every well-formed tree the two give the same answer for all logical blocks if and only if no entry beyond the 340th of a node leads to an extent that is not empty |
| `ExtentTree.LookupsAgree` | boot/src/load_kernel.rs:607-750 | with blocks of at most 4096 bytes they always give the same answer |
| `ExtentTree.LengthIff` | boot/src/load_kernel.rs:580-587 | the length read is the one the format gives if and only if the length field is not 0x8000 |
| `ExtentTree.LongestExtentIsMissed` | boot/src/load_kernel.rs:700-710 | a leaf whose one extent has length 0x8000, of which no block is found |
| `LargeBlocks.ListingMissesABlock` | boot/src/load_kernel.rs:547-605 | a disk with blocks of 8192 bytes and a leaf of 341 extents where the descent finds block 340 and the list does not have it |
| `FileReader.ResolveExtentInBlock` | boot/src/load_kernel.rs:687-750 | the loops and the recursion compute the descent |
| `FileReader.CollectLeafExtents` | boot/src/load_kernel.rs:560-605 | pushes exactly the leaves below the block in order, or fails on a bad magic anywhere below |
| `FileReader.ParseExtents` | boot/src/load_kernel.rs:607-661 | the list of the whole tree, or nothing on a bad magic |
| `FileReader.ReadSectors` | boot/src/load_kernel.rs:423-466 | for every media block size that holds whole sectors, exactly the bytes of the partition from the sector on are written, and nothing else of the buffer changes |
| `FileContents.ResolveBlock` | boot/src/load_kernel.rs:752-789 | extent, direct and single-indirect lookups |
| `FileContents.ReadDataBlock` | boot/src/load_kernel.rs:791-804 | block 0 leaves the buffer alone; any other is read in place |
| `FileContents.ReadByExtents` | boot/src/load_kernel.rs:815-832 | the loop over the list performs Fill |
| `FileContents.ReadByBlocks` | boot/src/load_kernel.rs:836-849 | succeeds exactly if every lookup does, and then performs FillBlocks; the block count is cut to 32 bits |
| `FileContents.ReadFileInto` | boot/src/load_kernel.rs:806-850 | extent by extent when the list can be had, otherwise block by block |
| `FileContents.FillByte` | boot/src/load_kernel.rs:815-832 | over an ordered list each byte comes from the extent that covers its block, or stays as it was |
| `FileContents.BlocksFound` | boot/src/load_kernel.rs:836-849 | block by block succeeds if and only if every block is found |
| `FileContents.BlocksByte` | boot/src/load_kernel.rs:836-849 | block by block each byte comes from its own block |
| `FileContents.PathsAgree` | boot/src/load_kernel.rs:806-850 | for every file whose blocks are all covered by extents with a non-zero start and 32-bit blocks, and a block size of at most 4096, both paths fill the buffer with the same bytes, the short last block included |
| `ReadyQueues.ReadyQueue.constructor` | kernel/src/percpu.rs:42-51 | an empty queue |
| `ReadyQueues.ReadyQueue.Push` | kernel/src/percpu.rs:53-65 | appends the id, or counts a drop and changes nothing exactly when 256 ids are queued, also across wrap-around of the 64-bit counters |
| `ReadyQueues.ReadyQueue.Pop` | kernel/src/percpu.rs:67-76 | takes the oldest id, or nothing exactly when the queue is empty |
| `ReadyQueues.ReadyQueue.Peek` | kernel/src/percpu.rs:78-84 | the oldest id, queue unchanged |
| `ReadyQueues.RingGrows` | kernel/src/percpu.rs:53-65 | writing the slot after the last extends the ring's contents at the end |
| `ReadyQueues.RingShrinks` | kernel/src/percpu.rs:67-76 | moving the head drops the first of the ring's contents |
| `DriverSwitch.SwitchToNextDriver` | kernel/src/gdf.rs:957-1053 | ends, drops no id, and chooses the first loadable driver among the first 64 ids of the queue, or none if there is none; the queue is then the ids not looked at followed by the non-drivers that were, in some order |
| `DriverSwitch.OnlyDriversLeave` | kernel/src/gdf.rs:957-1053 | the multiset of non-driver ids is unchanged, no id is multiplied, and only drivers are gone |
| `Mailboxes.Delivery` | kernel/src/gdf.rs:293-421 | in every run what was received for a name is a subsequence of what was accepted for it, and every accepted command was received, is unread, or was answered or crashed away unread; a vCPU may have several names |
| `Mailboxes.ReceiveIsLast` | kernel/src/gdf.rs:377-389 | in every run a receive by a vCPU succeeds if and only if the last accepted command of one of its names is unread, and returns that of the first such slot unaltered |
| `Mailboxes.AnswerWakesCaller` | kernel/src/gdf.rs:391-421 | in every run an answer by a vCPU wakes exactly the caller that waits for the name of its first slot, if there is one |
| `Mailboxes.AnswerReachesIff` | kernel/src/gdf.rs:391-421 | an answer ends the wait for a name of the vCPU if and only if no slot of the vCPU comes before that name's, so always with one name per vCPU |
| `Mailboxes.AnswerToOtherName` | kernel/src/arch/idt.rs:1600-1616 | with two names it can fail to: a run in which the driver received the command called under its second name and its answer wakes nobody |
| `Mailboxes.CrashLeavesNoneIff` | kernel/src/gdf.rs:777-785 | a crash takes the first entry of the vCPU out of the table and no other, so none of its entries is left if and only if it had one at most |
| `Mailboxes.CrashedStillTakes` | kernel/src/gdf.rs:777-785 | with two names one is left: a run that ends in the crash of the driver, after which a command to its second name is taken for the crashed vCPU |
| `Mailboxes.IdleHasNoCaller` | kernel/src/gdf.rs:293-468 | in every run an idle mailbox has caller 0 |
| `Mailboxes.CommandReachesItsDriver` | kernel/src/gdf.rs:293-460 | in every run whose drivers register names that end at their first zero byte, zero-padded ones included, a command or call to such a name is taken by the one driver of that name if it is idle, and by no other |
| `Mailboxes.StartsAsIsEqual` | kernel/src/gdf.rs:293-305 | on such names the prefix comparison of send_cmd is equality |
| `DriverTables.DriverTable.RegisterDriver` | kernel/src/gdf.rs:192-235 | takes the first vacant slot, or refuses a full table, a name in use or a missing vCPU; the counter is the number of slots in use |
| `DriverTables.DriverTable.SendCmd` | kernel/src/gdf.rs:293-375 | performs the Send step and names the vCPU to wake |
| `DriverTables.DriverTable.DriverCall` | kernel/src/gdf.rs:425-460 | performs the Call step under the lock |
| `DriverTables.DriverTable.Recv` | kernel/src/gdf.rs:377-389 | performs the Receive step |
| `DriverTables.DriverTable.SendResponse` | kernel/src/gdf.rs:391-409 | performs the Respond step and names the caller to wake |
| `DriverTables.DriverTable.Drop` | kernel/src/gdf.rs:777-789 | performs the Crash step on the table |
| `SchedulerRuns.StepKeeps` | kernel/src/scheduler.rs:385-764 | every tick, block, wake, driver start and crash-recovery step on any CPU keeps the invariant; recovery, answers and the allocation of vCPUs may come between any two steps of a pass on another CPU, that is after its save and after its choice, and a wake or an answer may name any vCPU |
| `SchedulerRuns.NeverCurrentTwice` | kernel/src/scheduler.rs:385-672 | in every run on any number of CPUs, recovery between a pass's save and its choice included, no vCPU is the current one of two CPUs that are neither inside a pass nor handling a crash |
| `SchedulerRuns.CurrentIsNotReady` | kernel/src/scheduler.rs:385-764 | in every such run the current vCPU of a CPU outside a pass is its idle one, or allocated, neither Ready nor Halted nor Terminated, and with its frame canary clear |
| `SchedulerRuns.CleanEffect` | kernel/src/scheduler.rs:390-421 | over gangs of one the clean-up frees exactly the terminated vCPUs that sit in a gang and drops exactly their gangs |
| `SchedulerRuns.LeftGangs` | kernel/src/gdf.rs:803-830 | a crashed vCPU is in no gang afterwards and no other vCPU enters one |
| `SchedulerRuns.ChosenIsInGang` | kernel/src/scheduler.rs:471-526 | the vCPU chosen is Ready and sits in a gang, and no slot changes |
| `SchedulerRuns.FreeCoresDoNotMatter` | kernel/src/scheduler.rs:471-526 | among gangs of one the choice does not depend on how many cores were counted as free, a count that is taken while other CPUs recover |
| `SchedulerFreed.PassFrees` | kernel/src/scheduler.rs:390-421 | in every reachable state a pass frees a vCPU if and only if it is terminated and its gang is its own, and leaves none such |
| `SchedulerFreed.FreedIff` | kernel/src/scheduler.rs:390-421 | in every run some vCPU is freed if and only if a pass comes after the registering of a driver that has already crashed |
| `SchedulerFreed.TerminatedStays` | kernel/src/gdf.rs:803-830 | a crashed vCPU stays Terminated for as long as it is allocated |
| `SchedulerScenarios.DriverIsFreed` | kernel/src/arch/idt.rs:1146-1150 | a run from boot that frees one: a driver woken before it is initialised is resumed by crash recovery before it is registered, crashes, and is registered |
| `SchedulerContexts.FaithfulIff` | kernel/src/scheduler.rs:485-567 | in every run every CPU runs its current vCPU throughout if and only if no pass ends without a switch on a CPU that then runs another vCPU than its idle one: the first available gang of least vruntime has no Ready vCPU, or the vCPU chosen has its canary clear, a bad frame or a page-table root out of range |
| `SchedulerContexts.RunsAlone` | kernel/src/arch/idt.rs:819-835 | up to the first such pass, what a CPU returns to is its idle vCPU or a vCPU that is neither Ready nor Halted nor Terminated, and no other CPU runs it |
| `SchedulerContexts.ApartIff` | kernel/src/scheduler.rs:426-567 | in every run no two CPUs ever run one vCPU if and only if no CPU starts running a vCPU, by a load or by crash recovery, or goes on with one at the end of a pass that chose nothing, while another CPU runs it |
| `SchedulerContexts.CollisionCases` | kernel/src/scheduler.rs:426-563 | that happens in three cases only: the other CPU runs a vCPU that is not its current one; the CPU entered its pass like that and chose nothing; or recovery took the vCPU to the other CPU during the pass, after the pass had chosen it or after the pass had saved it |
| `SchedulerContexts.RejectedYetRun` | kernel/src/scheduler.rs:535-563 | in every reachable state where recovery takes a vCPU that a pass has chosen, the load is rejected by the canary and both CPUs run the vCPU, since the frame was written before the canary was looked at |
| `SchedulerContexts.SavedYetRun` | kernel/src/gdf.rs:957-1053 | in every reachable state where recovery takes the vCPU that a pass has saved and whose gang comes first, the pass chooses nothing and both CPUs run the vCPU |
| `SchedulerScenarios.OneVcpuTwice` | kernel/src/scheduler.rs:676-722 | a run from boot on two CPUs that ends with both running one vCPU: a driver blocks with nothing else Ready and goes on, is woken, and is loaded on the other CPU |
| `SchedulerScenarios.TakenAfterSave` | kernel/src/gdf.rs:957-1053 | a run from boot that ends so: recovery on one CPU resumes a driver between its save and the choice of a pass on another, which goes on with it |
| `SchedulerStamps.EachLoadHasItsSave` | kernel/src/scheduler.rs:426-563 | in every run each load that is accepted used up a stamp of frame_magic set for its vCPU; a ring-3 frame with standard selectors came back as saved, but for rax written by send_response, also when the load was then rejected |
| `SchedulerStamps.NoStampTwice` | kernel/src/scheduler.rs:540-546 | in every run no two loads, by passes or by crash recovery, used up the same stamp |
| `SchedulerStamps.LoadUsesLastStamp` | kernel/src/scheduler.rs:528-563 | in every run a step loads at most one vCPU, and the load uses up the last stamp set for it or is rejected |
| `SchedulerFairness.SteadyRound` | kernel/src/scheduler.rs:426-563 | with one CPU and never-blocking single-vCPU driver gangs, a pass charges the gang that ran 2000 and lets the first gang of least vruntime run |
| `SchedulerFairness.VruntimesStayClose` | kernel/src/scheduler.rs:426-515 | in every run of such passes, from any of the gangs, vruntimes after the first pass never differ by more than the larger of 2000 and what they differed by after an earlier pass |
| `SchedulerFairness.VruntimesStayCloseIff` | kernel/src/scheduler.rs:426-515 | they stay within the larger of their first spread and 2000 from the start if and only if the gang that runs first can be charged once more within that |
| `SchedulerFairness.LateStartWidens` | kernel/src/scheduler.rs:353-364 | when a driver starts while a gang of vruntime 6000 runs it cannot: the first pass takes the spread from 6000 to 8000 |
| `SchedulerFairness.EveryGangRunsAgain` | kernel/src/scheduler.rs:471-515 | in every such run, from any of the gangs, each gang runs within a bound summed from the vruntime gaps |
| `SchedulerModel.BestGangFound` | kernel/src/scheduler.rs:471-484 | the search finds the first of the available gangs of least vruntime, or nothing if and only if none is available below the 64-bit limit |
| `SchedulerModel.PickVcpuFound` | kernel/src/scheduler.rs:828-844 | pick_vcpu finds the first of the Ready vCPUs of least vruntime, or nothing if and only if there is none below the limit |
| `SchedulerModel.NothingChosen` | kernel/src/scheduler.rs:471-512 | nothing is chosen if and only if no gang is available or the first available gang of least vruntime has no Ready vCPU, however many cores are free |
| `SchedulerFairness.BestIsLeast` | kernel/src/scheduler.rs:471-484 | the search finds the first of the gangs of least vruntime when all are available |
| `SchedulerSteps.PassIsTick` | kernel/src/scheduler.rs:378-383 | the pass of the methods is the three steps of a tick in the runs, save, choice and load, with no step of another CPU in between |
| `SchedulerCode.Scheduler.CleanUpTerminated` | kernel/src/scheduler.rs:390-421 | the loops free the terminated vCPUs found in gangs, in order |
| `SchedulerCode.Scheduler.SaveCurrent` | kernel/src/scheduler.rs:426-469 | saves the frame, sets the canary, charges the gang and makes the vCPU Ready unless it is halted |
| `SchedulerCode.Scheduler.FindBestGang` | kernel/src/scheduler.rs:471-484 | computes BestGang |
| `SchedulerCode.Scheduler.PickFrom` | kernel/src/scheduler.rs:828-844 | computes PickVcpu, the Ready vCPU of least vruntime |
| `SchedulerCode.Scheduler.CountFreeCores` | kernel/src/scheduler.rs:811-823 | counts the online CPUs on their idle vCPU |
| `SchedulerCode.Scheduler.ChooseNext` | kernel/src/scheduler.rs:471-526 | performs Choose; what goes on the ready queue is the chosen vCPU again |
| `SchedulerCode.Scheduler.LoadNext` | kernel/src/scheduler.rs:528-672 | performs Load with its canary, frame and page-table checks, and gives the frame the CPU returns with, which a rejected load has overwritten |
| `SchedulerCode.Scheduler.ScheduleInner` | kernel/src/scheduler.rs:385-672 | a whole pass: the new state, the frame the CPU returns with and whether it reports a switch |
| `SchedulerCode.Scheduler.BlockCurrent` | kernel/src/scheduler.rs:676-722 | halts the current vCPU and schedules, going on with the halted one if there is no switch; refuses on the idle vCPU |
| `SchedulerCode.Scheduler.WakeVcpu` | kernel/src/scheduler.rs:724-764 | a Halted vCPU becomes Ready with vruntime 0; any other call changes nothing |
| `SchedulerCode.Scheduler.RegisterDriverVcpu` | kernel/src/scheduler.rs:293-371 | a new gang of one at the next index, or a refusal without a kernel stack or when 32 gangs are used |
| `SchedulerCode.Scheduler.MarkTerminated` | kernel/src/gdf.rs:803-830 | the crashed vCPU is Terminated, keeps the page-table root stashed in it, and is out of every gang, and gangs left empty are dropped |

## Left out

- The 1 GB arms of translate and unmap, the two mappers that make huge pages at boot, unmap_from_huge_page, and the copying of the kernel's low identity map in fork_pml4. Forks are of non-kernel roots.
- End-to-end copy-on-write conservation, TLB shootdown, the FPU state, port and memory-mapped I/O, UEFI calls, interrupts and assembly.
- VmaTree::visit_all, find_covering, has_overlap, free_tree and alloc_user_vaddr, which start a level deeper than insert and lookup build.
- Device read errors: every read of the device succeeds in the model, as every page a table walk needs is readable.
- Liveness of driver_call and block_current, and blocked_buf_ptr with the direct write into a driver's buffer.
- steal_task, create_gang (its vCPUs never get a stamp, so none of them is ever loaded), bump_crash_count, the restart queue, and gangs of several vCPUs in the fairness results.
- The katerm debugger commands, which set vCPU states by hand.
- kmalloc and kfree above the slab caches, and slab_stats.
- ELF loading, the superblock, inode and directory readers, and the sector cache.
- BuddyZone.Zone.ReserveRange: for one caller at a time, because remove_range gives up its lock between taking blocks and putting remainders back.
- BuddyZone.Zone.FreeOrder: asks for an address aligned to its order, which every block a caller holds has, and page numbers do not wrap at 64 bits.
- PageTables.Mmu.EnsureTable: one CPU works on a table at a time, so the compare-exchange and the split never lose a race; and PML4 entries have PS clear, as the architecture demands.
- PageTables.Mmu.MapPage: a failed call is said to have used up every page, not which new tables it leaves linked; the same holds for MapPagesFromPhys and MapContiguous.
- PageTables.Mmu.ReadPte: for pages that lie in no huge page, because the code tests PS in PML4 and PDP entries but follows a huge PD entry as if it were a table; so are TranslatePage and UnmapPage.
- PageTableViews.MapThenUnmap: for pages that lie in no huge page; the others are the matter of PageTableSplit.MapThenUnmapHuge.
- PageTables.Mmu.MapContiguous: addresses are page numbers below the four-level range, so the index arithmetic does not wrap.
- PageTables.Mmu.EnsurePath: the three nested ensure_table calls are one loop over the levels.
- SlabMemory.KmemCache.InstallLocked: the unlocked construction of a slab is one step, since no other thread can reach the slab.
- FileReader.ResolveExtentInBlock: asks that depth fields fall by one per level, without which the source's recursion need not end; so does FileReader.CollectLeafExtents.
- FileReader.ReadSectors: asks that a media block holds whole 512-byte sectors, without which the source panics on its slice.
- DriverSwitch.SwitchToNextDriver: the vCPU table does not change during the call and ids fit 32 bits.
- DriverTables.DriverTable.SendCmd: drivers do not use the blocked receive buffer.
- SchedulerSteps.Begin: the halt, the clean-up and the save of one pass are one step, since what they read changes only under the gang table's lock, which they hold throughout.
- SchedulerRuns.NeverCurrentTwice: a CPU takes no tick while it recovers from a crash, and only drivers that are current crash; what a CPU really runs is the matter of the SchedulerContexts rows.
- SchedulerFairness.VruntimesStayClose: no counter comes within 2000 of its 64-bit limit, and frames saved are ones the scheduler accepts.
- SchedulerCode.Scheduler.CleanUpTerminated: the page tables of a freed vCPU are not freed.
- SchedulerCode.Scheduler.SaveCurrent: the FPU state is not saved.
- SchedulerCode.Scheduler.RegisterDriverVcpu: the kernel stack is an outcome of its allocation, not its mapping.
