# Memory, scheduling and output of the Renzan system, verified

Renzan is a small operating system: a kernel in C, and a C runtime for its programs. This project models the parts
of it that carry the most state and arithmetic, and proves what they are for.

* **The user heap** (`osrt/c/dlmalloc.c` in the system's configuration: 64-bit sizes, no locks, no footers, memory
  from `mmap` only). Free chunks are kept in 32 ringed small bins and 32 bitwise digital tries. The model has the
  pointers, rings and maps of the bins and the boundary tags of the chunks. `Malloc.Valid` is the file's own set of
  checks and more; the constructor establishes it and `Allocate`, `Release` (with the trimming that it sets off) and
  `SysTrim` keep it, so it holds after every sequence of calls. `HeapSafety` says what it means: chunks tile the
  segments, no two free chunks touch, every free chunk has exactly one owner, blocks are disjoint and no bookkeeping
  lies in them.
* **Address spaces** (`kernel/k_memory.c`). Three levels of tables in frames with reference counts refine one map from
  pages to frames, for any number of spaces at once; cloning, destroying and transferring pages are proved against that
  map and against the counts, and the rights that the tables grant against what was asked for each page. Runs start at
  `Boot`. What they need between calls, `Vm.Quiet`, is kept by `Create`, `Clone`, `MapPage` of a counted frame,
  `UnmapPage`, `Transfer`, and `Destroy` exactly if the frames of other spaces' pages stay counted.
* **The kernel heap** (`kernel/k_memory.c`). A first-fit heap over an address-ordered chunk list, on top of a range
  finder whose minimality is what makes list neighbours address neighbours.
* **Futex, lists, scheduler, timers** (`kernel/k_futex.c`, `kernel/k_list.h`, `kernel/k_sched.c`,
  `kernel/k_timer.c`). The futex is a state machine of single steps interleaved in any order, with what every run of
  it keeps, when a wait may return and what a wake takes; the others are classes whose methods update the lists, maps
  and arrays that the C code updates.
* **Formatted output** (`osrt/c/vfprintf.c`; section 7.21.6.1 of ISO/IEC 9899:2011). From digit loops to whole
  formats: a list of texts and conversions, spelled out as a format string, prints exactly what it means.

Code that changes things in place is imperative here too: classes with the same fields, methods with the same loops
and the same order of stores, each proved against a function or an abstract state. Pointers are integers into maps
of records, 0 being null; machine words are integers with the wrap-around written out.

## Where the code falls short of what one would expect

These are facts about the code; each has the exact condition under which the expected property holds.

* `compute_tree_index` truncates to 32 bits. A size is in the bin of its range if and only if it is below 2^40 or its
  low 40 bits select the last bin (`BinRange`). Best fit holds for rightly filed sizes (`ChosenLeast`). It fails for
  every misfiled request (`BestFitMissed`) and with every misfiled chunk (`MisfiledMissed`), and so does the choice of
  the smallest chunk (`SmallestMissed`).
* `timer_heap_extract` compares with a right child that may be missing. `Extract` has the condition for the fault, in
  terms of the heap before the call; `ThreeTimersFault` is its smallest case.
* `clampped_priority_change` has no `break` after its idle case (`ClampedInBand`). No path leads there, because an
  idle quantum is odd (`OddStaysOdd`).
* `sched_tick` leaves a quantum of 0 if the running process has used it up and no other one takes over (`Tick`); the
  next tick turns it into 2^64 - 10 (`AfterZero`). `UsesUp` is such a run.
* `vm_map_page` stores the rights of the page that it maps in the table entries above it too. A page of the same
  gigabyte that was mapped before keeps its rights if and only if the new page asks for as much (`KeptIff`, `MapBoth`);
  a writable page beside a read-only one is read-only. Pages elsewhere lose no rights (`KeptElsewhere`).
* `vm_address_space_clone` copies the self-map entry of the source over that of the copy (`Clone`), and
  `vm_address_space_destroy` does not release the root table's frame (`CloneThenDestroy`).
* `vm_address_space_destroy` drops one count for each reference. A frame that two spaces map and that is counted once
  then has no count although it is still mapped (`SharedPageLost`); `Destroy` has the exact condition.
* `vm_alloc_vaddr` steps a 64-bit pointer. Where the range that it tries has bytes in the last page of the address space,
  or that page is mapped, the pointer wraps and the walk goes on at address 0. `Searched` says exactly when; behind a
  prefix of mapped pages it is when the range has bytes in the last page (`FirstFreeAfterPrefix`, `LastPageAstray`), and
  `Allocated` carries this into `KernAllocAnywhere`, `Expand` and `Alloc`. For a size above the region's end the bound
  `end - size` wraps, and what is found is not in the region (`AllocVaddr`).
* `kmem_alloc` rounds sizes above 2^64 - 32 to 0 (`RoundUpFits`, `RoundUpWraps`). For sizes that round to 2^64 - 32 the
  expansion's sum with the header is 0, for which `DIV_CEIL` yields all pages there are (`PageCount`).
* The rollback of `vm_kern_alloc_anywhere` unmaps nothing once the address to be mapped next has wrapped to 0. This is so
  if and only if the size is 0 and the frames last for exactly the pages that are left (`LeakedIff`). All of them then
  stay mapped, and the kernel heap cannot grow again (`LeakingRequest`).
* `sys_trim` gives memory back in units of 64 KB, and the kernel unmaps whole pages of 2 MB. What the allocator keeps
  stays mapped if and only if the cut is on a page boundary (`CutOnPages`); otherwise the very next store, of the header
  behind the new top, is on a page that has gone (`HeaderLost`). A heap of one free segment is always such a case
  (`FreshTrim`).
* `kmem_alloc_aligned` adds size and alignment on words. The block has the requested bytes if and only if neither the sum
  nor its rounding wraps (`NoWrap` in `AllocAligned`); `WrappedRequest` is a request whose header falls outside its
  block.
* `syscall_mtransfer` checks sums that may wrap. Accepted arguments are user ranges if and only if they do not
  (`AcceptedRange`, `WrappingAccepted`). For sizes that wrap, all-or-nothing still holds if some page up to the end of
  user space cannot move; if all can, the loop runs on into the self-map (`Transfer`, outcome `Beyond`).
* `syscall_mtransfer` also refuses a zero destination before it gets to the branch that would choose one
  (`AcceptedRange`).
* In `vfprintf` a precision too large for an `int` is an overflow, except with `%#o`, where it is replaced by the
  digits' own length (`PrintInteger`, by way of `Fits`). `%p` without a precision prints as few digits as it can.

## Files

| files | subject |
|---|---|
| Words, BitMaps, BinIndex | machine words, bin maps, bin arithmetic |
| TriePaths, TrieMemory, TrieUnlink, TrieRelink, BestFit, LargeBins | the tries: invariant, insertion, removal, search |
| Rings, SmallBins | circular lists, the small bins |
| HeapLayout, HeapSegments, HeapOwners, HeapSafety, SystemMemory, HeapTrim, Dlmalloc, TrimPages | boundary tags, segments, owners, memory given back, malloc and free |
| PageIndex, PageTables, PageRights, VirtualMemory, MemoryTransfer, SpaceClone, SpaceDestroy | address spaces |
| KernelRange, ChunkList, KernelHeap | the kernel heap |
| Sets, Futex, FutexRuns, KernelLists, Scheduler, TimerHeap | futex, lists, scheduler, timers |
| Numerals, Fields, Formats, Printf, FormatMeaning | formatted output |

## Model

| member | source | states |
|---|---|---|
| `BinIndex.BinRange` | osrt/c/dlmalloc.c:2837-2848 | a size is filed in the bin whose range `[minsize(i), minsize(i+1))` holds it if and only if it is below 2^40 or its low 40 bits select the last bin: the index is computed from a 32-bit truncation |
| `BinIndex.BinRangeAboveLimit` | osrt/c/dlmalloc.c:2837-2848 | the same for sizes of 2^40 and more, in terms of the low 40 bits alone |
| `BinIndex.MisfiledSize` | osrt/c/dlmalloc.c:2837-2848 | a chunk of exactly 2^40 bytes is filed in bin 0, outside its range |
| `BinIndex.BinsOrdered` | osrt/c/dlmalloc.c:2900-2911 | a smaller bin index means strictly smaller sizes, for all rightly filed sizes |
| `BinIndex.BinPrefix` | osrt/c/dlmalloc.c:2900-2911 | all sizes of one bin agree on every bit above the first bit that the tree walk looks at |
| `BinIndex.ShiftInBin` | osrt/c/dlmalloc.c:2904-2906 | the left shift of a size places exactly its offset within its bin in the steering word |
| `BitMaps.MarkBit` | osrt/c/dlmalloc.c:2917-2924 | or-ing `idx2bit(i)` sets bit i and no other |
| `BitMaps.ClearBit` | osrt/c/dlmalloc.c:2917-2925 | and-ing its complement clears bit i and no other |
| `BitMaps.LeastBitIsLeast` | osrt/c/dlmalloc.c:2929 | `x & -x` on a word of n bits is the lowest set bit of x |
| `BitMaps.SameOrLeft` | osrt/c/dlmalloc.c:2935 | `x` or-ed with `-x`, for a single bit x, covers every position from that bit up |
| `BitMaps.LeftBitsBit` | osrt/c/dlmalloc.c:2932 | `left_bits` of bit i is the set of positions above i |
| `BitMaps.NextBin` | osrt/c/dlmalloc.c:4462-4470 | the bit trick of the large search finds the first marked bin above i, and yields 0 only if there is none |
| `BitMaps.FirstSetBit` | osrt/c/dlmalloc.c:2940-2945 | `compute_bit2idx(least_bit(x))` is the first marked bin |
| `SmallBins.NoneFrom` | osrt/c/dlmalloc.c:4579-4595 | the small map shifted by i is 0 if and only if no chunk of the small bins has the size of bin i or more |
| `TrieMemory.AttachRootKeeps` | osrt/c/dlmalloc.c:3653-3659 | storing a chunk in an empty bin keeps the whole trie invariant (prefix property, unique sizes, rings, parents, map bits) |
| `TrieMemory.AttachLeafKeeps` | osrt/c/dlmalloc.c:3663-3674 | hanging a chunk at the free slot that its own steering word leads to keeps it |
| `TrieMemory.JoinKeeps` | osrt/c/dlmalloc.c:3680-3688 | linking a chunk behind the node of its size keeps it |
| `TrieUnlink.MemberKeeps` | osrt/c/dlmalloc.c:3718-3728 | cutting a ring member that is no tree node keeps it |
| `TrieUnlink.PromoteKeeps` | osrt/c/dlmalloc.c:3718-3783 | a tree node with a ring gives its place to its `bk` neighbour and the invariant holds |
| `TrieUnlink.LeafKeeps` | osrt/c/dlmalloc.c:3729-3756 | a lone leaf leaves, and the map bit of an emptied bin goes with it |
| `TrieUnlink.MoveKeeps` | osrt/c/dlmalloc.c:3729-3783 | a lone interior node gives its place to a leaf below it: every path still spells the size's bits |
| `TrieRelink.PromoteRelinks` | osrt/c/dlmalloc.c:3745-3783 | the stores into header or parent and children amount to replacing the node by its ring neighbour, ring links aside |
| `TrieRelink.MoveRelinks` | osrt/c/dlmalloc.c:3738-3783 | nulling the leaf's slot first and then relinking moves the leaf to the node's place |
| `LargeBins.TreeBins.constructor` | osrt/c/dlmalloc.c:3910-3917 | empty bins are valid and hold nothing |
| `LargeBins.TreeBins.Insert` | osrt/c/dlmalloc.c:3647-3696 | the bins stay valid and their contents grow by exactly the chunk with its size |
| `LargeBins.TreeBins.Unlink` | osrt/c/dlmalloc.c:3715-3784 | the bins stay valid and their contents shrink by exactly the chunk, whether ring member, leaf or interior node |
| `LargeBins.TreeBins.CutRightmost` | osrt/c/dlmalloc.c:3730-3743 | the loop to the rightmost descendant ends at a leaf below the node and clears exactly the slot that points to it |
| `BestFit.BetterIsLess` | osrt/c/dlmalloc.c:4445-4450 | the wrapped test `trem < rsize` picks a chunk if and only if it fits and is smaller than the best so far |
| `BestFit.BeyondIsLarger` | osrt/c/dlmalloc.c:2372-2386 | a chunk to the right of a subtree is larger than every chunk in it |
| `BestFit.FirstPassCovers` | osrt/c/dlmalloc.c:4443-4460 | after the first walk every fitting chunk is either no better than the best so far or in, or right of, the deepest untaken right subtree |
| `BestFit.SecondPassLeast` | osrt/c/dlmalloc.c:4472-4479 | the least size of a subtree, and of all to its right, is on its leftmost path |
| `BestFit.ChosenFits` | osrt/c/dlmalloc.c:4433-4482 | a chunk that the search returns is large enough, whatever the bins hold |
| `BestFit.ChosenLeast` | osrt/c/dlmalloc.c:4433-4482 | if any binned chunk is large enough, the search returns one of the least size that is (sizes and request rightly filed) |
| `BestFit.SmallestIsLeast` | osrt/c/dlmalloc.c:4504-4519 | the chunk for a small request is the smallest of all tree-binned chunks |
| `LargeBins.ChosenIsBest` | osrt/c/dlmalloc.c:4433-4482 | the same for every valid set of bins, and also when nothing is large enough |
| `LargeBins.BestFitMissed` | osrt/c/dlmalloc.c:4438 | for every misfiled request, of any index, there are valid bins with all sizes rightly filed that hold a large enough chunk which the search misses: this condition of best fit cannot be dropped |
| `LargeBins.MisfiledMissed` | osrt/c/dlmalloc.c:4433-4482 | for every misfiled chunk size there is a rightly filed request, no larger, for which the search misses a chunk of this size though it is alone in the bins: nor can the condition on the chunks |
| `LargeBins.SmallestMissed` | osrt/c/dlmalloc.c:4504-4519 | for every misfiled chunk size there are valid bins in which such a chunk is taken for a small request though a smaller one is there |
| `LargeBins.RingTests` | osrt/c/dlmalloc.c:3718-3726 | the ring test before a tree chunk is unlinked always passes |
| `LargeBins.TreeBins.FirstWalk` | osrt/c/dlmalloc.c:4439-4460 | the first loop computes the first walk: best chunk, remainder and where to go on |
| `LargeBins.TreeBins.SecondWalk` | osrt/c/dlmalloc.c:4472-4479 | the second loop computes the walk to the leftmost leaf |
| `LargeBins.TreeBins.Search` | osrt/c/dlmalloc.c:4433-4479 | both loops and the step to the next marked bin find the chosen chunk and its remainder |
| `LargeBins.TreeBins.SelectLarge` | osrt/c/dlmalloc.c:4433-4482 | what is returned is a least fitting chunk that beats the designated victim; 0 means that nothing fits or that the victim fits at least as well |
| `LargeBins.TreeBins.SelectSmall` | osrt/c/dlmalloc.c:4504-4519 | what is returned is a smallest chunk of all trees |
| `SmallBins.RemainderlessBits` | osrt/c/dlmalloc.c:4579-4583 | `smallbits & 3` is non-zero if and only if this bin or the next one is marked |
| `SmallBins.NextSmallBin` | osrt/c/dlmalloc.c:4599-4601 | the bit trick for small bins finds the first marked bin above i |
| `SmallBins.InsertKeeps` | osrt/c/dlmalloc.c:3569-3585 | the stores of an insertion keep all 32 rings and the map, and add exactly the chunk |
| `SmallBins.UnlinkKeeps` | osrt/c/dlmalloc.c:3588-3611 | the stores of a removal keep them, and take out exactly the chunk |
| `SmallBins.RingChecks` | osrt/c/dlmalloc.c:3594-3607 | the integrity tests before a removal always pass |
| `SmallBins.Bins.constructor` | osrt/c/dlmalloc.c:3910-3917 | `init_bins` gives valid, empty bins |
| `SmallBins.Bins.Insert` | osrt/c/dlmalloc.c:3569-3585 | contents grow by exactly the chunk with its size |
| `SmallBins.Bins.Unlink` | osrt/c/dlmalloc.c:3588-3611 | contents shrink by exactly the chunk |
| `SmallBins.Bins.UnlinkFirst` | osrt/c/dlmalloc.c:3614-3629 | the first chunk of a marked bin leaves, and nothing else |
| `HeapLayout.HeadReadsBack` | osrt/c/dlmalloc.c:2248-2264 | size and both in-use bits read back from the one word that holds them |
| `HeapLayout.FreeNeighbours` | osrt/c/dlmalloc.c:3263-3283 | a free chunk has chunks in use on both sides: no two free chunks are adjacent |
| `HeapLayout.Previous` | osrt/c/dlmalloc.c:3263-3283 | `prev_foot` leads to the free chunk that ends here |
| `HeapLayout.TakeKeeps` | osrt/c/dlmalloc.c:4587-4589 | using a free chunk as a whole keeps the layout of tags and segments |
| `HeapLayout.SplitKeeps` | osrt/c/dlmalloc.c:4610-4615 | splitting a free chunk keeps it |
| `HeapLayout.MergeKeeps` | osrt/c/dlmalloc.c:4704-4763 | merging a run of chunks into one free chunk keeps it |
| `HeapSegments.NewTopKeeps` | osrt/c/dlmalloc.c:3895-3907 | a new segment with its own top chunk keeps the layout |
| `HeapSegments.GrowTopKeeps` | osrt/c/dlmalloc.c:4202-4208 | memory right behind the top segment keeps it |
| `HeapSegments.GrowDownKeeps` | osrt/c/dlmalloc.c:3939-3978 | memory right below a segment, as one chunk in use, keeps it |
| `HeapSegments.CloseKeeps` | osrt/c/dlmalloc.c:3981-4031 | turning the old top into a free chunk, a segment record and fenceposts keeps it |
| `HeapOwners.TakeSafe` | osrt/c/dlmalloc.c:4587-4589 | with the owners of chunks (top, dv, bins, program, records): using a free chunk keeps the heap safe and every live block as it was |
| `HeapOwners.SplitSafe` | osrt/c/dlmalloc.c:4609-4662 | splitting keeps it safe, the rest being the new dv, binned, or the new top |
| `HeapOwners.FreedSafe` | osrt/c/dlmalloc.c:4704-4773 | freeing any live chunk, whatever it merges with, keeps it safe and every other live block as it was |
| `HeapOwners.CutSafe` | osrt/c/dlmalloc.c:3939-3978 | cutting a chunk in use in two keeps it safe |
| `HeapSafety.PayloadsDisjoint` | osrt/c/dlmalloc.c:3286-3297 | no address is in two live blocks |
| `HeapSafety.TagsOutsidePayload` | osrt/c/dlmalloc.c:3218-3283 | no word that the allocator relies on lies in a live block |
| `HeapSafety.ScribblingIsSafe` | osrt/c/dlmalloc.c:4543-4788 | whatever the program writes into its blocks, the heap stays safe |
| `HeapSafety.SegmentTiled` | osrt/c/dlmalloc.c:3422-3450 | every address of a segment is in a chunk or in the overhead at its end |
| `HeapSafety.CoveredOnce` | osrt/c/dlmalloc.c:3422-3450 | and in one chunk only |
| `HeapSafety.FreeChunkFacts` | osrt/c/dlmalloc.c:3263-3283 | a free chunk is exactly one of top, dv and binned, its neighbours are in use and its size is in the foot behind it |
| `SystemMemory.GrowSizeFits` | osrt/c/dlmalloc.c:4051-4053 | a padded size that passes the wrap-around test holds request and padding |
| `SystemMemory.GrowSizeFails` | osrt/c/dlmalloc.c:4051-4053 | the test fails if and only if the sum does not fit a word |
| `SystemMemory.MmapSizeFits` | osrt/c/dlmalloc.c:3826-3832 | the same for directly mapped chunks |
| `SystemMemory.MapsExtended` | osrt/c/dlmalloc.c:4170-4226 | directly mapped chunks stay apart from a heap that grows |
| `SystemMemory.FencesOutside` | osrt/c/dlmalloc.c:3841-3842 | the fake headers behind a directly mapped chunk are in no block that is mapped on its own |
| `Dlmalloc.RequestSizeFits` | osrt/c/dlmalloc.c:2230-2236 | a padded request is aligned, holds the block and the next size word, and wastes less than two words unless it is the minimum; small if and only if the request is |
| `Dlmalloc.Malloc.constructor` | osrt/c/dlmalloc.c:3910-3917 | an empty allocator is valid |
| `Dlmalloc.Malloc.InsertChunk` | osrt/c/dlmalloc.c:3788-3790 | small and large bins together grow by exactly the chunk |
| `Dlmalloc.Malloc.UnlinkChunk` | osrt/c/dlmalloc.c:3792-3794 | and shrink by exactly the chunk |
| `Dlmalloc.Malloc.ReplaceDv` | osrt/c/dlmalloc.c:3633-3642 | the old designated victim is binned and the new one is in place |
| `Dlmalloc.Malloc.TakeSmall` | osrt/c/dlmalloc.c:4581-4592 | a remainderless fit serves the request: the first chunk of its bin goes into use whole, and every other owner is as before |
| `Dlmalloc.Malloc.SplitSmall` | osrt/c/dlmalloc.c:4595-4619 | a chunk of the next marked small bin serves it, whole or split; the rest of a split is the new dv and the old one is binned |
| `Dlmalloc.Malloc.TreeSmall` | osrt/c/dlmalloc.c:4504-4539 | a tree chunk serves a small request, the rest becoming dv; it is the smallest of all if they are rightly filed |
| `Dlmalloc.Malloc.TreeLarge` | osrt/c/dlmalloc.c:4433-4501 | a tree chunk serves a large request, the rest being binned; it is a best fit if all is rightly filed. Otherwise nothing changes, and then every chunk that fits is no smaller than a dv that fits too |
| `Dlmalloc.Malloc.UseDv` | osrt/c/dlmalloc.c:4637-4655 | the designated victim serves it; its rest is the new one if it makes a chunk, and else there is none |
| `Dlmalloc.Malloc.UseTop` | osrt/c/dlmalloc.c:4657-4667 | the low end of top serves it and top begins behind it |
| `Dlmalloc.Malloc.FromBins` | osrt/c/dlmalloc.c:4574-4626 | the small path: the smallest chunk of the small bins that fits serves if it fits without remainder; otherwise, if dv is too small, the smallest of them that fits, and else one of the trees; or unchanged, and then dv fits or no binned chunk does |
| `Dlmalloc.Malloc.FromLarger` | osrt/c/dlmalloc.c:4594-4624 | the part of it that splits: the smallest fitting chunk of the small bins, or a tree chunk if there is none, or unchanged and no binned chunk fits |
| `Dlmalloc.Malloc.FromTrees` | osrt/c/dlmalloc.c:4629-4635 | the large path: a tree chunk that fits better than dv, the smallest that fits if all is rightly filed; or unchanged, and then none does better |
| `Dlmalloc.Malloc.FromDvOrTop` | osrt/c/dlmalloc.c:4637-4667 | then dv, then top; or unchanged, and nothing that the allocator holds is large enough |
| `Dlmalloc.Malloc.FromHeap` | osrt/c/dlmalloc.c:4571-4667 | which chunk serves, in terms of the bins, dv and top before the call, and what becomes of its rest; or unchanged, and nothing that the allocator holds serves |
| `Dlmalloc.Malloc.MmapAlloc` | osrt/c/dlmalloc.c:3825-3850 | a directly mapped chunk of the whole region, its header and the two fake ones behind it as `do_check_mmapped_chunk` wants them, or nothing changed; the latter exactly if the system fails or the size wraps |
| `Dlmalloc.Malloc.FirstSegment` | osrt/c/dlmalloc.c:4175-4194 | the first region becomes a segment that is all top |
| `Dlmalloc.Malloc.AppendSegment` | osrt/c/dlmalloc.c:4196-4208 | a region behind the top segment extends top |
| `Dlmalloc.Malloc.PrependAlloc` | osrt/c/dlmalloc.c:3939-3978 | a region below a segment serves the request, and its rest joins the segment's first chunk |
| `Dlmalloc.Malloc.AddSegment` | osrt/c/dlmalloc.c:3981-4031 | any other region becomes a new top, the old one being closed off with a record of its segment, which joins the list |
| `Dlmalloc.Malloc.TakeIn` | osrt/c/dlmalloc.c:4170-4226 | whatever the region, the heap stays valid and either has served the request or has a top that can; the list of segments is exactly: the top segment made longer, or the segment above it, or a new one at the front |
| `Dlmalloc.Malloc.SysAlloc` | osrt/c/dlmalloc.c:4036-4242 | the system serves: by a mapping of its own exactly if the request is at least the threshold, the heap has a segment and the system has the region; otherwise by one region taken into the heap, with the exact new segments; otherwise nothing changed, and the system had no memory or the size wraps |
| `Dlmalloc.Malloc.FreeChunk` | osrt/c/dlmalloc.c:4699-4775 | all coalescing cases: the chunk merges with the free chunks around it and the result has one owner, top before dv before a bin; all other live chunks are as they were, the heap is valid |
| `HeapTrim.TrimExtraFits` | osrt/c/dlmalloc.c:4299-4303 | on words that may wrap: whole units of top go, and what stays is more than the padding and at most one unit more |
| `HeapTrim.CutTopSafe` | osrt/c/dlmalloc.c:4305-4343 | giving back the end of top keeps the heap safe and every live block as it was, if the system takes no more than these bytes |
| `HeapTrim.NoLinkInTop` | osrt/c/dlmalloc.c:4311 | no segment record is in the top segment: `has_segment_link` never stops it from being cut |
| `HeapTrim.OnlyTwo` | osrt/c/dlmalloc.c:4260 | a segment whose first chunk is free and reaches to the trailing overhead has one chunk more, the one with its own record |
| `HeapTrim.UnusedFacts` | osrt/c/dlmalloc.c:4260-4270 | this free chunk is dv or in a tree bin, never in a small one, so `unlink_large_chunk` is right |
| `HeapTrim.DropSafe` | osrt/c/dlmalloc.c:4260-4277 | giving back such a segment keeps the heap safe and every live block as it was |
| `Dlmalloc.Malloc.ReleaseUnused` | osrt/c/dlmalloc.c:4247-4292 | afterwards every segment behind the first holds a block; the bytes released are exactly those that left the segments, and blocks are as they were |
| `Dlmalloc.Malloc.SysTrim` | osrt/c/dlmalloc.c:4294-4357 | top keeps padding and overhead and at most one unit more, no segment behind the first stays unused, and the bytes are accounted for; blocks are as they were; the threshold is set aside exactly if nothing went and top is still above it |
| `Dlmalloc.Malloc.FreeAndTrim` | osrt/c/dlmalloc.c:4733-4775 | memory goes back exactly if top has grown beyond the threshold, or when the counter of tree insertions runs out; what has gone then, and that the counter counts |
| `Dlmalloc.Malloc.Allocate` | osrt/c/dlmalloc.c:4543-4677 | every call keeps the allocator valid; a block is new, disjoint, and at least as large as asked and less than a minimal chunk larger. If dv, top or a binned chunk (of the trees: rightly filed) is large enough, the chunk that is due serves and segments and mappings are as before; otherwise the system serves, as SysAlloc says, or null is returned and nothing changed |
| `Dlmalloc.StarvedOrServed` | osrt/c/dlmalloc.c:4574-4669 | the two cases exclude each other: a request is not passed to the system when a chunk is due for it |
| `Dlmalloc.Malloc.Release` | osrt/c/dlmalloc.c:4681-4788 | every legal call, with the trimming that follows, keeps the allocator valid, releases exactly that block, leaves every other block alone and adds nothing to the segments; memory goes back exactly when FreeAndTrim says so; regions go on to start on page boundaries |
| `TrimPages.UnmapN` | kernel/k_memory.c:728-741 | every page with a byte of the range is unmapped, the start being rounded down, and no other; a panic if and only if one of them is not mapped |
| `TrimPages.CutOnPages` | osrt/c/dlmalloc.c:4312-4317 | when the end of top goes, all that the allocator keeps stays on mapped pages if and only if the top segment then ends on a 2 MB boundary |
| `TrimPages.LostExactly` | kernel/k_memory.c:728-741 | otherwise the bytes that are lost are exactly those kept on the page where the cut starts |
| `TrimPages.HeaderLost` | osrt/c/dlmalloc.c:3905 | the header that `init_top` stores behind the new top is then among them: this store faults if and only if the cut is not on a page boundary |
| `TrimPages.DropOnPages` | osrt/c/dlmalloc.c:4271 | a segment that goes as a whole takes nothing else with it |
| `TrimPages.UnmapOnPages` | osrt/c/dlmalloc.c:4707-4709 | nor does a chunk that was mapped on its own |
| `TrimPages.TrimTopPages` | osrt/c/dlmalloc.c:4294-4343 | the two together: after trimming top with the system's own unmapping, what is kept is on mapped pages if and only if nothing went or the cut is on a page boundary |
| `TrimPages.FreshTrim` | osrt/c/dlmalloc.c:4294-4343 | on every heap of one segment that is all free and larger than 64 KB, trimming loses the page of what is kept |
| `PageIndex.PageRoundTrip` | kernel/k_memory.c:234-252 | the three table indices of a canonical address lead back to its page |
| `PageIndex.TriplesDistinct` | kernel/k_memory.c:250-252 | distinct pages have distinct index triples |
| `PageTables.LeafStore` | kernel/k_memory.c:410-434 | a store into a leaf table changes what exactly one page's walk sees, in every address space |
| `PageTables.HungLookup` | kernel/k_memory.c:384-408 | linking an empty table changes no walk's answer |
| `PageTables.RelinkedLookup` | kernel/k_memory.c:384-409 | rewriting the attributes of an upper entry changes no walk's answer |
| `VirtualMemory.Vm.constructor` | kernel/k_memory.c:28-37 | memory at boot, as it is found, without address spaces: valid, and quiet, that is, only counted frames that are no tables are mapped |
| `VirtualMemory.Vm.Alloc` | kernel/k_memory.c:151-174 | the first frame nobody counts, now counted once; 0 if there is none |
| `VirtualMemory.Vm.NewTable` | kernel/k_memory.c:384-408 | a missing table is allocated, zeroed and linked if and only if a frame other than frame 0 can be had; no other entry of any table changes |
| `VirtualMemory.Vm.IsMapped` | kernel/k_memory.c:439-450 | true if and only if the abstract map holds the page |
| `VirtualMemory.Vm.GetPma` | kernel/k_memory.c:273-281 | the frame of the abstract map plus the offset, or 0 |
| `VirtualMemory.Vm.MapPage` | kernel/k_memory.c:381-437 | the abstract map gains exactly this page, on success; it is unchanged on failure and when the page was mapped. It fails exactly if the tables that are missing need more frames than there are. No entry changes off the walk to the page; the processor grants on the page what was asked, and on every other page of the map what `RightsAfter` says. Memory stays quiet if the frame is counted and no table |
| `VirtualMemory.Vm.StoreLeaf` | kernel/k_memory.c:420-434 | the stores into the three entries: the same on rights and entries, once the tables are there |
| `VirtualMemory.Vm.MapBoth` | kernel/k_memory.c:381-437 | two pages of one gigabyte: the first keeps what both calls ask for, so all that was asked for it if and only if the second asks for as much |
| `PageRights.KeptIff` | kernel/k_memory.c:424-426 | mapping a page leaves the rights of another page of the same gigabyte alone if and only if they are what its leaf and the new attributes both grant |
| `PageRights.KeptElsewhere` | kernel/k_memory.c:420-422 | outside this gigabyte rights never shrink, and are kept if the root entry grants all that is granted below it |
| `PageRights.AttrsReadBack` | kernel/k_memory.c:283-298 | the attributes that a page is mapped with read back from its leaf entry, and no two sets of attributes are the same word |
| `VirtualMemory.Vm.UnmapPage` | kernel/k_memory.c:710-726 | the abstract map loses exactly this page, and its frame is returned; exactly one entry changes, so the rights of all other pages are kept; memory stays quiet |
| `MemoryTransfer.TransferMoves` | kernel/k_syscall.c:277-309 | each source page is gone from the source and in the destination on the same frame |
| `MemoryTransfer.TransferSpares` | kernel/k_syscall.c:277-309 | every page outside both ranges is as it was |
| `MemoryTransfer.RollBack` | kernel/k_syscall.c:277-302 | taking the pages mapped so far out again gives back the map of the start |
| `MemoryTransfer.AcceptedRange` | kernel/k_syscall.c:226-247 | arguments that pass the checks are page ranges of user space if and only if neither sum with the size wraps; the destination is not 0, so the branch that would choose one is dead |
| `MemoryTransfer.AcceptedIff` | kernel/k_syscall.c:226-248 | which arguments pass the checks, if and only if: allowed flags and two user pages with their whole ranges in user space when no sum wraps, and what of the sums is left when one does; which are denied, and that the rest is invalid |
| `MemoryTransfer.WrappingAccepted` | kernel/k_syscall.c:232-247 | a size that passes the checks because both sums wrap, and whose second destination page is the self-map entry |
| `MemoryTransfer.UnmapRange` | kernel/k_memory.c:728-741 | a range of pages leaves the map; no entry changes outside the user half of this space |
| `MemoryTransfer.Step` | kernel/k_syscall.c:277-303 | one round maps one page, or changes nothing and says why |
| `MemoryTransfer.Undo` | kernel/k_syscall.c:279-302 | the rollback restores the map exactly |
| `MemoryTransfer.Transfer` | kernel/k_syscall.c:221-313 | all or nothing: on success exactly the pages of the range have moved, on every error both maps are as they were; refused arguments get the answer of the checks and change nothing, and a range that can move is refused only when no frame is left for a table. No entry changes outside the two user halves. The loop leaves user space only for a size that wraps, and only if every page up to there can move |
| `SpaceClone.ClonePd` | kernel/k_memory.c:486-524 | on success a leaf table on a new frame, every page copied to a frame that was free; it fails only when frames have run out, with fewer taken than the table refers to |
| `SpaceClone.ClonePdp` | kernel/k_memory.c:526-558 | the same one level up |
| `SpaceClone.ClonePml4Entry` | kernel/k_memory.c:576-592 | one round of the top loop adds one copied subtree |
| `SpaceClone.Create` | kernel/k_memory.c:617-647 | a new root on a free frame, an empty user half, the kernel half shared, entry 256 pointing at itself, exactly if there is a frame other than frame 0 and room for the record; the loaded table may be the boot table, and memory stays quiet |
| `SpaceClone.Boot` | kernel/ig_entry.c:90-91 | the first address space, from memory as it is found at boot: valid, quiet, empty, with the kernel half of the boot table |
| `SpaceClone.BackedInUse` | kernel/k_memory.c:486-558 | the pages of a space are on counted frames if and only if all frames that its tables lead to are in use |
| `SpaceClone.Clone` | kernel/k_memory.c:597-609 | succeeds if and only if there is room for the record and there are more free frames than the user half refers to, frame 0 being in use. Then: the same user pages with the same attributes, rights and contents, all three levels of tables with the same bits, the kernel half entry by entry the source's, entry 256 included, so that its self-map leads to the source; counts grown by exactly the new frames, nothing that was in use touched, memory still quiet |
| `SpaceClone.CopyShown` | kernel/k_memory.c:486-592 | the copy of a page is a page of the copy, with the same attributes and the same rights, on another frame with the same contents |
| `SpaceClone.BootAndClone` | kernel/k_syscall.c:90-125 | a run from boot: create a space, take a frame, map a page on it, clone the space; it takes exactly eight frames. The copy shows the page with the same attributes and the rights that were asked for, and memory is quiet |
| `SpaceClone.OnePage` | kernel/k_memory.c:382-437 | a space in which only one page was mapped refers to two tables and one frame |
| `SpaceDestroy.CloneFramesFresh` | kernel/k_memory.c:486-524 | the frames of a clone's pages were free before and are pairwise distinct |
| `SpaceDestroy.Free` | kernel/k_memory.c:176-180 | one count less, modulo 256 |
| `SpaceDestroy.EmptyPd` | kernel/k_memory.c:452-460 | every page of the table is released once and no entry stays |
| `SpaceDestroy.EmptyPdp` | kernel/k_memory.c:462-472 | the same one level up |
| `SpaceDestroy.Destroy` | kernel/k_memory.c:474-484 | every reference from the user half is dropped, by exactly its multiplicity; all other spaces keep their tables and pages, and memory stays quiet if and only if the counts of their pages' frames, as bytes, outlast these references; so always if no page was shared |
| `SpaceDestroy.TwoPages` | kernel/k_memory.c:452-484 | a frame that is no table is dropped twice only if two pages of the space are on it |
| `SpaceDestroy.SharedPageLost` | kernel/k_memory.c:474-484 | a run from boot that ends with a page on a frame that nobody counts: two spaces map one frame, counted once, and one of them is destroyed; it takes exactly seven frames |
| `SpaceDestroy.CloneThenDestroy` | kernel/k_memory.c:649-656 | cloning and destroying the clone restores every count but one, the root table's own, and leaves all earlier spaces valid with their old maps |
| `SpaceDestroy.CloneAndDestroy` | kernel/k_memory.c:597-656 | the two calls in sequence, whenever the clone succeeds: every count as before but the root table's own, earlier spaces valid with their old maps |
| `KernelRange.AllocVaddr` | kernel/k_memory.c:306-334 | for sizes up to the region's end: the lowest page-stepped start whose whole range is unmapped and has no byte in the last page; none if and only if no range is free and none leads to the last page; otherwise the walk steps from the last page to address 0. A range that is found is inside the region if and only if the size is no larger than its end |
| `KernelRange.FirstFreeAfterPrefix` | kernel/k_memory.c:306-334 | if the mapped pages form a prefix, that start is where the prefix ends, unless the range is outside the region or leads to the last page |
| `KernelRange.LastPageAstray` | kernel/k_memory.c:311-327 | with the last page alone unmapped, even the smallest range leads the walk to address 0 |
| `KernelRange.KernAllocAnywhere` | kernel/k_memory.c:761-797 | a range is mapped as a whole or not at all, unless the mapping runs on behind the last page; behind a prefix of mapped pages the outcome and the new end of the prefix are functions of its end, the size and the frames at hand, and so if all pages are mapped |
| `KernelRange.AllocatedIs` | kernel/k_memory.c:761-797 | these functions, for sizes other than 0: the range starts at the end of the prefix, it fails if it is outside the region or frames run out, and goes astray only if it has bytes in the last page; nothing leaks |
| `KernelRange.LeakedIff` | kernel/k_memory.c:776-791 | a failed allocation leaves all pages mapped if and only if the size is 0 and the frames last for exactly the pages that are left: the rollback then compares with an address that has wrapped to 0 |
| `KernelRange.NothingAfterAll` | kernel/k_memory.c:306-334 | if all pages are mapped, no range is found: the walk steps to address 0, unless the bound for this size lies before the last page |
| `KernelRange.TakeBack` | kernel/k_memory.c:786-790 | the rollback unmaps exactly the pages below the one that was to be mapped next, and none if that is page 0 again |
| `ChunkList.Ordered` | kernel/k_memory.c:863-930 | the chunk list is in address order |
| `ChunkList.Conserved` | kernel/k_memory.c:863-930 | headers and chunks add up to the heap's size |
| `ChunkList.SplitTiled` | kernel/k_memory.c:908-923 | a split keeps the tiling, and the merged-neighbours property once the front is in use |
| `ChunkList.JoinTiled` | kernel/k_memory.c:969-980 | merging a chunk into the one before keeps the tiling |
| `ChunkList.JoinMerged` | kernel/k_memory.c:1013-1024 | and clears a place where two free chunks met |
| `ChunkList.GrowTiled` | kernel/k_memory.c:862-877 | a new chunk at the end keeps both, with a seam between the expansions |
| `KernelHeap.RoundUpFits` | kernel/k_memory.c:884 | the rounded size holds the request if and only if the addition does not wrap, that is, for sizes up to 2^64 - 32 |
| `KernelHeap.RoundUpWraps` | kernel/k_memory.c:884 | all larger requests are rounded to 0 |
| `KernelHeap.PowerGrain` | kernel/k_memory.c:943-966 | alignments of 32 and more are multiples of the grain, so that the aligned header always fits before the block |
| `KernelHeap.BlocksDisjoint` | kernel/k_memory.c:880-930 | no address is in two live blocks |
| `KernelHeap.PointersDistinct` | kernel/k_memory.c:983-999 | different blocks have different pointers, aligned ones included |
| `KernelHeap.Heap.constructor` | kernel/k_memory.c:828-849 | the first chunk is the first free page and the heap is valid |
| `KernelHeap.Heap.FirstFit` | kernel/k_memory.c:886-895 | the first free chunk that is large enough |
| `KernelHeap.Heap.Expand` | kernel/k_memory.c:862-877 | a new free chunk exactly at the end of the heap, large enough, or no chunk; when, as `Allocated` tells from the end of the mapped pages, with the header's sum as a word. The heap stays valid, and without a chunk only the mapped pages may have changed, exactly when `Extent` says so |
| `KernelHeap.Heap.Alloc` | kernel/k_memory.c:879-930 | for every size: the first free chunk that is large enough for the rounded size serves, or else an expansion; the block has at least the rounded size and less than a minimal chunk more. Otherwise the outcome is that of the expansion, and chunks and blocks are as before |
| `KernelHeap.LeakingRequest` | kernel/k_memory.c:862-930 | on every fresh heap a request of 2^64 - 40 bytes, with frames for just the pages that are left, fails and leaves them mapped, and no expansion succeeds from then on |
| `KernelHeap.Heap.AllocAligned` | kernel/k_memory.c:943-966 | for every size and power of two: an aligned pointer inside one new live chunk, behind its header, cut from the first chunk that fits; if none does, from an expansion, with its outcome as in Alloc. The requested bytes are inside if and only if neither the sum nor its rounding wraps, and only with a wrap can the header fall outside, exactly when the aligned address does |
| `KernelHeap.WrappedRequest` | kernel/k_memory.c:943-966 | on every fresh heap a request of 2^64 - 64 bytes aligned to 64 is such a case |
| `KernelHeap.Heap.Free` | kernel/k_memory.c:988-1027 | for every live pointer, aligned or plain, exactly its chunk is released; no two free neighbours remain within one expansion |
| `KernelHeap.Heap.MergeAround` | kernel/k_memory.c:1003-1024 | both merges restore the merged-neighbours property |
| `Futex.StepKeeps` | kernel/k_futex.c:104-165 | every step of every thread keeps the invariant of bucket, list, count and program counters |
| `Futex.RunInv` | kernel/k_futex.c:104-165 | it holds in every state of every run |
| `Futex.CountIsLength` | kernel/k_futex.c:104-165 | whenever the bucket lock is free, the count is the length of the list |
| `Futex.NobodyCounted` | kernel/k_futex.c:142 | a waker that sees no waiters after its store may leave: no thread that read the old value is queued or about to be |
| `Futex.PhaseKeeps` | kernel/k_futex.c:137-165 | the waker's progress, from load to unlock, survives every step of every thread |
| `Futex.NoLostWakeup` | kernel/k_futex.c:104-190 | in every interleaving, once a waker that found the value changed for good has completed a wake of all, no thread that read the old value is queued on the address, nor about to be, ever after |
| `FutexRuns.StuckIff` | kernel/k_futex.c:104-165 | a thread has no next step if and only if it is blocked, or wants the bucket lock while it is taken |
| `FutexRuns.OutsideIsFree` | kernel/k_futex.c:104-190 | a thread outside may wait for any value, wake any number and store any value |
| `FutexRuns.LockIsReleased` | kernel/k_futex.c:104-165 | in every run the holder of the lock lets go of it after a number of its own steps that is known when it is taken |
| `FutexRuns.OthersWait` | kernel/k_futex.c:104-165 | meanwhile no other thread changes list, count or lock |
| `FutexRuns.WaitReturns` | kernel/k_futex.c:104-133 | a wait returns only because its load found another value, or because a wake on the same address took it off the list |
| `FutexRuns.ReaderIsQueued` | kernel/k_futex.c:104-127 | a thread that read the value it waits for is at the head of the list, and blocked, when the lock is next free |
| `FutexRuns.WakeTakes` | kernel/k_futex.c:137-165 | in every run a wake of n leaves exactly what the list loop leaves: the first n entries for its address are gone and no other; the count is the length of the list |
| `Rings.InsertRing` | kernel/k_list.h:45-54 | the four stores of `list_insert` put the node behind the given one in the ring |
| `Rings.RemoveRing` | kernel/k_list.h:56-62 | joining the neighbours takes exactly the node out of the ring |
| `Rings.InsertApart` | kernel/k_list.h:45-54 | no other ring notices |
| `Rings.RemoveApart` | kernel/k_list.h:56-62 | no other ring notices a removal either |
| `Rings.RemoveUndoesInsert` | kernel/k_list.h:45-62 | a step: removing the node just inserted gives the ring back |
| `KernelLists.UnlinkRing` | kernel/k_list.h:56-62 | after `list_remove` the ring is closed and the node is a ring of its own |
| `KernelLists.Lists.HeadInit` | kernel/k_list.h:38-43 | a node that is a ring of its own |
| `KernelLists.Lists.Insert` | kernel/k_list.h:45-54 | the ring with the node in its place |
| `KernelLists.Lists.Remove` | kernel/k_list.h:56-62 | the ring without the node, the node on its own |
| `KernelLists.Lists.IsEmpty` | kernel/k_list.h:64-68 | true if and only if the list has no members |
| `KernelLists.TakenExactly` | kernel/k_futex.c:149-162 | the split of a queue into taken and kept nodes loses nothing, takes only matching ones, at most n, and leaves a matching one only if n were taken |
| `KernelLists.Lists.Wake` | kernel/k_futex.c:149-162 | the loop that removes while it walks takes exactly the first matching nodes, in order, counts them, leaves each on its own and touches no node off the list |
| `KernelLists.Lists.Adopt` | kernel/k_proc.c:349-360 | the loop that moves every child to another list empties the one and prepends the reversed children to the other, touching nothing else |
| `Scheduler.ClampedInBand` | kernel/k_sched.c:165-191 | a priority change by one stays in the class's band if and only if the class is not idle; idle falls through to level 1 |
| `Scheduler.BandsPartition` | kernel/k_sched.c:37-45 | each of the 64 levels is in the band of exactly one class, the more urgent class has the higher levels, and how wide the bands are |
| `Scheduler.QuantumSteps` | kernel/k_sched.c:117-145 | a fresh quantum is two ticks at the top of a band and two ticks more on each level below |
| `Scheduler.FreshQuantum` | kernel/k_sched.c:128-163 | a fresh quantum is a positive multiple of the tick, odd for idle |
| `Scheduler.OddStaysOdd` | kernel/k_sched.c:298-299 | an odd quantum never runs down to zero |
| `Scheduler.StartInv` | kernel/k_sched.c:76-90 | the start state satisfies the invariant |
| `Scheduler.RepositionKeeps` | kernel/k_sched.c:200-208 | moving a process to the list of its new priority keeps the invariant |
| `Scheduler.ReadyKeeps` | kernel/k_sched.c:92-104 | making a process ready keeps it, counts included |
| `Scheduler.SwitchKeeps` | kernel/k_sched.c:293-308 | switching to a ready process keeps it |
| `Scheduler.TakeOffKeeps` | kernel/k_sched.c:106-115 | taking the running process off and dispatching another keeps it |
| `Scheduler.IdleIsReady` | kernel/k_sched.c:248-262 | the lists of a CPU are never all empty |
| `Scheduler.HeadIsHighest` | kernel/k_sched.c:248-262 | the head of the highest non-empty list has the highest priority of all ready processes of the CPU |
| `Scheduler.HigherIsOther` | kernel/k_sched.c:286-288 | at the preempt branch the next process is not the current one |
| `Scheduler.StaysIffAlone` | kernel/k_sched.c:299-310 | after a demotion the same process is picked again if and only if every other ready one is below its new level |
| `Scheduler.AfterZero` | kernel/k_sched.c:298-299 | a step: a quantum of 0 wraps to 2^64 - 10 at the next tick |
| `Scheduler.Queues.constructor` | kernel/k_sched.c:335-359 | every CPU runs its own idle process and the invariant holds |
| `Scheduler.Queues.PickCpu` | kernel/k_sched.c:57-74 | the first CPU with the fewest processes |
| `Scheduler.Queues.SetReady` | kernel/k_sched.c:217-221 | the process is at the end of the list of its priority on the first CPU with the fewest processes; counts, lists and nothing else change |
| `Scheduler.Queues.Enter` | kernel/k_sched.c:210-215 | a new process enters at the top of its band, at the end of its list on the first CPU with the fewest processes |
| `Scheduler.Queues.PickNext` | kernel/k_sched.c:248-262 | the head of the highest non-empty list; there always is one |
| `Scheduler.Queues.ShouldPreempt` | kernel/k_sched.c:264-274 | true if and only if a ready process has a higher priority than the running one |
| `Scheduler.Queues.UpdatePosition` | kernel/k_sched.c:200-208 | the process is at the end of the list of its priority |
| `Scheduler.Queues.Tick` | kernel/k_sched.c:276-314 | after every tick nothing ready on the CPU has a higher priority than what runs, other CPUs are as they were; who runs, with which level and quantum, in each of the three cases, and nothing else changes; the quantum is left at 0 exactly when it ran out and nobody could take over |
| `Scheduler.UsesUp` | kernel/k_sched.c:276-314 | a run from the start in which this happens: one process beside idle, three ticks |
| `Scheduler.Queues.Block` | kernel/k_sched.c:223-228 | with the rescheduling that follows: the process is off its list, one level up within its band; the first of the highest ready processes that are left runs, with a fresh quantum; no other process, list, count or CPU changed |
| `Scheduler.Queues.Leave` | kernel/k_sched.c:230-234 | the same for a process that ends, nothing of it changed but that it is no longer ready |
| `TimerHeap.RootIsLeast` | kernel/k_timer.c:82-86 | the root of a heap is due first |
| `TimerHeap.SiftUpStep` | kernel/k_timer.c:130-139 | a swap with the parent moves the one place where order is broken up, never onto the sentinel |
| `TimerHeap.SiftDownStep` | kernel/k_timer.c:162-175 | a swap with the earlier child moves it down |
| `TimerHeap.OnePath` | kernel/k_timer.c:162-175 | the nodes on the path of a sift lie below one another |
| `TimerHeap.StopsSafely` | kernel/k_timer.c:157-160 | where a sift stops of itself it was not on its way to a fault |
| `TimerHeap.ThreeTimersFault` | kernel/k_timer.c:162 | taking the first of three timers faults if and only if the second is not due after the third |
| `TimerHeap.Heap.constructor` | kernel/k_timer.c:39-52 | an empty heap below its sentinel |
| `TimerHeap.Heap.Expand` | kernel/k_timer.c:54-74 | twice the room, the same elements in the same places |
| `TimerHeap.Heap.Top` | kernel/k_timer.c:82-86 | an element with the least deadline |
| `TimerHeap.Heap.Insert` | kernel/k_timer.c:114-140 | heap order holds and the multiset of timers grows by exactly the new one, through an expansion too |
| `TimerHeap.Heap.Extract` | kernel/k_timer.c:142-178 | the code reads a missing right child if and only if the sift path leads to a last node with only a left child and the moved element is not due before it; otherwise order holds and exactly the root is gone, equal deadlines included |
| `TimerHeap.Heap.ExecCallbacks` | kernel/k_timer.c:180-197 | for any number of rounds, and callbacks that set timers: every timer called is due and the earliest of those waiting, none is lost or called twice, and none that is due stays when it ends; without new timers they are called in the order of their deadlines; it stops early only at the faulting extraction of a timer that is due |
| `Numerals.DigitsReadBack` | osrt/c/vfprintf.c:254-275 | the digits of a number read back as the number, in every base |
| `Numerals.WordFits` | osrt/c/vfprintf.c:254-275 | no 64-bit value has more than 22 digits: the buffer is large enough |
| `Numerals.FmtShift` | osrt/c/vfprintf.c:254-266 | `fmt_x` and `fmt_o` write exactly the digits, right-aligned, and nothing else into the buffer |
| `Numerals.FmtU` | osrt/c/vfprintf.c:268-275 | the same for `fmt_u`, both loops |
| `Numerals.GetInt` | osrt/c/vfprintf.c:561-572 | the number that the run of digits shows, or -1 if and only if it is above `INT_MAX`; the position is behind the run |
| `Numerals.GetIntInverts` | osrt/c/vfprintf.c:561-572 | `getint` reads what `fmt_u` writes, wherever it stands in a text |
| `Fields.FieldReadsBack` | osrt/c/vfprintf.c:724-825 | whatever the flags, width and precision, the field reads back as the argument, sign included |
| `Fields.MarkShown` | osrt/c/vfprintf.c:724-765 | the field shows `-`, `+`, a space or a mark of the base exactly where the conversion and its flags ask for it, and only padding stands before it |
| `Fields.OneWidthPad` | osrt/c/vfprintf.c:820-825 | of the three pads to the width at most one writes, and together they write what is missing |
| `Fields.Stream.Pad` | osrt/c/vfprintf.c:241-250 | the loop over pieces of 256 writes exactly the missing characters, or none |
| `Fields.Stream.Emit` | osrt/c/vfprintf.c:820-825 | the six writes lay out prefix, zeros, digits and padding as the flags say |
| `Fields.Stream.PrintInteger` | osrt/c/vfprintf.c:724-827 | the field of the conversion is written and its length returned, or nothing is written, the latter if and only if precision, field or total do not fit an `int` |
| `Fields.Stream.PrintChar` | osrt/c/vfprintf.c:762-765 | the same for `%c` |
| `Formats.PassedIsShown` | osrt/c/vfprintf.c:175-233 | a step: an argument that its type can hold is the number that the conversion shows |
| `Printf.SkipPairs` | osrt/c/vfprintf.c:605-606 | each pair of percent signs counts for one character |
| `Printf.ReadFlags` | osrt/c/vfprintf.c:621-625 | exactly the set of flag characters |
| `Printf.ReadWidth` | osrt/c/vfprintf.c:627-641 | the width, a star's argument, or an overflow |
| `Printf.ReadPrecision` | osrt/c/vfprintf.c:643-662 | the precision and whether it counts as given |
| `Printf.ReadEnding` | osrt/c/vfprintf.c:664-671 | the loop of the state machine ends at the specifier, or finds the format invalid |
| `Printf.PrintfCore` | osrt/c/vfprintf.c:574-846 | what is written is what the format means, step by step, and on success the count returned is the number of characters written |
| `FormatMeaning.DirectiveReads` | osrt/c/vfprintf.c:612-671 | reading a spelled-out conversion gives back its flags, width, precision, modifier and specifier |
| `FormatMeaning.TextPrints` | osrt/c/vfprintf.c:603-610 | a text with its percent signs doubled prints as itself |
| `FormatMeaning.FormatMeans` | osrt/c/vfprintf.c:574-846 | for every list of texts and conversions: printing its format succeeds if and only if every field can be made and the whole is no longer than `INT_MAX`; then exactly the texts and fields are printed, and otherwise the outcome is an overflow and nothing else |

## Left out

User heap:

- Dlmalloc.Malloc.Release: legal frees only, since an illegal one ends in the usage error action. `munmap` is taken to succeed, as the system's wrapper says it does, and to take exactly the bytes named; what becomes of the heap with the kernel's whole pages is in TrimPages.
- Dlmalloc.Malloc.SysTrim: the same on `munmap`.
- Dlmalloc.Malloc.FreeAndTrim: the same on `munmap`.
- HeapTrim.CutTopSafe: the same on `munmap`.
- TrimPages.UnmapN: the checks of the system call before it are not modelled.
- Dlmalloc.Malloc.Allocate: the system's answer to `mmap` is a parameter, any 16-aligned region that overlaps nothing the allocator holds. It has to be one, because `map_page` in `osrt/rt/memory.c` returns its own argument, which is null here, and not the address that the kernel chose; footprint statistics and the footprint limit are not modelled.
- LargeBins.TreeBins.SelectLarge: least size is promised for rightly filed sizes only; the list above says why.
- The corruption and usage error actions. The tests on rings before them are proved to pass for both kinds of bins; the `ok_address`, `ok_next` and `ok_pinuse` tests are modelled on the path of `Release` only.
- `realloc`, `memalign`, `dispose_chunk`, bulk operations, mspaces, `mallinfo`: repeats of splitting and coalescing, or configuration variants.

Address spaces:

- SpaceClone.Clone: the kernel heap is taken not to expand for the record; states when a copy fails, but not what its rollback leaves, nor anything about the lower 4 KB entries of a 2 MB frame beyond the 512 of a table.
- MemoryTransfer.Transfer: mappings only; reference counts, handles and locks are not modelled. The model stops where the page loop leaves user space, and says nothing about the maps then.
- SpaceClone.Create: the record of the space comes from the kernel heap, which is taken not to expand during the call, so that it takes no frames.
- VirtualMemory.Vm.Alloc: one CPU at a time; the retry for concurrent allocation is not modelled.
- VirtualMemory.Vm.MapPage: user addresses only; remapping a page to another frame is the source's panic and a precondition here.
- The kernel half of the tables, `syscall_mmap`, the page-size bit, TLB handling.

Kernel heap:

- KernelRange.AllocVaddr: the model stops where the walk steps from the last page to address 0, and says nothing about which range is found for a size above the region's end.
- KernelRange.KernAllocAnywhere: the model stops where the mapping goes on at address 0.
- KernelHeap.Heap.AllocAligned: the model stops where a header would be stored outside its block.
- KernelHeap.Heap.Free: live pointers only; anything else is the source's panic.
- `kmem_realloc`.

Futex, lists, scheduler, timers:

- Futex.NoLostWakeup: kernel addresses and one bucket; the hash, and user addresses with their translation, are not modelled.
- KernelLists.Lists.Wake: what happens to the woken process is in Scheduler, not here.
- Scheduler.Queues.Block: taking the running process off its list and dispatching the next one is one step; the window between them in which the lists do not match the running process is not claimed about. The same holds for Leave.
- Scheduler.Queues.Tick: the `sched_enabled` switch, locks and the context switch itself are not modelled.
- TimerHeap.Heap.Expand: running out of memory is the source's panic.
- TimerHeap.Heap.ExecCallbacks: of what callbacks do, only the timers that they set are modelled; that the rounds end is not claimed, since callbacks can go on setting timers that are due.

Formatted output:

- Printf.PrintfCore: `%s`, `%n`, `%m` and positional arguments end in an outcome that stands for "not modelled"; floating point and wide characters print nothing, as in the source. The first pass, which only looks at the first directive, is not modelled. A missing argument reads as 0.
- Printf.ReadWidth: the negation of a star's width of -2^31, undefined in C, is the mathematical one.

Everything else: boot, interrupts, ACPI, SMP, SIMD, console, ports, kernel objects, processes, ELF loading, the rest of the C runtime.
