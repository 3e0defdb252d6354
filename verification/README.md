# A model of QEMU's hard cores

This project models parts of the QEMU 2.9 emulator in Dafny and proves what they keep, over every run, every
input and every interleaving. Each module follows one component.

| module | component | main result |
|---|---|---|
| `Exclusive` | the stop-the-world protocol of `cpus-common.c`, as a state machine with one step for each shared access | mutual exclusion in every interleaving (`MutualExclusion`), no lost wake-up (`LastLeaverSignals`), no deadlock (`NoDeadlock`), a bound on the steps until a request is granted (`RequestBound`), refinement of a readers-writer lock (`RefinesReadersWriter`) |
| `PhysTree`, `PhysMap`, `Dispatch` | the physical page map of `exec.c`: radix tree, path compression, subpages, cached section | a lookup after any list of sections and any history of lookups finds the one section that has the address (`LookupAfter`); building aborts exactly if the list needs more section numbers than fit a page offset (`Commit`) |
| `RamList` | the RAM block list, its best-fit allocator and the chunked dirty bitmap of `exec.c` | invariants over any sequence of adds and frees; exactly which dirty bits are set after an add, for every page (`RamBlockAdd`) |
| `Tlb` | the software TLB of `cputlb.c` with its victim table and large-page region | a hit is never a translation that a flush since its install has named (`Lookup`) |
| `Icount` | the instruction-count clock of `cpus.c` and `cpu-exec.c` | over any interleaving of slices, reads, adjustments and warps every instruction is accounted, and the readings never go back in precise mode, nor in adaptive mode until an idle period ends (`Run`) |
| `BlockPerm`, `BlockAppend` | permissions, reference counts and `bdrv_append` in `block.c` | an accepted permission update leaves compatible users, unless two edges that it changes into one node clash (`AcceptedExact`), and where each node is reached by one path it installs what was checked (`ChildTrySetPerm`); on all paths of every append that makes no cycle, and the lemma says exactly which ones do, the counts balance, what is still used survives, what is not is gone, and the graph stays acyclic (`Append`, `AppendExact`) |
| `GuestBlocks`, `GuestPages`, `MappingList` | the guest memory map for dumps (`memory_mapping.c`, `dump.c`) | the block list is a canonical form of the memory map (`CuttingIrrelevant`) |
| `KdumpBitmap`, `KdumpPages`, `Kdump` with `FlatFile`, `DumpWords` | the kdump-compressed vmcore of `dump.c` | every guest page, and no other, is read back by its number (`CreateVmcore`) |
| `ElfDump`, `ElfWriter` | the ELF vmcore of `dump.c` | offsets computed before the memory is written name exactly that memory (`DumpGuestMemory`) |
| `GdbFraming` | packet framing in `gdbstub.c`, after Appendix E.1 (Overview) of "Debugging with GDB" | a framed payload reaches the handler whole if and only if it is short enough and has no '#' and no zero byte (`HandedRoundTrip`) |

State that the source updates in place is a class with `modifies` clauses; its methods are proved against functions
and predicates on values, about which the lemmas speak. Memory that the code reaches through pointers appears as
sequences, maps or arrays. What comes from outside (permission verdicts of drivers, compression, the notes, the host
clock, how many instructions a block has) is a parameter, and the results hold for every value of it. A file
descriptor that runs full is part of the model: every writer says what an error means.

Where the code does not do what one would expect, the model follows the code and states exactly when the expected
property holds:

- `Kdump.LayoutExact`: the offsets of a kdump file are products of 32-bit words, so for a large enough guest the page
  area overlaps the bitmaps (`LayoutWraps` is such a guest).
- `ElfDump.PhdrExact`: a 32-bit ELF file keeps the low halves of offsets and sizes. `NarrowPhdr` is a header that is
  read back as another one, and `ElfWriter.NarrowHole` says that every mapping of memory outside the dump has such a header.
- `GdbFraming.FrameRoundTrip`: the sender accepts a packet that is one byte too long for the receiver (`FullPacketLost`).
- `GdbFraming.HandedRoundTrip`: the handler gets a C string, so a zero byte cuts what it sees of an accepted packet
  (`ZeroCuts`), also of an escaped one, since zero bytes are not escaped.
- `GdbFraming.ReadMemory`: the longest memory read that is let through leaves no room for the closing zero of its reply.
- `Icount.IcountState.WarpRt`: in adaptive mode the end of an idle period takes the clock back if and only if it was
  ahead of real time (`WarpGoesBack`).
- `RamList.ExtendedExact`: growing the dirty bitmap after a block was freed drops the bits above the old end
  (`FreeThenGrow` is a run that loses set bits).
- `MappingList.ClipTranslation`: a mapping at virtual address 0 keeps that address when it is clipped (`ClipAtZero`).
- `BlockAppend.LinkExact`, `BlockAppend.ReplaceExact`, `BlockAppend.AppendExact`: `bdrv_set_backing_hd`,
  `bdrv_replace_node` and `bdrv_append` do not look for cycles; the lemmas say exactly which links, replacements and
  appends make one (`LinkCycle` and `AppendCycle` are such inputs; `OldLinkDropped` is an append that makes none, because
  the new node's old backing link is dropped first).
- `BlockPerm.AcceptedExact`: two edges into one node are each checked against what the other one used before, so an
  update that the check accepts can leave two users that exclude each other (`DiamondBreaks` is such an update). A
  new use never clashes with one that is kept, so comparing the edges that the update changes itself is an exact test.
- `Dispatch.Commit`: the section numbers share the page offset's bits, so building the dispatch aborts if and only if the
  list needs more than 4096 of them (`OnePagesTake`: 4093 devices of one page each do).

## Model

| member | source | states |
|---|---|---|
| Exclusive.MutualExclusion | cpus-common.c:180-297 | In every interleaving of any number of CPU threads and callers, while one thread is between the return of `start_exclusive` and `end_exclusive`, no other thread is between the return of `cpu_exec_start` and `cpu_exec_end`, and no second thread is exclusive. |
| Exclusive.CountWhenFree | cpus-common.c:180-297 | Whenever the list lock is free, `pending_cpus` is 0 and no `has_waiter` is set, or one thread is in its section and `pending_cpus` is exactly 1 plus the number of CPUs with `has_waiter`. |
| Exclusive.CountedWillLeave | cpus-common.c:193-289 | While the list lock is free, a CPU with `has_waiter` set still has its `cpu_exec_end` ahead, at a point from which its load of `pending_cpus` cannot miss the request. |
| Exclusive.SleeperHasCounted | cpus-common.c:202-206 | A `start_exclusive` asleep on `exclusive_cond` while the lock is free waits for a CPU that is counted. |
| Exclusive.LastLeaverSignals | cpus-common.c:286-296 | When the last counted CPU passes its signal, no thread is left asleep on `exclusive_cond`. |
| Exclusive.ReadySteps | cpus-common.c:171-297 | A thread that is awake and not waiting for a held lock has a step. |
| Exclusive.NoDeadlock | cpus-common.c:171-297 | If a thread is inside the protocol, some thread can step, or the exclusive thread is in its section, or a counted CPU is executing guest code: the protocol never blocks by itself. |
| Exclusive.OwnStep | cpus-common.c:180-211 | Each step of a `start_exclusive` that has raised `pending_cpus` brings it closer to its return, except that a wake-up without a signal costs at most two steps. |
| Exclusive.OtherStep | cpus-common.c:222-297 | No step of another thread moves a waiting `start_exclusive` away from its return, and each step of a counted CPU brings it closer. |
| Exclusive.GrantedInTime | cpus-common.c:180-297 | In any stretch of any run during which a `start_exclusive` waits, the steps of its thread and of the CPUs that it has counted, plus the work left, are at most the work at the start plus two for each wake-up without a signal. |
| Exclusive.WorkAtFirst | cpus-common.c:188-190 | When `pending_cpus` is raised, the work is 15 for each CPU plus 6. |
| Exclusive.RequestBound | cpus-common.c:180-297 | From raising `pending_cpus` to its return a `start_exclusive` waits for at most 15 steps for each CPU plus 6, of its own thread and of CPUs that it has counted, plus two for each wake-up without a signal, in every run. |
| Exclusive.SomebodyWorks | cpus-common.c:180-297 | While a `start_exclusive` waits, its thread or a CPU that it has counted can take such a step, or the holder of the list lock can step, or a counted CPU is executing guest code. |
| Exclusive.HolderLetsGo | cpus-common.c:222-297 | Another thread that holds the list lock meanwhile gives it up within four steps. |
| Exclusive.RefinesReadersWriter | cpus-common.c:180-297 | Every step of the protocol is a step, or a stutter, of a readers-writer lock on the set of executing CPUs and the exclusive thread. |
| Exclusive.RefinesStep | cpus-common.c:180-297 | The same for one step of one thread in a state that excludes the others. |
| Exclusive.InvStep | cpus-common.c:78-297 | Every step of every thread keeps the joint invariant on the lock, the CPU claims, the count, the flags, the scan and the sleepers. |
| Exclusive.InvRun | cpus-common.c:78-297 | The invariant holds in every state of every run, with CPUs joining and leaving (`cpu_list_add`, `cpu_list_remove`). |
| PhysTree.WalkPlain | exec.c:368-388 | On an uncompacted tree the descent from the root resolves every page to its entry in the flat view. |
| PhysTree.PlainIsPacked | exec.c:300-388 | An uncompacted tree satisfies the weaker invariant that compaction keeps. |
| PhysTree.MergedPacks | exec.c:316-347 | Replacing a pointer to a node with one used slot by a pointer past it misleads only pages that are unassigned. |
| PhysTree.MergeKeepsPacked | exec.c:316-347 | Storing such an entry keeps the invariant of the whole compressed tree. |
| PhysTree.WalkPacked | exec.c:300-388 | On a compressed tree, although skipped levels no longer test their index bits, the descent ends at the section of the flat view, or at some section while the page is unassigned. |
| PhysTree.LeafKeepsPlain | exec.c:261-285 | Writing a superpage leaf keeps the tree invariant; the view changes exactly on the leaf's pages. |
| PhysTree.GrowKeepsPlain | exec.c:241-275 | Hanging a fresh node under an empty entry keeps the tree invariant and the view. |
| PhysMap.PhysPageMap.constructor | exec.c:2493-2511 | A new map resolves every page to the unassigned section. |
| PhysMap.PhysPageMap.NodeReserve | exec.c:230-239 | After the reservation the array has room for the nodes asked for. |
| PhysMap.PhysPageMap.NodeAlloc | exec.c:241-259 | The new node is the next one of the array, filled with holes or with empty entries. |
| PhysMap.PhysPageMap.SetLevel | exec.c:261-285 | One call enters exactly the pages from `index` up to where it stops, stops at the end of the range or of its entry, keeps every other page, and allocates at most one node for each level at each end of the range. |
| PhysMap.PhysPageMap.SetSlot | exec.c:274-284 | The same for one round of the loop: a leaf if the range covers the slot, a recursion otherwise. |
| PhysMap.PhysPageMap.SetBelow | exec.c:280-281 | The recursive branch: the same for the entry below, one level down. |
| PhysMap.PhysPageMap.PageSet | exec.c:287-295 | `phys_page_set` refines one update of the flat map: exactly the pages of [index, index+nb) now resolve to the leaf; at most 2*levels-1 nodes are allocated, fewer than the 3*levels reserved. |
| PhysMap.PhysPageMap.FindLeaf | exec.c:368-388 | The loop of `phys_page_find` computes the recursive descent and never runs below the last level. |
| PhysMap.PhysPageMap.Compact | exec.c:300-348 | Compaction keeps the flat view; an entry is redirected exactly if its node has one used slot and the skip stays below 8. |
| PhysMap.PhysPageMap.CompactChildren | exec.c:311-327 | The loop compacts below every used slot and finds out whether there is exactly one. |
| Dispatch.CoversInRange | exec.c:357-366 | The last-byte test of `section_covers_addr` is the mathematical range test, also for a section that ends at the top of the address space. |
| Dispatch.AddressSpaceDispatch.constructor | exec.c:2493-2511 | A new dispatch maps nothing. |
| Dispatch.AddressSpaceDispatch.SectionAdd | exec.c:1127-1144 | A section gets the next number; the call aborts exactly when the numbers no longer fit a page offset. |
| Dispatch.AddressSpaceDispatch.SubpageRegister | exec.c:2412-2430 | Exactly the offsets of the given range of the subpage lead to the section; a range outside the page is refused and changes nothing. |
| Dispatch.AddressSpaceDispatch.RegisterSubpage | exec.c:1169-1197 | Registering a piece of a page, in a new or an existing subpage container, maps exactly the addresses of the piece; it takes one section number, and one more exactly if the page had no container, and aborts exactly if these do not fit. |
| Dispatch.AddressSpaceDispatch.RegisterMultipage | exec.c:1200-1210 | Registering whole pages maps exactly their addresses, takes one section number and cuts no page. |
| Dispatch.AddressSpaceDispatch.MemAdd | exec.c:1212-1243 | For any section of any alignment, `mem_add` maps exactly its addresses, to its region at the original offset, and keeps every other address; it aborts exactly if the section numbers that it costs do not fit, and takes exactly these. |
| Dispatch.CostIs | exec.c:1169-1243 | The cost of a section is one number for each piece that it is split into and one for each page that it covers in part and that had no container. |
| Dispatch.PartIs | exec.c:1212-1243 | The pages for which `mem_add` makes subpages are exactly those of which the section has some address and not all. |
| Dispatch.AddressSpaceDispatch.MemCommit | exec.c:2519-2531 | Compacting the map changes no address's meaning. |
| Dispatch.AddressSpaceDispatch.PageFind | exec.c:368-388 | The covers test of `phys_page_find` repairs what compaction lost: the result is the section of the flat view for every address. |
| Dispatch.AddressSpaceDispatch.LookupRegion | exec.c:397-421 | A subpage-resolving lookup returns the section of the flat view whatever the cached section is; another lookup returns this section or the one of the whole page; and every lookup leaves a cache for which this holds again. |
| Dispatch.AddressSpaceDispatch.Translate | exec.c:423-457 | The translated offset is the region's offset of the address; for RAM the length is clamped so that the whole range lies in the same section. |
| Dispatch.RedirectFlat | exec.c:1169-1243 | If lookups are redirected for exactly the addresses of a piece, the address map changes for exactly these. |
| Dispatch.ContainerKeeps | exec.c:1185-1192 | Putting a subpage container under a page changes no address's meaning. |
| Dispatch.SubPieceKeeps | exec.c:1169-1197 | Entering a piece into a container redirects exactly its addresses. |
| Dispatch.PagesKeep | exec.c:1200-1210 | Entering whole pages redirects exactly their addresses. |
| Dispatch.CachedLeads | exec.c:405-419 | A cached section that covers the address is the one a full lookup would find. |
| Dispatch.FlatMapAt | exec.c:1212-1243 | The address map of a list of disjoint sections holds an address exactly if some section of the list has it, with that section's region and offset. |
| Dispatch.Commit | exec.c:1212-1243 | Feeding any list of disjoint sections through `mem_add` and `mem_commit` gives a dispatch with the list's address map, and aborts if and only if four dummy sections, the pieces of all sections and one container for each page that some section covers in part are more than 4096. |
| Dispatch.NumbersBound | exec.c:1127-1243 | A list of n sections needs at most 4 + 5n numbers, so 818 always fit. |
| Dispatch.OnePagesTake | exec.c:1127-1144 | n devices of one page each are disjoint and need exactly 4 + n numbers, so 4093 of them make `phys_section_add` abort. |
| Dispatch.LookupAfter | exec.c:397-457 | End to end: after any list of disjoint sections that the numbers suffice for, as up to 818 do, and any history of lookups, resolving or not, a resolving lookup of any address yields the region of the one section that contains it at the original offset, or the unassigned region if none does. |
| RamList.FindRamOffset | exec.c:1495-1529 | The offset is the end of a block, behind which the gap is sufficient and no larger than any other sufficient gap; it fails exactly if no gap suffices, and is 0 for an empty list. |
| RamList.GapIsFree | exec.c:1495-1529 | A block placed in such a gap overlaps no existing block. |
| RamList.InsertSorted | exec.c:1768-1780 | Inserting before the first smaller block keeps the list sorted by size. |
| RamList.RamState.constructor | exec.c:1723-1799 | The empty list satisfies the invariant. |
| RamList.RamState.RamBlockAdd | exec.c:1723-1799 | Adding a block keeps blocks disjoint and the list sorted, takes the best gap, resets the most-recently-used block, keeps every dirty bit of the existing blocks and marks the new block dirty; for every page, in a block or not, the bit is set afterwards exactly if it is marked or was set in a bitmap that was not replaced; a failure changes nothing. |
| RamList.RamState.RamAlloc | exec.c:1849-1883 | Whatever the lengths, the block that is added has them rounded up to host pages, all the others stay, and every page of the requested part is dirty. |
| RamList.OthersKept | exec.c:1757-1788 | Because no bitmap below the last block's end is replaced and the marked pages lie in the new block, pages of other blocks keep their bits. |
| RamList.RamState.RamFree | exec.c:1922-1940 | Freeing removes one block, forgets the most-recently-used block and keeps the invariant, so it holds over any sequence of adds and frees. |
| RamList.RamState.GetRamBlock | exec.c:967-1003 | The lookup through the most-recently-used block returns what a linear search returns. |
| RamList.RamState.BlockFromHost | exec.c:2072-2116 | A host pointer leads to the most-recently-used block if that has it and otherwise to the first block of the list that has it, with its offset, rounded to a page if asked; none is returned exactly if no block has it. |
| RamList.RamState.RamAddrFromHost | exec.c:2140-2151 | With disjoint host ranges the result inverts the mapping from ram addresses to host pointers. |
| RamList.RamState.LastRamOffset | exec.c:1531-1542 | The result is the largest end of a block. |
| RamList.RamState.TestAndClearDirty | exec.c:1026-1062 | Exactly the pages that the byte range touches are cleared, in this client's bitmap only, and the result says whether one of them was set. |
| RamList.RamState.SetDirtyRange | include/exec/ram_addr.h:214-266 | For exactly the clients of the mask, exactly the pages from the start rounded down to the end rounded up are set, also if the range is empty. |
| RamList.RamState.DirtyMemoryExtend | exec.c:1683-1721 | Growing copies the chunks of the old size and adds empty ones. |
| RamList.ExtendedExact | exec.c:1683-1721 | A bit is set after growth if and only if it was set, and nothing was reallocated or its chunk lies below the old size: after blocks were freed, the bits above the old end are dropped. |
| RamList.FreeThenGrow | exec.c:1683-1799 | A run: with two blocks of 8 GiB in use, after the second is freed and a larger one is added with one page in use, every other page of the freed block was dirty before and is not dirty after. |
| RamList.ExtendedRoom | exec.c:1683-1721 | After growth every page of the new size has a slot. |
| RamList.TouchesIs | exec.c:1034-1039 | A byte range of non-zero length touches exactly the pages from its start rounded down to its end rounded up. |
| Tlb.CpuTlb.constructor | include/exec/cpu-defs.h:134-140 | Empty tables satisfy the invariant. |
| Tlb.CpuTlb.AddLargePage | cputlb.c:574-593 | The region grows to contain the new page, by the fewest address bits, and never loses an address. |
| Tlb.CpuTlb.Flush | cputlb.c:103-130 | Both tables are emptied and the large-page region is reset. |
| Tlb.CpuTlb.FlushByModes | cputlb.c:164-191 | Exactly the entries of the named modes are emptied. |
| Tlb.CpuTlb.FlushThePage | cputlb.c:249-285 | After a page flush no live entry stems from an install whose small or large page has the address; everything is flushed if the large-page region has it, otherwise exactly the entries for the page. |
| Tlb.CpuTlb.FlushPageByModes | cputlb.c:304-355 | The same for the named modes; other modes keep their entries. |
| Tlb.CpuTlb.SetPage | cputlb.c:602-691 | The new entry and its I/O entry are installed with the flags the memory map calls for, the old pair moves to the victim table, no other entry changes, and every live entry still has its own I/O partner and its install since the last flush naming its page. |
| Tlb.CpuTlb.VictimHit | cputlb.c:841-864 | A victim for the page is found if there is one, and is exchanged with the main entry together with its I/O entry; nothing else changes. |
| Tlb.CpuTlb.Lookup | cputlb.c:841-871 | In every run of installs, victim swaps and flushes, a hit returns a translation and I/O entry of one install for this mode and page that no later flush has named; it hits exactly if the main entry matches or a victim is the page. |
| Tlb.CpuTlb.SetDirty | cputlb.c:541-570 | The not-dirty flag is cleared exactly where the write comparator is the page with this flag, in both tables. |
| Tlb.NotNamed | cputlb.c:237-285 | An entry that a page flush does not hit, for an address outside the large-page region, comes from an install whose page does not have the address. |
| Tlb.RegionJoins | cputlb.c:574-593 | A region widened until it agrees with a page contains both. |
| Icount.Round | cpus.c:446-449 | The rounded count is the least number of instructions that reaches the time. |
| Icount.Limit | cpus.c:1176-1196 | The instruction limit is the least that reaches the deadline, for deadlines from 0 to INT32_MAX, to which others are set. |
| Icount.IcountState.constructor | cpus.c:230-278 | The counters start balanced and at zero. |
| Icount.IcountState.UpdateIcount | cpus.c:230-252 | Accounting in mid-slice moves instructions from the budget to the counter and loses none. |
| Icount.IcountState.GetIcount | cpus.c:254-278 | A reading never goes back, is exact for the running CPU itself and between slices, and does not disturb the sum. |
| Icount.IcountState.Prepare | cpus.c:1213-1230 | The slice budget is split between the 16-bit counter and the rest without loss. |
| Icount.IcountState.LoopExecTb | cpu-exec.c:569-618 | Running a block, and refilling the 16-bit counter or running the last few instructions uncached, has exactly the effect of `Executed` on the two counters and the interrupt flag, keeps counter plus budget, and never overruns the budget. |
| Icount.IcountState.Looks | cpus.c:230-492 | A read, an adjustment or the end of a warp at any time, also in the middle of a slice and from another thread, loses no instruction; no reading goes back unless a warp ends in adaptive mode. |
| Icount.IcountState.Process | cpus.c:1232-1245 | At the end of a slice the counter equals all instructions retired. |
| Icount.IcountState.Slice | cpus.c:1213-1245 | For any script of blocks, interrupts, reads, adjustments and warps, a slice retires exactly its budget minus what is left, never more; what is left is what the script leaves of the two counters, and a slice that ends early has run its whole script; the readings taken meanwhile rise. |
| Icount.IcountState.SliceTo | cpus.c:1176-1245 | A slice limited by a deadline in that range passes the deadline by less than one instruction's time; the readings taken meanwhile rise. |
| Icount.IcountState.Adjust | cpus.c:393-429 | In adaptive mode the clock reading is continuous when the shift changes, and the shift stays in 0..10. |
| Icount.IcountState.WarpRt | cpus.c:451-492 | Real time spent idle is added to virtual time, in adaptive mode no further than real time allows; then virtual time goes back if and only if it was ahead of real time. |
| Icount.WarpGoesBack | cpus.c:451-604 | A run in adaptive mode: after a hundred instructions a warp that begins and ends takes the clock back. |
| Icount.IcountState.StartWarpTimer | cpus.c:523-604 | Virtual time jumps to the deadline if the CPU does not sleep, and is unchanged otherwise. |
| Icount.IcountState.Run | cpus.c:230-604 | Over any sequence of slices, each with any script, and of reads, adjustments and warps between them, the counter ends equal to all instructions retired; each reading is at least the one before it, in precise mode always and in adaptive mode if no warp ends; the shift stays in 0..10 in adaptive mode and does not change in precise mode. |
| BlockPerm.ChildUse | block.c:1689-1748 | The default permission functions always let a child share unchanged writes if the parents do. |
| BlockPerm.BlockGraph.Accumulate | block.c:1595-1631 | The loop over the parents accepts exactly the permissions that fit every parent outside the ignore set, and accumulates what all of them use and share. |
| BlockPerm.BlockGraph.CheckUpdatePerm | block.c:1590-1634 | The check decides the recursive predicate: fits here, and the resulting totals fit every child below. |
| BlockPerm.BlockGraph.CheckPermOf | block.c:1425-1471 | The same from one node's totals down. |
| BlockPerm.BlockGraph.GetCumulativePerm | block.c:1529-1543 | The result joins what all parents use and intersects what they share. |
| BlockPerm.BlockGraph.ChildSetPerm | block.c:1650-1660 | The set phase on one edge of any acyclic graph gives every edge what `SetEdge` says, which follows the children in order, each with the totals that the earlier ones have left. |
| BlockPerm.BlockGraph.SetPerm | block.c:1498-1527 | The same from one node down. |
| BlockPerm.SetOutside | block.c:1498-1660 | The set phase changes the edge itself and edges out of nodes below it, and no other. |
| BlockPerm.SetInstalls | block.c:1498-1660 | Where each node below is reached by one path, every edge below gets exactly what the check phase approved for it, and all users of the nodes below are pairwise compatible. |
| BlockPerm.BlockGraph.ChildTrySetPerm | block.c:1667-1681 | The call succeeds exactly if the check passes; then the edge has the new permissions and the set phase has run below it, and otherwise no edge has changed. If all users of all nodes were compatible, after success they still are exactly if no two edges into one node that both got new permissions exclude each other; where each node below is reached by one path they are, and the edges below carry exactly what was checked. |
| BlockPerm.BlockGraph.RootAttachChild | block.c:1815-1844 | The same for attaching a new edge: success attaches it with the permissions asked for, failure leaves graph and permissions as they were; all users of all nodes stay compatible under the same exact condition. |
| BlockPerm.AcceptedExact | block.c:1425-1681 | In any acyclic graph with compatible users, an update that the check accepts leaves compatible users if and only if no two edges into one node that both get new permissions exclude each other: a new use never clashes with one that is kept, although the set phase computes it from permissions that other edges have got meanwhile. |
| BlockPerm.SetWithin | block.c:1498-1660 | At every point of the set phase each edge has its old use, or one of which every permission taken and every one not shared was examined by the check for that edge. |
| BlockPerm.DiamondBreaks | block.c:1590-1681 | A filter over two filters over one leaf, with nobody taking anything: the check lets the top edge take writing without sharing it, and the set phase leaves the leaf with two users that both write and do not share it. |
| BlockPerm.SameTotal | block.c:1590-1634 | The totals that the check phase computed with the old edge ignored are the cumulative permissions once the new edge is in place. |
| BlockPerm.CumJoins | block.c:1595-1631 | Accumulating around an ignored edge and adding it back gives the accumulation over all edges. |
| BlockPerm.KidsDone | block.c:1498-1527 | If the set phase is done on each child's tree, it is done on the whole tree, although each child's step runs on the permissions the earlier ones left. |
| BlockPerm.OutsideCompatible | block.c:1650-1681 | Nodes outside the tree below the edge keep compatible users. |
| BlockPerm.AttachedCheck | block.c:1815-1844 | A check that passed before the edge existed still passes with the edge in place and ignored. |
| BlockAppend.NodeGraph.Ref | block.c:4072-4075 | Taking a reference keeps "refcount is incoming edges plus external holders". |
| BlockAppend.NodeGraph.Unref | block.c:4080-4089 | Dropping a reference keeps it, deletes the node exactly if it was the last one, and leaves no node without a reference; a node that goes with it had no holder left. |
| BlockAppend.NodeGraph.Delete | block.c:3094-3109 | Deleting a node drops its edges, those that its driver's close function drops included, deletes every node that only they kept alive and no other, and keeps the invariant; no node without a reference is left. |
| BlockAppend.NodeGraph.UnrefChild | block.c:1894-1916 | Removing an edge drops its reference, deletes its node exactly if that was the last one, leaves no node without a reference, and clears the owner's backing field if it was that edge. |
| BlockAppend.NodeGraph.SetBackingHd | block.c:1943-1969 | For every link that makes no cycle once the old one is dropped: the old backing edge goes, with whatever only it kept alive; every node that the owner does not reach survives, and no node without a reference is left; the new edge is there exactly if it was permitted; the counts balance on both paths. |
| BlockAppend.NodeGraph.ReplaceNode | block.c:3001-3052 | For every replacement that makes no cycle: exactly the movable parents are re-pointed if that was permitted, every refcount balances, and the old node is deleted at the end exactly if no user and no holder of it is left; if one is, nothing else changes. |
| BlockAppend.ReplaceExact | block.c:3001-3052 | The re-pointed graph is acyclic if and only if the new node neither is nor reaches the owner of an edge that moves. |
| BlockAppend.NodeGraph.Append | block.c:3070-3092 | For every append that makes no cycle, also of a node that reached the old top: `bdrv_append` keeps the graph acyclic; the edges are exactly those of the spliced graph, without the new node's old backing link, whose owners are left; the new node is linked to the old top if it is left, and it is left if a user moved; the old top keeps every user if the new node did not reach it, and exactly the movable ones are re-pointed; every node that the new one did not reach survives, no node without a reference is left, and all refcounts balance, on success and on both failure paths. |
| BlockAppend.StillThere | block.c:3094-3109 | If a change deletes only nodes whose users and holders are gone, a node that was used stays unless the changed node reaches it. |
| BlockAppend.AppendKeeps | block.c:3070-3092 | What an append may change on all its paths leaves every node that the new node does not reach, and the old top with its users if the new node does not reach it. |
| BlockAppend.AppendEdges | block.c:3070-3092 | The edges that are left are those of the spliced graph, without the old backing link, whose owners are left. |
| BlockAppend.MovedKeeps | block.c:3038-3044 | Re-pointing one edge keeps all refcounts. |
| BlockAppend.RerankedKeeps | block.c:3001-3052 | If the new node leads to no edge that moves, the graph has a ranking in which the new node fits below the owners of all of them. |
| BlockAppend.AppendExact | block.c:3070-3092 | The graph that a permitted append asks for, the new node's old backing link dropped, is acyclic if and only if without that link the old top does not reach the new node, and the new node neither is nor reaches the owner of a movable edge into the old top. |
| BlockAppend.AppendLeaves | block.c:3070-3092 | The same condition is exact for the graph that is left when the old link is gone with all that only it kept alive. |
| BlockAppend.SpliceExact | block.c:3070-3092 | The same for a graph where the new node has no backing link. |
| BlockAppend.AppendCycle | block.c:3070-3092 | Of two nodes of which one uses the other, other than as its backing node: appending either to the other makes a cycle. |
| BlockAppend.OldLinkDropped | block.c:1943-1969 | A node on a backing node that uses the old top reaches the old top, and still may be appended, since its backing link is dropped first. |
| BlockAppend.LinkExact | block.c:1943-1969 | A new backing link leaves the graph acyclic if and only if it does not lead to the node itself or to a node that reaches it. |
| BlockAppend.LinkCycle | block.c:1943-1969 | In a graph of a node on top of another, the backing link from the lower to the upper one leaves no ranking. |
| BlockAppend.NotSelf | block.c:3070-3092 | In a graph with a ranking no node reaches itself. |
| BlockAppend.DroppedKeeps | block.c:3094-3109 | Removing a node without references keeps the invariant. |
| DumpWords.EncDec | dump.c:52-72 | A number stored in the dump's byte order is read back if it fits the field. |
| DumpWords.WordExact | dump.c:52-72 | It is read back if and only if it fits. |
| FlatFile.File.WriteBuffer | dump.c:674-693 | One record is added, unless the descriptor is full. |
| GuestBlocks.GuestPhysBlockList.RegionAdd | memory_mapping.c:198-262 | A RAM section is joined to the last block exactly if it continues it in guest and in host memory; the memory map changes exactly by the section. |
| GuestBlocks.GuestPhysBlockList.Append | memory_mapping.c:264-272 | The blocks are sorted and disjoint, no two neighbours could be joined, and every guest address has the host address that the sections give it. |
| GuestBlocks.CanonicalUnique | memory_mapping.c:198-262 | Two such block lists with the same memory map are equal. |
| GuestBlocks.CuttingIrrelevant | memory_mapping.c:198-262 | However the address space is cut into sections, the same memory gives the same blocks. |
| GuestBlocks.BuiltUsable | memory_mapping.c:198-262 | Page-aligned sections give blocks that meet the assertions of `get_next_page`. |
| GuestPages.PageIter.constructor | dump.c:1009-1021 | The iterator starts before the first page. |
| GuestPages.PageIter.Next | dump.c:1009-1053 | `get_next_page` delivers the pages of all blocks, each once, in order and with its bytes, and then reports the end. |
| GuestPages.ListIsGuest | dump.c:1009-1053 | A listed page has the bytes of that guest page. |
| GuestPages.GuestIsListed | dump.c:1009-1053 | Every page of every block is listed. |
| GuestPages.ListOrdered | dump.c:1009-1053 | Page numbers increase strictly, also across gaps between blocks. |
| GuestPages.PageAddresses | dump.c:989-1001 | A block has a page number exactly if it has all addresses of the page, and the page's bytes are those at these addresses. |
| KdumpBitmap.BitmapWriter.SetDumpBitmap | dump.c:936-987 | Setting or clearing a bit, with every buffer flush that the jump to it needs, changes exactly this bit in both copies. |
| KdumpBitmap.BitmapWriter.SyncBitmap | dump.c:1086-1098 | The last call with an unset bit flushes the last buffer, so that both copies are complete. |
| KdumpBitmap.BitmapWriter.WriteDumpBitmap | dump.c:1055-1105 | Both bitmap copies fill exactly their regions, which do not overlap; bit n is set if and only if page n is in a guest block, for arbitrary gaps; the count is the number of pages. |
| KdumpBitmap.LengthIs | dump.c:1573-1578 | The length from `dump_init` ends with the buffer of the last page number. |
| KdumpBitmap.LastBase | dump.c:1439-1445 | For any blocks the bitmap length is that of the buffers up to the last listed page. |
| KdumpBitmap.BaseIs | dump.c:954-955 | The buffer that a page number falls into starts where the quotient formulas say. |
| KdumpPages.ParseEnc | include/sysemu/dump.h:137-150 | A page descriptor is read back from its 24 bytes in either byte order. |
| KdumpPages.DescPlace | dump.c:1184-1340 | The k-th descriptor is at its place in the descriptor area. |
| KdumpPages.PayloadPlace | dump.c:1184-1340 | The bytes stored for a page are at the offset the writer has reached. |
| KdumpPages.DescNames | dump.c:1184-1340 | The k-th descriptor's offset and size name the file range with exactly the bytes stored for the k-th page; all zero pages share one. |
| KdumpPages.PagesReadBack | dump.c:1184-1340 | A reader who follows the descriptor and decompresses gets the page back. |
| KdumpPages.DataCache.constructor | dump.c:1107-1115 | An empty cache has written nothing. |
| KdumpPages.DataCache.Flush | dump.c:1129-1138 | Flushing puts the buffered bytes in the file and changes nothing before them. |
| KdumpPages.DataCache.Write | dump.c:1117-1147 | Through any sequence of buffer flushes the file and the buffer together hold what unbuffered appends would have written; a sync puts all of it in the file. |
| Kdump.WritePage | dump.c:1238-1340 | One round writes the page's stored bytes and its descriptor, with the compressed form exactly if it is shorter. |
| Kdump.WriteDumpPages | dump.c:1184-1351 | All descriptors and all page data are in the file, the descriptor area ends where the data begins, and nothing before it changes. |
| Kdump.RankIs | dump.c:1055-1105 | The number of set bits below a page number is the page's index among the descriptors. |
| Kdump.PageOffsetIs | dump.c:812-910 | Up to 32-bit wrapping the page area starts where the second bitmap ends. |
| Kdump.LayoutExact | dump.c:712-910 | The bitmaps end before the page area if and only if they end below 4 GiB; then they are adjacent. The block counts are 32-bit words. |
| Kdump.LayoutWraps | dump.c:812-910 | For a guest of 64 TiB with 4 KiB pages the page area starts where the bitmaps start. |
| Kdump.HeadersFit | dump.c:832-900 | If the sub-header and the notes end below 4 GiB, the bitmaps start behind them. |
| Kdump.CreateHeader | dump.c:712-922 | The header, the sub-header and the notes are in the file, and the offsets are those of the layout. |
| Kdump.VmcoreReadsBack | dump.c:1353-1409 | From the two bitmaps, the descriptors and the data, every page number that is a guest page is read back with its bytes, and no other is found. |
| Kdump.CreateVmcore | dump.c:1353-1409 | A kdump-compressed vmcore that was written without error and fits its fields lets a reader read back every guest page by number, and no other; the header, the sub-header and the notes are still where they were put. |
| MappingList.MemoryMappingList.Create | memory_mapping.c:25-53 | A mapping is inserted before the first one that does not start lower; the list stays sorted. |
| MappingList.MemoryMappingList.AddSimple | memory_mapping.c:320-329 | There is one mapping for each block, in order. |
| MappingList.MemoryMappingList.Filter | memory_mapping.c:331-356 | Walking and editing the list in place clips every mapping to the range and drops the ones outside it. |
| MappingList.Edit | memory_mapping.c:339-354 | An edited entry has exactly the addresses of the entry that are in the range. |
| MappingList.ClippedMaps | memory_mapping.c:331-356 | After filtering, an address is mapped if and only if it was mapped and is in the range. |
| MappingList.ClipTranslation | memory_mapping.c:343-349 | An entry cut at its start keeps its virtual addresses if and only if its virtual address is not 0. |
| MappingList.ClipAtZero | memory_mapping.c:343-349 | A mapping of physical page 1 at virtual address 0, clipped to physical page 2, says that page 2 is at virtual address 0, where the guest has it at 0x1000. |
| ElfDump.PhdrExact | dump.c:161-205 | A program header is read back from the file as it was meant if and only if its numbers fit the class; a 32-bit file keeps the low halves. |
| ElfDump.NarrowPhdr | dump.c:183-205 | The header of a mapping whose memory is not in the dump, with offset -1, is not read back from a 32-bit file. |
| ElfDump.DumpInfoOk | dump.c:161-205 | This holds for every class whose field sizes add up to its header sizes, in both byte orders. |
| ElfDump.ClassesOk | dump.c:161-205 | It holds for the 64-bit and the 32-bit class. |
| ElfDump.PlacedReads | dump.c:367-426 | For any mapping, file[p_offset, p_offset+p_filesz) is the guest memory at the mapping's physical address. |
| ElfDump.PlainInFull | dump.c:367-426 | Without paging every load is stored in full: p_filesz is p_memsz. |
| ElfDump.PlainOnce | dump.c:1608-1610 | Without paging the loads' address ranges are disjoint. |
| ElfDump.PlainHas | dump.c:1608-1610 | Without paging every guest address that the filter passes is in a load. |
| ElfWriter.DumpState.constructor | dump.c:1485-1523 | Nothing is written yet. |
| ElfWriter.DumpState.CalculateSize | dump.c:1463-1483 | The total is the number of bytes that `dump_iterate` writes, for any filter. |
| ElfWriter.DumpState.GetStartBlock | dump.c:1411-1437 | The first block in the range and the start in it, or -1 exactly if no block is in the range. |
| ElfWriter.DumpState.GetNextBlock | dump.c:568-593 | The next block in the range and the start in it, or the end exactly if there is none. |
| ElfWriter.DumpState.WriteMemory | dump.c:341-364 | The pages and the remainder of a range are written in order and counted; an error leaves the descriptor full. |
| ElfWriter.DumpState.WritePages | dump.c:347-354 | The loop over whole pages writes them in order and counts them. |
| ElfWriter.DumpState.Iterate | dump.c:596-619 | Exactly the selected part of every block is written, in order, and counted. |
| ElfWriter.DumpState.Layout | dump.c:1612-1654 | The header counts fit their 16 and 32 bits, and the memory offset is the size of the headers that `dump_begin` will write. |
| ElfWriter.DumpState.GetOffsetRange | dump.c:367-426 | The offset and size computed before anything is written are those of the place where `dump_iterate` will put the memory; an address outside the blocks or the filter has no offset. |
| ElfWriter.NarrowHole | dump.c:367-463 | This is so for every mapping whose physical address is outside the blocks or the filter. |
| ElfWriter.DumpState.WriteElfLoads | dump.c:428-463 | One program header is written for each mapping up to the header count, with the offsets of its memory. |
| ElfWriter.DumpState.Begin | dump.c:466-566 | The headers and notes end exactly at the memory offset. |
| ElfWriter.DumpState.CreateVmcore | dump.c:621-632 | For any mapping list and filter, every PT_LOAD in the file names a range of the file with the guest memory at its physical address, PT_NOTE names the notes, and the bytes of memory written are those `dump_calculate_size` counts. |
| ElfWriter.DumpGuestMemory | dump.c:1485-1658 | From the sections of the address space to the file: every byte of guest RAM that the filter passes is read from the file through a load, the loads are disjoint and cover nothing else; it fails only if the descriptor ran full or the filter passes nothing. |
| GdbFraming.HexAt | gdbstub.c:486-497 | Byte k of memory is hex digits 2k and 2k+1. |
| GdbFraming.MemToHex | gdbstub.c:486-497 | The buffer gets the hex digits, and a closing zero exactly if there is room for it; the rest of it is unchanged. |
| GdbFraming.ReadMemory | gdbstub.c:1074-1091 | The 'm' command is refused exactly if the digits do not fit the buffer; otherwise they are in it, and the closing zero is exactly if fewer than half as many bytes as the buffer has were asked for. |
| GdbFraming.HexToMem | gdbstub.c:499-507 | Decoding inverts encoding for every memory contents. |
| GdbFraming.MemToX | gdbstub.c:555-573 | The buffer gets the escaped bytes and nothing else. |
| GdbFraming.EscapeRoundTrip | gdbstub.c:555-573 | Unescaping gives the bytes back, and an escaped string has no '#', '$' or '*'. |
| GdbFraming.TextEscapes | gdbstub.c:555-573 | Escaping and cutting at the first zero byte commute, and escaping neither adds nor removes a zero byte. |
| GdbFraming.Checksum | gdbstub.c:520-523 | Summing signed characters has the same low eight bits as summing bytes. |
| GdbFraming.DigitsValue | gdbstub.c:525-526 | The two checksum digits have the value of the sum modulo 256. |
| GdbFraming.RunFrame | gdbstub.c:1542-1580 | A line closed with two digits is delivered exactly if the digits have its sum, and refused otherwise. |
| GdbFraming.FrameRoundTrip | gdbstub.c:510-542 | A framed payload is accepted by the receiving automaton exactly once and whole if and only if it is shorter than 4096 bytes and has no '#'. |
| GdbFraming.HandedRoundTrip | gdbstub.c:943-1580 | A framed payload is handed to the packet handler whole if and only if it is shorter than 4096 bytes and has no '#' and no zero byte; if it is accepted, the handler gets it up to its first zero byte. |
| GdbFraming.ZeroCuts | gdbstub.c:1558-1577 | The payload 0x41 0x00 0x42 is accepted whole and handed over as 0x41. |
| GdbFraming.BinaryRoundTrip | gdbstub.c:510-573 | An escaped payload is accepted if and only if it is short enough, and is handed over whole if and only if the bytes have no zero besides; what is handed over unescapes to the original bytes up to the first zero. |
| GdbFraming.FullPacketLost | gdbstub.c:1549-1557 | A payload of exactly the maximum length, which the sender accepts, is never delivered. |
| GdbFraming.DamageIsDetected | gdbstub.c:1563-1580 | Changing any one byte of a payload to anything but '#' gets it refused. |
| GdbFraming.DeliveredWasFramed | gdbstub.c:1509-1583 | On any input whatever, every delivered packet stood in the input between '$' and '#' with its right checksum. |
| GdbFraming.LinesAreShort | gdbstub.c:1549-1557 | The line buffer never overflows, whatever is received. |
| GdbFraming.GdbState.constructor | gdbstub.c:1509-1583 | A new stub is idle. |
| GdbFraming.GdbState.PutPacketBinary | gdbstub.c:510-542 | The frame is in `last_packet` and is sent. |
| GdbFraming.GdbState.ReadByte | gdbstub.c:1509-1583 | A byte acknowledges, repeats, stops the machine or steps the automaton, as the pending packet and the run state say; the handler gets an accepted line up to its first zero byte. |
| GdbFraming.GdbState.Receive | gdbstub.c:1541-1583 | Any stretch of input steps the automaton byte by byte and hands over what it delivers. |
| GdbFraming.Transfer | gdbstub.c:510-573 | What one stub escapes and frames from its memory, the other receives and accepts; what its handler is given unescapes to the memory up to the first zero byte, and to the same bytes if and only if there is none. |

## Left out

- Weak memory: `Exclusive` is sequentially consistent, which is what the paired barriers provide for these variables; RCU, seqlocks and atomics elsewhere are ordinary assignments.
- The work queue of `cpus-common.c` (`queue_work_on_cpu`, `process_queued_cpu_work`) and `qemu_cpu_kick`, which has no effect on the protocol's variables.
- Fairness: `Exclusive.RequestBound` bounds the steps that a request waits for, and `Exclusive.SomebodyWorks` says that one of them can be taken; that the host runs every thread, that guest code is left after a kick and who gets a free lock are not modelled.
- Page size: `Dispatch` has 4096-byte target pages and a 64-bit space; the tree modules take the number of levels as a parameter. The 512 slots of a node are a constant of the source.
- Sections of size zero, which the memory API does not produce.
- Subpage tables and dirty bitmaps are sequences inside an object, so word-wise bit operations on them are not modelled.
- Dispatch.AddressSpaceDispatch.LookupRegion: promises a non-resolving lookup the section of the page or the resolved one, since the cache may hold either.
- RamList.RamState.RamBlockAdd: takes a length that is a multiple of the page size, to which `RamAlloc` and the other callers round it; Xen, the migration bitmap and host allocation are not modelled.
- RamList.RamState.RamAddrFromHost: takes disjoint host ranges, without which the inverse is not unique.
- The TLB's comparator words are values of a datatype (page, not-dirty, I/O, or never) and page sizes are powers of two; the jump cache and flushes queued on other CPUs are not modelled.
- A TLB entry for every virtual page at most once, and a dirty bit for every fast write: the code does not keep these.
- Icount.IcountState.Run: promises rising readings in adaptive mode only while no warp ends; `Icount.IcountState.WarpRt` has the exact condition for a warp. Readings are taken one at a time: the seqlock's retries are not modelled.
- Record and replay, and timers other than the warp timer.
- BlockPerm.BlockGraph.ChildTrySetPerm: promises that the edges below carry exactly what was checked only where each node below is reached by one path; elsewhere a node passes on what all its parents have got by then, which `BlockPerm.SetWithin` bounds by what was checked. Driver hooks in `bdrv_check_perm` and permissions after detaching or replacing are not modelled.
- BlockAppend.NodeGraph.Append: takes the permission verdicts as parameters, and an append that makes no cycle, for which `BlockAppend.AppendExact` has the exact condition; in a graph with a cycle the code's recursions have no end. Parent and child lists are sets, and the drained sections and the AioContext are not modelled.
- BlockAppend.NodeGraph.SetBackingHd: takes a link that makes no cycle, in the same sense; `BlockAppend.LinkExact` has the condition.
- BlockAppend.NodeGraph.ReplaceNode: takes a replacement that makes no cycle, in the same sense; `BlockAppend.ReplaceExact` has the condition.
- BlockAppend.NodeGraph.Delete: gives up the reference of every edge, where `bdrv_close` drops the references of the backing and the file child and the driver's close function, which it calls first, those of the driver's other children (as in block/blkverify.c:156, block/quorum.c:1003 and block/vmdk.c:228); a driver that did not would leak them. `BlockAppend.NodeGraph.UnrefChild` clears the backing field, which in the code its callers do.
- Block jobs and transactions.
- Kdump: the contents of the disk dump header and of the notes are given blobs; compression is any partial function with an inverse on what it compresses; the file is a list of records with offsets, without the record headers of the flattened stream.
- Kdump.CreateVmcore: promises that the headers stay in place if in addition the sub-header and the notes end below 4 GiB, and reading back if the bitmaps end below 4 GiB and the data below 2^64; `Kdump.LayoutExact` gives the exact condition for the layout.
- ELF: the contents of the ELF header, the section header and the notes are given blobs of the right size. Page-table walks that produce mappings with paging, and merging of mappings, are not modelled; `ElfWriter.DumpState.CreateVmcore` holds for any mapping list.
- ElfWriter.DumpGuestMemory: takes a non-negative filter range, at least one block of RAM if there is no filter (the code dereferences the first one), and fewer than 2^32-1 blocks.
- The gdb command interpreter: what `gdb_handle_packet` answers is a parameter, and it leaves the parser idle; the acknowledge loop of user-mode emulation is not modelled.
- GdbFraming.Transfer: takes a receiver that is idle, with the machine stopped.
- Files, sockets, coroutines, option parsing, monitor commands, device models, and all parts of the repository not named in the table.
