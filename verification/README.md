# Verified models of the xqemu core

xqemu emulates a machine by running guest CPUs, dispatching their memory accesses, and moving data through
a graph of block nodes. This project models eight mechanisms of that core in Dafny and proves what the rest of the
program relies on. Code that changes state in place is modelled by classes whose methods are proved against
specification functions; the main results are about those functions, for all inputs and over whole runs.

- **Exclusive sections** (`ExclusiveSection`, `ExclusiveGuarantees`): vCPUs and exclusive workers as an interleaved
  machine with one program counter per thread, any number of threads, and the unlocked reads and writes of the fast
  path as separate steps. Mutual exclusion, the meaning of `pending_cpus`, no lost wake-up and no deadlock hold in every
  reachable state, and `start_exclusive` waits for a bounded number of steps of each CPU.
- **Physical memory dispatch** (`PhysTree`, `PhysMap`, `DispatchModel`, `DispatchCount`, `Dispatches`): the radix map
  with skipped levels, subpages and the most recently used section answer exactly like the flat list of ranges they were
  built from, with exactly as many sections as these need.
- **RAM blocks** (`RamLists`): best-fit placement, the order of the list, the dirty bitmaps and the cached lookup.
- **Block graph** (`BlockPerms`, `BlockPermUpdate`, `BlockPermCommit`, `BlockPermOps`, `BlockPermRuns`,
  `BlockPermExact`, `BlockLinks`, `BlockReplace`, `BlockGraphs`): permission updates that check recursively and then
  commit or roll back, over graphs in which nodes share children; and the replacement of a node without closing a cycle.
- **Transactions** (`Transactions`): prepare, commit and reverse-order abort over dirty-bitmap actions.
- **GDB stub** (`GdbPackets`, `VCont`): the packet codec of the "GDB Remote Serial Protocol" appendix of the GDB manual,
  and the resolution of vCont actions.
- **Instruction-count clock** (`IcountClock`): the virtual clock, its rescaling and its warps.
- **Guest memory dump** (`DumpLayout`, `FlatFile`, `DumpWalk`, `DumpBitmap`, `DumpPages`, `Kdump`): offsets promised in
  headers agree with what separate loops write through their buffers.

## Where the code does less than it promises

Each of these is shown at a concrete input, and has its condition for all inputs.

- A transaction is not all-or-nothing if the failing action enables a bitmap that is missing (a null pointer is
  followed) or already enabled (it ends up disabled), or is any enable in grouped completion mode: exactly then
  (`FailedTransactionRestores`; `FailedEnableDisables` is an input).
- A merge action clears its target exactly if its sources are all empty and the target is not (`MergeActionBits`;
  `MergeClears` is an input).
- The check after taking a parent away is passed `error_abort`, but it can fail once `bdrv_child_try_set_perm` has
  starved a node, that is, has given one of its edges less than the node asks for, as block/mirror.c:659 does
  (`DetachCanAbort`). It is sufficient that no node at or below the one that loses its user has been starved
  (`RunNeverAborts`), and a node is starved in no other way (`StepKeepsSlack`). Where no two edges below lead to the same
  node, the check succeeds exactly if there are permissions that answer all these nodes (`DetachExact`); these are
  necessary in every graph (`DetachNeedsAnswer`) and not sufficient where nodes are shared (`SharedNodeMatters`).
- `bdrv_replace_node` sets an OR of shared masks. Each edge of the new node then shares what the moved edges share, and
  what the earlier users of the new node do not share is forgotten (`ReplacedGives`), so a writer can get in below them
  (`WriterGetsIn`; `ReplaceForgetsSharing` is an input). Nothing is forgotten if the earlier users share whatever the
  moved edges share (`NothingForgotten`). In every case all users of a node still tolerate each other (`ReplaceKeeps`).
- A vCont action for all threads follows a null pointer exactly if its process does not exist and no earlier action
  fails (`FirstErrorIs`; `UnknownProcessCrashes` is an input).
- The virtual clock goes back exactly by a warp in adaptive mode while it is ahead of the clock of the machine
  (`StepIsMonotone`; `AdaptiveWarpGoesBack` is a run).

Proofs use no automatic induction: every lemma carries `{:induction false}`. Preconditions of the operations are the
assertions of the code or what its callers establish: for example, permissions always share write-unchanged
(block.c:1942), and pages given to `phys_page_set` are unmapped because flat ranges are disjoint.

## Model

| member | source | states |
|---|---|---|
| `ExclusiveGuarantees.RunKeepsInv` | cpus-common.c:171-297 | every state of every interleaved run, for any set of CPUs that grows and shrinks, satisfies the invariant that ties the flags, the count, the lock and the sleepers together |
| `ExclusiveGuarantees.StepKeepsInv` | cpus-common.c:171-297 | any single atomic step of any thread keeps that invariant |
| `ExclusiveGuarantees.ExclusiveExcludes` | cpus-common.c:178-261 | while a thread is between start_exclusive and end_exclusive, no thread is between cpu_exec_start and cpu_exec_end, and no other thread is exclusive |
| `ExclusiveGuarantees.PendingCountsWaiters` | cpus-common.c:189-205 | from the moment start_exclusive stores its count until end_exclusive, pending_cpus is one plus the number of CPUs with has_waiter, except between the two writes that cpu_exec_end makes under the lock; once the wait of start_exclusive is over it is exactly 1, and there is no waiter |
| `ExclusiveGuarantees.ExecutingIsAwaited` | cpus-common.c:189-205 | once start_exclusive has stored its count, every CPU between cpu_exec_start and cpu_exec_end is one that it has counted |
| `ExclusiveGuarantees.CountOnlyFalls` | cpus-common.c:196-297 | from then on until end_exclusive, over any steps of any threads, no has_waiter flag is set and pending_cpus does not grow, so a CPU that has left does not execute again |
| `ExclusiveGuarantees.AwaitedMovesOn` | cpus-common.c:223-297 | every step of its own brings a CPU with has_waiter closer to where cpu_exec_end clears the flag, and other threads do not move it |
| `ExclusiveGuarantees.WaitIsBounded` | cpus-common.c:196-297 | over any part of an operation, a CPU whose has_waiter flag is still set has taken fewer than eight steps: start_exclusive waits for at most eight steps of each CPU that it has counted |
| `ExclusiveGuarantees.WaiterIsCounted` | cpus-common.c:286-296 | has_waiter implies pending_cpus >= 1, and the CPU is neither asleep nor outside, so it will come through cpu_exec_end |
| `ExclusiveGuarantees.NoLostWakeup` | cpus-common.c:189-205 | a sleeper on exclusive_cond has pending_cpus > 1, a sleeper on exclusive_resume has pending_cpus != 0, or the lock holder is about to send the wake-up |
| `ExclusiveGuarantees.HolderCanStep` | cpus-common.c:171-297 | whoever is inside the lock can take its next step |
| `ExclusiveGuarantees.NoDeadlock` | cpus-common.c:171-297 | if somebody sleeps and no protocol step is possible, then a caller still owes an end_exclusive, or a counted CPU still owes its cpu_exec_end |
| `PhysMap.PhysPageMap.NodeReserve` | exec.c:225-234 | the store has room for the reserved nodes and moves only if it had not |
| `PhysMap.PhysPageMap.NodeAlloc` | exec.c:236-254 | a new node of unassigned or empty entries at the end; the nodes before it do not change |
| `PhysMap.PhysPageMap.Descend` | exec.c:263-267 | an entry gets a node with the same lookups, so phys_page_set_level never descends into a leaf |
| `PhysMap.PhysPageMap.SetLevel` | exec.c:256-280 | exactly the pages from index to the new index change, the walk stops at the end of the block or of the pages, nodes outside the block stay, and the number of nodes allocated is bounded by the alignment of the start |
| `PhysMap.PhysPageMap.FillNode` | exec.c:266-279 | the loop over one node, with the same account of pages and nodes |
| `PhysMap.PhysPageMap.PhysPageSet` | exec.c:282-290 | on unmapped pages: afterwards exactly these pages map to the leaf and every other page is as before; at most 2 * levels - 1 nodes are allocated, so the reservation suffices |
| `PhysMap.PhysPageMap.Compact` | exec.c:295-343 | compaction changes no lookup of a mapped page; an unmapped page may reach some leaf; entries outside the subtree stay |
| `PhysMap.PhysPageMap.CompactAll` | exec.c:345-350 | the same for the whole map |
| `PhysMap.PhysPageMap.FindPage` | exec.c:363-377 | the loop of phys_page_find computes the recursive walk |
| `PhysTree.AlignedIsMask` | exec.c:269-274 | the mask test of phys_page_set_level is divisibility by the step |
| `PhysTree.CollapsedWalk` | exec.c:318-342 | skipping a node with a single child changes the walk of unmapped pages only |
| `PhysTree.LeafFills` | exec.c:270-273 | writing a leaf over an aligned slot maps exactly the pages of the slot |
| `DispatchModel.CoversPage` | exec.c:352-361 | the 64-bit range test on a section of whole pages is membership of the page |
| `DispatchModel.ExactFinds` | exec.c:363-384 | if the pages mapped to a section are exactly those of its range, the walk already gives the section that phys_page_find returns |
| `DispatchModel.CompactionIsHarmless` | exec.c:295-384 | whatever leaf compaction sends unmapped pages to, phys_page_find returns the same section for every address as before |
| `DispatchModel.RegisterMultipage` | exec.c:1589-1600 | adding the pages of a disjoint range keeps the tables in order and the dispatch then answers for the ranges and the new one |
| `DispatchModel.SubpageExpected` | exec.c:1558-1570 | the assertion of register_subpage holds: the page of a partial range is free or leads to a subpage |
| `DispatchModel.NewSubpageOk` | exec.c:2969-2986 | a new subpage on a free page changes no lookup |
| `DispatchModel.RegisterInSubpage` | exec.c:1581-1586 | entering a piece into the subpage of its page makes the dispatch answer for the ranges and the piece |
| `DispatchModel.CutJoined` | exec.c:1609-1645 | answering for the pieces of a range is answering for the range |
| `DispatchCount.PartPagesAre` | exec.c:1609-1645 | the pages that a range has a part of are those with a byte of it that are not inside it |
| `DispatchCount.SubpageIsShared` | exec.c:1560-1580 | the page of a new piece already has a subpage exactly if an earlier range has a part of that page |
| `DispatchCount.CutNeeds` | exec.c:1609-1645 | cutting a range at a page boundary does not change the number of sections needed |
| `Dispatches.AddressSpaceDispatch.constructor` | exec.c:3063-3080 | an empty dispatch with the four fixed sections, which answers for no range |
| `Dispatches.AddressSpaceDispatch.SectionAdd` | exec.c:1516-1533 | appends the section, or aborts exactly when the table has TARGET_PAGE_SIZE sections |
| `Dispatches.AddressSpaceDispatch.PhysPageFind` | exec.c:363-384 | the walk and the range test |
| `Dispatches.AddressSpaceDispatch.RegisterMultipage` | exec.c:1589-1600 | keeps the invariant of construction, by which the table has exactly the sections needed, for one range more; aborts exactly if these do not fit |
| `Dispatches.AddressSpaceDispatch.SubpageRegister` | exec.c:2949-2967 | rewrites exactly the entries start..end of the table, or returns -1 and changes nothing |
| `Dispatches.AddressSpaceDispatch.FindSubpage` | exec.c:1560-1580 | the subpage of the page, created exactly if no earlier range has a part of the page, without a change in lookups |
| `Dispatches.AddressSpaceDispatch.RegisterSubpage` | exec.c:1558-1586 | keeps the invariant of construction for one piece more; aborts exactly if the sections needed do not fit |
| `Dispatches.AddressSpaceDispatch.AddToDispatch` | exec.c:1609-1645 | for every well-formed range disjoint from the earlier ones, whatever its alignment: afterwards the dispatch answers for it as well; aborts exactly if the sections needed do not fit |
| `Dispatches.AddressSpaceDispatch.Compact` | exec.c:345-350 | compaction keeps every answer |
| `Dispatches.AddressSpaceDispatch.LookupRegion` | exec.c:387-404 | for every address, any mru_section and both values of resolve_subpage, the section that the tables give |
| `Dispatches.BuildDispatch` | memory.c:742-748 | for every list of disjoint ranges, the finished dispatch answers like the list; it is built exactly if the sections needed fit into the table: the fixed ones, one for the whole pages of each range, one for each page that a range has a part of, and one for each such page |
| `Dispatches.LookupAll` | exec.c:387-404 | main result, from ranges to answers: whatever addresses are looked up in whatever order, each gets a section with the region of the range that holds it and the same offset, and the unassigned section everywhere else |
| `RamLists.HitIsHolds` | exec.c:1286-1322 | the unsigned subtraction test of qemu_get_ram_block is membership in the block |
| `RamLists.GapIsFree` | exec.c:1905-1955 | no block lies between the aligned end of a block and the next start |
| `RamLists.BestFitIsFree` | exec.c:1905-1955 | a block in the chosen gap is aligned, inside the address space and overlaps no other |
| `RamLists.NextStartIs` | exec.c:1925-1932 | next is the least start at or after the candidate |
| `RamLists.ExtendedKeeps` | exec.c:2150-2188 | growing the dirty bitmaps keeps every old bit and covers the new size |
| `RamLists.RamList.GetRamBlock` | exec.c:1286-1322 | for any mru block: the one block that holds the address, or none exactly when there is none |
| `RamLists.RamList.FindRamOffset` | exec.c:1905-1955 | the smallest sufficient gap after a block; aborts exactly if there is none; 0 for the first block |
| `RamLists.RamList.LastRamPage` | exec.c:1957-1968 | the number of the page after the last block |
| `RamLists.RamList.DirtyMemoryExtend` | exec.c:2150-2188 | all bitmaps cover the new size and keep the bits below the old one |
| `RamLists.RamList.SetDirtyRange` | include/exec/ram_addr.h:267-321 | sets exactly the bits of the pages of the range, in every bitmap, across bitmap blocks |
| `RamLists.RamList.InsertSorted` | exec.c:2230-2245 | the block goes into the list, which stays ordered by descending size |
| `RamLists.RamList.RamBlockAdd` | exec.c:2190-2265 | the blocks stay disjoint, aligned and ordered, the new one takes the best gap, the bitmaps cover all blocks, its used pages become dirty, the bits of all other blocks stay; without a gap or host memory nothing changes |
| `RamLists.RamList.RamFree` | exec.c:2436-2454 | removes exactly that block and keeps the invariant |
| `BlockPerms.ChildWantMonotone` | block.c:1740-1755 | the permission functions of filters and formats are monotone |
| `BlockPerms.ChildWantIdempotent` | block.c:2052-2122 | asking again on an edge just updated gives the same permissions |
| `BlockPerms.ChildWantTolerates` | block.c:2052-2122 | they never take away the sharing of write-unchanged that bdrv_check_update_perm asserts |
| `BlockPermUpdate.ChildCheckKeeps` | block.c:1981-2009 | a check changes only the edges below, and an abort of every changed edge leads back to the permissions before |
| `BlockPermUpdate.ChildCheckPeace` | block.c:1932-2009 | users that tolerate each other still do after a check, whether it succeeds or fails, also where an edge is visited several times |
| `BlockPermUpdate.ChildCheckSettled` | block.c:1766-2009 | a successful check leaves every node below with children that hold what its users ask for together, whatever was there before |
| `BlockPermUpdate.CheckPermRelaxed` | block.c:1766-1813 | a check for permissions no stricter than some q succeeds if all users agree under q and the nodes at and below the checked one hold under q what they ask for |
| `BlockPermCommit.ChildAbortSweeps` | block.c:1822-2034 | bdrv_child_abort_perm_update restores the backup of every edge below, each once, and nothing else |
| `BlockPermCommit.ChildSetSweeps` | block.c:1840-2023 | bdrv_child_set_perm after a check drops the backups below and changes no permission |
| `BlockPermCommit.SetClears` | block.c:1840-1869 | bdrv_set_perm leaves no backup, whatever it sets, if only edges below had one |
| `BlockPermCommit.TrySetIsAtomic` | block.c:2036-2050 | on every graph without cycles: a failed bdrv_child_try_set_perm restores every edge, a successful one leaves the permissions that were checked, and no backup is left in either case |
| `BlockPermOps.AttachRootCalm` | block.c:2212-2241 | a failed attach changes nothing; a successful one adds the edge with the permissions asked for and keeps all users compatible |
| `BlockPermOps.AttachChildCalm` | block.c:2243-2267 | the same for an edge between nodes, with what the permission function of the parent asks for |
| `BlockPermOps.DetachCalm` | block.c:2190-2280 | a detach takes the edge away, keeps all users compatible and makes the nodes below consistent |
| `BlockPermOps.TrySetCalm` | block.c:2036-2050 | bdrv_child_try_set_perm keeps all users of all nodes compatible and touches nothing beside the nodes below |
| `BlockPermOps.TrySetSlack` | block.c:2036-2050 | a node that holds on its edges at least what it asks for still does after a bdrv_child_try_set_perm, if and only if the edge is not its own or gets at least what the node asks for |
| `BlockPermOps.AttachChildSlack` | block.c:2243-2267 | attaching takes from no node what it holds |
| `BlockPermOps.DetachSlack` | block.c:2190-2280 | nor does detaching |
| `BlockPermOps.DetachSucceeds` | block.c:2190-2210 | the check after taking a parent away succeeds if there are permissions, no looser than the present ones, under which all users agree and every node at and below the one that loses its user holds what it asks for |
| `BlockPermOps.DetachNeverFails` | block.c:2190-2210 | in particular it succeeds if these nodes hold what they ask for, whatever the rest of the graph is like |
| `BlockPermRuns.RunKeepsCalm` | block.c:1766-2280 | over every run of attach, try_set_perm and detach, any two parents of a node satisfy perm <= shared_perm, and no backup survives an operation |
| `BlockPermRuns.StepKeepsSlack` | block.c:1766-2280 | over one operation, a node that holds what it asks for stops doing so if and only if the operation is a bdrv_child_try_set_perm that starves one of its own edges |
| `BlockPermRuns.RunNeverAborts` | block.c:2190-2210 | over every run, detaching an edge succeeds if none of the nodes at and below its target has been starved since it last held what it asks for; this is sufficient, and what happened to other nodes does not matter |
| `BlockPermRuns.DetachCanAbort` | block/mirror.c:657-660 | after such a starving the property is false: a filter with two writing users whose edge is set to use nothing, as at the end of a mirror job, and a detach that then aborts |
| `BlockPermRuns.RunGuardsData` | block.c:1766-2280 | over every run, along any chain of active nodes that have not been starved: if the user at the top does not share writing, nobody else writes to any node of the chain, and reading is passed down |
| `BlockPermRuns.RunGuardsMetadata` | block.c:2070-2122 | over every run, an active format node that has not been starved holds what it needs on its file, and nobody else writes or resizes it |
| `BlockPermExact.DetachNeedsAnswer` | block.c:2190-2210 | in every graph, a detach only succeeds if there are permissions that give every node at and below exactly what it asks for and on which all users agree |
| `BlockPermExact.DetachExact` | block.c:2190-2210 | where no two edges below lead to the same node, a detach succeeds if and only if there are such permissions |
| `BlockPermExact.SharedNodeMatters` | block.c:1796-1810 | where a node is shared below, they are not enough: a concrete graph in which the order of the visits makes the check fail |
| `BlockLinks.NoCycles` | block.c:3902-3979 | no path leads back to its start |
| `BlockLinks.PathEndsBelow` | block.c:3955-3972 | every node that a path reaches is in the set that the search is compared with |
| `BlockLinks.BelowHasPath` | block.c:3955-3972 | every node of that set is reached by a path |
| `BlockLinks.SearchedAll` | block.c:3955-3972 | a search that has run out of nodes has met every edge that the new node reaches |
| `BlockLinks.RaisedOk` | block.c:3902-3979 | redirecting the remaining edges closes no cycle: the order of the graph can be changed to put the new node below them |
| `BlockGraphs.BlockGraph.CheckPerm` | block.c:1766-1813 | computes the specified check in place |
| `BlockGraphs.BlockGraph.CheckUpdatePerm` | block.c:1932-1977 | computes the specified check of one node against its users |
| `BlockGraphs.BlockGraph.TrySetPerm` | block.c:2036-2050 | in place: keeps all users compatible; the edge has what was asked for, or nothing has changed |
| `BlockGraphs.BlockGraph.RootAttachChild` | block.c:2212-2241 | in place: the new edge with the permissions asked for, or nothing has changed |
| `BlockGraphs.BlockGraph.AttachChild` | block.c:2243-2267 | in place: the new edge between two nodes, or nothing has changed |
| `BlockGraphs.BlockGraph.DetachChild` | block.c:2269-2280 | in place: the edge is gone; keeps all users compatible; cannot fail while the nodes at and below hold what they ask for |
| `BlockGraphs.BlockGraph.ShouldUpdateChild` | block.c:3902-3979 | true exactly if the edge does not stay at its node and does not belong to a node that the new node reaches |
| `BlockGraphs.BlockGraph.CollectParents` | block.c:3997-4012 | exactly the edges to redirect, with what they ask for together, or refusal exactly if one of them is frozen |
| `BlockGraphs.BlockGraph.ReplaceNode` | block.c:3981-4038 | for every graph without cycles: the result has no cycle, exactly the edges to redirect are moved, the permissions are the ones that were checked, with the OR at the end, only those below the new node change, users of a node that tolerated each other still do, no backup is left, and a frozen edge or a refused permission leaves all links and permissions as they were |
| `BlockReplace.CheckBeforeMove` | block.c:4014-4029 | the check that ignores the edges to be moved has the same outcome as the check on the graph after the move |
| `BlockReplace.SetChildrenEases` | block.c:1840-1869 | below a node that has been checked, bdrv_set_perm with more sharing changes no used permission and takes away no sharing, also where nodes are shared |
| `BlockReplace.ReplaceKeeps` | block.c:3981-4038 | if any two users of a node satisfied perm <= shared_perm before the replacement, then they do so afterwards; no backup is left, and permissions change only below the new node |
| `BlockReplace.ReplacedGives` | block.c:4031-4033 | the exact permissions of every edge of the new node: what it asks for if only the moved edges restrict sharing |
| `BlockReplace.NothingForgotten` | block.c:4031-4033 | if the earlier users share whatever the moved edges share, the permissions are exactly those that were checked |
| `BlockReplace.WriterGetsIn` | block.c:4031-4033 | if the moved edges share writing, a writer is then accepted on the node below a filter, whatever the earlier users of the filter do not share |
| `BlockReplace.ReplaceForgetsSharing` | block.c:4031-4033 | the concrete failure: a writer that was refused below a user who does not share writing is accepted after the replacement |
| `Transactions.PrepareThenUndo` | blockdev.c:1959-2145 | the abort of an action undoes its successful prepare completely |
| `Transactions.FailedPrepare` | blockdev.c:1959-2145 | a failed prepare changes nothing, and its abort changes nothing if and only if it is not an enable that would disable or crash |
| `Transactions.UnusableStays` | blockdev.c:1959-2145 | bitmaps in use are untouched by successful actions and by their aborts |
| `Transactions.TransactIs` | blockdev.c:2255-2333 | the outcome of every list of actions: committed, rolled back to the start, one bitmap disabled, or a crash, by the first action that fails |
| `Transactions.FailedTransactionRestores` | blockdev.c:2255-2333 | a failed transaction restores every bitmap and flag if and only if the failing action is not an enable of a missing or enabled bitmap, nor any enable in grouped completion mode |
| `Transactions.FailedEnableDisables` | blockdev.c:2047-2083 | the concrete failure: enabling a busy bitmap that is enabled leaves it disabled |
| `Transactions.CommittedEffects` | blockdev.c:2255-2333 | a committed transaction has done each of its actions in their order, each with its own effect on its own bitmap, and nothing else |
| `Transactions.MergeSourcesBits` | blockdev.c:2976-3020 | the anonymous bitmap collects the bits of all sources |
| `Transactions.MergeActionBits` | blockdev.c:2129-2145 | a merge leaves the union in the target if and only if a source has bits or the target has none |
| `Transactions.MergeClears` | block/dirty-bitmap.c:836-840 | the concrete failure: merging an empty bitmap into one with a bit succeeds and clears it |
| `Transactions.BlockDevices.CollectSources` | blockdev.c:2976-3020 | the loop over the sources computes the specified merge |
| `Transactions.BlockDevices.PrepareAdd` | blockdev.c:1959-1985 | adds the bitmap step by step as qmp_block_dirty_bitmap_add does, with the outcome, store and action state that the specification gives |
| `Transactions.BlockDevices.PrepareClear` | blockdev.c:2002-2027 | swaps the bits for empty ones and keeps them as the backup |
| `Transactions.BlockDevices.PrepareEnable` | blockdev.c:2047-2073 | remembers and sets the flag |
| `Transactions.BlockDevices.PrepareDisable` | blockdev.c:2085-2111 | remembers and clears the flag |
| `Transactions.BlockDevices.PrepareMerge` | blockdev.c:2129-2145 | merges the collected sources into new bits, or leaves these empty if the sources are |
| `Transactions.BlockDevices.AbortAdd` | blockdev.c:1987-2000 | removes the bitmap by name, or ends the process |
| `Transactions.BlockDevices.AbortEnable` | blockdev.c:2075-2083 | disables the bitmap unless it was seen enabled |
| `Transactions.BlockDevices.AbortDisable` | blockdev.c:2113-2121 | enables the bitmap if it was seen enabled |
| `Transactions.BlockDevices.RestoreBackup` | blockdev.c:2029-2037 | puts the backup back, if there is one |
| `Transactions.BlockDevices.QmpTransaction` | blockdev.c:2255-2333 | the loops over the action list have the specified outcome and leave the store of that outcome |
| `GdbPackets.ToHex` | gdbstub.c:500-518 | tohex gives a hexadecimal digit that fromhex reads back |
| `GdbPackets.SumsAgree` | gdbstub.c:578-614 | the checksum over signed characters agrees with the one over bytes |
| `GdbPackets.FeedEscaped` | gdbstub.c:625-643 | the parser undoes the escaping of memtox |
| `GdbPackets.FeedChecksum` | gdbstub.c:2092-2125 | the two digits of the checksum are read back and acknowledged |
| `GdbPackets.LineFits` | gdbstub.c:1990-2129 | for every stream of bytes the line buffer holds at most MAX_PACKET_LENGTH - 1 bytes |
| `GdbPackets.RoundTrip` | gdbstub.c:578-643 | for every payload of at most 4095 bytes, reading the packet of its escaped form from idle gives the payload and an acknowledgement |
| `GdbPackets.MemToX` | gdbstub.c:625-643 | fills the buffer with the escaped form |
| `GdbPackets.GdbState.ReadByte` | gdbstub.c:1990-2129 | the state machine in place: pending replies, a running machine, acknowledgement and rejection |
| `GdbPackets.GdbState.PutPacketBinary` | gdbstub.c:578-614 | sends exactly the frame of the data and keeps it for a resend |
| `VCont.LeftmostNext` | gdbstub.c:1218-1260 | one more action concerns only CPUs that no earlier action matches |
| `VCont.OnlyAttached` | gdbstub.c:1146-1269 | no action of a valid list matches a CPU of a process that is not attached |
| `VCont.FirstAttached` | gdbstub.c:738-748 | the first CPU of an attached process |
| `VCont.NextAttached` | gdbstub.c:722-735 | the next one |
| `VCont.FirstInProcess` | gdbstub.c:691-703 | the first CPU of the process |
| `VCont.NextInProcess` | gdbstub.c:705-719 | the next CPU of the same process |
| `VCont.Mark` | gdbstub.c:1212-1260 | for each of the three kinds of target: exactly the matching CPUs without an action get it |
| `VCont.FirstErrorIs` | gdbstub.c:1146-1269 | when exactly a list of actions fails, and how: the first action that goes wrong names a thread that no attached CPU is, a process that is not attached, or all threads of a process that does not exist |
| `VCont.UnknownProcessCrashes` | gdbstub.c:1228-1235 | the concrete failure: an action for all threads of process 2 where only process 1 exists |
| `VCont.HandleVcont` | gdbstub.c:1146-1269 | every attached CPU ends with the leftmost action that matches it, others unchanged; or exactly the error, or the crash, of the first action that goes wrong |
| `IcountClock.AdjustKeepsReading` | cpus.c:428-469 | changing the shift leaves the reading of the clock, and the shift stays in 0..10 |
| `IcountClock.TicksKeepClock` | cpus.c:392-420 | starting and stopping makes neither the clock nor the ticks jump |
| `IcountClock.UpdateIsMonotone` | cpus.c:238-255 | accounting for executed instructions moves the clock forward |
| `IcountClock.StepIsMonotone` | cpus.c:238-536 | one event moves the virtual clock back if and only if it is a warp in adaptive mode while the virtual clock is ahead |
| `IcountClock.AdaptiveWarpGoesBack` | cpus.c:517-525 | the concrete case: a run of eight events, a slice and a warp, whose last step takes the clock from 5 to 2 |
| `IcountClock.ClockNeverGoesBack` | cpus.c:238-536 | over every run of instructions, reads, adjustments and warps with a monotone host clock, the virtual clock never goes back except by such a warp; the clock of the machine and the ticks never do, even if the cycle counter of the host does |
| `IcountClock.SliceCountsExactly` | cpus.c:1367-1403 | over a slice, the instruction counter grows by exactly the instructions executed, however often it is read or refilled |
| `IcountClock.TimersState.CpuUpdateIcount` | cpus.c:248-255 | moves the executed instructions from the budget to the counter |
| `IcountClock.TimersState.CpuGetIcount` | cpus.c:271-292 | the reading, after accounting if the CPU asks itself; exits exactly if that CPU may not do I/O |
| `IcountClock.TimersState.IcountAdjust` | cpus.c:428-469 | the adjustment in place; the reading stays |
| `IcountClock.TimersState.IcountWarpRt` | cpus.c:492-531 | the warp in place, in precise and in adaptive mode |
| `IcountClock.TimersState.CpuGetTicks` | cpus.c:326-342 | what it returns is never less than what it returned before |
| `IcountClock.TimersState.StartWarpTimer` | cpus.c:570-669 | the bias or the start of the warp, and when the virtual clock is notified |
| `IcountClock.TimersState.CpuEnableTicks` | cpus.c:392-403 | the clock and the ticks read the same before and after |
| `IcountClock.TimersState.CpuDisableTicks` | cpus.c:409-420 | the clock and the ticks read the same before and after |
| `IcountClock.TimersState.CpuGetClock` | cpus.c:361-371 | the offset, plus the host clock while ticks are enabled |
| `IcountClock.TimersState.ProcessIcountData` | cpus.c:1388-1403 | accounts for what was executed and empties the budget |
| `IcountClock.TimersState.Refill` | accel/tcg/cpu-exec.c:639-648 | accounts and splits the rest of the budget again |
| `IcountClock.CpuState.PrepareIcountForRun` | cpus.c:1367-1386 | splits the budget without loss into a decrementer of at most 0xffff and the rest |
| `DumpLayout.PlacedIsWritten` | dump.c:411-470 | every byte of a segment that get_offset_range places is written at exactly that file offset |
| `DumpLayout.DumpedIsUnique` | dump.c:411-470 | with disjoint blocks there is only one such guest byte |
| `DumpLayout.DumpState.GetOffsetRange` | dump.c:411-470 | -1 exactly for an address outside the dump; else the place of the address and a size within the mapping and the block |
| `DumpLayout.DumpState.GetStartBlock` | dump.c:1529-1555 | the first block inside the filter, or none exactly if there is none |
| `DumpLayout.DumpState.GetNextBlock` | dump.c:612-637 | the next block inside the filter |
| `DumpLayout.DumpState.WriteMemory` | dump.c:385-408 | page by page, exactly the bytes of the range |
| `DumpLayout.DumpState.DumpIterate` | dump.c:640-663 | writes the parts of all blocks inside the filter in order, and counts them |
| `DumpLayout.DumpState.DumpCalculateSize` | dump.c:1581-1601 | the size of exactly what dump_iterate writes |
| `DumpLayout.DumpState.DumpMemory` | dump.c:1686-1705 | end to end: every byte of the segment that a program header describes is in the file where the header says, and as much is written as was announced; nothing is dumped exactly if no byte is inside the filter |
| `DumpWalk.GetNextPage` | dump.c:1127-1171 | the walk visits every page of every block once, in order, and then ends |
| `DumpWalk.PageOfWalk` | dump.c:1127-1171 | the n-th page of the walk is the n-th page of the blocks |
| `DumpWalk.AtIsUnique` | dump.c:1127-1171 | a number in the walk belongs to one page |
| `DumpBitmap.ReservedChunks` | dump.c:1783-1786 | the reserved bitmap length is one chunk more than the chunk of the last page |
| `DumpBitmap.ChunksInside` | dump.c:1054-1105 | all chunks of both copies lie in the reserved area |
| `DumpBitmap.BitmapWriter.SetDumpBitmap` | dump.c:1054-1105 | flushes the buffer and the empty chunks between two pages, to both copies, and sets the bit |
| `DumpBitmap.BitmapWriter.WriteDumpBitmap` | dump.c:1173-1223 | for sorted non-empty blocks: every chunk of both copies is written once; with the reserved length, bit n of the bytes of either copy in the file is set exactly if page n exists; and the pages are counted |
| `DumpPages.DataCache.WriteCache` | dump.c:1235-1265 | the file and the buffer together hold the stream so far; a write goes behind what is there |
| `DumpPages.WritePage` | dump.c:1356-1445 | one page: its data, unless it is zero, and its descriptor |
| `DumpPages.DescLocates` | dump.c:1302-1469 | a descriptor has the offset and size of what is stored for its page |
| `DumpPages.WriteDumpPages` | dump.c:1302-1469 | replaying the records gives all descriptors in order and the page data behind them, and leaves everything in front of them as it was |
| `DumpPages.SectionIsRight` | dump.c:1302-1469 | in such a file the i-th descriptor locates the stored bytes of the i-th page, behind all descriptors, and all zero pages share one copy |
| `Kdump.PagesFollowBitmap` | dump.c:904-909 | the page section, whose offset is counted in blocks, starts right behind both copies of the bitmap |
| `Kdump.WriteDump` | dump.c:1173-1469 | end to end, in the one file: every page of every block is set in both copies of the bitmap, which the page section does not touch, and its descriptor, of which there are as many as pages were counted, leads to its stored bytes |
| `Kdump.ByteIsDumped` | dump.c:1173-1469 | every byte of guest memory is in such a dump: its page is marked in both copies of the bitmap and has a descriptor that leads to what is stored for the page |

## Left out

- Weak memory: the exclusive-section steps are sequentially consistent, as the memory barriers of the code justify.
- The work queue (queue_work_on_cpu, process_queued_cpu_work): a list with easy properties. CPUs enter and leave the CPU list between their own operations only.
- The target page size is fixed at 4096 bytes and addresses at 64 bits in the exec.c model; IOMMU translation, TLB and TB invalidation, Xen and KVM are not modelled.
- RCU readers of the RAM list; resizing a RAM block; sizes are whole pages, as the callers of ram_block_add round them. The host allocator is a parameter.
- RamBlockAdd: memory merging, madvise and the notifiers are not modelled.
- bdrv_reopen, drain counters, AioContext, reference counts and error texts of block.c; the flags of a node are fixed. Drivers are filters and formats with the default permission functions, or drivers with their own check and without children.
- The runs of `BlockPermRuns` consist of attach, try_set_perm and detach; a replacement keeps all users compatible as well, but it may starve nodes below the new one.
- AttachChild: takes a witness that the new edge closes no cycle, because bdrv_attach_child does not look for one.
- Bitmap lists keep no order, bdrv_remove_persistent_dirty_bitmap always succeeds, and the other kinds of transaction action (snapshots, backups) are not modelled.
- Replies of gdb_handle_packet, user-mode emulation, the state of a stub without a connection, the text of vCont packets (actions are given parsed) and gdb_continue_partial.
- 64-bit overflow of the instruction counter, the seqlock, and record and replay.
- StartWarpTimer: the timer that it arms is left out.
- I/O errors, ELF and kdump headers, notes and section headers of dump.c. The encoding of descriptors and the compression of a page are arbitrary functions, the bitmap buffer is an array of bits that are packed into bytes when it is written, guest blocks of the kdump format consist of whole pages, as get_next_page asserts, and ARCH_PFN_OFFSET is 0.
- bdrv_inactivate_recurse, dma_blk_cb and the device, disassembler and network files: other parts of the program.
