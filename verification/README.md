# A model of the IMR disk simulator

The simulator models a disk with interlaced magnetic recording: even tracks are bottom tracks, odd tracks are
top tracks, and writing a bottom track forces its live top neighbours to be rewritten. Above the disk sits a
translation layer. Each build of the simulator fixes one such layer; this project models four of them, and
proves that each behaves like the plain table it stands for, exactly where it does.

**Deduplication** (`DedupSpec`, `DedupProofs`, `DedupWrite`, `DedupRuns`, `DedupLimits`, `DedupFailures`,
`DedupRepaired`, `DedupPlacement`, `DedupDisk`, with the index in `HashTable`): the build with `DEDU_WRITE`
and without `NEW_ALLOC` and `TRIM`. LBAs with the same content share a block, which lists them. The forward
map, the reverse lists and the reference counts must agree. `is_lba_in_storage` bounds its walk by the count
of block 0 instead of the block's own, and a trimmed LBA that is written again goes to the block it left, so
the code does not always keep them in agreement. `WriteKeepsExactly` says for every state and request when it
does: exactly when `WriteGuard` holds, a test of the branch taken, the reference count of block 0 and the
lists. Three runs from a new disk (`DedupFailures`) show what happens otherwise. `DedupRepaired` proves that
with the block's own count runs that write to no trimmed LBA need no guard. Under the guard, runs of writes
and trims refine a map from LBAs to content. `DedupPlacement` says outright on which track a write ends and
how many accesses it takes.

**Hash index** (`HashTable`): linear probing with tombstones refines a multiset of keys. The loops have no
bound of their own; `WalkEndsExactlyWhenBounded` says when they end. `DedupDisk` shows that they end in every
request to a valid disk, because the index holds each block hash as often as the blocks do and has as many
cells as there are blocks; a write without its guard leaves the index in that order as well.

**Top buffer** (`TopBufferSpec`, `TopBufferRoutes`, `TopBufferDisk`, `TopBufferLimits`, with the allocator in
`ZoneAllocation`): the build with `TOP_BUFFER` and without `BLOCK_SWAP` and `DEDU_WRITE`. New data for a
bottom goes to a free top, which is paired with the bottom; SCP writes it back. Every track carries the data
last written on it, and a trace of reads and writes, with any number of SCPs in between, answers like a plain
table. A write fails exactly when it is an update that belongs in the buffer while that has room and no top is
free; `TopsRunOut` is such a run, and the disk-full exit is unreachable. The allocator's unbounded loop is
proved against a function with a lexicographic measure; every free track is ahead of it, and a fresh disk
hands out its tracks in one fixed order.

**Batches** (`BatchSpec`, `Batch`, `Record`): a sorted batch is closed under "a written bottom disturbs its
live tops", and the closure is charged run by run. The closure is exact and strictly ascending exactly when no
bottom is batched twice; the bytes charged are the bytes written exactly when no top is batched twice; each
disturbed top is charged once exactly when no bottom beside a live top is batched twice; an empty batch is
charged for the entry that was left in the table. `lba_write` builds a batch from the tracks it has found and
writes it.

**Virtual groups** (`VirtualGroupSpec`, `VirtualGroupAllocator`, `VirtualGroupLists`, `VirtualGroupDisk`,
`VirtualGroupChoice`, `VirtualGroupFailures`, `VirtualGroupRun`, `VirtualGroupExhausted`): groups divide the
disk; `vg_get_block` hands out tracks from the groups that are being filled and from three lists; a dual swap
moves a top of the group to the bottom that is about to be written. When every group has three tracks or more,
which `WideExactly` puts in terms of the granularity, every run of writes, reads and deletes answers like a
plain table (`Replay`), and it stops early only before a new LBA for which `vg_get_block` finds no track on
the disk it has reached. Tracks may be free then: once the groups have been searched without regard to
attributes, the free list is not asked any more, and `FreeGroupIsNotAsked` is a run that ends with one of two
groups entirely free. In narrower groups the table and the owners part, because the branch that begins a group
from the free list does not look at the track it offers. In groups of two tracks `_update_vg_list` sends a
group to the free list without looking at its last track; in groups of one track the offer can lie behind the
group. `TwoTrackGroupsShareATrack` and `OneTrackGroupsShareATrack` are such runs from a new disk. A write
loses an LBA exactly when it is handed a track in use. The report's count of used blocks rises with every dual
swap and never falls on a delete; the exact drift is part of the invariant.

**Request history** (`RingBuffer`): the circular queue refines the last 1000 request lengths, over which
`generate_attr` averages.

Each layer has a functional specification, and classes that change arrays and fields in place as the program
does, whose methods are proved to do what the functions say. `DiskTypes` holds what they share.

## Model

| member | source | states |
|---|---|---|
| HashIndex.LookupFindsExactlyTheKeys | imr_simulator-master/src/hash_table.c:16-38 | In a well-formed table a walk from a key's home finds a cell exactly when the key is in the table's multiset of keys, whatever tombstones and wrap-arounds lie between |
| HashIndex.LookupSucceeds | imr_simulator-master/src/hash_table.c:22-35 | A walk that meets the key before any empty cell succeeds, and at a cell that holds the key |
| HashIndex.WalkEndsExactlyWhenBounded | imr_simulator-master/src/hash_table.c:22-35 | The unbounded probe loop ends if and only if some cell is empty or holds the key |
| HashIndex.WalkIsSlot | imr_simulator-master/src/hash_table.c:30-34 | Stepping with wrap-around visits every cell once in a lap, in cyclic order from the home |
| HashIndex.Overwrite | imr_simulator-master/src/hash_table.c:50-60 | Putting a tombstone over an item, or an item on its own probe chain, keeps every other chain and changes the multiset of keys by the one cell |
| HashIndex.Deletion | imr_simulator-master/src/hash_table.c:71-94 | A delete keeps all chains and removes one copy of the key; without such a key it does nothing |
| HashIndex.HashTable.HashCode | imr_simulator-master/src/hash_table.c:4-14 | The home of a key is the sum of its characters modulo the table size |
| HashIndex.HomeOfConcat | imr_simulator-master/src/hash_table.c:4-14 | The home of a key is an additive checksum of its characters: concatenated keys add up before the remainder is taken, and a single character stands for its code |
| HashIndex.HashTable.FindCell | imr_simulator-master/src/hash_table.c:22-37 | The loop of searches and deletes ends at the first item with the key on its chain, or reports that there is none |
| HashIndex.HashTable.SearchItem | imr_simulator-master/src/hash_table.c:16-38 | Succeeds exactly for the keys in the table, with the first item of the key's chain |
| HashIndex.HashTable.Insert | imr_simulator-master/src/hash_table.c:40-61 | Adds one copy of the key, in one cell that held no key, and keeps the probe chains |
| HashIndex.HashTable.DeleteItem | imr_simulator-master/src/hash_table.c:63-95 | Turns exactly the item that a search returns into a tombstone, removes one copy of the key and nothing else |
| DedupSpec.Grown | imr_simulator-master/src/lba.c:574-584 | Growing a list doubles its capacity and keeps its cells |
| DedupSpec.Position | imr_simulator-master/src/lba.c:702-711 | The scan for an LBA finds its first place in the active list exactly when the list has it |
| DedupSpec.BestTop | imr_simulator-master/src/block_swap.c:14-35 | The swap partner is the first of the most referenced tops in use, and there is none exactly when no top in use is shared |
| DedupSpec.FindHash | imr_simulator-master/src/pba.c:609-619 | The whole-disk scan for content returns the lowest track with the hash |
| DedupProofs.ActiveExactly | imr_simulator-master/src/active_swap.c:39-52 | The list of a block names exactly the LBAs that a block swap has to redirect |
| DedupProofs.ExchangeKeeps | imr_simulator-master/src/active_swap.c:17-52 | A block swap keeps forward map, lists and counts in agreement; every valid LBA moves with its block and still reaches the same hash, list and count |
| DedupProofs.ExchangeTwice | imr_simulator-master/src/active_swap.c:17-52 | Swapping the same two tracks twice restores blocks and LBA table |
| DedupProofs.StoreKeeps | imr_simulator-master/src/lba.c:664-673 | New content on a track that serves no other LBA keeps the mapping |
| DedupProofs.EnlistKeeps | imr_simulator-master/src/lba.c:657-662 | An LBA that no block serves may join the list of a block in use, with the count raised by one |
| DedupWrite.JoinKeepsExactly | imr_simulator-master/src/lba.c:606-663 | When an LBA joins a shared block, the mapping survives exactly if the walk bounded by block 0's count lets it onto the list |
| DedupWrite.ValidSameKeepsExactly | imr_simulator-master/src/lba.c:644-663 | Writing unchanged content again keeps the mapping exactly if that walk reaches the LBA, the LBA is last on the list, or the block is unshared |
| DedupWrite.FreshKeepsExactly | imr_simulator-master/src/pba.c:867-898 | A first write, whether of new content, of content on a block in use or of content on a trimmed block, keeps the mapping exactly under its guard |
| DedupWrite.UpdateKeeps | imr_simulator-master/src/pba.c:682-704 | New content for an unshared LBA keeps the mapping, with or without a block swap, and the write completes |
| DedupWrite.TrimmedOtherBreaks | imr_simulator-master/src/pba.c:758-823 | New content for a trimmed LBA, written over a block that has come to serve others, always breaks the mapping |
| DedupWrite.TrimmedSameBreaks | imr_simulator-master/src/pba.c:758-823 | The old content for a trimmed LBA whose old block still holds it always breaks the mapping: nothing is counted |
| DedupWrite.TrimmedKeepsExactly | imr_simulator-master/src/pba.c:758-823 | A write to a trimmed LBA keeps the mapping exactly under its guard |
| DedupWrite.WriteKeepsExactly | imr_simulator-master/src/lba.c:614-680 | For every consistent state and request, a write that completes keeps forward map, lists and counts in agreement if and only if the guard holds, and otherwise leaves a valid LBA that its block does not serve; a full disk changes nothing |
| DedupWrite.WriteStopsExactly | imr_simulator-master/src/lba.c:644-656 | Under the guard a write ends the run exactly when it updates content that several LBAs share, or needs a track and there is none |
| DedupRuns.TrimKeeps | imr_simulator-master/src/lba.c:700-770 | A trim keeps the mapping, and neither of its failure exits is reachable |
| DedupRuns.ReferencesAreConserved | imr_simulator-master/src/lba.c:756-764 | The counts of the blocks in use, each plus one, add up to the number of valid LBAs |
| DedupRuns.ContentsByEntry | imr_simulator-master/src/pba.c:491-497 | What an LBA reads is the hash in its own table entry |
| DedupRuns.WriteIsAssignment | imr_simulator-master/src/lba.c:614-680 | A guarded write that completes changes what the disk stores at its LBA and nowhere else |
| DedupRuns.TrimIsRemoval | imr_simulator-master/src/lba.c:723-770 | A trim that names the stored content removes the LBA from the store; any other trim changes nothing |
| DedupRuns.RunsRefineAMap | imr_simulator-master/src/lba.c:614-770 | Wherever a run of writes and trims ends, the mapping is consistent, references are conserved, no trim has failed and every LBA reads what a plain map would hold |
| DedupRuns.FreshIsConsistent | imr_simulator-master/src/lba.c:76-142 | The tables of a new disk are consistent and store nothing |
| DedupLimits.SwapProgress | imr_simulator-master/src/pba.c:682-704 | New content for an unshared LBA completes; on a bottom beside a track in use, while a top is shared, it ends on the first of the most shared tops, exactly that top stops being shared, and its block goes to the bottom; any other update leaves the LBA on its track and the shared tops alone |
| DedupPlacement.WantsSwapExactly | imr_simulator-master/src/pba.c:682-693 | A swap is asked for exactly by an unshared bottom that has a track in use on either side; for track 0 the word in front of the table counts as a side |
| DedupPlacement.BestTopExactly | imr_simulator-master/src/block_swap.c:14-35 | The partner is the first of the most shared tops in use, and there is none exactly when no top is shared |
| DedupPlacement.RewriteLands | imr_simulator-master/src/pba.c:682-704 | Other content for an LBA with a track, valid or trimmed, ends on the first of the most shared tops if and only if the track is an unshared bottom beside a track in use and some top is shared, and on its own track otherwise |
| DedupPlacement.FirstWriteLands | imr_simulator-master/src/pba.c:609-619 | A first write of content that is on the disk joins the lowest track that has it and changes no other; other content goes to the track of the allocator, and without one the disk is full |
| DedupPlacement.WriteAccesses | imr_simulator-master/src/chs.c:19-34 | Stored content costs one access and a swap for it one more; content that the LBA joins or already has costs none |
| DedupPlacement.ListGrowsExactly | imr_simulator-master/src/lba.c:574-584 | A list of LBAs is made longer exactly when it is full, and then to twice its capacity |
| DedupLimits.RewriteSafeBelowBlockZero | imr_simulator-master/src/lba.c:606-612 | Unchanged content is safe to write again while block 0 is referenced at least as often as the block |
| DedupLimits.DuplicateSafeAboveBlockZero | imr_simulator-master/src/lba.c:606-612 | A duplicate is safe to write while block 0 is referenced at most as often as the block after the write |
| DedupLimits.OwnCountWouldDo | imr_simulator-master/src/lba.c:606-612 | Bounded by the block's own count, the walk would find every LBA of the list and let every newcomer on |
| DedupRepaired.OwnWriteIsAssignment | imr_simulator-master/src/lba.c:606-663 | With the block's own count as the bound, a write to an LBA that was not trimmed keeps the mapping and is one assignment, with no guard |
| DedupRepaired.OwnRunsRefineAMap | imr_simulator-master/src/lba.c:606-663 | Then runs refine a plain map, and end early only at a shared update, on a full disk, or before a write to a trimmed LBA |
| DedupFailures.RewriteCanLoseAnLba | imr_simulator-master/src/lba.c:657-661 | From any new disk, a run of four writes after which writing the same content to one LBA again drops another LBA from the list, so that trimming that one ends the program |
| DedupFailures.TrimmedRewriteCanLoseContent | imr_simulator-master/src/pba.c:758-823 | From any new disk, a run of two writes and a trim after which writing to the trimmed LBA replaces what another LBA reads |
| DedupFailures.DuplicateCanBeKeptOff | imr_simulator-master/src/lba.c:606-612 | From any new disk, a run of four writes after which a duplicate is kept off its block's list, because the walk for block 0's count runs past the list into memory that holds the LBA's number |
| DedupDisk.SwappedKeys | imr_simulator-master/src/active_swap.c:22-28 | Taking two block hashes out of the index and putting them back for the other track leaves the multiset of keys equal to that of the block hashes |
| DedupDisk.KeyIsBounded | imr_simulator-master/src/hash_table.c:71-92 | A walk for a key that the index holds ends |
| DedupDisk.Disk.constructor | imr_simulator-master/src/lba.c:48-142 | A new disk is valid: tables, index and allocator agree |
| DedupDisk.Disk.IsInStorage | imr_simulator-master/src/pba.c:569-634 | In phase 1, stepping by two and stopping at the number of used blocks gives the answer of a whole-disk scan, and the same track; later it is that scan |
| DedupDisk.Disk.FindSwappedPba | imr_simulator-master/src/pba.c:638-679 | The same for the first block in use with the hash |
| DedupDisk.Disk.FindEmptyBlockSwap | imr_simulator-master/src/block_swap.c:14-35 | Returns the first of the most referenced tops in use |
| DedupDisk.Disk.IsLbaInStorage | imr_simulator-master/src/lba.c:606-612 | Searches the list of a block as far as the count of block 0 reaches |
| DedupDisk.Disk.ChsWrite | imr_simulator-master/src/chs.c:19-34 | The track is in use and counted; a track that was not in use adds to the used blocks |
| DedupDisk.Disk.RedirectList | imr_simulator-master/src/active_swap.c:42-51 | Sends every LBA of one block's list to the other track and leaves all other entries alone |
| DedupDisk.Disk.LtpTableSwap | imr_simulator-master/src/active_swap.c:39-52 | Every LBA listed by one of the two tracks is sent to the other |
| DedupDisk.Disk.BlockInfoSwap | imr_simulator-master/src/active_swap.c:17-29 | The two blocks change places and the index still mirrors the blocks; every index loop in it ends |
| DedupDisk.Disk.CreateBlockSwap | imr_simulator-master/src/active_swap.c:53-60 | Rewrites the bottom, exchanges the two tracks and counts one swap |
| DedupDisk.Disk.DedupUpdate | imr_simulator-master/src/pba.c:682-704 | New content ends on the first of the most shared tops exactly for an unshared bottom beside a track in use while a top is shared, and on its own track otherwise; the swap counter counts these moves |
| DedupDisk.Disk.FindNextPba | imr_simulator-master/src/pba.c:39-258 | Books one free track, the next bottom in phase 1, and finds none exactly when no track is free |
| DedupDisk.Disk.Relocate | imr_simulator-master/src/pba.c:758-823 | The old content of a trimmed LBA is looked for where a swap may have moved it, and counted there |
| DedupDisk.Disk.SearchTrimmedLba | imr_simulator-master/src/pba.c:758-823 | The branch for a trimmed LBA does what its specification says |
| DedupDisk.Disk.SearchValidLba | imr_simulator-master/src/pba.c:826-847 | The branch for a valid LBA: an update for new content, and nothing for unchanged content |
| DedupDisk.Disk.Share | imr_simulator-master/src/pba.c:870-891 | Content that is on the disk: its block is counted once more, or revived for the LBA if it was trimmed |
| DedupDisk.Disk.SearchFreshLba | imr_simulator-master/src/pba.c:867-898 | The branch for a first write: shared content or a newly booked track, and none only on a full disk |
| DedupDisk.Disk.PbaSearch | imr_simulator-master/src/pba.c:745-899 | Finds the track for a write as specified, over the branches for trimmed, valid and new LBAs; all index loops end |
| DedupDisk.Disk.EnlistLba | imr_simulator-master/src/lba.c:657-662 | Grows a full list and enters the LBA unless the walk has met it |
| DedupDisk.Disk.StoreBlock | imr_simulator-master/src/lba.c:666-679 | Moves the index to the new hash, enters LBA and hash and writes the track |
| DedupDisk.Disk.FinishWrite | imr_simulator-master/src/lba.c:644-679 | Ends the run for an update of shared content, and otherwise enlists the LBA or stores the block as specified |
| DedupDisk.Disk.LbaWrite | imr_simulator-master/src/lba.c:614-680 | Does in place what the specification of a write says; a completed write leaves a valid disk if and only if its guard held, and the index mirrors the blocks in any case; other content for an LBA with a track moves to the first of the most shared tops exactly when a swap is due, and the swap counter counts this; a full disk has no free track; an LBA behind the table is turned away |
| DedupDisk.Disk.DeleteLbaInStorage | imr_simulator-master/src/lba.c:700-721 | Moves the entries behind the LBA up by one, or reports that it is not listed |
| DedupDisk.Disk.ReleaseLba | imr_simulator-master/src/lba.c:728-764 | Marks the LBA trimmed, takes it off the list and lowers the count, or marks the block trimmed when it was the last |
| DedupDisk.Disk.DedupeTrim | imr_simulator-master/src/lba.c:723-770 | Does in place what the specification of a trim says and leaves a valid disk |
| ZoneAllocation.ZonesOfWholeGigabytes | imr_simulator-master/src/lba.c:164-212 | For whole gigabytes the modular border arithmetic yields 0..max-2, max-1..3 and 1..max-3 |
| ZoneAllocation.AdvanceKeeps | imr_simulator-master/src/pba.c:103-189 | A round keeps a full phase 1 at its end, never steps below the end of phase 2, and comes strictly closer to the end in phase, flags and distance |
| ZoneAllocation.FreeBottom | imr_simulator-master/src/pba.c:104-116 | The lowest free bottom, or none exactly when all bottoms are taken |
| ZoneAllocation.Allocate | imr_simulator-master/src/pba.c:39-258 | The rounds end, and a track handed out is on the disk and was free |
| ZoneAllocation.AdvancePending | imr_simulator-master/src/pba.c:103-189 | A round leaves no free track behind the allocator, except the one it looks at |
| ZoneAllocation.AllocateExactly | imr_simulator-master/src/pba.c:39-258 | While every free track is ahead of the allocator, it finds none if and only if no track is free, and the other free tracks stay ahead |
| ZoneAllocation.OrderIsAPermutation | imr_simulator-master/src/pba.c:103-151 | The order 0,2,..,max-2, max-1,max-5,..,3, 1,5,..,max-3 visits every track exactly once |
| ZoneAllocation.NthAllocation | imr_simulator-master/src/pba.c:103-151 | With nothing freed or buffered, the k-th allocation returns the k-th track of that order, until all are taken |
| ZoneAllocation.FreshDiskFillsInOrder | imr_simulator-master/test/ut_zalloc.h:94-136 | On a new disk any number of allocations hands out the tracks in that order, each once, and then none |
| ZoneAllocation.BufferingExactly | imr_simulator-master/src/pba.c:108-185 | On a new disk of any size, buffering is on after the first top has been handed out and until phase 3 has handed out one of the last 2 * (max / 100) tracks |
| TopBufferSpec.TracksAreNotShared | imr_simulator-master/src/pba.c:466-474 | No two valid LBAs read the same track |
| TopBufferSpec.PairsAreABijection | imr_simulator-master/src/top_buffer.c:51-69 | Buffered bottoms and buffer tops name each other, and the count of buffers is the number of pairs |
| TopBufferSpec.PlaceStores | imr_simulator-master/src/pba.c:461-463 | A new LBA on a free track is one assignment in what the disk stores, and keeps the invariant |
| TopBufferSpec.RewriteStores | imr_simulator-master/src/pba.c:408-421 | Writing an LBA where it is read is one assignment in what the disk stores |
| TopBufferSpec.PairStores | imr_simulator-master/src/top_buffer.c:51-69 | New data on a top that is paired with the LBA's bottom is one assignment in what the disk stores |
| TopBufferSpec.WriteBackStores | imr_simulator-master/src/scp.c:89-147 | Writing a buffer top back keeps the invariant, frees the top and changes nothing that any LBA reads |
| TopBufferRoutes.FullDiskHoldsEveryLba | imr_simulator-master/src/pba.c:167-172 | With no free track and nothing buffered each track serves an LBA of its own, so every LBA of the disk is stored already |
| TopBufferRoutes.NewLbaHasRoute | imr_simulator-master/src/pba.c:39-258 | A new LBA always finds a track, free or reclaimed by SCP: the disk-full exit is unreachable |
| TopBufferRoutes.RouteExactly | imr_simulator-master/src/top_buffer.c:74-109 | A write finds a track if and only if it is not an update of a plain bottom outside phase 1, with buffering on, room in the buffer and no free top |
| TopBufferRoutes.StuckExactly | imr_simulator-master/src/top_buffer.c:74-109 | The same guard in terms of the tables, the phase, the flag and the counts |
| TopBufferRoutes.UpdateLandsExactly | imr_simulator-master/src/pba.c:397-438 | An update is buffered if and only if its track is a plain bottom, the phase is not the first and buffering is on: then the bottom keeps its data and a top paired with it takes the new data; any other goes to the track the LBA is read from |
| TopBufferRoutes.RouteIsUnique | imr_simulator-master/src/top_buffer.c:24-48 | The tables, the allocator and the two cursors determine the route: the next free top, or the next victim, from the cursor on and around the end |
| TopBufferRoutes.RouteCosts | imr_simulator-master/src/chs.c:19-34 | A write takes one access and one more when SCP has to give a top back; a top that the allocator takes from the buffer lowers its capacity by one |
| TopBufferRoutes.RouteStores | imr_simulator-master/src/lba.c:446-473 | Every route of a write, in place, to a buffer or to a new track, with or without SCP, is one assignment in what the disk stores and keeps the whole invariant, free tracks included |
| TopBufferLimits.BufferingStaysOn | imr_simulator-master/src/pba.c:177-181 | On a disk of 512 tracks the first 510 allocations leave buffering enabled |
| TopBufferLimits.TopsRunOut | imr_simulator-master/src/top_buffer.c:95-106 | On a new disk of 512 tracks, writing LBAs 0 to 509 and then 0 and 1 again reaches a valid disk that holds all 510, with two of ten buffers in use, and refuses LBA 2: the write ends in the exit for missing tops |
| TopBufferLimits.UpdateInPhase2 | imr_simulator-master/src/pba.c:414-426 | On a new disk of 512 tracks, after LBAs 0 to 256 a second write of LBA 0 pairs bottom 0 with top 1, which holds the new data |
| TopBufferDisk.Disk.constructor | imr_simulator-master/src/lba.c:48-285 | A new disk is valid and stores nothing |
| TopBufferDisk.Disk.ChsWrite | imr_simulator-master/src/chs.c:19-34 | The track is in use and counted; a track that was not in use adds to the used blocks |
| TopBufferDisk.Disk.ChsDelete | imr_simulator-master/src/chs.c:36-69 | Invalidates a track in use and resets its indirection entry; the LBA is invalidated too, except in SCP; any other track is the failure exit |
| TopBufferDisk.Disk.FindVictimTrack | imr_simulator-master/src/scp.c:68-88 | Finds the next buffer top from the cursor on and around the end, and none only when no track is buffered |
| TopBufferDisk.Disk.RunScp | imr_simulator-master/src/scp.c:89-147 | Dissolves the pair of the victim; its three exits, the last for unequal read and write counts, and its assertion are unreachable |
| TopBufferDisk.Disk.WriteBackVictim | imr_simulator-master/src/scp.c:57-65 | In SCP mode the victim is written back, and the mode ends with it |
| TopBufferDisk.Disk.Scp | imr_simulator-master/src/scp.c:39-66 | Fails exactly when nothing is buffered; otherwise the next buffer top is written back and the count falls by one |
| TopBufferDisk.Disk.FindEmptyTopBuffer | imr_simulator-master/src/top_buffer.c:25-49 | Finds the next free top from the cursor on and around the end, and none exactly when no top is free |
| TopBufferDisk.Disk.CreateTopBuffer | imr_simulator-master/src/top_buffer.c:51-69 | Books the top and pairs it with the bottom in both directions |
| TopBufferDisk.Disk.RunTopBuffer | imr_simulator-master/src/top_buffer.c:74-109 | Pairs the bottom with a free top, or with the top of an SCP when the buffer is full; it fails exactly when the buffer has room and no top is free |
| TopBufferDisk.Disk.FindFreeBottom | imr_simulator-master/src/pba.c:104-116 | The lowest free bottom, or none when all are taken |
| TopBufferDisk.Disk.AdvanceZone | imr_simulator-master/src/pba.c:48-189 | The switch of the allocator looks at an existing track and leaves the position that the specification says |
| TopBufferDisk.Disk.SearchZones | imr_simulator-master/src/pba.c:44-256 | The loop without a bound returns what the allocation function says |
| TopBufferDisk.Disk.ReclaimTop | imr_simulator-master/src/pba.c:152-188 | When phase 3 has run out, SCP writes one pair back for good: the freed top is next and the capacity shrinks by one |
| TopBufferDisk.Disk.ZallocFindNextPba | imr_simulator-master/src/pba.c:39-258 | Books the track that the allocation function finds or, when that finds none, the top just reclaimed; it fails exactly when no track is free and nothing is buffered |
| TopBufferDisk.Disk.IsLbaValid | imr_simulator-master/src/pba.c:397-438 | For an LBA held under this fid, the track that it reads or a top newly paired with its bottom, with the cursors moved to it; no track exactly when the update is stuck |
| TopBufferDisk.Disk.PbaSearch | imr_simulator-master/src/pba.c:450-464 | The route of a write and the whole state before its last step; it fails exactly when the update is stuck, and then changes nothing |
| TopBufferDisk.Disk.WriteAt | imr_simulator-master/src/lba.c:464-472 | The track names the LBA, is in use and holds the data; nothing else changes |
| TopBufferDisk.Disk.LbaWrite | imr_simulator-master/src/lba.c:446-473 | The whole new state of a write, cursors included, which is one assignment in the table of what the disk stores; rejected exactly when another fid holds the LBA; an update of a plain bottom is buffered exactly outside phase 1 with buffering on, and fails exactly when then the buffer has room and no top is free, by the fields before the call |
| TopBufferDisk.Disk.LbaRead | imr_simulator-master/src/lba.c:407-438 | A read visits a track exactly when the disk holds the LBA under this fid, and the track holds the data last written |
| TopBufferDisk.Disk.Serve | imr_simulator-master/test/main.c:49-133 | A request has the effect and the answer of a plain table, and is refused exactly when it is an update that is stuck |
| TopBufferDisk.Disk.Replay | imr_simulator-master/test/main.c:49-133 | Over a whole trace, with any number of SCPs in between, every read finds what a plain table holds at that moment; a run stops early only before an update that is stuck on the disk reached |
| BatchSpec.ExtendCloses | imr_simulator-master/src/batch.c:142-189 | For a sorted batch without repeated bottoms the extended table is strictly ascending, holds the batch and every live top next to a batched bottom and nothing else, and an entry is physical exactly when its track was batched |
| BatchSpec.AscendingExactly | imr_simulator-master/src/batch.c:142-189 | The extended table of a sorted batch is strictly ascending if and only if no bottom is batched twice |
| BatchSpec.ExtendIsAtMostTriple | imr_simulator-master/src/batch.c:142-189 | The extended table has at most three entries for each of the batch |
| BatchSpec.PhysicalsOfExtend | imr_simulator-master/src/batch.c:156-165 | One physical entry per batched track, except that a repeated top is merged |
| BatchSpec.NoRepeatedTops | imr_simulator-master/src/batch.c:156-165 | Nothing is merged exactly when no top is batched twice |
| BatchSpec.VirtualsOfExtend | imr_simulator-master/src/batch.c:166-185 | For every sorted batch: one virtual entry for each live top beside a batched bottom that is not batched itself, and one more for each live top beside a bottom whenever that bottom is repeated |
| BatchSpec.NoneAgain | imr_simulator-master/src/batch.c:166-185 | No entry is repeated exactly when no bottom beside a live top is batched twice |
| Record.RunsAreMaximal | imr_simulator-master/src/record_op.c:84-121 | The runs cut the table into stretches of consecutive tracks, none of which could be longer |
| Record.TotalCounts | imr_simulator-master/src/record_op.c:221-268 | However a table falls into runs, the bytes written are those of its physical entries and the bytes rewritten those of its virtual ones |
| Record.ChargeOfTable | imr_simulator-master/src/record_op.c:70-122 | The same for the runs that the scan finds |
| Record.MixedRunsExactly | imr_simulator-master/src/record_op.c:84-121 | The runs charged three times are exactly those with a virtual entry |
| Record.CostOfTable | imr_simulator-master/src/record_op.c:221-268 | A table costs a seek for each run and two more for a run with a virtual entry, and a rotation and a transfer for each track and two more for a track of such a run; all tracks of such runs are read again |
| Record.CostOfTwo | imr_simulator-master/src/record_op.c:221-268 | Two neighbouring tracks cost 51546564 ns, and three times as much when one of them is only rewritten |
| Record.Report.RecordWriteVirtualTracks | imr_simulator-master/src/record_op.c:252-268 | A run with a virtual entry costs three accesses, rewrites its virtual entries and reads all of it |
| Record.Report.RecordWritePhysicalTracks | imr_simulator-master/src/record_op.c:221-230 | A run without virtual entries costs one seek and a rotation and transfer per track |
| Record.Report.RecordWrite | imr_simulator-master/src/record_op.c:70-122 | The single pass charges every maximal run of the table once, with the time and the bytes written, rewritten and read again given by runs and entries; for an empty table it charges the entry in the first cell |
| Record.Report.RecordDeletePhysicalTracks | imr_simulator-master/src/record_op.c:242-250 | A deleted run without virtual entries costs one seek and a rotation and transfer per track |
| Record.Report.RecordDeleteVirtualTracks | imr_simulator-master/src/record_op.c:270-285 | A deleted run with a virtual entry costs three accesses, rewrites its virtual entries and reads all of it |
| Record.Report.RecordDelete | imr_simulator-master/src/record_op.c:160-218 | The same for deletes |
| Batch.SortBatchSorts | imr_simulator-master/src/batch.c:191-201 | Sorting orders the batch and keeps every entry as often as it was |
| Batch.Table.Add | imr_simulator-master/src/batch.c:81-90 | Appends one entry, after doubling a full table without losing any |
| Batch.Table.ModifyLastToPhysical | imr_simulator-master/src/batch.c:126-132 | Changes the flag of the last entry and nothing else |
| Batch.Disk.PbaWrite | imr_simulator-master/src/pba.c:351-364 | Each batched track is in use and counted once per entry, other tracks are untouched, and the used blocks grow by the tracks that come into use |
| Batch.Disk.ChsWrite | imr_simulator-master/src/chs.c:19-34 | The track is in use and counted; a track that was not in use adds to the used blocks |
| Batch.Batch.ExtendTop | imr_simulator-master/src/batch.c:158-165 | A top that ends the table already becomes physical there; otherwise it is appended |
| Batch.Batch.ExtendBottom | imr_simulator-master/src/batch.c:166-185 | A bottom is appended between its live neighbours, the lower of which may be there already |
| Batch.Batch.BatchAdd | imr_simulator-master/src/batch.c:100-103 | Adds one physical entry behind the batch and leaves the extended table empty |
| Batch.Batch.BatchExtend | imr_simulator-master/src/batch.c:142-189 | The loop fills the extended table with the closure of the batch |
| Batch.Batch.BatchSync | imr_simulator-master/src/batch.c:191-201 | Sorts the batch in place |
| Batch.Batch.BatchWrite | imr_simulator-master/src/batch.c:232-246 | Writes the batch and charges its closure: the time and the bytes read again by the runs and entries of the closure; written and block sizes rise by the same amount exactly when no top is batched twice, and the rewritten size by one track per disturbed top and one per repeated disturbance |
| Batch.Batch.LbaWrite | imr_simulator-master/src/lba.c:446-473 | The tracks found for a request are counted as often as they were found, whatever their order; the closure of the sorted batch is charged, and nothing when all LBAs belong to other files; written and block sizes rise by the same amount exactly when no top was found twice |
| Batch.BatchIsConserved | imr_simulator-master/src/batch.c:232-246 | Of any batch, the charged bytes are at most the batched ones, and equal to them exactly when no top is batched twice; the rewritten bytes count each disturbed top once exactly when no bottom beside a live top is batched twice |
| Batch.EmptyBatchIsCharged | imr_simulator-master/src/record_op.c:80-121 | An empty batch is charged for one track, as the stale first entry of the table says |
| VirtualGroupSpec.GroupsPartition | imr_simulator-master/src/virtual_groups.c:82-135 | A track lies within the borders of group i exactly when i is the track divided by the granularity, and that group exists |
| VirtualGroupSpec.ScannedExactly | imr_simulator-master/src/virtual_groups.c:46-80 | The tops between a group's top borders are the tops of the group, unless the group is track 0 alone |
| VirtualGroupSpec.PlaceStores | imr_simulator-master/src/pba.c:461-463 | A new LBA on a free track keeps the two maps inverse and is one assignment in what the disk stores |
| VirtualGroupSpec.SwapKeepsCount | imr_simulator-master/src/chs.c:24-27 | A dual swap counts one more used block although no more tracks are in use: the count is the number of tracks in use plus the swaps plus the deletes |
| VirtualGroupSpec.CrowdedExactly | imr_simulator-master/src/virtual_groups.c:528-536 | A track calls for a swap, in a constrained group, exactly when it is a bottom with a neighbour on the disk that is neither free nor invalid |
| VirtualGroupSpec.WriteCosts | imr_simulator-master/src/chs.c:19-34 | A write takes one access, and one more when a dual swap moves a top in use to the bottom |
| VirtualGroupSpec.SwapStores | imr_simulator-master/src/virtual_groups.c:495-590 | A write through a dual swap keeps the maps inverse: the LBA owns the top, the evicted LBA is redirected to the bottom with its data, no other mapping moves |
| VirtualGroupSpec.WriteIsAssignment | imr_simulator-master/src/lba.c:446-473 | A write through a swap, in place or on a free track changes what the disk stores at its LBA only |
| VirtualGroupSpec.PlacedOnTaken | imr_simulator-master/src/virtual_groups.c:440-448 | A new LBA on a track in use leaves two LBAs leading to one track |
| VirtualGroupSpec.WriteKeepsExactly | imr_simulator-master/src/lba.c:446-473 | A write keeps the maps inverse if and only if its LBA has a track or the track offered for it is free |
| VirtualGroupSpec.DropRemoves | imr_simulator-master/src/chs.c:36-69 | Deleting a track takes its LBA out of the store and nothing else |
| VirtualGroupSpec.GroupHasTop | imr_simulator-master/src/virtual_groups.c:46-80 | A group of more than one track has a top whenever it has a bottom |
| VirtualGroupSpec.VictimIsUnique | imr_simulator-master/src/virtual_groups.c:545-580 | At most one top meets the description of a victim: the first free one or else the first of the least written |
| VirtualGroupSpec.VictimExactly | imr_simulator-master/src/virtual_groups.c:545-580 | Among the tops of the group that are not booked it is the first that is free or invalid, or without any such the first of those with the lowest count |
| VirtualGroupAllocator.GetBlockKeeps | imr_simulator-master/src/virtual_groups.c:466-492 | vg_get_block keeps every group on the list of its status or in one of the two slots for groups being filled; what it hands out is not in use, unless it is the offer of a group from the free list |
| VirtualGroupAllocator.GetBlockFailsExactly | imr_simulator-master/src/virtual_groups.c:466-492 | It fails if and only if the group being filled has nothing ahead, the free list is empty or no longer asked, no group on the other lists has a track that is not in use, and the group being filled for the other attribute has nothing ahead |
| VirtualGroupAllocator.GetBlockFailsAgain | imr_simulator-master/src/virtual_groups.c:466-492 | After a failure the lists are in agreement, and the next search for the same attribute fails without changing anything |
| VirtualGroupChoice.SlotIsPreferred | imr_simulator-master/src/virtual_groups.c:281-298 | While the group being filled has a track ahead, that is handed out and only the cursor moves |
| VirtualGroupChoice.SlotIsGivenUp | imr_simulator-master/src/virtual_groups.c:604-628 | A group that does not go on joins the end of the constrained list, and a random one goes over to its other half |
| VirtualGroupChoice.GetBlockChooses | imr_simulator-master/src/virtual_groups.c:466-492 | When the group being filled does not go on, the block is the offer of the first free group; or the next track of the first random group of the attribute that goes on; or of the first constrained group of the other attribute that goes on; or one of the first random, then of the first constrained group that has any; or the next of the group filled for the other attribute; identical_attr_files is set exactly when none of the first three is found |
| VirtualGroupChoice.ReclassifiedExactly | imr_simulator-master/src/virtual_groups.c:640-673 | Data on bottoms and tops in front of the last track makes a group constrained, data on either makes it random with its cursor on that half, and no data makes it free; a group being filled is left alone |
| VirtualGroupChoice.WithoutExactly | imr_simulator-master/src/virtual_groups.c:656 | Taking a group off a list leaves the others in their order |
| VirtualGroupAllocator.FreeIsUnseen | imr_simulator-master/src/virtual_groups.c:640-672 | The scan finds a group free exactly when none of its tracks but the last is in use |
| VirtualGroupAllocator.UpdatedAllKeeps | imr_simulator-master/src/virtual_groups.c:675-686 | Classifying the groups of a batch anew keeps lists and groups in agreement, and every group on the free list free of data that the scan sees |
| VirtualGroupAllocator.BookedKeepsTidy | imr_simulator-master/src/virtual_groups.c:440-448 | A track that comes into use lies in no group on the free list, but for its last track |
| VirtualGroupAllocator.OfferIsTakenExactly | imr_simulator-master/src/virtual_groups.c:300-314 | In a group of two tracks or more the offer is in use exactly when it is the last track, which the scan leaves out, and that one holds data; in a group of one track the scan sees nothing, and the offer is that track or the one behind the group |
| VirtualGroupAllocator.WideExactly | imr_simulator-master/src/virtual_groups.c:82-135 | All groups have three tracks or more exactly when the granularity is at least 3 and does not leave a last group of one or two |
| VirtualGroupAllocator.WideHandsFreeTracks | imr_simulator-master/src/virtual_groups.c:466-492 | In such a division, with the lists in order, vg_get_block never hands out a track in use |
| VirtualGroupLists.GroupLists.constructor | imr_simulator-master/src/virtual_groups.c:46-80 | All groups begin free and wait in order |
| VirtualGroupLists.GroupLists.ScanList | imr_simulator-master/src/virtual_groups.c:365-405 | Finds the first group of a list, among those with the attribute asked for, that has a track, and that track |
| VirtualGroupLists.GroupLists.SetVg | imr_simulator-master/src/virtual_groups.c:604-628 | A group that has been filled waits on the constrained list, with the other half of its tracks ahead |
| VirtualGroupLists.GroupLists.GetFromCurrent | imr_simulator-master/src/virtual_groups.c:281-298 | The next track of the group being filled, or the release of that group |
| VirtualGroupLists.GroupLists.GetFromFree | imr_simulator-master/src/virtual_groups.c:300-314 | Begins the first group of the free list with its first top for hot and its first bottom for cold files |
| VirtualGroupLists.GroupLists.GetFromAll | imr_simulator-master/src/virtual_groups.c:316-363 | Takes any waiting group with a track, and gives up the distinction of attributes for good |
| VirtualGroupLists.GroupLists.GetFromOther | imr_simulator-master/src/virtual_groups.c:264-279 | The next track of the group being filled for the other attribute |
| VirtualGroupLists.GroupLists.GetBlock | imr_simulator-master/src/virtual_groups.c:466-492 | The branches in their order, with the whole new state of lists and groups as the specification gives it, whose choice is described by the tracks and lists alone (GetBlockChooses) |
| VirtualGroupLists.GroupLists.UpdateVg | imr_simulator-master/src/virtual_groups.c:640-673 | Leaves a group being filled alone; classifies any other by the tracks the scan sees, moves it to the end of that list, and sets the cursor of a random one |
| VirtualGroupLists.GroupLists.UpdateVgList | imr_simulator-master/src/virtual_groups.c:675-686 | Does so for each group of the batch once, in order |
| VirtualGroupFailures.NextIsOffered | imr_simulator-master/src/virtual_groups.c:300-314 | When the group being filled has nothing ahead, the next one is the first of the free list |
| VirtualGroupFailures.OneTrackGroupsShareATrack | imr_simulator-master/src/virtual_groups.c:300-314 | With one track to a group, the table of the disk reached from a new one by three writes of the first file leads the second and the third LBA to the same track, so the disk is not valid any more |
| VirtualGroupFailures.HalfEmptyGroupOffersTakenTrack | imr_simulator-master/src/virtual_groups.c:640-673 | On every sound disk, with two tracks to a group: when the bottom of a group that is not being filled is deleted while its top is in use, the group waits on the free list with that top as its offer to hot files, and a new LBA there makes two LBAs lead to one track |
| VirtualGroupRun.TwoTrackGroupsShareATrack | imr_simulator-master/src/virtual_groups.c:466-492 | A run from a new disk of 512 tracks with two tracks to a group: 258 writes to a cold and a hot file, the deletion of the cold one, and one more LBA of the hot one; on the disk reached, the table leads that LBA and an older one to the same track |
| VirtualGroupExhausted.FreeGroupIsNotAsked | imr_simulator-master/src/virtual_groups.c:466-492 | For every even granularity from four up, a run from a new disk of two groups: three files fill all tracks and the first is deleted; on the valid disk reached all tracks of the first group are free, and vg_get_block fails for both attributes |
| VirtualGroupDisk.MakeGroups | imr_simulator-master/src/virtual_groups.c:82-135 | Sets the borders of every group and links them into one list |
| VirtualGroupDisk.Disk.PbaToVg | imr_simulator-master/src/virtual_groups.c:592-602 | The walk along the list ends at the group that division by the granularity names, and at none beyond the disk |
| VirtualGroupDisk.Disk.constructor | imr_simulator-master/src/lba.c:48-285 | A new disk is valid, is divided into groups that are all free, and stores nothing, for any logical size from the physical one up |
| VirtualGroupDisk.Disk.ChsWrite | imr_simulator-master/src/chs.c:19-34 | The track is in use and counted; a track that was not in use adds to the used blocks |
| VirtualGroupDisk.Disk.FindTop | imr_simulator-master/src/virtual_groups.c:545-585 | The scan settles on the first free top of the group, else on the first of the least written, and on none exactly when all are booked; for a group that is track 0 alone it takes the first free top of the disk, or leaves the disk when there is none |
| VirtualGroupDisk.Disk.SwapBlock | imr_simulator-master/src/virtual_groups.c:495-519 | Moves what the top holds to the bottom, with its owner, and books the top; the exit for other states is unreachable |
| VirtualGroupDisk.Disk.DualSwap | imr_simulator-master/src/virtual_groups.c:540-590 | Exchanges the bottom with the victim of its group and counts one swap |
| VirtualGroupDisk.Disk.DoDualSwap | imr_simulator-master/src/virtual_groups.c:520-538 | Swaps exactly when the track is a bottom of a constrained group with a neighbour that is not free, unless groups have one track and it is not track 0 |
| VirtualGroupDisk.Disk.FindNextPba | imr_simulator-master/src/pba.c:269-286 | A track by the attribute of the file, which is fixed when the file is first seen, in turn cold and hot; the track is booked |
| VirtualGroupDisk.Disk.Rewrite | imr_simulator-master/src/pba.c:450-460 | The whole new state of a write to an LBA that the disk holds, with or without a dual swap |
| VirtualGroupDisk.Disk.PlaceNew | imr_simulator-master/src/pba.c:461-463 | The whole new state of a write to a new LBA; the maps stay inverse exactly when the track was not in use, and otherwise it came from the free list |
| VirtualGroupDisk.Disk.LbaWrite | imr_simulator-master/src/lba.c:446-473 | The whole new state of a write, lists included; rejected exactly when another fid holds the LBA or it is out of range; the disk stays valid exactly when the LBA has a track or the one handed out was not in use, and always when all groups have three tracks or more |
| VirtualGroupDisk.Disk.LbaRead | imr_simulator-master/src/lba.c:407-438 | A read finds the data last written under this fid, exactly when there is any |
| VirtualGroupDisk.Disk.ChsDelete | imr_simulator-master/src/chs.c:36-69 | Succeeds exactly for a track in use; its LBA leaves the store and nothing else does |
| VirtualGroupDisk.Disk.CollectFile | imr_simulator-master/src/lba.c:523-551 | Finds the tracks of all LBAs of the file, each once; its two exits are unreachable |
| VirtualGroupDisk.Disk.PbaDelete | imr_simulator-master/src/pba.c:366-378 | Deletes every track of the batch, and no exit is reached |
| VirtualGroupDisk.Disk.LbaDelete | imr_simulator-master/src/lba.c:517-555 | A delete removes exactly the LBAs of the file and classifies the groups of their tracks anew; its exits and those of chs_delete are unreachable |
| VirtualGroupDisk.Disk.Reclassify | imr_simulator-master/src/virtual_groups.c:675-686 | After a delete the groups of its tracks are classified anew, and the disk stays valid |
| VirtualGroupDisk.Disk.Serve | imr_simulator-master/test/main.c:49-133 | In such a division a request has the effect and the answer of a plain table, unless it is a write of a new LBA for which vg_get_block fails; then it would fail again, and nothing but the lists has changed |
| VirtualGroupDisk.Disk.Replay | imr_simulator-master/test/main.c:49-133 | In such a division, over every run of writes, reads and deletes, every read finds what a plain table holds at that moment; a run stops early only before a new LBA for whose file vg_get_block fails on the disk reached |
| RingBuffer.TotalSlides | imr_simulator-master/src/fid_table.c:93-103 | Subtracting the oldest length and adding the newest gives the sum of the window after the request |
| RingBuffer.WindowForgets | imr_simulator-master/src/ring_buffer.c:9-82 | After 1000 requests no answer depends on what came before them |
| RingBuffer.LongestIsCold | imr_simulator-master/src/fid_table.c:93-103 | A request at least as long as each of the last 1000 is cold |
| RingBuffer.HotExactly | imr_simulator-master/src/fid_table.c:93-103 | A request is hot if and only if 1000 times its length plus 1000 is at most the sum of the window, that is, when it is below the floor of the mean |
| RingBuffer.ShortestIsHot | imr_simulator-master/src/fid_table.c:93-103 | After 1000 requests, one shorter than each of the last 1000 is hot |
| RingBuffer.QueuedInsert | imr_simulator-master/src/ring_buffer.c:53-62 | Writing behind the rear appends one length to the queue, across the end of the array as well |
| RingBuffer.QueuedDelete | imr_simulator-master/src/ring_buffer.c:73-82 | The cell behind the front is the oldest length of the queue |
| RingBuffer.Ring.constructor | imr_simulator-master/src/ring_buffer.c:9-40 | The queue starts full of zeros, with sum and mean zero |
| RingBuffer.Ring.IsFull | imr_simulator-master/src/ring_buffer.c:68-71 | True exactly when the queue holds 1000 lengths |
| RingBuffer.Ring.Insert | imr_simulator-master/src/ring_buffer.c:53-62 | Appends unless the queue holds 1000 lengths |
| RingBuffer.Ring.Delete | imr_simulator-master/src/ring_buffer.c:73-82 | Takes the oldest length, unless the queue is empty |
| RingBuffer.Ring.GenerateAttr | imr_simulator-master/src/fid_table.c:93-103 | The queue holds the last 1000 lengths, total is their sum and avg its floor mean after every request; a request is hot if and only if 1000 * (bytes + 1) is at most the sum of the window before it; neither exit of the queue is reached |

## Left out

- Each layer is modelled in one build; NEW_ALLOC with buffer_flush, TRIM with inversion swaps, BLOCK_SWAP inside SCP, CMR, the journaling paths and RESERVED_END_TRACK are not.
- DedupDisk.Disk.LbaWrite: requests are for one block (n = 1) with a non-empty hash, as the trace format has it; the bound test of dedupe_lba_write lets the LBA just behind the table through, and that request, which reads and writes outside the table, is not modelled. Values that the code loads from outside its tables (the status in front of track 0, list cells past the capacity, fresh list memory) are arbitrary inputs; nothing is assumed of them.
- DedupDisk.Disk.FindNextPba: phase 1 is exact, the later phases are represented by "some free track, and none exactly when no track is free", because the mapping does not depend on their order. Their test of the neighbours, which for the last track and in the round that leaves phase 3 reads behind the block table (pba.c:234-249), is not modelled.
- DedupRuns.RunsRefineAMap: a run ends at an update of shared content, where the program aborts, and at a write whose guard does not hold, where WriteKeepsExactly says the mapping is lost.
- HashIndex.HashTable.SearchItem: items are returned as values, so a caller's later change to the item in the table is not captured; the code makes none. Characters are taken as non-negative.
- TopBufferDisk.Disk.Scp: the accesses that SCP charges to the report are not modelled here; the costs of batches are modelled on their own.
- TopBufferDisk.Disk.LbaWrite: requests are for one block whose LBA has an entry in the table or is turned away by the bound test, which matters when the logical disk is the smaller one; no file is deleted, because deletes of buffered LBAs do not dissolve their pair.
- TopBufferDisk.Disk.SearchZones: the one loop of the program is divided into methods, one for the switch, one for the restart of phase 1 and one for the nested SCP.
- Batch.Batch.BatchSync: qsort stands for any sort by track; entries of a batch that compare equal are equal, so the result is the same.
- Batch.Batch.BatchWrite: the report's journaling mode is not modelled; batch_delete is modelled in what it charges (Record.Report.RecordDelete), not in its table updates.
- VirtualGroupDisk.Disk.LbaWrite: a block is read with one owner LBA; the virtual-group code (virtual_groups.c:497 and 510-511, lba.c:528-537) still copies and compares the list pointer itself, so that as it stands the comparison at lba.c:537 would take the exit that is unreachable here. The sizes and counts of groups and lists are not modelled, and the LBA table is not smaller than the disk: with a smaller one, vg_lba_delete reads behind it.
- VirtualGroupDisk.Disk.PlaceNew: nothing is said of a run after the program has taken a track behind the disk (the outcome OffDisk) or one in use.
- VirtualGroupDisk.Disk.LbaDelete: the tracks are deleted in the order of their LBAs and not of their positions, which changes nothing in the result.
- Machine integers do not wrap around in counters, sizes and times; the two places where an unsigned value goes below zero on purpose, the end of a one-track group and the missing neighbour of track 0, are modelled.
- Trace parsing beyond one request after the other, output files, memory allocation failures, min_access.c (its queue starts at index -1 and is unusable) and list.h.
