# ExtMem in Dafny

ExtMem keeps an application's pages in a limited number of DRAM frames and moves them to
and from a swap store in user space. This project models the parts of it on which the
application's bytes depend, and proves what those parts promise.

**Descriptors and paging** (`Queues`, `Pager`, `PagerInvariant`, `FlatMemory`,
`Conservation`, `Flow`, `History`, `Reclaim`, `Sweep`, `Starvation`, `Clusters`, `Fetch`,
`PolicyFacts`, `Policy`, `BrokenPaths`). Every frame and every swap slot has one page descriptor. A descriptor has an offset, residency flags, a
list and perhaps a reserve partner: the slot a page came from, kept so that a clean page
need not be written back. `Pager` gives the steps that first touch, loads and stores,
scans, evictions, swap-ins, prefetches and unmaps are made of. `PagerInvariant` proves
that each step keeps the descriptor invariant, and `FlatMemory` proves that the whole is
a flat byte memory. `Flow` says what each step does to the lists, and `History` what lists,
flags, counts and kernel bits tell about the run that led to them. `Sweep` and `Starvation`
work out what the scans of a reclaim find, and `Clusters` how a reclaim goes on.
`SwapManager` in `Policy` is the C code's own form: a class whose methods update
descriptor fields and lists one statement at a time, with the asserts of the source as
asserts. A ghost trace ties its fields to the steps, so what is proved of runs holds of
the object. The kernel (userfaultfd, madvise, the accessed and dirty bits) appears as
parameters and flags.

**Who may move a page** (`ClaimProtocol`). Fault handlers, prefetchers, scanners, eviction workers
and the application act on one page in any interleaving, any number of each.

**Lists** (`Fifo`). The doubly linked lists with real pointers, refined to sequences.

**The remote store** (`Allocator`, `Ring`, `RemoteStore`). The first-fit allocator, the
128-slot request ring with its shared page buffer, and the table from disk offset to remote
block with least-recently-used replacement. The block list is one object shared by its
clients. `RemoteSwap` joins the store to the pager as its swap device. The client writes at
`tail` and the server reads at `head`; the comments in
`src/include/rdma_sim.h` say the opposite, and the code is followed.

**Pointer relocation and prefetch records** (`Relocation`, `Records`).

**The page table** (`Shifts`, `Links`, `PageTable`, `MergeSort`). The chained hash table with doubling,
its chains and its list as links inside the pages, and the in-place merge sort of the list.

The main results, in words:

- Over every run from start-up, reading an address gives the last byte stored there since
  it was mapped, or zero.
- In every reachable state each frame and each slot belongs to exactly one descriptor, and
  the frames on the lists and in handlers' hands add up. The frames in hand are those taken
  and not yet put back or to use, so no eviction, unmapping or lost race leaks one.
- In every run each list is in order of arrival, the accessed and dirty bits tell which pages
  were used and altered, the `migrating` flag which were claimed and not brought in, and the
  access count how many visits found a page accessed. A page used since its last visit is
  spared by the next; one found accessed by two visits running is promoted.
- A page brought in clean and evicted unaltered goes back to its own slot without a write.
- Over every interleaving at most one thread has a page and no store is lost, and whoever has
  it can by itself bring it back to where the program can use it, in at most 13 steps.
- The remote store is a map from offset to page, as long as other clients of the arena keep
  off the store's blocks, and a full one drops the offset used longest ago.
- With at most 65536 swap slots the pager over the remote store behaves, up to every point of
  a run, as it does over its own, exactly if every page swapped in has its last word in
  neither heap window. Memory is then flat over the remote store too.
- The hash table is a map; doubling and sorting keep every lookup, and its sort is the one
  stable arrangement of its items.

Where a property does not hold of the code, the exact condition is proved:

- `fetch_free_asynch` ends if and only if a frame is free, a victim is waiting or handlers
  hold fewer than half of the frames. Otherwise no number of turns ends it or changes
  anything (`Policy.SwapManager.FetchFor`). With one frame, held, a second fetch runs for
  ever (`Fetch.FetchCanHang`).
- A fetch that ends is out of memory if and only if no frame is free, no victim is waiting and
  `Starvation.RunsDry` holds of the lists when it begins. In numbers (`Starvation.DryByLength`):
  with at most one inactive page it always does. With two or three it does exactly if each was
  accessed and seen accessed before. With 4 to 3199 it does exactly if that is so of each and
  the active pages are fewer than the largest power of two up to the number of inactive ones.
  Above 3203 it never does. In between there must be fewer than 2048 active pages, and the
  first call must meet accessed pages only and leave at most one page, or at most three if
  every page is promoted. With one frame and a page on it the next fetch is out of memory
  (`Fetch.OneFrameStarves`).
- The vector eviction loses the page it evicts. The asynchronous swap-in without io_uring
  is right exactly when the buffer already held the page. A pointer-prefetch hit leaves the
  slot without a descriptor.
- Listing a swapped-in page before releasing it lets a second thread take it.
- An allocation whose rounding wraps puts an empty block in the list.
- A write turned away for its size has already overwritten the slot under `tail`. So the
  answer to a served request is found exactly while fewer than 127 later requests are
  accepted, or exactly 127 and no such write came after them.
- Requests share one page buffer. A queued write stores its own bytes if nothing was put into
  the buffer meanwhile; of two writes of one size queued together the first stores the bytes
  of the second, so its own exactly if they are the same.
- With regions locally disjoint, every pointer comes back from its remote image exactly when
  every remote address is its region's own, the image of null apart
  (`Relocation.RoundTripIffOwn`). This covers a region at address 0, which the store registers
  for disk offset 0. Without one it says that no two regions share a remote address.
- A page through the remote store comes back unchanged exactly when its last word is in
  neither heap window: regions are registered by disk offset and blocks lie above the
  remote window, so no pointer in a window is ever translated.
- Prefetching loses a block when a failed record is requested again, and at shutdown.
  Two failed transfers of one page in a row do lose one (`Records.FailingTwiceLoses`).

## Model

| member | source | states |
|---|---|---|
| FlatMemory.PagedMemoryIsFlat | src/core.c:688-1046 | over every run of touches, loads, stores, scans, evictions, swap-ins, prefetches and unmaps, a read gives the last byte stored since the address was mapped, zero if none, nothing if unmapped |
| FlatMemory.ReadStep | src/core.c:1387-1536 | each single step of the pager changes a byte exactly as flat memory would: only first touch, a store to it and an unmap of it do |
| FlatMemory.ElisionIsSound | src/policies/disklinux.c:523-550 | in every reachable state an eviction that skips the write-back of a clean reserved page leaves the same state as one that writes it |
| FlatMemory.EvictBytes | src/core.c:958-1046 | an eviction changes no mapped byte, the victim's included |
| FlatMemory.SwapInBytes | src/core.c:688-787 | a swap-in changes no mapped byte |
| FlatMemory.RunInv | src/policies/disklinux.c:1250-1309 | every state reachable from start-up satisfies the descriptor invariant |
| PagerInvariant.StepInv | src/policies/disklinux.c:229-261 | every step keeps it: distinct places, one list per descriptor as its flags call for, mutual reserves, a table that matches, clean reserved pages equal to their slot |
| Conservation.EachPlaceHasOneDescriptor | src/policies/disklinux.c:1250-1282 | each DRAM offset and each disk offset belongs to exactly one descriptor in every reachable state |
| Conservation.FramesAccounted | src/policies/disklinux.c:1038-1101 | the frames on the four DRAM lists and those held by handlers are all the frames |
| Conservation.SlotsAccounted | src/policies/disklinux.c:535-601 | the slots on the three disk lists and those claimed are all the slots |
| Conservation.FullDiskIsOvercommitted | src/policies/disklinux.c:572-622 | an unreserved resident page with no free slot means more pages are tracked than there are slots |
| Conservation.EvictNeverBlocked | src/policies/disklinux.c:1076-1105 | while tracked pages number at most the slots, an eviction with a victim always has a slot to go to |
| Flow.EvictFlow | src/policies/disklinux.c:485-629 | an eviction on the lists: the oldest victim leaves for its reserve or the longest-free slot and joins the disk list, its frame joins the free list or is handed over, no other list or place changes, no frame is left in hand, and the page can be claimed at once |
| Flow.SwapInFlow | src/policies/disklinux.c:117-164 | a swap-in on the lists: the page joins the inactive list over the frame, the frame's descriptor keeps the slot as its reserve, and the frame is no longer in hand |
| Flow.TouchFlow | src/core.c:1437-1536 | a first touch on the lists: the frame joins the inactive list and is no longer in hand |
| Flow.UnmapFlow | src/policies/disklinux.c:1181-1247 | an unmapping on the lists: the page is off its list and at the end of the free list of its side, and so is its reserve |
| History.HeldIsTakenNotGiven | src/policies/disklinux.c:1038-1151 | in every run the frames in handlers' hands number those taken less those put back or to use |
| History.ListsAreQueues | src/fifo.c:7-52 | in every run each of the seven lists is in the order in which its descriptors came to it |
| History.CountIsHits | src/policies/disklinux.c:331-396 | in every run the access count of a descriptor is the number of visits that found it accessed and put it back since it was last moved down, promoted or found cold |
| History.SecondHitPromotes | src/policies/disklinux.c:374-398 | whatever has gone before, a visit evicts exactly if the page was not accessed, promotes exactly if it was and an earlier visit counted, and puts back otherwise |
| History.SeenTwiceIsPromoted | src/policies/disklinux.c:374-385 | a page that one visit put back and that the next finds accessed is promoted by it, over any run in between |
| History.BitsTellUse | src/observability.c:56-75 | in every run the accessed bits are the pages used since their last visit or mapping, the dirty bits those stored to since they were mapped |
| History.UsedSinceIsSpared | src/policies/disklinux.c:370-392 | a page loaded or stored to since the scan last met it is not sent to the eviction list by the next visit |
| History.MarkedIsClaimed | src/core.c:1229-1251 | in every run the pages marked as migrating are those claimed and not brought in since |
| History.CleanPageGoesBack | src/policies/disklinux.c:523-550 | a page brought in clean and evicted without a store to it, over any run in between, goes back to the slot it came from and nothing is written |
| History.AlteredPageIsWritten | src/policies/disklinux.c:528-585 | a victim that is dirty or has no reserve is written to the slot it goes to |
| Reclaim.ScansKeepOrder | src/policies/disklinux.c:348-410 | any number of scans visits pages in the order they joined the inactive list, those put back included, and cold ones join the eviction list in that order |
| Reclaim.RescansPermute | src/policies/disklinux.c:310-410 | any run of cooling and scanning permutes the pages of the active, inactive and eviction lists and leaves every other list alone |
| Reclaim.ScansOfTrace | src/policies/disklinux.c:356-405 | what the inactive scan recorded in a run is that many scans in a row, so the order results hold of it |
| Reclaim.AccessedIsSpared | src/observability.c:56-75 | a page goes to the eviction list on a visit exactly when that visit found its accessed bit clear |
| Reclaim.FetchingUndisturbed | src/policies/disklinux.c:970-1121 | a run of fetching steps of any length changes no mapped byte and no descriptor that is held or swapped out |
| Reclaim.SilentRun | src/core.c:1684-1885 | claims, detaches, swap-ins, scans and evictions in any order leave every page's bytes and the page table as they were |
| Sweep.FirstVisits | src/policies/disklinux.c:356-405 | the first visits of a scan meet the pages of the list in order; no victim comes of them if and only if all were accessed, and then those seen accessed before are promoted and no other |
| Sweep.QuietVisits | src/policies/disklinux.c:356-405 | any number of visits without a victim each cost one accessed bit and keep every page a scan would not promote on the list |
| Sweep.CallExactly | src/policies/disklinux.c:348-410 | a call of the inactive scan finds nothing cold if and only if every page of the list is promoted, or its visits end within the list and meet accessed pages only |
| Starvation.LastTurnMeetsAll | src/policies/disklinux.c:810-856 | the last priority makes enough visits to meet every inactive page twice, so with two or more a reclaim finds nothing only if all are promoted |
| Starvation.HopelessGoesOn | src/policies/disklinux.c:995-1010 | if the turns from a priority down will find nothing, a turn that found nothing leaves the next one so |
| Starvation.FertileGoesOn | src/policies/disklinux.c:995-1010 | if they are sure to find something and a turn does not, the turns after it are |
| Starvation.DryOrFertile | src/policies/disklinux.c:970-1121 | of every sound state one or the other holds for the twelve turns of a fetch, decided by the lists at its start |
| Starvation.DryByLength | src/policies/disklinux.c:810-856 | the same in numbers: up to 3199 inactive pages nothing is found if and only if all are promoted and they are at most three or the active ones fewer than a power of two; above 3203 something always is |
| Fetch.StuckIffCannotFetch | src/policies/disklinux.c:984-1012 | in every sound state a turn of the fetch loop takes no branch if and only if no frame is free, no victim waits and handlers hold at least half of the frames |
| Fetch.NoGrowthNothingCold | src/policies/disklinux.c:348-410 | over any run of cooling and scanning, if no more victims wait at its end, no scan in it found its page cold |
| Fetch.FetchCanHang | src/policies/disklinux.c:970-1012 | with one frame, held, no further frame can be fetched |
| Fetch.OneFrameStarves | src/policies/disklinux.c:995-1120 | with one frame and a page mapped over it, a reachable state, the next fetch is out of memory |
| Policy.SwapManager.constructor | src/policies/disklinux.c:1250-1309 | the start-up state: one descriptor per frame and slot, all free |
| Policy.SwapManager.MigrateDown | src/core.c:958-1046 | the store gets the page's bytes if and only if a write-back is asked for, and the mapping goes |
| Policy.SwapManager.EvictOne | src/policies/disklinux.c:485-629 | one turn of the worker: idle exactly with no victim; else the lists, places and frames in hand are as `Flow.EvictFlow` says and the page can be claimed; it halts for want of a slot only if more pages are tracked than slots exist |
| Policy.SwapManager.ShrinkActive | src/policies/disklinux.c:310-346 | the smaller of the target and the list length moves from the head of the active list to the end of the inactive one, in order, and none of it will be promoted by its next scan |
| Policy.SwapManager.ShrinkInactive | src/policies/disklinux.c:348-410 | returns the growth of the eviction list, at most the target, within a hundred times the target of visits; stops short of it only on an empty list or at that bound; zero if and only if every page is promoted or all visits stay within the list on accessed pages |
| Policy.SwapManager.DirectReclaim | src/policies/disklinux.c:810-856 | clusters run while inactive pages are still to be visited and too few victims found, and no longer; each visits, then moves down the smaller of 32 and the active pages there are, in the first clusters only; the growth of the eviction list is returned, short of one cluster over; held frames are untouched; and exactly when and with what effect it finds nothing |
| Policy.SwapManager.FetchTurn | src/policies/disklinux.c:984-1118 | one turn takes the longest-free frame, or else reclaims 32 at its priority if more than half of the frames are on the scanned lists and evicts the oldest victim; it neither ends the loop nor lowers the priority if and only if no frame can be fetched, and then it changes nothing |
| Policy.SwapManager.FetchFor | src/policies/disklinux.c:970-1121 | cut off after any number of turns: if no frame can be fetched it is still going with nothing changed; if one can it has ended after twelve, out of memory if and only if the lists at the start ran dry |
| Policy.SwapManager.FetchFree | src/policies/disklinux.c:970-1121 | gives a frame in DRAM, off every list, unmapped and unreserved; or halts where rescans alone have led to a victim that no slot can take, with more pages tracked than slots; or is out of memory if and only if the lists at the start ran dry; or hangs if and only if no frame can be fetched |
| Policy.SwapManager.Pagefault | src/policies/disklinux.c:1124-1136 | as the fetch, each failure told apart by its exact condition; the frame is protected, and no mapped byte and no descriptor in another handler's hands changes |
| Policy.SwapManager.MigrateUp | src/core.c:688-787 | the page is mapped with the bytes of its slot, and the store is not changed |
| Policy.SwapManager.TryClaim | src/core.c:1229-1251 | claims exactly a page that is swapped out and not migrating, which is then on the disk list |
| Policy.SwapManager.DetachPage | src/policies/disklinux.c:1153-1170 | takes a claimed page off the disk list and nothing else |
| Policy.SwapManager.SwapInExternal | src/policies/disklinux.c:117-164 | the claimed page is resident, released and newest on the inactive list, its slot is kept as its reserve, no frame stays in hand and every byte of memory is as it was; or the fetch failed, each failure by its exact condition |
| Policy.SwapManager.HandleMissingFault | src/core.c:1187-1383 | the handler waits exactly when the page is migrating or already in, and needs a frame only otherwise; then the page is resident and newest on the inactive list, no frame stays in hand and memory is unchanged; or the fetch failed, each failure by its exact condition |
| Policy.SwapManager.HandleFirstFault | src/core.c:1387-1536 | an address not in the table reads as a zero page afterwards, is the only new one and newest on the inactive list; a page mapped meanwhile is left alone; either way no frame stays in hand; or the fetch failed, each failure by its exact condition |
| Policy.SwapManager.PutBack | src/policies/disklinux.c:1145-1151 | a frame not needed is at the end of the free list and out of hand, and no other list changes |
| Policy.SwapManager.TryPrefetch | src/core.c:1684-1885 | brings in at least the run of following pages that were swapped out and unclaimed, up to 32, resident in order, memory unchanged and no frame left in hand; it stops early only at a page that could not be claimed or on a failed fetch, and then names the page it had detached and shows that no frame was to be had for it |
| Policy.SwapManager.RemovePage | src/policies/disklinux.c:1181-1247 | the page's frame or slot and its reserve are freed, as the unmap step says |
| Policy.SwapManager.UnmapPage | src/core.c:601-665 | one page of the range is gone, its frame or slot and its reserve at the ends of the free lists, and every other page has its bytes and its claim |
| Policy.SwapManager.Munmap | src/core.c:601-665 | every page of the range is gone and every other page has its bytes and its claim, with the same frames in hand; it waits exactly if a page of the range is migrating, at the first one, with those before it gone |
| BrokenPaths.VectorEvictionLosesThePage | src/core.c:1048-1133 | every vector eviction leaves two descriptors on one frame and none on the slot it wrote, and the page unreadable |
| BrokenPaths.AsyncSwapInNeedsTheBytes | src/core.c:845-955 | without io_uring the page reads as whatever the buffer held and every other page as before, so memory is kept if and only if the buffer already held the page |
| BrokenPaths.PrefetchHitOrphansTheSlot | src/pointer_prefetch.c:374-376 | a hit leaves a descriptor that fits no list and a slot that no descriptor has |
| ClaimProtocol.ClaimProtocolIsSafe | src/core.c:1229-1323 | over every interleaving at most one thread has the page, a swapped-out unclaimed page is on the disk list, a mapped one that nobody has can be stored to, the last store is what is read, and every assert met holds |
| ClaimProtocol.StepKeeps | src/policies/disklinux.c:583-615 | every step of every thread keeps the claim invariant and meets its asserts |
| ClaimProtocol.NeverStuck | src/policies/disklinux.c:117-164 | from every state of every run the thread that has the page, or any if none has, can by itself in at most 13 steps leave it mapped, writable, with the last page stored and nobody at it |
| ClaimProtocol.WrittenIfAltered | src/policies/disklinux.c:528-550 | in every run the slot is written only by a worker, and then exactly if the page was altered since it was mapped or has no slot kept for it |
| ClaimProtocol.SplitReleaseRaces | src/policies/disklinux.c:155-164 | if listing and release are two steps, then from every state with a page just mapped a second thread can take it and reach an assert that fails |
| ClaimProtocol.CopiedIsReached | src/policies/disklinux.c:117-164 | such a state is reached, from any page and by any thread |
| Fifo.FifoList.Enqueue | src/fifo.c:7-25 | the sequence of pages grows at its end; links both ways, count and `list` fields agree |
| Fifo.FifoList.Dequeue | src/fifo.c:27-52 | the oldest page leaves, unlinked; null exactly on an empty list |
| Fifo.FifoList.Remove | src/fifo.c:54-87 | a page leaves from any position and the rest keeps its order |
| Fifo.FifoList.TryRemove | src/fifo.c:89-132 | removes exactly a page whose `list` field names this list |
| Fifo.TryRemoveFrom | src/fifo.c:89-132 | the same through the list pointer a caller holds, which may be null |
| Fifo.FifoList.NextPage | src/fifo.c:134-145 | walks the sequence |
| Fifo.FifoList.DequeueVector | src/fifo.c:148-183 | equals that many single dequeues, or stops at empty |
| Fifo.Transfer | src/policies/disklinux.c:144-161 | moving a page between two lists leaves both valid and disjoint |
| Allocator.AllocIsComplete | src/rdma_sim.c:84-117 | ENOMEM exactly when no contiguous unallocated run fits the rounded size |
| Allocator.AllocIsLowest | src/rdma_sim.c:94-110 | the block granted is page-aligned, unallocated and the lowest at which the request fits |
| Allocator.RoundUpHolds | src/rdma_sim.c:88-88 | the rounded size is the least number of whole pages that holds the request, and zero exactly for no bytes and where it wraps |
| Allocator.AllocOutcome | src/rdma_sim.c:84-117 | EINVAL exactly for no bytes; a grant adds one allocation that holds the request to the set and the sum, and a refusal changes nothing |
| Allocator.FreeUndoesAlloc | src/rdma_sim.c:119-158 | freeing a block just allocated restores the block list exactly |
| Allocator.HistoryIsTiled | src/rdma_sim.c:67-70 | any history of requests that do not wrap leaves the arena tiled in whole pages with no two free neighbours |
| Allocator.HistoryCollapses | src/rdma_sim.c:127-151 | any such history with nothing live ends in the single initial block |
| Allocator.AllocKeepsTilingIffNoWrap | src/rdma_sim.c:88-88 | an allocation keeps the tiling if and only if its rounding does not wrap or nothing is free |
| Allocator.WrapBreaksTiling | src/rdma_sim.c:88-88 | a size at which it does wrap |
| Allocator.LiveDisjoint | src/rdma_sim.c:96-106 | two allocations never overlap and lie in the arena |
| Allocator.DeallocTakes | src/rdma_sim.c:119-151 | a free takes exactly its allocation away, from the set and from the sum |
| Allocator.DeallocOutcome | src/rdma_sim.c:119-158 | a free succeeds exactly at the address of an allocation, and otherwise changes nothing |
| Allocator.RoomForPage | src/rdma_sim.c:92-116 | while the arena is not full a page can be had |
| Allocator.RemoteMemory.Allocate | src/rdma_sim.c:84-117 | first fit with split, and the counter stays the sum of the live sizes |
| Allocator.RemoteMemory.Free | src/rdma_sim.c:119-158 | release with both merges, EINVAL exactly for no live block there, and the counter stays the sum of the live sizes |
| Ring.RingProtocol | src/rdma_sim.c:331-518 | in every run `tail` is `count` past `head`, live slots are the accepted requests not yet served, in order and PENDING, each is served once in submission order, and total is completed plus failed plus count |
| Ring.AnswerIsKept | src/rdma_sim.c:402-442 | in every run a waiter finds a verdict for an accepted request, and its own, if and only if the request was served and fewer than 127 later ones are accepted, or exactly 127 and no write was turned away for its size after them |
| Ring.OversizeLosesTheAnswer | src/rdma_sim.c:341-367 | so with 127 later requests accepted the next write turned away loses the verdict, in every such run |
| Ring.SubmitOutcome | src/rdma_sim.c:331-386 | in every run a request is accepted exactly if fewer than 128 are queued and it is no write of more than 4096 bytes; it then has a new id and is queued as made, and a full ring is left as it is |
| Ring.HandleVerdict | src/rdma_sim.c:526-591 | which requests of each kind are carried out and the error number of the others, which change nothing |
| Ring.QueuedWriteLands | src/rdma_sim.c:551-569 | a write that waited in the queue stores its own bytes if no write with data was accepted and no read carried out meanwhile |
| Ring.QueuedWritesCollide | src/rdma_sim.c:356-361 | of two writes of one size queued in an idle ring the first stores the bytes of the second |
| Ring.ExchangeAllocate | src/storage_rdma.c:153-174 | a block request to an idle ring returns what the allocator returns, and the slot scan finds its address |
| Ring.ExchangeWrite | src/rdma_sim.c:551-569 | a write to an idle ring stores exactly its bytes and nothing else |
| Ring.ExchangeRead | src/rdma_sim.c:540-550 | a read through an idle ring brings back exactly the bytes of the arena, if it has an address to copy them to |
| Ring.Channel.constructor | src/rdma_sim.c:206-226 | the empty ring |
| Ring.Channel.SubmitRequest | src/rdma_sim.c:324-386 | one submission, in place, with every copy in bounds |
| Ring.Channel.HandleRequest | src/rdma_sim.c:526-591 | each operation and each refusal, with every copy in bounds |
| Ring.Channel.Drain | src/rdma_sim.c:493-519 | the server loop answers everything queued |
| Ring.Channel.PollRequest | src/rdma_sim.c:402-442 | what one look at the slots reports, the copied bytes included |
| RemoteStore.StoreIsMap | src/storage_rdma.c:333-472 | in every run, with other clients that neither free nor write the store's blocks, a read finds an offset exactly when the map of successful writes does, and brings back the page in it |
| RemoteStore.NothingMissed | src/storage_rdma.c:126-193 | while at most 65536 offsets have been written every one is found, with its last page |
| RemoteStore.HeldIsLastWritten | src/storage_rdma.c:135-156 | whatever is replaced, what is held for an offset is the last page written there, never another's |
| RemoteStore.VictimIsLeastRecent | src/storage_rdma.c:135-156 | in every run a write of a new offset to a full table drops the stored offset whose last write or read in the run is the oldest, and no other |
| RemoteStore.AloneNeverRefuses | src/storage_rdma.c:399-405 | a store with the arena to itself never answers ENOMEM |
| RemoteStore.RefusedOk | src/storage_rdma.c:158-166 | ENOMEM only with a free table entry and a full arena, and then nothing has changed |
| RemoteStore.ReadBackIffNeutral | src/storage_rdma.c:443-452 | a page written and read back keeps its body, and is unchanged if and only if its last word is in neither heap window |
| RemoteStore.PageStore.FindRegion | src/storage_rdma.c:117-124 | the entry of an offset, or none |
| RemoteStore.PageStore.OldestIndex | src/storage_rdma.c:136-146 | the first of the entries accessed longest ago |
| RemoteStore.PageStore.AllocateRegion | src/storage_rdma.c:126-193 | a free entry, else the least recently used one after its block is freed, with a block of its own |
| RemoteStore.PageStore.WritePage | src/storage_rdma.c:388-472 | one write of the run, refused exactly when no block can be had; the offset is then registered with its block |
| RemoteStore.PageStore.ReadPage | src/storage_rdma.c:333-386 | a hit exactly for the offsets in the map, with the page in it decoded; a miss leaves the buffer alone |
| RemoteSwap.JointStep | src/core.c:688-787 | one step of the pager over the remote store always goes through, and is the pager's own step if and only if it swaps in no page with its last word in a heap window; then store and slots still agree |
| RemoteSwap.RemoteRunIsFaithful | src/storage_rdma.c:333-472 | over every run with at most 65536 slots, the pager over the remote store is the pager over its own store up to every point if and only if every page swapped in has its last word in neither heap window |
| RemoteSwap.RemoteMemoryIsFlat | src/core.c:688-1046 | then a read gives the last byte stored since the address was mapped, with every page going out and coming in through the remote store |
| Relocation.RoundTrip | src/address_translation.c:138-220 | with disjoint regions that do not wrap, each conversion undoes the other |
| Relocation.ComesBackIffOwn | src/address_translation.c:138-220 | with locally disjoint regions, a pointer comes back from its remote image if and only if the image is not 0 and in no region before its own |
| Relocation.RoundTripIffOwn | src/address_translation.c:138-220 | so every pointer comes back if and only if every remote address, the image of null apart, is its region's own |
| Relocation.RoundTripIffRemotelyDisjoint | src/address_translation.c:192-209 | the special case with no region at address 0: if and only if no address lies in two remote ranges |
| Relocation.OrderIrrelevant | src/address_translation.c:150-167 | the order of registration does not matter |
| Relocation.NewestDecides | src/address_translation.c:86-98 | but of regions that overlap a newly registered one decides |
| Relocation.OverlapBreaksRoundTrip | src/address_translation.c:192-209 | an instance: of two regions with one remote image every pointer of the second comes back as one of the first |
| Relocation.RegisterUpdates | src/address_translation.c:63-106 | registering changes one local base of the table and no other |
| Relocation.UnregisterRemoves | src/address_translation.c:108-136 | unregistering removes one local base and no other |
| Relocation.CodecRoundTrip | src/pointer_prefetch.c:519-582 | the page codec is the identity if and only if the last word is null, outside both windows, maps into the remote window, or lies in a region mapped onto itself |
| Relocation.CodecKeepsBody | src/pointer_prefetch.c:524-525 | the codec never touches the first `PAGE_SIZE` less 8 bytes |
| Relocation.Translator.RegisterRegion | src/address_translation.c:63-106 | the region list after an update in place or a new head |
| Relocation.Translator.UnregisterRegion | src/address_translation.c:108-136 | the region list without that base; ENOENT exactly if it was not there |
| Relocation.Translator.LocalToRemote | src/address_translation.c:138-178 | the first region that holds the pointer decides |
| Relocation.Translator.RemoteToLocal | src/address_translation.c:180-220 | the same, the other way |
| Relocation.Translator.EncodePage | src/pointer_prefetch.c:519-549 | the last word rewritten in place; failure exactly for a local pointer without a region |
| Relocation.Translator.DecodePage | src/pointer_prefetch.c:551-582 | the last word rewritten in place; failure exactly for a remote pointer without a region |
| Records.RecordsOwnTheirBlocks | src/pointer_prefetch.c:191-282 | in every run there is one record per target, the blocks of records are live and distinct, and no free ever misses |
| Records.LosesExactly | src/pointer_prefetch.c:243-244 | a block is lost exactly by a new request over a failed record that still has one, and by shutdown for records that are not busy |
| Records.LostForGood | src/pointer_prefetch.c:446-491 | nothing the prefetcher does later frees a lost block |
| Records.FailingTwiceLoses | src/pointer_prefetch.c:243-272 | in every sound state with room for two blocks, two requests for a new target whose transfer cannot be started lose the block of the first |
| Records.PrefetchOutcome | src/pointer_prefetch.c:191-282 | what every request comes to: nothing if the page is in, on its way or already prefetched, or no page of the arena is free; else the record is under way exactly if the page is on the store and the transfer was started, with a new block, age and source as they should be, and no other record changes |
| Records.PrefetchDelivers | src/pointer_prefetch.c:191-398 | a transfer that is started, arrives and is read back delivers its page and leaves the arena exactly as it was before the request |
| Records.RetrieveOutcome | src/pointer_prefetch.c:285-398 | what every retrieval comes to: the block is freed exactly if the page is read, and the record is failed unless it was copied too |
| Records.ExpireOutcome | src/pointer_prefetch.c:446-491 | the records left by a clean-up are the survivors of those there were, in order |
| Records.SurvivorsAre | src/pointer_prefetch.c:456-470 | a record survives exactly if it has not failed and is at most 30 seconds old, or 60 with its transfer under way |
| Records.PrefetchList.AsyncPrefetch | src/pointer_prefetch.c:191-282 | one request, by its arguments: it succeeds if there was nothing to do, and otherwise if and only if the page is on the store, the transfer was started and a block could be had, and then the record is under way with that block |
| Records.PrefetchList.RetrievePage | src/pointer_prefetch.c:285-398 | it delivers if and only if the record is done or under way and arrived, has a block, is read back and copied |
| Records.PrefetchList.CleanupOld | src/pointer_prefetch.c:446-491 | every stale record goes and its block with it; the rest are the survivors, in order |
| Records.PrefetchList.Cleanup | src/pointer_prefetch.c:55-82 | the list is emptied and the blocks of busy records are freed |
| Shifts.ShiftAndMask | src/uthash.h:441-444 | masking with the bucket count less one is the remainder, so a bucket number is in range |
| PageTable.DoublingSplits | src/uthash.h:866-871 | doubling sends an item to its old bucket number or that plus the old count |
| PageTable.IdealIsCeiling | src/uthash.h:859-861 | the shift and mask compute the number of items per bucket rounded up |
| PageTable.MultiplierIs | src/uthash.h:869-874 | the expansion multiplier of a chain is the number of ideal lengths that hold it, but no more than the items past the first, and zero for a chain not too long |
| PageTable.ChainHasKey | src/uthash.h:758-777 | a key in the table is in the chain its hash selects |
| PageTable.PagesOfWithout | src/core.c:148-153 | removing an item removes its key from the map and nothing else |
| PageTable.HashTable.Find | src/uthash.h:164-184 | following the links of one chain gives the lookup of the map of all items |
| PageTable.HashTable.Add | src/uthash.h:780-798 | the map with one more key; the page linked in at the end of the list and at the head of its chain; the table doubles exactly if that chain reaches ten times one more than its multiplier and doubling is not off, and begins with 2^21 buckets |
| PageTable.HashTable.Remove | src/uthash.h:461-488 | the map without the key; list and chain relinked around the page, `tail` kept, the table gone with its last item |
| PageTable.HashTable.Expand | src/uthash.h:846-896 | twice the buckets with every page relinked into the chain its hash selects; the ideal length, the exact sum of chain excess, every multiplier, and the ineffective-expansion rule |
| PageTable.HashTable.Sort | src/uthash.h:903-985 | the list is the functional sort of what it was, and every lookup and every chain is unchanged |
| PageTable.SamePages | src/uthash.h:903-985 | the map does not depend on the order of the items |
| PageTable.HangPush | src/uthash.h:780-790 | linking a page in at the head of its chain leaves all other chains spelled out as they were |
| PageTable.HangDrop | src/uthash.h:802-814 | unlinking a page by its own links leaves its chain without it and all other chains as they were |
| Links.UnlinkLinks | src/uthash.h:472-482 | a node taken out by its two links leaves both directions consistent |
| MergeSort.SortIsStable | src/uthash.h:903-985 | for every total preorder the sort is a permutation, ordered, with equal items in their old order |
| MergeSort.SortElements | src/uthash.h:903-985 | whatever the comparison says, even if it is no order, the sort returns the same elements |
| MergeSort.StableIsUnique | src/uthash.h:937-953 | there is only one such arrangement |
| MergeSort.MergeStable | src/uthash.h:929-969 | merging two stable runs, the first of which came first, is stable |
| MergeSort.PassDoubles | src/uthash.h:913-973 | a pass over stable runs doubles their length |
| MergeSort.ItemList.MergeRuns | src/uthash.h:929-969 | the in-place merge puts out the functional merge, with both chains of links consistent |
| MergeSort.ItemList.RunPass | src/uthash.h:909-976 | a pass in place is the functional pass, and makes a single merge exactly when two runs cover the list |
| MergeSort.ItemList.Sort | src/uthash.h:903-985 | terminates; the list is then the functional sort of what it was, with `prev` links, head and tail consistent |

## Left out

- `lrudisk_evictionworker_vector` and `extmem_migrate_downdisk_vector`, the asynchronous swap-in outside io_uring and the pointer-prefetch hit are not steps of the pager: they break the protocol, as `BrokenPaths` shows.
- `direct_allocate_page`, `fetch_free_page`, `lrudisk_allocate_page_critical` and `lrudisk_swapin` are on no live call path.
- `src/policies/pageRank.c` is a near copy of the same descriptor protocol and would add nothing harder.
- userfaultfd, madvise, io_uring, signals and interception are kernel effects: a copy-in, a zap and a write-protect succeed, and accessed and dirty bits are flags set from outside.
- Policy.SwapManager.TryPrefetch: only the synchronous branch is modelled.
- Policy.SwapManager.FetchFree: the loop that never ends is the result `Fails(Hang)`, given when `FetchFor` has shown that twelve turns decide it; no other thread frees a frame meanwhile.
- Policy.SwapManager.Munmap: the wait is for another thread, so the method returns where it would wait.
- Policy.SwapManager.HandleMissingFault: the handler modelled swaps in synchronously, and fetches the frame before it detaches the page. The code also tries the pointer-prefetch cache first, and its asynchronous swap-in detaches before it fetches.
- The lists of `SwapManager` are sequences. That linked lists keep such sequences is what `Fifo` proves; the two are not one object.
- An eviction and a swap-in are one step of a run each. Their inner steps are interleaved only in `ClaimProtocol`, and only for one page.
- kswapd wake-ups, watermarks and time limits have no crisp guarantee in the code.
- ClaimProtocol.ClaimProtocolIsSafe: takes the enqueue on the inactive list and the release of the claim as one step; `SplitReleaseRaces` shows why.
- ClaimProtocol.ClaimProtocolIsSafe: follows one page; that threads on different pages do not meet is not part of it.
- Ring.RingProtocol: one client process, so request ids are distinct; ids do not overflow 64 bits; submitting and serving are each one step under the queue lock, and waiting is one look at the slots.
- RemoteStore.StoreIsMap: other clients may allocate, free and write blocks of their own, but not free or write the store's; page-sized requests, one at a time; the reallocation on a size mismatch is not modelled, and `rdma_allocate_page_offset` is not called by the code.
- RemoteStore.PageStore.WritePage: disk offsets lie below the local heap window, the clock is a parameter below its largest value, and the temporary copy can always be had.
- RemoteSwap.RemoteRunIsFaithful: the store has the arena to itself, disk offsets lie below the local heap window, and the clock stays below its largest value.
- The block list is one shared object; in the C code it is a static of each process that only the server fills in. A list node can always be had.
- Records.PrefetchList.AsyncPrefetch: what the page table and the ring report, and the clock, are parameters; pointer validation and statistics are left out.
- Relocation.CodecRoundTrip: the translator is initialised; an uninitialised one leaves every page as it is.
- PageTable.HashTable.Add: links are indices into arrays, one entry per page; table memory can always be had, 32-bit counters do not overflow, and the hash is any function of the key. Bloom filters, `HASH_SELECT` and ordered insertion are not used by the page table.
- MergeSort.ItemList.Sort: links are indices into two arrays; fewer than 2^31 items, so run lengths do not overflow.
- Process start-up, shared-memory attach, shutdown, logging, statistics and scripts.
