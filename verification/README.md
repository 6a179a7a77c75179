# btmalloc in Dafny

A model of btmalloc, a concurrent slab allocator that segregates objects by call
site, and proofs about how slots, slabs, chunks, pages and owner-table entries
move between owners.

Small requests are served from per-(partition, size class) pools. A pool carves
2 MiB chunks into slabs, a slab into slots; free slots are threaded through their
own bytes by XOR-encoded links. Threads cache slots in bins without taking the
pool lock. A drained chunk leaves its pool and is recycled through a warm list by
a maintenance thread. In mesh mode, sparse slabs whose occupied slots do not
overlap are merged by copying and page remapping. Every address is resolved to
its owner through a table of 2 MiB regions, with a per-thread cache checked by a
generation counter.

## How the project is laid out

- Foundations: `Bits` (bitwise arithmetic on naturals), `Seqs`, `Memory` (bytes,
  encoded links, chains, the page map), `Geometry` (size classes, slot addresses,
  page ownership), `Links` (doubly and singly linked lists as the C code updates
  them).
- One pool as a value: `PoolSpec` gives what each locked operation does and the
  invariant; `PoolProofs` proves that every operation keeps it; `Aliasing` adds
  what is known of meshed slabs.
- One pool as structures: `SlotChains` holds the freelist loops on bytes,
  `PoolRep` says how list pointers, descriptor fields, chunk headers and slot
  bytes represent the pool value, `PoolSteps` that each update keeps them doing
  so, `SlabPool` is the class whose methods update them, `ThreadBins` is the small
  path of malloc and free over it. Every method is tied to the value-level
  operation and says which bytes it leaves alone, inside the pool's chunks and
  outside them.
- Compaction: `Occupancy` (bitmaps), `Meshing` (copy, freelist rebuild, remap),
  `Compaction` (one pair, the greedy pass, what every slot in use reads
  afterwards).
- Tiering: `Epochs` (histories of touches and epoch advances), `Tiering` (the
  pageout walk).
- All pools over one memory: `Arena` (malloc, free, compaction and pageout on any
  of several pools that share a memory, a page map and an epoch), `SlotCopies`.
- The whole heap: `LargePaths` (large objects, with their headers and bytes, beside
  the pools), `Moves` (one thread's bins over all of it, and how one object is taken,
  given back or moved), `Realloc` (malloc, free, calloc and realloc).
- Runs of many threads: `PoolThreads` (any number of threads on one pool),
  `Reaching` and `MeshRuns` (runs that lead to two states of interest),
  `Lifecycle` (the chunk protocol), `Allocator` (all pools and the chunk protocol
  together), `RegionCache`, `Resolving` (the allocator and the region caches
  together), `Intern`.
- `Registry` (radix and flat owner tables), `Large` and `Placement` (large-object
  arithmetic and the address space), `Memfd`.

A slot is named by its slab and index, a slab by its chunk base and first data
page. `out` always stands for the slots that have left a pool, whether in user
hands or in some thread's cache; `hidden` for the slots of a recipient that hold
donor objects after meshing. Neither is stored by the allocator.

## What is assumed

- Clients free only pointers they own, and return addresses are not null.
- The kernel is a parameter: whether a mapping, truncation or remap succeeds, and
  where it lands, is arbitrary. Fresh mappings do not overlap existing ones.
- Generation, epoch and id counters do not wrap.
- Each locked section, and each atomic access outside one, is one step.
- The pages of a chunk that joins a pool may hold anything, in the data pages and in
  the descriptors: the chunk may have been used before.
- Released pages read as zero.
- The heap is quiet during a compaction pass, as `src/background.c:325-326` asks:
  nobody reads or writes an object between its copy and the remap.
- A mapping that mremap moves lands on a 2 MiB boundary; what happens otherwise is
  under "Where the code and its documentation differ".

## Where the code and its documentation differ

The code is followed in each case.

- `src/internal.h:159` says a slab on the partial list has free slots. After a mesh
  in which every slot was free in exactly one of the two slabs, the recipient stays
  on the list with none, and the next refill from it returns NULL
  (`PoolThreads.HalfAndHalfMesh`; `MeshRuns.HalfAndHalfReached` is a run that gets
  there). Outside mesh mode the statement holds
  (`PoolProofs.PartialIffPartlyFree`).
- The warm list is meant to stop at 64 chunks. With disposals on both routes while
  chunks are being pre-mapped it reaches 72 and never more
  (`Lifecycle.RunWarmBound`, `Lifecycle.WarmBoundIsTight`); with one route it stops
  at 64.
- `btm_compact` may be called repeatedly, but a slab that already backs a meshed one
  can be chosen as donor; its pages are then punched under the first donor.
  `Compaction.MeshKeepsIff` gives the exact condition under which a mesh keeps every
  slot; `MeshRuns.SecondPassReached` is a run after which the greedy loop picks such
  a donor, and `MeshRuns.SecondPassLoses` shows what is lost.
- The opening comment of `src/large.c` places every large object on a 2 MiB boundary,
  so that the owner table can find it. `btm_large_realloc` registers a moved object
  wherever mremap put it. `Placement.MoveKeepsOwnersIff` gives the exact condition
  under which every object is still found; `Placement.AlignedSharesNone` shows that a
  2 MiB boundary is enough, `Placement.MoveTakesOver` what happens beside another
  object.
- The opening comment of `src/partition.c` has the active chunk reset and older ones
  unmapped; the code disposes of both in the same way.
- `src/internal.h:104-106` and `src/background.c:320-324` still describe slab headers
  inside the data pages; descriptors are out of line, and data starts at page 7.
- The growth test at `src/background.c:87` never fires: 256 chunks are always enough
  (`Memfd.Offsets.Alloc`).

## Model

| member | source | states |
|---|---|---|
| `Memory.LinkRoundTrip` | src/internal.h:75-82 | a link decodes to what was encoded, whatever the key, also when the slot's page has been remapped |
| `Memory.ChainAppend` | src/partition.c:238-242 | redirecting the last link of one chain to the head of another joins the two chains |
| `Geometry.SizeToScFits` | src/internal.h:240-245 | a request has a small class exactly if it is 1 to 16384 bytes; the class holds it and no smaller class does |
| `Geometry.RoundingBound` | src/size_class.c:10-19 | what a request is rounded up to exceeds it by less than 16 bytes or by less than a quarter |
| `Geometry.TableValid` | src/size_class.c:10-32 | every class has 8 to 256 slots a slab (two are what the unconditional unlink of a drained slab needs); a full bin is the most slots that fit in 16 KiB, but at least 8 and at most 256 |
| `Geometry.SlotsApart` | src/partition.c:81-92 | two different slots of a class never overlap |
| `Geometry.HomeOfSlot` | src/internal.h:320-324 | from any byte of a slot, masking gives its chunk and the page table gives its slab |
| `Geometry.CarveTiles` | src/partition.c:134-138 | carving one more run keeps the runs tiling the chunk from the first data page to the bump pointer |
| `Links.RemoveDList` | src/partition.c:58-64 | unlinking any listed node leaves a well-formed doubly linked list of the others in order |
| `Links.RemoveUnlisted` | src/partition.c:58-64 | unlinking a node that is on no list keeps the list exactly if the list is empty |
| `PoolProofs.RefillInv` | src/partition.c:205-245 | refill keeps the pool invariant and hands out slots none of which was outstanding, at most as many as wanted; it returns NULL exactly if the head partial slab has no free slot, or there is no partial slab, no free slot anywhere outside retired slabs, every slab of the active chunk has been cut and no chunk can be had; the chunk offered is linked exactly in that last situation |
| `PoolProofs.NeedsChunkIffDry` | src/partition.c:119-120 | with no partial slab, a chunk is asked for exactly if no slot outside retired slabs is free and every slab of the active chunk has been cut |
| `PoolProofs.NewUnlessDry` | src/partition.c:98-149 | with no partial slab, no slab is found exactly if no slot outside retired slabs is free, every slab of the active chunk has been cut and no chunk can be had |
| `PoolProofs.RefillSource` | src/partition.c:98-149 | the batch comes from one slab: the first partial one, else the first warm one, else the first cold one, and only then a newly cut one; it is as large as wanted or empties the slab |
| `PoolProofs.FreeSlotInv` | src/partition.c:252-271 | returning an outstanding slot keeps the pool invariant; a chunk it disposes of and a slab it releases hold nothing that is outstanding or hidden |
| `PoolProofs.FreePlaces` | src/partition.c:175-201 | a free disposes of the chunk exactly if it was the last slot of the chunk in use; otherwise a drained slab is kept warm while fewer than two are and its pages are released if not, and any other unretired slab is on the partial list |
| `PoolProofs.FreeThenRefill` | src/partition.c:205-271 | freeing a slot of a full slab and refilling one slot hands out that slot again and leaves the pool as it was |
| `PoolProofs.LastLiveIdle` | src/partition.c:175-187 | when a drained slab was its chunk's last live one, no slot of the chunk is outstanding: this follows from the counters alone |
| `PoolProofs.PartialIffPartlyFree` | src/partition.c:174-201 | outside mesh mode a slab is on the partial list exactly if partly free, and on exactly one empty list exactly if entirely free |
| `PoolProofs.IdlePoolIsEmpty` | src/partition.c:180-187 | outside mesh mode a pool with nothing outstanding owns no chunk, no slab and empty lists |
| `PoolProofs.MeshInv` | src/partition.c:299-335 | meshing two slabs that do not overlap keeps the pool invariant, with the slots now holding donor objects hidden |
| `PoolProofs.MeshLoses` | src/partition.c:311-326 | a mesh always hides some slot of the recipient, which can therefore never become entirely free |
| `Aliasing.BackingsApart` | src/partition.c:328-334 | two different slots in use are backed by disjoint bytes |
| `Aliasing.AliasMesh` | src/partition.c:328-334 | meshing keeps the alias invariant, remap or no remap, if the donor backs no other slab |
| `PoolThreads.StepInv` | src/partition.c:205-273 | every step of any thread on a pool keeps slots exclusive, counted and within bin caps |
| `PoolThreads.RunInv` | src/btmalloc.c:203-313 | that invariant holds in every state of every run of any number of threads |
| `PoolThreads.MallocReturnsUnheld` | src/btmalloc.c:222-245 | the slot malloc returns was with no user, in no cache, and is on no freelist |
| `PoolThreads.OnePlaceEach` | src/partition.c:205-273 | outside mesh mode each slot of every carved slab is on its freelist or with exactly one holder |
| `PoolThreads.ReclaimedIsIdle` | src/partition.c:175-201 | in every step of any thread, a chunk is disposed of, and a slab's pages are released, only by a flush or a free, and only when no slot of it is with a user or in any cache and it backs no meshed slab; no other step takes a chunk from the pool |
| `PoolThreads.NoSharing` | src/partition.c:311-334 | in every reachable state after meshing, distinct slots in use share no bytes |
| `PoolThreads.HiddenForever` | src/partition.c:264-270 | a slot hidden by a mesh never returns to a freelist and is never handed out in any later run |
| `PoolThreads.DrainedRunOwnsNothing` | src/tcache.c:32-42 | in any mesh-free run, once users and bins hold nothing the pool owns nothing and its count is zero |
| `PoolThreads.UnmeshedRefillFails` | src/partition.c:210-215 | in a mesh-free run refill returns NULL exactly if no chunk can be had and the pool is dry: no slot outside retired slabs is free and every slab of the active chunk has been cut |
| `PoolThreads.HalfAndHalfMesh` | src/partition.c:325-326 | the recipient is left on the partial list with nothing free exactly when no slot was free in both slabs; refills from it then yield nothing |
| `MeshRuns.HalfAndHalfReached` | src/partition.c:352-378 | a run from the empty pool, ending with a pass that meshes the greedy loop's pair, after which every refill returns an empty batch, also when a chunk could be had |
| `SlotChains.FormatSlots` | src/partition.c:87-93 | formatting threads all slots of the slab in order and changes no byte outside them |
| `SlotChains.PopBatch` | src/partition.c:217-225 | up to `want` slots move from the freelist to a private chain, in reverse order; both chains decode to exactly the slots they should, and only the moved slots' bytes change |
| `SlotChains.SpliceBatch` | src/partition.c:234-244 | the first slot of the batch is returned and the rest precedes the bin's chain; only the batch's bytes change |
| `PoolRep.PurgeEmpties` | src/partition.c:161-172 | both empty lists lose exactly the slabs of the chunk, keep their order, and the warm count stays the list's length |
| `SlabPool.FormatFields` | src/partition.c:69-94 | a formatted slab has its freelist, counters, flags and epoch as a fresh slab of the pool value, and its touch is recorded |
| `SlabPool.HomeSlab` | src/partition.c:258-259 | the slab found from a slot's address is the slot's own |
| `SlabPool.Pool.SlabNew` | src/partition.c:98-149 | recycling and carving, on lists, headers and bytes, do what the pool value says, whatever a newly linked chunk held; when there is none is `PoolProofs.NewUnlessDry`; apart from that chunk only the new slab's slots change |
| `SlabPool.Pool.Refill` | src/partition.c:205-232 | refill on the structures is refill on the pool value; the batch's chain decodes to it, NULL is returned exactly when `PoolProofs.RefillFails`; no byte of a slot in use or cached changes and none outside the pool's chunks; the slabs touched are the one made and the one taken from, which is the last touched |
| `SlabPool.Pool.BecameFree` | src/partition.c:175-201 | a drained slab is disposed of with its chunk, kept warm, or released, as on the pool value; apart from a released slab's pages no byte changes (what becomes of a disposed chunk's pages is `Arena.LoseChunks`) |
| `SlabPool.Pool.FreeOne` | src/partition.c:426-442 | a free on the structures is a free on the pool value; what it disposes of or releases is idle; no byte of another slot in use or cached changes and none outside the pool's chunks; the slot's slab is touched |
| `SlabPool.Pool.DropChunk` | src/partition.c:184-186 | purging, the active pointer and the chunk unlink remove exactly the chunk |
| `ThreadBins.Malloc` | src/btmalloc.c:222-246 | a hit gives the bin's first slot and leaves the pool alone; a miss asks for half a bin and gives the batch's first slot; the slot was in no other hands, the bin stays within its cap and its count is its chain's length, NULL only if the bin is empty and the refill fails; no byte of a slot in other hands changes, and none outside the pool's chunks |
| `ThreadBins.RefillBin` | src/partition.c:205-245 | the same for a refill with its splice |
| `ThreadBins.Pop` | src/btmalloc.c:225-232 | a bin hit returns the chain's first slot and leaves the rest |
| `ThreadBins.Flush` | src/partition.c:247-273 | exactly the last `keep` slots stay in the bin; the others are freed into the pool one by one in the order of the bin; no byte of a slot in other hands changes, and none outside the pool's chunks |
| `ThreadBins.Free` | src/btmalloc.c:303-312 | the freed slot heads the bin, a bin over its cap keeps exactly the last half of it and frees the others into the pool in order; no byte of a slot in other hands changes, and none outside the pool's chunks |
| `ThreadBins.Drain` | src/tcache.c:36-40 | every slot of the bin is back in the pool |
| `Occupancy.BuildOcc` | src/partition.c:282-294 | a bit is set exactly for each slot that is not on the freelist |
| `Occupancy.NoOverlap` | src/partition.c:369-373 | the word-by-word test succeeds exactly if no slot is occupied in both slabs |
| `Meshing.CopyLive` | src/partition.c:306-309 | each occupied slot of the donor is in the recipient at the same index, and nothing else changed |
| `Meshing.Rebuild` | src/partition.c:313-326 | the recipient's freelist decodes to the slots free in both slabs, in order, with the right count |
| `Meshing.RemapMapped` | src/background.c:338-340 | after the remap each donor slot's addresses read the recipient's slot of the same index, and no other slot's addresses moved |
| `Compaction.MeshPair` | src/partition.c:299-335 | on the structures, remap or no remap: the pool invariant is kept and every slot in use or cached reads the same at its own address, if the donor backs no other slab; no byte or page outside the pool's chunks changes |
| `Compaction.MeshKeepsIff` | src/background.c:327-345 | a mesh keeps every slot in use readable exactly if the remap fails or no other slab's slot stored in the donor holds anything but zeros |
| `Compaction.FindPartner` | src/partition.c:366-378 | the first unused candidate that does not overlap, if there is one |
| `Compaction.Gather` | src/partition.c:349-359 | exactly the first 64 sparse slabs of the partial list, in order, each with its occupancy; each has at least one and at most half of its slots in use |
| `Compaction.GreedyChoice` | src/partition.c:349-378 | the pairs of a pass are two of the first 64 slabs of the partial list with one to half of their slots in use, in no other pair, with no slot in use in both; the recipient is the earlier one, though the search for a donor starts at the front; of those 64 no two are left over that could have been meshed |
| `Compaction.FirstPair` | src/partition.c:361-378 | the first pair the loop meshes is the first greedy pair, whatever has been meshed before |
| `Compaction.CompactPool` | src/partition.c:346-380 | a pass over one pool meshes the greedy pairs, in order: two of the first 64 slabs with one to half of their slots in use, the earlier one the recipient, no slot in use in both, none of the 64 left over that could be meshed; the bytes reported are a slab's for each page remap that worked; whichever remaps fail, every slot in use or cached reads the same at its own address and nothing outside the pool's chunks changes, if no donor of those pairs backs another slab |
| `MeshRuns.SecondPassReached` | src/partition.c:361-378 | a run from the empty pool to a state where a pass meshes exactly one pair, that mesh, and a free, after which the next pass meshes exactly one pair, whose donor is the recipient of the first |
| `MeshRuns.SecondPassLoses` | src/partition.c:374-375 | meshing that pair loses the bytes of a slot in use that the first pass had moved |
| `MeshRuns.CouplePicked` | src/partition.c:364-378 | of two candidates that do not overlap the loop takes the first as recipient and the second as donor |
| `Reaching.Reached` | src/partition.c:205-273 | every state so reached satisfies the pool invariant and the alias invariant |
| `Arena.PoolElsewhere` | src/partition.c:340-346 | a pool is as it was, and every slot of it in use reads the same, after anything that happens in chunks that are not its own |
| `Arena.OwnedSeparate` | src/partition.c:122-131 | in every state of the whole allocator no two pools share a chunk, and a chunk a thread has obtained is no pool's |
| `Arena.UnclaimedUnmapped` | src/background.c:338-340 | a chunk that is no pool's is not remapped, whatever meshing has done: this follows from the invariant of the pools |
| `Arena.LoseChunks` | src/background.c:125-127 | whatever becomes of the bytes of chunks that are no pool's, every pool is as it was and everything in use reads the same |
| `Arena.NewPools` | src/btmalloc.c:151-156 | the pools start empty and without common chunks, over one memory |
| `Arena.MallocIn` | src/btmalloc.c:203-246 | on one pool among several: the slot returned overlaps nothing in use in any pool, and everything in use in any pool or cached by another thread reads the same |
| `Arena.FreeIn` | src/btmalloc.c:285-313 | the same for a free; the bin ends one longer, or at half its cap with the rest freed into the pool in order |
| `Arena.CompactAll` | src/partition.c:337-384 | over all pools of classes with at least two pages a slab, whichever remaps fail: each is compacted as by `Compaction.CompactPool`, the others are left alone, and the result is the sum of what was reclaimed; every slot in use or cached in every pool reads the same at its own address, if no donor of a pool's greedy pairs backs another slab |
| `Arena.PageoutAll` | src/partition.c:394-424 | in every pool the slabs newly evicted are exactly the unretired ones with every slot in use that no operation has touched since the previous pageout ended; the result is the sum over the pools of their bytes; the epoch advances once, after all pools |
| `Tiering.Pageout` | src/partition.c:403-417 | the walk visits every carved slab exactly once and evicts exactly the full, unretired, not yet evicted ones whose epoch is behind |
| `Tiering.PageoutCold` | src/partition.c:402-419 | on one pool's structures: the slabs evicted are exactly those evicted before and the cold ones, by the pool's own history of touches; the number returned counts the new ones |
| `Epochs.BehindIffIdle` | src/partition.c:31-34 | in every history, a slab's epoch is behind exactly if a pageout has advanced the epoch since the slab was last touched |
| `Lifecycle.StepInv` | src/background.c:223-277 | every step keeps each chunk in one place, the warm count exact and registered chunks mapped |
| `Lifecycle.PooledChunkSafe` | src/background.c:349-387 | in every run a pooled chunk is mapped and registered, on no list and in nobody's hands |
| `Lifecycle.MergeLoop` | src/background.c:241-252 | the first of the cleaned chunks, as many as fit below the high mark, end up at the front of the warm list and the rest are to be trimmed, each list with the latest in front |
| `Lifecycle.MergeElems` | src/background.c:241-252 | the merge loses and duplicates no chunk and keeps the count exact; starting at or below the high mark it ends at the smaller of the mark and count plus length, and a chunk is trimmed only when the mark has been reached |
| `Lifecycle.MapsOnlyWhenNeeded` | src/background.c:349-362 | in every run a chunk is asked of the system only by a thread that found the warm list empty, or by the maintenance thread while it owes chunks to the low mark |
| `Lifecycle.DoomedOnlyWhenFull` | src/background.c:241-252 | no step starts a chunk on its way to being unmapped unless the warm list has reached its high mark |
| `Lifecycle.PremapReplenishes` | src/background.c:253-275 | in every run, a round of the maintenance thread without a failed mapping pushes at least as many chunks as were missing to the low mark after its merge |
| `Lifecycle.RunWarmBound` | src/background.c:253-275 | in every run the warm list has at most 72 chunks and the count is its length |
| `Lifecycle.OneRouteWarmHigh` | src/background.c:364-387 | if all disposals take one route it has at most 64 |
| `Lifecycle.WarmBoundIsTight` | src/background.c:375-378 | a reachable state has 72 |
| `Allocator.StepInv` | src/partition.c:98-201 | every step of any thread on any pool, with the chunk protocol, keeps the invariant of the whole allocator |
| `Allocator.CarriedIsFresh` | src/background.c:349-362 | a chunk a thread has obtained is aligned, in range and in no pool |
| `Allocator.FreeNeverBlocked` | src/background.c:364-387 | the chunk protocol never blocks a free: a chunk it drains can always be handed on |
| `Allocator.HeldSlotHome` | src/partition.c:258-259 | in every run, the chunk of a slot in use or cached is mapped, registered and only its pool's, and its header, found by masking any address of the slot, names the pool the slot was taken from |
| `Allocator.HeaderStable` | src/partition.c:122-131 | in every run a chunk's header is the same from the time it is linked until it is disposed of |
| `Allocator.RequestFits` | src/btmalloc.c:203-221 | a slot taken for a request holds it and is 16-byte aligned |
| `Allocator.HeldApart` | src/btmalloc.c:203-246 | over all pools, two different slots in use or cached have disjoint addresses |
| `Allocator.HeldBytesApart` | src/background.c:338-340 | and disjoint backing bytes |
| `RegionCache.StepInv` | src/internal.h:295-312 | every interleaved access keeps: an entry or fill with the current generation matches the table, unless its region is being removed |
| `RegionCache.HitIsCurrent` | src/internal.h:300-304 | in every run a validated hit is the table's answer, unless the region's removal is between its clear and the generation bump |
| `RegionCache.ResolveStable` | src/internal.h:295-312 | resolving a region that keeps one owner throughout the call returns that owner, hit or miss |
| `Resolving.StepInv` | src/chunk.c:116-129 | with every step of the allocator and every table or cache access, the table holds exactly the registered chunks whose registration found a leaf, and a removal under way belongs to a thread about to unmap |
| `Resolving.RegisterEnabled` | src/background.c:170 | when a chunk is registered its region has no owner and no removal of it is under way |
| `Resolving.FreeFindsHome` | src/btmalloc.c:273-304 | in every interleaving of all threads, resolving any address of a slot held throughout the call returns the slot's chunk, whose header names the pool the slot came from, or 0 exactly if the chunk's registration found no leaf |
| `Registry.CellIsMod` | src/chunk.c:86-91 | two keys share a radix cell exactly if they agree modulo 2^27 |
| `Registry.Radix.Lookup` | src/chunk.c:93-99 | the radix lookup is the plain map's answer for the key modulo 2^27, leaf or no leaf |
| `Registry.Radix.SetLocked` | src/chunk.c:102-114 | one region's owner is stored, or nothing changes if the leaf cannot be mapped |
| `Registry.Radix.Insert` | src/chunk.c:116-122 | of the regions the range touches exactly those get the owner whose leaf exists or can be mapped; the others stay without one |
| `Registry.Radix.Remove` | src/chunk.c:124-129 | exactly those regions are cleared, even if leaves cannot be mapped |
| `Registry.Flat.SetAll` | src/chunk.c:48-67 | the flat table's range update is the plain map's, or nothing if the table could not be reserved |
| `Registry.Replay` | src/chunk.c:116-134 | after any sequence of range insertions and removals both engines hold the plain map; a flat table that could not be reserved holds nothing |
| `Registry.LookupBoth` | src/chunk.c:42-99 | after any such sequence both engines return the owner of any user address's region; for any other address they differ exactly if it lies beyond 2^48 and the cell the radix reads instead is owned |
| `Intern.KeyUnique` | src/btmalloc.c:69-92 | each call site occurs at most once in the table |
| `Intern.AbsentAtEmpty` | src/btmalloc.c:72 | a probe that stops at an empty slot shows that the key is nowhere in the table |
| `Intern.InsertInv` | src/btmalloc.c:76-81 | claiming the slot where the probe stopped keeps every key reachable and the ids distinct |
| `Intern.FullTableCount` | src/btmalloc.c:91-93 | the hashing fallback needs more call sites than there are partitions |
| `Intern.PartitionStable` | src/btmalloc.c:62-96 | in every interleaving all calls for one call site return one partition, through the thread cache, the table or the fallback |
| `Intern.PartitionsDistinct` | src/btmalloc.c:62-96 | until more call sites than partitions are known, different call sites get different partitions |
| `Intern.PartitionInRange` | src/btmalloc.c:62-96 | in every run every call returns one of the partitions; on a table full of other call sites it is the multiplicative hash of the return address |
| `Intern.InternTable.Slow` | src/btmalloc.c:62-96 | the probing loop returns the partition assigned to the call site, assigning one if there was none, and remembers it in the thread's cache; it is one of the partitions, and on a full table the multiplicative hash of the return address |
| `Large.RoundUpExact` | src/large.c:22-24 | without wrap-around, the least multiple of the alignment not below the value |
| `Large.HoldsRequestIffNoWrap` | src/large.c:29-30 | the mapping holds header and request exactly if their rounded sum does not wrap around 2^64 |
| `Large.TrimConserves` | src/large.c:35-45 | front, object and back make up the mapping; the base is the first aligned address of it, the user offset the first aligned one after the header, the length the least number of whole pages that holds the request, and the user pointer has the alignment asked for |
| `Placement.TagRoundTrip` | src/large.c:53-57 | the large tag can be read and removed without touching the base |
| `Placement.RegionsExclusive` | src/large.c:32-34 | two objects never share a 2 MiB region, even a partly mapped one |
| `Placement.AddressSpace.LargeAlloc` | src/large.c:26-58 | the new object is placed in the mapping as by `Large.TrimConserves` and registered, except on regions whose leaf cannot be mapped; if mmap fails nothing changes |
| `Placement.AddressSpace.MapChunk` | src/background.c:130-173 | a fresh chunk is the first aligned chunk inside the reservation, registered unless its leaf cannot be mapped, and disjoint from everything else, with an offset of its own in mesh mode; if the offset, the reservation or the mapping fails, no object is registered and no offset stays taken |
| `Placement.AddressSpace.Resolve` | src/btmalloc.c:273-284 | every address of an object, interior ones too, resolves to it, or to 0 exactly if its region found no leaf; an address in no object's regions to 0 |
| `Placement.MoveKeepsOwnersIff` | src/large.c:92-98 | after mremap has put an object anywhere on a page boundary and it is registered there, every address resolves to its own object exactly if no other object has bytes in a region of the new mapping |
| `Placement.AlignedSharesNone` | src/large.c:32-34 | on a 2 MiB boundary no region is shared |
| `Placement.MoveTakesOver` | src/large.c:86-98 | a move to a free page beside a short mapping takes over that object's region: its addresses then resolve to the moved object |
| `LargePaths.LargeUntouched` | src/large.c:32-34 | whatever happens inside chunks, no byte of a large object changes, its header included |
| `LargePaths.LargeDirect` | src/background.c:338-340 | no address of a large object is remapped: it is read where it is |
| `LargePaths.AllocLarge` | src/large.c:26-58 | over the pools and the owner table: the object is new and placed in the mapping as by `Large.TrimConserves`, its header reads back and its user bytes are zero; everything in use, small or large, is as it was |
| `LargePaths.FreeLarge` | src/large.c:60-65 | the length read from the header is the object's; exactly its regions are cleared and everything else in use is as it was |
| `LargePaths.KeepLarge` | src/large.c:78-81 | recording a new size changes no byte outside the header |
| `LargePaths.NewTotalFits` | src/large.c:76 | the new length is the least number of whole pages that holds the request, if the sum does not wrap around |
| `LargePaths.SameTotalIff` | src/large.c:78 | the code sees no change of length exactly if the request needs the pages the object has |
| `LargePaths.MoveLarge` | src/large.c:83-99 | the object is registered where mremap put it, at a 2 MiB boundary, with its user bytes, its offset and the least number of whole pages that holds the request; if mremap fails it is as it was; everything else in use is as it was |
| `Moves.UsableSize` | src/large.c:67-70 | the bytes from the user pointer to the end of the mapping |
| `Moves.MoveSmall` | src/btmalloc.c:342-346 | from one small class to another: the first n bytes read the same at the new address, also if either slab has been meshed, or NULL is returned exactly if the bin is empty and the refill fails; everything else in use, small or large, and every other bin of the thread is as it was |
| `Moves.Enlarge` | src/btmalloc.c:342-346 | from small to large: all bytes of the slot are at the start of the new object, or NULL is returned exactly if mmap fails; everything else in use is as it was |
| `Moves.Shrink` | src/btmalloc.c:350-357 | from large to small: the first min(old, new) bytes are in the new slot, or NULL is returned exactly if the bin is empty and the refill fails; everything else in use is as it was |
| `Moves.ResizeLarge` | src/large.c:72-100 | the object keeps its mapping and its address exactly if the request needs the pages it has; otherwise it gets the least number of pages that holds the request; the first min(old, new) bytes read the same at the new address, or NULL is returned exactly if the number of pages changes and mremap fails; everything else in use is as it was |
| `Realloc.NewHeap` | src/btmalloc.c:151-156 | the heap starts valid, with no object and empty bins |
| `Realloc.Resolve` | src/internal.h:295-312 | a pointer to an object resolves to 0 exactly if its region found no leaf; otherwise bit 0 tells a large object from a slot and the rest is its base, or its chunk |
| `Realloc.Malloc` | src/btmalloc.c:203-246 | NULL exactly for size 0 or if there is no memory; otherwise an object that was in no hands, of the least class, or the least number of pages, that holds the request; everything in use, small or large, is as it was |
| `Realloc.SameClassIff` | src/btmalloc.c:339-341 | a request belongs to a class exactly if that is the least class that holds it |
| `Realloc.Free` | src/btmalloc.c:270-313 | the object the pointer leads to is given back, small or large as the owner word says, and everything else in use is as it was; a pointer that leads nowhere is ignored |
| `Realloc.Calloc` | src/btmalloc.c:315-327 | NULL exactly on overflow, zero bytes or exhaustion; otherwise an object that was in no hands and whose requested bytes read zero, a slot because it is cleared through the page map, a large object because its mapping is new; everything in use is as it was |
| `Realloc.Reallocate` | src/btmalloc.c:329-360 | on every path: a null pointer is malloc, size 0 is free, a pointer that leads nowhere gives NULL; an object whose class or pages are already the least that hold the request stays where it is; otherwise it ends in the least that does, with its first min(old, new) bytes, or NULL is returned, exactly when stated, and it is untouched; everything else in use, small or large, is as it was |
| `Memfd.Offsets.Alloc` | src/background.c:77-94 | the last offset stacked, else the next one never used, held by no one; none exactly if the stack is empty and the file cannot grow; the file grows by 256 chunks only when its end is reached, a failed truncate changes nothing, and one growth is always enough |
| `Memfd.Offsets.Free` | src/background.c:96-112 | the offset is stacked, through growth, or dropped if growth fails; it is never in two places |

## Left out

- Kernel calls: modelled as success or failure with the stated effect; submission and completion of io_uring requests are not modelled.
- Fork handling, double-free canaries, the heap profile, environment variables and symbol lookup.
- `src/preload.c`, benchmarks and tests.
- Weak memory: every atomic access is a sequentially consistent step.
- The hash branch of `btm_partition_of`: any function of the return address would do.
- Aligned-allocation entry points other than the large path they call.
- `SlabPool.Pool` and `ThreadBins` are sequential; interleavings are in `PoolThreads` and `Allocator`, at the level of the pool value.
- SlabPool.Pool.Refill: the result of `btm_chunk_obtain` is a parameter; the protocol that produces it is in `Lifecycle`.
- ThreadBins.Malloc: a bin is passed in and out as a value, not updated in place.
- Arena.CompactAll: a pass in which a donor of the greedy pairs backs another slab is followed up to its first pair (`Compaction.FirstPair`) and not to its end, because data may then be lost.
- Realloc.Reallocate: a mapping that mremap moves is taken to land on a 2 MiB boundary, and sizes whose rounding wraps around 2^64 are excluded; `Placement.MoveKeepsOwnersIff` and `Large.HoldsRequestIffNoWrap` say what happens otherwise.
- Realloc.Malloc: large sizes whose rounding wraps around 2^64 are excluded (`Large.HoldsRequestIffNoWrap`); the pool of the request's class, the chunk it is offered and the place of a mapping are arguments; bins are values, passed in and out.
- LargePaths.AllocLarge: `req_size`, which nothing reads, is stored and not stated.
- Memfd.Offsets: file offsets are not tied to the page map of `Meshing`, which identifies a page's backing store with the address it was first mapped at.
