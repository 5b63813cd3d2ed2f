# Verified models of whale's memory allocator and its neighbours

This project models, in Dafny, the dlmalloc 2.8.3 allocator that libffi uses for closures, and proves that
its three views of one heap agree in every reachable state:

- the physical view: boundary-tagged chunks that tile every segment (`Heap`, `HeapSteps`, `Conservation`);
- the index view: small-bin rings, bitwise tries of large chunks, two bitmaps, the designated victim and top
  (`Rings`, `SmallBins`, `Trie`, `TriePaths`, `TreeBins`, `TreeUnlink`, `BestFit`, `BinIndex`, `BinMaps`, `Index`);
- the system view: the list of segments with its records in memory, fenceposts, footprint (`Segments`, `Regions`,
  `Prepending`, `Adding`, `FromSystem`, `Trimming`, `Vacancy`).

`Invariant` states the agreement (`Valid`). `Malloc`, `Free`, `Realloc`, `Memalign` and `Ialloc` prove that every
public call keeps it, say exactly when it fails, which chunk it serves, and that it writes no byte of a live
payload (`Payload`, `Scribbles`). What a call does to the heap in outline -- chunks, victim, top, segments, footprint,
trim threshold -- is stated exactly, as a function on a `Plan` (`Plans`), and laws tell what those functions come
to. `Checks` runs the allocator's own debugging checks over any valid state without one failing. `Clients.Run` is
the main theorem: an arbitrary script of calls and stores, with an arbitrary system behind it, refines a plain
table of blocks and their contents, call by call.

Four smaller models stand beside it: libffi's layout of nested aggregates (`Aggregates`), its raw argument buffers
(`RawCalls`), the replacement cache of XResources (`Replacements`) and cpplint's nesting stack across preprocessor
conditionals (`Nesting`, and `NestingLaws` on what the stack means).

## How memory is modelled

Addresses and sizes are unbounded integers. Wherever the code relies on 64-bit wrap-around (shifts of size
bits, `-nb`, `dvsize - nb`, the request to mmap, calloc's product, FFI_ALIGN) the wrap is written out;
`Conservation.FootprintIsWord`, `Clients.PayloadInMemory` and `InOut.ChunkAddress` show that sums of sizes and the
ends of chunks and payloads stay within a word, so nothing else can wrap.

Memory is kept as one map for every chunk word (head, prev_foot, fd, bk, child[0], child[1], parent, index) and
one for every word of a segment record. That is sound because no two words that the allocator relies on share an
address (`Scribbles.OwnedOnce`), none of them lies in a payload (`Scribbles.OwnedOutside`), and a store by a
client, which is taken to change every chunk word that could lie at its address, keeps the invariant
(`Scribbles.Poke`). The relation `Quiet` says that a step changed no word inside a payload. Bin headers and the
embedded segment record have negative addresses. `heap`, `small`, `nodes` and `segs` are ghost fields that say what
the words stand for.

The system is arbitrary: mmap may fail or return any region not in use (`offers` in `Clients.Run` says which),
adjacent to a segment or not; whether a munmap succeeds and whether an adjacent region may be merged
(check_segment_merge) is told by `system`, an arbitrary stream of answers, one for each question asked. Reaching an
assert, USAGE_ERROR or CORRUPTION_ERROR branch would be reaching an `assert false`.

The configuration is that of closures.c: no MORECORE, no MREMAP, no direct mmap, FOOTERS 0, alignment 8, 64-bit
words, trimming enabled.

## What turned out not to hold

- initialize_aggregate leaves the size reached so far in a type that it refuses, and in the first bad element of that,
  and so on; its callers take any type of non-zero size for laid out. So a malformed type may be accepted the second
  time: exactly if it has elements, and its first element is sound, or would itself be accepted the second time while
  all others are sound over what it left behind (`Aggregates.RetryAccepted`; `Aggregates.PrepareTwice` runs both
  attempts, `Aggregates.RetryExample` is at two inputs).
- getReplacement equals the plain lookup except for an app id on an object whose every initObject has thrown: there
  it meets a null mask (`Replacements.NullMaskIff`; `Replacements.NullMask` is the shortest way there).
- Leaving out preprocessor directives together with the later arms gives the same nesting stack exactly unless a
  directive line comes last and inline assembly had just ended in the top block, which then forgets it
  (`Nesting.FirstArmsWithoutDirectives`; `Nesting.AssemblyForgotten` is at an input).
- independent_comalloc gets a chunk that is large enough for its aggregate exactly when the total size does not
  overflow (`Ialloc.RoomIffNoOverflow`; `Clients.OverflowExample` is at an input).
- release_unused_segments is to unmap the segments that contain no used chunks. It misses those whose top had less than
  MIN_CHUNK_SIZE left when they were closed: it finds a segment exactly if no block is in it and top had that room
  (`Vacancy.VacantIff`, `Adding.ClosingAt`; `Vacancy.VacantStays` is at an input).
- internal_memalign rounds every alignment up to 2^63; above, its loop never ends (`Alignment.NeverReached`).

## Model

| member | source | states |
|---|---|---|
| `Clients.Run` | Bridge/src/main/whale/src/libffi/dlmalloc.c:4131-4434 | Any script of malloc, calloc, memalign, realloc, free, independent_calloc/comalloc, malloc_trim and stores into blocks, from a zeroed malloc_state, with any answers of mmap and munmap: every call a client may make is made and answered as promised, null exactly when the heap that the calls before have left has no room and the system does not help, and then nothing changes; the heap invariant holds throughout, no assert, USAGE_ERROR or CORRUPTION_ERROR branch is reached, the live blocks are exactly those the client owns, 8-aligned and disjoint, and every byte written and not freed reads back, through reallocs too |
| `Clients.Call` | Bridge/src/main/whale/src/libffi/dlmalloc.c:4131-4434 | One call of any kind turns the table of owned blocks and their contents into the table the call's meaning prescribes; a call that allocates answers null exactly when there is no room for what it asks |
| `Clients.OverflowExample` | Bridge/src/main/whale/src/libffi/dlmalloc.c:4053-4070 | Two elements of 2^63 bytes: the wrapped total is granted, and the chunk has less than 80 bytes for an aggregate of more than 2^64 |
| `Clients.HeldIsSound` | Bridge/src/main/whale/src/libffi/dlmalloc.c:1547-1567 | Owned blocks are aligned to 8, as large as requested, inside memory, and at least a word apart |
| `Clients.InitialValid` | Bridge/src/main/whale/src/libffi/dlmalloc.c:2120-2122 | An all-zero malloc_state satisfies the whole invariant |
| `Clients.ReadSegments` | Bridge/src/main/whale/src/libffi/dlmalloc.c:2163-2172 | Following the records from the embedded one spells out exactly the list of segments |
| `Scribbles.ScribbleKeeps` | Bridge/src/main/whale/src/libffi/dlmalloc.c:1542-1567 | Whatever clients store in their payloads, including the next chunk's prev_foot, the invariant stands |
| `Scribbles.OwnedOnce` | Bridge/src/main/whale/src/libffi/dlmalloc.c:1569-1597 | The words the allocator relies on have pairwise different addresses |
| `Scribbles.OwnedOutside` | Bridge/src/main/whale/src/libffi/dlmalloc.c:1547-1597 | None of the words the allocator relies on lies in a payload |
| `Scribbles.Poke` | Bridge/src/main/whale/src/libffi/dlmalloc.c:1547-1567 | A store into a live block, seen by every chunk word it could be, keeps the invariant |
| `Scribbles.StoreWords` | Bridge/src/main/whale/src/libffi/dlmalloc.c:4089-4090 | An array of pointers is spelled out byte by byte in its block, and no other byte changes |
| `Scribbles.HoldingReads` | Bridge/src/main/whale/src/libffi/dlmalloc.c:4089-4090 | The bytes stored for a word read back as the word |
| `Payload.OwnBytes` | Bridge/src/main/whale/src/libffi/dlmalloc.c:1547-1597 | A chunk's words from its head to the next chunk's foot are in no other chunk's payload; a live chunk keeps only its head |
| `Malloc.Dlmalloc` | Bridge/src/main/whale/src/libffi/dlmalloc.c:4131-4261 | Null exactly when no free chunk, not top and not the system has room; else the block is at the place the rules name: a best free chunk (for a small request one without a remainder, else the victim, else the smallest of all; for a large one the least that fits, the victim among equals), else the lower end of top, else the region. It has exactly the padded size, or the whole chunk's when less than MIN_CHUNK_SIZE would be left; the rest is a free chunk behind it, and which chunk is the victim then, top, the segments and the trim threshold are stated exactly; no payload is touched; the footprint grows exactly when a new region serves, by its size, and its maximum follows |
| `Plans.CutLaw` | Bridge/src/main/whale/src/libffi/dlmalloc.c:4219-4239 | What taking from a free chunk comes to: exactly nb bytes become a block and the rest a free chunk behind it, or all of it when the rest is below MIN_CHUNK_SIZE; the rest is the victim exactly if the victim was cut or the request is small; no other chunk changes |
| `Plans.CutTopLaw` | Bridge/src/main/whale/src/libffi/dlmalloc.c:4241-4251 | Taking from top: the block is exactly nb bytes, top starts behind it and is smaller by nb |
| `Plans.FreedLaw` | Bridge/src/main/whale/src/libffi/dlmalloc.c:4263-4361 | What freeing comes to: one free chunk, or top, of the sizes of the block and its free neighbours added up; it is the victim exactly if the victim was one of them, and no other chunk changes |
| `Malloc.ChunkSize` | Bridge/src/main/whale/src/libffi/dlmalloc.c:4158-4214 | The padded request; small exactly up to MAX_SMALL_REQUEST, the largest word exactly from MAX_REQUEST on |
| `Malloc.UseDv` | Bridge/src/main/whale/src/libffi/dlmalloc.c:4221-4239 | The designated victim is cut to exactly the size asked for, the rest being the victim, or used up when the rest is below MIN_CHUNK_SIZE; nothing else in the heap changes |
| `Free.Dlfree` | Bridge/src/main/whale/src/libffi/dlmalloc.c:4263-4361 | The freed block, and no other, is gone, and becomes one chunk, exactly, with what is free on both sides; no other payload changes. When it joins top and the joint size exceeds trim_check, sys_trim has run, so that the footprint is smaller or trimming is off; at most trim_check, top has the joint size; and otherwise top is as before: segments, footprint and trim_check stay in both. The maximum footprint stays; no error branch is reached |
| `Free.ConsolidateForward` | Bridge/src/main/whale/src/libffi/dlmalloc.c:4314-4350 | The freed stretch takes in top, or else a free chunk behind it, becomes top, the victim if the victim took part, or one free chunk of exactly the joint size, and is indexed; sys_trim runs exactly when top is then larger than trim_check |
| `Free.TrimsIff` | Bridge/src/main/whale/src/libffi/dlmalloc.c:4316-4327 | That test of should_trim, from outside: below the threshold nothing is given back and top has the joint size, above it the footprint differs or trimming is off, and behind another chunk than top nothing is trimmed |
| `Freeing.FreeIntoDv` | Bridge/src/main/whale/src/libffi/dlmalloc.c:4303-4307 | A block behind the victim, before a used chunk, joins the victim, which keeps its place and has the joint size |
| `Freeing.FreeForward` | Bridge/src/main/whale/src/libffi/dlmalloc.c:4334-4347 | A free chunk behind the block is unlinked and merged: one free chunk of the joint size, which is the victim exactly if the victim was before the block |
| `Freeing.FreeJoinsTop` | Bridge/src/main/whale/src/libffi/dlmalloc.c:4316-4327 | A block before top joins top, which then starts at the block with the joint size |
| `Freeing.FreeBeforeDv` | Bridge/src/main/whale/src/libffi/dlmalloc.c:4328-4333 | A block before the victim becomes the victim with it, of the joint size |
| `Realloc.InternalRealloc` | Bridge/src/main/whale/src/libffi/dlmalloc.c:3842-3909 | Null exactly when the request is too large, does not fit in place and malloc refuses; in place exactly when the block is large enough or top follows with more than enough room, and then of exactly the padded size, or as it was when the rest would be below MIN_CHUNK_SIZE; else moved to where malloc puts a block; the first min(old, new) bytes are kept, no other payload changes, and the heap's other chunks are stated exactly |
| `Realloc.Dlrealloc` | Bridge/src/main/whale/src/libffi/dlmalloc.c:4378-4393 | A null pointer makes it malloc, else internal_realloc: the same exact condition for null, the kept prefix, the exact effect on the heap, and no other payload changes |
| `Realloc.ResizeInPlace` | Bridge/src/main/whale/src/libffi/dlmalloc.c:3861-3881 | In place exactly when the block is large enough or top follows with more than enough room |
| `Realloc.ShrinkInPlace` | Bridge/src/main/whale/src/libffi/dlmalloc.c:3861-3870 | A block that is large enough gets exactly the size asked for and the rest is freed, or stays as it is when the rest is below MIN_CHUNK_SIZE |
| `Realloc.BlocksApart` | Bridge/src/main/whale/src/libffi/dlmalloc.c:1547-1567 | Two live blocks do not overlap |
| `Resizing.SplitBlock` | Bridge/src/main/whale/src/libffi/dlmalloc.c:3864-3869 | A block becomes two adjacent blocks, whichever is marked first |
| `Resizing.GrowBlock` | Bridge/src/main/whale/src/libffi/dlmalloc.c:3871-3881 | A block takes exactly what it lacks from top |
| `Scribbles.MemCopy` | Bridge/src/main/whale/src/libffi/dlmalloc.c:3899-3904 | The copy of a realloc stays inside the new block |
| `Memalign.InternalMemalign` | Bridge/src/main/whale/src/libffi/dlmalloc.c:3913-3996 | Null exactly when malloc refuses the enlarged request, or that request is too large; else the payload starts at the first multiple of the rounded alignment in malloc's block that leaves nothing or MIN_CHUNK_SIZE before it; the block is of the requested chunk size or up to MIN_CHUNK_SIZE more; leader and trailer are given back as free would; nothing else changes |
| `Memalign.Dlmemalign` | Bridge/src/main/whale/src/libffi/dlmalloc.c:4401-4403 | The same, with the exact condition for null, for every alignment up to 2^63; up to MALLOC_ALIGNMENT malloc alone serves, with exactly its effect |
| `Memalign.AlignBlock` | Bridge/src/main/whale/src/libffi/dlmalloc.c:3939-3968 | The leader, if any, is at least MIN_CHUNK_SIZE and the rest starts aligned and still holds the request |
| `Memalign.CutTrailer` | Bridge/src/main/whale/src/libffi/dlmalloc.c:3970-3980 | A trailer is cut off exactly if more than MIN_CHUNK_SIZE is to spare; the block then has exactly the size asked for |
| `Memalign.RoundsUp` | Bridge/src/main/whale/src/libffi/dlmalloc.c:3948-3951 | (mem + alignment - 1) & -alignment is the next multiple, and mem itself just when aligned |
| `Alignment.RoundAlignment` | Bridge/src/main/whale/src/libffi/dlmalloc.c:3916-3922 | The least power of two at or above the request and MIN_CHUNK_SIZE |
| `Alignment.NeverReached` | Bridge/src/main/whale/src/libffi/dlmalloc.c:3916-3922 | Above 2^63 no number of shifts reaches the request, and no such request skips the loop |
| `Alignment.PowerTest` | Bridge/src/main/whale/src/libffi/dlmalloc.c:3918-3918 | a & (a - 1) is zero only for powers of two |
| `Alignment.AndNeg` | Bridge/src/main/whale/src/libffi/dlmalloc.c:3948-3951 | x & -a clears x modulo a, for powers of two |
| `Ialloc.Ialloc` | Bridge/src/main/whale/src/libffi/dlmalloc.c:4000-4124 | The aggregate is carved into adjacent, separately live blocks, element i holding sizes[i], all but the last exact, then the pointer array unless given; the aggregate is where malloc puts it, and the heap's other chunks are stated exactly; the pointers are spelled out in the array; null exactly when malloc refuses the total; cleared payloads when asked; no byte of another block changes |
| `Ialloc.SplitElements` | Bridge/src/main/whale/src/libffi/dlmalloc.c:4088-4106 | The loop leaves elements that tile the aggregate exactly |
| `Ialloc.ContentsSize` | Bridge/src/main/whale/src/libffi/dlmalloc.c:4041-4051 | The sum of the padded sizes modulo 2^64, and so the true sum exactly when it fits a word |
| `Ialloc.AggregateRequest` | Bridge/src/main/whale/src/libffi/dlmalloc.c:4027-4062 | What ialloc asks malloc for, wrap-around included; the true total when that is a word |
| `Ialloc.RoomIffNoOverflow` | Bridge/src/main/whale/src/libffi/dlmalloc.c:4053-4070 | Whatever chunk malloc finds for the wrapped total is large enough for the aggregate exactly if nothing has overflowed |
| `Ialloc.AllCleared` | Bridge/src/main/whale/src/libffi/dlmalloc.c:4074-4076 | The bytes cleared cover the payload of every element |
| `Ialloc.OverflowCannotTile` | Bridge/src/main/whale/src/libffi/dlmalloc.c:4053-4062 | No heap holds an aggregate whose elements add up to 2^64 or more, so the no-overflow requirement is needed |
| `Ialloc.CallocRequest` | Bridge/src/main/whale/src/libffi/dlmalloc.c:4365-4371 | The product if it fits a word, else the largest word, for all operands |
| `Ialloc.WrappedProduct` | Bridge/src/main/whale/src/libffi/dlmalloc.c:4368-4370 | Dividing the wrapped product tells exactly whether it has wrapped |
| `Ialloc.Dlcalloc` | Bridge/src/main/whale/src/libffi/dlmalloc.c:4363-4376 | Null exactly when malloc refuses the product, or the product overflows; else all requested bytes are zero and the rest is exactly malloc's effect |
| `Tmalloc.TmallocLarge` | Bridge/src/main/whale/src/libffi/dlmalloc.c:3729-3799 | Serves from the smallest fitting chunk of all when that is a tree chunk and smaller than a fitting victim, taking the one in the tree itself; cut exactly as the law of cutting says, the rest going to a bin; declines, changing nothing, exactly when the victim fits at least as well or nothing fits |
| `Tmalloc.CarveToBin` | Bridge/src/main/whale/src/libffi/dlmalloc.c:3785-3794 | The chunk is cut to exactly the size and the rest is binned, or it is used whole when the rest is below MIN_CHUNK_SIZE |
| `Tmalloc.TmallocSmall` | Bridge/src/main/whale/src/libffi/dlmalloc.c:3802-3838 | Serves from the smallest tree chunk: whole when the rest would be below MIN_CHUNK_SIZE, else cut to exactly the size, and the rest becomes the victim |
| `Tmalloc.MallocSmall` | Bridge/src/main/whale/src/libffi/dlmalloc.c:4158-4210 | Serves from the smallest binned chunk that fits, nearly exact or when the victim is too small; declines exactly otherwise |
| `Tmalloc.MallocExact` | Bridge/src/main/whale/src/libffi/dlmalloc.c:4165-4176 | A remainderless fit: the first chunk of the bin, used whole |
| `Tmalloc.MallocNextBin` | Bridge/src/main/whale/src/libffi/dlmalloc.c:4179-4203 | The first chunk of the next non-empty small bin; it is used whole, or cut to exactly the size and its rest replaces the victim |
| `Tmalloc.ReplaceDv` | Bridge/src/main/whale/src/libffi/dlmalloc.c:3029-3038 | The old victim is empty or small and goes to its small bin, the new one takes over |
| `BestFit.FindBestFit` | Bridge/src/main/whale/src/libffi/dlmalloc.c:3729-3777 | The walk, the deepest untaken right subtree, the next bin and the leftmost descent together find the least size at or above nb among all tree chunks, null exactly if there is none |
| `BestFit.FindSmallest` | Bridge/src/main/whale/src/libffi/dlmalloc.c:3802-3820 | Leftmost descent from the lowest marked bin finds the smallest tree chunk |
| `BestFit.WalkBin` | Bridge/src/main/whale/src/libffi/dlmalloc.c:3736-3758 | The bit-guided walk and the untaken subtree cover every candidate of the bin |
| `BestFit.NextBinCovers` | Bridge/src/main/whale/src/libffi/dlmalloc.c:3760-3768 | The bin picked by left_bits and least_bit holds the least sizes above the request's bin |
| `BestFit.Descend` | Bridge/src/main/whale/src/libffi/dlmalloc.c:3770-3777 | Following left children meets the smallest size of a subtree |
| `TreeBins.InsertLargeChunk` | Bridge/src/main/whale/src/libffi/dlmalloc.c:3043-3092 | Exactly one chunk is added: alone in a new node, or right behind the chunk of its size that is in the tree; the tries keep their shape, rings and bitmap; only links of the chunk and of tree chunks change |
| `TreeBins.FindPlace` | Bridge/src/main/whale/src/libffi/dlmalloc.c:3057-3064 | The walk by size bits ends at the node of the size, or at the empty slot where it belongs |
| `TreeBins.HangInv` | Bridge/src/main/whale/src/libffi/dlmalloc.c:3050-3069 | A new leaf in that slot, or a new root, keeps the trie invariant |
| `TreeBins.ChainInv` | Bridge/src/main/whale/src/libffi/dlmalloc.c:3076-3084 | A chunk chained to its equal keeps the ring |
| `TreeUnlink.UnlinkLargeChunk` | Bridge/src/main/whale/src/libffi/dlmalloc.c:3111-3180 | Exactly one chunk is removed, whichever of the cases it is, and the invariant is kept; its ring closes over it, and where it was in the tree itself the one chained before it is now; every other ring is as before |
| `TreeUnlink.FindLeaf` | Bridge/src/main/whale/src/libffi/dlmalloc.c:3127-3133 | The rightmost-first descent ends at a leaf below the node, and at none just when it has no child |
| `TreeUnlink.GraftInv` | Bridge/src/main/whale/src/libffi/dlmalloc.c:3141-3179 | A ring mate or a leaf in the place of the node keeps the trie invariant |
| `TreeUnlink.PruneInv` | Bridge/src/main/whale/src/libffi/dlmalloc.c:3143-3152 | Emptying a slot of a childless node keeps it, clearing the bin's bit when it was the root |
| `TriePaths.BelowRoot` | Bridge/src/main/whale/src/libffi/dlmalloc.c:2706-2754 | Every size of a bin lies below the bin's root on the path of its bits |
| `TriePaths.ChildToward` | Bridge/src/main/whale/src/libffi/dlmalloc.c:2706-2754 | The child on the side of the tested bit leads towards a size |
| `BinIndex.TreeIndexBrackets` | Bridge/src/main/whale/src/libffi/dlmalloc.c:2317-2348 | For every size from 256 on: minsize(I) <= S, and S < minsize(I + 1) below the last bin |
| `BinIndex.LeadingBitIsLog` | Bridge/src/main/whale/src/libffi/dlmalloc.c:2324-2333 | The branch-free bit search finds the leading one |
| `BinIndex.TreeIndexMonotone` | Bridge/src/main/whale/src/libffi/dlmalloc.c:2317-2336 | Larger sizes never go to lower bins |
| `BinIndex.SameBinSamePrefix` | Bridge/src/main/whale/src/libffi/dlmalloc.c:2338-2344 | Sizes of one bin agree in all bits above those its trie resolves |
| `BinMaps.NextBin` | Bridge/src/main/whale/src/libffi/dlmalloc.c:3760-3768 | left_bits and least_bit select the lowest marked bin above i, none exactly if none is marked |
| `BinMaps.ThisBinOrNext` | Bridge/src/main/whale/src/libffi/dlmalloc.c:4162-4167 | The two low bits of the shifted map tell whether this small bin or the next has a chunk, and which |
| `BinMaps.NextSmallBin` | Bridge/src/main/whale/src/libffi/dlmalloc.c:4179-4185 | The shifted map's left bits select the lowest marked small bin |
| `BinMaps.LeastBitIsLowestBin` | Bridge/src/main/whale/src/libffi/dlmalloc.c:2368-2395 | compute_bit2idx of least_bit is the lowest marked bin |
| `SmallBins.InsertSmallChunk` | Bridge/src/main/whale/src/libffi/dlmalloc.c:2972-2988 | Exactly one chunk is added at the front of its bin, relying on the bit and not on the stale header |
| `SmallBins.UnlinkSmallChunk` | Bridge/src/main/whale/src/libffi/dlmalloc.c:2991-3008 | Exactly one chunk is removed; the last one only clears the bit |
| `SmallBins.UnlinkFirstSmallChunk` | Bridge/src/main/whale/src/libffi/dlmalloc.c:3011-3025 | The same for the first chunk of a bin |
| `Index.InsertChunk` | Bridge/src/main/whale/src/libffi/dlmalloc.c:3184-3186 | Exactly one chunk is added to the index, small or large |
| `Index.UnlinkChunk` | Bridge/src/main/whale/src/libffi/dlmalloc.c:3188-3190 | Exactly one chunk is removed from it |
| `Rings.RingInsert` | Bridge/src/main/whale/src/libffi/dlmalloc.c:2972-2988 | Linking in behind a member yields the ring with it inserted |
| `Rings.RingRemove` | Bridge/src/main/whale/src/libffi/dlmalloc.c:2991-3008 | Linking the neighbours to each other yields the ring without it |
| `Heap.PatchPhys` | Bridge/src/main/whale/src/libffi/dlmalloc.c:2658-2689 | Replacing whole chunks by others that fit keeps boundary tags, feet and the order of chunks |
| `HeapSteps.Coalesce` | Bridge/src/main/whale/src/libffi/dlmalloc.c:4334-4347 | Whole chunks before a used one become one free chunk |
| `Taking.TakeFront` | Bridge/src/main/whale/src/libffi/dlmalloc.c:3786-3792 | The front of a free chunk becomes a block, the rest a free chunk |
| `Taking.TakeFromTop` | Bridge/src/main/whale/src/libffi/dlmalloc.c:4241-4251 | The front of top becomes a block |
| `FromSystem.SysAlloc` | Bridge/src/main/whale/src/libffi/dlmalloc.c:3429-3618 | With a region from mmap the request succeeds exactly if rsize > nb, wherever the region lies; the block has exactly nb bytes and lies at the place that the region's position names: at the lower end of top, of the region, or of the new segment; what becomes of the rest, of an old top, the record and the fenceposts is stated exactly; the footprint grows by rsize; without a region nothing changes |
| `FromSystem.RegionLaw` | Bridge/src/main/whale/src/libffi/dlmalloc.c:3551-3613 | What a region comes to: a block of exactly nb bytes, the footprint larger by the region; appended, top grows by the region less nb; at first, top is the region less nb and the trailer |
| `FromSystem.SysRequestFits` | Bridge/src/main/whale/src/libffi/dlmalloc.c:3519-3530 | rsize > nb exactly when nothing wraps, for every nb up to MAX_SIZE_T; then it is the whole number of granules above the chunk, the segment end and one byte more, by one granule at most |
| `FromSystem.FirstTime` | Bridge/src/main/whale/src/libffi/dlmalloc.c:3556-3569 | The first region becomes top, with empty small bins |
| `FromSystem.AppendRegion` | Bridge/src/main/whale/src/libffi/dlmalloc.c:3576-3583 | A region behind the segment of top extends top |
| `FromSystem.PrependAlloc` | Bridge/src/main/whale/src/libffi/dlmalloc.c:3331-3370 | The block at the front of a prepended region is live; the rest joins top if that follows, else the victim if that follows, else a free chunk that follows, else it is a free chunk alone, of exactly the joint size |
| `FromSystem.AddSegment` | Bridge/src/main/whale/src/libffi/dlmalloc.c:3374-3424 | The old segment is closed with its record, fenceposts up to its end and, when there is room, a free chunk of what is left of old top; the list has the new segment first and the old one's record in its place; the region becomes top |
| `FromSystem.PlaceRegion` | Bridge/src/main/whale/src/libffi/dlmalloc.c:3551-3602 | Which case applies and what it gives: first region, extension of the newest segment, a block from below a segment, a segment of its own, each exactly when the cases before do not apply |
| `FromSystem.InitTop` | Bridge/src/main/whale/src/libffi/dlmalloc.c:3287-3299 | Top and its trailer are marked |
| `Adding.ClosingAt` | Bridge/src/main/whale/src/libffi/dlmalloc.c:3376-3421 | The record lies between 96 and 72 bytes before the old end, 72 exactly if MIN_CHUNK_SIZE of top are left, at least two fenceposts follow it, nothing overlaps |
| `Prepending.Prepended` | Bridge/src/main/whale/src/libffi/dlmalloc.c:3331-3370 | Prepending keeps the three views in agreement |
| `Regions.EndMoved` | Bridge/src/main/whale/src/libffi/dlmalloc.c:3576-3583 | So does a new end of top, further out or further in |
| `Segments.SegmentHolding` | Bridge/src/main/whale/src/libffi/dlmalloc.c:2163-2171 | The first segment that holds an address, or null |
| `Segments.HasSegmentLink` | Bridge/src/main/whale/src/libffi/dlmalloc.c:2174-2182 | Whether a record lies in the segment |
| `Trimming.SysTrim` | Bridge/src/main/whale/src/libffi/dlmalloc.c:3663-3724 | Top is unchanged or keeps more than pad + TOP_FOOT_SIZE bytes, by one granule at most, and the latter always when the first munmap succeeds; vacant segments go as far as munmap succeeds; trim_check is set anew when top shrinks and is MAX_SIZE_T when nothing was given back; live blocks and their payloads are untouched, and the result tells whether the footprint shrank |
| `Trimming.TrimKeeps` | Bridge/src/main/whale/src/libffi/dlmalloc.c:3669-3672 | The bytes to release are whole granules, as many as leave more than pad bytes: what stays beyond pad is at most one granule, and is the old size modulo the granule |
| `Trimming.SweptClean` | Bridge/src/main/whale/src/libffi/dlmalloc.c:3623-3661 | When every munmap succeeds, no older segment stays that is one free chunk up to TOP_FOOT_SIZE before its end |
| `Trimming.SweptRefused` | Bridge/src/main/whale/src/libffi/dlmalloc.c:3623-3661 | When munmap fails, chunks, segments, footprint and top are as they were; at most a victim that was alone in its segment is in a bin instead |
| `Vacancy.VacantIff` | Bridge/src/main/whale/src/libffi/dlmalloc.c:3621-3638 | The test by which release_unused_segments finds segments without used chunks: it finds one exactly if no block is in it and its record lies TOP_FOOT_SIZE before its end, where it goes exactly if top had room for a chunk when the segment was closed |
| `Vacancy.BlocklessIff` | Bridge/src/main/whale/src/libffi/dlmalloc.c:3636-3637 | No block is in an older segment exactly if one free chunk takes all of it up to its record |
| `Vacancy.VacantStays` | Bridge/src/main/whale/src/libffi/dlmalloc.c:3621-3638 | Two pages with a block of 4008 bytes in each, the first one freed: malloc_trim releases nothing, though no block is in the first page and munmap would succeed |
| `Trimming.ReleaseUnusedSegments` | Bridge/src/main/whale/src/libffi/dlmalloc.c:3623-3661 | Only segments without a live block are dropped; records stay linked; blocks and payloads are untouched |
| `Trimming.SegmentDropped` | Bridge/src/main/whale/src/libffi/dlmalloc.c:3645-3651 | A segment that holds one free chunk besides its own record and fenceposts can go, whatever the munmap does |
| `Trimming.Release` | Bridge/src/main/whale/src/libffi/dlmalloc.c:3635-3655 | The chunk leaves the index, and returns to it if munmap fails; if it was the victim there is none then |
| `Conservation.FootprintConserved` | Bridge/src/main/whale/src/libffi/dlmalloc.c:2828-2884 | Footprint = blocks + free chunks + top and trailer + record, fenceposts and a word for every older segment, and it never exceeds max_footprint |
| `Conservation.NewestConserved` | Bridge/src/main/whale/src/libffi/dlmalloc.c:2828-2856 | The newest segment is tiled without a gap: blocks and free chunks, then top, then the trailer |
| `Conservation.OlderConserved` | Bridge/src/main/whale/src/libffi/dlmalloc.c:2828-2856 | An older segment is tiled without a gap: blocks and free chunks, its record, fenceposts |
| `Conservation.EachIsTile` | Bridge/src/main/whale/src/libffi/dlmalloc.c:2828-2856 | The walk by sizes meets every chunk of the segment |
| `Conservation.FootprintIsWord` | Bridge/src/main/whale/src/libffi/dlmalloc.c:3553-3554 | The sum of segment sizes never wraps |
| `Checks.TraverseAndCheck` | Bridge/src/main/whale/src/libffi/dlmalloc.c:2828-2856 | No assertion fails, and the total is the footprint less fenceposts and a word for every older segment |
| `Checks.TraverseSegment` | Bridge/src/main/whale/src/libffi/dlmalloc.c:2835-2853 | The walk through a segment ends at top or the first fencepost and counts all of its chunks |
| `Checks.BinFind` | Bridge/src/main/whale/src/libffi/dlmalloc.c:2792-2825 | Finds a chunk exactly if it is in the bin of its size |
| `Checks.NodeFacts` | Bridge/src/main/whale/src/libffi/dlmalloc.c:2733-2746 | What do_check_tree asserts of a tree node |
| `Checks.ChildrenOrdered` | Bridge/src/main/whale/src/libffi/dlmalloc.c:2747-2749 | Left children are smaller than right ones |
| `Checks.MemberFacts` | Bridge/src/main/whale/src/libffi/dlmalloc.c:2719-2731 | What do_check_tree asserts of every chunk of a chain |
| `Checks.AroundInuse` | Bridge/src/main/whale/src/libffi/dlmalloc.c:2658-2667 | What do_check_inuse_chunk asserts |
| `Checks.AroundFree` | Bridge/src/main/whale/src/libffi/dlmalloc.c:2669-2689 | What do_check_free_chunk asserts |
| `Checks.AroundTop` | Bridge/src/main/whale/src/libffi/dlmalloc.c:2630-2641 | What do_check_top_chunk asserts |
| `Aggregates.InitializeAggregate` | Bridge/src/main/whale/src/libffi/prep_cif.c:37-92 | Over whatever sizes are already there, succeeds exactly if the elements give a layout, and then leaves and returns the greedy one; on failure the sizes left behind are those of the aggregate, its first bad element, the first bad element of that, and so on, and nothing else is laid out differently |
| `Aggregates.LayoutIsGreedy` | Bridge/src/main/whale/src/libffi/prep_cif.c:61-79 | Offsets are the least multiples at or after the previous end, alignment the maximum, size the least aligned multiple covering the last field |
| `Aggregates.GreedyUnique` | Bridge/src/main/whale/src/libffi/prep_cif.c:61-79 | There is only one such layout |
| `Aggregates.NoLayoutIff` | Bridge/src/main/whale/src/libffi/prep_cif.c:41-56 | There is no layout exactly for aggregates without a size that are empty or malformed, at any depth |
| `Aggregates.FfiAlignRoundsUp` | Bridge/src/main/whale/src/libffi/ffi_common.h:78-78 | FFI_ALIGN on words is rounding up, zero included, for powers of two |
| `Aggregates.Prepare` | Bridge/src/main/whale/src/libffi/prep_cif.c:169-172 | Succeeds exactly if the type counts as laid out over the sizes already there, its own included; what failure leaves behind is stated for every type |
| `Aggregates.SettledAgrees` | Bridge/src/main/whale/src/libffi/prep_cif.c:54-56 | As long as every size that is there is right, types count as exactly their layouts |
| `Aggregates.PrepareTwice` | Bridge/src/main/whale/src/libffi/prep_cif.c:169-172 | Two attempts at any type: the first succeeds exactly if it is not malformed, the second exactly if it is not malformed once the sizes left behind count |
| `Aggregates.RetryAccepted` | Bridge/src/main/whale/src/libffi/prep_cif.c:169-172 | A malformed type is accepted the second time exactly if it has elements and the first is sound, or would itself be accepted the second time while all others are sound over what it left behind |
| `Aggregates.RetryExample` | Bridge/src/main/whale/src/libffi/prep_cif.c:169-172 | A structure of an int and an empty structure, and one that holds only this: refused first, accepted the second time |
| `RawCalls.RoundTrip` | Bridge/src/main/whale/src/libffi/raw_api.c:56-192 | ffi_ptrarray_to_raw then ffi_raw_to_ptrarray gives pointers through which every argument reads as before |
| `RawCalls.PtrArrayToRaw` | Bridge/src/main/whale/src/libffi/raw_api.c:137-192 | Every argument lands in its slot; an integer shorter than a word fills it, with the same unsigned value, or the same two's-complement value if its type is signed; exactly the slots are walked, and nothing changes outside the buffer or in the padding of a slot |
| `RawCalls.RawToPtrArray` | Bridge/src/main/whale/src/libffi/raw_api.c:56-135 | Every pointer is the slot, or what the slot points to for structures and complex numbers; exactly the slots are walked |
| `RawCalls.RawSize` | Bridge/src/main/whale/src/libffi/raw_api.c:34-53 | The size of all slots, plus what complex arguments take beyond a word |
| `RawCalls.ExactUnlessComplex` | Bridge/src/main/whale/src/libffi/raw_api.c:34-53 | The size is exact just when no complex argument is longer than a word |
| `RawCalls.ExtendedLow` | Bridge/src/main/whale/src/libffi/raw_api.c:144-170 | Zero- and sign-extended words keep the value's bytes first |
| `RawCalls.ExtendedMeans` | Bridge/src/main/whale/src/libffi/raw_api.c:144-170 | The widened word has the unsigned value, or the two's-complement value, that the argument's bytes have |
| `RawCalls.SlotFits` | Bridge/src/main/whale/src/libffi/raw_api.c:34-53 | A slot is the least whole number of words that its argument, or the pointer to it, takes; in Java's layout one word, or two for longs and doubles |
| `RawCalls.JavaRoundTrip` | Bridge/src/main/whale/src/libffi/java_raw_api.c:75-241 | The same round trip over the Java layout |
| `RawCalls.JavaPtrArrayToRaw` | Bridge/src/main/whale/src/libffi/java_raw_api.c:156-241 | Java slots: two words for longs and doubles, one for the rest, integers up to 32 bits widened in the same way |
| `RawCalls.JavaRawToPtrArray` | Bridge/src/main/whale/src/libffi/java_raw_api.c:75-154 | Exactly the same slots are walked back |
| `RawCalls.JavaRawSize` | Bridge/src/main/whale/src/libffi/java_raw_api.c:44-72 | And they add up to ffi_java_raw_size |
| `Replacements.Run` | Bridge/src/main/java/android/content/res/XResources.java:90-133 | Any sequence of initObject, isFirstLoad, setReplacement and getReplacement calls on any number of objects is answered as if there were no bitmasks; a lookup answers, unless it meets a null mask, the value last set for the id on an object of the same directory and not forgotten by a later load, or if there is none, or only a null, the one last set for the id on a framework object, or else null |
| `Replacements.LookFinds` | Bridge/src/main/java/android/content/res/XResources.java:597-626 | The same of the model's lookup: the app's own replacement comes before the framework's, and other directories do not matter |
| `Replacements.EntryIs` | Bridge/src/main/java/android/content/res/XResources.java:560-591 | What is recorded for an id and a directory is what the last successful setReplacement on an object of that directory has set, unless a load has forgotten it since |
| `Replacements.DirIs` | Bridge/src/main/java/android/content/res/XResources.java:90-108 | An object's directory is that of the initObject calls that were not refused, and the framework before |
| `Replacements.LoadTells` | Bridge/src/main/java/android/content/res/XResources.java:111-133 | isFirstLoad says no exactly for the framework, and for a file whose time of modification is that of the last call for its directory; it meets a null mask exactly when it has something to forget and every initObject of the object has thrown |
| `Replacements.XResources.GetReplacement` | Bridge/src/main/java/android/content/res/XResources.java:597-626 | For every id > 0 the entry of the object's directory if there is one, else the framework's, whatever the mask says; the null pointer exactly for an app id on an object of an app without a mask |
| `Replacements.NullMaskIff` | Bridge/src/main/java/android/content/res/XResources.java:597-611 | In any sequence of calls a lookup meets the null mask exactly if it is for an app id on an object with an initObject call, every one of which has thrown |
| `Replacements.NullMask` | Bridge/src/main/java/android/content/res/XResources.java:90-105 | Three calls that get there |
| `Replacements.XResources.SetReplacement` | Bridge/src/main/java/android/content/res/XResources.java:560-591 | Records the replacement, only under its id and directory, and flags it; the three refusals and the null pointer case, each with its exact condition |
| `Replacements.XResources.IsFirstLoad` | Bridge/src/main/java/android/content/res/XResources.java:111-133 | Forgets exactly this directory's replacements when the file has changed, and then clears its mask; otherwise the mask stays as it is |
| `Replacements.XResources.InitObject` | Bridge/src/main/java/android/content/res/XResources.java:90-108 | Objects of one directory share one mask; failing leaves the directory set and no mask |
| `Replacements.KeysInRange` | Bridge/src/main/java/android/content/res/XResources.java:571-581 | Both cache keys are in range for every int |
| `Replacements.TestsBit` | Bridge/src/main/java/android/content/res/XResources.java:602-610 | The mask test reads exactly the bit that was set |
| `Replacements.Step` | Bridge/src/main/java/android/content/res/XResources.java:90-133 | One call on one of many objects keeps all of them in step with the model |
| `Nesting.CheckLines` | Bridge/src/main/whale/cpplint.py:2525-2744 | Over the mutable blocks and their deep copies: once every conditional is closed, the stack is that of the lines in first arms |
| `Nesting.FirstArmsOnly` | Bridge/src/main/whale/cpplint.py:2525-2579 | For every line sequence whose conditionals are all closed at the end, the final stack is what #if lines, first arms and #endif lines alone leave; unmatched #else and #endif lines included |
| `Nesting.LastingIsFirstArms` | Bridge/src/main/whale/cpplint.py:2525-2579 | At every moment the stack that will last is the one the first arms so far have left |
| `Nesting.FirstArmsWithoutDirectives` | Bridge/src/main/whale/cpplint.py:2525-2579 | With neutral directive lines these can be left out too: the stack is the same, except that the top block has forgotten that its assembly had just ended when a directive comes last; equal exactly when not both hold |
| `Nesting.AssemblyForgotten` | Bridge/src/main/whale/cpplint.py:2606-2627 | That exception is real: five lines, from an empty stack |
| `Nesting.NeutralLine` | Bridge/src/main/whale/cpplint.py:2606-2627 | All that a bracket-neutral line does is to make the top block forget that assembly has just ended |
| `Nesting.NestingState.UpdatePreprocessor` | Bridge/src/main/whale/cpplint.py:2542-2577 | Saved stacks are deep copies: no block is shared |
| `Nesting.NestingState.UpdateLine` | Bridge/src/main/whale/cpplint.py:2582-2744 | One Update step is one step of the pure model, in place: the laws about the model, those of NestingLaws included, hold of the mutable blocks |
| `Nesting.UpdateBlocks` | Bridge/src/main/whale/cpplint.py:2606-2744 | Counting, declaring, noting and consuming braces in place, as the pure function says whose laws are the next rows |
| `NestingLaws.Brackets` | Bridge/src/main/whale/cpplint.py:2707-2744 | Any braces of a line: each closing brace takes away exactly the block of its own opening brace, on this line or on the stack; what is on top then are the blocks of the opening braces that stay open, in their order, each with the line's number and its kind |
| `NestingLaws.BalancedKeeps` | Bridge/src/main/whale/cpplint.py:2707-2744 | Balanced code leaves a stack whose top has seen its brace exactly as it was |
| `NestingLaws.WaitingBlock` | Bridge/src/main/whale/cpplint.py:2707-2744 | A block that waits for its brace gets the next opening brace and goes with the closing brace for that one; a semicolon or closing parenthesis before it takes exactly that block away |
| `NestingLaws.Lines` | Bridge/src/main/whale/cpplint.py:2582-2744 | Over any lines without namespaces and classes: how many blocks stay, which, and how many braces on top of them are open |
| `NestingLaws.HeadOfLine` | Bridge/src/main/whale/cpplint.py:2629-2705 | A line puts its namespaces on the stack, in their order, then its class unless it is in parentheses or in a template's arguments; its access and kind; the blocks below the top one do not change |
| `NestingLaws.HeadedCode` | Bridge/src/main/whale/cpplint.py:2629-2744 | A namespace or class from its head to its closing brace, on any number of lines with balanced code inside: the block is on top until the brace, and then the stack is as before |
| `NestingLaws.ForwardDeclaration` | Bridge/src/main/whale/cpplint.py:2728-2738 | A class head and a semicolon leave no block |
| `NestingLaws.AssemblyIff` | Bridge/src/main/whale/cpplint.py:2606-2627 | A block is inside inline assembly exactly while the parenthesis is open with which the assembly began, over any lines without braces |
| `NestingLaws.TopAfter` | Bridge/src/main/whale/cpplint.py:2606-2627 | Such lines change the top block alone, and its open parentheses by those of the lines |
| `NestingLaws.ClassLines` | Bridge/src/main/whale/cpplint.py:2676-2690 | Of a class, the access is that of the last specifier, and it is derived exactly if a line before its brace had a bare colon; no other block has either |
| `NestingLaws.SavedBefore` | Bridge/src/main/whale/cpplint.py:2542-2577 | What is kept for each open conditional is the stack before its own #if |
| `NestingLaws.Opener` | Bridge/src/main/whale/cpplint.py:2542-2577 | And there is such an #if for each |
| `NestingLaws.LaterArms` | Bridge/src/main/whale/cpplint.py:2550-2562 | Behind an #else or #elif the stack is that before the #if it belongs to, and then the line's own effect |

## Left out

- Directly mapped chunks (mmap_alloc, mmap_resize, the mapped branch of dlfree): dead under closures.c's threshold. The test for them is there and never succeeds.
- MORECORE, MSPACES, FOOTERS, PROCEED_ON_ERROR, locks, statistics, mallopt, valloc and pvalloc: configuration, or near-duplicates of what is modelled.
- Code addresses of closures (exec offsets), the temp-file mapping and the trampoline tables of closures.c: operating-system plumbing; only the freedom of check_segment_merge to refuse is kept.
- The assembler variants of compute_tree_index and compute_bit2idx, and the branch-free variant of the latter: the portable index search and the ffs variant are modelled.
- Memalign.InternalMemalign: alignments above 2^63 are excluded: the rounding loop does not end for them (Alignment.NeverReached).
- Ialloc.Ialloc: requires that the total size does not overflow (Ialloc.RoomIffNoOverflow says why); a pointer array of the caller's that is not a block of this heap is not written in the model, and the pointers are stored when all elements have been split off, not one by one.
- Clients.Run: bytes in payloads are kept in a map of their own; a store also scribbles over every chunk word at its address, with an arbitrary value, instead of the value it spells.
- FromSystem.PrependAlloc: the header of the new block is written when the old first chunk has been unlinked, not before; the two steps touch different words.
- Payload.OwnBytes: word sizes only; alignment of payloads is in Clients.HeldIsSound.
- Aggregates.InitializeAggregate: requires that no aggregate comes to more than 2^63 bytes and that basic types have power-of-two alignments; FFI_AGGREGATE_ALIGNMENT is not defined.
- The byte count of ffi_prep_cif_core: compiled out on the targets that allocate stack space themselves.
- RawCalls.PtrArrayToRaw: little-endian with 8-byte words; basic types are required to have their sizes; the buffer does not overlap the arguments. RawCalls.JavaPtrArrayToRaw covers the types Java has.
- Replacements.Run: one call at a time; static setReplacement with no object is the one on a framework object. Cache bytes are taken as unsigned bit patterns; files' times of modification are parameters.
- Nesting.UpdateBlocks: lines are taken as the regular expressions split them; error reports, previous_stack_top, class_indent and last_line are left out; _PreprocessorInfo is a value.
- The rest of cpplint (style checks, FindEndOfExpressionInLine, CloseExpression), ART hooking, JNI, the assembler helpers: not connected to the properties above, or foreign calls.
