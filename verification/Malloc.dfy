/** dlmalloc. */
module Malloc {
  import opened Words
  import opened BinIndex
  import opened Rings
  import opened Trie
  import opened State
  import opened Index
  import opened Heap
  import opened Payload
  import opened Plans
  import opened Invariant
  import opened Taking
  import opened InOut
  import opened Tmalloc
  import opened Regions
  import opened FromSystem

  const MAX_SMALL_REQUEST: int := 240
  const MIN_REQUEST: int := 23
  const MAX_REQUEST: int := W64 - 128

  /** The chunk size dlmalloc looks for; the largest word stands for a request that cannot be met. */
  function ChunkSize(bytes: int): (nb: int)
    requires IsWord(bytes)
    ensures nb == MAX_SIZE_T || (nb % 8 == 0 && bytes + 8 <= nb && nb < bytes + 40)
    ensures IsWord(nb) && nb >= MIN_CHUNK_SIZE
    ensures nb < MIN_LARGE_SIZE <==> bytes <= MAX_SMALL_REQUEST
    ensures nb == MAX_SIZE_T <==> bytes >= MAX_REQUEST
  {
    if bytes <= MAX_SMALL_REQUEST then (if bytes < MIN_REQUEST then MIN_CHUNK_SIZE else PadRequest(bytes))
    else if bytes >= MAX_REQUEST then MAX_SIZE_T
    else PadRequest(bytes)
  }

  /** No free chunk other than top holds `nb` bytes. */
  ghost predicate NoFit(c: Chunks, nb: int) {
    forall x :: x in c && c[x].use == Free ==> c[x].size < nb
  }

  /** No free chunk, not top, and not the system has room for a chunk of `nb` bytes. */
  ghost predicate Refused(c: Chunks, topsize: int, g: int, nb: int, mp: int)
    requires GranularityOk(g) && IsWord(nb)
  {
    NoFit(c, nb) && topsize <= nb && (mp == CMFAIL || SysRequest(g, nb) <= nb)
  }

  /** The victim serves a small request: it fits, and no kept chunk is nearly exact. */
  ghost predicate VictimPick(c: Chunks, dv: int, dvsize: int, p: int, nb: int) {
    && p == dv && p in c && c[p] == Chunk(dvsize, Free) && nb <= dvsize && NoneKept(c, dv, nb, nb + 8)
    && (nb + 16 <= MIN_LARGE_SIZE ==> NoneKept(c, dv, nb, nb + 16))
  }

  /** The free chunk that serves a request: for a large one the best fit of all, and among equals the victim. */
  ghost predicate Chosen(c: Chunks, dv: int, dvsize: int, p: int, nb: int) {
    if nb >= MIN_LARGE_SIZE then Best(c, p, nb) && (p != dv && nb <= dvsize ==> c[p].size < dvsize)
    else SmallPick(c, dv, dvsize, p, nb) || VictimPick(c, dv, dvsize, p, nb)
  }

  /** A request of `nb` bytes is served: from the free chunk `p`, if any holds it, and else from top, and else from the
      region that the system maps at `mp`. */
  ghost function Malloced(s: Plan, p: int, nb: int, mp: int): Plan {
    if !NoFit(s.heap, nb) then Cut(s, p, nb)
    else if nb < s.topsize then CutTop(s, nb)
    else FromRegion(s, mp, mp + RegionSize(s, nb), nb)
  }

  ghost function RegionSize(s: Plan, nb: int): int {
    if GranularityOk(s.rules.granularity) && IsWord(nb) then SysRequest(s.rules.granularity, nb) else 0
  }

  /** Where the block is when no free chunk holds it. */
  ghost function NewBlockAt(s: Plan, nb: int, mp: int): int {
    if nb < s.topsize then s.top else RegionBlock(s, mp)
  }

  /** The place the rules name: a best free chunk, or else top, or else the region. */
  ghost predicate Picks(s: Plan, p: int, nb: int, mp: int) {
    if NoFit(s.heap, nb) then p == NewBlockAt(s, nb, mp) else Chosen(s.heap, s.dv, s.dvsize, p, nb)
  }

  // ---- using the designated victim

  lemma DvSplitViews(w: World, v: BinView, a: Memory, nb: int)
    requires ViewsExcept(w, {}) && BinsInv(w.head, v) && v.small == w.small && v.nodes == w.nodes
    requires a.head == w.head && a.foot == w.foot
    requires nb >= MIN_CHUNK_SIZE && nb % 8 == 0 && w.dvsize - nb >= MIN_CHUNK_SIZE
    ensures var p, s, r, rsize := w.dv, w.dvsize, w.dv + nb, w.dvsize - nb;
      var h', foot' := w.head[p := Head(nb, true, true)][r := Head(rsize, false, true)], w.foot[p + s := rsize];
      var heap' := Patch(w.heap, p, p + s, Two(p, Chunk(nb, Live), Chunk(rsize, Free)));
      && ViewsExcept(w.(head := h', foot := foot', heap := heap', dv := r, dvsize := rsize), {}) && BinsInv(h', v)
      && Given(w.heap, heap', p, nb) && Quiet(a, a.(head := h', foot := foot'), Lives(w.heap))
  {
    hide ViewsExcept, BinsInv, Given, Quiet, Lives, Patch, Two;
    var p, s, r, rsize := w.dv, w.dvsize, w.dv + nb, w.dvsize - nb;
    var h', foot' := w.head[p := Head(nb, true, true)][r := Head(rsize, false, true)], w.foot[p + s := rsize];
    var heap' := Patch(w.heap, p, p + s, Two(p, Chunk(nb, Live), Chunk(rsize, Free)));
    DvOut(w, {});
    assert {} + {p} == {p} && {r} - {r} == {};
    var w0 := w.(dv := 0, dvsize := 0);
    TakeFrontViews(w0, v, a, p, nb, s);
    DvIn(w0.(head := h', foot := foot', heap := heap'), {r}, r, rsize);
  }

  lemma DvWholeViews(w: World, v: BinView, a: Memory)
    requires ViewsExcept(w, {}) && BinsInv(w.head, v) && v.small == w.small && v.nodes == w.nodes
    requires a.head == w.head && a.foot == w.foot && w.dvsize != 0
    ensures var p, s := w.dv, w.dvsize;
      var h' := SetPinuse(w.head[p := Head(s, true, true)], p + s, true);
      var heap' := Patch(w.heap, p, p + s, map[p := Chunk(s, Live)]);
      && ViewsExcept(w.(head := h', heap := heap', dv := 0, dvsize := 0), {}) && BinsInv(h', v)
      && Given(w.heap, heap', p, s) && Quiet(a, a.(head := h'), Lives(w.heap))
  {
    hide ViewsExcept, BinsInv, Given, Quiet, Lives, Patch;
    DvOut(w, {});
    assert {} + {w.dv} == {w.dv};
    TakeWholeViews(w.(dv := 0, dvsize := 0), v, a, w.dv, w.dvsize);
  }

  method PutDvSplit(m: Mstate, nb: int, ghost heap': Chunks) returns (p: int)
    requires nb > 0
    modifies m`dv, m`dvsize, m`head, m`foot, m`heap
    ensures p == old(m.dv) && m.dv == p + nb && m.dvsize == old(m.dvsize) - nb && m.heap == heap'
    ensures m.head == old(m.head)[p := Head(nb, true, true)][p + nb := Head(m.dvsize, false, true)]
    ensures m.foot == old(m.foot)[p + old(m.dvsize) := m.dvsize]
  {
    p := m.dv;
    var rsize := m.dvsize - nb;
    var r := p + nb;
    m.dv := r;
    m.dvsize := rsize;
    m.head := m.head[r := Head(rsize, false, true)];
    m.foot := m.foot[r + rsize := rsize];
    m.head := m.head[p := Head(nb, true, true)];
    m.heap := heap';
  }

  /** The same, told of the views. */
  method WriteDvSplit(m: Mstate, nb: int, ghost heap': Chunks) returns (p: int)
    requires nb > 0
    modifies m`dv, m`dvsize, m`head, m`foot, m`heap
    ensures p == old(m.dv) && m.dv == p + nb && m.dvsize == old(m.dvsize) - nb && m.heap == heap'
    ensures m.head == old(m.head)[p := Head(nb, true, true)][p + nb := Head(m.dvsize, false, true)]
    ensures m.foot == old(m.foot)[p + old(m.dvsize) := m.dvsize]
    ensures WorldOf(m) == old(WorldOf(m)).(head := m.head, foot := m.foot, heap := heap', dv := m.dv, dvsize := m.dvsize)
    ensures BinsOf(m) == old(BinsOf(m)) && LedgerOf(m) == old(LedgerOf(m))
    ensures MemoryOf(m) == old(MemoryOf(m)).(head := m.head, foot := m.foot)
  {
    hide HeadAt;
    p := PutDvSplit(m, nb, heap');
  }

  method PutDvWhole(m: Mstate, ghost heap': Chunks) returns (p: int)
    modifies m`dv, m`dvsize, m`head, m`heap
    ensures p == old(m.dv) && m.dv == 0 && m.dvsize == 0 && m.heap == heap'
    ensures m.head == SetPinuse(old(m.head)[p := Head(old(m.dvsize), true, true)], p + old(m.dvsize), true)
  {
    p := m.dv;
    var dvs := m.dvsize;
    m.dvsize := 0;
    m.dv := 0;
    m.head := m.head[p := Head(dvs, true, true)];
    m.head := SetPinuse(m.head, p + dvs, true);
    m.heap := heap';
  }

  /** The same, told of the views. */
  method WriteDvWhole(m: Mstate, ghost heap': Chunks) returns (p: int)
    modifies m`dv, m`dvsize, m`head, m`heap
    ensures p == old(m.dv) && m.dv == 0 && m.dvsize == 0 && m.heap == heap'
    ensures m.head == SetPinuse(old(m.head)[p := Head(old(m.dvsize), true, true)], p + old(m.dvsize), true)
    ensures WorldOf(m) == old(WorldOf(m)).(head := m.head, heap := heap', dv := 0, dvsize := 0)
    ensures BinsOf(m) == old(BinsOf(m)) && LedgerOf(m) == old(LedgerOf(m)) && MemoryOf(m) == old(MemoryOf(m)).(head := m.head)
  {
    hide SetPinuse;
    p := PutDvWhole(m, heap');
  }

  method SplitDv(m: Mstate, nb: int) returns (p: int)
    requires Valid(m) && nb >= MIN_CHUNK_SIZE && nb % 8 == 0 && m.dvsize - nb >= MIN_CHUNK_SIZE
    modifies m`dv, m`dvsize, m`head, m`foot, m`heap
    ensures Valid(m) && p == old(m.dv) && Given(old(m.heap), m.heap, p, nb)
    ensures Quiet(old(MemoryOf(m)), MemoryOf(m), Lives(old(m.heap)))
    ensures HeadAt(m.head, p).pinuse
    ensures PlanOf(m) == Cut(old(PlanOf(m)), p, nb)
  {
    hide ViewsExcept, BinsInv, BooksInv, TotalSize, Given, Quiet, Lives, Patch, Two, WorldOf, BinsOf, LedgerOf, MemoryOf, ValidExcept, Cut, FreeAt;
    ghost var w, v, a := WorldOf(m), BinsOf(m), MemoryOf(m);
    VictimChunk(m);
    CutPart(PlanOf(m), m.dv, m.dvsize, nb);
    TakenApart(m, {});
    DvSplitViews(w, v, a, nb);
    p := WriteDvSplit(m, nb, Patch(m.heap, m.dv, m.dv + m.dvsize, Two(m.dv, Chunk(nb, Live), Chunk(m.dvsize - nb, Free))));
    PutTogether(m, WorldOf(m), v, LedgerOf(m), {});
  }

  method ExhaustDv(m: Mstate, ghost nb: int) returns (p: int)
    requires Valid(m) && m.dvsize != 0 && m.dvsize - nb < MIN_CHUNK_SIZE
    modifies m`dv, m`dvsize, m`head, m`heap
    ensures Valid(m) && p == old(m.dv) && Given(old(m.heap), m.heap, p, old(m.dvsize))
    ensures Quiet(old(MemoryOf(m)), MemoryOf(m), Lives(old(m.heap)))
    ensures HeadAt(m.head, p).pinuse
    ensures PlanOf(m) == Cut(old(PlanOf(m)), p, nb)
  {
    hide ViewsExcept, BinsInv, BooksInv, TotalSize, Given, Quiet, Lives, Patch, WorldOf, BinsOf, LedgerOf, MemoryOf, ValidExcept, Cut, FreeAt;
    ghost var w, v, a := WorldOf(m), BinsOf(m), MemoryOf(m);
    VictimChunk(m);
    CutWhole(PlanOf(m), m.dv, m.dvsize, nb);
    TakenApart(m, {});
    DvWholeViews(w, v, a);
    p := WriteDvWhole(m, Patch(m.heap, m.dv, m.dv + m.dvsize, map[m.dv := Chunk(m.dvsize, Live)]));
    PutTogether(m, WorldOf(m), v, LedgerOf(m), {});
  }

  /** The victim is split, or used up when the rest would be too small. */
  method UseDv(m: Mstate, nb: int) returns (p: int)
    requires Valid(m) && nb >= MIN_CHUNK_SIZE && nb % 8 == 0 && nb <= m.dvsize
    modifies m`dv, m`dvsize, m`head, m`foot, m`heap
    ensures Valid(m) && p == old(m.dv) && Served(old(m.heap), m.heap, p, nb)
    ensures Quiet(old(MemoryOf(m)), MemoryOf(m), Lives(old(m.heap)))
    ensures HeadAt(m.head, p).pinuse
    ensures PlanOf(m) == Cut(old(PlanOf(m)), p, nb)
  {
    hide ValidExcept, Given, Quiet, Lives, Served, Cut, MemoryOf;
    ghost var c := m.heap;
    var rsize := m.dvsize - nb;
    if rsize >= MIN_CHUNK_SIZE {
      p := SplitDv(m, nb);
      IsServed(c, m.heap, p, nb, nb);
    } else {
      p := ExhaustDv(m, nb);
      IsServed(c, m.heap, p, nb + rsize, nb);
    }
  }

  /** The victim is a free chunk of its size, and another chunk than none. */
  lemma VictimChunk(m: Mstate)
    requires Valid(m) && m.dvsize != 0
    ensures FreeAt(m.heap, m.dvsize, m.dv)
  {
    hide BinsInv, BooksInv, Phys, SegsInv, TopInv;
  }

  // ---- dlmalloc itself

  lemma NoTreesDvFits(m: Mstate, nb: int)
    requires Valid(m) && m.treemap == 0 && nb >= MIN_LARGE_SIZE
    ensures DvFits(m.heap, m.dvsize, nb)
  {
    hide ViewsExcept, BinsInv, BooksInv;
    NoneInTrees(WorldOf(m), BinsOf(m));
    var w := WorldOf(m);
    forall x | x in w.heap && w.heap[x].use == Free && w.heap[x].size >= nb
      ensures nb <= w.dvsize <= w.heap[x].size
    {
      LargeFree(w, x);
    }
  }

  /** The victim, when there is one, is a free chunk of its size. */
  lemma DvThere(m: Mstate)
    requires Valid(m) && m.dvsize > 0
    ensures m.dv in m.heap && m.heap[m.dv] == Chunk(m.dvsize, Free) && m.dv > 0
  {
    hide BinsInv, BooksInv;
    assert m.dv in m.heap;
    hide ViewsExcept;
    ChunkAddress(m, {}, m.dv);
  }

  /** What the victim means once the bins have been tried. */
  ghost predicate BinsTried(c: Chunks, dv: int, dvsize: int, nb: int) {
    if nb >= MIN_LARGE_SIZE then DvFits(c, dvsize, nb)
    else
      && NoneKept(c, dv, nb, nb + 8) && (nb + 16 <= MIN_LARGE_SIZE ==> NoneKept(c, dv, nb, nb + 16))
      && (nb <= dvsize || forall k :: NoneKept(c, dv, nb, k))
  }

  lemma DvChosen(m: Mstate, nb: int)
    requires Valid(m) && BinsTried(m.heap, m.dv, m.dvsize, nb) && 0 < nb <= m.dvsize
    ensures Chosen(m.heap, m.dv, m.dvsize, m.dv, nb)
  {
    hide ValidExcept;
    DvThere(m);
  }

  lemma NothingFits(m: Mstate, nb: int)
    requires Valid(m) && BinsTried(m.heap, m.dv, m.dvsize, nb) && m.dvsize < nb
    ensures NoFit(m.heap, nb)
  {
    if m.dvsize > 0 {
      DvThere(m);
    }
    NoVictim(m);
    hide ValidExcept;
    forall x | x in m.heap && m.heap[x].use == Free
      ensures m.heap[x].size < nb
    {
      if nb < MIN_LARGE_SIZE && x != m.dv {
        assert NoneKept(m.heap, m.dv, nb, m.heap[x].size + 1);
      }
    }
  }

  lemma NoVictim(m: Mstate)
    requires Valid(m)
    ensures m.dvsize >= 0 && (m.dvsize == 0 ==> m.dv !in m.heap)
  {
    hide BinsInv, BooksInv;
    DvSize(WorldOf(m), {});
    assert m.dv in m.heap ==> ChunkOk(m.head, m.foot, m.heap, m.dv);
  }

  /** The head of a free chunk tells its size. */
  lemma HeadsOfFree(m: Mstate)
    requires Valid(m)
    ensures forall p :: p in m.heap && m.heap[p].use == Free ==> SizeAt(m.head, p) == m.heap[p].size
  {
    hide BinsInv, BooksInv;
    assert forall p :: p in m.heap ==> ChunkOk(m.head, m.foot, m.heap, p);
  }

  /** The bins of dlmalloc: the small bins, or the trees. */
  method TryBins(m: Mstate, nb: int) returns (mem: int)
    requires Valid(m) && nb >= MIN_CHUNK_SIZE && nb % 8 == 0 && IsWord(nb)
    modifies m`fd, m`bk, m`child0, m`child1, m`parent, m`index, m`treebins, m`treemap, m`smallmap, m`small, m`nodes,
             m`head, m`foot, m`heap, m`dv, m`dvsize
    ensures mem == 0 ==> unchanged(m) && BinsTried(m.heap, m.dv, m.dvsize, nb)
    ensures mem != 0 ==> Valid(m) && Served(old(m.heap), m.heap, mem - 16, nb)
    ensures mem != 0 ==> Chosen(old(m.heap), old(m.dv), old(m.dvsize), mem - 16, nb)
    ensures mem != 0 ==> Quiet(old(MemoryOf(m)), MemoryOf(m), Lives(old(m.heap)))
    ensures mem != 0 ==> HeadAt(m.head, mem - 16).pinuse
    ensures mem != 0 ==> PlanOf(m) == Cut(old(PlanOf(m)), mem - 16, nb)
  {
    hide ValidExcept, Given, Quiet, Lives, Served, NoneKept, DvFits, SmallPick, Cut, MemoryOf;
    mem := 0;
    if nb < MIN_LARGE_SIZE {
      mem := MallocSmall(m, nb);
    } else if m.treemap != 0 {
      HeadsOfFree(m);
      mem := TmallocLarge(m, nb);
    } else {
      NoTreesDvFits(m, nb);
    }
  }

  /** dlmalloc: a block of at least the requested size, from the free chunk the rules name, from top, or
      from a new region; null only when all three fail. The footprint grows by a new region, and never else. */
  method Dlmalloc(m: Mstate, bytes: int, mp: int) returns (mem: int)
    requires Valid(m) && IsWord(bytes)
    requires mp == CMFAIL || Fresh(m.segs, mp, mp + SysRequest(m.granularity, ChunkSize(bytes)))
    modifies m
    ensures Valid(m)
    ensures mem == 0 ==> unchanged(m)
    ensures mem == 0 <==> Refused(old(m.heap), old(m.topsize), m.granularity, ChunkSize(bytes), mp)
    ensures mem != 0 ==> Served(old(m.heap), m.heap, mem - 16, ChunkSize(bytes))
    ensures mem != 0 ==> Quiet(old(MemoryOf(m)), MemoryOf(m), Lives(old(m.heap)))
    ensures mem != 0 ==> Picks(old(PlanOf(m)), mem - 16, ChunkSize(bytes), mp)
    ensures mem != 0 ==> PlanOf(m) == Malloced(old(PlanOf(m)), mem - 16, ChunkSize(bytes), mp)
    ensures mem != 0 ==> HeadAt(m.head, mem - 16).pinuse
    ensures m.footprint == old(m.footprint)
              + (if mem != 0 && NoFit(old(m.heap), ChunkSize(bytes)) && old(m.topsize) <= ChunkSize(bytes)
                 then SysRequest(m.granularity, ChunkSize(bytes)) else 0)
    ensures m.maxFootprint == (if m.footprint > old(m.maxFootprint) then m.footprint else old(m.maxFootprint))
  {
    hide ValidExcept, Given, Quiet, Lives, Served, Chosen, BinsTried, SysRequest, NoFit, Fresh, Cut, CutTop, MemoryOf, FromRegion, RegionBlock;
    var nb := ChunkSize(bytes);
    mem := 0;
    WithinMaximum(m);
    Granule(m);
    SizesAreWords(m, nb);
    if nb != MAX_SIZE_T {
      mem := TryBins(m, nb);
    }
    if mem != 0 {
      ChosenFits(old(m.heap), old(m.dv), old(m.dvsize), mem - 16, nb);
    } else if nb <= m.dvsize {
      DvThere(m);
      DvChosen(m, nb);
      ChosenFits(m.heap, m.dv, m.dvsize, m.dv, nb);
      var p := UseDv(m, nb);
      mem := p + 16;
    } else {
      if nb != MAX_SIZE_T {
        NothingFits(m, nb);
      }
      if nb < m.topsize {
        TopPlace(m);
        ghost var c := m.heap;
        var p := TakeFromTop(m, nb);
        IsServed(c, m.heap, p, nb, nb);
        mem := p + 16;
      } else {
        mem := SysAlloc(m, nb, mp);
      }
    }
  }

  lemma WithinMaximum(m: Mstate)
    requires Valid(m)
    ensures m.footprint <= m.maxFootprint
  {
    hide BinsInv, ViewsExcept, TotalSize;
  }

  /** The largest word as a chunk size is never served. */
  lemma HugeRefused(m: Mstate, mp: int)
    requires Valid(m)
    ensures GranularityOk(m.granularity) && Refused(m.heap, m.topsize, m.granularity, MAX_SIZE_T, mp)
  {
    hide Valid, NoFit, SysRequest;
    Granule(m);
    SizesAreWords(m, MAX_SIZE_T);
    SysRequestFits(m.granularity, MAX_SIZE_T);
  }

  /** No chunk is as large as the largest word. */
  lemma SizesAreWords(m: Mstate, nb: int)
    requires Valid(m)
    ensures nb == MAX_SIZE_T ==> NoFit(m.heap, nb) && m.dvsize < nb && m.topsize < nb
  {
    hide BooksInv, BinsInv;
    forall x | x in m.heap
      ensures m.heap[x].size < MAX_SIZE_T
    {
      ChunkAddress(m, {}, x);
    }
    assert m.dvsize != 0 ==> m.dv in m.heap && m.heap[m.dv].size == m.dvsize;
    assert m.top != 0 ==> m.top in m.heap && m.heap[m.top].size == m.topsize;
  }

  lemma ChosenFits(c: Chunks, dv: int, dvsize: int, p: int, nb: int)
    requires Chosen(c, dv, dvsize, p, nb)
    ensures !NoFit(c, nb)
  {
    assert p in c && c[p].use == Free && c[p].size >= nb;
  }

  lemma TopPlace(m: Mstate)
    requires Valid(m) && m.topsize > 0
    ensures m.top > 0
  {
    hide BooksInv, BinsInv;
    TopThere(WorldOf(m));
    assert ChunkOk(m.head, m.foot, m.heap, m.top);
  }
}
