/** Giving a block back: it merges with free neighbours, with the victim or with top. */
module Freeing {
  import opened Words
  import opened BinIndex
  import opened Rings
  import opened Trie
  import opened State
  import opened Index
  import opened Heap
  import opened HeapSteps
  import opened Payload
  import opened Plans
  import opened Invariant
  import opened Taking
  import opened InOut
  import opened Tmalloc

  /** Heap `c'` has the blocks of `c` except `p`. */
  ghost predicate Released(c: Chunks, c': Chunks, p: int) {
    p in Lives(c) && Lives(c') == Lives(c) - {p}
  }

  /** The stretch from `q` up to `b` is the block `p` and what it merges with. */
  ghost predicate Merging(w: World, q: int, b: int, p: int) {
    var c := w.heap;
    && p in c && c[p].use == Live && q <= p < b && Inner(c, q, b)
    && (c[q].use == Live || c[q].use == Free) && HeadAt(w.head, q).pinuse
    && (b - q) % 8 == 0 && b - q >= MIN_CHUNK_SIZE
    && forall y :: y in c && q <= y < b && y != p ==> c[y].use == Free || c[y].use == Top
  }

  /** Where merging may begin: at the block, or at the free chunk its foot leads to. */
  ghost predicate MergeStart(w: World, q: int, p: int) {
    if HeadAt(w.head, p).pinuse then q == p else q == p - At(w.foot, p)
  }

  /** Where merging may end: behind the block, or behind a free chunk or top that follows it. */
  ghost predicate MergeEnd(w: World, b: int, p: int) {
    p in w.heap
    && var n := p + w.heap[p].size;
    n in w.heap && (b == n || ((w.heap[n].use == Free || w.heap[n].use == Top) && b == n + w.heap[n].size))
  }

  /** What surrounds a block. */
  lemma Around(w: World, out: set<int>, p: int)
    requires ViewsExcept(w, out) && p in w.heap && w.heap[p].use == Live
    ensures w.top != 0 && p > 0 && p % 8 == 0
    ensures HeadAt(w.head, p).cinuse && SizeAt(w.head, p) == w.heap[p].size && w.heap[p].size >= MIN_CHUNK_SIZE && w.heap[p].size % 8 == 0
    ensures var n := p + w.heap[p].size;
      && n in w.heap && HeadAt(w.head, n).pinuse && SizeAt(w.head, n) == w.heap[n].size
      && Follows(Live, w.heap[n].use)
      && (HeadAt(w.head, n).cinuse <==> w.heap[n].use == Live || w.heap[n].use == Record)
      && (w.heap[n].use == Top <==> n == w.top)
      && (w.heap[n].use == Free ==> w.heap[n].size >= MIN_CHUNK_SIZE && w.heap[n].size % 8 == 0)
    ensures !HeadAt(w.head, p).pinuse ==>
      var s := At(w.foot, p);
      FreeAt(w.heap, s, p - s) && s >= MIN_CHUNK_SIZE && s % 8 == 0
  {
    assert ChunkOk(w.head, w.foot, w.heap, p);
    var n := p + w.heap[p].size;
    assert ChunkOk(w.head, w.foot, w.heap, n);
    if !HeadAt(w.head, p).pinuse {
      assert ChunkOk(w.head, w.foot, w.heap, p - At(w.foot, p));
    }
    hide IndexExcept, SegsInv, Apart;
  }

  lemma MergeLeft(w: World, q: int, p: int)
    requires Phys(w.head, w.foot, w.heap) && p in w.heap && w.heap[p].use == Live && MergeStart(w, q, p)
    ensures q in w.heap && (q == p || (q + w.heap[q].size == p && w.heap[q].use == Free)) && HeadAt(w.head, q).pinuse
    ensures q % 8 == 0 && w.heap[q].size >= 8
  {
    assert ChunkOk(w.head, w.foot, w.heap, p);
    assert q in w.heap && ChunkOk(w.head, w.foot, w.heap, q);
    hide Phys;
  }

  /** The head and foot words tell where merging begins. */
  lemma MergeFromIs(w: World, out: set<int>, q: int, p: int)
    requires ViewsExcept(w, out) && p in w.heap && w.heap[p].use == Live && MergeStart(w, q, p)
    ensures q == MergeFrom(w.heap, p)
  {
    hide IndexExcept, SegsInv, TopInv;
    MergeLeft(w, q, p);
    Sizes(w.head, w.foot, w.heap);
    forall x | x in w.heap && w.heap[x].use == Free && x + w.heap[x].size == p
      ensures x == q
    {
      assert ChunkOk(w.head, w.foot, w.heap, x);
      assert x < q || q < x || x == q;
    }
  }

  lemma MergeRight(w: World, b: int, p: int)
    requires Phys(w.head, w.foot, w.heap) && p in w.heap && w.heap[p].use == Live && MergeEnd(w, b, p)
    ensures b in w.heap && b % 8 == 0 && p + w.heap[p].size <= b && w.heap[p].size >= MIN_CHUNK_SIZE
  {
    assert ChunkOk(w.head, w.foot, w.heap, p) && ChunkOk(w.head, w.foot, w.heap, p + w.heap[p].size);
    assert b in w.heap && ChunkOk(w.head, w.foot, w.heap, b);
    hide Phys;
  }

  lemma MergeShape(w: World, out: set<int>, q: int, b: int, p: int)
    requires ViewsExcept(w, out) && p in w.heap && w.heap[p].use == Live && MergeStart(w, q, p) && MergeEnd(w, b, p)
    ensures Merging(w, q, b, p)
  {
    hide IndexExcept, SegsInv, TopInv, Phys, Apart, Whole, MergeStart, HeadAt;
    Sizes(w.head, w.foot, w.heap);
    MergeLeft(w, q, p);
    MergeRight(w, b, p);
    MergeWhole(w.heap, q, p, p + w.heap[p].size, b);
  }

  /** Between `q` and `b` there are only `q`, `p` and `n`. */
  lemma MergeWhole(c: Chunks, q: int, p: int, n: int, b: int)
    requires Apart(c) && q in c && p in c && n in c && n == p + c[p].size && forall y :: y in c ==> c[y].size > 0
    requires q == p || q + c[q].size == p
    requires b == n || b == n + c[n].size
    ensures Whole(c, q, b) && forall y :: y in c && q <= y < b ==> y == q || y == p || (y == n && b != n)
  {
    forall y | y in c
      ensures y < q ==> y + c[y].size <= q
      ensures q <= y < b ==> (y == q || y == p || (y == n && b != n)) && y + c[y].size <= b
    {
      assert y < q || y == q || q < y;
      assert y < p || y == p || p < y;
      assert y < n || y == n || n < y;
    }
  }

  /** The head words of a new free chunk, and of the chunk behind it. */
  ghost predicate FreeTags(h: Heads, h': Heads, q: int, b: int) {
    && HeadAt(h', q) == Head(b - q, false, true) && HeadAt(h', b) == HeadAt(h, b).(pinuse := false)
    && forall x :: x != q && x != b ==> HeadAt(h', x) == HeadAt(h, x)
  }

  lemma MergePhys(w: World, q: int, b: int, p: int, h': Heads)
    requires Phys(w.head, w.foot, w.heap) && Merging(w, q, b, p) && FreeTags(w.head, h', q, b)
    requires Follows(Free, w.heap[b].use)
    ensures Phys(h', w.foot[b := b - q], Patch(w.heap, q, b, map[q := Chunk(b - q, Free)]))
  {
    hide Phys, Patch, Whole, Follows;
    Coalesce(w.head, w.foot, w.heap, q, b - q, h');
  }

  lemma ReleasedPatch(c: Chunks, q: int, b: int, p: int, k: Chunk)
    requires q <= p < b && p in c && c[p].use == Live && (k.use == Free || k.use == Top)
    requires forall y :: y in c && q <= y < b && y != p ==> c[y].use != Live
    ensures Released(c, Patch(c, q, b, map[q := k]), p)
    ensures LivesOutside(c, q, b) == Lives(Patch(c, q, b, map[q := k]))
  {
    var c' := Patch(c, q, b, map[q := k]);
    LivesPatch(c, q, b, map[q := k]);
    assert Lives(map[q := k]) == map[];
    assert Lives(c') == LivesOutside(c, q, b);
    assert LivesOutside(c, q, b) == Lives(c) - {p};
  }

  lemma MergeRetag(a: Memory, h': Heads, c: Chunks, q: int, b: int)
    requires FreeTags(a.head, h', q, b) && b in c
    ensures Retag(a, h', a.foot[b := b - q], c, Patch(c, q, b, map[q := Chunk(b - q, Free)]))
  {
    var c' := Patch(c, q, b, map[q := Chunk(b - q, Free)]);
    assert q in c' && c'[q] == Chunk(b - q, Free);
    assert FootOf(c', b);
  }

  /** The views when the stretch has become one free chunk, on its way to the index. */
  lemma Merged(w: World, v: BinView, a: Memory, out: set<int>, q: int, b: int, p: int, h': Heads)
    requires ViewsExcept(w, out) && BinsInv(w.head, v) && v.small == w.small && v.nodes == w.nodes
    requires a.head == w.head && a.foot == w.foot
    requires Merging(w, q, b, p) && FreeTags(w.head, h', q, b) && OutInside(w.heap, out, q, b)
    requires Follows(Free, w.heap[b].use) && !(q <= w.top < b)
    ensures var foot' := w.foot[b := b - q];
      var heap' := Patch(w.heap, q, b, map[q := Chunk(b - q, Free)]);
      && ViewsExcept(w.(head := h', foot := foot', heap := heap'), {q}) && FreeAt(heap', b - q, q)
      && BinsInv(h', v) && Released(w.heap, heap', p) && Quiet(a, a.(head := h', foot := foot'), Lives(heap'))
  {
    hide BinsInv, Phys, IndexExcept, Inner, TopInv, SegsInv, Patch, Quiet, Lives, Released, Retag, LivesOutside;
    var d := map[q := Chunk(b - q, Free)];
    assert FreeOf(d) == {q} && InnerPatch(w.heap, q, b, d) && TopMoves(q, b, d, w.top, w.topsize, w.top, w.topsize);
    MergeInside(w, q, b, p, h');
    MergeNotTop(w, out, q, b, p);
    MergePhys(w, q, b, p, h');
    MergeThere(w.heap, q, b);
    StretchPatched(w, v, out, q, b, d, h', w.foot[b := b - q], w.top, w.topsize);
    ReleasedPatch(w.heap, q, b, p, Chunk(b - q, Free));
    MergeRetag(a, h', w.heap, q, b);
    PatchQuiet(a, h', w.foot[b := b - q], w.heap, q, b, d);
  }

  lemma MergeThere(c: Chunks, q: int, b: int)
    ensures var c' := Patch(c, q, b, map[q := Chunk(b - q, Free)]); FreeAt(c', b - q, q)
  {}

  lemma MergeInside(w: World, q: int, b: int, p: int, h': Heads)
    requires Merging(w, q, b, p) && FreeTags(w.head, h', q, b)
    ensures HeadsInside(w.head, h', q, b) && b in w.heap
  {}

  lemma MergeNotTop(w: World, out: set<int>, q: int, b: int, p: int)
    requires ViewsExcept(w, out) && Merging(w, q, b, p)
    ensures w.top != 0
    ensures !(q <= w.top < b) ==> forall y :: y in w.heap && q <= y < b && y != p ==> w.heap[y].use == Free
  {
    hide BinsInv, Phys, IndexExcept, SegsInv;
  }

  lemma MergeTopPhys(w: World, q: int, b: int, p: int)
    requires Phys(w.head, w.foot, w.heap) && Merging(w, q, b, p) && w.heap[b].use == Trailer
    ensures Phys(w.head[q := Head(b - q, false, true)], w.foot, Patch(w.heap, q, b, map[q := Chunk(b - q, Top)]))
  {
    hide Phys, Patch, Whole, Follows;
    CoalesceTop(w.head, w.foot, w.heap, q, b - q);
  }

  lemma MergeTopInside(w: World, q: int, b: int, p: int)
    requires Merging(w, q, b, p)
    ensures HeadsInside(w.head, w.head[q := Head(b - q, false, true)], q, b) && b in w.heap
  {}

  lemma MergeTopRetag(a: Memory, c: Chunks, q: int, b: int)
    ensures Retag(a, a.head[q := Head(b - q, false, true)], a.foot, c, Patch(c, q, b, map[q := Chunk(b - q, Top)]))
  {
    var c' := Patch(c, q, b, map[q := Chunk(b - q, Top)]);
    assert q in c';
  }

  lemma MergeTopPlace(w: World, out: set<int>, q: int, b: int, p: int)
    requires ViewsExcept(w, out) && Merging(w, q, b, p) && MergeEnd(w, b, p) && q <= w.top < b
    ensures b == w.top + w.topsize && w.heap[b].use == Trailer && w.top == p + w.heap[p].size
    ensures w.segs[0].base <= q && q > 0
  {
    assert ChunkOk(w.head, w.foot, w.heap, q);
    assert w.top in w.heap && w.heap[w.top] == Chunk(w.topsize, Top) && TopInv(w.heap, w.top, w.topsize);
    MergeTopAt(w, q, b, p);
    assert Covered(w.heap, w.segs, q) && BaseOk(w.head, w.heap, w.segs[0]);
    var j :| 0 <= j < |w.segs| && InSeg(w.heap, w.segs[j], q);
    SameSegment(w.head, w.heap, w.segs, w.top, w.topsize, q, b, j);
    assert SegsApart(w.segs);
    hide IndexExcept, Phys;
  }

  lemma MergeTopAt(w: World, q: int, b: int, p: int)
    requires Phys(w.head, w.foot, w.heap) && Merging(w, q, b, p) && MergeEnd(w, b, p) && q <= w.top < b
    requires w.top in w.heap && w.heap[w.top] == Chunk(w.topsize, Top)
    ensures w.top == p + w.heap[p].size && b == w.top + w.topsize
  {
    assert ChunkOk(w.head, w.foot, w.heap, w.top) && Apart(w.heap);
    assert ChunkOk(w.head, w.foot, w.heap, p);
    var n := p + w.heap[p].size;
    assert ChunkOk(w.head, w.foot, w.heap, n);
    TopIsLast(w.head, w.foot, w.heap, w.top, q, b, p);
    assert w.top < n || n < w.top || w.top == n;
  }

  /** Top is followed by its trailer, so no block of the stretch comes after it. */
  lemma TopIsLast(h: Heads, foot: Field, c: Chunks, top: int, q: int, b: int, p: int)
    requires Phys(h, foot, c) && top in c && c[top].use == Top && p in c && Inner(c, q, b) && q <= top && p < b
    ensures p <= top
  {
    assert ChunkOk(h, foot, c, top);
    var t := top + c[top].size;
    assert t in c && c[t].use == Trailer;
    assert p < t || t <= p;
    assert p < top || p == top || top < p;
  }

  /** The views when the stretch has become top. */
  lemma MergedTop(w: World, v: BinView, a: Memory, out: set<int>, q: int, b: int, p: int)
    requires ViewsExcept(w, out) && BinsInv(w.head, v) && v.small == w.small && v.nodes == w.nodes
    requires a.head == w.head && a.foot == w.foot
    requires Merging(w, q, b, p) && MergeEnd(w, b, p) && OutInside(w.heap, out, q, b) && q <= w.top < b
    ensures b == w.top + w.topsize && q > 0
    ensures var h', heap' := w.head[q := Head(b - q, false, true)], Patch(w.heap, q, b, map[q := Chunk(b - q, Top)]);
      && ViewsExcept(w.(head := h', heap := heap', top := q, topsize := b - q), {})
      && BinsInv(h', v) && Released(w.heap, heap', p) && Quiet(a, a.(head := h'), Lives(heap'))
  {
    hide BinsInv, Phys, IndexExcept, Inner, TopInv, SegsInv, Patch, Quiet, Lives, Released, Retag, LivesOutside, MergeEnd;
    var d, h' := map[q := Chunk(b - q, Top)], w.head[q := Head(b - q, false, true)];
    assert FreeOf(d) == {} && InnerPatch(w.heap, q, b, d) && TopMoves(q, b, d, w.top, w.topsize, q, b - q);
    MergeTopPlace(w, out, q, b, p);
    MergeTopInside(w, q, b, p);
    MergeNotTop(w, out, q, b, p);
    MergeTopPhys(w, q, b, p);
    StretchPatched(w, v, out, q, b, d, h', w.foot, q, b - q);
    ReleasedPatch(w.heap, q, b, p, Chunk(b - q, Top));
    MergeTopRetag(a, w.heap, q, b);
    PatchQuiet(a, h', w.foot, w.heap, q, b, d);
    assert a.(head := h') == a.(head := h', foot := w.foot);
  }

  /** The free chunks that merge are those out of the index. */
  lemma MergeOut(w: World, ex: set<int>, q: int, b: int, p: int, out: set<int>)
    requires ViewsExcept(w, ex) && p in w.heap && w.heap[p].use == Live && MergeStart(w, q, p) && MergeEnd(w, b, p)
    requires var n := p + w.heap[p].size;
      out == (if q == p then {} else {q}) + (if b == n || w.heap[n].use != Free then {} else {n})
    ensures OutInside(w.heap, out, q, b)
  {
    hide IndexExcept, SegsInv, TopInv, Phys, Apart, Whole, MergeStart, HeadAt;
    Sizes(w.head, w.foot, w.heap);
    MergeLeft(w, q, p);
    MergeRight(w, b, p);
    MergeWhole(w.heap, q, p, p + w.heap[p].size, b);
  }

  /** The victim takes part in the merger: the merged chunk is the new victim. */
  lemma MergedDv(w: World, v: BinView, a: Memory, out: set<int>, q: int, b: int, p: int, h': Heads)
    requires ViewsExcept(w, out) && BinsInv(w.head, v) && v.small == w.small && v.nodes == w.nodes
    requires a.head == w.head && a.foot == w.foot && w.dvsize != 0
    requires Merging(w, q, b, p) && FreeTags(w.head, h', q, b) && OutInside(w.heap, out + {w.dv}, q, b)
    requires Follows(Free, w.heap[b].use) && !(q <= w.top < b)
    ensures var foot' := w.foot[b := b - q];
      var heap' := Patch(w.heap, q, b, map[q := Chunk(b - q, Free)]);
      && ViewsExcept(w.(head := h', foot := foot', heap := heap', dv := q, dvsize := b - q), {})
      && BinsInv(h', v) && Released(w.heap, heap', p) && Quiet(a, a.(head := h', foot := foot'), Lives(heap'))
  {
    hide BinsInv, ViewsExcept, Inner, Patch, Quiet, Lives, Released, FreeTags, OutInside, Follows;
    var w0 := w.(dv := 0, dvsize := 0);
    DvOut(w, out);
    Merged(w0, v, a, out + {w.dv}, q, b, p, h');
    assert {q} - {q} == {};
    DvIn(w0.(head := h', foot := w.foot[b := b - q], heap := Patch(w.heap, q, b, map[q := Chunk(b - q, Free)])), {q}, q, b - q);
  }

  /** Top takes in the victim as well. */
  lemma MergedTopDv(w: World, v: BinView, a: Memory, q: int, b: int, p: int)
    requires ViewsExcept(w, {}) && BinsInv(w.head, v) && v.small == w.small && v.nodes == w.nodes
    requires a.head == w.head && a.foot == w.foot && w.dvsize != 0
    requires Merging(w, q, b, p) && MergeEnd(w, b, p) && OutInside(w.heap, {w.dv}, q, b) && q <= w.top < b
    ensures b == w.top + w.topsize && q > 0
    ensures var h', heap' := w.head[q := Head(b - q, false, true)], Patch(w.heap, q, b, map[q := Chunk(b - q, Top)]);
      && ViewsExcept(w.(head := h', heap := heap', top := q, topsize := b - q, dv := 0, dvsize := 0), {})
      && BinsInv(h', v) && Released(w.heap, heap', p) && Quiet(a, a.(head := h'), Lives(heap'))
  {
    hide BinsInv, ViewsExcept, Inner, Patch, Quiet, Lives, Released, OutInside;
    DvOut(w, {});
    assert {} + {w.dv} == {w.dv};
    MergedTop(w.(dv := 0, dvsize := 0), v, a, {w.dv}, q, b, p);
  }

  // ---- the words

  /** set_free_with_pinuse. */
  method PutFreeWithPinuse(m: Mstate, q: int, s: int, n: int, ghost heap': Chunks)
    requires s > 0 && n == q + s
    modifies m`head, m`foot, m`heap
    ensures FreeTags(old(m.head), m.head, q, n) && m.foot == old(m.foot)[n := s] && m.heap == heap'
  {
    m.head := SetPinuse(m.head, n, false);
    m.head := m.head[q := Head(s, false, true)];
    m.foot := m.foot[q + s := s];
    m.heap := heap';
  }

  /** The same, told of the views. */
  method WriteFreeWithPinuse(m: Mstate, q: int, s: int, n: int, ghost heap': Chunks)
    requires s > 0 && n == q + s
    modifies m`head, m`foot, m`heap
    ensures FreeTags(old(m.head), m.head, q, n) && m.foot == old(m.foot)[n := s] && m.heap == heap'
    ensures WorldOf(m) == old(WorldOf(m)).(head := m.head, foot := m.foot, heap := heap')
    ensures BinsOf(m) == old(BinsOf(m)) && LedgerOf(m) == old(LedgerOf(m))
    ensures MemoryOf(m) == old(MemoryOf(m)).(head := m.head, foot := m.foot)
  {
    hide FreeTags;
    PutFreeWithPinuse(m, q, s, n, heap');
  }

  /** set_size_and_pinuse_of_free_chunk, behind which pinuse is already clear. */
  method PutFree(m: Mstate, q: int, s: int, ghost n: int, ghost heap': Chunks)
    requires s > 0 && n == q + s && !HeadAt(m.head, n).pinuse
    modifies m`head, m`foot, m`heap
    ensures FreeTags(old(m.head), m.head, q, n) && m.foot == old(m.foot)[n := s] && m.heap == heap'
  {
    m.head := m.head[q := Head(s, false, true)];
    m.foot := m.foot[q + s := s];
    m.heap := heap';
  }

  /** The same, told of the views. */
  method WriteFree(m: Mstate, q: int, s: int, ghost n: int, ghost heap': Chunks)
    requires s > 0 && n == q + s && !HeadAt(m.head, n).pinuse
    modifies m`head, m`foot, m`heap
    ensures FreeTags(old(m.head), m.head, q, n) && m.foot == old(m.foot)[n := s] && m.heap == heap'
    ensures WorldOf(m) == old(WorldOf(m)).(head := m.head, foot := m.foot, heap := heap')
    ensures BinsOf(m) == old(BinsOf(m)) && LedgerOf(m) == old(LedgerOf(m))
    ensures MemoryOf(m) == old(MemoryOf(m)).(head := m.head, foot := m.foot)
  {
    hide FreeTags;
    PutFree(m, q, s, n, heap');
  }

  ghost function FreeHeap(c: Chunks, q: int, b: int): Chunks {
    Patch(c, q, b, map[q := Chunk(b - q, Free)])
  }

  lemma FreeHeapAt(c: Chunks, q: int, b: int)
    ensures FreeAt(FreeHeap(c, q, b), b - q, q)
  {
    assert q in FreeHeap(c, q, b);
  }

  /** Block `p` is being freed: what merges from the left starts at `q`, and is out of the index unless it
      is the victim. */
  ghost predicate FreeingAt(m: Mstate, out: set<int>, q: int, p: int)
    reads m
  {
    && ValidExcept(m, out) && p in m.heap && m.heap[p].use == Live && MergeStart(WorldOf(m), q, p)
    && (q == p || q == m.dv ==> out == {}) && (q != p && q != m.dv ==> out == {q})
  }

  lemma FreeingParts(m: Mstate, out: set<int>, q: int, p: int)
    requires FreeingAt(m, out, q, p)
    ensures ValidExcept(m, out) && p in m.heap && m.heap[p].use == Live && MergeStart(WorldOf(m), q, p)
    ensures (q == p || q == m.dv ==> out == {}) && (q != p && q != m.dv ==> out == {q})
    ensures ViewsExcept(WorldOf(m), out) && BinsInv(m.head, BinsOf(m)) && BooksInv(LedgerOf(m), m.segs, TotalSize(m.segs))
    ensures WorldOf(m) == World(m.head, m.foot, m.heap, m.dv, m.dvsize, m.small, m.nodes, m.segs, m.top, m.topsize)
    ensures BinsOf(m).small == m.small && BinsOf(m).nodes == m.nodes
    ensures MemoryOf(m).head == m.head && MemoryOf(m).foot == m.foot
  {
    hide BinsInv, ViewsExcept, BooksInv, TotalSize;
    TakenApart(m, out);
  }

  /** Everything about the step once its words are written, when the victim is not involved. */
  lemma FreeToBinViews(w: World, v: BinView, a: Memory, out: set<int>, out0: set<int>, q: int, b: int, p: int, h': Heads)
    requires ViewsExcept(w, out) && BinsInv(w.head, v) && v.small == w.small && v.nodes == w.nodes
    requires a.head == w.head && a.foot == w.foot
    requires p in w.heap && w.heap[p].use == Live && MergeStart(w, q, p) && MergeEnd(w, b, p)
    requires var n := p + w.heap[p].size;
      && out == (if q == p then {} else {q}) + (if b == n || w.heap[n].use != Free then {} else {n})
      && n != w.top
    requires FreeTags(w.head, h', q, b) && b in w.heap && Follows(Free, w.heap[b].use)
    ensures var foot', heap' := w.foot[b := b - q], FreeHeap(w.heap, q, b);
      && ViewsExcept(w.(head := h', foot := foot', heap := heap'), {q}) && FreeAt(heap', b - q, q)
      && BinsInv(h', v) && Released(w.heap, heap', p) && Quiet(a, a.(head := h', foot := foot'), Lives(heap'))
  {
    hide BinsInv, ViewsExcept, Inner, Patch, Quiet, Lives, Released, FreeTags, OutInside, Follows;
    MergeShape(w, out, q, b, p);
    MergeOut(w, out, q, b, p, out);
    TopBeyond(w, out, q, b, p);
    Merged(w, v, a, out, q, b, p, h');
  }

  /** Top is not in the stretch unless it follows the block. */
  lemma TopBeyond(w: World, out: set<int>, q: int, b: int, p: int)
    requires ViewsExcept(w, out) && Merging(w, q, b, p) && MergeEnd(w, b, p)
    ensures q <= w.top < b ==> w.top == p + w.heap[p].size
  {
    if q <= w.top < b {
      MergeTopPlace(w, out, q, b, p);
    }
  }

  /** The same when the victim is involved. */
  lemma FreeToDvViews(w: World, v: BinView, a: Memory, out: set<int>, q: int, b: int, p: int, h': Heads)
    requires ViewsExcept(w, out) && BinsInv(w.head, v) && v.small == w.small && v.nodes == w.nodes && w.dvsize != 0
    requires a.head == w.head && a.foot == w.foot
    requires p in w.heap && w.heap[p].use == Live && MergeStart(w, q, p) && MergeEnd(w, b, p)
    requires var n := p + w.heap[p].size;
      && out + {w.dv} == (if q == p then {} else {q}) + (if b == n || w.heap[n].use != Free then {} else {n})
      && n != w.top
    requires FreeTags(w.head, h', q, b) && b in w.heap && Follows(Free, w.heap[b].use)
    ensures var foot', heap' := w.foot[b := b - q], FreeHeap(w.heap, q, b);
      && ViewsExcept(w.(head := h', foot := foot', heap := heap', dv := q, dvsize := b - q), {})
      && FreeAt(heap', b - q, q)
      && BinsInv(h', v) && Released(w.heap, heap', p) && Quiet(a, a.(head := h', foot := foot'), Lives(heap'))
  {
    hide BinsInv, ViewsExcept, Inner, Patch, Quiet, Lives, Released, FreeTags, OutInside, Follows;
    FreeHeapAt(w.heap, q, b);
    MergeShape(w, out, q, b, p);
    MergeOut(w, out, q, b, p, out + {w.dv});
    TopBeyond(w, out, q, b, p);
    MergedDv(w, v, a, out, q, b, p, h');
  }

  /** What follows a free chunk. */
  lemma BehindFree(w: World, out: set<int>, n: int)
    requires ViewsExcept(w, out) && n in w.heap && w.heap[n].use == Free
    ensures var b := n + w.heap[n].size;
      b in w.heap && Follows(Free, w.heap[b].use) && !HeadAt(w.head, b).pinuse && w.heap[n].size > 0
  {
    assert ChunkOk(w.head, w.foot, w.heap, n);
  }

  /** Dlfree's last case: no free chunk follows. */
  method FreePlain(m: Mstate, q: int, psize: int, next: int, ghost out: set<int>, ghost p: int)
    requires FreeingAt(m, out, q, p) && q != m.dv
    requires next == p + m.heap[p].size && HeadAt(m.head, next).cinuse && psize == next - q
    modifies m`fd, m`bk, m`child0, m`child1, m`parent, m`index, m`treebins, m`treemap, m`smallmap, m`small, m`nodes,
             m`head, m`foot, m`heap
    ensures Valid(m) && Released(old(m.heap), m.heap, p) && Quiet(old(MemoryOf(m)), MemoryOf(m), Lives(m.heap))
    ensures FreeAt(m.heap, psize, q)
    ensures m.heap == FreeHeap(old(m.heap), q, next)
  {
    hide ViewsExcept, BinsInv, BooksInv, TotalSize, Quiet, Lives, Released, FreeTags, FreeHeap, FreeAt, MergeStart,
         WorldOf, BinsOf, LedgerOf, MemoryOf, ValidExcept, FreeingAt;
    ghost var w, v, a := WorldOf(m), BinsOf(m), MemoryOf(m);
    FreeingParts(m, out, q, p);
    Around(w, out, p);
    MergeBefore(w, out, q, p);
    WriteFreeWithPinuse(m, q, psize, next, FreeHeap(m.heap, q, next));
    FreeToBinViews(w, v, a, out, out, q, next, p, m.head);
    PutTogether(m, WorldOf(m), v, LedgerOf(m), {q});
    ghost var b := MemoryOf(m);
    Attach(m, q, psize, {q});
    assert {q} - {q} == {};
    QuietTrans(a, b, MemoryOf(m), Lives(m.heap));
  }

  lemma MergeBefore(w: World, out: set<int>, q: int, p: int)
    requires ViewsExcept(w, out) && p in w.heap && w.heap[p].use == Live && MergeStart(w, q, p)
    ensures q <= p
  {
    MergeLeft(w, q, p);
  }

  method WriteIntoDv(m: Mstate, q: int, psize: int, n: int, ghost heap': Chunks)
    requires psize > 0 && n == q + psize
    modifies m`head, m`foot, m`heap, m`dvsize
    ensures FreeTags(old(m.head), m.head, q, n) && m.foot == old(m.foot)[n := psize] && m.heap == heap' && m.dvsize == psize
    ensures WorldOf(m) == old(WorldOf(m)).(head := m.head, foot := m.foot, heap := heap', dvsize := psize)
    ensures BinsOf(m) == old(BinsOf(m)) && LedgerOf(m) == old(LedgerOf(m))
    ensures MemoryOf(m) == old(MemoryOf(m)).(head := m.head, foot := m.foot)
  {
    hide FreeTags;
    m.dvsize := psize;
    WriteFreeWithPinuse(m, q, psize, n, heap');
  }

  method WriteBothIntoDv(m: Mstate, q: int, psize: int, ghost n: int, ghost heap': Chunks)
    requires psize > 0 && n == q + psize && !HeadAt(m.head, n).pinuse
    modifies m`head, m`foot, m`heap, m`dvsize
    ensures FreeTags(old(m.head), m.head, q, n) && m.foot == old(m.foot)[n := psize] && m.heap == heap' && m.dvsize == psize
    ensures WorldOf(m) == old(WorldOf(m)).(head := m.head, foot := m.foot, heap := heap', dvsize := psize)
    ensures BinsOf(m) == old(BinsOf(m)) && LedgerOf(m) == old(LedgerOf(m))
    ensures MemoryOf(m) == old(MemoryOf(m)).(head := m.head, foot := m.foot)
  {
    hide FreeTags;
    WriteFree(m, q, psize, n, heap');
    m.dvsize := psize;
  }

  /** The victim before the block takes it in; what follows is in use. */
  method FreeIntoDv(m: Mstate, q: int, psize: int, next: int, ghost p: int)
    requires FreeingAt(m, {}, q, p) && q == m.dv && q != p
    requires next == p + m.heap[p].size && HeadAt(m.head, next).cinuse && psize == next - q
    modifies m`head, m`foot, m`heap, m`dvsize
    ensures Valid(m) && Released(old(m.heap), m.heap, p) && Quiet(old(MemoryOf(m)), MemoryOf(m), Lives(m.heap))
    ensures FreeAt(m.heap, psize, q) && m.dvsize == psize
    ensures m.heap == FreeHeap(old(m.heap), q, next)
  {
    hide ViewsExcept, BinsInv, BooksInv, TotalSize, Quiet, Lives, Released, FreeTags, FreeHeap, FreeAt, MergeStart,
         WorldOf, BinsOf, LedgerOf, MemoryOf, ValidExcept, FreeingAt;
    ghost var w, v, a := WorldOf(m), BinsOf(m), MemoryOf(m);
    FreeingParts(m, {}, q, p);
    Around(w, {}, p);
    MergeBefore(w, {}, q, p);
    VictimLeft(w, {}, q, p);
    WriteIntoDv(m, q, psize, next, FreeHeap(m.heap, q, next));
    FreeToDvViews(w, v, a, {}, q, next, p, m.head);
    PutTogether(m, WorldOf(m), v, LedgerOf(m), {});
  }

  method WriteFreeDv(m: Mstate, q: int, psize: int, ghost n: int, ghost heap': Chunks)
    requires m.dvsize > 0 && psize > 0 && n == q + psize + m.dvsize && !HeadAt(m.head, n).pinuse
    modifies m`head, m`foot, m`heap, m`dv, m`dvsize
    ensures m.dv == q && m.dvsize == old(m.dvsize) + psize
    ensures FreeTags(old(m.head), m.head, q, n) && m.foot == old(m.foot)[n := m.dvsize] && m.heap == heap'
    ensures WorldOf(m) == old(WorldOf(m)).(head := m.head, foot := m.foot, heap := heap', dv := q, dvsize := m.dvsize)
    ensures BinsOf(m) == old(BinsOf(m)) && LedgerOf(m) == old(LedgerOf(m))
    ensures MemoryOf(m) == old(MemoryOf(m)).(head := m.head, foot := m.foot)
  {
    m.dvsize := m.dvsize + psize;
    var dsize := m.dvsize;
    m.dv := q;
    WriteFree(m, q, dsize, n, heap');
  }

  /** The victim after the block takes it in, with whatever merged from the left. */
  method FreeBeforeDv(m: Mstate, q: int, psize: int, next: int, ghost out: set<int>, ghost p: int)
    requires FreeingAt(m, out, q, p) && next == m.dv && next in m.heap && m.heap[next].use == Free
    requires next == p + m.heap[p].size && psize == next - q
    modifies m`head, m`foot, m`heap, m`dv, m`dvsize
    ensures Valid(m) && Released(old(m.heap), m.heap, p) && Quiet(old(MemoryOf(m)), MemoryOf(m), Lives(m.heap))
    ensures m.dv == q && m.dvsize == old(m.dvsize) + psize && FreeAt(m.heap, m.dvsize, q)
    ensures m.heap == FreeHeap(old(m.heap), q, next + old(m.heap)[next].size)
  {
    hide ViewsExcept, BinsInv, BooksInv, TotalSize, Quiet, Lives, Released, FreeTags, FreeHeap, FreeAt, MergeStart,
         WorldOf, BinsOf, LedgerOf, MemoryOf, ValidExcept, FreeingAt;
    ghost var w, v, a := WorldOf(m), BinsOf(m), MemoryOf(m);
    FreeingParts(m, out, q, p);
    Around(w, out, p);
    MergeBefore(w, out, q, p);
    VictimSize(w, out, next);
    BehindFree(w, out, next);
    WriteFreeDv(m, q, psize, next + m.heap[next].size, FreeHeap(m.heap, q, next + m.heap[next].size));
    FreeToDvViews(w, v, a, out, q, q + m.dvsize, p, m.head);
    PutTogether(m, WorldOf(m), v, LedgerOf(m), {});
  }

  lemma VictimSize(w: World, out: set<int>, n: int)
    requires ViewsExcept(w, out) && n == w.dv && n in w.heap && w.heap[n].use == Free
    ensures w.dvsize == w.heap[n].size && w.dvsize > 0 && w.top != n && n !in out
  {
    Sizes(w.head, w.foot, w.heap);
  }

  /** A free chunk `n` follows and has left its bin; the victim, before the block, takes both in. */
  method FreeBothIntoDv(m: Mstate, q: int, psize: int, ghost n: int, ghost p: int)
    requires ValidExcept(m, {n}) && p in m.heap && m.heap[p].use == Live && MergeStart(WorldOf(m), q, p)
    requires q == m.dv && q != p && m.dvsize != 0
    requires n == p + m.heap[p].size && n in m.heap && m.heap[n].use == Free && psize == n + m.heap[n].size - q
    modifies m`head, m`foot, m`heap, m`dvsize
    ensures Valid(m) && Released(old(m.heap), m.heap, p) && Quiet(old(MemoryOf(m)), MemoryOf(m), Lives(m.heap))
    ensures FreeAt(m.heap, psize, q) && m.dvsize == psize
    ensures m.heap == FreeHeap(old(m.heap), q, q + psize)
  {
    hide ViewsExcept, BinsInv, BooksInv, TotalSize, Quiet, Lives, Released, FreeTags, FreeHeap, FreeAt, MergeStart,
         WorldOf, BinsOf, LedgerOf, MemoryOf, ValidExcept;
    ghost var w, v, a := WorldOf(m), BinsOf(m), MemoryOf(m);
    TakenApart(m, {n});
    Around(w, {n}, p);
    MergeBefore(w, {n}, q, p);
    BehindFree(w, {n}, n);
    WriteBothIntoDv(m, q, psize, q + psize, FreeHeap(m.heap, q, q + psize));
    FreeToDvViews(w, v, a, {n}, q, q + psize, p, m.head);
    PutTogether(m, WorldOf(m), v, LedgerOf(m), {});
  }

  /** A free chunk `n` follows and has left its bin; all that merges goes to a bin. */
  method FreeBothToBin(m: Mstate, q: int, psize: int, ghost out: set<int>, ghost n: int, ghost p: int)
    requires ValidExcept(m, out) && p in m.heap && m.heap[p].use == Live && MergeStart(WorldOf(m), q, p)
    requires out == (if q == p then {} else {q}) + {n}
    requires n == p + m.heap[p].size && n in m.heap && m.heap[n].use == Free && psize == n + m.heap[n].size - q
    modifies m`fd, m`bk, m`child0, m`child1, m`parent, m`index, m`treebins, m`treemap, m`smallmap, m`small, m`nodes,
             m`head, m`foot, m`heap
    ensures Valid(m) && Released(old(m.heap), m.heap, p) && Quiet(old(MemoryOf(m)), MemoryOf(m), Lives(m.heap))
    ensures FreeAt(m.heap, psize, q)
    ensures m.heap == FreeHeap(old(m.heap), q, q + psize)
  {
    hide ViewsExcept, BinsInv, BooksInv, TotalSize, Quiet, Lives, Released, FreeTags, FreeHeap, FreeAt, MergeStart,
         WorldOf, BinsOf, LedgerOf, MemoryOf, ValidExcept;
    ghost var w, v, a := WorldOf(m), BinsOf(m), MemoryOf(m);
    TakenApart(m, out);
    Around(w, out, p);
    MergeBefore(w, out, q, p);
    BehindFree(w, out, n);
    WriteFree(m, q, psize, q + psize, FreeHeap(m.heap, q, q + psize));
    FreeToBinViews(w, v, a, out, out, q, q + psize, p, m.head);
    PutTogether(m, WorldOf(m), v, LedgerOf(m), {q});
    ghost var b := MemoryOf(m);
    Attach(m, q, psize, {q});
    assert {q} - {q} == {};
    QuietTrans(a, b, MemoryOf(m), Lives(m.heap));
  }

  lemma NextKept(w: World, out: set<int>, n: int)
    requires ViewsExcept(w, out) && n in w.heap && w.heap[n].use == Free && n != w.dv && n !in out
    ensures Kept(w.small, w.nodes, w.heap[n].size, n)
  {
    assert FreeAt(w.heap, w.heap[n].size, n);
    hide Kept;
  }

  lemma QuietAfter(a: Memory, b: Memory, d: Memory, c: Chunks, c': Chunks, p: int)
    requires Quiet(a, b, Lives(c)) && Quiet(b, d, Lives(c')) && Released(c, c', p)
    ensures Quiet(a, d, Lives(c'))
  {
    assert Within(Lives(c'), Lives(c));
    hide Quiet, Lives;
    QuietAntitone(a, b, Lives(c'), Lives(c));
    QuietTrans(a, b, d, Lives(c'));
  }

  /** Consolidating forward with a free chunk from the bins. */
  method FreeForward(m: Mstate, q: int, psize: int, next: int, ghost out: set<int>, ghost p: int)
    requires FreeingAt(m, out, q, p) && next == p + m.heap[p].size && psize == next - q
    requires next in m.heap && m.heap[next].use == Free && next != m.dv
    modifies m`fd, m`bk, m`child0, m`child1, m`parent, m`index, m`treebins, m`treemap, m`smallmap, m`small, m`nodes,
             m`head, m`foot, m`heap, m`dvsize
    ensures Valid(m) && Released(old(m.heap), m.heap, p) && Quiet(old(MemoryOf(m)), MemoryOf(m), Lives(m.heap))
    ensures var s := psize + old(m.heap[next].size);
      FreeAt(m.heap, s, q) && m.dvsize == if q == m.dv then s else old(m.dvsize)
    ensures m.heap == FreeHeap(old(m.heap), q, next + old(m.heap)[next].size)
  {
    hide ViewsExcept, BinsInv, BooksInv, TotalSize, Quiet, Lives, Released, FreeAt, MergeStart, Kept, ValidExcept, FreeingAt, BinsOf, MemoryOf, LedgerOf, FreeHeap;
    ghost var w, a, c := WorldOf(m), MemoryOf(m), m.heap;
    FreeingParts(m, out, q, p);
    Around(w, out, p);
    MergeBefore(w, out, q, p);
    NextKept(w, out, next);
    var nsize := SizeAt(m.head, next);
    Detach(m, next, nsize, out);
    ghost var b := MemoryOf(m);
    MergeStartSame(w, WorldOf(m), q, p);
    DvNotLive(w, out, p);
    if q == m.dv {
      VictimLeft(w, out, q, p);
      assert out + {next} == {next};
      FreeBothIntoDv(m, q, psize + nsize, next, p);
    } else {
      FreeBothToBin(m, q, psize + nsize, out + {next}, next, p);
    }
    QuietAfter(a, b, MemoryOf(m), c, m.heap, p);
  }

  lemma MergeStartSame(w: World, w': World, q: int, p: int)
    requires MergeStart(w, q, p) && w'.head == w.head && w'.foot == w.foot
    ensures MergeStart(w', q, p)
  {}

  lemma VictimLeft(w: World, out: set<int>, q: int, p: int)
    requires ViewsExcept(w, out) && p in w.heap && w.heap[p].use == Live && MergeStart(w, q, p) && q == w.dv && q != p
    ensures w.dvsize != 0
  {
    MergeLeft(w, q, p);
    Sizes(w.head, w.foot, w.heap);
  }

  lemma DvNotLive(w: World, out: set<int>, p: int)
    requires ViewsExcept(w, out) && p in w.heap && w.heap[p].use == Live
    ensures p != w.dv
  {
    Sizes(w.head, w.foot, w.heap);
  }

  ghost function TopHeap(c: Chunks, q: int, b: int): Chunks {
    Patch(c, q, b, map[q := Chunk(b - q, Top)])
  }

  method PutFreeTop(m: Mstate, q: int, psize: int, ghost heap': Chunks)
    modifies m`head, m`top, m`topsize, m`heap
    ensures m.topsize == old(m.topsize) + psize && m.top == q && m.head == old(m.head)[q := Head(m.topsize, false, true)]
    ensures m.heap == heap'
  {
    m.topsize := m.topsize + psize;
    var tsize := m.topsize;
    m.top := q;
    m.head := m.head[q := Head(tsize, false, true)];
    m.heap := heap';
  }

  /** The same, told of the views. */
  method WriteFreeTop(m: Mstate, q: int, psize: int, ghost heap': Chunks)
    modifies m`head, m`top, m`topsize, m`heap
    ensures m.topsize == old(m.topsize) + psize && m.top == q && m.head == old(m.head)[q := Head(m.topsize, false, true)]
    ensures m.heap == heap'
    ensures WorldOf(m) == old(WorldOf(m)).(head := m.head, heap := heap', top := q, topsize := m.topsize)
    ensures BinsOf(m) == old(BinsOf(m)) && LedgerOf(m) == old(LedgerOf(m)) && MemoryOf(m) == old(MemoryOf(m)).(head := m.head)
  {
    hide At;
    PutFreeTop(m, q, psize, heap');
  }

  lemma TopShape(w: World, out: set<int>, q: int, p: int)
    requires ViewsExcept(w, out) && p in w.heap && w.heap[p].use == Live && MergeStart(w, q, p) && w.top == p + w.heap[p].size
    requires out == (if q == p then {} else {q})
    ensures var b := w.top + w.topsize;
      Merging(w, q, b, p) && MergeEnd(w, b, p) && OutInside(w.heap, out, q, b) && q <= w.top < b
  {
    var b := w.top + w.topsize;
    TopIsThere(w, out, p);
    hide ViewsExcept, MergeStart;
    MergeShape(w, out, q, b, p);
    MergeOut(w, out, q, b, p, out);
    MergeBefore(w, out, q, p);
    LiveSize(w, out, p);
  }

  lemma TopIsThere(w: World, out: set<int>, p: int)
    requires ViewsExcept(w, out) && p in w.heap
    ensures w.top != 0 && w.top in w.heap && w.heap[w.top] == Chunk(w.topsize, Top) && w.topsize > 0
  {
    assert ChunkOk(w.head, w.foot, w.heap, w.top);
  }

  lemma LiveSize(w: World, out: set<int>, p: int)
    requires ViewsExcept(w, out) && p in w.heap
    ensures w.heap[p].size > 0
  {
    Sizes(w.head, w.foot, w.heap);
  }

  /** The block and what merged from the left join top. */
  method FreeJoinsTop(m: Mstate, q: int, psize: int, ghost out: set<int>, ghost p: int)
    requires FreeingAt(m, out, q, p) && q != m.dv && m.top == p + m.heap[p].size && psize == m.top - q
    modifies m`head, m`top, m`topsize, m`heap
    ensures Valid(m) && Released(old(m.heap), m.heap, p) && Quiet(old(MemoryOf(m)), MemoryOf(m), Lives(m.heap))
    ensures m.top == q && m.top != 0 && m.topsize == old(m.topsize) + psize
    ensures m.heap == TopHeap(old(m.heap), q, old(m.top) + old(m.topsize))
  {
    hide ViewsExcept, BinsInv, BooksInv, TotalSize, Quiet, Lives, Released, TopHeap, MergeStart, Merging, MergeEnd, OutInside,
         WorldOf, BinsOf, LedgerOf, MemoryOf, ValidExcept, FreeingAt;
    ghost var w, v, a := WorldOf(m), BinsOf(m), MemoryOf(m);
    FreeingParts(m, out, q, p);
    TopShape(w, out, q, p);
    MergedTopAt(w, v, a, out, q, p);
    WriteFreeTop(m, q, psize, TopHeap(m.heap, q, m.top + m.topsize));
    PutTogether(m, WorldOf(m), v, LedgerOf(m), {});
  }

  lemma MergedTopAt(w: World, v: BinView, a: Memory, out: set<int>, q: int, p: int)
    requires ViewsExcept(w, out) && BinsInv(w.head, v) && v.small == w.small && v.nodes == w.nodes
    requires a.head == w.head && a.foot == w.foot
    requires var b := w.top + w.topsize;
      Merging(w, q, b, p) && MergeEnd(w, b, p) && OutInside(w.heap, out, q, b) && q <= w.top < b
    ensures q > 0
    ensures var s := w.topsize + (w.top - q);
      var h', heap' := w.head[q := Head(s, false, true)], TopHeap(w.heap, q, w.top + w.topsize);
      && ViewsExcept(w.(head := h', heap := heap', top := q, topsize := s), {})
      && BinsInv(h', v) && Released(w.heap, heap', p) && Quiet(a, a.(head := h'), Lives(heap'))
  {
    hide ViewsExcept, BinsInv, Quiet, Lives, Released, Merging, MergeEnd, OutInside, Patch;
    MergedTop(w, v, a, out, q, w.top + w.topsize, p);
    assert w.top + w.topsize - q == w.topsize + (w.top - q);
  }

  lemma MergedTopDvAt(w: World, v: BinView, a: Memory, q: int, p: int)
    requires ViewsExcept(w, {}) && BinsInv(w.head, v) && v.small == w.small && v.nodes == w.nodes && w.dvsize != 0
    requires a.head == w.head && a.foot == w.foot
    requires var b := w.top + w.topsize;
      Merging(w, q, b, p) && MergeEnd(w, b, p) && OutInside(w.heap, {w.dv}, q, b) && q <= w.top < b
    ensures q > 0
    ensures var s := w.topsize + (w.top - q);
      var h', heap' := w.head[q := Head(s, false, true)], TopHeap(w.heap, q, w.top + w.topsize);
      && ViewsExcept(w.(head := h', heap := heap', top := q, topsize := s, dv := 0, dvsize := 0), {})
      && BinsInv(h', v) && Released(w.heap, heap', p) && Quiet(a, a.(head := h'), Lives(heap'))
  {
    hide ViewsExcept, BinsInv, Quiet, Lives, Released, Merging, MergeEnd, OutInside, Patch;
    MergedTopDv(w, v, a, q, w.top + w.topsize, p);
    assert w.top + w.topsize - q == w.topsize + (w.top - q);
  }

  /** The victim, before the block, joins top with it. */
  method FreeDvJoinsTop(m: Mstate, q: int, psize: int, ghost p: int)
    requires FreeingAt(m, {}, q, p) && q == m.dv && q != p && m.top == p + m.heap[p].size && psize == m.top - q
    modifies m`head, m`top, m`topsize, m`heap, m`dv, m`dvsize
    ensures Valid(m) && Released(old(m.heap), m.heap, p) && Quiet(old(MemoryOf(m)), MemoryOf(m), Lives(m.heap))
    ensures m.top == q && m.top != 0 && m.topsize == old(m.topsize) + psize && m.dv == 0 && m.dvsize == 0
    ensures m.heap == TopHeap(old(m.heap), q, old(m.top) + old(m.topsize))
  {
    hide ViewsExcept, BinsInv, BooksInv, TotalSize, Quiet, Lives, Released, TopHeap, MergeStart, Merging, MergeEnd, OutInside,
         WorldOf, BinsOf, LedgerOf, MemoryOf, ValidExcept, FreeingAt;
    ghost var w, v, a := WorldOf(m), BinsOf(m), MemoryOf(m);
    FreeingParts(m, {}, q, p);
    VictimLeft(w, {}, q, p);
    TopShapeDv(w, q, p);
    MergedTopDvAt(w, v, a, q, p);
    WriteFreeTopDv(m, q, psize, TopHeap(m.heap, q, m.top + m.topsize));
    PutTogether(m, WorldOf(m), v, LedgerOf(m), {});
  }

  method WriteFreeTopDv(m: Mstate, q: int, psize: int, ghost heap': Chunks)
    modifies m`head, m`top, m`topsize, m`heap, m`dv, m`dvsize
    ensures m.topsize == old(m.topsize) + psize && m.top == q && m.head == old(m.head)[q := Head(m.topsize, false, true)]
    ensures m.heap == heap' && m.dv == 0 && m.dvsize == 0
    ensures WorldOf(m) == old(WorldOf(m)).(head := m.head, heap := heap', top := q, topsize := m.topsize, dv := 0, dvsize := 0)
    ensures BinsOf(m) == old(BinsOf(m)) && LedgerOf(m) == old(LedgerOf(m)) && MemoryOf(m) == old(MemoryOf(m)).(head := m.head)
  {
    WriteFreeTop(m, q, psize, heap');
    WriteDv(m, 0, 0);
  }

  lemma TopShapeDv(w: World, q: int, p: int)
    requires ViewsExcept(w, {}) && p in w.heap && w.heap[p].use == Live && MergeStart(w, q, p) && w.top == p + w.heap[p].size
    requires q == w.dv && q != p && w.dvsize != 0
    ensures var b := w.top + w.topsize;
      Merging(w, q, b, p) && MergeEnd(w, b, p) && OutInside(w.heap, {w.dv}, q, b) && q <= w.top < b
  {
    hide ViewsExcept, MergeStart, Merging, OutInside;
    DvOut(w, {});
    assert {} + {w.dv} == {w.dv};
    var w0 := w.(dv := 0, dvsize := 0);
    MergeStartSame(w, w0, q, p);
    TopShape(w0, {w.dv}, q, p);
    MergingSame(w0, w, q, w.top + w.topsize, p);
  }

  lemma MergingSame(w: World, w': World, q: int, b: int, p: int)
    requires Merging(w, q, b, p) && w'.head == w.head && w'.heap == w.heap
    ensures Merging(w', q, b, p)
  {}
}
