/** Blocks that are split, or that grow into top. */
module Resizing {
  import opened Words
  import opened BinIndex
  import opened Rings
  import opened Trie
  import opened State
  import opened Index
  import opened Heap
  import opened Payload
  import opened Plans
  import opened Invariant
  import opened Taking
  import opened Freeing

  /** The heads after a stretch from `p` up to `b`, whose first chunk is a block, has become two chunks. */
  ghost predicate PairTags(h: Heads, h': Heads, p: int, nb: int, b: int, l: Head) {
    && HeadAt(h', p) == Head(nb, true, HeadAt(h, p).pinuse) && HeadAt(h', p + nb) == l
    && HeadAt(h', b) == HeadAt(h, b).(pinuse := l.cinuse)
    && forall x :: x != p && x != p + nb && x != b ==> HeadAt(h', x) == HeadAt(h, x)
  }

  /** Where a block ends. */
  lemma BlockEnd(w: World, out: set<int>, p: int)
    requires ViewsExcept(w, out) && p in w.heap && w.heap[p].use == Live
    ensures var s := w.heap[p].size;
      && s >= MIN_CHUNK_SIZE && s % 8 == 0 && Inner(w.heap, p, p + s) && p > 0 && p % 8 == 0 && w.top != 0
      && HeadAt(w.head, p + s).pinuse && Follows(Live, w.heap[p + s].use)
      && (HeadAt(w.head, p).pinuse || w.heap[p].use == Live)
      && (forall y :: y in w.heap && p <= y < p + s ==> y == p)
      && !(p <= w.top < p + s)
  {
    assert ChunkOk(w.head, w.foot, w.heap, p);
    Alone(w.heap, p);
  }

  lemma SplitLivePhys(w: World, out: set<int>, p: int, nb: int, h': Heads)
    requires ViewsExcept(w, out) && p in w.heap && w.heap[p].use == Live
    requires nb >= MIN_CHUNK_SIZE && nb % 8 == 0 && w.heap[p].size - nb >= MIN_CHUNK_SIZE
    requires PairTags(w.head, h', p, nb, p + w.heap[p].size, Head(w.heap[p].size - nb, true, true))
    ensures Phys(h', w.foot, Patch(w.heap, p, p + w.heap[p].size, Two(p, Chunk(nb, Live), Chunk(w.heap[p].size - nb, Live))))
  {
    hide Phys, IndexExcept, SegsInv, TopInv, Whole;
    var s := w.heap[p].size;
    BlockEnd(w, out, p);
    assert TwoFits(w.head, w.foot, h', w.foot, w.heap, p, p + s, Chunk(nb, Live), Chunk(s - nb, Live));
    hide TwoFits;
    PatchTwo(w.head, w.foot, h', w.foot, w.heap, p, p + s, Chunk(nb, Live), Chunk(s - nb, Live));
  }

  lemma PairInside(h: Heads, h': Heads, p: int, nb: int, b: int, l: Head)
    requires PairTags(h, h', p, nb, b, l) && 0 < nb && p + nb < b
    ensures HeadsInside(h, h', p, b)
  {}

  /** Heads are written at chunks of the new heap only. */
  lemma PairQuiet(a: Memory, h': Heads, c': Chunks, p: int, nb: int, b: int, l: Head, live: Blocks)
    requires PairTags(a.head, h', p, nb, b, l) && Phys(h', a.foot, c')
    requires p in c' && p + nb in c' && b in c' && Within(live, Lives(c'))
    ensures Quiet(a, a.(head := h'), live)
  {
    Sizes(h', a.foot, c');
    hide Phys;
    forall q | HeadAt(h', q) != HeadAt(a.head, q)
      ensures !InPayload(live, q + 8)
    {
      OwnBytes(c', live, q, 8);
    }
    hide InPayload, Lives;
  }

  /** The blocks of a patched stretch with two blocks in place of one. */
  lemma LivesSplit(c: Chunks, p: int, nb: int)
    requires p in c && c[p].use == Live && 0 < nb < c[p].size
    requires forall y :: y in c && p <= y < p + c[p].size ==> y == p
    ensures var s := c[p].size;
      Lives(Patch(c, p, p + s, Two(p, Chunk(nb, Live), Chunk(s - nb, Live)))) == Lives(c)[p := nb][p + nb := s - nb]
    ensures p + nb !in Lives(c)
  {
    hide Patch, Two, Lives, LivesOutside;
    var s := c[p].size;
    var d := Two(p, Chunk(nb, Live), Chunk(s - nb, Live));
    LivesOfTwo(p, nb, s - nb);
    LivesPatch(c, p, p + s, d);
    LivesWithout(c, p, p + s);
    BlockLive(c, p);
    SplitMaps(Lives(c), LivesOutside(c, p, p + s), p, nb, s);
  }

  lemma LivesOfTwo(p: int, k: int, l: int)
    requires k > 0
    ensures Lives(Two(p, Chunk(k, Live), Chunk(l, Live))) == map[p := k, p + k := l]
    ensures forall x :: x in Two(p, Chunk(k, Live), Chunk(l, Live)) ==> x == p || x == p + k
  {
    assert Two(p, Chunk(k, Live), Chunk(l, Live)).Keys == {p, p + k};
  }

  lemma BlockLive(c: Chunks, p: int)
    requires p in c && c[p].use == Live
    ensures p in Lives(c) && Lives(c)[p] == c[p].size
  {}

  lemma LivesWithout(c: Chunks, p: int, b: int)
    requires p < b && forall y :: y in c && p <= y < b ==> y == p
    ensures forall y :: y in LivesOutside(c, p, b) <==> y in Lives(c) && y != p
    ensures forall y :: y in LivesOutside(c, p, b) ==> LivesOutside(c, p, b)[y] == Lives(c)[y]
    ensures forall y :: y in Lives(c) && p <= y < b ==> y == p
  {}

  lemma SplitMaps(all: Blocks, rest: Blocks, p: int, nb: int, s: int)
    requires p in all && 0 < nb < s
    requires forall y :: y in rest <==> y in all && y != p
    requires forall y :: y in rest ==> rest[y] == all[y]
    ensures rest + map[p := nb, p + nb := s - nb] == all[p := nb][p + nb := s - nb]
  {
    var l, r := rest + map[p := nb, p + nb := s - nb], all[p := nb][p + nb := s - nb];
    forall x
      ensures x in l <==> x in r
      ensures x in l ==> l[x] == r[x]
    {
      assert x in rest <==> x in all && x != p;
    }
  }

  ghost predicate BlockAt(c: Chunks, s: int, p: int) {
    p in c && c[p] == Chunk(s, Live)
  }

  ghost function SplitHeap(c: Chunks, p: int, nb: int, s: int): Chunks {
    Patch(c, p, p + s, Two(p, Chunk(nb, Live), Chunk(s - nb, Live)))
  }

  /** The blocks of a heap in which one has been split. */
  lemma SplitBlocks(w: World, a: Memory, p: int, nb: int, s: int, h': Heads)
    requires ViewsExcept(w, {}) && BlockAt(w.heap, s, p) && a.head == w.head && a.foot == w.foot
    requires nb >= MIN_CHUNK_SIZE && s - nb >= MIN_CHUNK_SIZE
    requires PairTags(w.head, h', p, nb, p + s, Head(s - nb, true, true)) && Phys(h', w.foot, SplitHeap(w.heap, p, nb, s))
    ensures Lives(SplitHeap(w.heap, p, nb, s)) == Lives(w.heap)[p := nb][p + nb := s - nb]
    ensures Quiet(a, a.(head := h'), Lives(SplitHeap(w.heap, p, nb, s)))
  {
    hide ViewsExcept, Patch, Two, Quiet, Lives, PairTags, Phys;
    BlockEnd(w, {}, p);
    LivesSplit(w.heap, p, nb);
    SplitThere(w.heap, p, nb, s);
    PairQuiet(a, h', SplitHeap(w.heap, p, nb, s), p, nb, p + s, Head(s - nb, true, true), Lives(SplitHeap(w.heap, p, nb, s)));
  }

  lemma SplitThere(c: Chunks, p: int, nb: int, s: int)
    requires 0 < nb < s && p + s in c
    ensures var c' := SplitHeap(c, p, nb, s); p in c' && p + nb in c' && p + s in c'
  {}

  /** The views when a block has been split into two blocks. */
  lemma BlockSplit(w: World, v: BinView, a: Memory, p: int, nb: int, s: int, h': Heads)
    requires ViewsExcept(w, {}) && BinsInv(w.head, v) && v.small == w.small && v.nodes == w.nodes
    requires a.head == w.head && a.foot == w.foot && BlockAt(w.heap, s, p)
    requires nb >= MIN_CHUNK_SIZE && nb % 8 == 0 && s - nb >= MIN_CHUNK_SIZE
    requires PairTags(w.head, h', p, nb, p + s, Head(s - nb, true, true))
    ensures var heap' := SplitHeap(w.heap, p, nb, s);
      && ViewsExcept(w.(head := h', heap := heap'), {}) && BinsInv(h', v)
      && Lives(heap') == Lives(w.heap)[p := nb][p + nb := s - nb]
      && Quiet(a, a.(head := h'), Lives(heap'))
  {
    hide BinsInv, ViewsExcept, Inner, Patch, Two, HeadAt, HeadsInside, InnerPatch, FreeOf, Quiet, Lives, PairTags, TopMoves, OutInside, Phys;
    var d := Two(p, Chunk(nb, Live), Chunk(s - nb, Live));
    BlockEnd(w, {}, p);
    TwoChunks(w.heap, p, Chunk(nb, Live), Chunk(s - nb, Live));
    PairInside(w.head, h', p, nb, p + s, Head(s - nb, true, true));
    BlockApart(w, p, nb);
    SplitLivePhys(w, {}, p, nb, h');
    StretchPatched(w, v, {}, p, p + s, d, h', w.foot, w.top, w.topsize);
    SplitBlocks(w, a, p, nb, s, h');
  }

  lemma BlockApart(w: World, p: int, nb: int)
    requires ViewsExcept(w, {}) && p in w.heap && w.heap[p].use == Live && 0 < nb < w.heap[p].size
    ensures var s := w.heap[p].size;
      TopMoves(p, p + s, Two(p, Chunk(nb, Live), Chunk(s - nb, Live)), w.top, w.topsize, w.top, w.topsize)
    ensures OutInside(w.heap, {}, p, p + w.heap[p].size) && w.top != 0
    ensures TopKnown(w)
  {
    hide ViewsExcept, Inner;
    BlockEnd(w, {}, p);
    TopIsThere(w, {}, p);
  }

  ghost predicate TopKnown(w: World) {
    w.top != 0 && w.top in w.heap
  }

  // ---- growing into top

  ghost function GrownHeap(c: Chunks, p: int, nb: int, b: int): Chunks {
    Patch(c, p, b, Two(p, Chunk(nb, Live), Chunk(b - p - nb, Top)))
  }

  /** The block `p` and top behind it. */
  lemma GrowStretch(w: World, p: int, s: int)
    requires ViewsExcept(w, {}) && BlockAt(w.heap, s, p) && w.top == p + s
    ensures var b := w.top + w.topsize;
      && Inner(w.heap, p, b) && w.topsize > 0 && w.topsize % 8 == 0 && s % 8 == 0 && s >= MIN_CHUNK_SIZE
      && b in w.heap && w.heap[b] == Chunk(TOP_FOOT_SIZE, Trailer) && !HeadAt(w.head, b).pinuse && w.top != 0
      && p > 0 && p % 8 == 0
      && (forall y :: y in w.heap && p <= y < b ==> y == p || y == w.top)
      && OutInside(w.heap, {}, p, b) && w.top in w.heap && w.heap[w.top].use == Top
      && |w.segs| > 0 && w.segs[0].base <= p
  {
    BlockEnd(w, {}, p);
    TopIsThere(w, {}, p);
    var b := w.top + w.topsize;
    assert ChunkOk(w.head, w.foot, w.heap, w.top) && ChunkOk(w.head, w.foot, w.heap, b);
    Sizes(w.head, w.foot, w.heap);
    MergeWhole(w.heap, p, p, w.top, b);
    assert Inner(w.heap, p, b) by {
      hide IndexExcept, SegsInv, Phys, Apart, Whole;
    }
    GrowPlace(w, p, b);
  }

  lemma GrowPlace(w: World, p: int, b: int)
    requires ViewsExcept(w, {}) && w.top != 0 && Inner(w.heap, p, b) && p < w.top < b
    ensures |w.segs| > 0 && w.segs[0].base <= p
  {
    assert Covered(w.heap, w.segs, p) && BaseOk(w.head, w.heap, w.segs[0]);
    var j :| 0 <= j < |w.segs| && InSeg(w.heap, w.segs[j], p);
    SameSegment(w.head, w.heap, w.segs, w.top, w.topsize, p, b, j);
    assert SegsApart(w.segs) && w.segs[0].base <= w.top && w.top + w.topsize + TOP_FOOT_SIZE == w.segs[0].end;
    TopIsThere(w, {}, p);
  }

  lemma GrowPhys(w: World, p: int, nb: int, s: int, h': Heads)
    requires ViewsExcept(w, {}) && BlockAt(w.heap, s, p) && w.top == p + s
    requires nb >= MIN_CHUNK_SIZE && nb % 8 == 0 && s < nb < s + w.topsize
    requires PairTags(w.head, h', p, nb, w.top + w.topsize, Head(s + w.topsize - nb, false, true))
    ensures Phys(h', w.foot, GrownHeap(w.heap, p, nb, w.top + w.topsize))
  {
    hide Phys, IndexExcept, SegsInv, TopInv, Whole;
    var b := w.top + w.topsize;
    var k, l := Chunk(nb, Live), Chunk(b - p - nb, Top);
    GrowStretch(w, p, s);
    BlockEnd(w, {}, p);
    assert TwoFits(w.head, w.foot, h', w.foot, w.heap, p, b, k, l);
    hide TwoFits;
    PatchTwo(w.head, w.foot, h', w.foot, w.heap, p, b, k, l);
  }

  lemma GrownBlocks(w: World, a: Memory, p: int, nb: int, s: int, h': Heads)
    requires ViewsExcept(w, {}) && BlockAt(w.heap, s, p) && w.top == p + s && a.head == w.head && a.foot == w.foot
    requires nb >= MIN_CHUNK_SIZE && s < nb < s + w.topsize
    requires PairTags(w.head, h', p, nb, w.top + w.topsize, Head(s + w.topsize - nb, false, true))
    requires Phys(h', w.foot, GrownHeap(w.heap, p, nb, w.top + w.topsize))
    ensures Lives(GrownHeap(w.heap, p, nb, w.top + w.topsize)) == Lives(w.heap)[p := nb]
    ensures Quiet(a, a.(head := h'), Lives(w.heap))
  {
    hide ViewsExcept, Patch, Two, Quiet, Lives, PairTags, Phys, Inner, OutInside;
    var b := w.top + w.topsize;
    GrowStretch(w, p, s);
    LivesGrown(w.heap, p, nb, s, b, w.top);
    GrownThere(w.heap, p, nb, b);
    GrownWithin(Lives(w.heap), p, s, nb);
    PairQuiet(a, h', GrownHeap(w.heap, p, nb, b), p, nb, b, Head(s + w.topsize - nb, false, true), Lives(w.heap));
  }

  lemma GrownWithin(live: Blocks, p: int, s: int, nb: int)
    requires p in live && live[p] == s && s <= nb
    ensures Within(live, live[p := nb])
  {}

  lemma GrownThere(c: Chunks, p: int, nb: int, b: int)
    requires 0 < nb && p + nb < b && b in c
    ensures var c' := GrownHeap(c, p, nb, b); p in c' && p + nb in c' && b in c'
  {}

  lemma LivesGrown(c: Chunks, p: int, nb: int, s: int, b: int, t: int)
    requires BlockAt(c, s, p) && 0 < nb && p + nb < b && p < t < b && t in c && c[t].use == Top
    requires forall y :: y in c && p <= y < b ==> y == p || y == t
    ensures Lives(GrownHeap(c, p, nb, b)) == Lives(c)[p := nb] && p in Lives(c) && Lives(c)[p] == s
  {
    var d := Two(p, Chunk(nb, Live), Chunk(b - p - nb, Top));
    LivesPatch(c, p, b, d);
    assert d.Keys == {p, p + nb} && Lives(d) == map[p := nb];
    var l, r := LivesOutside(c, p, b) + Lives(d), Lives(c)[p := nb];
    forall x
      ensures x in l <==> x in r
      ensures x in l ==> l[x] == r[x]
    {
    }
  }

  /** The views when a block has grown into top. */
  lemma BlockGrown(w: World, v: BinView, a: Memory, p: int, nb: int, s: int, h': Heads)
    requires ViewsExcept(w, {}) && BinsInv(w.head, v) && v.small == w.small && v.nodes == w.nodes
    requires a.head == w.head && a.foot == w.foot && BlockAt(w.heap, s, p) && w.top == p + s
    requires nb >= MIN_CHUNK_SIZE && nb % 8 == 0 && s < nb < s + w.topsize
    requires PairTags(w.head, h', p, nb, w.top + w.topsize, Head(s + w.topsize - nb, false, true))
    ensures var heap' := GrownHeap(w.heap, p, nb, w.top + w.topsize);
      && ViewsExcept(w.(head := h', heap := heap', top := p + nb, topsize := s + w.topsize - nb), {}) && BinsInv(h', v)
      && Lives(heap') == Lives(w.heap)[p := nb] && Quiet(a, a.(head := h'), Lives(w.heap))
  {
    hide BinsInv, ViewsExcept, Inner, Patch, Two, HeadAt, HeadsInside, InnerPatch, FreeOf, Quiet, Lives, PairTags, TopMoves, OutInside, Phys;
    var b := w.top + w.topsize;
    var d := Two(p, Chunk(nb, Live), Chunk(b - p - nb, Top));
    GrowStretch(w, p, s);
    GrowMoves(w, p, nb, s);
    PairInside(w.head, h', p, nb, b, Head(s + w.topsize - nb, false, true));
    GrowPhys(w, p, nb, s, h');
    StretchPatched(w, v, {}, p, b, d, h', w.foot, p + nb, s + w.topsize - nb);
    GrownBlocks(w, a, p, nb, s, h');
  }

  lemma GrowMoves(w: World, p: int, nb: int, s: int)
    requires w.top == p + s && 0 < s < nb < s + w.topsize
    ensures var b := w.top + w.topsize;
      var d := Two(p, Chunk(nb, Live), Chunk(b - p - nb, Top));
      && TopMoves(p, b, d, w.top, w.topsize, p + nb, s + w.topsize - nb) && InnerPatch(w.heap, p, b, d) && FreeOf(d) == {}
  {
    var b := w.top + w.topsize;
    assert Two(p, Chunk(nb, Live), Chunk(b - p - nb, Top)).Keys == {p, p + nb};
  }

  // ---- in outline

  /** A block is split after `nb` bytes. */
  ghost function SplitOff(s: Plan, p: int, nb: int): Plan {
    s.(heap := SplitHeap(s.heap, p, nb, SizeIn(s.heap, p)))
  }

  /** A block grows to `nb` bytes into top behind it. */
  ghost function GrownInto(s: Plan, p: int, nb: int): Plan {
    var e := s.top + s.topsize;
    s.(heap := GrownHeap(s.heap, p, nb, e), top := p + nb, topsize := e - p - nb)
  }

  // ---- the steps

  /** set_inuse: keeps the pinuse bit of `p`, and sets that of the chunk behind. */
  method SetInuse(m: Mstate, p: int, s: int)
    modifies m`head
    ensures m.head == SetPinuse(old(m.head)[p := Head(s, true, HeadAt(old(m.head), p).pinuse)], p + s, true)
  {
    m.head := m.head[p := Head(s, true, HeadAt(m.head, p).pinuse)];
    m.head := SetPinuse(m.head, p + s, true);
  }

  method WriteSplitBlock(m: Mstate, p: int, nb: int, rsize: int, backFirst: bool, ghost heap': Chunks)
    requires nb > 0 && rsize > 0
    requires HeadAt(m.head, p + nb + rsize).pinuse
    modifies m`head, m`heap
    ensures PairTags(old(m.head), m.head, p, nb, p + nb + rsize, Head(rsize, true, true)) && m.heap == heap'
  {
    if backFirst {
      SetInuse(m, p + nb, rsize);
      SetInuse(m, p, nb);
    } else {
      SetInuse(m, p, nb);
      SetInuse(m, p + nb, rsize);
    }
    m.heap := heap';
  }

  /** A block is split into two adjacent blocks, whichever of them is marked first. */
  method SplitBlock(m: Mstate, p: int, nb: int, rsize: int, backFirst: bool)
    requires Valid(m) && BlockAt(m.heap, nb + rsize, p)
    requires nb >= MIN_CHUNK_SIZE && nb % 8 == 0 && rsize >= MIN_CHUNK_SIZE
    modifies m`head, m`heap
    ensures Valid(m) && BlockAt(m.heap, nb, p) && BlockAt(m.heap, rsize, p + nb)
    ensures Lives(m.heap) == Lives(old(m.heap))[p := nb][p + nb := rsize] && p + nb !in Lives(old(m.heap))
    ensures HeadAt(m.head, p).pinuse == HeadAt(old(m.head), p).pinuse
    ensures Quiet(old(MemoryOf(m)), MemoryOf(m), Lives(m.heap))
    ensures m.heap == SplitHeap(old(m.heap), p, nb, nb + rsize)
  {
    hide BinsInv, ViewsExcept, BooksInv, TotalSize, Quiet, Lives, PairTags, SplitHeap;
    ghost var w, v, a, s := WorldOf(m), BinsOf(m), MemoryOf(m), nb + rsize;
    BlockEnd(w, {}, p);
    WriteSplitBlock(m, p, nb, rsize, backFirst, SplitHeap(w.heap, p, nb, s));
    SplitFacts(w, p, nb, s, m.head);
    BlockSplit(w, v, a, p, nb, s, m.head);
  }

  lemma SplitFacts(w: World, p: int, nb: int, s: int, h': Heads)
    requires ViewsExcept(w, {}) && BlockAt(w.heap, s, p) && 0 < nb < s
    requires PairTags(w.head, h', p, nb, p + s, Head(s - nb, true, true))
    ensures HeadAt(h', p).pinuse == HeadAt(w.head, p).pinuse
    ensures BlockAt(SplitHeap(w.heap, p, nb, s), nb, p) && BlockAt(SplitHeap(w.heap, p, nb, s), s - nb, p + nb)
    ensures p + nb !in Lives(w.heap)
  {
    hide ViewsExcept;
    BlockEnd(w, {}, p);
  }

  method WriteGrow(m: Mstate, p: int, nb: int, newtopsize: int, ghost b: int, ghost heap': Chunks)
    requires nb > 0 && newtopsize > 0 && b == p + nb + newtopsize && !HeadAt(m.head, b).pinuse
    modifies m`head, m`top, m`topsize, m`heap
    ensures PairTags(old(m.head), m.head, p, nb, b, Head(newtopsize, false, true)) && m.heap == heap'
    ensures m.top == p + nb && m.topsize == newtopsize
  {
    SetInuse(m, p, nb);
    var newtop := p + nb;
    m.head := m.head[newtop := Head(newtopsize, false, true)];
    m.top := newtop;
    m.topsize := newtopsize;
    m.heap := heap';
  }

  /** A block grows into top. */
  method GrowBlock(m: Mstate, p: int, nb: int, s: int)
    requires Valid(m) && BlockAt(m.heap, s, p) && m.top == p + s
    requires nb >= MIN_CHUNK_SIZE && nb % 8 == 0 && s < nb < s + m.topsize
    modifies m`head, m`top, m`topsize, m`heap
    ensures Valid(m) && Lives(m.heap) == Lives(old(m.heap))[p := nb]
    ensures Quiet(old(MemoryOf(m)), MemoryOf(m), Lives(old(m.heap)))
    ensures PlanOf(m) == GrownInto(old(PlanOf(m)), p, nb)
  {
    hide BinsInv, ViewsExcept, BooksInv, TotalSize, Quiet, Lives, PairTags, GrownHeap, Inner, OutInside;
    ghost var w, v, a := WorldOf(m), BinsOf(m), MemoryOf(m);
    GrowStretch(w, p, s);
    var newsize := s + m.topsize;
    WriteGrow(m, p, nb, newsize - nb, w.top + w.topsize, GrownHeap(w.heap, p, nb, w.top + w.topsize));
    BlockGrown(w, v, a, p, nb, s, m.head);
  }
}
