/** Carving requested chunks out of free ones: header words, and what they stand for. */
module Taking {
  import opened BinIndex
  import opened Words
  import opened Rings
  import opened Trie
  import opened State
  import opened Index
  import opened Heap
  import opened HeapSteps
  import opened Invariant
  import opened Payload
  import opened Plans

  /** Head words written inside a stretch whose free chunks are outside the index do not concern
      the bins. */
  lemma BinsIgnore(w: World, out: set<int>, v: BinView, a: int, b: int, h': Heads)
    requires BinsInv(w.head, v) && v.small == w.small && v.nodes == w.nodes
    requires IndexExcept(w.heap, w.dv, w.dvsize, w.small, w.nodes, out)
    requires forall y :: y in w.heap && a <= y < b && w.heap[y].use == Free ==> y in out
    requires forall x :: !(a <= x < b) ==> SizeAt(h', x) == SizeAt(w.head, x)
    ensures BinsInv(h', v)
  {
    hide BinsInv, SizeAt;
    forall s, x | Kept(v.small, v.nodes, s, x)
      ensures SizeAt(h', x) == SizeAt(w.head, x)
    {
      assert FreeAt(w.heap, s, x);
    }
    BinsFrame(w.head, h', v);
  }

  /** The stretch of a single free chunk. */
  lemma FreeStretch(w: World, out: set<int>, p: int)
    requires ViewsExcept(w, out) && p in w.heap && w.heap[p].use == Free
    ensures var s := w.heap[p].size;
      && s >= MIN_CHUNK_SIZE && s % 8 == 0 && Inner(w.heap, p, p + s)
      && HeadAt(w.head, p).pinuse && Follows(Free, w.heap[p + s].use)
      && forall y :: y in w.heap && p <= y < p + s ==> y == p
    ensures w.top != 0 ==> !(p <= w.top < p + w.heap[p].size)
  {
    assert ChunkOk(w.head, w.foot, w.heap, p);
    Alone(w.heap, p);
  }

  /** Heads change inside the stretch only; its start keeps its pinuse bit, its end its size. */
  ghost predicate HeadsInside(h: Heads, h': Heads, a: int, b: int) {
    && (forall x :: !(a <= x <= b) ==> HeadAt(h', x) == HeadAt(h, x))
    && HeadAt(h', a).pinuse == HeadAt(h, a).pinuse && SizeAt(h', b) == SizeAt(h, b)
  }

  /** Exactly free chunks of the stretch are outside the index. */
  ghost predicate OutInside(c: Chunks, out: set<int>, a: int, b: int) {
    && (forall y :: y in c && a <= y < b && c[y].use == Free ==> y in out)
    && (forall y :: y in out ==> a <= y < b)
  }

  /** The views after a stretch `[a, b)` has been patched with `d`, and the bins beside them. */
  lemma StretchPatched(w: World, v: BinView, out: set<int>, a: int, b: int, d: Chunks,
                       h': Heads, foot': Field, top': int, topsize': int)
    requires ViewsExcept(w, out) && w.top != 0 && BinsInv(w.head, v) && v.small == w.small && v.nodes == w.nodes
    requires Inner(w.heap, a, b) && InnerPatch(w.heap, a, b, d)
    requires Phys(h', foot', Patch(w.heap, a, b, d))
    requires HeadsInside(w.head, h', a, b) && OutInside(w.heap, out, a, b)
    requires TopMoves(a, b, d, w.top, w.topsize, top', topsize')
    requires top' + topsize' == w.top + w.topsize && top' != 0 && (a <= w.top < b ==> w.segs[0].base <= top')
    ensures ViewsExcept(w.(head := h', foot := foot', heap := Patch(w.heap, a, b, d), top := top', topsize := topsize'),
                        FreeOf(d))
    ensures BinsInv(h', v)
  {
    assert a < b;
    assert forall x :: x in w.heap && !(a < x <= b) ==> HeadAt(h', x).pinuse == HeadAt(w.head, x).pinuse;
    hide BinsInv, Phys, SegsInv, TopInv, Patch, Inner, InnerPatch, IndexExcept;
    assert IndexExcept(w.heap, w.dv, w.dvsize, w.small, w.nodes, out);
    BinsIgnore(w, out, v, a, b, h');
    InnerViews(w, out, a, b, d, h', foot', top', topsize');
  }

  /** From heap `c` to heap `c'` the only new block is `p`, of chunk size `s`. */
  ghost predicate Given(c: Chunks, c': Chunks, p: int, s: int) {
    Lives(c') == Lives(c)[p := s] && p !in Lives(c)
  }

  /** A patch of a stretch without blocks that puts one block at its start. */
  lemma GivenPatch(c: Chunks, p: int, b: int, d: Chunks, s: int)
    requires forall x :: x in d ==> p <= x < b
    requires p < b && forall x :: x in c && p <= x < b ==> c[x].use != Live
    requires Lives(d) == map[p := s]
    ensures Given(c, Patch(c, p, b, d), p, s) && LivesOutside(c, p, b) == Lives(c)
  {
    LivesPatch(c, p, b, d);
    hide Patch, LivesOutside;
    assert Lives(c) + map[p := s] == Lives(c)[p := s];
  }

  /** Taking a whole free chunk. */
  lemma TakeWholeViews(w: World, v: BinView, a: Memory, p: int, s: int)
    requires ViewsExcept(w, {p}) && BinsInv(w.head, v) && v.small == w.small && v.nodes == w.nodes
    requires a.head == w.head && a.foot == w.foot && FreeAt(w.heap, s, p)
    ensures var h' := SetPinuse(w.head[p := Head(s, true, true)], p + s, true);
      var heap' := Patch(w.heap, p, p + s, map[p := Chunk(s, Live)]);
      && ViewsExcept(w.(head := h', heap := heap'), {}) && BinsInv(h', v)
      && Given(w.heap, heap', p, s) && Quiet(a, a.(head := h'), Lives(w.heap))
  {
    hide BinsInv, Phys, IndexExcept, Inner, TopInv, SegsInv, Patch, Quiet, Lives;
    var d := map[p := Chunk(s, Live)];
    var h' := SetPinuse(w.head[p := Head(s, true, true)], p + s, true);
    FreeStretch(w, {p}, p);
    assert FreeOf(d) == {} && InnerPatch(w.heap, p, p + s, d) && TopMoves(p, p + s, d, w.top, w.topsize, w.top, w.topsize);
    assert HeadsInside(w.head, h', p, p + s) && OutInside(w.heap, {p}, p, p + s);
    hide HeadsInside, OutInside, InnerPatch, TopMoves, HeadAt, FreeOf;
    UseWhole(w.head, w.foot, w.heap, p);
    StretchPatched(w, v, {p}, p, p + s, d, h', w.foot, w.top, w.topsize);
    TakeWholeGiven(w, a, p, s);
  }

  /** Where a chunk ends the next one begins. */
  lemma Extent(h: Heads, foot: Field, c: Chunks, p: int)
    requires Phys(h, foot, c) && p in c && HasNext(c[p].use)
    ensures c[p].size > 0 && p + c[p].size in c
    ensures forall y :: y in c && p <= y < p + c[p].size ==> y == p
  {
    assert ChunkOk(h, foot, c, p);
    Alone(c, p);
  }

  lemma LivesOfOne(p: int, s: int)
    ensures Lives(map[p := Chunk(s, Live)]) == map[p := s]
  {}

  lemma WholeRetag(a: Memory, c: Chunks, c': Chunks, p: int, s: int)
    requires p in c && p + s in c
    ensures Retag(a, SetPinuse(a.head[p := Head(s, true, true)], p + s, true), a.foot, c, c')
  {}

  lemma TakeWholeGiven(w: World, a: Memory, p: int, s: int)
    requires a.head == w.head && a.foot == w.foot && Phys(w.head, w.foot, w.heap) && FreeAt(w.heap, s, p)
    requires var h' := SetPinuse(w.head[p := Head(s, true, true)], p + s, true);
      Phys(h', w.foot, Patch(w.heap, p, p + s, map[p := Chunk(s, Live)]))
    ensures var h' := SetPinuse(w.head[p := Head(s, true, true)], p + s, true);
      var heap' := Patch(w.heap, p, p + s, map[p := Chunk(s, Live)]);
      Given(w.heap, heap', p, s) && Quiet(a, a.(head := h'), Lives(w.heap))
  {
    hide Phys, Patch, Quiet, Lives, LivesOutside, Retag, Given, SetPinuse;
    var d := map[p := Chunk(s, Live)];
    var h' := SetPinuse(w.head[p := Head(s, true, true)], p + s, true);
    LivesOfOne(p, s);
    Extent(w.head, w.foot, w.heap, p);
    WholeRetag(a, w.heap, Patch(w.heap, p, p + s, d), p, s);
    GivenPatch(w.heap, p, p + s, d, s);
    assert a.(head := h') == a.(head := h', foot := a.foot);
    PatchQuiet(a, h', a.foot, w.heap, p, p + s, d);
  }

  /** The header words of set_inuse_and_pinuse. */
  method WriteInuse(m: Mstate, p: int, s: int, ghost heap': Chunks)
    modifies m`head, m`heap
    ensures m.head == SetPinuse(old(m.head)[p := Head(s, true, true)], p + s, true) && m.heap == heap'
  {
    m.head := m.head[p := Head(s, true, true)];
    m.head := SetPinuse(m.head, p + s, true);
    m.heap := heap';
  }

  /** set_inuse_and_pinuse on a whole free chunk. */
  method TakeWhole(m: Mstate, p: int, s: int)
    requires ValidExcept(m, {p}) && FreeAt(m.heap, s, p)
    modifies m`head, m`heap
    ensures ValidExcept(m, {}) && Given(old(m.heap), m.heap, p, s)
    ensures Quiet(old(MemoryOf(m)), MemoryOf(m), Lives(old(m.heap)))
    ensures HeadAt(m.head, p).pinuse
    ensures m.heap == Patch(old(m.heap), p, p + s, map[p := Chunk(s, Live)])
  {
    hide BinsInv, ViewsExcept, Books, Patch, Given, Quiet, Lives;
    TakeWholeViews(WorldOf(m), BinsOf(m), MemoryOf(m), p, s);
    WriteInuse(m, p, s, Patch(m.heap, p, p + s, map[p := Chunk(s, Live)]));
  }

  /** Two chunks that fill a stretch. */
  lemma TwoChunks(c: Chunks, a: int, k: Chunk, l: Chunk)
    requires k.size > 0 && l.size > 0 && Ordinary(k.use) && Ordinary(l.use)
    ensures var d, n, b := Two(a, k, l), a + k.size, a + k.size + l.size;
      && a in d && d[a] == k && n in d && d[n] == l
      && InnerPatch(c, a, b, d)
      && (forall x :: x in d ==> x == a || x == n)
      && n in Patch(c, a, b, d) && Patch(c, a, b, d)[n] == l
      && a in Patch(c, a, b, d) && Patch(c, a, b, d)[a] == k
    ensures k.use != Free && l.use == Free ==> FreeOf(Two(a, k, l)) == {a + k.size}
    ensures k.use != Free && l.use != Free ==> FreeOf(Two(a, k, l)) == {}
    ensures k.use == Live && l.use != Live ==> Lives(Two(a, k, l)) == map[a := k.size]
  {
    var d := Two(a, k, l);
    assert d.Keys == {a, a + k.size};
  }

  /** Rewriting the heads at `a` and `n`, both inside the stretch. */
  lemma TwoHeads(h: Heads, a: int, n: int, b: int, k: Head, l: Head, h': Heads)
    requires a < n < b && k.pinuse == HeadAt(h, a).pinuse
    requires h' == h[a := k][n := l] || h' == h[n := l][a := k]
    ensures HeadsInside(h, h', a, b)
    ensures forall x :: x != a && x != n ==> HeadAt(h', x) == HeadAt(h, x)
  {}

  /** Taking the front of a free chunk. */
  lemma TakeFrontViews(w: World, v: BinView, a: Memory, p: int, nb: int, s: int)
    requires ViewsExcept(w, {p}) && BinsInv(w.head, v) && v.small == w.small && v.nodes == w.nodes
    requires a.head == w.head && a.foot == w.foot
    requires FreeAt(w.heap, s, p) && nb >= MIN_CHUNK_SIZE && nb % 8 == 0 && s - nb >= MIN_CHUNK_SIZE
    ensures var h' := w.head[p := Head(nb, true, true)][p + nb := Head(s - nb, false, true)];
      var foot' := w.foot[p + s := s - nb];
      var heap' := Patch(w.heap, p, p + s, Two(p, Chunk(nb, Live), Chunk(s - nb, Free)));
      && ViewsExcept(w.(head := h', foot := foot', heap := heap'), {p + nb}) && BinsInv(h', v)
      && FreeAt(heap', s - nb, p + nb)
      && Given(w.heap, heap', p, nb) && Quiet(a, a.(head := h', foot := foot'), Lives(w.heap))
  {
    hide BinsInv, Phys, IndexExcept, Inner, TopInv, SegsInv, Patch, Two, HeadAt, HeadsInside, InnerPatch, FreeOf, Quiet, Lives;
    var d := Two(p, Chunk(nb, Live), Chunk(s - nb, Free));
    var h' := w.head[p := Head(nb, true, true)][p + nb := Head(s - nb, false, true)];
    FreeStretch(w, {p}, p);
    TwoChunks(w.heap, p, Chunk(nb, Live), Chunk(s - nb, Free));
    TwoHeads(w.head, p, p + nb, p + s, Head(nb, true, true), Head(s - nb, false, true), h');
    assert TopMoves(p, p + s, d, w.top, w.topsize, w.top, w.topsize) && OutInside(w.heap, {p}, p, p + s);
    hide OutInside, TopMoves;
    SplitFree(w.head, w.foot, w.heap, p, nb);
    StretchPatched(w, v, {p}, p, p + s, d, h', w.foot[p + s := s - nb], w.top, w.topsize);
    TwoGiven(w, a, p, Chunk(nb, Live), Chunk(s - nb, Free), h', w.foot[p + s := s - nb]);
  }

  lemma TwoRetag(a: Memory, c: Chunks, p: int, b: int, k: Chunk, l: Chunk, h': Heads, foot': Field)
    requires p in c && k.size > 0 && l.size > 0 && b == p + k.size + l.size
    requires forall x :: x != p && x != p + k.size ==> HeadAt(h', x) == HeadAt(a.head, x)
    requires foot' == a.foot || (l.use == Free && foot' == a.foot[b := l.size])
    ensures Retag(a, h', foot', c, Patch(c, p, b, Two(p, k, l)))
  {
    var n, c' := p + k.size, Patch(c, p, b, Two(p, k, l));
    assert n in c' && c'[n] == l && n in Two(p, k, l);
    assert l.use == Free ==> FootOf(c', b);
  }

  /** Two chunks, the first of them a block, in place of one that is not. */
  lemma TwoGiven(w: World, a: Memory, p: int, k: Chunk, l: Chunk, h': Heads, foot': Field)
    requires a.head == w.head && a.foot == w.foot && Phys(w.head, w.foot, w.heap)
    requires p in w.heap && (w.heap[p].use == Free || w.heap[p].use == Top) && w.heap[p].size == k.size + l.size
    requires k.use == Live && (l.use == Free || l.use == Top) && k.size > 0 && l.size > 0
    requires var n, b := p + k.size, p + k.size + l.size;
      && Phys(h', foot', Patch(w.heap, p, b, Two(p, k, l)))
      && (forall x :: x != p && x != n ==> HeadAt(h', x) == HeadAt(w.head, x))
      && (foot' == w.foot || (l.use == Free && foot' == w.foot[b := l.size]))
    ensures var heap' := Patch(w.heap, p, p + k.size + l.size, Two(p, k, l));
      Given(w.heap, heap', p, k.size) && Quiet(a, a.(head := h', foot := foot'), Lives(w.heap))
  {
    hide Phys, Patch, Two, Quiet, Lives, LivesOutside, Given, Retag, HeadAt;
    var n, b, d := p + k.size, p + k.size + l.size, Two(p, k, l);
    TwoChunks(w.heap, p, k, l);
    Extent(w.head, w.foot, w.heap, p);
    GivenPatch(w.heap, p, b, d, k.size);
    TwoRetag(a, w.heap, p, b, k, l, h', foot');
    PatchQuiet(a, h', foot', w.heap, p, b, d);
  }

  /** The header words of a split: set_size_and_pinuse_of_inuse_chunk on the front,
      set_size_and_pinuse_of_free_chunk on the rest. */
  method WriteSplit(m: Mstate, p: int, nb: int, r: int, rsize: int, ghost heap': Chunks)
    modifies m`head, m`foot, m`heap
    ensures m.head == old(m.head)[p := Head(nb, true, true)][r := Head(rsize, false, true)]
    ensures m.foot == old(m.foot)[r + rsize := rsize] && m.heap == heap'
  {
    m.head := m.head[p := Head(nb, true, true)];
    m.head := m.head[r := Head(rsize, false, true)];
    m.foot := m.foot[r + rsize := rsize];
    m.heap := heap';
  }

  /** set_size_and_pinuse_of_inuse_chunk on the front `nb` bytes of a free chunk, and
      set_size_and_pinuse_of_free_chunk on the rest, which is not yet in the index. */
  method TakeFront(m: Mstate, p: int, nb: int, ghost s: int, r: int, rsize: int)
    requires ValidExcept(m, {p}) && FreeAt(m.heap, s, p)
    requires nb >= MIN_CHUNK_SIZE && nb % 8 == 0 && rsize == s - nb && rsize >= MIN_CHUNK_SIZE && r == p + nb
    modifies m`head, m`foot, m`heap
    ensures ValidExcept(m, {r}) && FreeAt(m.heap, rsize, r) && Given(old(m.heap), m.heap, p, nb)
    ensures Quiet(old(MemoryOf(m)), MemoryOf(m), Lives(old(m.heap)))
    ensures HeadAt(m.head, p).pinuse
    ensures m.heap == Patch(old(m.heap), p, p + s, Two(p, Chunk(nb, Live), Chunk(rsize, Free)))
  {
    hide BinsInv, ViewsExcept, Books, Patch, Two, Given, Quiet, Lives, FreeAt;
    TakeFrontViews(WorldOf(m), BinsOf(m), MemoryOf(m), p, nb, s);
    WriteSplit(m, p, nb, r, rsize, Patch(m.heap, p, p + s, Two(p, Chunk(nb, Live), Chunk(rsize, Free))));
  }

  /** The stretch of top. */
  lemma TopStretch(w: World)
    requires ViewsExcept(w, {}) && w.top != 0
    ensures var p, s := w.top, w.topsize;
      && p in w.heap && w.heap[p] == Chunk(s, Top) && s > 0 && s % 8 == 0 && Inner(w.heap, p, p + s)
      && HeadAt(w.head, p).pinuse && w.heap[p + s] == Chunk(TOP_FOOT_SIZE, Trailer)
      && (forall y :: y in w.heap && p <= y < p + s ==> y == p)
      && |w.segs| > 0 && w.segs[0].base <= p && p > 0
  {
    assert ChunkOk(w.head, w.foot, w.heap, w.top);
    Alone(w.heap, w.top);
  }

  lemma TakeTopViews(w: World, v: BinView, a: Memory, nb: int)
    requires ViewsExcept(w, {}) && w.top != 0 && BinsInv(w.head, v) && v.small == w.small && v.nodes == w.nodes
    requires a.head == w.head && a.foot == w.foot
    requires nb >= MIN_CHUNK_SIZE && nb % 8 == 0 && nb < w.topsize
    ensures var p, s := w.top, w.topsize;
      var h' := w.head[p + nb := Head(s - nb, false, true)][p := Head(nb, true, true)];
      var heap' := Patch(w.heap, p, p + s, Two(p, Chunk(nb, Live), Chunk(s - nb, Top)));
      && ViewsExcept(w.(head := h', heap := heap', top := p + nb, topsize := s - nb), {}) && BinsInv(h', v)
      && p + nb != 0 && Given(w.heap, heap', p, nb) && Quiet(a, a.(head := h'), Lives(w.heap))
  {
    hide BinsInv, Phys, IndexExcept, Inner, TopInv, SegsInv, Patch, Two, HeadAt, HeadsInside, InnerPatch, FreeOf, Quiet, Lives;
    var p, s := w.top, w.topsize;
    var d := Two(p, Chunk(nb, Live), Chunk(s - nb, Top));
    var h' := w.head[p + nb := Head(s - nb, false, true)][p := Head(nb, true, true)];
    TopStretch(w);
    TwoChunks(w.heap, p, Chunk(nb, Live), Chunk(s - nb, Top));
    TwoHeads(w.head, p, p + nb, p + s, Head(nb, true, true), Head(s - nb, false, true), h');
    assert TopMoves(p, p + s, d, w.top, w.topsize, p + nb, s - nb) && OutInside(w.heap, {}, p, p + s);
    hide OutInside, TopMoves;
    SplitTop(w.head, w.foot, w.heap, p, nb);
    StretchPatched(w, v, {}, p, p + s, d, h', w.foot, p + nb, s - nb);
    TwoGiven(w, a, p, Chunk(nb, Live), Chunk(s - nb, Top), h', w.foot);
    assert a.(head := h') == a.(head := h', foot := w.foot);
  }

  /** The words of a split of top. */
  method WriteTopSplit(m: Mstate, nb: int, ghost heap': Chunks) returns (p: int)
    modifies m`head, m`heap, m`top, m`topsize
    ensures p == old(m.top) && m.top == p + nb && m.topsize == old(m.topsize) - nb && m.heap == heap'
    ensures m.head == old(m.head)[p + nb := Head(m.topsize, false, true)][p := Head(nb, true, true)]
  {
    m.topsize := m.topsize - nb;
    var rsize := m.topsize;
    p := m.top;
    m.top := p + nb;
    var r := m.top;
    m.head := m.head[r := Head(rsize, false, true)];
    m.head := m.head[p := Head(nb, true, true)];
    m.heap := heap';
  }

  /** Splitting `nb` bytes off top. */
  method TakeFromTop(m: Mstate, nb: int) returns (p: int)
    requires ValidExcept(m, {}) && m.top != 0
    requires nb >= MIN_CHUNK_SIZE && nb % 8 == 0 && nb < m.topsize
    modifies m`head, m`heap, m`top, m`topsize
    ensures ValidExcept(m, {}) && p == old(m.top) && Given(old(m.heap), m.heap, p, nb)
    ensures m.top == p + nb && m.top != 0 && m.topsize == old(m.topsize) - nb
    ensures Quiet(old(MemoryOf(m)), MemoryOf(m), Lives(old(m.heap)))
    ensures HeadAt(m.head, p).pinuse
    ensures PlanOf(m) == CutTop(old(PlanOf(m)), nb)
  {
    hide BinsInv, Books, ViewsExcept, Patch, Two, Inner, Given, Quiet, Lives;
    TakeTopViews(WorldOf(m), BinsOf(m), MemoryOf(m), nb);
    p := WriteTopSplit(m, nb, Patch(m.heap, m.top, m.top + m.topsize, Two(m.top, Chunk(nb, Live), Chunk(m.topsize - nb, Top))));
  }
}
