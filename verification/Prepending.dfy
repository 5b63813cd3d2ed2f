/** A region right below a known segment: the request is carved from its front, the rest joins the
    first chunk behind it. */
module Prepending {
  import opened Words
  import opened Rings
  import opened Trie
  import opened State
  import opened Index
  import opened Heap
  import opened Payload
  import opened Invariant
  import opened Taking
  import opened Regions

  /** Region `[tb, te)` ends where segment `i` begins; the stretch up to `b` is rewritten, of which
      whatever lies behind `te` is one chunk that may be merged. */
  ghost predicate PrependAt(w: World, i: int, tb: int, te: int, b: int) {
    && 0 <= i < |w.segs| && Fresh(w.segs, tb, te) && w.segs[i].base == te
    && te in w.heap && (b == te || (b == te + w.heap[te].size && (w.heap[te].use == Free || w.heap[te].use == Top)))
  }

  ghost function BaseAt(segs: seq<Seg>, i: int, tb: int): seq<Seg>
    requires 0 <= i < |segs|
  {
    segs[i := segs[i].(base := tb)]
  }

  /** What is in the stretch, and where it ends. */
  lemma PrependStretch(w: World, out: set<int>, i: int, tb: int, te: int, b: int)
    requires ViewsExcept(w, out) && w.top != 0 && PrependAt(w, i, tb, te, b)
    ensures Whole(w.heap, tb, b) && tb !in w.heap && te <= b < w.segs[i].end && b in w.heap
    ensures w.heap[te].use == Live || w.heap[te].use == Free || w.heap[te].use == Top
    ensures forall x :: x in w.heap && tb <= x < b ==> x == te
    ensures b == te ==> HeadAt(w.head, te).pinuse
    ensures b != te ==> Follows(w.heap[te].use, w.heap[b].use)
    ensures b != te && w.heap[te].use == Free ==> !HeadAt(w.head, b).pinuse
  {
    var c := w.heap;
    assert ChunkOk(w.head, w.foot, c, te) && BaseOk(w.head, c, w.segs[i]);
    assert b != te ==> ChunkOk(w.head, w.foot, c, b);
    forall x | x in c
      ensures x < tb ==> x + c[x].size <= tb
      ensures tb <= x < b ==> x == te && x + c[x].size <= b
    {
      PrependPlaceOf(w, out, i, tb, te, b, x);
    }
    SegmentOfBase(w, out, i, tb, te, b);
    hide ViewsExcept, SegsInv, Phys;
  }

  lemma PrependPlaceOf(w: World, out: set<int>, i: int, tb: int, te: int, b: int, x: int)
    requires ViewsExcept(w, out) && w.top != 0 && PrependAt(w, i, tb, te, b) && x in w.heap
    ensures x < tb ==> x + w.heap[x].size <= tb
    ensures tb <= x < b ==> x == te && x + w.heap[x].size <= b
  {
    Sizes(w.head, w.foot, w.heap);
    NoChunks(w.head, w.heap, w.segs, w.top, w.topsize, tb, te, x);
    assert x < te || x == te || te < x;
  }

  /** The chunk at the base of a segment ends within it. */
  lemma SegmentOfBase(w: World, out: set<int>, i: int, tb: int, te: int, b: int)
    requires ViewsExcept(w, out) && w.top != 0 && PrependAt(w, i, tb, te, b)
    ensures te in w.heap && te + w.heap[te].size < w.segs[i].end && te < w.segs[i].end
  {
    assert BaseOk(w.head, w.heap, w.segs[i]) && Covered(w.heap, w.segs, te);
    Sizes(w.head, w.foot, w.heap);
    var j :| 0 <= j < |w.segs| && InSeg(w.heap, w.segs[j], te);
    assert SegsApart(w.segs);
    assert i < j || j < i || i == j;
  }

  /** The chunks of the rewritten stretch: the new block and what is left. */
  ghost predicate PrependChunks(d: Chunks, tb: int, b: int) {
    && tb in d && d[tb].use == Live
    && forall x :: x in d ==> tb <= x < b && d[x].size > 0 && x + d[x].size <= b && Ordinary(d[x].use)
  }

  lemma PrependOthers(w: World, out: set<int>, i: int, tb: int, te: int, b: int, d: Chunks, h': Heads, j: int)
    requires ViewsExcept(w, out) && w.top != 0 && PrependAt(w, i, tb, te, b) && PrependChunks(d, tb, b)
    requires forall x :: !(tb <= x <= b) ==> HeadAt(h', x) == HeadAt(w.head, x)
    requires 0 <= j < |w.segs| && j != i
    ensures BaseOk(h', Patch(w.heap, tb, b, d), w.segs[j]) && (j > 0 ==> TailOk(Patch(w.heap, tb, b, d), w.segs[j]))
    ensures w.segs[j].end <= tb || b < w.segs[j].base
  {
    PrependStretch(w, out, i, tb, te, b);
    assert BaseOk(w.head, w.heap, w.segs[j]) && (j > 0 ==> TailOk(w.heap, w.segs[j]));
    assert SegsApart(w.segs) && (i < j || j < i);
    hide ViewsExcept, TailOk;
    SegElsewhere(w.head, w.heap, w.segs[j], tb, b, d, h');
  }

  /** A record behind the stretch still ends its segment. */
  lemma TailStays(c: Chunks, g: Seg, a: int, b: int, d: Chunks, g': Seg)
    requires TailOk(c, g) && b <= g.rec - 16 && forall x :: x in d ==> a <= x < b && Ordinary(d[x].use)
    requires g'.rec == g.rec && g'.end == g.end && g'.base == a <= g.rec - 16 && g.base <= b
    ensures TailOk(Patch(c, a, b, d), g')
  {
    var c' := Patch(c, a, b, d);
    forall x | x in c' && g.rec - 16 + RECORD_SIZE <= x < g.end
      ensures c'[x].use == Fence
    {
      assert c[x].use == Fence;
    }
  }

  lemma PrependRecord(w: World, out: set<int>, i: int, tb: int, te: int, b: int)
    requires ViewsExcept(w, out) && w.top != 0 && PrependAt(w, i, tb, te, b)
    ensures i > 0 ==> TailOk(w.heap, w.segs[i]) && b <= w.segs[i].rec - 16
    ensures BaseOk(w.head, w.heap, w.segs[i]) && w.segs[i].base <= b
  {
    PrependStretch(w, out, i, tb, te, b);
    assert BaseOk(w.head, w.heap, w.segs[i]);
    if i > 0 {
      assert TailOk(w.heap, w.segs[i]);
      var r := w.segs[i].rec - 16;
      assert r in w.heap && w.heap[r].use == Record && te <= r;
      assert !(tb <= r < b);
    }
  }

  lemma PrependSelf(w: World, out: set<int>, i: int, tb: int, te: int, b: int, d: Chunks, h': Heads)
    requires ViewsExcept(w, out) && w.top != 0 && PrependAt(w, i, tb, te, b) && PrependChunks(d, tb, b)
    requires HeadAt(h', tb).pinuse
    ensures var g := BaseAt(w.segs, i, tb)[i];
      BaseOk(h', Patch(w.heap, tb, b, d), g) && (i > 0 ==> TailOk(Patch(w.heap, tb, b, d), g))
  {
    PrependRecord(w, out, i, tb, te, b);
    hide ViewsExcept, TailOk;
    if i > 0 {
      TailStays(w.heap, w.segs[i], tb, b, d, BaseAt(w.segs, i, tb)[i]);
    }
  }

  lemma PrependCovered(w: World, out: set<int>, i: int, tb: int, te: int, b: int, d: Chunks, x: int)
    requires ViewsExcept(w, out) && w.top != 0 && PrependAt(w, i, tb, te, b) && PrependChunks(d, tb, b)
    requires x in Patch(w.heap, tb, b, d)
    ensures Covered(Patch(w.heap, tb, b, d), BaseAt(w.segs, i, tb), x)
  {
    PrependStretch(w, out, i, tb, te, b);
    var c', segs := Patch(w.heap, tb, b, d), BaseAt(w.segs, i, tb);
    if x in d {
      assert InSeg(c', segs[i], x);
    } else {
      assert Covered(w.heap, w.segs, x);
      var j :| 0 <= j < |w.segs| && InSeg(w.heap, w.segs[j], x);
      hide ViewsExcept;
      assert InSeg(c', segs[j], x);
    }
  }

  lemma PrependApart(w: World, out: set<int>, i: int, tb: int, te: int, b: int)
    requires ViewsExcept(w, out) && w.top != 0 && PrependAt(w, i, tb, te, b)
    ensures SegsApart(BaseAt(w.segs, i, tb))
  {
    assert SegsApart(w.segs);
    forall j | 0 <= j < |w.segs|
      ensures w.segs[j].base < w.segs[j].end
    {
      assert BaseOk(w.head, w.heap, w.segs[j]);
    }
    hide ViewsExcept;
  }

  lemma PrependEach(w: World, out: set<int>, i: int, tb: int, te: int, b: int, d: Chunks, h': Heads, j: int)
    requires ViewsExcept(w, out) && w.top != 0 && PrependAt(w, i, tb, te, b) && PrependChunks(d, tb, b)
    requires forall x :: !(tb <= x <= b) ==> HeadAt(h', x) == HeadAt(w.head, x)
    requires HeadAt(h', tb).pinuse && 0 <= j < |w.segs|
    ensures var g := BaseAt(w.segs, i, tb)[j];
      BaseOk(h', Patch(w.heap, tb, b, d), g) && (j > 0 ==> TailOk(Patch(w.heap, tb, b, d), g))
  {
    hide ViewsExcept, PrependChunks, Patch, BaseOk, TailOk, HeadAt;
    if j == i {
      PrependSelf(w, out, i, tb, te, b, d, h');
    } else {
      PrependOthers(w, out, i, tb, te, b, d, h', j);
    }
  }

  lemma PrependSegs(w: World, out: set<int>, i: int, tb: int, te: int, b: int, d: Chunks, h': Heads, top': int, topsize': int)
    requires ViewsExcept(w, out) && w.top != 0 && PrependAt(w, i, tb, te, b) && PrependChunks(d, tb, b)
    requires forall x :: !(tb <= x <= b) ==> HeadAt(h', x) == HeadAt(w.head, x)
    requires HeadAt(h', tb).pinuse
    requires top' + topsize' == w.top + w.topsize && (top' == w.top || (i == 0 && tb <= top'))
    ensures SegsInv(h', Patch(w.heap, tb, b, d), BaseAt(w.segs, i, tb), top', topsize')
  {
    var c', segs := Patch(w.heap, tb, b, d), BaseAt(w.segs, i, tb);
    hide ViewsExcept, PrependAt, PrependChunks, Patch, Covered, BaseOk, TailOk, SegsApart, HeadAt, SegsInv;
    PrependRange(w, out, i, tb, te, b, d, top', topsize');
    hide BaseAt;
    forall j | 0 <= j < |segs|
      ensures BaseOk(h', c', segs[j])
    {
      PrependEach(w, out, i, tb, te, b, d, h', j);
    }
    forall j | 0 < j < |segs|
      ensures TailOk(c', segs[j])
    {
      PrependEach(w, out, i, tb, te, b, d, h', j);
    }
    forall x | x in c'
      ensures Covered(c', segs, x)
    {
      PrependCovered(w, out, i, tb, te, b, d, x);
    }
    PrependApart(w, out, i, tb, te, b);
    PrependInterior(w, out, i, tb, te, b, d);
    SegsAssemble(h', c', segs, top', topsize');
  }

  lemma PrependInterior(w: World, out: set<int>, i: int, tb: int, te: int, b: int, d: Chunks)
    requires ViewsExcept(w, out) && w.top != 0 && PrependAt(w, i, tb, te, b) && PrependChunks(d, tb, b)
    ensures |w.segs| > 0 && Interior(Patch(w.heap, tb, b, d), BaseAt(w.segs, i, tb)[0].base, w.top + w.topsize)
  {
    PrependStretch(w, out, i, tb, te, b);
    SegsBasics(w.head, w.heap, w.segs, w.top, w.topsize);
    hide ViewsExcept, Interior, Patch;
    InteriorPatch(w.heap, tb, b, d, w.segs[0].base, w.top + w.topsize, BaseAt(w.segs, i, tb)[0].base);
  }

  lemma PrependRange(w: World, out: set<int>, i: int, tb: int, te: int, b: int, d: Chunks, top': int, topsize': int)
    requires ViewsExcept(w, out) && w.top != 0 && PrependAt(w, i, tb, te, b)
    requires PrependChunks(d, tb, b)
    requires top' + topsize' == w.top + w.topsize && (top' == w.top || (i == 0 && tb <= top'))
    ensures |BaseAt(w.segs, i, tb)| == |w.segs| > 0
    ensures BaseAt(w.segs, i, tb)[0].base <= top'
    ensures top' + topsize' + TOP_FOOT_SIZE == BaseAt(w.segs, i, tb)[0].end
    ensures var t, c' := top' + topsize', Patch(w.heap, tb, b, d); t in c' && c'[t] == Chunk(TOP_FOOT_SIZE, Trailer)
  {
    PrependStretch(w, out, i, tb, te, b);
  }

  /** The words of a prepended block: the block, what is left, and the chunk behind. */
  ghost predicate PrependWords(h: Heads, foot: Field, h': Heads, foot': Field, tb: int, nb: int, l: Chunk, b: int) {
    && HeadAt(h', tb) == Head(nb, true, true) && HeadAt(h', tb + nb) == Head(l.size, false, true)
    && HeadAt(h', b) == HeadAt(h, b).(pinuse := false)
    && (forall x :: x != tb && x != tb + nb && x != b ==> HeadAt(h', x) == HeadAt(h, x))
    && foot' == (if l.use == Free then foot[b := l.size] else foot)
  }

  /** What is left of the region has merged with a free first chunk, with top, or with nothing. */
  ghost predicate PrependMerge(w: World, te: int, b: int, l: Chunk) {
    && te in w.heap
    && (l.use == Top ==> b != te && w.heap[te].use == Top)
    && (l.use == Free ==> if b == te then w.heap[te].use == Live else w.heap[te].use == Free)
    && (l.use == Free || l.use == Top)
  }

  lemma PrependPhys(w: World, out: set<int>, i: int, tb: int, te: int, b: int, nb: int, l: Chunk, h': Heads, foot': Field)
    requires ViewsExcept(w, out) && w.top != 0 && PrependAt(w, i, tb, te, b) && PrependMerge(w, te, b, l)
    requires nb >= MIN_CHUNK_SIZE && nb % 8 == 0 && SizeFits(l) && b == tb + nb + l.size
    requires PrependWords(w.head, w.foot, h', foot', tb, nb, l, b)
    ensures Phys(h', foot', Patch(w.heap, tb, b, Two(tb, Chunk(nb, Live), l)))
  {
    hide Phys, IndexExcept, SegsInv, TopInv, Whole;
    PrependStretch(w, out, i, tb, te, b);
    PrependRight(w, out, i, tb, te, b, l);
    hide PrependMerge;
    assert TwoFits(w.head, w.foot, h', foot', w.heap, tb, b, Chunk(nb, Live), l);
    hide TwoFits;
    PatchTwo(w.head, w.foot, h', foot', w.heap, tb, b, Chunk(nb, Live), l);
  }

  lemma PrependRight(w: World, out: set<int>, i: int, tb: int, te: int, b: int, l: Chunk)
    requires ViewsExcept(w, out) && w.top != 0 && PrependAt(w, i, tb, te, b) && PrependMerge(w, te, b, l)
    ensures b in w.heap && Follows(l.use, w.heap[b].use) && b % 8 == 0 && tb % 8 == 0 && tb > 0
    ensures l.use == Top ==> !HeadAt(w.head, b).pinuse && w.heap[b].use == Trailer && te == w.top && b == w.top + w.topsize
    ensures l.use == Free ==> w.heap[te].use != Top
    ensures l.use == Top ==> i == 0
  {
    PrependStretch(w, out, i, tb, te, b);
    assert SegsApart(w.segs) && BaseOk(w.head, w.heap, w.segs[i]) && BaseOk(w.head, w.heap, w.segs[0]);
    assert ChunkOk(w.head, w.foot, w.heap, b);
  }

  /** The views after a prepended block. */
  lemma Prepended(w: World, v: BinView, a: Memory, out: set<int>, i: int, tb: int, te: int, b: int, nb: int, l: Chunk,
                  h': Heads, foot': Field)
    requires ViewsExcept(w, out) && BinsInv(w.head, v) && v.small == w.small && v.nodes == w.nodes && w.top != 0
    requires a.head == w.head && a.foot == w.foot
    requires PrependAt(w, i, tb, te, b) && PrependMerge(w, te, b, l) && OutInside(w.heap, out, tb, b)
    requires nb >= MIN_CHUNK_SIZE && nb % 8 == 0 && SizeFits(l) && b == tb + nb + l.size && l.size > 0
    requires PrependWords(w.head, w.foot, h', foot', tb, nb, l, b)
    ensures var heap' := Patch(w.heap, tb, b, Two(tb, Chunk(nb, Live), l));
      && (l.use == Free ==>
           ViewsExcept(w.(head := h', foot := foot', heap := heap', segs := BaseAt(w.segs, i, tb)), {tb + nb})
           && FreeAt(heap', l.size, tb + nb))
      && (l.use == Top ==>
           ViewsExcept(w.(head := h', foot := foot', heap := heap', segs := BaseAt(w.segs, i, tb),
                          top := tb + nb, topsize := l.size), {}))
      && BinsInv(h', v) && Given(w.heap, heap', tb, nb) && Quiet(a, a.(head := h', foot := foot'), Lives(w.heap))
  {
    hide Phys, IndexExcept, SegsInv, TopInv, Two, Patch, BinsInv, Quiet, Lives, Given, Fresh, BaseAt;
    var d, q := Two(tb, Chunk(nb, Live), l), tb + nb;
    TwoChunks(w.heap, tb, Chunk(nb, Live), l);
    PrependRight(w, out, i, tb, te, b, l);
    PrependStretch(w, out, i, tb, te, b);
    PrependPhys(w, out, i, tb, te, b, nb, l, h', foot');
    var top', topsize' := if l.use == Top then q else w.top, if l.use == Top then l.size else w.topsize;
    PrependTop(w, out, i, tb, te, b, nb, l);
    assert PrependChunks(d, tb, b);
    assert forall x :: !(tb <= x <= b) ==> HeadAt(h', x) == HeadAt(w.head, x);
    assert forall x :: !(tb <= x < b) ==> SizeAt(h', x) == SizeAt(w.head, x);
    PrependGiven(w, a, tb, te, b, nb, l, h', foot');
    hide PrependWords, InnerPatch, HeadAt, PrependMerge, OutInside;
    PrependSegs(w, out, i, tb, te, b, d, h', top', topsize');
    hide PrependAt, PrependChunks;
    OuterPatched(w, v, out, tb, b, d, h', foot', top', topsize', BaseAt(w.segs, i, tb));
  }

  lemma TopWithTrailer(w: World, out: set<int>)
    requires ViewsExcept(w, out) && w.top != 0
    ensures TopInv(w.heap, w.top, w.topsize) && w.top in w.heap && w.heap[w.top] == Chunk(w.topsize, Top)
    ensures w.top + w.topsize in w.heap && w.heap[w.top + w.topsize].use == Trailer
  {
    hide Phys, IndexExcept;
  }

  lemma PatchKeeps(c: Chunks, a: int, b: int, d: Chunks, x: int)
    requires x in c && !(a <= x < b) && forall y :: y in d ==> a <= y < b
    ensures x in Patch(c, a, b, d) && Patch(c, a, b, d)[x] == c[x]
  {}

  lemma PrependTop(w: World, out: set<int>, i: int, tb: int, te: int, b: int, nb: int, l: Chunk)
    requires ViewsExcept(w, out) && w.top != 0 && PrependAt(w, i, tb, te, b) && PrependMerge(w, te, b, l)
    requires nb > 0 && b == tb + nb + l.size && l.size > 0
    ensures var top', topsize' := if l.use == Top then tb + nb else w.top, if l.use == Top then l.size else w.topsize;
      && TopInv(Patch(w.heap, tb, b, Two(tb, Chunk(nb, Live), l)), top', topsize') && top' != 0
      && top' + topsize' == w.top + w.topsize
  {
    hide ViewsExcept, TopInv, Two, Fresh, PrependAt, Patch;
    var d := Two(tb, Chunk(nb, Live), l);
    PrependRight(w, out, i, tb, te, b, l);
    PrependStretch(w, out, i, tb, te, b);
    TwoChunks(w.heap, tb, Chunk(nb, Live), l);
    TopWithTrailer(w, out);
    if l.use != Top {
      PatchKeeps(w.heap, tb, b, d, w.top);
    }
    TopAfter(w.heap, w.top, w.topsize, tb, b, d,
             if l.use == Top then tb + nb else w.top, if l.use == Top then l.size else w.topsize);
  }

  lemma PrependGiven(w: World, a: Memory, tb: int, te: int, b: int, nb: int, l: Chunk, h': Heads, foot': Field)
    requires a.head == w.head && a.foot == w.foot && Phys(w.head, w.foot, w.heap)
    requires PrependMerge(w, te, b, l) && PrependWords(w.head, w.foot, h', foot', tb, nb, l, b) && b in w.heap
    requires forall x :: x in w.heap && tb <= x < b ==> x == te && x < b
    requires nb > 0 && b == tb + nb + l.size && l.size > 0
    requires b != te ==> te < b
    requires Phys(h', foot', Patch(w.heap, tb, b, Two(tb, Chunk(nb, Live), l)))
    ensures var heap' := Patch(w.heap, tb, b, Two(tb, Chunk(nb, Live), l));
      Given(w.heap, heap', tb, nb) && Quiet(a, a.(head := h', foot := foot'), Lives(w.heap))
  {
    hide Phys, Patch, Two, Quiet, Lives, LivesOutside, Given, InnerPatch;
    var d := Two(tb, Chunk(nb, Live), l);
    var c' := Patch(w.heap, tb, b, d);
    TwoChunks(w.heap, tb, Chunk(nb, Live), l);
    GivenPatch(w.heap, tb, b, d, nb);
    assert l.use == Free ==> FootOf(c', b);
    assert Retag(a, h', foot', w.heap, c');
    hide Retag;
    PatchQuiet(a, h', foot', w.heap, tb, b, d);
  }
}
