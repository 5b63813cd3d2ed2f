/** Memory that comes from the system and goes back to it: what happens to the views of the heap. */
module Regions {
  import opened Words
  import opened Rings
  import opened Trie
  import opened State
  import opened Index
  import opened Heap
  import opened Payload
  import opened Invariant
  import opened Taking

  /** The stretch from `tb` up to `te` is aligned memory that no segment has. */
  predicate Fresh(segs: seq<Seg>, tb: int, te: int) {
    && 0 < tb < te < W64 && tb % 8 == 0 && te % 8 == 0
    && forall i :: 0 <= i < |segs| ==> te <= segs[i].base || segs[i].end <= tb
  }

  /** An address strictly inside no segment: if a chunk starts there, so does a segment. */
  lemma Edge(h: Heads, foot: Field, c: Chunks, segs: seq<Seg>, top: int, topsize: int, e: int)
    requires SegsInv(h, c, segs, top, topsize) && Phys(h, foot, c)
    requires forall i :: 0 <= i < |segs| ==> segs[i].end <= e || e <= segs[i].base
    ensures e in c ==> HeadAt(h, e).pinuse && exists i :: 0 <= i < |segs| && segs[i].base == e
  {
    if e in c {
      assert Covered(c, segs, e) && ChunkOk(h, foot, c, e);
      var i :| 0 <= i < |segs| && InSeg(c, segs[i], e);
      assert BaseOk(h, c, segs[i]);
      hide SegsInv, Phys, ChunkOk, HeadOk, NextOk, PrevOk;
      assert segs[i].base == e;
    }
  }

  /** No chunk lies in memory that no segment has, or reaches into it. */
  lemma NoChunks(h: Heads, c: Chunks, segs: seq<Seg>, top: int, topsize: int, tb: int, te: int, x: int)
    requires SegsInv(h, c, segs, top, topsize) && Fresh(segs, tb, te) && x in c && c[x].size > 0
    ensures x + c[x].size <= tb || te <= x
  {
    assert Covered(c, segs, x);
    var i :| 0 <= i < |segs| && InSeg(c, segs[i], x);
  }

  /** A segment away from a patched stretch stands. */
  lemma SegElsewhere(h: Heads, c: Chunks, g: Seg, a: int, b: int, d: Chunks, h': Heads)
    requires g.end <= a || b <= g.base
    requires forall x :: x in d ==> a <= x < b
    ensures BaseOk(h, c, g) && HeadAt(h', g.base).pinuse ==> BaseOk(h', Patch(c, a, b, d), g)
    ensures TailOk(c, g) ==> TailOk(Patch(c, a, b, d), g)
  {
    var c' := Patch(c, a, b, d);
    if TailOk(c, g) {
      forall x | x in c' && g.rec - 16 + RECORD_SIZE <= x < g.end
        ensures c'[x].use == Fence
      {
        assert c[x].use == Fence;
      }
      assert c[g.end - 16].use == Fence;
    }
  }

  /** Where top is after a patch. */
  lemma TopAfter(c: Chunks, top: int, topsize: int, a: int, b: int, d: Chunks, top': int, topsize': int)
    requires TopInv(c, top, topsize)
    requires forall x :: x in d ==> a <= x < b
    requires top' in Patch(c, a, b, d) && Patch(c, a, b, d)[top'] == Chunk(topsize', Top)
    requires forall x :: x in d && d[x].use == Top ==> x == top'
    requires forall x :: x in d && d[x].use == Trailer ==> x == top' + topsize'
    requires a <= top < b || top' == top
    requires a <= top + topsize < b || top' + topsize' == top + topsize
    ensures TopInv(Patch(c, a, b, d), top', topsize')
  {}

  /** A patch that changes the segments: the views after it. */
  lemma OuterPatched(w: World, v: BinView, out: set<int>, a: int, b: int, d: Chunks, h': Heads, foot': Field,
                     top': int, topsize': int, segs': seq<Seg>)
    requires ViewsExcept(w, out) && BinsInv(w.head, v) && v.small == w.small && v.nodes == w.nodes
    requires Phys(h', foot', Patch(w.heap, a, b, d)) && OutInside(w.heap, out, a, b)
    requires forall x :: x in d ==> a <= x < b
    requires forall x :: !(a <= x < b) ==> SizeAt(h', x) == SizeAt(w.head, x)
    requires top' != 0 && TopInv(Patch(w.heap, a, b, d), top', topsize')
    requires SegsInv(h', Patch(w.heap, a, b, d), segs', top', topsize')
    ensures ViewsExcept(w.(head := h', foot := foot', heap := Patch(w.heap, a, b, d), top := top', topsize := topsize',
                           segs := segs'), FreeOf(d))
    ensures BinsInv(h', v)
  {
    hide BinsInv, Phys, SegsInv, TopInv, Patch, IndexExcept;
    BinsIgnore(w, out, v, a, b, h');
    IndexPatch(w.heap, w.dv, w.dvsize, w.small, w.nodes, out, a, b, d);
  }

  // ---- a new end of top: first region, appended region, trimmed region

  /** init_top's head words. */
  function TopHeads(h: Heads, p: int, s: int): Heads {
    h[p := Head(s, false, true)][p + s := Head(TOP_FOOT_SIZE, false, false)]
  }

  lemma TopHeadsAt(h: Heads, p: int, s: int, b: int)
    requires s > 0 && p + s < b
    ensures var h' := TopHeads(h, p, s);
      && HeadAt(h', p) == Head(s, false, true)
      && (forall x :: !(p <= x < b) ==> HeadAt(h', x) == HeadAt(h, x) && SizeAt(h', x) == SizeAt(h, x))
      && (forall x :: HeadAt(h', x) != HeadAt(h, x) ==> x == p || x == p + s)
  {}

  ghost function TopAndTrailer(p: int, s: int): Chunks {
    Two(p, Chunk(s, Top), Chunk(TOP_FOOT_SIZE, Trailer))
  }

  lemma TopTwo(p: int, s: int)
    requires s > 0
    ensures var d := TopAndTrailer(p, s);
      && p in d && d[p] == Chunk(s, Top) && p + s in d && d[p + s] == Chunk(TOP_FOOT_SIZE, Trailer)
      && (forall x :: x in d ==> x == p || x == p + s)
      && FreeOf(d) == {} && Lives(d) == map[]
  {
    assert TopAndTrailer(p, s).Keys == {p, p + s};
  }

  /** Where top may be put: on the old top, or at the start of memory nobody has. */
  ghost predicate TopFits(h: Heads, c: Chunks, p: int, b: int) {
    && p > 0 && p % 8 == 0 && Whole(c, p, b)
    && (if p in c then c[p].use == Top && HeadAt(h, p).pinuse else true)
    && (b in c ==> HeadAt(h, b).pinuse)
  }

  lemma TopPhys(h: Heads, foot: Field, c: Chunks, p: int, s: int, b: int)
    requires Phys(h, foot, c) && TopFits(h, c, p, b) && s > 0 && s % 8 == 0 && p + s + TOP_FOOT_SIZE <= b
    ensures Phys(TopHeads(h, p, s), foot, Patch(c, p, b, TopAndTrailer(p, s)))
  {
    hide Phys, Whole;
    assert TwoFits(h, foot, TopHeads(h, p, s), foot, c, p, b, Chunk(s, Top), Chunk(TOP_FOOT_SIZE, Trailer));
    hide TwoFits;
    PatchTwo(h, foot, TopHeads(h, p, s), foot, c, p, b, Chunk(s, Top), Chunk(TOP_FOOT_SIZE, Trailer));
  }

  /** New head words at the front and at the trailer leave the payloads alone. */
  lemma TopQuiet(a: Memory, c: Chunks, p: int, s: int, b: int)
    requires Phys(a.head, a.foot, c) && s > 0 && p + s < b
    requires Phys(TopHeads(a.head, p, s), a.foot, Patch(c, p, b, TopAndTrailer(p, s)))
    requires forall x :: x in c && p <= x < b ==> c[x].use != Live
    ensures var c' := Patch(c, p, b, TopAndTrailer(p, s));
      Quiet(a, a.(head := TopHeads(a.head, p, s)), Lives(c)) && Lives(c') == Lives(c)
  {
    hide Phys, Quiet, Lives, LivesOutside, TopAndTrailer, TopHeads, HeadAt, At;
    var d, h' := TopAndTrailer(p, s), TopHeads(a.head, p, s);
    TopTwo(p, s);
    TopHeadsAt(a.head, p, s, b);
    assert Retag(a, h', a.foot, c, Patch(c, p, b, d));
    hide Patch, Retag;
    LivesPatch(c, p, b, d);
    PatchQuiet(a, h', a.foot, c, p, b, d);
    assert a.(head := h') == a.(head := h', foot := a.foot);
    assert Lives(c) + map[] == Lives(c);
  }

  lemma FirstSegs(h: Heads, tb: int, te: int)
    requires Fresh([], tb, te) && te - tb >= MIN_SEGMENT_SIZE && HeadAt(h, tb).pinuse
    ensures var s := te - tb - TOP_FOOT_SIZE;
      var c := Patch(map[], tb, te, TopAndTrailer(tb, s));
      SegsInv(h, c, [Seg(SEG_HEAD, tb, te)], tb, s) && TopInv(c, tb, s)
  {
    var s := te - tb - TOP_FOOT_SIZE;
    var d, segs := TopAndTrailer(tb, s), [Seg(SEG_HEAD, tb, te)];
    TopTwo(tb, s);
    assert Patch(map[], tb, te, d) == d;
    hide Patch, TopAndTrailer;
    forall x | x in d
      ensures Covered(d, segs, x)
    {
      assert InSeg(d, segs[0], x);
    }
    assert BaseOk(h, d, segs[0]);
  }

  /** Before the first region there are no chunks. */
  lemma NothingYet(w: World, tb: int, te: int)
    requires ViewsExcept(w, {}) && w.top == 0 && Fresh([], tb, te) && te - tb >= MIN_SEGMENT_SIZE
    ensures w.heap == map[] && Phys(w.head, w.foot, w.heap)
    ensures TopFits(w.head, w.heap, tb, te) && OutInside(w.heap, {}, tb, te)
    ensures tb > 0 && tb % 8 == 0 && te % 8 == 0 && TOP_FOOT_SIZE * 2 == MIN_SEGMENT_SIZE
  {
    hide Phys, IndexExcept;
  }

  /** The first region. */
  lemma FirstRegion(w: World, v: BinView, a: Memory, tb: int, te: int)
    requires ViewsExcept(w, {}) && BinsInv(w.head, v) && v.small == w.small && v.nodes == w.nodes && w.top == 0
    requires a.head == w.head && a.foot == w.foot
    requires Fresh([], tb, te) && te - tb >= MIN_SEGMENT_SIZE
    ensures var s := te - tb - TOP_FOOT_SIZE;
      var h' := TopHeads(w.head, tb, s);
      var heap' := Patch(w.heap, tb, te, TopAndTrailer(tb, s));
      && ViewsExcept(w.(head := h', heap := heap', top := tb, topsize := s, segs := [Seg(SEG_HEAD, tb, te)]), {})
      && BinsInv(h', v) && Quiet(a, a.(head := h'), Lives(w.heap)) && Lives(heap') == Lives(w.heap)
  {
    hide ViewsExcept, BinsInv, Phys, Quiet, Lives, TopAndTrailer, TopHeads, Patch, SegsInv, TopInv, TopFits, OutInside, HeadAt, Fresh;
    var s := te - tb - TOP_FOOT_SIZE;
    var h', d := TopHeads(w.head, tb, s), TopAndTrailer(tb, s);
    TopTwo(tb, s);
    TopHeadsAt(w.head, tb, s, te);
    NothingYet(w, tb, te);
    FirstSegs(h', tb, te);
    TopPhys(w.head, w.foot, w.heap, tb, s, te);
    TopQuiet(a, w.heap, tb, s, te);
    OuterPatched(w, v, {}, tb, te, d, h', w.foot, tb, s, [Seg(SEG_HEAD, tb, te)]);
  }

  /** The end of the newest segment moves to `e`; the stretch from top up to `b` is rewritten. */
  ghost predicate EndMoves(segs: seq<Seg>, top: int, e: int, b: int) {
    && |segs| > 0 && top + MIN_SEGMENT_SIZE <= e && e % 8 == 0
    && (if segs[0].end < e then b == e && Fresh(segs, segs[0].end, e) else b == segs[0].end)
  }

  ghost function EndedAt(segs: seq<Seg>, e: int): seq<Seg>
    requires |segs| > 0
  {
    segs[0 := segs[0].(end := e)]
  }

  /** Around the stretch there is nothing but top and its trailer in it. */
  lemma EndStretch(w: World, e: int, b: int)
    requires ViewsExcept(w, {}) && w.top != 0 && EndMoves(w.segs, w.top, e, b)
    ensures TopFits(w.head, w.heap, w.top, b) && HeadAt(w.head, w.top).pinuse
    ensures w.segs[0].base <= w.top && w.segs[0].end == w.top + w.topsize + TOP_FOOT_SIZE && w.top % 8 == 0
    ensures w.topsize > 0 && w.top + w.topsize < b
    ensures forall x :: x in w.heap && w.top <= x < b ==> w.heap[x].use == Top || w.heap[x].use == Trailer
  {
    var c, top, t := w.heap, w.top, w.top + w.topsize;
    assert ChunkOk(w.head, w.foot, c, top) && ChunkOk(w.head, w.foot, c, t);
    assert Apart(c) && c[top].size > 0 && t in c && c[t].use == Trailer;
    Sizes(w.head, w.foot, c);
    Edge(w.head, w.foot, c, w.segs, top, w.topsize, b);
    forall x | x in c
      ensures x < top ==> x + c[x].size <= top
      ensures top <= x < b ==> x == top || x == t
      ensures x < b ==> x + c[x].size <= b
    {
      if w.segs[0].end < e {
        NoChunks(w.head, c, w.segs, top, w.topsize, w.segs[0].end, e, x);
      }
      assert x < top || x == top || top < x;
      assert x < t || x == t || t < x;
    }
  }

  lemma EndOthers(h: Heads, c: Chunks, segs: seq<Seg>, top: int, topsize: int, e: int, b: int, d: Chunks, h': Heads, i: int)
    requires SegsInv(h, c, segs, top, topsize) && EndMoves(segs, top, e, b) && 0 < i < |segs|
    requires forall x :: x in d ==> top <= x < b
    requires forall x :: !(top <= x < b) ==> HeadAt(h', x) == HeadAt(h, x)
    ensures BaseOk(h', Patch(c, top, b, d), segs[i]) && TailOk(Patch(c, top, b, d), segs[i])
    ensures segs[i].end <= top || b <= segs[i].base
  {
    assert BaseOk(h, c, segs[i]) && TailOk(c, segs[i]) && BaseOk(h, c, segs[0]);
    assert SegsApart(segs);
    hide SegsInv, TailOk;
    SegElsewhere(h, c, segs[i], top, b, d, h');
  }

  lemma EndCovered(w: World, e: int, b: int, x: int)
    requires ViewsExcept(w, {}) && w.top != 0 && EndMoves(w.segs, w.top, e, b)
    requires x in Patch(w.heap, w.top, b, TopAndTrailer(w.top, e - TOP_FOOT_SIZE - w.top))
    ensures Covered(Patch(w.heap, w.top, b, TopAndTrailer(w.top, e - TOP_FOOT_SIZE - w.top)), EndedAt(w.segs, e), x)
  {
    hide ViewsExcept, TopAndTrailer, TopFits;
    var top, s := w.top, e - TOP_FOOT_SIZE - w.top;
    var d, segs := TopAndTrailer(top, s), EndedAt(w.segs, e);
    var c' := Patch(w.heap, top, b, d);
    EndStretch(w, e, b);
    TopTwo(top, s);
    if x in d {
      assert InSeg(c', segs[0], x);
    } else {
      EndOldChunk(w, e, b, x);
    }
  }

  lemma EndOldChunk(w: World, e: int, b: int, x: int)
    requires ViewsExcept(w, {}) && w.top != 0 && EndMoves(w.segs, w.top, e, b)
    requires x in w.heap && !(w.top <= x < b)
    ensures Covered(w.heap, w.segs, x) && x in Patch(w.heap, w.top, b, TopAndTrailer(w.top, e - TOP_FOOT_SIZE - w.top))
    ensures Covered(Patch(w.heap, w.top, b, TopAndTrailer(w.top, e - TOP_FOOT_SIZE - w.top)), EndedAt(w.segs, e), x)
  {
    hide Phys, IndexExcept, TopInv;
    var c, top, s := w.heap, w.top, e - TOP_FOOT_SIZE - w.top;
    var d, segs := TopAndTrailer(top, s), EndedAt(w.segs, e);
    EndStretch(w, e, b);
    TopTwo(top, s);
    assert Covered(c, w.segs, x);
    Sizes(w.head, w.foot, c);
    var i :| 0 <= i < |w.segs| && InSeg(c, w.segs[i], x);
    TopPresent(w);
    hide ViewsExcept, TopAndTrailer;
    InSegMoved(c, w.segs[i], top, b, d, x, if i == 0 then e else w.segs[i].end);
    assert InSeg(Patch(c, top, b, d), segs[i], x);
  }

  lemma TopPresent(w: World)
    requires ViewsExcept(w, {}) && w.top != 0
    ensures w.top in w.heap && Apart(w.heap)
  {
    hide IndexExcept, SegsInv;
  }

  /** A chunk before the stretch stays inside its segment wherever that ends beyond the stretch's start. */
  lemma InSegMoved(c: Chunks, g: Seg, a: int, b: int, d: Chunks, x: int, e: int)
    requires x in c && InSeg(c, g, x) && !(a <= x < b) && c[x].size > 0 && Apart(c) && a in c
    requires forall y :: y in d ==> a <= y < b
    requires e == g.end || (g.end <= b && a < e)
    ensures x in Patch(c, a, b, d) && InSeg(Patch(c, a, b, d), g.(end := e), x)
  {}

  /** The heap after the end of top has moved. */
  ghost function EndHeap(w: World, e: int, b: int): Chunks {
    Patch(w.heap, w.top, b, TopAndTrailer(w.top, e - TOP_FOOT_SIZE - w.top))
  }

  lemma EndBases(w: World, e: int, b: int, c': Chunks, h': Heads, segs: seq<Seg>)
    requires ViewsExcept(w, {}) && w.top != 0 && EndMoves(w.segs, w.top, e, b)
    requires c' == EndHeap(w, e, b) && h' == TopHeads(w.head, w.top, e - TOP_FOOT_SIZE - w.top) && segs == EndedAt(w.segs, e)
    ensures forall i {:trigger BaseOk(h', c', segs[i])} :: 0 <= i < |segs| ==> BaseOk(h', c', segs[i])
    ensures forall i {:trigger TailOk(c', segs[i])} :: 0 < i < |segs| ==> TailOk(c', segs[i])
  {
    hide ViewsExcept, SegsInv, Patch, TopAndTrailer, TopHeads, BaseOk, TailOk, HeadAt, TopFits;
    var top, s := w.top, e - TOP_FOOT_SIZE - w.top;
    EndStretch(w, e, b);
    TopTwo(top, s);
    TopHeadsAt(w.head, top, s, b);
    SegsOf(w);
    EndBase(w, e, b);
    forall i | 0 < i < |segs|
      ensures BaseOk(h', c', segs[i]) && TailOk(c', segs[i])
    {
      EndOthers(w.head, w.heap, w.segs, top, w.topsize, e, b, TopAndTrailer(top, s), h', i);
    }
  }

  lemma SegsOf(w: World)
    requires ViewsExcept(w, {}) && w.top != 0
    ensures SegsInv(w.head, w.heap, w.segs, w.top, w.topsize)
  {
    hide Phys, SegsInv, TopInv, IndexExcept;
  }

  lemma EndSegs(w: World, e: int, b: int)
    requires ViewsExcept(w, {}) && w.top != 0 && EndMoves(w.segs, w.top, e, b)
    ensures SegsInv(TopHeads(w.head, w.top, e - TOP_FOOT_SIZE - w.top), EndHeap(w, e, b), EndedAt(w.segs, e), w.top,
                    e - TOP_FOOT_SIZE - w.top)
  {
    hide ViewsExcept, SegsInv, Patch, TopAndTrailer, TopHeads, Covered, BaseOk, TailOk, SegsApart, Interior, TopFits, HeadAt;
    var c, top, s := w.heap, w.top, e - TOP_FOOT_SIZE - w.top;
    var h', segs, c' := TopHeads(w.head, top, s), EndedAt(w.segs, e), EndHeap(w, e, b);
    EndStretch(w, e, b);
    EndBases(w, e, b, c', h', segs);
    forall x {:trigger Covered(c', segs, x)} | x in c'
      ensures Covered(c', segs, x)
    {
      EndCovered(w, e, b, x);
    }
    SegsOf(w);
    SegsBasics(w.head, c, w.segs, top, w.topsize);
    EndApart(w, e, b);
    EndTrailer(c, top, s, b);
    EndInterior(c, w.segs[0].base, top, s, w.topsize, b);
    SegsAssemble(h', c', segs, top, s);
  }

  lemma EndInterior(c: Chunks, base: int, top: int, s: int, topsize: int, b: int)
    requires Interior(c, base, top + topsize) && topsize >= 0 && s > 0 && top + s < b
    ensures Interior(Patch(c, top, b, TopAndTrailer(top, s)), base, top + s)
  {
    TopTwo(top, s);
    hide TopAndTrailer;
  }

  lemma EndTrailer(c: Chunks, top: int, s: int, b: int)
    requires s > 0 && top + s < b
    ensures var c' := Patch(c, top, b, TopAndTrailer(top, s));
      top + s in c' && c'[top + s] == Chunk(TOP_FOOT_SIZE, Trailer) && top in c' && c'[top] == Chunk(s, Top)
  {
    TopTwo(top, s);
  }

  lemma EndApart(w: World, e: int, b: int)
    requires ViewsExcept(w, {}) && w.top != 0 && EndMoves(w.segs, w.top, e, b)
    ensures SegsApart(EndedAt(w.segs, e))
  {
    assert SegsApart(w.segs) && BaseOk(w.head, w.heap, w.segs[0]) && w.segs[0].base <= w.top;
    forall i | 0 < i < |w.segs|
      ensures w.segs[i].base < w.segs[i].end
    {
      assert BaseOk(w.head, w.heap, w.segs[i]);
    }
    hide ViewsExcept;
  }

  /** The base of a segment is still in order when a stretch behind it, or from it on, is rewritten. */
  lemma BaseStays(h: Heads, c: Chunks, g: Seg, a: int, b: int, d: Chunks, h': Heads, g': Seg)
    requires BaseOk(h, c, g) && g.base <= a < b && a in d && (d[a].use == Live || d[a].use == Free || d[a].use == Top)
    requires forall x :: x in d ==> a <= x < b
    requires HeadAt(h', a).pinuse && forall x :: x < a ==> HeadAt(h', x) == HeadAt(h, x)
    requires g'.base == g.base && g.base + MIN_SEGMENT_SIZE <= g'.end < W64 && g'.end % 8 == 0
    ensures BaseOk(h', Patch(c, a, b, d), g')
  {}

  lemma HeadBase(w: World)
    requires ViewsExcept(w, {}) && w.top != 0
    ensures |w.segs| > 0 && BaseOk(w.head, w.heap, w.segs[0]) && w.segs[0].base <= w.top && w.segs[0].end < W64
  {
    assert BaseOk(w.head, w.heap, w.segs[0]);
  }

  lemma EndBase(w: World, e: int, b: int)
    requires ViewsExcept(w, {}) && w.top != 0 && EndMoves(w.segs, w.top, e, b)
    ensures var s := e - TOP_FOOT_SIZE - w.top;
      BaseOk(TopHeads(w.head, w.top, s), Patch(w.heap, w.top, b, TopAndTrailer(w.top, s)), EndedAt(w.segs, e)[0])
  {
    hide ViewsExcept, TopAndTrailer, TopHeads, TopFits, BaseOk, Patch, HeadAt;
    var s := e - TOP_FOOT_SIZE - w.top;
    HeadBase(w);
    EndStretch(w, e, b);
    TopTwo(w.top, s);
    TopHeadsAt(w.head, w.top, s, b);
    BaseStays(w.head, w.heap, w.segs[0], w.top, b, TopAndTrailer(w.top, s), TopHeads(w.head, w.top, s), EndedAt(w.segs, e)[0]);
  }

  /** The newest segment grows or shrinks at its end, and top with it. */
  lemma EndMoved(w: World, v: BinView, a: Memory, e: int, b: int)
    requires ViewsExcept(w, {}) && BinsInv(w.head, v) && v.small == w.small && v.nodes == w.nodes && w.top != 0
    requires a.head == w.head && a.foot == w.foot && EndMoves(w.segs, w.top, e, b)
    ensures var s := e - TOP_FOOT_SIZE - w.top;
      var h' := TopHeads(w.head, w.top, s);
      var heap' := Patch(w.heap, w.top, b, TopAndTrailer(w.top, s));
      && ViewsExcept(w.(head := h', heap := heap', topsize := s, segs := EndedAt(w.segs, e)), {})
      && BinsInv(h', v) && Quiet(a, a.(head := h'), Lives(w.heap)) && Lives(heap') == Lives(w.heap)
  {
    hide BinsInv, Phys, IndexExcept, Quiet, Lives, TopAndTrailer, TopHeads, Patch, SegsInv, TopInv, Fresh;
    var c, top, s := w.heap, w.top, e - TOP_FOOT_SIZE - w.top;
    var h', d := TopHeads(w.head, top, s), TopAndTrailer(top, s);
    EndStretch(w, e, b);
    EndSegs(w, e, b);
    TopTwo(top, s);
    TopHeadsAt(w.head, top, s, b);
    assert OutInside(c, {}, top, b);
    hide OutInside, HeadAt, TopFits;
    TopPhys(w.head, w.foot, c, top, s, b);
    TopQuiet(a, c, top, s, b);
    EndTrailer(c, top, s, b);
    TopAfter(c, top, w.topsize, top, b, d, top, s);
    OuterPatched(w, v, {}, top, b, d, h', w.foot, top, s, EndedAt(w.segs, e));
  }
}
