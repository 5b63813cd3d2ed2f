/** A region away from the newest segment: it gets a segment of its own, and the end of the old
    newest segment is closed with that segment's record and fenceposts. */
module Adding {
  import opened Words
  import opened Rings
  import opened Trie
  import opened State
  import opened Index
  import opened Heap
  import opened Payload
  import opened Invariant
  import opened Taking
  import opened Regions

  /** Fenceposts from `a` up to the last word before `e`. */
  ghost function Fences(a: int, e: int): Chunks {
    map x | a <= x <= e - 16 && FenceAt(a, x) :: Chunk(FENCE_SIZE, Fence)
  }

  predicate FenceAt(a: int, x: int) {
    (x - a) % 8 == 0
  }

  /** Where the record of a segment goes that ends at `e` with top at `o`, of size `s`. */
  function RecordAt(o: int, s: int): int {
    if s < MIN_CHUNK_SIZE then o else o + s
  }

  /** What replaces top and its trailer: what is left of top, the record, the fenceposts. */
  ghost function Closing(o: int, s: int): Chunks {
    var r, e := RecordAt(o, s), o + s + TOP_FOOT_SIZE;
    (if r != o then map[o := Chunk(s, Free)] else map[]) + map[r := Chunk(RECORD_SIZE, Record)] + Fences(r + RECORD_SIZE, e)
  }

  /** The words of the closed end. */
  ghost predicate ClosingWords(h: Heads, foot: Field, h': Heads, foot': Field, o: int, s: int) {
    var r, e := RecordAt(o, s), o + s + TOP_FOOT_SIZE;
    && HeadAt(h', r) == Head(RECORD_SIZE, true, r == o)
    && (r != o ==> HeadAt(h', o) == Head(s, false, true))
    && (forall x :: x in Fences(r + RECORD_SIZE, e) ==> HeadAt(h', x) == Head(FENCE_SIZE, true, true))
    && (forall x :: !(o <= x < e) ==> HeadAt(h', x) == HeadAt(h, x))
    && (forall x :: HeadAt(h', x) != HeadAt(h, x) ==> x in Closing(o, s))
    && foot' == (if r != o then foot[r := s] else foot)
  }

  /** The fenceposts one by one. */
  lemma FencesAt(a: int, e: int)
    requires a % 8 == 0 && e % 8 == 0 && a + 16 <= e
    ensures forall x :: x in Fences(a, e) ==> a <= x <= e - 16 && x % 8 == 0 && Fences(a, e)[x] == Chunk(FENCE_SIZE, Fence)
    ensures a in Fences(a, e) && e - 16 in Fences(a, e)
  {
    assert (e - 16 - a) % 8 == 0;
  }

  /** The chunks of the closed end one by one. */
  lemma ClosingAt(o: int, s: int)
    requires s > 0 && s % 8 == 0 && o % 8 == 0
    ensures var d, r, e := Closing(o, s), RecordAt(o, s), o + s + TOP_FOOT_SIZE;
      && (forall x :: x in d && x != o && x != r ==> x in Fences(r + RECORD_SIZE, e))
      && e - 96 <= r <= e - TOP_FOOT_SIZE && o <= r && (r == e - TOP_FOOT_SIZE <==> s >= MIN_CHUNK_SIZE)
      && o in d && r in d && d[r] == Chunk(RECORD_SIZE, Record) && (r != o ==> d[o] == Chunk(s, Free) && r == o + s)
      && (forall x :: x in d && x != o && x != r ==> r + RECORD_SIZE <= x <= e - 16 && x % 8 == 0 && d[x] == Chunk(FENCE_SIZE, Fence))
      && (forall x :: x in d ==> x % 8 == 0) && e - 16 in d && d[e - 16] == Chunk(FENCE_SIZE, Fence) && r + RECORD_SIZE in d && d[r + RECORD_SIZE].use == Fence
      && (forall x :: x in d ==> o <= x < e && x + d[x].size < e)
  {
    hide Fences, RecordAt;
    RecordSpot(o, s);
    FencesAt(RecordAt(o, s) + RECORD_SIZE, o + s + TOP_FOOT_SIZE);
  }

  lemma RecordSpot(o: int, s: int)
    requires s > 0 && s % 8 == 0 && o % 8 == 0
    ensures var r, e := RecordAt(o, s), o + s + TOP_FOOT_SIZE;
      && e - 96 <= r <= e - TOP_FOOT_SIZE && o <= r && r % 8 == 0 && (r != o ==> r == o + s) && (r == e - TOP_FOOT_SIZE <==> s >= MIN_CHUNK_SIZE)
      && (r + RECORD_SIZE) % 8 == 0 && e % 8 == 0 && (r != o ==> s >= MIN_CHUNK_SIZE)
  {}

  lemma ClosingApart(o: int, s: int)
    requires s > 0 && s % 8 == 0 && o % 8 == 0
    ensures Apart(Closing(o, s))
    ensures FreeOf(Closing(o, s)) == (if RecordAt(o, s) != o then {o} else {}) && Lives(Closing(o, s)) == map[]
  {
    hide Closing, Fences, RecordAt;
    var d := Closing(o, s);
    ClosingAt(o, s);
    forall p, q | p in d && q in d && p < q
      ensures p + d[p].size <= q
    {
      Multiples(p, q);
    }
  }

  lemma Multiples(p: int, q: int)
    requires p % 8 == 0 && q % 8 == 0 && p < q
    ensures p + 8 <= q
  {}

  /** Top is at `o`, nothing but its trailer follows up to `e`, and `e` does not look back. */
  ghost predicate Closable(h: Heads, foot: Field, c: Chunks, o: int, s: int) {
    var e := o + s + TOP_FOOT_SIZE;
    && o in c && c[o] == Chunk(s, Top) && s > 0 && s % 8 == 0 && o > 0 && o % 8 == 0 && HeadAt(h, o).pinuse
    && Whole(c, o, e) && (forall x :: x in c && o <= x < e ==> x == o || c[x].use == Trailer)
    && (e in c ==> HeadAt(h, e).pinuse)
  }

  lemma ClosingChunk(h: Heads, foot: Field, h': Heads, foot': Field, c: Chunks, o: int, s: int, x: int)
    requires Closable(h, foot, c, o, s) && ClosingWords(h, foot, h', foot', o, s)
    requires x in Closing(o, s)
    ensures var c' := Patch(c, o, o + s + TOP_FOOT_SIZE, Closing(o, s));
      x in c' && ChunkOk(h', foot', c', x)
  {
    hide Closing, Patch, Whole, RecordAt, Fences;
    ClosingAt(o, s);
    RecordSpot(o, s);
    ClosingPatched(c, o, s);
    if x == RecordAt(o, s) {
      hide Closable;
    } else if x != o {
      hide Closable;
    }
  }

  lemma ClosingPatched(c: Chunks, o: int, s: int)
    ensures var d, c' := Closing(o, s), Patch(c, o, o + s + TOP_FOOT_SIZE, Closing(o, s));
      forall y :: y in d ==> y in c' && c'[y] == d[y]
  {}

  lemma ClosingLeft(h: Heads, foot: Field, h': Heads, foot': Field, c: Chunks, o: int, s: int)
    requires Phys(h, foot, c) && Closable(h, foot, c, o, s) && ClosingWords(h, foot, h', foot', o, s)
    ensures forall x :: x in c && x < o && x + c[x].size == o && HasNext(c[x].use) ==>
      o in Closing(o, s) && Follows(c[x].use, Closing(o, s)[o].use) && HeadAt(h', o).pinuse == Inuse(c[x].use)
      && At(foot', o) == At(foot, o)
  {
    ClosingAt(o, s);
    hide Closing;
    forall x | x in c && x < o && x + c[x].size == o && HasNext(c[x].use)
      ensures Follows(c[x].use, Closing(o, s)[o].use) && HeadAt(h', o).pinuse == Inuse(c[x].use)
      ensures At(foot', o) == At(foot, o)
    {
      assert ChunkOk(h, foot, c, x);
    }
  }

  lemma ClosingPhys(h: Heads, foot: Field, h': Heads, foot': Field, c: Chunks, o: int, s: int)
    requires Phys(h, foot, c) && Closable(h, foot, c, o, s) && ClosingWords(h, foot, h', foot', o, s)
    ensures Phys(h', foot', Patch(c, o, o + s + TOP_FOOT_SIZE, Closing(o, s)))
  {
    hide Phys, Closing, ClosingWords, Closable, Patch, Follows, SameOutside, RecordAt, HeadAt, HeadOk, PrevOk, ChunkOk;
    var d, e := Closing(o, s), o + s + TOP_FOOT_SIZE;
    var c' := Patch(c, o, e, d);
    ClosingAround(h, foot, h', foot', c, o, s);
    ClosingApart(o, s);
    ClosingEnd(h, foot, h', foot', c, o, s);
    ClosingLeft(h, foot, h', foot', c, o, s);
    forall x | x in d
      ensures x in c' && ChunkOk(h', foot', c', x)
    {
      ClosingChunk(h, foot, h', foot', c, o, s, x);
    }
    assert PatchFits(h, foot, h', foot', c, o, e, d);
    hide PatchFits;
    PatchPhys(h, foot, h', foot', c, o, e, d);
  }

  lemma ClosingAround(h: Heads, foot: Field, h': Heads, foot': Field, c: Chunks, o: int, s: int)
    requires Closable(h, foot, c, o, s) && ClosingWords(h, foot, h', foot', o, s)
    ensures var e := o + s + TOP_FOOT_SIZE;
      && o < e && Whole(c, o, e) && SameOutside(h, foot, h', foot', c, o, e) && s % 8 == 0 && s > 0 && o % 8 == 0
      && forall x :: x in Closing(o, s) ==> o <= x < e && x + Closing(o, s)[x].size <= e
  {
    ClosingAt(o, s);
    hide Closing;
  }

  lemma ClosingEnd(h: Heads, foot: Field, h': Heads, foot': Field, c: Chunks, o: int, s: int)
    requires Phys(h, foot, c) && Closable(h, foot, c, o, s) && ClosingWords(h, foot, h', foot', o, s)
    ensures var e := o + s + TOP_FOOT_SIZE;
      var c' := Patch(c, o, e, Closing(o, s));
      e in c' ==> HeadOk(h', c', e) && PrevOk(h', foot', c', e)
  {
    hide Closing, Patch, Phys, HeadOk, PrevOk, Closable, ClosingWords;
    var e := o + s + TOP_FOOT_SIZE;
    var c' := Patch(c, o, e, Closing(o, s));
    EndStays(h, foot, h', foot', c, o, s);
    if e in c' {
      SameHead(h, foot, h', foot', c, c', e);
    }
  }

  lemma EndStays(h: Heads, foot: Field, h': Heads, foot': Field, c: Chunks, o: int, s: int)
    requires Closable(h, foot, c, o, s) && ClosingWords(h, foot, h', foot', o, s)
    ensures var e := o + s + TOP_FOOT_SIZE;
      var c' := Patch(c, o, e, Closing(o, s));
      HeadAt(h', e) == HeadAt(h, e) && (e in c' ==> e in c && c'[e] == c[e] && HeadAt(h, e).pinuse)
  {
    hide Closing;
    ClosingAt(o, s);
  }

  lemma SameHead(h: Heads, foot: Field, h': Heads, foot': Field, c: Chunks, c': Chunks, e: int)
    requires Phys(h, foot, c) && e in c && e in c' && c'[e] == c[e] && HeadAt(h', e) == HeadAt(h, e) && HeadAt(h, e).pinuse
    ensures HeadOk(h', c', e) && PrevOk(h', foot', c', e)
  {
    assert ChunkOk(h, foot, c, e);
  }

  // ---- the whole step

  ghost function Pushed(segs: seq<Seg>, tb: int, te: int, rec: int): seq<Seg>
    requires |segs| > 0
  {
    [Seg(SEG_HEAD, tb, te)] + [segs[0].(rec := rec)] + segs[1..]
  }

  /** A new region beside a heap in order. */
  ghost predicate Addable(w: World, tb: int, te: int) {
    && ViewsExcept(w, {}) && w.top != 0 && Fresh(w.segs, tb, te) && te - tb >= MIN_SEGMENT_SIZE
  }

  /** The heap with the new region, and then with the old one closed. */
  ghost function WithRegion(c: Chunks, tb: int, te: int): Chunks {
    Patch(c, tb, te, TopAndTrailer(tb, te - tb - TOP_FOOT_SIZE))
  }

  ghost function WithClosing(c: Chunks, o: int, s: int): Chunks {
    Patch(c, o, o + s + TOP_FOOT_SIZE, Closing(o, s))
  }

  /** Where the old top and the new region lie. */
  lemma AddPlaces(w: World, tb: int, te: int)
    requires Addable(w, tb, te)
    ensures var o, e := w.top, w.top + w.topsize + TOP_FOOT_SIZE;
      && |w.segs| > 0 && w.segs[0].end == e && w.segs[0].base <= o && (te <= w.segs[0].base || e <= tb)
      && o in w.heap && w.heap[o] == Chunk(w.topsize, Top) && w.topsize > 0 && w.topsize % 8 == 0 && o > 0 && o % 8 == 0
      && HeadAt(w.head, o).pinuse && TopFits(w.head, w.heap, tb, te)
      && (forall x :: x in w.heap ==> x < tb || te <= x)
      && (forall x :: x in w.heap && o <= x < e ==> x == o || w.heap[x].use == Trailer)
      && Whole(w.heap, o, e) && (e in w.heap ==> HeadAt(w.head, e).pinuse)
  {
    var c, o, e := w.heap, w.top, w.top + w.topsize + TOP_FOOT_SIZE;
    assert ChunkOk(w.head, w.foot, c, o) && BaseOk(w.head, c, w.segs[0]);
    assert w.segs[0].end == e && Fresh(w.segs, tb, te);
    Edge(w.head, w.foot, c, w.segs, w.top, w.topsize, te);
    AddEdge(w);
    forall x | x in c
      ensures (x + c[x].size <= tb || te <= x) && (x < tb || te <= x)
      ensures x < o ==> x + c[x].size <= o
      ensures o <= x < e ==> x == o || c[x].use == Trailer
      ensures x < e ==> x + c[x].size <= e
    {
      AddPlaceOf(w, tb, te, x);
    }
    hide ViewsExcept;
  }

  /** Where another chunk lies. */
  lemma AddPlaceOf(w: World, tb: int, te: int, x: int)
    requires Addable(w, tb, te) && x in w.heap
    ensures var c, o, e := w.heap, w.top, w.top + w.topsize + TOP_FOOT_SIZE;
      && c[x].size > 0 && (x + c[x].size <= tb || te <= x) && (x < o ==> x + c[x].size <= o)
      && (o <= x < e ==> x == o || c[x].use == Trailer) && (x < e ==> x + c[x].size <= e)
  {
    var c, o := w.heap, w.top;
    assert ChunkOk(w.head, w.foot, c, o) && ChunkOk(w.head, w.foot, c, o + w.topsize) && Apart(c);
    Sizes(w.head, w.foot, c);
    NoChunks(w.head, c, w.segs, w.top, w.topsize, tb, te, x);
    assert x < o || x == o || o < x;
    assert x < o + w.topsize || x == o + w.topsize || o + w.topsize < x;
    hide ViewsExcept, Phys;
  }

  lemma AddEdge(w: World)
    requires ViewsExcept(w, {}) && w.top != 0
    ensures var e := w.top + w.topsize + TOP_FOOT_SIZE; e in w.heap ==> HeadAt(w.head, e).pinuse
  {
    assert SegsApart(w.segs) && BaseOk(w.head, w.heap, w.segs[0]);
    forall i | 0 <= i < |w.segs|
      ensures w.segs[i].end <= w.segs[0].end || w.segs[0].end <= w.segs[i].base
    {
      assert BaseOk(w.head, w.heap, w.segs[i]);
    }
    Edge(w.head, w.foot, w.heap, w.segs, w.top, w.topsize, w.segs[0].end);
  }

  lemma AddClosable(w: World, tb: int, te: int)
    requires Addable(w, tb, te)
    ensures Closable(TopHeads(w.head, tb, te - tb - TOP_FOOT_SIZE), w.foot, WithRegion(w.heap, tb, te), w.top, w.topsize)
  {
    hide Addable, TopHeads, TopAndTrailer;
    var s := te - tb - TOP_FOOT_SIZE;
    AddPlaces(w, tb, te);
    AddRange(w, tb, te);
    TopHeadsAt(w.head, tb, s, te);
    TopTwo(tb, s);
  }

  lemma AddRange(w: World, tb: int, te: int)
    requires Addable(w, tb, te)
    ensures tb + MIN_SEGMENT_SIZE <= te && 0 < tb
  {}

  ghost function AddedHeap(w: World, tb: int, te: int): Chunks {
    WithClosing(WithRegion(w.heap, tb, te), w.top, w.topsize)
  }

  /** Which chunks there are after the step. */
  lemma AddContents(w: World, tb: int, te: int)
    requires Addable(w, tb, te)
    ensures var c', d1, d2, o, e := AddedHeap(w, tb, te), TopAndTrailer(tb, te - tb - TOP_FOOT_SIZE), Closing(w.top, w.topsize),
                                   w.top, w.top + w.topsize + TOP_FOOT_SIZE;
      && (forall x :: x in d1 ==> x in c' && c'[x] == d1[x] && tb <= x < te && !(o <= x < e))
      && (forall x :: x in d2 ==> x in c' && c'[x] == d2[x] && o <= x < e && !(tb <= x < te))
      && (forall x :: x in w.heap && !(o <= x < e) ==> x in c' && c'[x] == w.heap[x] && !(tb <= x < te))
      && (forall x :: x in c' ==> x in d1 || x in d2 || (x in w.heap && !(o <= x < e)))
  {
    hide Addable, TopAndTrailer, Closing;
    AddPlaces(w, tb, te);
    AddRange(w, tb, te);
    TopTwo(tb, te - tb - TOP_FOOT_SIZE);
    ClosingAt(w.top, w.topsize);
  }

  lemma AddTop(w: World, tb: int, te: int)
    requires Addable(w, tb, te)
    ensures TopInv(AddedHeap(w, tb, te), tb, te - tb - TOP_FOOT_SIZE)
  {
    hide Addable, TopAndTrailer, Closing, AddedHeap;
    var c', s := AddedHeap(w, tb, te), te - tb - TOP_FOOT_SIZE;
    AddRange(w, tb, te);
    TopTwo(tb, s);
    forall x | x in c' && (c'[x].use == Top || c'[x].use == Trailer)
      ensures x in TopAndTrailer(tb, s)
    {
      AddTops(w, tb, te, x);
    }
    AddContents(w, tb, te);
  }

  lemma AddTops(w: World, tb: int, te: int, x: int)
    requires Addable(w, tb, te) && x in AddedHeap(w, tb, te)
    requires AddedHeap(w, tb, te)[x].use == Top || AddedHeap(w, tb, te)[x].use == Trailer
    ensures x in TopAndTrailer(tb, te - tb - TOP_FOOT_SIZE)
  {
    hide Addable, TopAndTrailer, Closing, AddedHeap;
    OldTop(w, tb, te);
    AddPlaces(w, tb, te);
    AddContents(w, tb, te);
    ClosingAt(w.top, w.topsize);
  }

  lemma OldTop(w: World, tb: int, te: int)
    requires Addable(w, tb, te)
    ensures TopInv(w.heap, w.top, w.topsize)
  {}

  /** The heads after the step, as far as the segments care. */
  ghost predicate AddedHeads(w: World, tb: int, te: int, h': Heads) {
    && HeadAt(h', tb).pinuse
    && (RecordAt(w.top, w.topsize) != w.top ==> HeadAt(h', w.top).pinuse)
    && (forall x :: !(tb <= x < te) && !(w.top <= x < w.top + w.topsize + TOP_FOOT_SIZE) ==> HeadAt(h', x) == HeadAt(w.head, x))
  }

  /** A segment none of whose chunks is touched. */
  lemma SegUntouched(h: Heads, c: Chunks, g: Seg, h': Heads, c': Chunks)
    requires BaseOk(h, c, g) && TailOk(c, g)
    requires forall x :: x in c && g.base <= x < g.end ==> x in c' && c'[x] == c[x]
    requires forall x :: x in c' && g.base <= x < g.end ==> x in c
    requires HeadAt(h', g.base).pinuse
    ensures BaseOk(h', c', g) && TailOk(c', g)
  {
    forall x | x in c' && g.rec - 16 + RECORD_SIZE <= x < g.end
      ensures c'[x].use == Fence
    {
      assert x in c && c[x].use == Fence;
    }
    assert c[g.end - 16].use == Fence;
  }

  lemma AddOthers(w: World, tb: int, te: int, h': Heads, i: int)
    requires Addable(w, tb, te) && AddedHeads(w, tb, te, h') && 0 < i < |w.segs|
    ensures BaseOk(h', AddedHeap(w, tb, te), w.segs[i]) && TailOk(AddedHeap(w, tb, te), w.segs[i])
  {
    hide Addable, TopAndTrailer, Closing, TailOk, BaseOk, AddedHeap, AddedHeads, SegsApart, Whole, TopFits;
    OldSegment(w, tb, te, h', i);
    AddContents(w, tb, te);
    SegUntouched(w.head, w.heap, w.segs[i], h', AddedHeap(w, tb, te));
  }

  /** Where an older segment lies. */
  lemma OldSegment(w: World, tb: int, te: int, h': Heads, i: int)
    requires Addable(w, tb, te) && AddedHeads(w, tb, te, h') && 0 < i < |w.segs|
    ensures var o, e, g := w.top, w.top + w.topsize + TOP_FOOT_SIZE, w.segs[i];
      && BaseOk(w.head, w.heap, g) && TailOk(w.heap, g) && (te <= g.base || g.end <= tb) && (g.end <= o || e <= g.base)
      && HeadAt(h', g.base).pinuse
  {
    assert BaseOk(w.head, w.heap, w.segs[i]) && TailOk(w.heap, w.segs[i]) && SegsApart(w.segs) && Fresh(w.segs, tb, te);
    hide TailOk;
    AddPlaces(w, tb, te);
    assert HeadAt(h', w.segs[i].base).pinuse;
  }

  ghost predicate TrailerAt(c: Chunks, x: int) {
    x in c && c[x] == Chunk(TOP_FOOT_SIZE, Trailer)
  }

  lemma AddHead(w: World, tb: int, te: int, h': Heads)
    requires Addable(w, tb, te) && AddedHeads(w, tb, te, h')
    ensures BaseOk(h', AddedHeap(w, tb, te), Seg(SEG_HEAD, tb, te))
    ensures TrailerAt(AddedHeap(w, tb, te), te - TOP_FOOT_SIZE)
  {
    hide TopAndTrailer, Closing, AddedHeap, ViewsExcept;
    TopTwo(tb, te - tb - TOP_FOOT_SIZE);
    AddContents(w, tb, te);
  }

  lemma AddClosedBase(w: World, tb: int, te: int, h': Heads)
    requires Addable(w, tb, te) && AddedHeads(w, tb, te, h')
    ensures |w.segs| > 0 && BaseOk(h', AddedHeap(w, tb, te), w.segs[0])
  {
    var o, T, c', g := w.top, w.topsize, AddedHeap(w, tb, te), w.segs[0];
    AddPlaces(w, tb, te);
    assert BaseOk(w.head, w.heap, g);
    assert HeadAt(h', g.base).pinuse;
    hide Addable, TopAndTrailer, Closing, Fences, AddedHeap, AddedHeads, Whole, TopFits, HeadAt;
    AddContents(w, tb, te);
    ClosingAt(o, T);
    if g.base == o {
      assert c'[o] == Chunk(T, Free);
    } else {
      assert c'[g.base] == w.heap[g.base];
    }
  }

  lemma AddClosedTail(w: World, tb: int, te: int)
    requires Addable(w, tb, te)
    ensures |w.segs| > 0 && TailOk(AddedHeap(w, tb, te), w.segs[0].(rec := RecordAt(w.top, w.topsize) + 16))
  {
    hide Addable, TopAndTrailer, Closing, AddedHeap, Whole, TopFits, HeadAt, RecordAt, TailOk;
    AddPlaces(w, tb, te);
    var c', g := AddedHeap(w, tb, te), w.segs[0].(rec := RecordAt(w.top, w.topsize) + 16);
    forall x | x in c' && w.top <= x < g.end
      ensures x in Closing(w.top, w.topsize)
    {
      AddOldEnd(w, tb, te, x);
    }
    AddContents(w, tb, te);
    AddOldInterior(w, tb, te);
    ClosedTail(c', w.top, w.topsize, g);
  }

  lemma AddOldInterior(w: World, tb: int, te: int)
    requires Addable(w, tb, te)
    ensures |w.segs| > 0 && Interior(AddedHeap(w, tb, te), w.segs[0].base, w.top)
  {
    AddSegsOf(w, tb, te);
    SegsBasics(w.head, w.heap, w.segs, w.top, w.topsize);
    hide Addable, AddedHeap, TopAndTrailer, Closing, SegsInv;
    AddContents(w, tb, te);
    TopTwo(tb, te - tb - TOP_FOOT_SIZE);
  }

  lemma AddSegsOf(w: World, tb: int, te: int)
    requires Addable(w, tb, te)
    ensures SegsInv(w.head, w.heap, w.segs, w.top, w.topsize) && w.topsize > 0
    ensures |w.segs| > 0 && (te <= w.segs[0].base || w.segs[0].end <= tb)
  {
    AddPlaces(w, tb, te);
    hide Phys, SegsInv, TopInv, IndexExcept;
  }

  lemma AddOldEnd(w: World, tb: int, te: int, x: int)
    requires Addable(w, tb, te) && x in AddedHeap(w, tb, te) && w.top <= x < w.top + w.topsize + TOP_FOOT_SIZE
    ensures x in Closing(w.top, w.topsize)
  {
    hide Addable, TopAndTrailer, Closing, AddedHeap;
    AddContents(w, tb, te);
  }

  lemma FencesInside(o: int, s: int)
    requires s > 0 && s % 8 == 0 && o % 8 == 0
    ensures FencesFill(Closing(o, s), RecordAt(o, s) + RECORD_SIZE, o + s + TOP_FOOT_SIZE)
  {
    var d, r, e := Closing(o, s), RecordAt(o, s), o + s + TOP_FOOT_SIZE;
    forall x {:trigger x in d} | r + RECORD_SIZE <= x <= e - 16 && x % 8 == 0
      ensures x in d
    {
      assert FenceAt(r + RECORD_SIZE, x);
    }
  }

  lemma ClosedTail(c: Chunks, o: int, s: int, g: Seg)
    requires s > 0 && s % 8 == 0 && o % 8 == 0
    requires forall x :: x in Closing(o, s) ==> x in c && c[x] == Closing(o, s)[x]
    requires forall x :: x in c && o <= x < g.end ==> x in Closing(o, s)
    requires g.rec == RecordAt(o, s) + 16 && g.end == o + s + TOP_FOOT_SIZE && g.base <= o && Interior(c, g.base, o)
    ensures TailOk(c, g)
  {
    hide Closing, Fences;
    ClosingAt(o, s);
    FencesInside(o, s);
    forall x {:trigger c[x]} | x in c && g.base <= x < g.rec - 16
      ensures Ordinary(c[x].use)
    {
      assert x >= o ==> x in Closing(o, s);
    }
    assert FencesFill(c, g.rec - 16 + RECORD_SIZE, g.end);
    forall x | x in c && g.rec - 16 + RECORD_SIZE <= x < g.end
      ensures c[x].use == Fence
    {
      assert x in Closing(o, s);
    }
  }

  lemma PushedAt(segs: seq<Seg>, tb: int, te: int, rec: int)
    requires |segs| > 0
    ensures var segs' := Pushed(segs, tb, te, rec);
      && |segs'| == |segs| + 1 && segs'[0] == Seg(SEG_HEAD, tb, te) && segs'[1] == segs[0].(rec := rec)
      && forall i :: 1 < i < |segs'| ==> segs'[i] == segs[i - 1]
  {}

  /** What is in an old segment is in the corresponding new one. */
  lemma InPushed(c: Chunks, segs: seq<Seg>, tb: int, te: int, rec: int, x: int, c': Chunks)
    requires x in c && Covered(c, segs, x) && x in c' && c'[x] == c[x] && |segs| > 0
    ensures Covered(c', Pushed(segs, tb, te, rec), x)
  {
    var i :| 0 <= i < |segs| && InSeg(c, segs[i], x);
    PushedAt(segs, tb, te, rec);
    hide Pushed;
    assert InSeg(c', Pushed(segs, tb, te, rec)[i + 1], x);
  }

  lemma AddCoveredNew(w: World, tb: int, te: int, x: int)
    requires Addable(w, tb, te) && x in TopAndTrailer(tb, te - tb - TOP_FOOT_SIZE)
    ensures x in AddedHeap(w, tb, te) && InSeg(AddedHeap(w, tb, te), Seg(SEG_HEAD, tb, te), x)
  {
    hide ViewsExcept, TopAndTrailer, Closing, AddedHeap;
    TopTwo(tb, te - tb - TOP_FOOT_SIZE);
    AddContents(w, tb, te);
  }

  lemma AddCoveredClosing(w: World, tb: int, te: int, x: int, rec: int)
    requires Addable(w, tb, te) && x in Closing(w.top, w.topsize)
    ensures x in AddedHeap(w, tb, te) && |w.segs| > 0 && InSeg(AddedHeap(w, tb, te), w.segs[0].(rec := rec), x)
  {
    hide Addable, TopAndTrailer, Closing, AddedHeap, RecordAt, Whole, TopFits, HeadAt;
    AddPlaces(w, tb, te);
    ClosingAt(w.top, w.topsize);
    AddContents(w, tb, te);
  }

  lemma AddCoveredOld(w: World, tb: int, te: int, x: int)
    requires Addable(w, tb, te) && x in AddedHeap(w, tb, te)
    requires x !in Closing(w.top, w.topsize) && x !in TopAndTrailer(tb, te - tb - TOP_FOOT_SIZE)
    ensures x in w.heap && Covered(w.heap, w.segs, x) && AddedHeap(w, tb, te)[x] == w.heap[x] && |w.segs| > 0
  {
    assert x in w.heap ==> Covered(w.heap, w.segs, x);
    hide ViewsExcept, TopAndTrailer, Closing, AddedHeap, Covered;
    AddContents(w, tb, te);
  }

  lemma AddCovered(w: World, tb: int, te: int, x: int)
    requires Addable(w, tb, te) && x in AddedHeap(w, tb, te)
    ensures |w.segs| > 0 && Covered(AddedHeap(w, tb, te), Pushed(w.segs, tb, te, RecordAt(w.top, w.topsize) + 16), x)
  {
    hide Addable, TopAndTrailer, Closing, AddedHeap, RecordAt, Covered, Pushed, InSeg;
    var c', rec := AddedHeap(w, tb, te), RecordAt(w.top, w.topsize) + 16;
    if x in Closing(w.top, w.topsize) {
      AddCoveredClosing(w, tb, te, x, rec);
      PushedAt(w.segs, tb, te, rec);
      InThat(c', Pushed(w.segs, tb, te, rec), 1, x);
    } else if x in TopAndTrailer(tb, te - tb - TOP_FOOT_SIZE) {
      AddCoveredNew(w, tb, te, x);
      AddApart(w, tb, te, rec);
      PushedAt(w.segs, tb, te, rec);
      InThat(c', Pushed(w.segs, tb, te, rec), 0, x);
    } else {
      AddCoveredOld(w, tb, te, x);
      InPushed(w.heap, w.segs, tb, te, rec, x, c');
    }
  }

  lemma InThat(c: Chunks, segs: seq<Seg>, i: int, x: int)
    requires x in c && 0 <= i < |segs| && InSeg(c, segs[i], x)
    ensures Covered(c, segs, x)
  {}

  lemma AddApart(w: World, tb: int, te: int, rec: int)
    requires Addable(w, tb, te)
    ensures |w.segs| > 0 && SegsApart(Pushed(w.segs, tb, te, rec))
  {
    assert SegsApart(w.segs);
    hide ViewsExcept;
    var segs := Pushed(w.segs, tb, te, rec);
    forall i, j | 0 <= i < j < |segs|
      ensures segs[i].end <= segs[j].base || segs[j].end <= segs[i].base
    {
      assert segs[j].base == w.segs[j - 1].base && segs[j].end == w.segs[j - 1].end;
    }
  }

  lemma AddInterior(w: World, tb: int, te: int)
    requires Addable(w, tb, te)
    ensures Interior(AddedHeap(w, tb, te), tb, te - TOP_FOOT_SIZE)
  {
    hide Addable, AddedHeap, TopAndTrailer, Closing;
    AddContents(w, tb, te);
    AddPlaces(w, tb, te);
    AddRange(w, tb, te);
    TopTwo(tb, te - tb - TOP_FOOT_SIZE);
  }

  lemma BaseIgnoresRecord(h: Heads, c: Chunks, g: Seg, rec: int)
    requires BaseOk(h, c, g)
    ensures BaseOk(h, c, g.(rec := rec))
  {}

  lemma AddSegs(w: World, tb: int, te: int, h': Heads)
    requires Addable(w, tb, te) && AddedHeads(w, tb, te, h')
    ensures |w.segs| > 0
    ensures SegsInv(h', AddedHeap(w, tb, te), Pushed(w.segs, tb, te, RecordAt(w.top, w.topsize) + 16), tb, te - tb - TOP_FOOT_SIZE)
  {
    var rec, c' := RecordAt(w.top, w.topsize) + 16, AddedHeap(w, tb, te);
    hide Addable, AddedHeap, BaseOk, TailOk, SegsApart, Covered, AddedHeads, RecordAt, Interior;
    AddApart(w, tb, te, rec);
    var segs := Pushed(w.segs, tb, te, rec);
    AddHead(w, tb, te, h');
    AddClosedBase(w, tb, te, h');
    AddClosedTail(w, tb, te);
    PushedAt(w.segs, tb, te, rec);
    BaseIgnoresRecord(h', c', w.segs[0], rec);
    hide Pushed;
    forall i | 0 <= i < |segs|
      ensures BaseOk(h', c', segs[i]) && (i > 0 ==> TailOk(c', segs[i]))
    {
      if i > 1 {
        AddOthers(w, tb, te, h', i - 1);
      }
    }
    forall x | x in c'
      ensures Covered(c', segs, x)
    {
      AddCovered(w, tb, te, x);
    }
    AddInterior(w, tb, te);
    SegsAssemble(h', c', segs, tb, te - tb - TOP_FOOT_SIZE);
  }

  /** The words written by the step. */
  ghost predicate AddWords(w: World, tb: int, te: int, h': Heads, foot': Field) {
    ClosingWords(TopHeads(w.head, tb, te - tb - TOP_FOOT_SIZE), w.foot, h', foot', w.top, w.topsize)
  }

  lemma AddHeadsFit(w: World, tb: int, te: int, h': Heads, foot': Field)
    requires Addable(w, tb, te) && AddWords(w, tb, te, h', foot')
    ensures AddedHeads(w, tb, te, h')
    ensures forall x :: !(tb <= x < te) ==> SizeAt(TopHeads(w.head, tb, te - tb - TOP_FOOT_SIZE), x) == SizeAt(w.head, x)
    ensures forall x :: !(w.top <= x < w.top + w.topsize + TOP_FOOT_SIZE) ==>
      SizeAt(h', x) == SizeAt(TopHeads(w.head, tb, te - tb - TOP_FOOT_SIZE), x)
  {
    hide Addable, TopHeads, Closing, Fences, Whole, TopFits;
    AddPlaces(w, tb, te);
    AddRange(w, tb, te);
    TopHeadsAt(w.head, tb, te - tb - TOP_FOOT_SIZE, te);
  }

  lemma AddPhysRegion(w: World, tb: int, te: int)
    requires Addable(w, tb, te)
    ensures Phys(w.head, w.foot, w.heap)
    ensures Phys(TopHeads(w.head, tb, te - tb - TOP_FOOT_SIZE), w.foot, WithRegion(w.heap, tb, te))
  {
    assert Phys(w.head, w.foot, w.heap) && (te - tb) % 8 == 0;
    hide Addable, Phys, TopHeads, TopAndTrailer, Patch, TopFits, Whole;
    AddPlaces(w, tb, te);
    AddRange(w, tb, te);
    TopPhys(w.head, w.foot, w.heap, tb, te - tb - TOP_FOOT_SIZE, te);
  }

  lemma AddPhys(w: World, tb: int, te: int, h': Heads, foot': Field)
    requires Addable(w, tb, te) && AddWords(w, tb, te, h', foot')
    ensures Phys(h', foot', AddedHeap(w, tb, te))
  {
    hide Addable, Phys, TopHeads, TopAndTrailer, Patch, WithRegion, Closing, ClosingWords, Closable;
    AddPhysRegion(w, tb, te);
    AddClosable(w, tb, te);
    ClosingPhys(TopHeads(w.head, tb, te - tb - TOP_FOOT_SIZE), w.foot, h', foot', WithRegion(w.heap, tb, te), w.top, w.topsize);
  }

  lemma AddNoFree(w: World, tb: int, te: int)
    requires Addable(w, tb, te)
    ensures forall y :: y in w.heap ==> !(tb <= y < te)
    ensures forall y :: y in WithRegion(w.heap, tb, te) && w.top <= y < w.top + w.topsize + TOP_FOOT_SIZE ==>
      WithRegion(w.heap, tb, te)[y].use == Top || WithRegion(w.heap, tb, te)[y].use == Trailer
  {
    hide Addable, TopAndTrailer;
    AddRange(w, tb, te);
    AddPlaces(w, tb, te);
    TopTwo(tb, te - tb - TOP_FOOT_SIZE);
  }

  lemma AddableIndex(w: World, tb: int, te: int)
    requires Addable(w, tb, te)
    ensures IndexExcept(w.heap, w.dv, w.dvsize, w.small, w.nodes, {})
  {
    hide Phys, SegsInv, TopInv, IndexExcept;
  }

  lemma AddIndexRegion(w: World, v: BinView, tb: int, te: int)
    requires Addable(w, tb, te) && BinsInv(w.head, v) && v.small == w.small && v.nodes == w.nodes
    ensures IndexExcept(WithRegion(w.heap, tb, te), w.dv, w.dvsize, w.small, w.nodes, {})
    ensures BinsInv(TopHeads(w.head, tb, te - tb - TOP_FOOT_SIZE), v)
  {
    hide Addable, Patch, TopAndTrailer, TopHeads, BinsInv, IndexExcept, HeadAt, FreeOf, Lives;
    var s := te - tb - TOP_FOOT_SIZE;
    AddableIndex(w, tb, te);
    AddRange(w, tb, te);
    AddNoFree(w, tb, te);
    TopTwo(tb, s);
    TopHeadsAt(w.head, tb, s, te);
    IndexPatch(w.heap, w.dv, w.dvsize, w.small, w.nodes, {}, tb, te, TopAndTrailer(tb, s));
    BinsIgnore(w, {}, v, tb, te, TopHeads(w.head, tb, s));
  }

  /** Between the region and the closed end, the index and the bins notice nothing. */
  lemma AddIndex(w: World, v: BinView, tb: int, te: int, h': Heads, foot': Field)
    requires Addable(w, tb, te) && AddWords(w, tb, te, h', foot')
    requires BinsInv(w.head, v) && v.small == w.small && v.nodes == w.nodes
    ensures IndexExcept(AddedHeap(w, tb, te), w.dv, w.dvsize, w.small, w.nodes, FreeOf(Closing(w.top, w.topsize)))
    ensures BinsInv(h', v)
  {
    hide Addable, Patch, WithRegion, Closing, TopHeads, BinsInv, IndexExcept, AddWords, HeadAt, FreeOf;
    var c1, h1 := WithRegion(w.heap, tb, te), TopHeads(w.head, tb, te - tb - TOP_FOOT_SIZE);
    AddIndexRegion(w, v, tb, te);
    AddHeadsFit(w, tb, te, h', foot');
    AddNoFree(w, tb, te);
    ClosingInside(w, tb, te);
    hide AddedHeads;
    ClosingIndex(w.(head := h1, heap := c1), v, h');
  }

  lemma ClosingInside(w: World, tb: int, te: int)
    requires Addable(w, tb, te)
    ensures forall x :: x in Closing(w.top, w.topsize) ==> w.top <= x < w.top + w.topsize + TOP_FOOT_SIZE
  {
    hide Addable, Closing, Fences;
    AddPlaces(w, tb, te);
    ClosingAt(w.top, w.topsize);
  }

  lemma ClosingIndex(w: World, v: BinView, h': Heads)
    requires IndexExcept(w.heap, w.dv, w.dvsize, w.small, w.nodes, {})
    requires BinsInv(w.head, v) && v.small == w.small && v.nodes == w.nodes
    requires forall x :: x in Closing(w.top, w.topsize) ==> w.top <= x < w.top + w.topsize + TOP_FOOT_SIZE
    requires forall y :: y in w.heap && w.top <= y < w.top + w.topsize + TOP_FOOT_SIZE ==>
      w.heap[y].use == Top || w.heap[y].use == Trailer
    requires forall x :: !(w.top <= x < w.top + w.topsize + TOP_FOOT_SIZE) ==> SizeAt(h', x) == SizeAt(w.head, x)
    ensures IndexExcept(WithClosing(w.heap, w.top, w.topsize), w.dv, w.dvsize, w.small, w.nodes,
                        FreeOf(Closing(w.top, w.topsize)))
    ensures BinsInv(h', v)
  {
    hide Patch, Closing, BinsInv, IndexExcept, HeadAt, SizeAt, FreeOf;
    var e := w.top + w.topsize + TOP_FOOT_SIZE;
    IndexPatch(w.heap, w.dv, w.dvsize, w.small, w.nodes, {}, w.top, e, Closing(w.top, w.topsize));
    BinsIgnore(w, {}, v, w.top, e, h');
  }

  lemma AddQuietRegion(w: World, a: Memory, tb: int, te: int)
    requires Addable(w, tb, te) && a.head == w.head && a.foot == w.foot
    ensures Quiet(a, a.(head := TopHeads(w.head, tb, te - tb - TOP_FOOT_SIZE)), Lives(w.heap))
    ensures Lives(WithRegion(w.heap, tb, te)) == Lives(w.heap)
  {
    hide Addable, Patch, TopHeads, TopAndTrailer, Phys, Quiet, Lives;
    AddRange(w, tb, te);
    AddNoFree(w, tb, te);
    AddPhysRegion(w, tb, te);
    TopQuiet(a, w.heap, tb, te - tb - TOP_FOOT_SIZE, te);
  }

  lemma ClosingQuiet(a: Memory, c: Chunks, o: int, s: int, h': Heads, foot': Field)
    requires Phys(a.head, a.foot, c) && Phys(h', foot', WithClosing(c, o, s))
    requires s > 0 && s % 8 == 0 && o % 8 == 0
    requires forall y :: y in c && o <= y < o + s + TOP_FOOT_SIZE ==> c[y].use == Top || c[y].use == Trailer
    requires ClosingWords(a.head, a.foot, h', foot', o, s)
    ensures Quiet(a, a.(head := h', foot := foot'), Lives(c)) && Lives(WithClosing(c, o, s)) == Lives(c)
  {
    hide Patch, Closing, Phys, Quiet, Lives, LivesOutside, Retag, ClosingWords, Fences, RecordAt;
    var e, d := o + s + TOP_FOOT_SIZE, Closing(o, s);
    ClosingRetag(a, c, h', foot', o, s);
    ClosingAt(o, s);
    ClosingApart(o, s);
    LivesPatch(c, o, e, d);
    PatchQuiet(a, h', foot', c, o, e, d);
    assert Lives(c) + map[] == Lives(c);
  }

  lemma AddQuiet(w: World, a: Memory, tb: int, te: int, h': Heads, foot': Field)
    requires Addable(w, tb, te) && AddWords(w, tb, te, h', foot') && a.head == w.head && a.foot == w.foot
    ensures Quiet(a, a.(head := h', foot := foot'), Lives(w.heap)) && Lives(AddedHeap(w, tb, te)) == Lives(w.heap)
  {
    hide Addable, WithRegion, WithClosing, TopHeads, Phys, Quiet, Lives, ClosingWords, Whole, TopFits, HeadAt;
    var c1, h1 := WithRegion(w.heap, tb, te), TopHeads(w.head, tb, te - tb - TOP_FOOT_SIZE);
    var a1, a2 := a.(head := h1), a.(head := h', foot := foot');
    AddPlaces(w, tb, te);
    AddPhysRegion(w, tb, te);
    AddPhys(w, tb, te, h', foot');
    AddNoFree(w, tb, te);
    AddQuietRegion(w, a, tb, te);
    ClosingQuiet(a1, c1, w.top, w.topsize, h', foot');
    assert a1.(head := h', foot := foot') == a2;
    QuietTrans(a, a1, a2, Lives(w.heap));
  }

  lemma ClosingRetag(a: Memory, c: Chunks, h': Heads, foot': Field, o: int, s: int)
    requires ClosingWords(a.head, a.foot, h', foot', o, s)
    ensures Retag(a, h', foot', c, Patch(c, o, o + s + TOP_FOOT_SIZE, Closing(o, s)))
  {
    var c' := Patch(c, o, o + s + TOP_FOOT_SIZE, Closing(o, s));
    var r := RecordAt(o, s);
    assert forall x :: x in Closing(o, s) ==> x in c';
    if r != o {
      assert o in Closing(o, s) && Closing(o, s)[o] == Chunk(s, Free) by {
        hide Fences;
      }
      assert FootOf(c', r);
    }
  }

  /** The views after a region has got its own segment: what is left of the old top is on its way to
      the bins. */
  lemma RegionAdded(w: World, v: BinView, a: Memory, tb: int, te: int, h': Heads, foot': Field)
    requires Addable(w, tb, te) && AddWords(w, tb, te, h', foot')
    requires BinsInv(w.head, v) && v.small == w.small && v.nodes == w.nodes && a.head == w.head && a.foot == w.foot
    ensures |w.segs| > 0
    ensures var heap' := AddedHeap(w, tb, te);
      var rest := RecordAt(w.top, w.topsize) != w.top;
      && ViewsExcept(w.(head := h', foot := foot', heap := heap', top := tb, topsize := te - tb - TOP_FOOT_SIZE,
                        segs := Pushed(w.segs, tb, te, RecordAt(w.top, w.topsize) + 16)), if rest then {w.top} else {})
      && (rest ==> FreeAt(heap', w.topsize, w.top))
      && BinsInv(h', v) && Quiet(a, a.(head := h', foot := foot'), Lives(w.heap)) && Lives(heap') == Lives(w.heap)
  {
    hide Addable, Patch, Closing, TopHeads, TopAndTrailer, AddWords, Whole, TopFits, HeadAt, Phys, Quiet, Lives, AddedHeap, BinsInv,
         IndexExcept, SegsInv, TopInv, AddedHeads, RecordAt, Pushed, FreeOf;
    AddPlaces(w, tb, te);
    AddRange(w, tb, te);
    AddPhysRegion(w, tb, te);
    AddPhys(w, tb, te, h', foot');
    AddIndex(w, v, tb, te, h', foot');
    AddQuiet(w, a, tb, te, h', foot');
    AddHeadsFit(w, tb, te, h', foot');
    AddSegs(w, tb, te, h');
    AddTop(w, tb, te);
    ClosingApart(w.top, w.topsize);
    AddContents(w, tb, te);
    ClosingAt(w.top, w.topsize);
  }
}
