/** The whole invariant: the physical, the index and the system view of one heap agree. */
module Invariant {
  import opened Words
  import opened BinIndex
  import opened Rings
  import opened Trie
  import opened State
  import opened TreeBins
  import opened Index
  import opened Heap

  /** A free chunk of size `s` at `x`. */
  ghost predicate FreeAt(c: Chunks, s: int, x: int) {
    x in c && c[x] == Chunk(s, Free)
  }

  /** Every free chunk outside `out` is in exactly one place: it is the designated victim, or it is
      in the one bin of its size; and nothing else is. */
  ghost predicate IndexExcept(c: Chunks, dv: int, dvsize: int, small: seq<seq<int>>, nodes: Nodes, out: set<int>) {
    && (forall s, x :: Kept(small, nodes, s, x) <==> FreeAt(c, s, x) && x != dv && x !in out)
    && (if dvsize == 0 then dv == 0 else FreeAt(c, dvsize, dv) && dv !in out)
  }

  /** Top is the only chunk of its kind, and the trailer follows it. */
  ghost predicate TopInv(c: Chunks, top: int, topsize: int) {
    && top in c && c[top] == Chunk(topsize, Top)
    && (forall x :: x in c && c[x].use == Top ==> x == top)
    && (forall x :: x in c && c[x].use == Trailer ==> x == top + topsize)
  }

  /** Chunk `x` lies inside segment `g`; only a trailer or a fencepost may touch its end. */
  ghost predicate InSeg(c: Chunks, g: Seg, x: int)
    requires x in c
  {
    && g.base <= x && x + c[x].size <= g.end
    && (HasNext(c[x].use) ==> x + c[x].size < g.end)
  }

  /** No segment is ever smaller: there is always more in it than what its end needs. */
  const MIN_SEGMENT_SIZE: int := 2 * TOP_FOOT_SIZE

  ghost predicate BaseOk(h: Heads, c: Chunks, g: Seg) {
    && 0 < g.base && g.base + MIN_SEGMENT_SIZE <= g.end < W64 && g.base % 8 == 0 && g.end % 8 == 0
    && g.base in c && HasNext(c[g.base].use) && c[g.base].use != Record && HeadAt(h, g.base).pinuse
  }

  /** A segment that is not the newest ends in its own record and at least two fenceposts. */
  ghost predicate TailOk(c: Chunks, g: Seg) {
    var r := g.rec - 16;
    && r in c && c[r] == Chunk(RECORD_SIZE, Record) && g.base <= r && g.end - 96 <= r <= g.end - TOP_FOOT_SIZE
    && (forall x {:trigger c[x]} :: x in c && r + RECORD_SIZE <= x < g.end ==> c[x].use == Fence)
    && g.end - 16 in c && c[g.end - 16] == Chunk(FENCE_SIZE, Fence)
    && FencesFill(c, r + RECORD_SIZE, g.end) && Interior(c, g.base, r)
  }

  /** From `a` up to `b` there are only chunks that are or have been handed out, and top. */
  ghost predicate Interior(c: Chunks, a: int, b: int) {
    forall x {:trigger c[x]} :: x in c && a <= x < b ==> Ordinary(c[x].use)
  }

  /** From `a` on every eight bytes start a chunk, up to the last word before `e`. */
  ghost predicate FencesFill(c: Chunks, a: int, e: int) {
    forall x {:trigger x in c} :: a <= x <= e - 16 && x % 8 == 0 ==> x in c
  }

  ghost predicate SegsApart(segs: seq<Seg>) {
    forall i, j :: 0 <= i < j < |segs| ==> segs[i].end <= segs[j].base || segs[j].end <= segs[i].base
  }

  /** The segments tile what the allocator owns; top ends the newest one. */
  ghost predicate SegsInv(h: Heads, c: Chunks, segs: seq<Seg>, top: int, topsize: int) {
    && |segs| > 0
    && SegsApart(segs)
    && (forall i {:trigger BaseOk(h, c, segs[i])} :: 0 <= i < |segs| ==> BaseOk(h, c, segs[i]))
    && (forall i {:trigger TailOk(c, segs[i])} :: 0 < i < |segs| ==> TailOk(c, segs[i]))
    && (forall x {:trigger Covered(c, segs, x)} :: x in c ==> Covered(c, segs, x))
    && segs[0].base <= top && top + topsize + TOP_FOOT_SIZE == segs[0].end
    && top + topsize in c && c[top + topsize] == Chunk(TOP_FOOT_SIZE, Trailer)
    && Interior(c, segs[0].base, top + topsize)
  }

  ghost predicate Covered(c: Chunks, segs: seq<Seg>, x: int)
    requires x in c
  {
    exists i :: 0 <= i < |segs| && InSeg(c, segs[i], x)
  }

  /** The record of segment `i` tells where it is and leads to the next. */
  ghost predicate RecordOk(segBase: Field, segSize: Field, segNext: Field, segs: seq<Seg>, i: int)
    requires 0 <= i < |segs|
  {
    && At(segBase, segs[i].rec) == segs[i].base
    && At(segSize, segs[i].rec) == segs[i].end - segs[i].base
    && At(segNext, segs[i].rec) == (if i + 1 < |segs| then segs[i + 1].rec else 0)
    && (if i == 0 then segs[i].rec == SEG_HEAD else segs[i].rec > 0)
  }

  /** The segment records in memory spell out the list of segments. */
  ghost predicate RecordsOk(segBase: Field, segSize: Field, segNext: Field, segs: seq<Seg>) {
    forall i {:trigger RecordOk(segBase, segSize, segNext, segs, i)} :: 0 <= i < |segs| ==>
      RecordOk(segBase, segSize, segNext, segs, i)
  }

  /** The address of the record embedded in the bookkeeping structure; never a chunk address. */
  const SEG_HEAD: int := -2000

  ghost function TotalSize(segs: seq<Seg>): int {
    if segs == [] then 0 else segs[0].end - segs[0].base + TotalSize(segs[1..])
  }

  /** The granularity of requests to the system: a power of two, that is, a divisor of 2^64. */
  ghost predicate GranularityOk(g: int) {
    4096 <= g <= 0x8000_0000_0000_0000 && g % 8 == 0 && W64 % g == 0
  }

  ghost predicate Multiple(x: int, g: int) {
    g != 0 && x % g == 0
  }

  /** Every segment is a whole number of granules. */
  ghost predicate WholeGranules(segs: seq<Seg>, g: int) {
    forall i {:trigger segs[i]} :: 0 <= i < |segs| ==> Multiple(segs[i].end - segs[i].base, g)
  }

  /** What the allocator records about its segments. */
  datatype Ledger = Ledger(granularity: int, footprint: int, maxFootprint: int, least: int,
                           segBase: Field, segSize: Field, segNext: Field)

  ghost function LedgerOf(m: Mstate): Ledger
    reads m`footprint, m`maxFootprint, m`leastAddr, m`segBase, m`segSize, m`segNext
  {
    Ledger(m.granularity, m.footprint, m.maxFootprint, m.leastAddr, m.segBase, m.segSize, m.segNext)
  }

  /** The records spell out `segs`, all of it is the allocator's, and the footprint is `total`. */
  ghost predicate BooksInv(l: Ledger, segs: seq<Seg>, total: int) {
    && GranularityOk(l.granularity) && WholeGranules(segs, l.granularity)
    && l.footprint == total && l.footprint <= l.maxFootprint
    && (forall i :: 0 <= i < |segs| ==> l.least <= segs[i].base)
    && RecordsOk(l.segBase, l.segSize, l.segNext, segs)
    && (segs == [] ==> At(l.segNext, SEG_HEAD) == 0)
  }

  ghost predicate Books(m: Mstate)
    reads m`footprint, m`maxFootprint, m`segs, m`leastAddr, m`segBase, m`segSize, m`segNext
  {
    BooksInv(LedgerOf(m), m.segs, TotalSize(m.segs))
  }

  /** The three views of the heap, without the bins' links. */
  datatype World = World(head: Heads, foot: Field, heap: Chunks, dv: int, dvsize: int,
                         small: seq<seq<int>>, nodes: Nodes, segs: seq<Seg>, top: int, topsize: int)

  ghost function WorldOf(m: Mstate): World
    reads m
  {
    World(m.head, m.foot, m.heap, m.dv, m.dvsize, m.small, m.nodes, m.segs, m.top, m.topsize)
  }

  /** The views agree, but for the free chunks `out` that are on their way in or out of the index. */
  ghost predicate ViewsExcept(w: World, out: set<int>) {
    && Phys(w.head, w.foot, w.heap)
    && IndexExcept(w.heap, w.dv, w.dvsize, w.small, w.nodes, out)
    && (if w.top == 0 then w.heap == map[] && w.segs == [] && w.topsize == 0
        else TopInv(w.heap, w.top, w.topsize) && SegsInv(w.head, w.heap, w.segs, w.top, w.topsize))
  }

  /** All of the invariant while the free chunks `out` are outside the index. */
  ghost predicate ValidExcept(m: Mstate, out: set<int>)
    reads m
  {
    BinsOk(m) && ViewsExcept(WorldOf(m), out) && Books(m)
  }

  ghost predicate Valid(m: Mstate)
    reads m
  {
    ValidExcept(m, {})
  }

  /** What the invariant says of the parts. */
  lemma TakenApart(m: Mstate, out: set<int>)
    requires ValidExcept(m, out)
    ensures ViewsExcept(WorldOf(m), out) && BinsInv(m.head, BinsOf(m)) && BooksInv(LedgerOf(m), m.segs, TotalSize(m.segs))
    ensures WorldOf(m) == World(m.head, m.foot, m.heap, m.dv, m.dvsize, m.small, m.nodes, m.segs, m.top, m.topsize)
    ensures BinsOf(m).small == m.small && BinsOf(m).nodes == m.nodes
    ensures MemoryOf(m).head == m.head && MemoryOf(m).foot == m.foot
    ensures MemoryOf(m).segBase == m.segBase && MemoryOf(m).segSize == m.segSize && MemoryOf(m).segNext == m.segNext
    ensures LedgerOf(m).segBase == m.segBase && LedgerOf(m).segSize == m.segSize && LedgerOf(m).segNext == m.segNext
    ensures LedgerOf(m).granularity == m.granularity && LedgerOf(m).footprint == m.footprint && LedgerOf(m).least == m.leastAddr
  {
    hide BinsInv, ViewsExcept, BooksInv, TotalSize;
  }

  /** The parts make up the invariant again. */
  lemma PutTogether(m: Mstate, w: World, v: BinView, l: Ledger, out: set<int>)
    requires WorldOf(m) == w && BinsOf(m) == v && LedgerOf(m) == l
    requires ViewsExcept(w, out) && BinsInv(w.head, v) && BooksInv(l, w.segs, TotalSize(w.segs))
    ensures ValidExcept(m, out)
  {
    hide BinsInv, ViewsExcept, BooksInv, TotalSize;
  }

  /** The system answers a question. */
  method Ask(m: Mstate) returns (yes: bool)
    modifies m`asked
    ensures yes == m.system(old(m.asked)) && m.asked == old(m.asked) + 1
    ensures WorldOf(m) == old(WorldOf(m)) && BinsOf(m) == old(BinsOf(m)) && LedgerOf(m) == old(LedgerOf(m))
    ensures MemoryOf(m) == old(MemoryOf(m))
  {
    yes := m.system(m.asked);
    m.asked := m.asked + 1;
  }

  /** Nothing else has changed. */
  method AskOnly(m: Mstate) returns (yes: bool)
    requires Valid(m)
    modifies m`asked
    ensures yes == m.system(old(m.asked)) && m.asked == old(m.asked) + 1
    ensures Valid(m) && MemoryOf(m) == old(MemoryOf(m))
  {
    hide ViewsExcept, BinsInv, BooksInv, TotalSize, WorldOf, BinsOf, LedgerOf, MemoryOf, ValidExcept;
    TakenApart(m, {});
    ghost var w, v, l := WorldOf(m), BinsOf(m), LedgerOf(m);
    yes := Ask(m);
    PutTogether(m, w, v, l, {});
  }

  // ---- patches inside a segment

  predicate Ordinary(u: Use) {
    u == Live || u == Free || u == Top
  }

  /** A stretch from one chunk to a later one without records, fenceposts and trailers. */
  ghost predicate Inner(c: Chunks, a: int, b: int) {
    && a in c && b in c && a < b && Whole(c, a, b) && c[a].size >= 8
    && (forall x :: x in c && a <= x < b ==> Ordinary(c[x].use))
  }

  ghost predicate InnerPatch(c: Chunks, a: int, b: int, d: Chunks) {
    && a in d
    && (forall x :: x in d ==> a <= x < b && x + d[x].size <= b && Ordinary(d[x].use))
  }

  /** Such a stretch does not leave its segment. */
  lemma SameSegment(h: Heads, c: Chunks, segs: seq<Seg>, top: int, topsize: int, a: int, b: int, i: int)
    requires SegsInv(h, c, segs, top, topsize) && Apart(c) && Inner(c, a, b)
    requires 0 <= i < |segs| && InSeg(c, segs[i], a)
    ensures segs[i].base <= a && b < segs[i].end
  {
    var g := segs[i];
    var t := if i == 0 then top + topsize else g.end - 16;
    if i > 0 {
      assert TailOk(c, g);
    }
    assert t in c && !Ordinary(c[t].use) && t < g.end;
    assert a < t || t < a;
  }

  lemma InnerCovered(h: Heads, c: Chunks, segs: seq<Seg>, top: int, topsize: int, a: int, b: int, d: Chunks, x: int)
    requires SegsInv(h, c, segs, top, topsize) && Apart(c) && Inner(c, a, b) && InnerPatch(c, a, b, d)
    requires x in Patch(c, a, b, d)
    ensures Covered(Patch(c, a, b, d), segs, x)
  {
    var c' := Patch(c, a, b, d);
    if x in d {
      assert Covered(c, segs, a);
      var i :| 0 <= i < |segs| && InSeg(c, segs[i], a);
      SameSegment(h, c, segs, top, topsize, a, b, i);
      assert InSeg(c', segs[i], x);
    } else {
      assert Covered(c, segs, x);
      var i :| 0 <= i < |segs| && InSeg(c, segs[i], x);
      assert InSeg(c', segs[i], x);
    }
  }

  lemma InnerBase(h: Heads, c: Chunks, segs: seq<Seg>, top: int, topsize: int, a: int, b: int, d: Chunks, h': Heads, i: int)
    requires SegsInv(h, c, segs, top, topsize) && Apart(c) && Inner(c, a, b) && InnerPatch(c, a, b, d)
    requires 0 <= i < |segs|
    requires forall x :: x in c && !(a < x <= b) ==> HeadAt(h', x).pinuse == HeadAt(h, x).pinuse
    ensures BaseOk(h', Patch(c, a, b, d), segs[i])
  {
    assert BaseOk(h, c, segs[i]) && Covered(c, segs, a);
    var j :| 0 <= j < |segs| && InSeg(c, segs[j], a);
    SameSegment(h, c, segs, top, topsize, a, b, j);
    assert i < j || j < i || i == j;
    assert !(a < segs[i].base <= b);
  }

  lemma InnerTail(h: Heads, c: Chunks, segs: seq<Seg>, top: int, topsize: int, a: int, b: int, d: Chunks, i: int)
    requires SegsInv(h, c, segs, top, topsize) && Apart(c) && Inner(c, a, b) && InnerPatch(c, a, b, d)
    requires 0 < i < |segs|
    ensures TailOk(Patch(c, a, b, d), segs[i])
  {
    var c', g := Patch(c, a, b, d), segs[i];
    assert TailOk(c, g);
    assert c[g.end - 16].use == Fence;
    assert Covered(c, segs, a);
    var j :| 0 <= j < |segs| && InSeg(c, segs[j], a);
    SameSegment(h, c, segs, top, topsize, a, b, j);
    assert i < j || j < i || i == j;
    assert a < g.rec - 16 || g.rec - 16 < a;
    assert b < g.rec - 16 || g.rec - 16 <= b;
    forall x | x in c' && g.rec - 16 + RECORD_SIZE <= x < g.end
      ensures c'[x].use == Fence
    {
    }
  }

  /** A patch with ordinary chunks keeps a stretch ordinary, even one that it extends downwards. */
  lemma InteriorPatch(c: Chunks, a: int, b: int, d: Chunks, lo: int, hi: int, lo': int)
    requires Interior(c, lo, hi) && (lo' == lo || (lo' == a && lo <= b))
    requires forall x :: x in d ==> a <= x < b && Ordinary(d[x].use)
    ensures Interior(Patch(c, a, b, d), lo', hi)
  {}

  lemma InnerOrdinary(c: Chunks, a: int, b: int, d: Chunks)
    requires InnerPatch(c, a, b, d)
    ensures forall x :: x in d ==> a <= x < b && Ordinary(d[x].use)
  {}

  /** The segments do not notice a patch inside one of them. */
  lemma SegsPatch(h: Heads, c: Chunks, segs: seq<Seg>, top: int, topsize: int,
                  a: int, b: int, d: Chunks, h': Heads, top': int, topsize': int)
    requires SegsInv(h, c, segs, top, topsize) && Apart(c) && Inner(c, a, b) && InnerPatch(c, a, b, d)
    requires forall x :: x in c && !(a < x <= b) ==> HeadAt(h', x).pinuse == HeadAt(h, x).pinuse
    requires segs[0].base <= top' && top' + topsize' == top + topsize
    ensures SegsInv(h', Patch(c, a, b, d), segs, top', topsize')
  {
    hide SegsInv, Inner, InnerPatch, Patch, Apart, Covered, BaseOk, TailOk, SegsApart, Interior;
    var c' := Patch(c, a, b, d);
    SegsBasics(h, c, segs, top, topsize);
    InnerOrdinary(c, a, b, d);
    InteriorPatch(c, a, b, d, segs[0].base, top + topsize, segs[0].base);
    TrailerStays(h, c, segs, top, topsize, a, b, d);
    forall i | 0 <= i < |segs|
      ensures BaseOk(h', c', segs[i])
    {
      InnerBase(h, c, segs, top, topsize, a, b, d, h', i);
    }
    forall i | 0 < i < |segs|
      ensures TailOk(c', segs[i])
    {
      InnerTail(h, c, segs, top, topsize, a, b, d, i);
    }
    forall x | x in c'
      ensures Covered(c', segs, x)
    {
      InnerCovered(h, c, segs, top, topsize, a, b, d, x);
    }
    SegsAssemble(h', c', segs, top', topsize');
  }

  lemma SegsBasics(h: Heads, c: Chunks, segs: seq<Seg>, top: int, topsize: int)
    requires SegsInv(h, c, segs, top, topsize)
    ensures |segs| > 0 && SegsApart(segs)
    ensures segs[0].base <= top && top + topsize + TOP_FOOT_SIZE == segs[0].end
    ensures top + topsize in c && c[top + topsize] == Chunk(TOP_FOOT_SIZE, Trailer)
    ensures Interior(c, segs[0].base, top + topsize)
  {}

  lemma SegsAssemble(h: Heads, c: Chunks, segs: seq<Seg>, top: int, topsize: int)
    requires |segs| > 0 && SegsApart(segs)
    requires forall i {:trigger BaseOk(h, c, segs[i])} :: 0 <= i < |segs| ==> BaseOk(h, c, segs[i])
    requires forall i {:trigger TailOk(c, segs[i])} :: 0 < i < |segs| ==> TailOk(c, segs[i])
    requires forall x {:trigger Covered(c, segs, x)} :: x in c ==> Covered(c, segs, x)
    requires segs[0].base <= top && top + topsize + TOP_FOOT_SIZE == segs[0].end
    requires top + topsize in c && c[top + topsize] == Chunk(TOP_FOOT_SIZE, Trailer)
    requires Interior(c, segs[0].base, top + topsize)
    ensures SegsInv(h, c, segs, top, topsize)
  {
  }

  lemma TrailerStays(h: Heads, c: Chunks, segs: seq<Seg>, top: int, topsize: int, a: int, b: int, d: Chunks)
    requires SegsInv(h, c, segs, top, topsize) && Inner(c, a, b) && InnerPatch(c, a, b, d)
    ensures var t := top + topsize;
      t in Patch(c, a, b, d) && Patch(c, a, b, d)[t] == Chunk(TOP_FOOT_SIZE, Trailer)
  {
    var t := top + topsize;
    assert !(a <= t < b);
  }

  /** The free chunks of a patched heap. */
  lemma PatchFree(c: Chunks, a: int, b: int, d: Chunks, s: int, x: int)
    requires forall y :: y in d ==> a <= y < b
    ensures FreeAt(Patch(c, a, b, d), s, x) <==>
      if a <= x < b then FreeAt(d, s, x) else FreeAt(c, s, x)
  {}

  ghost function FreeOf(d: Chunks): set<int> {
    set x | x in d && d[x].use == Free
  }

  /** The free chunks of the stretch had been taken out of the index; the new ones are not in it yet. */
  lemma IndexPatch(c: Chunks, dv: int, dvsize: int, small: seq<seq<int>>, nodes: Nodes, out: set<int>,
                   a: int, b: int, d: Chunks)
    requires IndexExcept(c, dv, dvsize, small, nodes, out)
    requires forall y :: y in d ==> a <= y < b
    requires forall y :: y in c && a <= y < b && c[y].use == Free ==> y in out
    requires forall y :: y in out ==> a <= y < b
    ensures IndexExcept(Patch(c, a, b, d), dv, dvsize, small, nodes, FreeOf(d))
  {
    forall s, x
      ensures FreeAt(Patch(c, a, b, d), s, x) <==> if a <= x < b then FreeAt(d, s, x) else FreeAt(c, s, x)
    {
      PatchFree(c, a, b, d, s, x);
    }
    hide Patch, Kept;
    assert forall s, x :: FreeAt(d, s, x) ==> x in FreeOf(d);
  }

  /** Where top is after the patch: untouched outside the stretch, or the one top among the new chunks. */
  ghost predicate TopMoves(a: int, b: int, d: Chunks, top: int, topsize: int, top': int, topsize': int) {
    if a <= top < b
    then top' in d && d[top'] == Chunk(topsize', Top) && forall x :: x in d && d[x].use == Top ==> x == top'
    else top' == top && topsize' == topsize && forall x :: x in d ==> d[x].use != Top
  }

  lemma TopPatch(c: Chunks, top: int, topsize: int, a: int, b: int, d: Chunks, top': int, topsize': int)
    requires TopInv(c, top, topsize) && TopMoves(a, b, d, top, topsize, top', topsize')
    requires InnerPatch(c, a, b, d) && top' + topsize' == top + topsize
    ensures TopInv(Patch(c, a, b, d), top', topsize')
  {}

  /** A patch inside a segment keeps the views in agreement. */
  lemma InnerViews(w: World, out: set<int>, a: int, b: int, d: Chunks, h': Heads, foot': Field, top': int, topsize': int)
    requires ViewsExcept(w, out) && w.top != 0
    requires Inner(w.heap, a, b) && InnerPatch(w.heap, a, b, d)
    requires Phys(h', foot', Patch(w.heap, a, b, d))
    requires forall x :: x in w.heap && !(a < x <= b) ==> HeadAt(h', x).pinuse == HeadAt(w.head, x).pinuse
    requires forall y :: y in w.heap && a <= y < b && w.heap[y].use == Free ==> y in out
    requires forall y :: y in out ==> a <= y < b
    requires TopMoves(a, b, d, w.top, w.topsize, top', topsize')
    requires top' + topsize' == w.top + w.topsize && top' != 0 && (a <= w.top < b ==> w.segs[0].base <= top')
    ensures ViewsExcept(w.(head := h', foot := foot', heap := Patch(w.heap, a, b, d), top := top', topsize := topsize'),
                        FreeOf(d))
  {
    assert Apart(w.heap) && forall y :: y in d ==> a <= y < b;
    SegsBasics(w.head, w.heap, w.segs, w.top, w.topsize);
    hide Phys, SegsInv, IndexExcept, Patch, FreeOf, Inner, TopInv;
    TopPatch(w.heap, w.top, w.topsize, a, b, d, top', topsize');
    IndexPatch(w.heap, w.dv, w.dvsize, w.small, w.nodes, out, a, b, d);
    hide InnerPatch;
    SegsPatch(w.head, w.heap, w.segs, w.top, w.topsize, a, b, d, h', top', topsize');
  }
}
