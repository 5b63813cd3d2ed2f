/** Which segments release_unused_segments can give back. */
module Vacancy {
  import opened Words
  import opened BinIndex
  import opened State
  import opened Heap
  import opened Payload
  import opened Plans
  import opened Invariant
  import opened Taking
  import opened Index
  import opened InOut
  import opened Tmalloc
  import opened Freeing
  import opened Regions
  import opened Adding
  import opened FromSystem
  import opened Malloc
  import opened Trimming
  import opened Free
  import Clients

  /** No block is in the older segment `k`. */
  ghost predicate Blockless(c: Chunks, segs: seq<Seg>, k: int) {
    0 < k < |segs| && forall x {:trigger c[x]} :: x in c && segs[k].base <= x < segs[k].end ==> c[x].use != Live
  }

  /** One free chunk takes all of the segment up to its record. */
  ghost predicate OneFree(c: Chunks, g: Seg) {
    g.base in c && c[g.base].use == Free && g.base + c[g.base].size == g.rec - 16
  }

  lemma OlderSegment(w: World, k: int)
    requires ViewsExcept(w, {}) && w.top != 0 && 0 < k < |w.segs|
    ensures var g, c := w.segs[k], w.heap;
      && TailOk(c, g) && Apart(c) && g.base in c && (c[g.base].use == Live || c[g.base].use == Free) && ChunkOk(w.head, w.foot, c, g.base)
      && forall x {:trigger c[x]} :: x in c && g.base <= x < g.end ==> c[x].use != Top
  {
    var g := w.segs[k];
    TopOutside(w, k);
    assert BaseOk(w.head, w.heap, g) && TailOk(w.heap, g) && ChunkOk(w.head, w.foot, w.heap, g.base);
    hide TailOk, IndexExcept, BaseOk;
    assert BaseOk(w.head, w.heap, g) ==> w.heap[g.base].use != Record && HasNext(w.heap[g.base].use) by {
      hide TopInv, SegsInv;
    }
  }

  lemma TopOutside(w: World, k: int)
    requires ViewsExcept(w, {}) && w.top != 0 && 0 < k < |w.segs|
    ensures w.segs[k].base < w.segs[k].end && !(w.segs[k].base <= w.top < w.segs[k].end)
    ensures forall x :: x in w.heap && w.heap[x].use == Top ==> x == w.top
  {
    TopThere(w);
    hide Phys, IndexExcept;
    assert SegsApart(w.segs) && BaseOk(w.head, w.heap, w.segs[0]) && BaseOk(w.head, w.heap, w.segs[k]);
  }

  /** Without blocks an older segment is one free chunk, its record and fenceposts. */
  lemma BlocklessIff(w: World, k: int)
    requires ViewsExcept(w, {}) && w.top != 0 && 0 < k < |w.segs|
    ensures Blockless(w.heap, w.segs, k) <==> OneFree(w.heap, w.segs[k])
  {
    var g, c := w.segs[k], w.heap;
    OlderSegment(w, k);
    hide ViewsExcept, FencesFill;
    var r, y := g.rec - 16, g.base + c[g.base].size;
    assert g.base < r && y <= r;
    if c[g.base].use == Free && y < r {
      assert y in c && c[y].use == Live;
    }
    if OneFree(c, g) {
      forall x {:trigger c[x]} | x in c && g.base <= x < g.end
        ensures c[x].use != Live
      {
        assert x == g.base || g.base < x;
        assert x < r || x == r || r < x;
      }
    }
  }

  /** release_unused_segments gives a segment without blocks back, if the system lets it, exactly when its record is
      where it goes if top had room for a chunk before it. */
  lemma VacantIff(m: Mstate, k: int)
    requires Valid(m) && m.top != 0 && 0 < k < |m.segs|
    ensures Vacant(PlanOf(m), k) <==> Blockless(m.heap, m.segs, k) && m.segs[k].rec - 16 == m.segs[k].end - TOP_FOOT_SIZE
  {
    hide BinsInv, BooksInv;
    BlocklessIff(WorldOf(m), k);
    OlderSegment(WorldOf(m), k);
    hide ViewsExcept, FencesFill, Blockless;
    PlanParts(m);
  }

  // ---- a segment that stays

  const FIRST: int := 0x1_0000
  const SECOND: int := 0x4_0000
  const PAGE: int := 4096

  lemma OnePage()
    ensures GranularityOk(PAGE) && ChunkSize(4008) == 4016 && SysRequest(PAGE, 4016) == PAGE
  {}

  /** Eight bytes of top are left in a page behind a chunk of 4016 bytes. */
  lemma FirstPage(s: Plan)
    requires s.top == 0 && s.segs == [] && s.heap == map[]
    ensures var t := FromRegion(s, FIRST, FIRST + PAGE, 4016);
      && t.top == FIRST + 4016 && t.topsize == 8 && t.segs == [Seg(SEG_HEAD, FIRST, FIRST + PAGE)] && t.footprint == s.footprint + PAGE
      && NoFit(t.heap, 4016)
    ensures RegionBlock(s, FIRST) == FIRST && NoFit(s.heap, 4016) && Lives(s.heap) == map[]
  {}

  /** Too little for a chunk: the record takes its place. */
  lemma SecondPage(s: Plan)
    requires s.top == FIRST + 4016 && s.topsize == 8 && s.segs == [Seg(SEG_HEAD, FIRST, FIRST + PAGE)]
    ensures var t := FromRegion(s, SECOND, SECOND + PAGE, 4016);
      && t.top == SECOND + 4016 && t.topsize == 8 && t.footprint == s.footprint + PAGE
      && t.segs == [Seg(SEG_HEAD, SECOND, SECOND + PAGE), Seg(FIRST + 4032, FIRST, FIRST + PAGE)]
    ensures RegionBlock(s, SECOND) == SECOND
  {
    assert forall k :: 0 <= k < |s.segs| ==> s.segs[k].base != SECOND + PAGE;
  }

  /** The heap with a block of 4016 bytes in one page. */
  method OneBlock() returns (m: Mstate)
    ensures Valid(m) && fresh(m) && AllUnmap(m) && m.granularity == PAGE && NoFit(m.heap, 4016)
    ensures m.top == FIRST + 4016 && m.topsize == 8 && m.segs == [Seg(SEG_HEAD, FIRST, FIRST + PAGE)] && m.footprint == PAGE
    ensures FIRST in Lives(m.heap) && Lives(m.heap).Keys == {FIRST} && Lives(m.heap)[FIRST] < 4048
  {
    hide Valid, Lives, Chosen, NoFit, SysRequest, Quiet, FromRegion, RegionBlock;
    OnePage();
    m := new Mstate(PAGE, 0x20_0000, n => true);
    Clients.InitialValid(m);
    FirstPage(PlanOf(m));
    var mem := Dlmalloc(m, 4008, FIRST);
  }

  /** And with another one in a second page. */
  method TwoBlocks() returns (m: Mstate)
    ensures Valid(m) && fresh(m) && AllUnmap(m)
    ensures m.top == SECOND + 4016 && m.topsize == 8 && m.footprint == 2 * PAGE
    ensures m.segs == [Seg(SEG_HEAD, SECOND, SECOND + PAGE), Seg(FIRST + 4032, FIRST, FIRST + PAGE)]
    ensures FIRST in Lives(m.heap) && Lives(m.heap).Keys == {FIRST, SECOND} && Lives(m.heap)[FIRST] < 4048
  {
    hide Valid, Lives, Chosen, NoFit, SysRequest, Quiet, FromRegion, RegionBlock;
    OnePage();
    m := OneBlock();
    SecondPage(PlanOf(m));
    var mem := Dlmalloc(m, 4008, SECOND);
  }

  lemma BlocksElsewhere(c: Chunks, segs: seq<Seg>)
    requires Lives(c).Keys == {SECOND} && |segs| == 2 && segs[1].end <= SECOND
    ensures Blockless(c, segs, 1)
  {
    forall x {:trigger c[x]} | x in c && segs[1].base <= x < segs[1].end
      ensures c[x].use != Live
    {
      assert x !in Lives(c);
    }
  }

  lemma LiveSize(c: Chunks, p: int)
    requires p in Lives(c)
    ensures SizeIn(c, p) == Lives(c)[p]
  {}

  lemma TrimsNothing(s: Plan)
    requires |s.segs| == 2 && !Vacant(s, 1) && s.topsize == 8
    ensures Trimmed(s, 0).footprint == s.footprint && Trimmed(s, 0).segs == s.segs
  {
    hide Vacant;
    assert Swept(s, 2) == s;
    assert Swept(s, 1) == s;
  }

  /** Two pages, a block of 4008 bytes in each, the first one freed: malloc_trim leaves its page, though no block is in
      it and the system would unmap it. */
  method VacantStays() returns (m: Mstate, r: bool)
    ensures Valid(m) && AllUnmap(m) && m.footprint == 2 * PAGE && |m.segs| == 2 && Blockless(m.heap, m.segs, 1) && !r
  {
    hide Valid, Lives, Quiet, Blockless, Vacant, Trimmed, Freed;
    m := TwoBlocks();
    LiveSize(m.heap, FIRST);
    Dlfree(m, FIRST + 16);
    VacantIff(m, 1);
    TrimsNothing(PlanOf(m));
    r := SysTrim(m, 0);
    BlocksElsewhere(m.heap, m.segs);
  }
}
