/** Giving memory back to the system: sys_trim and release_unused_segments. */
module Trimming {
  import opened Words
  import opened BinIndex
  import opened Rings
  import opened Trie
  import opened State
  import opened Index
  import opened Heap
  import opened Payload
  import opened Plans
  import opened Invariant
  import opened Taking
  import opened InOut
  import opened Tmalloc
  import opened Regions
  import opened Adding
  import opened Segments
  import opened FromSystem
  import opened Malloc

  /** Segment `i` holds one free chunk, out of the index, and then only its record and fenceposts. */
  ghost predicate Droppable(w: World, i: int) {
    && 0 < i < |w.segs| && w.top != 0
    && var g := w.segs[i];
    && ViewsExcept(w, {g.base})
    && g.base in w.heap && w.heap[g.base].use == Free && g.base + w.heap[g.base].size >= g.end - TOP_FOOT_SIZE
  }

  ghost function WithoutSegment(c: Chunks, g: Seg): Chunks {
    Patch(c, g.base, g.end, map[])
  }

  /** No chunk reaches over the ends of a segment, and what follows it does not look back. */
  lemma DropEdges(w: World, i: int)
    requires Droppable(w, i)
    ensures var g, c := w.segs[i], w.heap;
      && g.base < g.end && Whole(c, g.base, g.end)
      && (g.end in c ==> HeadOk(w.head, c, g.end) && HeadAt(w.head, g.end).pinuse)
      && (forall x :: x in c && x + c[x].size == g.base ==> !HasNext(c[x].use))
  {
    var g, c := w.segs[i], w.heap;
    assert BaseOk(w.head, c, g) && SegsApart(w.segs);
    Sizes(w.head, w.foot, c);
    forall j | 0 <= j < |w.segs|
      ensures w.segs[j].end <= g.end || g.end <= w.segs[j].base
    {
      assert BaseOk(w.head, c, w.segs[j]);
      assert i < j || j < i || i == j;
    }
    Edge(w.head, w.foot, c, w.segs, w.top, w.topsize, g.end);
    if g.end in c {
      assert ChunkOk(w.head, w.foot, c, g.end);
    }
    forall x | x in c
      ensures x < g.base ==> x + c[x].size <= g.base
      ensures g.base <= x < g.end ==> x + c[x].size <= g.end
      ensures x + c[x].size == g.base ==> !HasNext(c[x].use)
    {
      assert Covered(c, w.segs, x);
      var j :| 0 <= j < |w.segs| && InSeg(c, w.segs[j], x);
      assert i < j || j < i || i == j;
    }
  }

  lemma DropPhys(w: World, i: int)
    requires Droppable(w, i)
    ensures Phys(w.head, w.foot, WithoutSegment(w.heap, w.segs[i]))
  {
    var g, c := w.segs[i], w.heap;
    assert Phys(w.head, w.foot, c);
    hide Droppable, Phys, HeadOk, Whole;
    DropEdges(w, i);
    assert Patch(c, g.base, g.end, map[]).Keys <= c.Keys;
    DropFits(w.head, w.foot, c, g);
    hide PatchFits;
    PatchPhys(w.head, w.foot, w.head, w.foot, c, g.base, g.end, map[]);
  }

  lemma DropFits(h: Heads, foot: Field, c: Chunks, g: Seg)
    requires g.base < g.end && Whole(c, g.base, g.end)
    requires g.end in c ==> HeadOk(h, c, g.end) && HeadAt(h, g.end).pinuse
    requires forall x :: x in c && x + c[x].size == g.base ==> !HasNext(c[x].use)
    ensures PatchFits(h, foot, h, foot, c, g.base, g.end, map[])
  {
    hide Whole;
  }

  /** In the segment there is no block, and no free chunk but the one at its base. */
  lemma DropContents(w: World, i: int)
    requires Droppable(w, i)
    ensures var g, c := w.segs[i], w.heap;
      forall x :: x in c && g.base <= x < g.end && x != g.base ==> c[x].use == Record || c[x].use == Fence
  {
    var g, c := w.segs[i], w.heap;
    assert TailOk(c, g) && Apart(c);
    var r := g.rec - 16;
    assert r in c && c[r] == Chunk(RECORD_SIZE, Record) && g.base < r;
    assert g.base + c[g.base].size <= r;
    forall x | x in c && g.base <= x < g.end && x != g.base
      ensures c[x].use == Record || c[x].use == Fence
    {
      assert x < r || x == r || r < x;
      assert g.base + c[g.base].size <= x;
    }
  }

  lemma DropBases(w: World, i: int, c': Chunks, segs: seq<Seg>)
    requires Droppable(w, i) && c' == WithoutSegment(w.heap, w.segs[i]) && segs == Dropped(w.segs, i)
    ensures forall j {:trigger BaseOk(w.head, c', segs[j])} :: 0 <= j < |segs| ==> BaseOk(w.head, c', segs[j])
  {
    hide Droppable, WithoutSegment, BaseOk, TailOk, Dropped;
    forall j {:trigger BaseOk(w.head, c', segs[j])} | 0 <= j < |segs|
      ensures BaseOk(w.head, c', segs[j])
    {
      DropEach(w, i, j);
    }
  }

  lemma DropTails(w: World, i: int, c': Chunks, segs: seq<Seg>)
    requires Droppable(w, i) && c' == WithoutSegment(w.heap, w.segs[i]) && segs == Dropped(w.segs, i)
    ensures forall j {:trigger TailOk(c', segs[j])} :: 0 < j < |segs| ==> TailOk(c', segs[j])
  {
    hide Droppable, WithoutSegment, BaseOk, TailOk, Dropped;
    forall j {:trigger TailOk(c', segs[j])} | 0 < j < |segs|
      ensures TailOk(c', segs[j])
    {
      DropEach(w, i, j);
    }
  }

  lemma DropSegs(w: World, i: int)
    requires Droppable(w, i)
    ensures SegsInv(w.head, WithoutSegment(w.heap, w.segs[i]), Dropped(w.segs, i), w.top, w.topsize)
  {
    hide ViewsExcept, SegsInv, WithoutSegment, BaseOk, TailOk, Covered, SegsApart, Dropped, Interior;
    var c', segs := WithoutSegment(w.heap, w.segs[i]), Dropped(w.segs, i);
    DropOrder(w, i);
    DropInterior(w, i);
    DropBases(w, i, c', segs);
    DropTails(w, i, c', segs);
    forall x {:trigger Covered(c', segs, x)} | x in c'
      ensures Covered(c', segs, x)
    {
      DropCovered(w, i, x);
    }
    SegsAssemble(w.head, c', segs, w.top, w.topsize);
  }

  lemma DropInterior(w: World, i: int)
    requires Droppable(w, i)
    ensures |Dropped(w.segs, i)| > 0
    ensures Interior(WithoutSegment(w.heap, w.segs[i]), Dropped(w.segs, i)[0].base, w.top + w.topsize)
  {
    SegsBasics(w.head, w.heap, w.segs, w.top, w.topsize);
    hide ViewsExcept, Interior, Patch;
    InteriorPatch(w.heap, w.segs[i].base, w.segs[i].end, map[], w.segs[0].base, w.top + w.topsize, w.segs[0].base);
  }

  lemma DropEach(w: World, i: int, j: int)
    requires Droppable(w, i) && 0 <= j < |Dropped(w.segs, i)|
    ensures BaseOk(w.head, WithoutSegment(w.heap, w.segs[i]), Dropped(w.segs, i)[j])
    ensures j > 0 ==> TailOk(WithoutSegment(w.heap, w.segs[i]), Dropped(w.segs, i)[j])
  {
    hide ViewsExcept, WithoutSegment, BaseOk, TailOk, Dropped;
    DroppedAt(w.segs, i);
    DropOthers(w, i, if j < i then j else j + 1);
  }

  lemma DropOrder(w: World, i: int)
    requires Droppable(w, i)
    ensures var segs, c' := Dropped(w.segs, i), WithoutSegment(w.heap, w.segs[i]);
      && |segs| > 0 && SegsApart(segs) && segs[0].base <= w.top && w.top + w.topsize + TOP_FOOT_SIZE == segs[0].end
      && w.top + w.topsize in c' && c'[w.top + w.topsize] == Chunk(TOP_FOOT_SIZE, Trailer)
  {
    assert SegsApart(w.segs) && BaseOk(w.head, w.heap, w.segs[0]);
    assert ChunkOk(w.head, w.foot, w.heap, w.top);
    DroppedAt(w.segs, i);
    hide Dropped;
  }

  lemma DropOthers(w: World, i: int, j: int)
    requires Droppable(w, i) && 0 <= j < |w.segs| && j != i
    ensures BaseOk(w.head, WithoutSegment(w.heap, w.segs[i]), w.segs[j])
    ensures j > 0 ==> TailOk(WithoutSegment(w.heap, w.segs[i]), w.segs[j])
  {
    var g := w.segs[i];
    assert BaseOk(w.head, w.heap, w.segs[j]) && (j > 0 ==> TailOk(w.heap, w.segs[j])) && SegsApart(w.segs);
    assert i < j || j < i;
    hide Droppable, BaseOk, TailOk, Patch;
    SegElsewhere(w.head, w.heap, w.segs[j], g.base, g.end, map[], w.head);
  }

  lemma DropCovered(w: World, i: int, x: int)
    requires Droppable(w, i) && x in WithoutSegment(w.heap, w.segs[i])
    ensures Covered(WithoutSegment(w.heap, w.segs[i]), Dropped(w.segs, i), x)
  {
    hide ViewsExcept, Dropped;
    var g, c, segs := w.segs[i], w.heap, Dropped(w.segs, i);
    assert x in c && !(g.base <= x < g.end) && WithoutSegment(c, g)[x] == c[x];
    CoveredIn(w, {g.base}, x);
    var j :| 0 <= j < |w.segs| && InSeg(c, w.segs[j], x);
    DroppedAt(w.segs, i);
    assert InSeg(WithoutSegment(c, g), segs[if j < i then j else j - 1], x);
  }

  lemma CoveredIn(w: World, out: set<int>, x: int)
    requires ViewsExcept(w, out) && x in w.heap
    ensures w.top != 0 && Covered(w.heap, w.segs, x) && w.heap[x].size > 0
  {
    Sizes(w.head, w.foot, w.heap);
  }

  /** The views after a segment has been dropped. */
  lemma SegmentDropped(w: World, v: BinView, a: Memory, i: int)
    requires Droppable(w, i) && BinsInv(w.head, v) && v.small == w.small && v.nodes == w.nodes
    requires a.head == w.head && a.foot == w.foot
    ensures var c' := WithoutSegment(w.heap, w.segs[i]);
      && ViewsExcept(w.(heap := c', segs := Dropped(w.segs, i)), {})
      && Lives(c') == Lives(w.heap)
  {
    hide Phys, SegsInv, TopInv, IndexExcept, BaseOk, TailOk, Patch, BinsInv, Lives, Dropped;
    var g, c := w.segs[i], w.heap;
    DropContents(w, i);
    DropPhys(w, i);
    DropSegs(w, i);
    DropTop(w, i);
    IndexPatch(c, w.dv, w.dvsize, w.small, w.nodes, {g.base}, g.base, g.end, map[]);
    NoBlocksIn(c, g);
    assert FreeOf(map[]) == {};
  }

  lemma NoBlocksIn(c: Chunks, g: Seg)
    requires forall x :: x in c && g.base <= x < g.end ==> c[x].use != Live
    ensures Lives(WithoutSegment(c, g)) == Lives(c)
  {
    LivesPatch(c, g.base, g.end, map[]);
    assert Lives(map[]) == map[];
    assert Lives(c) + map[] == Lives(c);
  }

  lemma DropTop(w: World, i: int)
    requires Droppable(w, i)
    ensures TopInv(WithoutSegment(w.heap, w.segs[i]), w.top, w.topsize)
    ensures w.segs[i].base < w.segs[i].end
  {
    var g := w.segs[i];
    assert TopInv(w.heap, w.top, w.topsize) && BaseOk(w.head, w.heap, g) && BaseOk(w.head, w.heap, w.segs[0]);
    assert SegsApart(w.segs) && w.segs[0].base <= w.top && ChunkOk(w.head, w.foot, w.heap, w.top);
    hide ViewsExcept;
  }

  // ---- what giving back does to the heap in outline

  /** An older segment that holds one free chunk only. */
  ghost predicate Vacant(s: Plan, k: int) {
    && 0 < k < |s.segs|
    && var g := s.segs[k];
    g.base in s.heap && s.heap[g.base].use == Free && g.base + s.heap[g.base].size >= g.end - TOP_FOOT_SIZE
  }

  lemma VacantSame(s: Plan, s': Plan)
    requires s'.heap == s.heap && s'.segs == s.segs
    ensures forall j :: Vacant(s', j) <==> Vacant(s, j)
  {}

  ghost function SegmentGone(s: Plan, k: int): (r: Plan)
    ensures 0 <= k < |s.segs| ==> |r.segs| == |s.segs| - 1
  {
    if !(0 <= k < |s.segs|) then s
    else s.(heap := WithoutSegment(s.heap, s.segs[k]), segs := Dropped(s.segs, k), footprint := s.footprint - (s.segs[k].end - s.segs[k].base))
  }

  /** From segment `k` on, all vacant segments go, as far as the system unmaps them. The victim, if it was alone in one that stays, is the victim no longer. */
  ghost function Swept(s: Plan, k: nat): Plan
    decreases |s.segs| - k
  {
    if k >= |s.segs| then s
    else if !Vacant(s, k) then Swept(s, k + 1)
    else
      var s1 := WithDv(s, s.dv == s.segs[k].base, 0, 0).(asked := s.asked + 1);
      if s.rules.system(s.asked) then Swept(SegmentGone(s1, k), k) else Swept(s1, k + 1)
  }

  /** What stays of top: the least size above `pad` that differs from the old one by whole granules. */
  function TopKept(topsize: int, pad: int, g: int): int {
    if g <= 0 then topsize else pad + 1 + (topsize - pad - 1) % g
  }

  /** Only `keep` bytes of top stay. */
  ghost function WithTopCut(s: Plan, keep: int): Plan {
    if keep == s.topsize || s.segs == [] then s
    else
      var e := s.segs[0].end;
      s.(heap := Patch(s.heap, s.top, e, TopAndTrailer(s.top, keep)), topsize := keep, trimCheck := s.rules.threshold,
         segs := EndedAt(s.segs, e - (s.topsize - keep)), footprint := s.footprint - (s.topsize - keep))
  }

  /** sys_trim: first top, then the vacant segments; nothing given back turns trimming off. */
  ghost function Trimmed(s: Plan, pad: int): Plan {
    if pad >= MAX_REQUEST || s.top == 0 then s
    else
      var r := Swept(if s.topsize > pad + TOP_FOOT_SIZE then TopTrimmed(s, pad + TOP_FOOT_SIZE) else s, 1);
      if r.footprint == s.footprint then r.(trimCheck := MAX_SIZE_T) else r
  }

  /** Top is cut as far as `pad` allows, if the system unmaps. */
  ghost function TopTrimmed(s: Plan, pad: int): Plan {
    var s1 := s.(asked := s.asked + 1);
    if s.rules.system(s.asked) then WithTopCut(s1, TopKept(s.topsize, pad, s.rules.granularity)) else s1
  }

  /** A system that unmaps what it is asked to leaves no vacant segment. */
  lemma {:induction false} SweptClean(s: Plan, k: nat)
    requires k > 0 && (forall t {:trigger s.rules.system(t)} :: s.rules.system(t)) && forall j :: 0 < j < k ==> !Vacant(s, j)
    ensures forall j :: !Vacant(Swept(s, k), j)
    decreases |s.segs| - k
  {
    if k < |s.segs| {
      if !Vacant(s, k) {
        SweptClean(s, k + 1);
      } else {
        var s1 := WithDv(s, s.dv == s.segs[k].base, 0, 0).(asked := s.asked + 1);
        var t := SegmentGone(s1, k);
        forall j | 0 < j < k
          ensures !Vacant(t, j)
        {
          assert t.segs[j] == s.segs[j] && !Vacant(s, j);
        }
        SweptClean(t, k);
      }
    }
  }

  /** One that refuses leaves all as it is, except that a vacant segment no longer holds the victim. */
  lemma {:induction false} SweptRefused(s: Plan, k: nat)
    requires forall t {:trigger s.rules.system(t)} :: !s.rules.system(t)
    ensures var r := Swept(s, k);
      && r.heap == s.heap && r.segs == s.segs && r.footprint == s.footprint && r.top == s.top && r.topsize == s.topsize
      && r.trimCheck == s.trimCheck && (r.dv == s.dv || r.dv == 0)
    decreases |s.segs| - k
  {
    if k < |s.segs| {
      SweptRefused(WithDv(s, Vacant(s, k) && s.dv == s.segs[k].base, 0, 0).(asked := if Vacant(s, k) then s.asked + 1 else s.asked), k + 1);
    }
  }

  // ---- release_unused_segments

  /** The records when segment `k` has been unlinked. */
  lemma DroppedBooks(w: World, l: Ledger, l': Ledger, k: int)
    requires Droppable(w, k) && BooksInv(l, w.segs, TotalSize(w.segs))
    requires l' == l.(footprint := l.footprint - (w.segs[k].end - w.segs[k].base),
                      segNext := l.segNext[w.segs[k - 1].rec := At(l.segNext, w.segs[k].rec)])
    ensures BooksInv(l', Dropped(w.segs, k), TotalSize(Dropped(w.segs, k)))
  {
    hide ViewsExcept, TotalSize, RecordsOk, RecsApart;
    RecordsApart(w, {w.segs[k].base}, l.segBase, l.segSize, l.segNext);
    RecordsDrop(l.segBase, l.segSize, l.segNext, w.segs, k);
    TotalDrop(w.segs, k);
    DroppedAt(w.segs, k);
    DropGrows(w, k);
    hide Dropped;
  }

  lemma DropGrows(w: World, k: int)
    requires Droppable(w, k)
    ensures w.segs[k].base < w.segs[k].end
  {
    assert BaseOk(w.head, w.heap, w.segs[k]);
  }

  lemma DroppedQuiet(w: World, a: Memory, a': Memory, l: Ledger, k: int)
    requires Droppable(w, k) && BooksInv(l, w.segs, TotalSize(w.segs)) && a.head == w.head && a.foot == w.foot
    requires a' == a.(segNext := a'.segNext)
    requires forall r :: r != w.segs[k - 1].rec ==> At(a'.segNext, r) == At(a.segNext, r)
    ensures Quiet(a, a', Lives(w.heap))
  {
    var rec := w.segs[k - 1].rec;
    assert RecordOk(l.segBase, l.segSize, l.segNext, w.segs, k - 1);
    assert k > 1 ==> TailOk(w.heap, w.segs[k - 1]);
    assert Phys(w.head, w.foot, w.heap);
    hide Droppable, Phys, BooksInv, Quiet, Lives;
    RecordQuiet(a, a', w.heap, Lives(w.heap), rec);
  }

  lemma SegmentDroppedAll(w: World, v: BinView, a: Memory, a': Memory, l: Ledger, l': Ledger, k: int)
    requires Droppable(w, k) && BinsInv(w.head, v) && v.small == w.small && v.nodes == w.nodes
    requires a.head == w.head && a.foot == w.foot && BooksInv(l, w.segs, TotalSize(w.segs))
    requires l' == l.(footprint := l.footprint - (w.segs[k].end - w.segs[k].base),
                      segNext := l.segNext[w.segs[k - 1].rec := At(l.segNext, w.segs[k].rec)])
    requires a.segNext == l.segNext && a' == a.(segNext := l'.segNext)
    ensures var heap', segs' := WithoutSegment(w.heap, w.segs[k]), Dropped(w.segs, k);
      && ViewsExcept(w.(heap := heap', segs := segs'), {})
      && SameBlocks(a, a', w.heap, heap') && BooksInv(l', segs', TotalSize(segs'))
  {
    hide ViewsExcept, BinsInv, BooksInv, TotalSize, Quiet, Lives, WithoutSegment, Dropped;
    SegmentDropped(w, v, a, k);
    DroppedBooks(w, l, l', k);
    DroppedQuiet(w, a, a', l, k);
  }

  method WriteDrop(m: Mstate, pred: int, next: int, size: int, ghost heap': Chunks, ghost segs': seq<Seg>)
    modifies m`footprint, m`segNext, m`heap, m`segs
    ensures m.footprint == old(m.footprint) - size && m.segNext == old(m.segNext)[pred := next]
    ensures m.heap == heap' && m.segs == segs'
  {
    m.footprint := m.footprint - size;
    m.segNext := m.segNext[pred := next];
    Redraw(m, heap', segs');
  }

  /** The segment `k`, whose free chunk has left the index, is unmapped and unlinked. */
  method DropSegment(m: Mstate, pred: int, next: int, size: int, ghost k: int)
    requires BinsOk(m) && Books(m) && Droppable(WorldOf(m), k)
    requires pred == m.segs[k - 1].rec && next == At(m.segNext, m.segs[k].rec) && size == m.segs[k].end - m.segs[k].base
    modifies m`footprint, m`segNext, m`heap, m`segs
    ensures Valid(m) && m.segs == Dropped(old(m.segs), k)
    ensures SameBlocks(old(MemoryOf(m)), MemoryOf(m), old(m.heap), m.heap)
    ensures PlanOf(m) == SegmentGone(old(PlanOf(m)), k)
  {
    hide ViewsExcept, BinsInv, BooksInv, TotalSize, SameBlocks, WithoutSegment, Dropped;
    ghost var w, v, a, l := WorldOf(m), BinsOf(m), MemoryOf(m), LedgerOf(m);
    WriteDrop(m, pred, next, size, WithoutSegment(w.heap, w.segs[k]), Dropped(w.segs, k));
    SegmentDroppedAll(w, v, a, MemoryOf(m), l, LedgerOf(m), k);
  }

  /** Segment `k` has a single free chunk at its base, as release_unused_segments tests. */
  ghost predicate Unused(w: World, k: int) {
    && 0 < k < |w.segs| && w.top != 0 && ViewsExcept(w, {})
    && var g := w.segs[k];
    g.base in w.heap && w.heap[g.base].use == Free && g.base + w.heap[g.base].size >= g.end - TOP_FOOT_SIZE
  }

  /** The chunk at the base of an older segment: its head word tells whether it is free. */
  lemma BaseChunk(w: World, l: Ledger, k: int)
    requires ViewsExcept(w, {}) && w.top != 0 && BooksInv(l, w.segs, TotalSize(w.segs)) && 0 < k < |w.segs|
    ensures var g := w.segs[k];
      && g.base in w.heap && SizeAt(w.head, g.base) == w.heap[g.base].size && g.base > 0 && g.base % 8 == 0
      && (!HeadAt(w.head, g.base).cinuse <==> w.heap[g.base].use == Free)
      && g.end - g.base >= 4096 && g.base <= g.rec < g.end
  {
    var g := w.segs[k];
    assert BaseOk(w.head, w.heap, g) && TailOk(w.heap, g) && ChunkOk(w.head, w.foot, w.heap, g.base);
    assert w.heap[g.base].use == Top ==> g.base == w.top;
    OneTop(w, k);
    assert Multiple(g.end - g.base, l.granularity);
    hide ViewsExcept, BooksInv;
    AtLeastGranule(g.end - g.base, l.granularity);
    GranuleLarge(l, w.segs);
  }

  lemma GranuleLarge(l: Ledger, segs: seq<Seg>)
    requires BooksInv(l, segs, TotalSize(segs))
    ensures l.granularity >= 4096
  {}

  lemma OneTop(w: World, k: int)
    requires ViewsExcept(w, {}) && w.top != 0 && 0 < k < |w.segs|
    ensures w.segs[k].base != w.top
  {
    assert SegsApart(w.segs) && BaseOk(w.head, w.heap, w.segs[k]) && w.segs[0].base <= w.top;
    TopThere(w);
  }

  lemma AtLeastGranule(x: int, g: int)
    requires x > 0 && g > 0 && Multiple(x, g)
    ensures x >= g
  {}

  /** The chunk leaves the index: it is the victim, or in the tree of its size. */
  method TakeUnused(m: Mstate, p: int, ghost k: int)
    requires Valid(m) && Unused(WorldOf(m), k) && p == m.segs[k].base && m.heap[p].size >= MIN_LARGE_SIZE
    modifies m`dv, m`dvsize, m`fd, m`bk, m`child0, m`child1, m`parent, m`treebins, m`treemap, m`nodes
    ensures BinsOk(m) && Books(m) && Droppable(WorldOf(m), k)
    ensures Quiet(old(MemoryOf(m)), MemoryOf(m), Lives(m.heap))
    ensures PlanOf(m) == WithDv(old(PlanOf(m)), old(m.dv) == p, 0, 0)
  {
    hide ViewsExcept, BinsInv, BooksInv, TotalSize, Quiet, Lives, Kept, Books;
    if p == m.dv {
      VictimSizeOf(WorldOf(m), p);
      DvOut(WorldOf(m), {});
      assert {} + {p} == {p};
      QuietSelf(MemoryOf(m), Lives(m.heap));
      WriteDv(m, 0, 0);
    } else {
      NextKeptOf(WorldOf(m), p);
      DetachLarge(m, p, m.heap[p].size, {});
      assert {} + {p} == {p};
    }
  }

  lemma VictimSizeOf(w: World, n: int)
    requires ViewsExcept(w, {}) && n == w.dv && n in w.heap && w.heap[n].use == Free
    ensures w.dvsize != 0
  {
    Sizes(w.head, w.foot, w.heap);
  }

  lemma NextKeptOf(w: World, n: int)
    requires ViewsExcept(w, {}) && n in w.heap && w.heap[n].use == Free && n != w.dv
    ensures Kept(w.small, w.nodes, w.heap[n].size, n)
  {
    assert FreeAt(w.heap, w.heap[n].size, n);
    hide Kept;
  }

  /** The answer does not depend on the heap, nor the heap on it. */
  method AskWhileOut(m: Mstate, ghost k: int) returns (yes: bool)
    requires BinsOk(m) && Books(m) && Droppable(WorldOf(m), k)
    modifies m`asked
    ensures BinsOk(m) && Books(m) && Droppable(WorldOf(m), k) && MemoryOf(m) == old(MemoryOf(m))
    ensures yes == m.system(old(m.asked)) && PlanOf(m) == old(PlanOf(m)).(asked := old(m.asked) + 1)
  {
    hide BinsInv, Books, Droppable;
    yes := Ask(m);
  }

  /** The system has unmapped the segment, or it has refused and the chunk goes back into its tree. */
  method Settle(m: Mstate, pred: int, next: int, p: int, size: int, psize: int, unmapped: bool, ghost k: int)
    requires BinsOk(m) && Books(m) && Droppable(WorldOf(m), k) && 0 < k < |m.segs|
    requires p == m.segs[k].base && p in m.heap && psize == m.heap[p].size && psize >= MIN_LARGE_SIZE
    requires pred == m.segs[k - 1].rec && next == At(m.segNext, m.segs[k].rec) && size == m.segs[k].end - m.segs[k].base
    modifies m`fd, m`bk, m`child0, m`child1, m`parent, m`index, m`treebins, m`treemap, m`nodes, m`footprint, m`segNext, m`heap, m`segs
    ensures Valid(m) && SameBlocks(old(MemoryOf(m)), MemoryOf(m), old(m.heap), m.heap)
    ensures m.segs == if unmapped then Dropped(old(m.segs), k) else old(m.segs)
    ensures PlanOf(m) == if unmapped then SegmentGone(old(PlanOf(m)), k) else old(PlanOf(m))
  {
    hide Quiet, Lives, Dropped, SameBlocks, Valid, BinsOk, Books, Droppable, WorldOf, MemoryOf, SegmentGone;
    if unmapped {
      DropSegment(m, pred, next, size, k);
    } else {
      Rebin(m, p, psize, k);
      SameIf(old(MemoryOf(m)), MemoryOf(m), m.heap);
    }
  }

  lemma SameIf(a: Memory, b: Memory, c: Chunks)
    requires Quiet(a, b, Lives(c))
    ensures SameBlocks(a, b, c, c)
  {}

  /** An unused segment is unmapped and unlinked or, when the system refuses, binned again. */
  method Release(m: Mstate, pred: int, next: int, p: int, size: int, psize: int, ghost k: int) returns (done: bool)
    requires Valid(m) && Unused(WorldOf(m), k) && p == m.segs[k].base && psize == m.heap[p].size && psize >= MIN_LARGE_SIZE
    requires pred == m.segs[k - 1].rec && next == At(m.segNext, m.segs[k].rec) && size == m.segs[k].end - m.segs[k].base
    modifies m
    ensures Valid(m) && SameBlocks(old(MemoryOf(m)), MemoryOf(m), old(m.heap), m.heap)
    ensures m.segs == if done then Dropped(old(m.segs), k) else old(m.segs)
    ensures m.top == old(m.top) && m.topsize == old(m.topsize) && m.trimCheck == old(m.trimCheck) && m.maxFootprint == old(m.maxFootprint)
    ensures done == m.system(old(m.asked))
    ensures var s := WithDv(old(PlanOf(m)), old(m.dv) == p, 0, 0).(asked := old(m.asked) + 1);
      PlanOf(m) == if done then SegmentGone(s, k) else s
  {
    hide Quiet, Lives, Dropped, SameBlocks, Unused, Valid, BinsOk, Books, Droppable, WorldOf, MemoryOf, SegmentGone, WithDv, PlanOf;
    ghost var a, c := MemoryOf(m), m.heap;
    UnusedThere(m, k);
    TakeUnused(m, p, k);
    ghost var b := MemoryOf(m);
    done := AskWhileOut(m, k);
    Settle(m, pred, next, p, size, psize, done, k);
    SameBefore(a, b, MemoryOf(m), c, m.heap);
  }

  lemma UnusedThere(m: Mstate, k: int)
    requires Unused(WorldOf(m), k)
    ensures 0 < k < |m.segs| && m.segs[k].base in m.heap
  {
    hide ViewsExcept;
  }

  lemma DroppableFree(w: World, k: int)
    requires Droppable(w, k)
    ensures 0 <= k < |w.segs| && var p := w.segs[k].base;
      p in w.heap && FreeAt(w.heap, w.heap[p].size, p) && ViewsExcept(w, {p})
  {
    hide ViewsExcept;
  }

  /** Back into the tree after a failed munmap. */
  method Rebin(m: Mstate, p: int, psize: int, ghost k: int)
    requires BinsOk(m) && Books(m) && Droppable(WorldOf(m), k) && p == m.segs[k].base
    requires p in m.heap && psize == m.heap[p].size && psize >= MIN_LARGE_SIZE
    modifies m`fd, m`bk, m`child0, m`child1, m`parent, m`index, m`treebins, m`treemap, m`nodes
    ensures Valid(m) && Quiet(old(MemoryOf(m)), MemoryOf(m), Lives(m.heap))
  {
    hide ViewsExcept, BinsInv, BooksInv, TotalSize, Quiet, Lives, Droppable;
    DroppableFree(WorldOf(m), k);
    AttachLarge(m, p, psize, {p});
    assert {p} - {p} == {};
  }

  lemma SameBefore(a: Memory, b: Memory, d: Memory, c: Chunks, c': Chunks)
    requires Quiet(a, b, Lives(c)) && SameBlocks(b, d, c, c')
    ensures SameBlocks(a, d, c, c')
  {
    hide Quiet, Lives;
    QuietTrans(a, b, d, Lives(c));
  }

  lemma BookFacts(m: Mstate)
    requires Valid(m)
    ensures m.footprint == TotalSize(m.segs) && RecordsOk(m.segBase, m.segSize, m.segNext, m.segs)
    ensures BooksInv(LedgerOf(m), m.segs, TotalSize(m.segs)) && GranularityOk(m.granularity)
    ensures m.top != 0 ==> |m.segs| > 0
  {
    hide BinsInv, TotalSize, RecordsOk;
    if m.top != 0 {
      SegsBasics(m.head, m.heap, m.segs, m.top, m.topsize);
    }
  }

  lemma NextRecord(m: Mstate, segs: seq<Seg>, k: int, next: int)
    requires 0 < k < |segs| && next == (if k + 1 < |segs| then segs[k + 1].rec else 0)
    requires forall i :: 0 < i < |segs| ==> segs[i].rec > 0
    ensures RecordOf(segs, next, k + 1) && RecordOf(Dropped(segs, k), next, k) && Dropped(segs, k)[k - 1] == segs[k - 1]
    ensures |Dropped(segs, k)| == |segs| - 1
  {
    DroppedAt(segs, k);
    hide Dropped;
  }

  lemma RecsPositive(segBase: Field, segSize: Field, segNext: Field, segs: seq<Seg>)
    requires RecordsOk(segBase, segSize, segNext, segs)
    ensures forall i :: 0 < i < |segs| ==> segs[i].rec > 0
  {
    forall i | 0 < i < |segs|
      ensures segs[i].rec > 0
    {
      assert RecordOk(segBase, segSize, segNext, segs, i);
    }
  }

  lemma RecordReads(segBase: Field, segSize: Field, segNext: Field, segs: seq<Seg>, k: int)
    requires RecordsOk(segBase, segSize, segNext, segs) && 0 <= k < |segs|
    ensures At(segBase, segs[k].rec) == segs[k].base && At(segSize, segs[k].rec) == segs[k].end - segs[k].base
    ensures At(segNext, segs[k].rec) == (if k + 1 < |segs| then segs[k + 1].rec else 0)
    ensures k == 0 ==> segs[k].rec == SEG_HEAD
  {
    assert RecordOk(segBase, segSize, segNext, segs, k);
  }

  /** One segment on the way along the list. */
  method VisitSegment(m: Mstate, pred: int, sp: int, ghost k: int) returns (released: int, pred': int, next: int, ghost k': int)
    requires Valid(m) && m.top != 0 && 0 < k < |m.segs| && pred == m.segs[k - 1].rec && sp == m.segs[k].rec
    modifies m
    ensures Valid(m) && SameBlocks(old(MemoryOf(m)), MemoryOf(m), old(m.heap), m.heap)
    ensures m.top == old(m.top) && m.topsize == old(m.topsize) && m.trimCheck == old(m.trimCheck) && m.maxFootprint == old(m.maxFootprint)
    ensures 0 < k' <= |m.segs| && pred' == m.segs[k' - 1].rec && RecordOf(m.segs, next, k')
    ensures |m.segs| - k' < |old(m.segs)| - k
    ensures released >= 0 && TotalSize(m.segs) == old(TotalSize(m.segs)) - released
    ensures Swept(PlanOf(m), k') == Swept(old(PlanOf(m)), k)
  {
    hide ViewsExcept, BinsInv, BooksInv, TotalSize, SameBlocks, Dropped, RecordsOk, Unused, Valid;
    BookFacts(m);
    ghost var segs := m.segs;
    RecordReads(m.segBase, m.segSize, m.segNext, segs, k);
    RecsPositive(m.segBase, m.segSize, m.segNext, segs);
    BaseChunkOf(m, k);
    var base := At(m.segBase, sp);
    var size := At(m.segSize, sp);
    next := At(m.segNext, sp);
    NextRecord(m, segs, k, next);
    var p := base + AlignOffset(base + 16);
    var psize := SizeAt(m.head, p);
    assert base <= sp < base + size;
    released, pred', k' := 0, sp, k + 1;
    if !HeadAt(m.head, p).cinuse && p + psize >= base + size - TOP_FOOT_SIZE {
      IsUnused(m, k);
      TotalDrop(segs, k);
      var done := Release(m, pred, next, p, size, psize, k);
      if done {
        released, pred', k' := size, pred, k;
      }
    } else {
      SameStill(MemoryOf(m), m.heap);
    }
  }

  lemma SameStill(a: Memory, c: Chunks)
    ensures SameBlocks(a, a, c, c)
  {
    hide InPayload;
    QuietSelf(a, Lives(c));
  }

  lemma BaseChunkOf(m: Mstate, k: int)
    requires Valid(m) && m.top != 0 && 0 < k < |m.segs|
    ensures var g := m.segs[k];
      && g.base in m.heap && SizeAt(m.head, g.base) == m.heap[g.base].size && g.base > 0 && g.base % 8 == 0
      && (!HeadAt(m.head, g.base).cinuse <==> m.heap[g.base].use == Free)
      && g.end - g.base >= 4096 && g.base <= g.rec < g.end
  {
    hide BinsInv, BooksInv, ViewsExcept;
    BaseChunk(WorldOf(m), LedgerOf(m), k);
  }

  lemma IsUnused(m: Mstate, k: int)
    requires Valid(m) && m.top != 0 && 0 < k < |m.segs|
    requires var g := m.segs[k];
      g.base in m.heap && m.heap[g.base].use == Free && g.base + m.heap[g.base].size >= g.end - TOP_FOOT_SIZE
    ensures Unused(WorldOf(m), k)
  {
    hide BinsInv, BooksInv, ViewsExcept;
  }

  /** The system unmaps whatever it is asked to. */
  ghost predicate AllUnmap(m: Mstate) {
    forall n {:trigger m.system(n)} :: m.system(n)
  }

  /** release_unused_segments: only segments without blocks go, and the footprint with them. */
  method ReleaseUnusedSegments(m: Mstate) returns (released: int)
    requires Valid(m) && m.top != 0
    modifies m
    ensures Valid(m) && SameBlocks(old(MemoryOf(m)), MemoryOf(m), old(m.heap), m.heap)
    ensures m.top == old(m.top) && m.topsize == old(m.topsize) && m.trimCheck == old(m.trimCheck)
    ensures released >= 0 && m.footprint == old(m.footprint) - released && m.maxFootprint == old(m.maxFootprint)
    ensures PlanOf(m) == Swept(old(PlanOf(m)), 1)
    ensures AllUnmap(m) ==> forall j :: !Vacant(PlanOf(m), j)
  {
    hide ViewsExcept, BinsInv, BooksInv, TotalSize, SameBlocks, RecordsOk, Valid;
    released := 0;
    BookFacts(m);
    ghost var a, c, k := MemoryOf(m), m.heap, 1;
    ghost var total := TotalSize(m.segs);
    RecordReads(m.segBase, m.segSize, m.segNext, m.segs, 0);
    RecsPositive(m.segBase, m.segSize, m.segNext, m.segs);
    SameStill(a, c);
    var pred := SEG_HEAD;
    var sp := At(m.segNext, pred);
    while sp != 0
      invariant Valid(m) && m.top == old(m.top) && m.topsize == old(m.topsize) && m.trimCheck == old(m.trimCheck)
      invariant m.maxFootprint == old(m.maxFootprint)
      invariant SameBlocks(a, MemoryOf(m), c, m.heap)
      invariant 0 < k <= |m.segs| && pred == m.segs[k - 1].rec && RecordOf(m.segs, sp, k)
      invariant released >= 0 && TotalSize(m.segs) == total - released
      invariant Swept(PlanOf(m), k) == Swept(old(PlanOf(m)), 1)
      decreases |m.segs| - k
    {
      ghost var b, c1 := MemoryOf(m), m.heap;
      var freed;
      freed, pred, sp, k := VisitSegment(m, pred, sp, k);
      released := released + freed;
      SameTrans(a, b, MemoryOf(m), c, c1, m.heap);
    }
    BookFacts(m);
    if AllUnmap(m) {
      SweptClean(old(PlanOf(m)), 1);
    }
  }

  lemma SameTrans(a: Memory, b: Memory, d: Memory, c: Chunks, c': Chunks, c'': Chunks)
    requires SameBlocks(a, b, c, c') && SameBlocks(b, d, c', c'')
    ensures SameBlocks(a, d, c, c'')
  {
    hide Quiet, Lives;
    QuietTrans(a, b, d, Lives(c));
  }

  // ---- sys_trim

  /** Unsigned multiplication, wrapping at 2^64. */
  function Mul64(a: int, b: int): int
    requires IsWord(a) && IsWord(b)
  {
    a * b % W64
  }

  /** How much of top sys_trim gives back, keeping more than `pad` bytes of `topsize`. */
  function TrimExtra(topsize: int, pad: int, unit: int): int
    requires IsWord(topsize) && IsWord(pad) && IsWord(unit) && unit > 0
  {
    var x := Add64(Sub64(topsize, pad), unit - 1);
    DivWord(x, unit);
    Mul64(Sub64(x / unit, 1), unit)
  }

  lemma ModSmall(x: int)
    requires 0 <= x < W64
    ensures x % W64 == x
  {}

  /** `(2^64 - 1) * g` wraps to `2^64 - g`. */
  lemma MinusTimes(g: int)
    requires 0 < g < W64
    ensures (W64 - 1) * g % W64 == W64 - g
  {
    var x := W64 - g;
    assert (W64 - 1) * g == W64 * (g - 1) + x;
    ModOf(g - 1, x);
  }

  lemma ModOf(k: int, x: int)
    requires 0 <= x < W64
    ensures (W64 * k + x) % W64 == x
  {}

  lemma TimesAtLeast(q: int, g: int)
    requires q >= 0 && g >= 1
    ensures q * g >= q
  {
    assert q * g == q + q * (g - 1);
    assert q * (g - 1) >= 0;
  }

  lemma DivWord(x: int, g: int)
    requires x >= 0 && g > 0
    ensures 0 <= x / g <= x
  {
    assert x / g >= 0;
    RoundDown(x, g);
    TimesAtLeast(x / g, g);
  }

  lemma DivSmall(x: int, g: int)
    requires x >= 0 && g > 0
    ensures (x >= g ==> x / g >= 1) && (x < g ==> x / g == 0)
  {
    if x >= g {
      AtLeastOne(x, g);
    }
  }

  /** It is the largest whole number of granules that leaves more than `pad` bytes: what stays beyond `pad` is at
      most one granule. */
  lemma TrimKeeps(topsize: int, pad: int, g: int)
    requires GranularityOk(g) && IsWord(topsize) && 0 <= pad < topsize
    ensures var extra := TrimExtra(topsize, pad, g);
      0 <= extra && pad < topsize - extra <= pad + g && Multiple(extra, g) && topsize - extra == TopKept(topsize, pad, g)
  {
    var t := topsize - pad;
    var x := Add64(t, g - 1);
    DivWord(x, g);
    DivSmall(x, g);
    RoundDown(x, g);
    var q := x / g;
    if t + g - 1 < W64 {
      assert (q - 1) * g == q * g - g;
      assert 0 <= (q - 1) * g by {
        assert q >= 1;
      }
      ModSmall((q - 1) * g);
      TimesIsMultiple(q - 1, g);
    } else {
      MinusTimes(g);
      WholeWord(g);
    }
    var extra := TrimExtra(topsize, pad, g);
    LeftOver(t - 1, extra, g);
  }

  lemma LeftOver(x: int, e: int, g: int)
    requires g > 0 && Multiple(e, g) && e <= x < e + g
    ensures x % g == x - e
  {
    var d := x - e - x % g;
    assert x - x % g == x / g * g;
    DividesTimes(x / g, g);
    MultipleSum(x - x % g, e, g);
    if d >= 0 {
      NoSmallMultiple(d, g);
    } else {
      NegMultiple(d, g);
      NoSmallMultiple(-d, g);
    }
  }

  lemma NoSmallMultiple(d: int, g: int)
    requires 0 <= d < g && Multiple(d, g)
    ensures d == 0
  {}

  lemma WholeWord(g: int)
    requires GranularityOk(g)
    ensures Multiple(W64 - g, g)
  {
    assert Multiple(W64, g) && g % g == 0;
    MultipleSum(W64, g, g);
  }

  lemma TrimFacts(m: Mstate)
    requires Valid(m) && m.top != 0
    ensures IsWord(m.topsize) && m.topsize > 0 && m.topsize % 8 == 0 && m.top > 0 && m.top % 8 == 0
    ensures |m.segs| > 0 && m.segs[0].base <= m.top && m.segs[0].end == m.top + m.topsize + TOP_FOOT_SIZE
    ensures IsWord(m.granularity) && m.granularity > 0 && m.granularity % 8 == 0 && GranularityOk(m.granularity)
  {
    hide BinsInv, TotalSize;
    TopThere(WorldOf(m));
    SegsBasics(m.head, m.heap, m.segs, m.top, m.topsize);
    assert BaseOk(m.head, m.heap, m.segs[0]);
    assert ChunkOk(m.head, m.foot, m.heap, m.top);
  }

  /** The newest segment holds no record: its own is in the bookkeeping structure. */
  lemma HeadUnpinned(w: World, l: Ledger)
    requires ViewsExcept(w, {}) && w.top != 0 && BooksInv(l, w.segs, TotalSize(w.segs)) && |w.segs| > 0
    ensures forall j :: 0 <= j < |w.segs| ==> !(w.segs[0].base <= w.segs[j].rec < w.segs[0].end)
  {
    assert BaseOk(w.head, w.heap, w.segs[0]) && SegsApart(w.segs);
    forall j | 0 <= j < |w.segs|
      ensures !(w.segs[0].base <= w.segs[j].rec < w.segs[0].end)
    {
      assert RecordOk(l.segBase, l.segSize, l.segNext, w.segs, j);
      if j > 0 {
        assert TailOk(w.heap, w.segs[j]);
      }
    }
  }

  method PutTrim(m: Mstate, sp: int, released: int, ghost heap': Chunks, ghost segs': seq<Seg>)
    requires m.top % 8 == 0 && m.top > 0
    modifies m`segSize, m`footprint, m`head, m`top, m`topsize, m`trimCheck, m`heap, m`segs
    ensures m.segSize == old(m.segSize)[sp := old(At(m.segSize, sp)) - released] && m.footprint == old(m.footprint) - released
    ensures m.top == old(m.top) && m.topsize == old(m.topsize) - released && m.head == TopHeads(old(m.head), m.top, m.topsize)
    ensures m.heap == heap' && m.segs == segs'
    ensures m.trimCheck == m.trimThreshold
  {
    m.segSize := m.segSize[sp := At(m.segSize, sp) - released];
    m.footprint := m.footprint - released;
    InitTop(m, m.top, m.topsize - released);
    Redraw(m, heap', segs');
  }

  /** The same, told of the views. */
  method WriteTrim(m: Mstate, sp: int, released: int, ghost heap': Chunks, ghost segs': seq<Seg>)
    requires m.top % 8 == 0 && m.top > 0
    modifies m`segSize, m`footprint, m`head, m`top, m`topsize, m`trimCheck, m`heap, m`segs
    ensures m.segSize == old(m.segSize)[sp := old(At(m.segSize, sp)) - released] && m.footprint == old(m.footprint) - released
    ensures m.top == old(m.top) && m.topsize == old(m.topsize) - released && m.head == TopHeads(old(m.head), m.top, m.topsize)
    ensures m.heap == heap' && m.segs == segs'
    ensures WorldOf(m) == old(WorldOf(m)).(head := m.head, heap := heap', topsize := m.topsize, segs := segs')
    ensures BinsOf(m) == old(BinsOf(m)) && LedgerOf(m) == old(LedgerOf(m)).(segSize := m.segSize, footprint := m.footprint)
    ensures MemoryOf(m) == old(MemoryOf(m)).(head := m.head, segSize := m.segSize)
    ensures m.trimCheck == m.trimThreshold
  {
    hide TopHeads;
    PutTrim(m, sp, released, heap', segs');
  }

  lemma NegMultiple(x: int, g: int)
    requires g > 0 && Multiple(x, g)
    ensures Multiple(-x, g)
  {
    MultipleSum(0, x, g);
  }

  lemma TrimPoint(m: Mstate, released: int)
    requires Valid(m) && m.top != 0 && 0 < released && m.topsize - released >= TOP_FOOT_SIZE && Multiple(released, m.granularity)
    requires released % 8 == 0
    ensures |m.segs| > 0
    ensures EndMoves(m.segs, m.top, m.segs[0].end - released, m.segs[0].end) && Multiple(-released, m.granularity)
    ensures m.segs[0].rec == SEG_HEAD
  {
    hide BinsInv, ViewsExcept, BooksInv, TotalSize, RecordsOk, Multiple, Fresh, GranularityOk;
    TrimFacts(m);
    NegMultiple(released, m.granularity);
    BookFacts(m);
    RecordReads(m.segBase, m.segSize, m.segNext, m.segs, 0);
    TrimEnd(m);
  }

  lemma TrimEnd(m: Mstate)
    requires Valid(m) && m.top != 0
    ensures |m.segs| > 0 && m.segs[0].end % 8 == 0
  {
    hide BinsInv, BooksInv;
    TopThere(WorldOf(m));
    assert BaseOk(m.head, m.heap, m.segs[0]);
  }

  /** The tail of top, unmapped, leaves the newest segment. */
  method ShrinkTop(m: Mstate, sp: int, released: int)
    requires Valid(m) && m.top != 0 && 0 < released && m.topsize - released >= TOP_FOOT_SIZE && Multiple(released, m.granularity)
    requires released % 8 == 0 && sp == SEG_HEAD
    modifies m`segSize, m`footprint, m`head, m`top, m`topsize, m`trimCheck, m`heap, m`segs
    ensures Valid(m) && m.top == old(m.top) && m.topsize == old(m.topsize) - released && m.footprint == old(m.footprint) - released
    ensures SameBlocks(old(MemoryOf(m)), MemoryOf(m), old(m.heap), m.heap)
    ensures PlanOf(m) == WithTopCut(old(PlanOf(m)), m.topsize)
  {
    hide ViewsExcept, BinsInv, BooksInv, TotalSize, SameBlocks, TopHeads, TopAndTrailer, Patch, EndMoves, EndedAt,
         WorldOf, BinsOf, LedgerOf, MemoryOf, ValidExcept;
    ghost var w, v, a, l := WorldOf(m), BinsOf(m), MemoryOf(m), LedgerOf(m);
    TakenApart(m, {});
    TrimFacts(m);
    TrimPoint(m, released);
    TrimBooks(l, m.segs, released);
    ghost var e := m.segs[0].end - released;
    WriteTrim(m, sp, released, Patch(m.heap, m.top, m.segs[0].end, TopAndTrailer(m.top, m.topsize - released)), EndedAt(m.segs, e));
    EndMovedAll(w, v, a, MemoryOf(m), l.(footprint := l.footprint - released), LedgerOf(m), e, w.segs[0].end);
    PutTogether(m, WorldOf(m), v, LedgerOf(m), {});
  }

  lemma TrimBooks(l: Ledger, segs: seq<Seg>, released: int)
    requires BooksInv(l, segs, TotalSize(segs)) && released >= 0
    ensures BooksInv(l.(footprint := l.footprint - released), segs, TotalSize(segs) - released)
  {
    hide TotalSize, RecordsOk;
  }

  /** The part of sys_trim about top. */
  method TrimTop(m: Mstate, pad: int) returns (released: int)
    requires Valid(m) && m.top != 0 && TOP_FOOT_SIZE <= pad < m.topsize && IsWord(pad)
    modifies m`asked, m`segSize, m`footprint, m`head, m`top, m`topsize, m`trimCheck, m`heap, m`segs
    ensures Valid(m) && m.top == old(m.top) && m.topsize == old(m.topsize) - released && m.topsize > pad
    ensures released >= 0 && m.footprint == old(m.footprint) - released && (released == 0 ==> m.trimCheck == old(m.trimCheck))
    ensures SameBlocks(old(MemoryOf(m)), MemoryOf(m), old(m.heap), m.heap)
    ensures PlanOf(m) == TopTrimmed(old(PlanOf(m)), pad)
    ensures m.system(old(m.asked)) ==> m.topsize <= pad + m.granularity
    ensures released != 0 ==> m.trimCheck == m.trimThreshold
    ensures m.topsize == old(m.topsize) || m.topsize <= pad + m.granularity
  {
    hide ViewsExcept, BinsInv, BooksInv, TotalSize, SameBlocks, RecordsOk, TrimExtra, Valid;
    released := 0;
    TrimFacts(m);
    BookFacts(m);
    var unit := m.granularity;
    TrimKeeps(m.topsize, pad, unit);
    var extra := TrimExtra(m.topsize, pad, unit);
    EightDivides(extra, unit);
    var sp, k := SegmentHolding(m, m.top);
    assert k == 0;
    RecordReads(m.segBase, m.segSize, m.segNext, m.segs, 0);
    HeadUnpinnedOf(m);
    var pinned := HasSegmentLink(m, sp, 0);
    assert !pinned;
    if At(m.segSize, sp) >= extra && !pinned {
      var unmapped := AskOnly(m);
      if unmapped {
        released := extra;
      }
    }
    if released != 0 {
      ShrinkTop(m, sp, released);
    } else {
      SameStill(MemoryOf(m), m.heap);
    }
  }

  lemma HeadUnpinnedOf(m: Mstate)
    requires Valid(m) && m.top != 0 && |m.segs| > 0
    ensures forall j :: 0 <= j < |m.segs| ==> !(m.segs[0].base <= m.segs[j].rec < m.segs[0].end)
  {
    hide BinsInv, ViewsExcept, BooksInv, TotalSize;
    HeadUnpinned(WorldOf(m), LedgerOf(m));
  }

  lemma EightDivides(x: int, g: int)
    requires GranularityOk(g) && Multiple(x, g)
    ensures x % 8 == 0
  {
    assert x == x / g * g;
    var k := g / 8;
    assert x / g * g == 8 * (x / g * k);
  }

  /** `m->trim_check = MAX_SIZE_T`. */
  method DisableTrim(m: Mstate)
    requires Valid(m)
    modifies m`trimCheck
    ensures Valid(m) && MemoryOf(m) == old(MemoryOf(m))
    ensures m.trimCheck == MAX_SIZE_T
  {
    hide ViewsExcept, BinsInv, BooksInv, TotalSize;
    m.trimCheck := MAX_SIZE_T;
  }

  /** sys_trim: gives whole granules of top and unused segments back. More than `pad` bytes and a segment's
      end stay in top; no block is touched; true just when something was given back. */
  method SysTrim(m: Mstate, pad0: int) returns (r: bool)
    requires Valid(m) && IsWord(pad0)
    modifies m
    ensures Valid(m) && SameBlocks(old(MemoryOf(m)), MemoryOf(m), old(m.heap), m.heap)
    ensures m.top == old(m.top) && (m.topsize == old(m.topsize) || (m.topsize < old(m.topsize) && pad0 + TOP_FOOT_SIZE < m.topsize <= pad0 + TOP_FOOT_SIZE + m.granularity))
    ensures r <==> m.footprint < old(m.footprint)
    ensures !r ==> m.footprint == old(m.footprint) && m.topsize == old(m.topsize)
    ensures m.maxFootprint == old(m.maxFootprint)
    ensures PlanOf(m) == Trimmed(old(PlanOf(m)), pad0)
    ensures AllUnmap(m) && pad0 < MAX_REQUEST && old(m.top) != 0 ==> forall j :: !Vacant(PlanOf(m), j)
    ensures pad0 < MAX_REQUEST && old(m.top) != 0 && m.system(old(m.asked)) ==> m.topsize <= pad0 + TOP_FOOT_SIZE + m.granularity
    ensures m.trimCheck == if m.topsize < old(m.topsize) then m.trimThreshold
                           else if r || pad0 >= MAX_REQUEST || old(m.top) == 0 then old(m.trimCheck) else MAX_SIZE_T
  {
    hide ViewsExcept, BinsInv, BooksInv, TotalSize, SameBlocks, RecordsOk, Valid, MemoryOf, ValidExcept, Swept, WithTopCut, TopKept, TopTrimmed;
    var released := 0;
    ghost var a, c := MemoryOf(m), m.heap;
    SameStill(a, c);
    BookFacts(m);
    if pad0 < MAX_REQUEST && m.top != 0 {
      var pad := pad0 + TOP_FOOT_SIZE;
      if m.topsize > pad {
        released := TrimTop(m, pad);
      }
      ghost var b, c' := MemoryOf(m), m.heap;
      var more := ReleaseUnusedSegments(m);
      released := released + more;
      SameTrans(a, b, MemoryOf(m), c, c', m.heap);
      if released == 0 {
        ghost var s := PlanOf(m);
        DisableTrim(m);
        VacantSame(s, PlanOf(m));
      }
    }
    r := released != 0;
  }
}
