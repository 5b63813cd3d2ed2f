/** Getting memory from the system: sys_alloc and what it calls. */
module FromSystem {
  import opened Words
  import opened BinIndex
  import opened BinMaps
  import opened Rings
  import opened Trie
  import opened TriePaths
  import opened State
  import opened TreeBins
  import opened SmallBins
  import opened Index
  import opened Heap
  import opened Payload
  import opened Plans
  import opened Invariant
  import opened Taking
  import opened InOut
  import opened Tmalloc
  import opened Regions
  import opened Prepending
  import opened Adding
  import opened Segments

  /** What a failed mmap returns: MAX_SIZE_T as an address. */
  const CMFAIL: int := MAX_SIZE_T

  /** align_offset: the distance to the next aligned address. */
  function AlignOffset(a: int): (o: int)
    requires a >= 0
    ensures 0 <= o < 8 && (a + o) % 8 == 0
  {
    if a % 8 == 0 then 0 else 8 - a % 8
  }

  /** granularity_align: rounds up, always adding at least one, and wraps at the end of the word. */
  function GranularityAlign(g: int, s: int): (r: int)
    requires GranularityOk(g) && IsWord(s)
  {
    Add64(s, g) / g * g
  }

  /** The size sys_alloc asks the system for. */
  function SysRequest(g: int, nb: int): int
    requires GranularityOk(g) && IsWord(nb)
  {
    GranularityAlign(g, Add64(Add64(nb, TOP_FOOT_SIZE), 1))
  }

  lemma {:induction false} TimesIsMultiple(q: nat, g: int)
    requires g > 0
    ensures Multiple(q * g, g)
  {
    if q > 0 {
      TimesIsMultiple(q - 1, g);
      MultipleSum((q - 1) * g, g, g);
      assert (q - 1) * g + g == q * g;
    }
  }

  lemma RoundDown(x: int, g: int)
    requires x >= 0 && g > 0
    ensures x - g < x / g * g <= x && (g % 8 == 0 ==> x / g * g % 8 == 0) && Multiple(x / g * g, g)
  {
    var q := x / g;
    assert x == q * g + x % g;
    TimesIsMultiple(q, g);
    if g % 8 == 0 {
      var k := g / 8;
      assert q * g == 8 * (q * k);
    }
  }

  /** The test `rsize > nb` passes exactly when nothing has wrapped; then there is room for the chunk,
      the end of the segment and one byte more. */
  lemma SysRequestFits(g: int, nb: int)
    requires GranularityOk(g) && IsWord(nb)
    ensures SysRequest(g, nb) > nb <==> nb + TOP_FOOT_SIZE + 1 + g < W64
    ensures SysRequest(g, nb) > nb ==>
      && SysRequest(g, nb) - g <= nb + TOP_FOOT_SIZE + 1 < SysRequest(g, nb) && SysRequest(g, nb) % 8 == 0 && SysRequest(g, nb) >= g
      && Multiple(SysRequest(g, nb), g)
  {
    var req := Add64(Add64(nb, TOP_FOOT_SIZE), 1);
    RoundDown(Add64(req, g), g);
    if nb + TOP_FOOT_SIZE + 1 + g < W64 {
      AtLeastOne(Add64(req, g), g);
    }
  }

  lemma AtLeastOne(x: int, g: int)
    requires x >= g > 0
    ensures x / g * g >= g
  {
    assert x / g >= 1;
  }

  /** The heap is in order, but a region `[tb, te)` from the system, already counted, is in no segment. */
  ghost predicate Pending(m: Mstate, tb: int, te: int)
    reads m
  {
    && BinsOk(m) && ViewsExcept(WorldOf(m), {}) && BooksInv(LedgerOf(m), m.segs, TotalSize(m.segs) + te - tb)
    && Fresh(m.segs, tb, te) && te - tb >= MIN_SEGMENT_SIZE && Multiple(te - tb, m.granularity)
  }

  // ---- what a region does to the heap in outline

  /** The first region of all: nothing but top and its trailer. */
  ghost function WithFirst(s: Plan, tb: int, te: int): Plan {
    s.(heap := WithRegion(s.heap, tb, te), top := tb, topsize := te - tb - TOP_FOOT_SIZE, segs := [Seg(SEG_HEAD, tb, te)],
       trimCheck := s.rules.threshold, least := tb)
  }

  /** A region behind the newest segment: top and the segment extend over it. */
  ghost function WithAppended(s: Plan, tb: int, te: int): Plan
    requires |s.segs| > 0
  {
    s.(heap := Patch(s.heap, s.top, te, TopAndTrailer(s.top, s.topsize + te - tb)), topsize := s.topsize + te - tb,
       segs := EndedAt(s.segs, te), trimCheck := s.rules.threshold)
  }

  /** The rest of a prepended region, behind the block, goes with what it merges with: top, a free chunk, nothing. */
  ghost function RestUse(s: Plan, te: int): Use {
    if te == s.top then Top else Free
  }

  ghost function RestEnd(s: Plan, te: int): int {
    if te in s.heap && (te == s.top || s.heap[te].use == Free) then te + s.heap[te].size else te
  }

  /** A region right below segment `k`: a block of `nb` bytes at its start, and the rest. */
  ghost function WithPrepended(s: Plan, k: int, tb: int, te: int, nb: int): Plan
    requires 0 <= k < |s.segs|
  {
    var q, b := tb + nb, RestEnd(s, te);
    var s1 := s.(heap := Patch(s.heap, tb, b, Two(tb, Chunk(nb, Live), Chunk(b - q, RestUse(s, te)))), segs := BaseAt(s.segs, k, tb));
    if te == s.top then s1.(top := q, topsize := b - q) else WithDv(s1, te == s.dv, q, b - q)
  }

  /** A region elsewhere: top is in it now, and the old top gives way to a record, fenceposts and a free chunk. */
  ghost function WithAdded(s: Plan, tb: int, te: int): Plan
    requires |s.segs| > 0
  {
    s.(heap := WithClosing(WithRegion(s.heap, tb, te), s.top, s.topsize), top := tb, topsize := te - tb - TOP_FOOT_SIZE,
       segs := Pushed(s.segs, tb, te, RecordAt(s.top, s.topsize) + 16), trimCheck := s.rules.threshold)
  }

  /** init_top. */
  method InitTop(m: Mstate, p0: int, psize0: int)
    requires p0 % 8 == 0 && p0 >= 0
    modifies m`head, m`top, m`topsize, m`trimCheck
    ensures m.head == TopHeads(old(m.head), p0, psize0) && m.top == p0 && m.topsize == psize0
    ensures m.trimCheck == m.trimThreshold
  {
    var offset := AlignOffset(p0 + 16);
    var p := p0 + offset;
    var psize := psize0 - offset;
    m.top := p;
    m.topsize := psize;
    m.head := m.head[p := Head(psize, false, true)];
    m.head := m.head[p + psize := Head(TOP_FOOT_SIZE, false, false)];
    m.trimCheck := m.trimThreshold;
  }

  /** init_bins. */
  method InitBins(m: Mstate)
    modifies m`fd, m`bk
    ensures forall q :: q >= 0 ==> At(m.fd, q) == old(At(m.fd, q)) && At(m.bk, q) == old(At(m.bk, q))
  {
    var i := 0;
    while i < NSMALLBINS
      invariant 0 <= i <= NSMALLBINS
      invariant forall q :: q >= 0 ==> At(m.fd, q) == old(At(m.fd, q)) && At(m.bk, q) == old(At(m.bk, q))
    {
      var bin := SmallBinAt(i);
      m.fd := m.fd[bin := bin];
      m.bk := m.bk[bin := bin];
      i := i + 1;
    }
  }

  /** While nothing is kept, neither the links nor the least address matter to the bins. */
  lemma EmptyBins(h: Heads, v: BinView, h': Heads, v': BinView)
    requires BinsInv(h, v) && forall s, x :: !Kept(v.small, v.nodes, s, x)
    requires v' == v.(fd := v'.fd, bk := v'.bk, least := v'.least)
    ensures BinsInv(h', v')
  {
    EmptySmall(h, v, h', v');
    EmptyTrie(h, v, h', v');
  }

  lemma EmptySmall(h: Heads, v: BinView, h': Heads, v': BinView)
    requires BinsInv(h, v) && forall s, x :: !Kept(v.small, v.nodes, s, x)
    requires v' == v.(fd := v'.fd, bk := v'.bk, least := v'.least)
    ensures SmallInv(h', v'.fd, v'.bk, v'.smallmap, v'.small, v'.least)
  {
    forall i | 0 <= i < NSMALLBINS
      ensures BinInv(h', v'.fd, v'.bk, v'.smallmap, v'.small, v'.least, i)
    {
      assert BinInv(h, v.fd, v.bk, v.smallmap, v.small, v.least, i);
      FirstIn(v.small[i]);
      assert v.small[i] != [] ==> Kept(v.small, v.nodes, 8 * i, FirstOf(v.small[i]));
    }
  }

  ghost function FirstOf(s: seq<int>): int {
    if s == [] then 0 else s[0]
  }

  lemma FirstIn(s: seq<int>)
    ensures s != [] ==> FirstOf(s) in s
  {}

  lemma EmptyTrie(h: Heads, v: BinView, h': Heads, v': BinView)
    requires BinsInv(h, v) && forall s, x :: !Kept(v.small, v.nodes, s, x)
    requires v' == v.(fd := v'.fd, bk := v'.bk, least := v'.least)
    ensures TreesInv(v'.TreeWith(h'), v'.fd, v'.bk, v'.index, v'.nodes, v'.least)
  {
    var t, t' := v.TreeWith(h), v'.TreeWith(h');
    forall s | s in v.nodes
      ensures Kept(v.small, v.nodes, s, v.nodes[s].lead)
    {
      assert RingOk(t, v.fd, v.bk, v.index, v.nodes, s) && NodeOk(t, v.nodes, s);
    }
    assert v.nodes == map[];
    forall i | 0 <= i < NTREEBINS
      ensures BinOk(t', v'.nodes, i)
    {
      assert BinOk(t, v.nodes, i);
    }
  }

  /** Lowering the least address. */
  lemma LowerLeast(h: Heads, v: BinView, least: int)
    requires BinsInv(h, v) && least <= v.least
    ensures BinsInv(h, v.(least := least))
  {
    forall i | 0 <= i < NSMALLBINS
      ensures BinInv(h, v.fd, v.bk, v.smallmap, v.small, least, i)
    {
      assert BinInv(h, v.fd, v.bk, v.smallmap, v.small, v.least, i);
    }
    hide Ring, Shape;
  }

  /** What a region in use means to the blocks: nothing. */
  ghost predicate SameBlocks(a: Memory, b: Memory, c: Chunks, c': Chunks) {
    Lives(c') == Lives(c) && Quiet(a, b, Lives(c))
  }

  // ---- the first region

  method WriteBase(m: Mstate, tb: int, ts: int)
    modifies m`segBase, m`segSize, m`leastAddr
    ensures m.segBase == old(m.segBase)[SEG_HEAD := tb] && m.segSize == old(m.segSize)[SEG_HEAD := ts] && m.leastAddr == tb
  {
    m.leastAddr := tb;
    m.segBase := m.segBase[SEG_HEAD := tb];
    m.segSize := m.segSize[SEG_HEAD := ts];
  }

  ghost method Redraw(m: Mstate, heap: Chunks, segs: seq<Seg>)
    modifies m`heap, m`segs
    ensures m.heap == heap && m.segs == segs
  {
    m.heap, m.segs := heap, segs;
  }

  lemma NoBlocks(a: Memory, b: Memory)
    ensures Quiet(a, b, Lives(map[]))
  {
    assert forall w :: !InPayload(Lives(map[]), w);
    hide InPayload;
  }

  /** Nothing is kept while there is no memory. */
  lemma NothingKept(w: World)
    requires ViewsExcept(w, {}) && w.top == 0
    ensures w.segs == [] && w.heap == map[] && forall s, x :: !Kept(w.small, w.nodes, s, x)
  {
    hide Kept, Phys, TopInv, SegsInv;
    forall s, x
      ensures !Kept(w.small, w.nodes, s, x)
    {
      assert !FreeAt(w.heap, s, x);
    }
  }

  lemma FirstViews(w: World, v: BinView, v': BinView, tb: int, te: int)
    requires ViewsExcept(w, {}) && BinsInv(w.head, v) && v.small == w.small && v.nodes == w.nodes && w.top == 0
    requires v' == v.(fd := v'.fd, bk := v'.bk, least := v'.least)
    requires Fresh(w.segs, tb, te) && te - tb >= MIN_SEGMENT_SIZE
    ensures var s := te - tb - TOP_FOOT_SIZE;
      var h', heap' := TopHeads(w.head, tb, s), Patch(w.heap, tb, te, TopAndTrailer(tb, s));
      && ViewsExcept(w.(head := h', heap := heap', top := tb, topsize := s, segs := [Seg(SEG_HEAD, tb, te)]), {})
      && BinsInv(h', v') && Lives(heap') == Lives(w.heap)
  {
    hide ViewsExcept, BinsInv, Kept, Quiet, Fresh, TopHeads, TopAndTrailer, Patch, Lives;
    NothingKept(w);
    EmptyBins(w.head, v, w.head, v');
    var a := Memory(w.head, w.foot, map[], map[], map[], map[], map[], map[], map[], map[], map[]);
    FirstRegion(w, v', a, tb, te);
  }

  lemma FirstBooks(l: Ledger, l': Ledger, tb: int, te: int)
    requires BooksInv(l, [], te - tb) && Multiple(te - tb, l.granularity)
    requires l' == l.(least := tb, segBase := l.segBase[SEG_HEAD := tb], segSize := l.segSize[SEG_HEAD := te - tb])
    ensures BooksInv(l', [Seg(SEG_HEAD, tb, te)], TotalSize([Seg(SEG_HEAD, tb, te)]))
  {
    var segs := [Seg(SEG_HEAD, tb, te)];
    assert TotalSize(segs) == te - tb + TotalSize(segs[1..]);
    assert RecordOk(l'.segBase, l'.segSize, l'.segNext, segs, 0);
  }

  lemma FirstAll(w: World, v: BinView, v': BinView, a: Memory, a': Memory, l: Ledger, l': Ledger, tb: int, te: int)
    requires ViewsExcept(w, {}) && BinsInv(w.head, v) && v.small == w.small && v.nodes == w.nodes && w.top == 0
    requires v' == v.(fd := v'.fd, bk := v'.bk, least := v'.least)
    requires Fresh(w.segs, tb, te) && te - tb >= MIN_SEGMENT_SIZE && BooksInv(l, w.segs, TotalSize(w.segs) + te - tb)
    requires Multiple(te - tb, l.granularity)
    requires l' == l.(least := tb, segBase := l.segBase[SEG_HEAD := tb], segSize := l.segSize[SEG_HEAD := te - tb])
    ensures var s, segs' := te - tb - TOP_FOOT_SIZE, [Seg(SEG_HEAD, tb, te)];
      var h', heap' := TopHeads(w.head, tb, s), Patch(w.heap, tb, te, TopAndTrailer(tb, s));
      && ViewsExcept(w.(head := h', heap := heap', top := tb, topsize := s, segs := segs'), {})
      && BinsInv(h', v') && SameBlocks(a, a', w.heap, heap') && BooksInv(l', segs', TotalSize(segs'))
  {
    hide ViewsExcept, BinsInv, Kept, Quiet, Fresh, TopHeads, TopAndTrailer, Patch, Lives, BooksInv;
    NothingKept(w);
    FirstViews(w, v, v', tb, te);
    FirstBooks(l, l', tb, te);
    NoBlocks(a, a');
  }

  method FirstWrites(m: Mstate, tb: int, ts: int, ghost heap': Chunks)
    requires tb % 8 == 0 && tb > 0
    modifies m`segBase, m`segSize, m`leastAddr, m`fd, m`bk, m`head, m`top, m`topsize, m`trimCheck, m`heap, m`segs
    ensures m.head == TopHeads(old(m.head), tb, ts - TOP_FOOT_SIZE) && m.heap == heap' && m.segs == [Seg(SEG_HEAD, tb, tb + ts)]
    ensures m.top == tb && m.topsize == ts - TOP_FOOT_SIZE
    ensures WorldOf(m) == old(WorldOf(m)).(head := m.head, heap := heap', top := tb, topsize := m.topsize, segs := m.segs)
    ensures BinsOf(m) == old(BinsOf(m)).(fd := BinsOf(m).fd, bk := BinsOf(m).bk, least := BinsOf(m).least)
    ensures LedgerOf(m) == old(LedgerOf(m)).(least := tb, segBase := old(m.segBase)[SEG_HEAD := tb],
                                             segSize := old(m.segSize)[SEG_HEAD := ts])
    ensures m.trimCheck == m.trimThreshold && m.leastAddr == tb
  {
    hide TopHeads, At;
    WriteBase(m, tb, ts);
    InitBins(m);
    InitTop(m, tb, ts - TOP_FOOT_SIZE);
    Redraw(m, heap', [Seg(SEG_HEAD, tb, tb + ts)]);
  }

  /** The branch of sys_alloc for the first region of all. */
  method FirstTime(m: Mstate, tb: int, ts: int)
    requires Pending(m, tb, tb + ts) && m.top == 0
    modifies m`segBase, m`segSize, m`leastAddr, m`fd, m`bk, m`head, m`top, m`topsize, m`trimCheck, m`heap, m`segs
    ensures Valid(m) && m.top == tb && m.topsize == ts - TOP_FOOT_SIZE && m.top != 0
    ensures SameBlocks(old(MemoryOf(m)), MemoryOf(m), old(m.heap), m.heap)
    ensures m.segs == [Seg(SEG_HEAD, tb, tb + ts)]
    ensures PlanOf(m) == WithFirst(old(PlanOf(m)), tb, tb + ts)
  {
    hide ViewsExcept, BinsInv, SameBlocks, TopHeads, TopAndTrailer, Patch, BooksInv, TotalSize;
    assert tb % 8 == 0 && tb > 0;
    ghost var w, v, a, l := WorldOf(m), BinsOf(m), MemoryOf(m), LedgerOf(m);
    hide Fresh, BinsOf, LedgerOf, MemoryOf;
    FirstWrites(m, tb, ts, Patch(m.heap, tb, tb + ts, TopAndTrailer(tb, ts - TOP_FOOT_SIZE)));
    FirstAll(w, v, BinsOf(m), a, MemoryOf(m), l, LedgerOf(m), tb, tb + ts);
  }

  // ---- a region behind the newest segment

  lemma PendingRecords(w: World, l: Ledger, total: int)
    requires ViewsExcept(w, {}) && w.top != 0 && BooksInv(l, w.segs, total)
    ensures |w.segs| > 0 && RecsApart(w.segs) && RecordOk(l.segBase, l.segSize, l.segNext, w.segs, 0)
  {
    SegsBasics(w.head, w.heap, w.segs, w.top, w.topsize);
    assert RecordOk(l.segBase, l.segSize, l.segNext, w.segs, 0);
    hide ViewsExcept, SegsInv, RecordsOk;
    RecordsApart(w, {}, l.segBase, l.segSize, l.segNext);
  }

  lemma AppendFits(w: World, tb: int, te: int)
    requires ViewsExcept(w, {}) && w.top != 0 && Fresh(w.segs, tb, te) && te - tb >= MIN_SEGMENT_SIZE
    requires |w.segs| > 0 && w.segs[0].end == tb
    ensures EndMoves(w.segs, w.top, te, te) && w.top + w.topsize + TOP_FOOT_SIZE == tb && w.top % 8 == 0 && w.top > 0
    ensures w.topsize > 0
  {
    assert ChunkOk(w.head, w.foot, w.heap, w.top);
  }

  /** A segment with a new extent in the books. */
  lemma BooksUpdated(l: Ledger, l': Ledger, segs: seq<Seg>, i: int, g: Seg)
    requires 0 <= i < |segs| && RecsApart(segs) && g.rec == segs[i].rec
    requires BooksInv(l, segs, TotalSize(segs) + (g.end - g.base) - (segs[i].end - segs[i].base))
    requires Multiple((g.end - g.base) - (segs[i].end - segs[i].base), l.granularity)
    requires l' == l.(least := l'.least, segBase := l'.segBase, segSize := l'.segSize) && l'.least <= l.least && l'.least <= g.base
    requires forall x :: x != g.rec ==> At(l'.segBase, x) == At(l.segBase, x) && At(l'.segSize, x) == At(l.segSize, x)
    requires At(l'.segBase, g.rec) == g.base && At(l'.segSize, g.rec) == g.end - g.base
    ensures BooksInv(l', segs[i := g], TotalSize(segs[i := g]))
  {
    TotalUpdate(segs, i, g);
    assert Multiple(segs[i].end - segs[i].base, l.granularity);
    MultipleSum(segs[i].end - segs[i].base, (g.end - g.base) - (segs[i].end - segs[i].base), l.granularity);
    RecordsUpdate(l.segBase, l.segSize, l.segNext, l'.segBase, l'.segSize, segs, i, g);
    hide RecordsOk, RecsApart, TotalSize;
  }

  /** Tags first, then the head record. */
  lemma AppendQuiet(a: Memory, b: Memory, c: Chunks, c': Chunks)
    requires Quiet(a, a.(head := b.head), Lives(c)) && Lives(c') == Lives(c) && Phys(b.head, b.foot, c')
    requires b == a.(head := b.head, segSize := b.segSize)
    requires forall r :: r != SEG_HEAD ==> At(b.segSize, r) == At(a.segSize, r)
    ensures SameBlocks(a, b, c, c')
  {
    hide Quiet, Lives, Phys;
    var a1 := a.(head := b.head);
    assert Within(Lives(c), Lives(c'));
    assert RecordWrites(a1, b, SEG_HEAD);
    RecordQuiet(a1, b, c', Lives(c), SEG_HEAD);
    QuietTrans(a, a1, b, Lives(c));
  }

  lemma PhysOf(w: World, out: set<int>)
    requires ViewsExcept(w, out)
    ensures Phys(w.head, w.foot, w.heap)
  {}

  /** The newest segment with a new end, in all views and in the books; also used for trimming. */
  lemma EndMovedAll(w: World, v: BinView, a: Memory, a': Memory, l: Ledger, l': Ledger, e: int, b: int)
    requires ViewsExcept(w, {}) && BinsInv(w.head, v) && v.small == w.small && v.nodes == w.nodes && w.top != 0
    requires a.head == w.head && a.foot == w.foot && EndMoves(w.segs, w.top, e, b) && a.segSize == l.segSize
    requires BooksInv(l, w.segs, TotalSize(w.segs) + e - w.segs[0].end) && Multiple(e - w.segs[0].end, l.granularity)
    requires l' == l.(segSize := l.segSize[SEG_HEAD := At(l.segSize, SEG_HEAD) + e - w.segs[0].end])
    requires a' == a.(head := TopHeads(w.head, w.top, e - TOP_FOOT_SIZE - w.top), segSize := l'.segSize)
    ensures var s, segs' := e - TOP_FOOT_SIZE - w.top, EndedAt(w.segs, e);
      var h', heap' := TopHeads(w.head, w.top, s), Patch(w.heap, w.top, b, TopAndTrailer(w.top, s));
      && ViewsExcept(w.(head := h', heap := heap', topsize := s, segs := segs'), {})
      && BinsInv(h', v) && SameBlocks(a, a', w.heap, heap') && BooksInv(l', segs', TotalSize(segs'))
  {
    hide ViewsExcept, BinsInv, Quiet, Fresh, TopHeads, TopAndTrailer, Patch, Lives, BooksInv, RecsApart, TotalSize;
    var s := e - TOP_FOOT_SIZE - w.top;
    assert |w.segs| > 0;
    hide EndMoves;
    PendingRecords(w, l, TotalSize(w.segs) + e - w.segs[0].end);
    EndMoved(w, v, a, e, b);
    PhysOf(w.(head := TopHeads(w.head, w.top, s), heap := Patch(w.heap, w.top, b, TopAndTrailer(w.top, s)), topsize := s,
              segs := EndedAt(w.segs, e)), {});
    AppendQuiet(a, a', w.heap, Patch(w.heap, w.top, b, TopAndTrailer(w.top, s)));
    HeadBelow(l, w.segs, TotalSize(w.segs) + e - w.segs[0].end);
    BooksUpdated(l, l', w.segs, 0, w.segs[0].(end := e));
  }

  lemma HeadBelow(l: Ledger, segs: seq<Seg>, total: int)
    requires BooksInv(l, segs, total) && |segs| > 0
    ensures l.least <= segs[0].base && segs[0].rec == SEG_HEAD
    ensures At(l.segBase, SEG_HEAD) == segs[0].base && At(l.segSize, SEG_HEAD) == segs[0].end - segs[0].base
  {
    assert RecordOk(l.segBase, l.segSize, l.segNext, segs, 0);
  }

  method AppendWrites(m: Mstate, sp: int, ts: int, ghost heap': Chunks, ghost segs': seq<Seg>)
    requires m.top % 8 == 0 && m.top > 0
    modifies m`segSize, m`head, m`topsize, m`top, m`trimCheck, m`heap, m`segs
    ensures m.segSize == old(m.segSize)[sp := old(At(m.segSize, sp)) + ts] && m.top == old(m.top)
    ensures m.topsize == old(m.topsize) + ts && m.head == TopHeads(old(m.head), m.top, m.topsize)
    ensures m.heap == heap' && m.segs == segs'
    ensures WorldOf(m) == old(WorldOf(m)).(head := m.head, heap := heap', topsize := m.topsize, segs := segs')
    ensures BinsOf(m) == old(BinsOf(m)) && LedgerOf(m) == old(LedgerOf(m)).(segSize := m.segSize)
    ensures MemoryOf(m) == old(MemoryOf(m)).(head := m.head, segSize := m.segSize)
    ensures m.trimCheck == m.trimThreshold
  {
    hide TopHeads;
    m.segSize := m.segSize[sp := At(m.segSize, sp) + ts];
    InitTop(m, m.top, m.topsize + ts);
    Redraw(m, heap', segs');
  }

  /** What a pending region says, field by field. */
  lemma PendingParts(m: Mstate, tb: int, te: int)
    requires Pending(m, tb, te)
    ensures ViewsExcept(WorldOf(m), {}) && BinsInv(m.head, BinsOf(m)) && BooksInv(LedgerOf(m), m.segs, TotalSize(m.segs) + te - tb)
    ensures Fresh(m.segs, tb, te) && te - tb >= MIN_SEGMENT_SIZE && Multiple(te - tb, LedgerOf(m).granularity)
    ensures WorldOf(m) == World(m.head, m.foot, m.heap, m.dv, m.dvsize, m.small, m.nodes, m.segs, m.top, m.topsize)
    ensures BinsOf(m).small == m.small && BinsOf(m).nodes == m.nodes
    ensures MemoryOf(m).head == m.head && MemoryOf(m).foot == m.foot && LedgerOf(m).least == m.leastAddr
    ensures MemoryOf(m).segBase == m.segBase && MemoryOf(m).segSize == m.segSize && MemoryOf(m).segNext == m.segNext
    ensures LedgerOf(m).segBase == m.segBase && LedgerOf(m).segSize == m.segSize && LedgerOf(m).segNext == m.segNext
  {
    hide BinsInv, ViewsExcept, BooksInv, TotalSize, Fresh, Multiple;
  }

  /** The branch of sys_alloc for a region that extends the segment of top. */
  method AppendRegion(m: Mstate, sp: int, tb: int, ts: int)
    requires Pending(m, tb, tb + ts) && m.top != 0 && |m.segs| > 0 && m.segs[0].end == tb && sp == SEG_HEAD
    modifies m`segSize, m`head, m`topsize, m`top, m`trimCheck, m`heap, m`segs
    ensures Valid(m) && m.top == old(m.top) && m.topsize == old(m.topsize) + ts && old(m.topsize) > 0
    ensures SameBlocks(old(MemoryOf(m)), MemoryOf(m), old(m.heap), m.heap)
    ensures m.segs == EndedAt(old(m.segs), tb + ts)
    ensures |old(m.segs)| > 0 && PlanOf(m) == WithAppended(old(PlanOf(m)), tb, tb + ts)
  {
    hide ViewsExcept, BinsInv, SameBlocks, Fresh, TopHeads, TopAndTrailer, Patch, BooksInv, EndMoves, EndedAt, TotalSize,
         WorldOf, BinsOf, LedgerOf, MemoryOf, Pending, ValidExcept;
    ghost var w, v, a, l := WorldOf(m), BinsOf(m), MemoryOf(m), LedgerOf(m);
    PendingParts(m, tb, tb + ts);
    AppendFits(w, tb, tb + ts);
    AppendWrites(m, sp, ts, Patch(m.heap, m.top, tb + ts, TopAndTrailer(m.top, m.topsize + ts)), EndedAt(m.segs, tb + ts));
    assert m.topsize == tb + ts - TOP_FOOT_SIZE - m.top;
    EndMovedAll(w, v, a, MemoryOf(m), l, LedgerOf(m), tb + ts, tb + ts);
    PutTogether(m, WorldOf(m), v, LedgerOf(m), {});
  }

  // ---- a region right below a segment

  /** The books already know that segment `i` begins at `tb`; the chunks do not. */
  ghost predicate Prependable(m: Mstate, i: int, tb: int, te: int)
    reads m
  {
    && BinsOk(m) && ViewsExcept(WorldOf(m), {}) && m.top != 0
    && PrependAt(WorldOf(m), i, tb, te, te)
    && BooksInv(LedgerOf(m), BaseAt(m.segs, i, tb), TotalSize(BaseAt(m.segs, i, tb)))
  }

  /** Nothing but the chunk at `te` is in the stretch, and it is out of the index if it was in. */
  lemma PrependOut(w: World, out: set<int>, i: int, tb: int, te: int, b: int)
    requires ViewsExcept(w, out) && w.top != 0 && PrependAt(w, i, tb, te, b)
    requires out == (if b != te && w.heap[te].use == Free then {te} else {})
    ensures OutInside(w.heap, out, tb, b)
  {
    hide ViewsExcept;
    PrependStretch(w, out, i, tb, te, b);
  }

  lemma TopThere(w: World)
    requires ViewsExcept(w, {}) && w.top != 0
    ensures w.top in w.heap && w.heap[w.top] == Chunk(w.topsize, Top) && w.topsize > 0 && w.topsize % 8 == 0
  {
    assert ChunkOk(w.head, w.foot, w.heap, w.top);
  }

  /** Top is pushed down over the rest of the region. */
  lemma PrependedTop(w: World, v: BinView, a: Memory, i: int, tb: int, te: int, nb: int)
    requires ViewsExcept(w, {}) && BinsInv(w.head, v) && v.small == w.small && v.nodes == w.nodes && w.top != 0
    requires a.head == w.head && a.foot == w.foot
    requires PrependAt(w, i, tb, te, te) && te == w.top
    requires nb >= MIN_CHUNK_SIZE && nb % 8 == 0 && te - tb - nb > 0
    ensures var q, s := tb + nb, te - tb - nb + w.topsize;
      var h' := w.head[tb := Head(nb, true, true)][q := Head(s, false, true)];
      var heap' := Patch(w.heap, tb, te + w.topsize, Two(tb, Chunk(nb, Live), Chunk(s, Top)));
      && ViewsExcept(w.(head := h', heap := heap', segs := BaseAt(w.segs, i, tb), top := q, topsize := s), {})
      && BinsInv(h', v) && Given(w.heap, heap', tb, nb) && Quiet(a, a.(head := h'), Lives(w.heap))
  {
    hide ViewsExcept, BinsInv, Patch, Two, Given, Quiet, Lives;
    var q, s := tb + nb, te - tb - nb + w.topsize;
    var b, l := te + w.topsize, Chunk(s, Top);
    var h' := w.head[tb := Head(nb, true, true)][q := Head(s, false, true)];
    TopThere(w);
    PrependSize(w, {}, i, tb, te, te);
    assert PrependAt(w, i, tb, te, b) && PrependMerge(w, te, b, l);
    hide PrependAt;
    PrependRight(w, {}, i, tb, te, b, l);
    PrependOut(w, {}, i, tb, te, b);
    assert PrependWords(w.head, w.foot, h', w.foot, tb, nb, l, b);
    hide PrependMerge, PrependWords, OutInside, BaseAt;
    Prepended(w, v, a, {}, i, tb, te, b, nb, l, h', w.foot);
    assert a.(head := h') == a.(head := h', foot := w.foot);
  }

  /** The rest of the region merges with a free chunk that has left the index, or stays alone. */
  lemma PrependedFree(w: World, v: BinView, a: Memory, out: set<int>, i: int, tb: int, te: int, b: int, nb: int, h': Heads)
    requires ViewsExcept(w, out) && BinsInv(w.head, v) && v.small == w.small && v.nodes == w.nodes && w.top != 0
    requires a.head == w.head && a.foot == w.foot
    requires PrependAt(w, i, tb, te, b) && out == (if b == te then {} else {te})
    requires w.heap[te].use == (if b == te then Live else Free)
    requires nb >= MIN_CHUNK_SIZE && nb % 8 == 0 && te - tb - nb >= MIN_CHUNK_SIZE
    requires PrependWords(w.head, w.foot, h', w.foot[b := b - tb - nb], tb, nb, Chunk(b - tb - nb, Free), b)
    ensures var q, s := tb + nb, b - tb - nb;
      var foot' := w.foot[b := s];
      var heap' := Patch(w.heap, tb, b, Two(tb, Chunk(nb, Live), Chunk(s, Free)));
      && ViewsExcept(w.(head := h', foot := foot', heap := heap', segs := BaseAt(w.segs, i, tb)), {q})
      && FreeAt(heap', s, q) && BinsInv(h', v) && Given(w.heap, heap', tb, nb)
      && Quiet(a, a.(head := h', foot := foot'), Lives(w.heap))
  {
    hide ViewsExcept, BinsInv, Patch, Two, Given, Quiet, Lives, PrependWords;
    var q, s := tb + nb, b - tb - nb;
    var l := Chunk(s, Free);
    PrependOut(w, out, i, tb, te, b);
    PrependRight(w, out, i, tb, te, b, l);
    PrependSize(w, out, i, tb, te, b);
    hide OutInside, BaseAt;
    Prepended(w, v, a, out, i, tb, te, b, nb, l, h', w.foot[b := s]);
  }

  lemma PrependSize(w: World, out: set<int>, i: int, tb: int, te: int, b: int)
    requires ViewsExcept(w, out) && w.top != 0 && PrependAt(w, i, tb, te, b)
    ensures b % 8 == 0 && tb % 8 == 0 && 0 < tb < te <= b && te % 8 == 0
  {
    PrependStretch(w, out, i, tb, te, b);
    assert ChunkOk(w.head, w.foot, w.heap, b);
  }

  method WritePrependTop(m: Mstate, p: int, nb: int, qsize: int, ghost heap': Chunks, ghost segs': seq<Seg>)
    modifies m`head, m`top, m`topsize, m`heap, m`segs
    ensures m.topsize == old(m.topsize) + qsize && m.top == p + nb
    ensures m.head == old(m.head)[p := Head(nb, true, true)][p + nb := Head(m.topsize, false, true)]
    ensures m.heap == heap' && m.segs == segs'
  {
    m.head := m.head[p := Head(nb, true, true)];
    m.topsize := m.topsize + qsize;
    var tsize := m.topsize;
    m.top := p + nb;
    m.head := m.head[p + nb := Head(tsize, false, true)];
    Redraw(m, heap', segs');
  }

  /** What becomes of the rest, case by case. */
  lemma PrependedPlan(s: Plan, k: int, tb: int, te: int, nb: int)
    requires 0 <= k < |s.segs| && te in s.heap
    ensures te == s.top && s.heap[te].size == s.topsize ==>
      WithPrepended(s, k, tb, te, nb)
      == s.(heap := Patch(s.heap, tb, te + s.topsize, Two(tb, Chunk(nb, Live), Chunk(te - tb - nb + s.topsize, Top))),
            segs := BaseAt(s.segs, k, tb), top := tb + nb, topsize := s.topsize + te - tb - nb)
    ensures te != s.top && te == s.dv && s.heap[te] == Chunk(s.dvsize, Free) ==>
      WithPrepended(s, k, tb, te, nb)
      == s.(heap := Patch(s.heap, tb, te + s.dvsize, Two(tb, Chunk(nb, Live), Chunk(te - tb - nb + s.dvsize, Free))),
            segs := BaseAt(s.segs, k, tb), dv := tb + nb, dvsize := s.dvsize + te - tb - nb)
    ensures te != s.top && te != s.dv ==>
      var b := te + (if s.heap[te].use == Free then s.heap[te].size else 0);
      WithPrepended(s, k, tb, te, nb)
      == s.(heap := Patch(s.heap, tb, b, Two(tb, Chunk(nb, Live), Chunk(b - tb - nb, Free))), segs := BaseAt(s.segs, k, tb))
  {
    hide Patch, Two;
    if te != s.top && te == s.dv && s.heap[te] == Chunk(s.dvsize, Free) {
      assert RestEnd(s, te) - (tb + nb) == te - tb - nb + s.dvsize;
    }
  }

  /** The chunk behind the region. */
  lemma BehindRegion(m: Mstate, i: int, tb: int, te: int)
    requires Prependable(m, i, tb, te)
    ensures 0 <= i < |m.segs| && te in m.heap
    ensures te == m.top ==> m.heap[te].size == m.topsize
    ensures te == m.dv && te != m.top ==> m.heap[te] == Chunk(m.dvsize, Free)
  {
    hide BinsInv, BooksInv, TotalSize, BaseAt, SegsInv;
    PrependStart(m, i, tb, te);
    assert te > 0;
  }

  /** prepend_alloc when top is the first chunk of the old segment. */
  method PrependToTop(m: Mstate, tb: int, te: int, nb: int, ghost i: int)
    requires Prependable(m, i, tb, te) && te == m.top && nb >= MIN_CHUNK_SIZE && nb % 8 == 0 && te - tb - nb >= MIN_CHUNK_SIZE
    modifies m`head, m`top, m`topsize, m`heap, m`segs
    ensures Valid(m) && m.top != 0 && Given(old(m.heap), m.heap, tb, nb) && m.segs == BaseAt(old(m.segs), i, tb)
    ensures Quiet(old(MemoryOf(m)), MemoryOf(m), Lives(old(m.heap)))
    ensures HeadAt(m.head, tb).pinuse
    ensures m.top == tb + nb && m.topsize == old(m.topsize) + te - tb - nb
    ensures 0 <= i < |old(m.segs)| && PlanOf(m) == WithPrepended(old(PlanOf(m)), i, tb, te, nb)
  {
    hide ViewsExcept, BinsInv, Given, Quiet, Lives, Patch, BooksInv, TotalSize, BaseAt, Two, WithPrepended;
    BehindRegion(m, i, tb, te);
    PrependedPlan(PlanOf(m), i, tb, te, nb);
    hide PrependAt;
    ghost var w, v, a := WorldOf(m), BinsOf(m), MemoryOf(m);
    PrependedTop(w, v, a, i, tb, te, nb);
    PrependSize(w, {}, i, tb, te, te);
    WritePrependTop(m, tb, nb, te - tb - nb,
                    Patch(m.heap, tb, te + m.topsize, Two(tb, Chunk(nb, Live), Chunk(te - tb - nb + m.topsize, Top))),
                    BaseAt(m.segs, i, tb));
  }

  method WritePrependDv(m: Mstate, p: int, nb: int, qsize: int, ghost heap': Chunks, ghost segs': seq<Seg>)
    modifies m`head, m`foot, m`dv, m`dvsize, m`heap, m`segs
    ensures m.dvsize == old(m.dvsize) + qsize && m.dv == p + nb
    ensures m.head == old(m.head)[p := Head(nb, true, true)][p + nb := Head(m.dvsize, false, true)]
    ensures m.foot == old(m.foot)[p + nb + m.dvsize := m.dvsize]
    ensures m.heap == heap' && m.segs == segs'
  {
    m.head := m.head[p := Head(nb, true, true)];
    m.dvsize := m.dvsize + qsize;
    var dsize := m.dvsize;
    m.dv := p + nb;
    m.head := m.head[p + nb := Head(dsize, false, true)];
    m.foot := m.foot[p + nb + dsize := dsize];
    Redraw(m, heap', segs');
  }

  /** The victim is pushed down over the rest of the region. */
  lemma PrependedDv(w: World, v: BinView, a: Memory, i: int, tb: int, te: int, nb: int)
    requires ViewsExcept(w, {}) && BinsInv(w.head, v) && v.small == w.small && v.nodes == w.nodes && w.top != 0
    requires a.head == w.head && a.foot == w.foot
    requires PrependAt(w, i, tb, te, te) && te == w.dv
    requires nb >= MIN_CHUNK_SIZE && nb % 8 == 0 && te - tb - nb >= MIN_CHUNK_SIZE
    ensures var q, s := tb + nb, te - tb - nb + w.dvsize;
      var h' := w.head[tb := Head(nb, true, true)][q := Head(s, false, true)];
      var foot' := w.foot[q + s := s];
      var heap' := Patch(w.heap, tb, q + s, Two(tb, Chunk(nb, Live), Chunk(s, Free)));
      && ViewsExcept(w.(head := h', foot := foot', heap := heap', segs := BaseAt(w.segs, i, tb), dv := q, dvsize := s), {})
      && BinsInv(h', v) && Given(w.heap, heap', tb, nb) && Quiet(a, a.(head := h', foot := foot'), Lives(w.heap))
  {
    hide BinsInv, Patch, Two, Given, Quiet, Lives, BaseAt;
    var q, s, b := tb + nb, te - tb - nb + w.dvsize, te + w.dvsize;
    var h' := w.head[tb := Head(nb, true, true)][q := Head(s, false, true)];
    PrependDvOut(w, i, tb, te);
    hide ViewsExcept;
    DvOut(w, {});
    var w0 := w.(dv := 0, dvsize := 0);
    assert {} + {te} == {te} && {q} - {q} == {};
    assert PrependWords(w.head, w.foot, h', w.foot[b := s], tb, nb, Chunk(s, Free), b);
    hide PrependWords;
    PrependedFree(w0, v, a, {te}, i, tb, te, b, nb, h');
    DvIn(w0.(head := h', foot := w.foot[b := s], heap := Patch(w.heap, tb, b, Two(tb, Chunk(nb, Live), Chunk(s, Free))),
             segs := BaseAt(w.segs, i, tb)), {q}, q, s);
  }

  lemma PrependDvOut(w: World, i: int, tb: int, te: int)
    requires ViewsExcept(w, {}) && w.top != 0 && PrependAt(w, i, tb, te, te) && te == w.dv
    ensures w.dvsize > 0 && w.heap[te] == Chunk(w.dvsize, Free) && PrependAt(w.(dv := 0, dvsize := 0), i, tb, te, te + w.dvsize)
    ensures te + w.dvsize in w.heap && !HeadAt(w.head, te + w.dvsize).pinuse
  {
    assert te > 0 && te in w.heap;
    assert ChunkOk(w.head, w.foot, w.heap, te);
  }

  /** prepend_alloc when the victim is the first chunk of the old segment. */
  method PrependToDv(m: Mstate, tb: int, te: int, nb: int, ghost i: int)
    requires Prependable(m, i, tb, te) && te == m.dv && te != m.top && nb >= MIN_CHUNK_SIZE && nb % 8 == 0 && te - tb - nb >= MIN_CHUNK_SIZE
    modifies m`head, m`foot, m`dv, m`dvsize, m`heap, m`segs
    ensures Valid(m) && Given(old(m.heap), m.heap, tb, nb) && m.segs == BaseAt(old(m.segs), i, tb)
    ensures Quiet(old(MemoryOf(m)), MemoryOf(m), Lives(old(m.heap)))
    ensures HeadAt(m.head, tb).pinuse
    ensures m.dv == tb + nb && m.dvsize == old(m.dvsize) + te - tb - nb
    ensures 0 <= i < |old(m.segs)| && PlanOf(m) == WithPrepended(old(PlanOf(m)), i, tb, te, nb)
  {
    hide ViewsExcept, BinsInv, Given, Quiet, Lives, Patch, BooksInv, TotalSize, BaseAt, Two, WithPrepended;
    BehindRegion(m, i, tb, te);
    PrependedPlan(PlanOf(m), i, tb, te, nb);
    hide PrependAt;
    ghost var w, v, a := WorldOf(m), BinsOf(m), MemoryOf(m);
    PrependedDv(w, v, a, i, tb, te, nb);
    WritePrependDv(m, tb, nb, te - tb - nb,
                   Patch(m.heap, tb, tb + nb + (te - tb - nb + m.dvsize),
                         Two(tb, Chunk(nb, Live), Chunk(te - tb - nb + m.dvsize, Free))),
                   BaseAt(m.segs, i, tb));
  }

  method WritePrependFree(m: Mstate, p: int, nb: int, qsize: int, n: int, ghost heap': Chunks, ghost segs': seq<Seg>)
    modifies m`head, m`foot, m`heap, m`segs
    ensures m.head == SetPinuse(old(m.head)[p := Head(nb, true, true)], n, false)[p + nb := Head(qsize, false, true)]
    ensures m.foot == old(m.foot)[p + nb + qsize := qsize]
    ensures m.heap == heap' && m.segs == segs'
    ensures PlanOf(m) == old(PlanOf(m)).(heap := heap', segs := segs')
  {
    m.head := m.head[p := Head(nb, true, true)];
    m.head := SetPinuse(m.head, n, false);
    m.head := m.head[p + nb := Head(qsize, false, true)];
    m.foot := m.foot[p + nb + qsize := qsize];
    Redraw(m, heap', segs');
  }

  /** A free first chunk behind the region leaves its bin. */
  method MergeFirst(m: Mstate, te: int, qsize0: int, ghost i: int, ghost tb: int) returns (oldfirst: int, qsize: int, ghost out: set<int>)
    requires BinsOk(m) && ViewsExcept(WorldOf(m), {}) && m.top != 0 && PrependAt(WorldOf(m), i, tb, te, te)
    requires te != m.dv && te != m.top
    modifies m`fd, m`bk, m`child0, m`child1, m`parent, m`treebins, m`treemap, m`smallmap, m`small, m`nodes
    ensures BinsOk(m) && ViewsExcept(WorldOf(m), out) && PrependAt(WorldOf(m), i, tb, te, oldfirst)
    ensures qsize == qsize0 + oldfirst - te && out == (if oldfirst == te then {} else {te}) && oldfirst >= te
    ensures te in m.heap && m.heap[te].use == (if oldfirst == te then Live else Free)
    ensures oldfirst == te + (if m.heap[te].use == Free then m.heap[te].size else 0)
    ensures Quiet(old(MemoryOf(m)), MemoryOf(m), Lives(m.heap))
  {
    hide ViewsExcept, BinsInv, Quiet, Lives, Fresh, Kept, KeptRemoved, LinkWrites;
    ghost var w, v, a := WorldOf(m), BinsOf(m), MemoryOf(m);
    FirstChunkFacts(w, i, tb, te);
    oldfirst, qsize, out := te, qsize0, {};
    if !HeadAt(m.head, oldfirst).cinuse {
      var nsize := SizeAt(m.head, oldfirst);
      UnlinkChunk(m, oldfirst, nsize);
      Detached(w, v, {}, a, MemoryOf(m), m.small, m.nodes, nsize, oldfirst);
      oldfirst := oldfirst + nsize;
      qsize := qsize + nsize;
      out := {te};
      assert {} + {te} == {te};
    } else {
      QuietSelf(a, Lives(m.heap));
    }
  }

  /** The rest of the region, whatever it has merged with, becomes a free chunk outside the index. */
  method PrependRest(m: Mstate, tb: int, te: int, nb: int, oldfirst: int, qsize: int, ghost i: int, ghost out: set<int>)
    requires BinsOk(m) && ViewsExcept(WorldOf(m), out) && m.top != 0 && PrependAt(WorldOf(m), i, tb, te, oldfirst)
    requires BooksInv(LedgerOf(m), BaseAt(m.segs, i, tb), TotalSize(BaseAt(m.segs, i, tb)))
    requires qsize == oldfirst - tb - nb && out == (if oldfirst == te then {} else {te})
    requires m.heap[te].use == (if oldfirst == te then Live else Free)
    requires nb >= MIN_CHUNK_SIZE && nb % 8 == 0 && te - tb - nb >= MIN_CHUNK_SIZE
    modifies m`head, m`foot, m`heap, m`segs
    ensures ValidExcept(m, {tb + nb}) && FreeAt(m.heap, qsize, tb + nb)
    ensures Given(old(m.heap), m.heap, tb, nb) && m.segs == BaseAt(old(m.segs), i, tb)
    ensures Quiet(old(MemoryOf(m)), MemoryOf(m), Lives(old(m.heap)))
    ensures HeadAt(m.head, tb).pinuse
    ensures m.heap == Patch(old(m.heap), tb, oldfirst, Two(tb, Chunk(nb, Live), Chunk(qsize, Free)))
    ensures PlanOf(m) == old(PlanOf(m)).(heap := m.heap, segs := m.segs)
  {
    hide ViewsExcept, BinsInv, Given, Quiet, Lives, Patch, BooksInv, TotalSize, BaseAt, Two, Fresh, PrependWords, SetPinuse, FreeAt, PlanOf;
    ghost var w, v, a := WorldOf(m), BinsOf(m), MemoryOf(m);
    PrependSize(w, out, i, tb, te, oldfirst);
    ghost var h' := SetPinuse(m.head[tb := Head(nb, true, true)], oldfirst, false)[tb + nb := Head(qsize, false, true)];
    PrependFreeWords(m.head, m.foot, tb, nb, qsize, oldfirst);
    PrependedFree(w, v, a, out, i, tb, te, oldfirst, nb, h');
    WritePrependFree(m, tb, nb, qsize, oldfirst, Patch(m.heap, tb, oldfirst, Two(tb, Chunk(nb, Live), Chunk(qsize, Free))),
                     BaseAt(m.segs, i, tb));
  }

  lemma PrependParts(m: Mstate, i: int, tb: int, te: int)
    requires Prependable(m, i, tb, te)
    ensures BinsOk(m) && ViewsExcept(WorldOf(m), {}) && m.top != 0 && PrependAt(WorldOf(m), i, tb, te, te)
    ensures 0 <= i < |m.segs| && BooksInv(LedgerOf(m), BaseAt(m.segs, i, tb), TotalSize(BaseAt(m.segs, i, tb)))
  {
    hide ViewsExcept, BinsInv, BooksInv, TotalSize, BaseAt;
  }

  /** The rest of the region, merged with a free first chunk, and not yet binned. */
  method PrependMerged(m: Mstate, tb: int, te: int, nb: int, ghost i: int) returns (qsize: int)
    requires Prependable(m, i, tb, te) && te != m.dv && te != m.top
    requires nb >= MIN_CHUNK_SIZE && nb % 8 == 0 && te - tb - nb >= MIN_CHUNK_SIZE
    modifies m`fd, m`bk, m`child0, m`child1, m`parent, m`treebins, m`treemap, m`smallmap, m`small, m`nodes,
             m`head, m`foot, m`heap, m`segs
    ensures ValidExcept(m, {tb + nb}) && Given(old(m.heap), m.heap, tb, nb) && m.segs == BaseAt(old(m.segs), i, tb)
    ensures Quiet(old(MemoryOf(m)), MemoryOf(m), Lives(old(m.heap))) && HeadAt(m.head, tb).pinuse
    ensures te in old(m.heap) && FreeAt(m.heap, qsize, tb + nb)
    ensures qsize == te - tb - nb + (if old(m.heap)[te].use == Free then old(m.heap)[te].size else 0)
    ensures 0 <= i < |old(m.segs)| && PlanOf(m) == WithPrepended(old(PlanOf(m)), i, tb, te, nb)
  {
    hide ViewsExcept, BinsInv, Given, Quiet, Lives, BooksInv, TotalSize, BaseAt, FreeAt, PrependAt, Prependable, MemoryOf, BinsOk,
         ValidExcept, WithPrepended, Patch, Two, WorldOf, PlanOf;
    ghost var a, c := MemoryOf(m), m.heap;
    PrependParts(m, i, tb, te);
    BehindRegion(m, i, tb, te);
    PlanParts(m);
    PrependedPlan(PlanOf(m), i, tb, te, nb);
    var oldfirst;
    ghost var out;
    oldfirst, qsize, out := MergeFirst(m, te, te - tb - nb, i, tb);
    ghost var b := MemoryOf(m);
    PrependRest(m, tb, te, nb, oldfirst, qsize, i, out);
    QuietTrans(a, b, MemoryOf(m), Lives(c));
  }

  /** prepend_alloc otherwise: the rest of the region is binned, merged with a free first chunk. */
  method PrependToBin(m: Mstate, tb: int, te: int, nb: int, ghost i: int)
    requires Prependable(m, i, tb, te) && te != m.dv && te != m.top
    requires nb >= MIN_CHUNK_SIZE && nb % 8 == 0 && te - tb - nb >= MIN_CHUNK_SIZE
    modifies m`fd, m`bk, m`child0, m`child1, m`parent, m`index, m`treebins, m`treemap, m`smallmap, m`small, m`nodes,
             m`head, m`foot, m`heap, m`segs
    ensures Valid(m) && Given(old(m.heap), m.heap, tb, nb) && m.segs == BaseAt(old(m.segs), i, tb)
    ensures Quiet(old(MemoryOf(m)), MemoryOf(m), Lives(old(m.heap)))
    ensures HeadAt(m.head, tb).pinuse
    ensures te in old(m.heap)
    ensures var first := old(m.heap)[te];
      FreeAt(m.heap, te - tb - nb + (if first.use == Free then first.size else 0), tb + nb)
    ensures 0 <= i < |old(m.segs)| && PlanOf(m) == WithPrepended(old(PlanOf(m)), i, tb, te, nb)
  {
    hide Given, Quiet, Lives, BaseAt, FreeAt, Prependable, MemoryOf, ValidExcept, WithPrepended;
    ghost var a, c := MemoryOf(m), m.heap;
    var q := tb + nb;
    var qsize := PrependMerged(m, tb, te, nb, i);
    ghost var b := MemoryOf(m);
    Attach(m, q, qsize, {q});
    assert {q} - {q} == {};
    QuietGiven(a, b, MemoryOf(m), c, m.heap, tb, nb);
  }

  lemma FirstChunkFacts(w: World, i: int, tb: int, te: int)
    requires ViewsExcept(w, {}) && w.top != 0 && PrependAt(w, i, tb, te, te) && te != w.dv && te != w.top
    ensures te in w.heap && SizeAt(w.head, te) == w.heap[te].size && w.heap[te].size >= 32 && w.heap[te].size % 8 == 0
    ensures if HeadAt(w.head, te).cinuse then w.heap[te].use == Live
            else w.heap[te].use == Free && Kept(w.small, w.nodes, w.heap[te].size, te)
  {
    PrependStretch(w, {}, i, tb, te, te);
    assert ChunkOk(w.head, w.foot, w.heap, te);
    assert TopInv(w.heap, w.top, w.topsize);
    if w.heap[te].use == Free {
      assert FreeAt(w.heap, w.heap[te].size, te);
    }
  }

  lemma PrependFreeWords(h: Heads, foot: Field, tb: int, nb: int, s: int, b: int)
    requires nb > 0 && s > 0 && b == tb + nb + s
    ensures PrependWords(h, foot, SetPinuse(h[tb := Head(nb, true, true)], b, false)[tb + nb := Head(s, false, true)],
                         foot[b := s], tb, nb, Chunk(s, Free), b)
    ensures HeadAt(SetPinuse(h[tb := Head(nb, true, true)], b, false)[tb + nb := Head(s, false, true)], tb).pinuse
  {}

  lemma PrependStart(m: Mstate, i: int, tb: int, te: int)
    requires Prependable(m, i, tb, te)
    ensures te in m.heap && HeadAt(m.head, te).pinuse && tb > 0 && tb % 8 == 0 && te % 8 == 0
  {
    hide ViewsExcept, BinsInv, BooksInv, TotalSize, BaseAt;
    PrependSize(WorldOf(m), {}, i, tb, te, te);
    PrependedStart(WorldOf(m), i, tb, te);
  }

  /** prepend_alloc: the region `[newbase, oldbase)` lies right below segment `i`. */
  method PrependAlloc(m: Mstate, newbase: int, oldbase: int, nb: int, ghost i: int) returns (mem: int)
    requires Prependable(m, i, newbase, oldbase) && nb >= MIN_CHUNK_SIZE && nb % 8 == 0
    requires oldbase - newbase - nb >= MIN_CHUNK_SIZE
    modifies m`fd, m`bk, m`child0, m`child1, m`parent, m`index, m`treebins, m`treemap, m`smallmap, m`small, m`nodes,
             m`head, m`foot, m`heap, m`segs, m`top, m`topsize, m`dv, m`dvsize
    ensures Valid(m) && mem == newbase + 16 && Given(old(m.heap), m.heap, newbase, nb)
    ensures m.segs == BaseAt(old(m.segs), i, newbase)
    ensures Quiet(old(MemoryOf(m)), MemoryOf(m), Lives(old(m.heap)))
    ensures HeadAt(m.head, newbase).pinuse
    ensures oldbase in old(m.heap)
    ensures var q, s, first := newbase + nb, oldbase - newbase - nb, old(m.heap)[oldbase];
      if oldbase == old(m.top) then m.top == q && m.topsize == old(m.topsize) + s
      else if oldbase == old(m.dv) then m.dv == q && m.dvsize == old(m.dvsize) + s
      else FreeAt(m.heap, s + (if first.use == Free then first.size else 0), q)
    ensures 0 <= i < |old(m.segs)| && PlanOf(m) == WithPrepended(old(PlanOf(m)), i, newbase, oldbase, nb)
  {
    hide Valid, Prependable, Given, Quiet, Lives, BaseAt, FreeAt, WithPrepended, MemoryOf;
    PrependStart(m, i, newbase, oldbase);
    var p := newbase + AlignOffset(newbase + 16);
    var oldfirst := oldbase + AlignOffset(oldbase + 16);
    var psize := oldfirst - p;
    var q := p + nb;
    var qsize := psize - nb;
    assert oldfirst > q && HeadAt(m.head, oldfirst).pinuse && qsize >= MIN_CHUNK_SIZE;
    if oldfirst == m.top {
      PrependToTop(m, newbase, oldbase, nb, i);
    } else if oldfirst == m.dv {
      PrependToDv(m, newbase, oldbase, nb, i);
    } else {
      PrependToBin(m, newbase, oldbase, nb, i);
    }
    mem := p + 16;
  }

  lemma PrependedStart(w: World, i: int, tb: int, te: int)
    requires ViewsExcept(w, {}) && w.top != 0 && PrependAt(w, i, tb, te, te)
    ensures HeadAt(w.head, te).pinuse && te in w.heap
  {
    PrependStretch(w, {}, i, tb, te, te);
  }

  // ---- a region elsewhere

  const SEGMENT_STRUCT_SIZE: int := 32

  /** pad_request. */
  function PadRequest(b: int): int
    requires b >= 0
  {
    (b + 8 + 7) / 8 * 8
  }

  method SetHead(m: Mstate, p: int, k: Head)
    modifies m`head
    ensures HeadAt(m.head, p) == k && forall x :: x != p ==> HeadAt(m.head, x) == old(HeadAt(m.head, x))
  {
    m.head := m.head[p := k];
  }

  /** The fenceposts behind a record: from `a` to the last word before `e`. */
  method WriteFences(m: Mstate, a: int, e: int)
    requires a % 8 == 0 && e % 8 == 0 && a + 24 <= e
    modifies m`head
    ensures forall x :: x in Fences(a, e) ==> HeadAt(m.head, x) == Head(FENCE_SIZE, true, true)
    ensures forall x :: x !in Fences(a, e) ==> HeadAt(m.head, x) == old(HeadAt(m.head, x))
  {
    var p := a;
    var nfences := 0;
    while true
      invariant a <= p <= e - 16 && FenceAt(a, p) && p - a == 8 * nfences
      invariant forall x :: x in Fences(a, p + 8) ==> HeadAt(m.head, x) == Head(FENCE_SIZE, true, true)
      invariant forall x :: x !in Fences(a, p + 8) ==> HeadAt(m.head, x) == old(HeadAt(m.head, x))
      decreases e - p
    {
      var nextp := p + 8;
      SetHead(m, p, Head(FENCE_SIZE, true, true));
      nfences := nfences + 1;
      FencesStep(a, p);
      if nextp + 8 < e {
        p := nextp;
      } else {
        break;
      }
    }
    assert nfences >= 2;
  }

  lemma FencesStep(a: int, p: int)
    requires a <= p && FenceAt(a, p)
    ensures Fences(a, p + 16).Keys == Fences(a, p + 8).Keys + {p} && p !in Fences(a, p + 8)
  {}

  /** `*ss = m->seg`, and the head record rewritten. */
  method PushRecord(m: Mstate, ss: int, tb: int, ts: int)
    modifies m`segBase, m`segSize, m`segNext
    ensures m.segBase == old(m.segBase[ss := At(m.segBase, SEG_HEAD)])[SEG_HEAD := tb]
    ensures m.segSize == old(m.segSize[ss := At(m.segSize, SEG_HEAD)])[SEG_HEAD := ts]
    ensures m.segNext == old(m.segNext[ss := At(m.segNext, SEG_HEAD)])[SEG_HEAD := ss]
  {
    m.segBase := m.segBase[ss := At(m.segBase, SEG_HEAD)];
    m.segSize := m.segSize[ss := At(m.segSize, SEG_HEAD)];
    m.segNext := m.segNext[ss := At(m.segNext, SEG_HEAD)];
    m.segBase := m.segBase[SEG_HEAD := tb];
    m.segSize := m.segSize[SEG_HEAD := ts];
    m.segNext := m.segNext[SEG_HEAD := ss];
  }

  lemma FencesAre(h: Heads, h': Heads, foot: Field, o: int, s: int)
    requires s > 0 && s % 8 == 0 && o % 8 == 0
    requires var r, e := RecordAt(o, s), o + s + TOP_FOOT_SIZE;
      && (forall x :: x in Fences(r + RECORD_SIZE, e) ==> HeadAt(h', x) == Head(FENCE_SIZE, true, true))
      && (forall x :: x !in Fences(r + RECORD_SIZE, e) ==> HeadAt(h', x) == HeadAt(h[r := Head(RECORD_SIZE, true, true)], x))
    ensures var r := RecordAt(o, s);
      var h2 := if r != o then SetPinuse(h', r, false)[o := Head(s, false, true)] else h';
      ClosingWords(h, foot, h2, if r != o then foot[r := s] else foot, o, s)
  {
    var r, e := RecordAt(o, s), o + s + TOP_FOOT_SIZE;
    ClosingAt(o, s);
    assert r !in Fences(r + RECORD_SIZE, e) && o !in Fences(r + RECORD_SIZE, e);
    assert forall x :: x in Fences(r + RECORD_SIZE, e) ==> x in Closing(o, s) && o <= x < e;
    hide Closing, Fences;
    var h2 := if r != o then SetPinuse(h', r, false)[o := Head(s, false, true)] else h';
    assert HeadAt(h2, r) == Head(RECORD_SIZE, true, r == o);
    assert forall x :: x != r && x != o ==> HeadAt(h2, x) == HeadAt(h', x);
    assert forall x :: x != r ==> HeadAt(h[r := Head(RECORD_SIZE, true, true)], x) == HeadAt(h, x);
    assert r != o ==> HeadAt(h2, o) == Head(s, false, true);
    hide HeadAt;
  }

  /** The words of add_segment, up to the chunk to be binned. */
  method WriteAdd(m: Mstate, tb: int, ts: int, o: int, s: int, csp: int, e: int)
    requires s > 0 && s % 8 == 0 && o % 8 == 0 && csp == RecordAt(o, s) && e == o + s + TOP_FOOT_SIZE && tb % 8 == 0 && tb > 0
    modifies m`head, m`foot, m`top, m`topsize, m`trimCheck, m`segBase, m`segSize, m`segNext
    ensures ClosingWords(TopHeads(old(m.head), tb, ts - TOP_FOOT_SIZE), old(m.foot), m.head, m.foot, o, s)
    ensures m.top == tb && m.topsize == ts - TOP_FOOT_SIZE
    ensures m.segBase == old(m.segBase[csp + 16 := At(m.segBase, SEG_HEAD)])[SEG_HEAD := tb]
    ensures m.segSize == old(m.segSize[csp + 16 := At(m.segSize, SEG_HEAD)])[SEG_HEAD := ts]
    ensures m.segNext == old(m.segNext[csp + 16 := At(m.segNext, SEG_HEAD)])[SEG_HEAD := csp + 16]
    ensures m.trimCheck == m.trimThreshold
  {
    hide ClosingWords, Fences, TopHeads;
    InitTop(m, tb, ts - TOP_FOOT_SIZE);
    ghost var h, foot := m.head, m.foot;
    SetHead(m, csp, Head(RECORD_SIZE, true, true));
    PushRecord(m, csp + 16, tb, ts);
    WriteFences(m, csp + RECORD_SIZE, e);
    FencesAre(h, m.head, foot, o, s);
    if csp != o {
      var psize := csp - o;
      m.head := SetPinuse(m.head, csp, false);
      m.head := m.head[o := Head(psize, false, true)];
      m.foot := m.foot[csp := psize];
    }
  }

  lemma NewRecord(w: World, l: Ledger, total: int, tb: int, te: int)
    requires Addable(w, tb, te) && BooksInv(l, w.segs, total)
    ensures |w.segs| > 0 && RecsApart(w.segs) && RecordAt(w.top, w.topsize) > 0
    ensures forall i :: 0 < i < |w.segs| ==> w.segs[i].rec != RecordAt(w.top, w.topsize) + 16
  {
    hide BooksInv, Closing;
    AddPlaces(w, tb, te);
    PendingRecords(w, l, total);
    ClosingAt(w.top, w.topsize);
    forall i | 0 < i < |w.segs|
      ensures w.segs[i].rec != RecordAt(w.top, w.topsize) + 16
    {
      assert TailOk(w.heap, w.segs[i]) && SegsApart(w.segs) && BaseOk(w.head, w.heap, w.segs[0]);
    }
  }

  lemma AddedBooks(w: World, l: Ledger, l': Ledger, tb: int, te: int)
    requires Multiple(te - tb, l.granularity)
    requires Addable(w, tb, te) && BooksInv(l, w.segs, TotalSize(w.segs) + te - tb) && l.least <= tb
    requires var ss := RecordAt(w.top, w.topsize) + 16;
      l' == l.(segBase := l.segBase[ss := At(l.segBase, SEG_HEAD)][SEG_HEAD := tb],
               segSize := l.segSize[ss := At(l.segSize, SEG_HEAD)][SEG_HEAD := te - tb],
               segNext := l.segNext[ss := At(l.segNext, SEG_HEAD)][SEG_HEAD := ss])
    ensures |w.segs| > 0
    ensures var segs' := Pushed(w.segs, tb, te, RecordAt(w.top, w.topsize) + 16);
      BooksInv(l', segs', TotalSize(segs'))
  {
    hide Addable, RecordAt;
    var ss := RecordAt(w.top, w.topsize) + 16;
    NewRecord(w, l, TotalSize(w.segs) + te - tb, tb, te);
    RecordsPush(l.segBase, l.segSize, l.segNext, w.segs, tb, te, ss);
    TotalPush(w.segs, tb, te, ss);
    PushedAt(w.segs, tb, te, ss);
    hide RecordsOk, RecsApart, TotalSize, Pushed;
  }

  lemma AddedRecord(w: World, tb: int, te: int)
    requires Addable(w, tb, te)
    ensures var r := RecordAt(w.top, w.topsize); r in AddedHeap(w, tb, te) && AddedHeap(w, tb, te)[r] == Chunk(RECORD_SIZE, Record)
  {
    hide Addable, Closing, AddedHeap;
    AddPlaces(w, tb, te);
    ClosingAt(w.top, w.topsize);
    AddContents(w, tb, te);
  }

  lemma AddedAll(w: World, v: BinView, a: Memory, a': Memory, l: Ledger, l': Ledger, tb: int, te: int, h': Heads, foot': Field)
    requires Addable(w, tb, te) && AddWords(w, tb, te, h', foot') && l.least <= tb
    requires BinsInv(w.head, v) && v.small == w.small && v.nodes == w.nodes && a.head == w.head && a.foot == w.foot
    requires BooksInv(l, w.segs, TotalSize(w.segs) + te - tb) && Multiple(te - tb, l.granularity)
    requires a.segBase == l.segBase && a.segSize == l.segSize && a.segNext == l.segNext
    requires var ss := RecordAt(w.top, w.topsize) + 16;
      l' == l.(segBase := l.segBase[ss := At(l.segBase, SEG_HEAD)][SEG_HEAD := tb],
               segSize := l.segSize[ss := At(l.segSize, SEG_HEAD)][SEG_HEAD := te - tb],
               segNext := l.segNext[ss := At(l.segNext, SEG_HEAD)][SEG_HEAD := ss])
    requires a' == a.(head := h', foot := foot', segBase := l'.segBase, segSize := l'.segSize, segNext := l'.segNext)
    ensures |w.segs| > 0
    ensures var heap', segs' := AddedHeap(w, tb, te), Pushed(w.segs, tb, te, RecordAt(w.top, w.topsize) + 16);
      var rest := RecordAt(w.top, w.topsize) != w.top;
      && ViewsExcept(w.(head := h', foot := foot', heap := heap', top := tb, topsize := te - tb - TOP_FOOT_SIZE, segs := segs'),
                     if rest then {w.top} else {})
      && (rest ==> FreeAt(heap', w.topsize, w.top))
      && BinsInv(h', v) && SameBlocks(a, a', w.heap, heap') && BooksInv(l', segs', TotalSize(segs'))
  {
    hide Addable, AddWords, BinsInv, ViewsExcept, BooksInv, TotalSize, Pushed, AddedHeap, Quiet, Lives, RecordAt, Phys;
    var a1, ss := a.(head := h', foot := foot'), RecordAt(w.top, w.topsize) + 16;
    assert RecordWrites(a1, a', ss);
    hide RecordWrites;
    RegionAdded(w, v, a, tb, te, h', foot');
    AddedBooks(w, l, l', tb, te);
    AddedRecord(w, tb, te);
    AddPhys(w, tb, te, h', foot');
    assert Within(Lives(w.heap), Lives(AddedHeap(w, tb, te)));
    RecordQuiet(a1, a', AddedHeap(w, tb, te), Lives(w.heap), ss);
    QuietTrans(a, a1, a', Lives(w.heap));
  }

  /** The region `[tb, tb + ts)` is counted; the allocator's addresses reach down to it. */
  ghost predicate Elsewhere(m: Mstate, tb: int, ts: int)
    reads m
  {
    Pending(m, tb, tb + ts) && m.top != 0 && m.leastAddr <= tb
  }

  /** Where add_segment puts the record of the old segment, and where that ends. */
  method PlaceRecord(m: Mstate) returns (csp: int, old_end: int)
    requires |m.segs| > 0 && RecordsOk(m.segBase, m.segSize, m.segNext, m.segs)
    requires m.segs[0].base <= m.top && m.segs[0].end == m.top + m.topsize + TOP_FOOT_SIZE
    requires m.topsize > 0 && m.topsize % 8 == 0 && m.top > 0 && m.top % 8 == 0
    ensures csp == RecordAt(m.top, m.topsize) && old_end == m.top + m.topsize + TOP_FOOT_SIZE
  {
    hide RecordsOk;
    var oldsp, k := SegmentHolding(m, m.top);
    assert k == 0;
    WalkStep(m, m.segs, oldsp, k);
    old_end := At(m.segBase, oldsp) + At(m.segSize, oldsp);
    var ssize := PadRequest(SEGMENT_STRUCT_SIZE);
    assert ssize == RECORD_SIZE;
    var rawsp := old_end - (ssize + 32 + 7);
    var offset := AlignOffset(rawsp + 16);
    var asp := rawsp + offset;
    csp := if asp < m.top + MIN_CHUNK_SIZE then m.top else asp;
  }

  method OpenWrites(m: Mstate, tb: int, ts: int, csp: int, e: int, ghost heap': Chunks, ghost segs': seq<Seg>)
    requires m.topsize > 0 && m.topsize % 8 == 0 && m.top % 8 == 0 && csp == RecordAt(m.top, m.topsize)
    requires e == m.top + m.topsize + TOP_FOOT_SIZE && tb % 8 == 0 && tb > 0
    modifies m`head, m`foot, m`top, m`topsize, m`trimCheck, m`segBase, m`segSize, m`segNext, m`heap, m`segs
    ensures AddWords(old(WorldOf(m)), tb, tb + ts, m.head, m.foot)
    ensures WorldOf(m) == old(WorldOf(m)).(head := m.head, foot := m.foot, top := tb, topsize := ts - TOP_FOOT_SIZE,
                                           heap := heap', segs := segs')
    ensures m.top == tb && m.topsize == ts - TOP_FOOT_SIZE && m.heap == heap' && m.segs == segs'
    ensures LedgerOf(m) == old(LedgerOf(m)).(segBase := m.segBase, segSize := m.segSize, segNext := m.segNext)
    ensures BinsOf(m) == old(BinsOf(m))
    ensures MemoryOf(m) == old(MemoryOf(m)).(head := m.head, foot := m.foot, segBase := m.segBase, segSize := m.segSize, segNext := m.segNext)
    ensures m.segBase == old(m.segBase[csp + 16 := At(m.segBase, SEG_HEAD)])[SEG_HEAD := tb]
    ensures m.segSize == old(m.segSize[csp + 16 := At(m.segSize, SEG_HEAD)])[SEG_HEAD := ts]
    ensures m.segNext == old(m.segNext[csp + 16 := At(m.segNext, SEG_HEAD)])[SEG_HEAD := csp + 16]
    ensures m.trimCheck == m.trimThreshold
  {
    hide ClosingWords;
    WriteAdd(m, tb, ts, m.top, m.topsize, csp, e);
    Redraw(m, heap', segs');
  }

  /** The first half of add_segment: everything but binning the rest of the old top. */
  method OpenSegment(m: Mstate, tb: int, ts: int) returns (csp: int, old_top: int)
    requires Elsewhere(m, tb, ts)
    modifies m`head, m`foot, m`top, m`topsize, m`trimCheck, m`segBase, m`segSize, m`segNext, m`heap, m`segs
    ensures old_top == old(m.top) && csp == RecordAt(old_top, old(m.topsize))
    ensures ValidExcept(m, if csp != old_top then {old_top} else {}) && m.top == tb && m.topsize == ts - TOP_FOOT_SIZE && m.top != 0
    ensures csp != old_top ==> FreeAt(m.heap, csp - old_top, old_top)
    ensures SameBlocks(old(MemoryOf(m)), MemoryOf(m), old(m.heap), m.heap)
    ensures |old(m.segs)| > 0 && m.segs == Pushed(old(m.segs), tb, tb + ts, csp + 16)
    ensures m.heap == AddedHeap(old(WorldOf(m)), tb, tb + ts)
    ensures m.trimCheck == m.trimThreshold
  {
    hide ViewsExcept, BinsInv, BooksInv, TotalSize, SameBlocks, AddWords, Addable, AddedHeap, FreeAt, RecordsOk, Fresh, RecordAt, Pushed,
         WorldOf, BinsOf, LedgerOf, MemoryOf, Pending, ValidExcept;
    ghost var w, v, a, l := WorldOf(m), BinsOf(m), MemoryOf(m), LedgerOf(m);
    PendingParts(m, tb, tb + ts);
    OpenFacts(w, l, tb, tb + ts);
    old_top := m.top;
    var e;
    csp, e := PlaceRecord(m);
    RestOfTop(old_top, m.topsize);
    OpenWrites(m, tb, ts, csp, e, AddedHeap(w, tb, tb + ts), Pushed(m.segs, tb, tb + ts, csp + 16));
    AddedAll(w, v, a, MemoryOf(m), l, LedgerOf(m), tb, tb + ts, m.head, m.foot);
    PutTogether(m, WorldOf(m), v, LedgerOf(m), if csp != old_top then {old_top} else {});
  }

  lemma RestOfTop(o: int, s: int)
    ensures RecordAt(o, s) != o ==> RecordAt(o, s) - o == s
  {}

  lemma OpenFacts(w: World, l: Ledger, tb: int, te: int)
    requires ViewsExcept(w, {}) && w.top != 0 && Fresh(w.segs, tb, te) && te - tb >= MIN_SEGMENT_SIZE
    requires BooksInv(l, w.segs, TotalSize(w.segs) + te - tb)
    ensures Addable(w, tb, te) && tb % 8 == 0 && tb > 0
    ensures |w.segs| > 0 && RecordsOk(l.segBase, l.segSize, l.segNext, w.segs)
    ensures w.segs[0].base <= w.top && w.segs[0].end == w.top + w.topsize + TOP_FOOT_SIZE
    ensures w.topsize > 0 && w.topsize % 8 == 0 && w.top > 0 && w.top % 8 == 0
  {
    hide ViewsExcept;
    AddPlaces(w, tb, te);
  }

  lemma SameThen(a: Memory, b: Memory, d: Memory, c: Chunks, c': Chunks)
    requires SameBlocks(a, b, c, c') && Quiet(b, d, Lives(c'))
    ensures SameBlocks(a, d, c, c')
  {
    hide Quiet, Lives;
    QuietTrans(a, b, d, Lives(c));
  }

  lemma AddedPlan(s: Plan, w: World, tb: int, te: int, s': Plan)
    requires |s.segs| > 0 && w.heap == s.heap && w.top == s.top && w.topsize == s.topsize
    requires s' == s.(heap := AddedHeap(w, tb, te), top := tb, topsize := te - tb - TOP_FOOT_SIZE,
                      segs := Pushed(s.segs, tb, te, RecordAt(s.top, s.topsize) + 16), trimCheck := s.rules.threshold)
    ensures s' == WithAdded(s, tb, te)
  {}

  lemma WorldParts(m: Mstate)
    ensures WorldOf(m).heap == m.heap && WorldOf(m).top == m.top && WorldOf(m).topsize == m.topsize
  {}

  /** add_segment. */
  method AddSegment(m: Mstate, tb: int, ts: int)
    requires Elsewhere(m, tb, ts)
    modifies m`head, m`foot, m`top, m`topsize, m`trimCheck, m`segBase, m`segSize, m`segNext, m`heap, m`segs,
             m`fd, m`bk, m`child0, m`child1, m`parent, m`index, m`treebins, m`treemap, m`smallmap, m`small, m`nodes
    ensures Valid(m) && m.top == tb && m.topsize == ts - TOP_FOOT_SIZE && m.top != 0
    ensures SameBlocks(old(MemoryOf(m)), MemoryOf(m), old(m.heap), m.heap)
    ensures TotalSize(m.segs) == old(TotalSize(m.segs)) + ts
    ensures |old(m.segs)| > 0 && m.segs == Pushed(old(m.segs), tb, tb + ts, RecordAt(old(m.top), old(m.topsize)) + 16)
    ensures m.heap == AddedHeap(old(WorldOf(m)), tb, tb + ts)
    ensures PlanOf(m) == WithAdded(old(PlanOf(m)), tb, tb + ts)
  {
    hide ViewsExcept, BinsInv, BooksInv, TotalSize, SameBlocks, FreeAt, Fresh, RecordAt, Pushed, Quiet, Lives, AddedHeap, WithAdded, WorldOf, MemoryOf, ValidExcept, Elsewhere;
    ghost var a, c, segs, s, w := MemoryOf(m), m.heap, m.segs, PlanOf(m), WorldOf(m);
    WorldParts(m);
    var csp, old_top := OpenSegment(m, tb, ts);
    TotalPush(segs, tb, tb + ts, csp + 16);
    ghost var b := MemoryOf(m);
    if csp != old_top {
      Attach(m, old_top, csp - old_top, {old_top});
      assert {old_top} - {old_top} == {};
      SameThen(a, b, MemoryOf(m), c, m.heap);
    }
    AddedPlan(s, w, tb, tb + ts, PlanOf(m));
  }

  // ---- sys_alloc itself

  /** The new region is counted. */
  method CountRegion(m: Mstate, tb: int, ts: int)
    requires Valid(m) && Fresh(m.segs, tb, tb + ts) && ts >= MIN_SEGMENT_SIZE && Multiple(ts, m.granularity)
    modifies m`footprint, m`maxFootprint
    ensures Pending(m, tb, tb + ts) && m.footprint == old(m.footprint) + ts
    ensures m.maxFootprint == (if m.footprint > old(m.maxFootprint) then m.footprint else old(m.maxFootprint))
    ensures MemoryOf(m) == old(MemoryOf(m))
  {
    hide ViewsExcept, BinsInv, TotalSize, Fresh, RecordsOk;
    m.footprint := m.footprint + ts;
    if m.footprint > m.maxFootprint {
      m.maxFootprint := m.footprint;
    }
  }

  /** `if (tbase < m->least_addr) m->least_addr = tbase`. */
  method LowerAddress(m: Mstate, tb: int, ghost te: int)
    requires Pending(m, tb, te)
    modifies m`leastAddr
    ensures Pending(m, tb, te) && m.leastAddr <= tb && MemoryOf(m) == old(MemoryOf(m))
    ensures m.leastAddr == (if tb < old(m.leastAddr) then tb else old(m.leastAddr))
    ensures PlanOf(m) == old(PlanOf(m)).(least := m.leastAddr)
  {
    hide ViewsExcept, BinsInv, TotalSize, Fresh, RecordsOk;
    if tb < m.leastAddr {
      LowerLeast(m.head, BinsOf(m), tb);
      m.leastAddr := tb;
    }
  }

  lemma OnlyHeadHoldsTop(w: World, k: int, tb: int)
    requires ViewsExcept(w, {}) && w.top != 0 && 0 <= k < |w.segs| && w.segs[k].base <= w.top < w.segs[k].end
    ensures k == 0
  {
    assert SegsApart(w.segs) && w.segs[0].base <= w.top < w.segs[0].end by {
      TopThere(w);
    }
  }

  lemma RecordPlace(w: World, l: Ledger, total: int, k: int)
    requires ViewsExcept(w, {}) && w.top != 0 && BooksInv(l, w.segs, total) && 0 <= k < |w.segs|
    ensures var ss := w.segs[k].rec;
      ss == SEG_HEAD || (ss - 16 in w.heap && w.heap[ss - 16] == Chunk(RECORD_SIZE, Record))
    ensures At(l.segBase, w.segs[k].rec) == w.segs[k].base && At(l.segSize, w.segs[k].rec) == w.segs[k].end - w.segs[k].base
    ensures l.least <= w.segs[k].base
  {
    assert RecordOk(l.segBase, l.segSize, l.segNext, w.segs, k);
    if k > 0 {
      assert TailOk(w.heap, w.segs[k]);
    }
  }

  /** The record of segment `k` takes in the region below it. */
  lemma LowerRecord(w: World, a: Memory, a': Memory, l: Ledger, l': Ledger, k: int, tb: int, te: int)
    requires Multiple(te - tb, l.granularity)
    requires ViewsExcept(w, {}) && w.top != 0 && BooksInv(l, w.segs, TotalSize(w.segs) + te - tb)
    requires 0 <= k < |w.segs| && w.segs[k].base == te && l.least <= tb
    requires a.head == w.head && a.foot == w.foot && a.segBase == l.segBase && a.segSize == l.segSize
    requires var rec := w.segs[k].rec;
      l' == l.(segBase := l.segBase[rec := tb], segSize := l.segSize[rec := At(l.segSize, rec) + te - tb])
    requires a' == a.(segBase := l'.segBase, segSize := l'.segSize)
    ensures BooksInv(l', BaseAt(w.segs, k, tb), TotalSize(BaseAt(w.segs, k, tb))) && Quiet(a, a', Lives(w.heap))
    ensures TotalSize(BaseAt(w.segs, k, tb)) == TotalSize(w.segs) + te - tb
  {
    hide ViewsExcept, BooksInv, TotalSize, Phys, Lives, RecsApart;
    var rec := w.segs[k].rec;
    PendingRecords(w, l, TotalSize(w.segs) + te - tb);
    RecordPlace(w, l, TotalSize(w.segs) + te - tb, k);
    BooksUpdated(l, l', w.segs, k, w.segs[k].(base := tb));
    TotalUpdate(w.segs, k, w.segs[k].(base := tb));
    PhysOf(w, {});
    assert RecordWrites(a, a', rec);
    RecordQuiet(a, a', w.heap, Lives(w.heap), rec);
  }

  lemma PrependPoint(w: World, k: int, tb: int, te: int)
    requires ViewsExcept(w, {}) && w.top != 0 && Fresh(w.segs, tb, te) && 0 <= k < |w.segs| && w.segs[k].base == te
    ensures PrependAt(w, k, tb, te, te)
  {
    assert BaseOk(w.head, w.heap, w.segs[k]);
  }

  method WriteRecord(m: Mstate, sp: int, tb: int, ts: int)
    modifies m`segBase, m`segSize
    ensures m.segBase == old(m.segBase)[sp := tb] && m.segSize == old(m.segSize)[sp := old(At(m.segSize, sp)) + ts]
  {
    m.segBase := m.segBase[sp := tb];
    m.segSize := m.segSize[sp := At(m.segSize, sp) + ts];
  }

  /** The branch of sys_alloc for a region right below the segment of record `sp`. */
  method PrependRegion(m: Mstate, sp: int, tb: int, ts: int, nb: int, ghost k: int) returns (mem: int)
    requires Elsewhere(m, tb, ts) && 0 <= k < |m.segs| && m.segs[k].base == tb + ts && sp == m.segs[k].rec
    requires nb >= MIN_CHUNK_SIZE && nb % 8 == 0 && ts - nb >= MIN_CHUNK_SIZE
    modifies m
    ensures Valid(m) && mem == tb + 16 && mem != 0
    ensures m.footprint == old(m.footprint) && m.maxFootprint == old(m.maxFootprint)
    ensures Quiet(old(MemoryOf(m)), MemoryOf(m), Lives(old(m.heap)))
    ensures TotalSize(m.segs) == old(TotalSize(m.segs)) + ts
    ensures HeadAt(m.head, mem - 16).pinuse
    ensures PlanOf(m) == WithPrepended(old(PlanOf(m)), k, tb, tb + ts, nb)
    ensures Given(old(m.heap), m.heap, mem - 16, nb)
  {
    hide Valid, TotalSize, BaseAt, Quiet, Lives, Given, Prependable, Elsewhere, WithPrepended, MemoryOf;
    ghost var a, c := MemoryOf(m), m.heap;
    PositiveElsewhere(m, tb, ts);
    var oldbase := LowerBase(m, sp, tb, ts, k);
    ghost var b := MemoryOf(m);
    mem := PrependAlloc(m, tb, oldbase, nb, k);
    QuietTrans(a, b, MemoryOf(m), Lives(c));
  }

  /** The record of a segment takes in the region right below it. */
  method LowerBase(m: Mstate, sp: int, tb: int, ts: int, ghost k: int) returns (oldbase: int)
    requires Elsewhere(m, tb, ts) && 0 <= k < |m.segs| && m.segs[k].base == tb + ts && sp == m.segs[k].rec
    modifies m`segBase, m`segSize
    ensures Prependable(m, k, tb, tb + ts) && oldbase == tb + ts
    ensures Quiet(old(MemoryOf(m)), MemoryOf(m), Lives(m.heap))
    ensures TotalSize(BaseAt(m.segs, k, tb)) == TotalSize(m.segs) + ts
  {
    hide ViewsExcept, BinsInv, BooksInv, TotalSize, Fresh, PrependAt, BaseAt, Quiet, Lives;
    ghost var w, a, l := WorldOf(m), MemoryOf(m), LedgerOf(m);
    PrependPoint(w, k, tb, tb + ts);
    RecordPlace(w, l, TotalSize(w.segs) + ts, k);
    oldbase := At(m.segBase, sp);
    WriteRecord(m, sp, tb, ts);
    LowerRecord(w, a, MemoryOf(m), l, LedgerOf(m), k, tb, tb + ts);
  }

  lemma PositiveElsewhere(m: Mstate, tb: int, ts: int)
    requires Elsewhere(m, tb, ts)
    ensures tb > 0
  {
    hide ViewsExcept, BinsInv, BooksInv;
  }

  /** The region has been made part of the heap. */
  ghost predicate Absorbed(m: Mstate, nb: int)
    reads m
  {
    Valid(m) && m.top != 0 && nb < m.topsize
  }

  /** The newest segment ends where the region starts, and may be extended. */
  predicate EndsAt(segs: seq<Seg>, tb: int, may: bool) {
    may && |segs| > 0 && segs[0].end == tb
  }

  /** A segment starts where the region ends, and may be extended. */
  predicate StartsAt(segs: seq<Seg>, te: int, may: bool) {
    may && exists k :: 0 <= k < |segs| && segs[k].base == te
  }

  /** The first segment that begins at `te`. */
  ghost predicate FirstStart(segs: seq<Seg>, te: int, k: int) {
    0 <= k < |segs| && segs[k].base == te && forall j :: 0 <= j < k ==> segs[j].base != te
  }

  /** A region gets its place: behind the newest segment, below a segment, or on its own. */
  ghost function Placed(s: Plan, tb: int, te: int, nb: int, below: bool, above: bool): Plan {
    if s.top == 0 || s.segs == [] then WithFirst(s, tb, te)
    else if EndsAt(s.segs, tb, below) then WithAppended(s, tb, te)
    else PlacedElsewhere(s, tb, te, nb, above)
  }

  ghost function PlacedElsewhere(s: Plan, tb: int, te: int, nb: int, above: bool): Plan
  {
    var s1 := s.(least := if tb < s.least then tb else s.least);
    if s.segs == [] then s1
    else if k :| above && FirstStart(s.segs, te, k) then WithPrepended(s1, k, tb, te, nb) else WithAdded(s1, tb, te)
  }

  /** A counted region serves a request of `nb` bytes. */
  ghost function FromRegion(s: Plan, tb: int, te: int, nb: int): Plan {
    var below, above := s.rules.system(s.asked), s.rules.system(s.asked + 1);
    var s1 := Placed(s.(footprint := s.footprint + te - tb, asked := s.asked + 2), tb, te, nb, below, above);
    if s.top != 0 && !EndsAt(s.segs, tb, below) && StartsAt(s.segs, te, above) then s1 else CutTop(s1, nb)
  }

  /** Where the block is then: at the start of the region, unless top has been extended. */
  ghost function RegionBlock(s: Plan, tb: int): int {
    if s.top != 0 && EndsAt(s.segs, tb, s.rules.system(s.asked)) then s.top else tb
  }

  lemma CutTopBlock(s: Plan, nb: int)
    requires nb > 0
    ensures var t := CutTop(s, nb);
      && s.top in t.heap && t.heap[s.top] == Chunk(nb, Live) && t.top == s.top + nb && t.topsize == s.topsize - nb
      && t.footprint == s.footprint && t.least == s.least
  {}

  lemma PrependedBlock(s: Plan, k: int, tb: int, te: int, nb: int)
    requires 0 <= k < |s.segs| && nb > 0
    ensures var t := WithPrepended(s, k, tb, te, nb);
      tb in t.heap && t.heap[tb] == Chunk(nb, Live) && t.footprint == s.footprint
  {}

  lemma PlacedFacts(s: Plan, tb: int, te: int, nb: int, below: bool, above: bool)
    requires nb > 0
    ensures var t := Placed(s, tb, te, nb, below, above);
      && t.footprint == s.footprint
      && (if s.top == 0 || s.segs == [] then t.top == tb && t.topsize == te - tb - TOP_FOOT_SIZE
          else if EndsAt(s.segs, tb, below) then t.top == s.top && t.topsize == s.topsize + te - tb && t.least == s.least
          else if StartsAt(s.segs, te, above) then tb in t.heap && t.heap[tb] == Chunk(nb, Live)
          else t.top == tb && t.topsize == te - tb - TOP_FOOT_SIZE)
  {
    hide Patch, WithRegion, WithClosing, WithPrepended, StartsAt;
    if s.top != 0 && s.segs != [] {
      var k := FirstOrNone(s.segs, te);
      PlaceFound(s, tb, te, nb, above, k);
      if k < |s.segs| {
        PrependedBlock(s.(least := if tb < s.least then tb else s.least), k, tb, te, nb);
      }
    }
  }

  /** The block is exactly as large as asked for, and what the region adds to top stays in top. */
  lemma RegionLaw(s: Plan, tb: int, te: int, nb: int)
    requires nb > 0 && (s.segs == [] ==> s.top == 0)
    ensures var t, p := FromRegion(s, tb, te, nb), RegionBlock(s, tb);
      && p in t.heap && t.heap[p] == Chunk(nb, Live) && t.footprint == s.footprint + te - tb
      && (EndsAt(s.segs, tb, s.rules.system(s.asked)) && s.top != 0 ==>
           p == s.top && t.top == s.top + nb && t.topsize == s.topsize + te - tb - nb && t.least == s.least)
      && (s.top == 0 ==> p == tb && t.top == tb + nb && t.topsize == te - tb - TOP_FOOT_SIZE - nb)
  {
    hide Placed, CutTop, StartsAt;
    var s0 := s.(footprint := s.footprint + te - tb, asked := s.asked + 2);
    var below, above := s.rules.system(s.asked), s.rules.system(s.asked + 1);
    PlacedFacts(s0, tb, te, nb, below, above);
    CutTopBlock(Placed(s0, tb, te, nb, below, above), nb);
  }

  lemma FirstOrNone(segs: seq<Seg>, te: int) returns (k: int)
    ensures 0 <= k <= |segs| && (k < |segs| ==> FirstStart(segs, te, k))
    ensures k == |segs| ==> forall j :: 0 <= j < |segs| ==> segs[j].base != te
  {
    k := 0;
    while k < |segs| && segs[k].base != te
      invariant 0 <= k <= |segs| && forall j :: 0 <= j < k ==> segs[j].base != te
    {
      k := k + 1;
    }
  }

  lemma PlaceFound(s: Plan, tb: int, te: int, nb: int, above: bool, k: int)
    requires s.segs != []
    requires if k < |s.segs| then FirstStart(s.segs, te, k) else forall j :: 0 <= j < |s.segs| ==> s.segs[j].base != te
    ensures var s1 := s.(least := if tb < s.least then tb else s.least);
      PlacedElsewhere(s, tb, te, nb, above)
      == if above && k < |s.segs| then WithPrepended(s1, k, tb, te, nb) else WithAdded(s1, tb, te)
    ensures StartsAt(s.segs, te, above) <==> above && k < |s.segs|
  {
    hide WithPrepended, WithAdded;
    if k':int :| FirstStart(s.segs, te, k') {
      assert k' == k;
    }
  }

  /** The part of sys_alloc that gives a region its place: it extends the newest segment and top; or else it goes
      below a segment, and the block comes from its start; or else it is a segment of its own, with a new top. Whether
      a neighbour may be extended is up to check_segment_merge. */
  method PlaceRegion(m: Mstate, tb: int, ts: int, nb: int, below: bool, above: bool) returns (mem: int)
    requires Pending(m, tb, tb + ts)
    requires nb >= MIN_CHUNK_SIZE && nb % 8 == 0 && ts > nb + TOP_FOOT_SIZE && ts % 8 == 0
    modifies m
    ensures mem == 0 ==> Absorbed(m, nb) && SameBlocks(old(MemoryOf(m)), MemoryOf(m), old(m.heap), m.heap)
    ensures mem != 0 ==> Valid(m) && Given(old(m.heap), m.heap, mem - 16, nb)
    ensures mem != 0 ==> Quiet(old(MemoryOf(m)), MemoryOf(m), Lives(old(m.heap)))
    ensures m.footprint == old(m.footprint) && m.maxFootprint == old(m.maxFootprint)
    ensures mem != 0 ==> HeadAt(m.head, mem - 16).pinuse
    ensures if old(m.top) == 0 then mem == 0 && m.top == tb && m.topsize == ts - TOP_FOOT_SIZE
            else if EndsAt(old(m.segs), tb, below) then mem == 0 && m.top == old(m.top) && m.topsize == old(m.topsize) + ts
            else if StartsAt(old(m.segs), tb + ts, above) then mem == tb + 16
            else mem == 0 && m.top == tb && m.topsize == ts - TOP_FOOT_SIZE
    ensures PlanOf(m) == Placed(old(PlanOf(m)), tb, tb + ts, nb, below, above)
  {
    hide ViewsExcept, BinsInv, BooksInv, TotalSize, Fresh, Quiet, Lives, SameBlocks, EndedAt, RecsApart, Elsewhere, WithFirst, WithAppended, PlacedElsewhere, Given, MemoryOf;
    mem := 0;
    if m.top == 0 {
      FirstTime(m, tb, ts);
    } else {
      PendingWalk(WorldOf(m), LedgerOf(m), TotalSize(m.segs) + ts);
      var sp, k := SegmentEndingAt(m, tb);
      if k < |m.segs| {
        WalkStep(m, m.segs, sp, k);
        OneEnd(WorldOf(m), k);
      }
      if sp != 0 && below && At(m.segBase, sp) <= m.top < At(m.segBase, sp) + At(m.segSize, sp) {
        OnlyHeadHoldsTop(WorldOf(m), k, tb);
        AppendRegion(m, sp, tb, ts);
      } else {
        mem := PlaceElsewhere(m, tb, ts, nb, above);
      }
    }
  }

  /** Only the newest segment holds top, and no other ends where it ends. */
  lemma OneEnd(w: World, k: int)
    requires ViewsExcept(w, {}) && w.top != 0 && 0 <= k < |w.segs|
    ensures w.segs[0].base <= w.top < w.segs[0].end
    ensures w.segs[k].end == w.segs[0].end ==> k == 0
  {
    TopThere(w);
    assert SegsApart(w.segs) && BaseOk(w.head, w.heap, w.segs[k]) && BaseOk(w.head, w.heap, w.segs[0]);
  }

  /** The newest segment is not extended. */
  method PlaceElsewhere(m: Mstate, tb: int, ts: int, nb: int, above: bool) returns (mem: int)
    requires Pending(m, tb, tb + ts) && m.top != 0
    requires nb >= MIN_CHUNK_SIZE && nb % 8 == 0 && ts > nb + TOP_FOOT_SIZE && ts % 8 == 0
    modifies m
    ensures mem == 0 ==> Absorbed(m, nb) && SameBlocks(old(MemoryOf(m)), MemoryOf(m), old(m.heap), m.heap)
    ensures mem != 0 ==> Valid(m) && Given(old(m.heap), m.heap, mem - 16, nb)
    ensures mem != 0 ==> Quiet(old(MemoryOf(m)), MemoryOf(m), Lives(old(m.heap)))
    ensures m.footprint == old(m.footprint) && m.maxFootprint == old(m.maxFootprint)
    ensures mem != 0 ==> HeadAt(m.head, mem - 16).pinuse
    ensures if StartsAt(old(m.segs), tb + ts, above) then mem == tb + 16
            else mem == 0 && m.top == tb && m.topsize == ts - TOP_FOOT_SIZE
    ensures PlanOf(m) == PlacedElsewhere(old(PlanOf(m)), tb, tb + ts, nb, above)
  {
    hide Pending, Valid, TotalSize, Quiet, Lives, SameBlocks, RecordsOk, AddedHeap, Pushed, RecordAt, WorldOf, MemoryOf, WithPrepended, WithAdded, PlacedElsewhere, Given, StartsAt, PlanOf;
    ghost var s := PlanOf(m);
    PlanParts(m);
    LowerAddress(m, tb, tb + ts);
    PendingList(m, tb, tb + ts);
    var sp, k := SegmentStartingAt(m, tb + ts);
    PlaceFound(s, tb, tb + ts, nb, above, k);
    if sp != 0 && above {
      mem := PrependRegion(m, sp, tb, ts, nb, k);
    } else {
      mem := 0;
      AddSegment(m, tb, ts);
    }
  }

  lemma PendingList(m: Mstate, tb: int, te: int)
    requires Pending(m, tb, te) && m.top != 0
    ensures |m.segs| > 0 && RecordsOk(m.segBase, m.segSize, m.segNext, m.segs) && m.segs[0].rec == SEG_HEAD
  {
    hide ViewsExcept, BinsInv, BooksInv, TotalSize, Fresh;
    PendingWalk(WorldOf(m), LedgerOf(m), TotalSize(m.segs) + te - tb);
  }

  lemma PendingWalk(w: World, l: Ledger, total: int)
    requires ViewsExcept(w, {}) && w.top != 0 && BooksInv(l, w.segs, total)
    ensures |w.segs| > 0 && RecordsOk(l.segBase, l.segSize, l.segNext, w.segs) && w.segs[0].rec == SEG_HEAD
  {
    hide ViewsExcept;
    PendingRecords(w, l, total);
  }

  lemma ServedAfter(a: Memory, b: Memory, d: Memory, c: Chunks, c': Chunks, c'': Chunks, p: int, nb: int)
    requires SameBlocks(a, b, c, c') && Quiet(b, d, Lives(c')) && Given(c', c'', p, nb) && nb >= 0
    ensures Served(c, c'', p, nb) && p in Lives(c'') && Quiet(a, d, Lives(c))
    ensures Given(c, c'', p, nb)
  {
    SameThen(a, b, d, c, c');
    hide Quiet, Lives;
  }

  lemma AbsorbedParts(m: Mstate, nb: int)
    requires Absorbed(m, nb)
    ensures Valid(m) && m.top != 0 && nb < m.topsize
  {}

  /** A region from the system serves the request, with two answers on whether it may extend a segment. */
  method RegionServes(m: Mstate, tb: int, ts: int, nb: int) returns (mem: int)
    requires Valid(m) && Fresh(m.segs, tb, tb + ts) && ts >= MIN_SEGMENT_SIZE && Multiple(ts, m.granularity)
    requires nb >= MIN_CHUNK_SIZE && nb % 8 == 0 && ts > nb + TOP_FOOT_SIZE && ts % 8 == 0
    modifies m
    ensures Valid(m) && mem != 0 && Given(old(m.heap), m.heap, mem - 16, nb) && HeadAt(m.head, mem - 16).pinuse
    ensures Quiet(old(MemoryOf(m)), MemoryOf(m), Lives(old(m.heap)))
    ensures m.footprint == old(m.footprint) + ts
    ensures m.maxFootprint == (if m.footprint > old(m.maxFootprint) then m.footprint else old(m.maxFootprint))
    ensures mem == RegionBlock(old(PlanOf(m)), tb) + 16 && PlanOf(m) == FromRegion(old(PlanOf(m)), tb, tb + ts, nb)
  {
    hide ValidExcept, TotalSize, Fresh, Quiet, Lives, SameBlocks, Given, Placed, CutTop, MemoryOf, Pending, Absorbed, Multiple, Served;
    ghost var a, c := MemoryOf(m), m.heap;
    NotMax(m.segs, tb, ts);
    var below := AskOnly(m);
    var above := AskOnly(m);
    CountRegion(m, tb, ts);
    ghost var a1 := MemoryOf(m);
    assert a1 == a;
    mem := PlaceRegion(m, tb, ts, nb, below, above);
    if mem == 0 {
      AbsorbedParts(m, nb);
      ghost var b, c' := MemoryOf(m), m.heap;
      var p := TakeFromTop(m, nb);
      ServedAfter(a, b, MemoryOf(m), c, c', m.heap, p, nb);
      BlockPlace(m, p);
      mem := p + 16;
    }
  }

  /** sys_alloc, with the system's answer `mp` to the request for a region: whenever there is a region,
      the request is served. */
  method SysAlloc(m: Mstate, nb: int, mp: int) returns (mem: int)
    requires Valid(m) && IsWord(nb) && nb >= MIN_CHUNK_SIZE && (nb % 8 == 0 || nb == MAX_SIZE_T)
    requires mp == CMFAIL || Fresh(m.segs, mp, mp + SysRequest(m.granularity, nb))
    modifies m
    ensures Valid(m)
    ensures mem == 0 <==> mp == CMFAIL || SysRequest(m.granularity, nb) <= nb
    ensures mem == 0 ==> unchanged(m)
    ensures mem != 0 ==> Served(old(m.heap), m.heap, mem - 16, nb)
    ensures mem != 0 ==> Quiet(old(MemoryOf(m)), MemoryOf(m), Lives(old(m.heap)))
    ensures mem != 0 ==> m.footprint == old(m.footprint) + SysRequest(m.granularity, nb)
    ensures mem != 0 ==> m.maxFootprint == (if m.footprint > old(m.maxFootprint) then m.footprint else old(m.maxFootprint))
    ensures mem != 0 ==> HeadAt(m.head, mem - 16).pinuse && Given(old(m.heap), m.heap, mem - 16, nb)
    ensures mem != 0 ==>
      mem == RegionBlock(old(PlanOf(m)), mp) + 16
      && PlanOf(m) == FromRegion(old(PlanOf(m)), mp, mp + SysRequest(m.granularity, nb), nb)
  {
    hide Valid, Fresh, Quiet, Lives, Served, Given, SysRequest, Multiple, FromRegion, RegionBlock, MemoryOf;
    var tbase, tsize := CMFAIL, 0;
    Granule(m);
    SysRequestFits(m.granularity, nb);
    if nb >= MMAP_THRESHOLD {
      NoDirectMapping(m.granularity, nb);
      var mmsize := GranularityAlign(m.granularity, Add64(Add64(nb, 48), 7));
      if mmsize > nb {
        assert false;
      }
    }
    var rsize := SysRequest(m.granularity, nb);
    if rsize > nb {
      if mp != CMFAIL {
        tbase, tsize := mp, rsize;
      }
    }
    mem := 0;
    if tbase != CMFAIL {
      ghost var c := m.heap;
      mem := RegionServes(m, tbase, tsize, nb);
      IsServed(c, m.heap, mem - 16, nb, nb);
    }
  }

  /** The threshold for mapping a chunk directly: out of reach. */
  const MMAP_THRESHOLD: int := MAX_SIZE_T

  /** mmap_alloc gives up on the only request that reaches the threshold: its size wraps. */
  lemma NoDirectMapping(g: int, nb: int)
    requires GranularityOk(g) && MMAP_THRESHOLD <= nb && IsWord(nb)
    ensures IsWord(Add64(Add64(nb, 48), 7)) && GranularityAlign(g, Add64(Add64(nb, 48), 7)) <= nb
  {
    RoundDown(Add64(Add64(Add64(nb, 48), 7), g), g);
  }

  lemma Granule(m: Mstate)
    requires Valid(m)
    ensures GranularityOk(m.granularity)
  {
    hide ViewsExcept, BinsInv;
  }

  lemma NotMax(segs: seq<Seg>, tb: int, ts: int)
    requires Fresh(segs, tb, tb + ts)
    ensures tb > 0 && ts > 0
  {}

  /** A block lies at a positive address. */
  lemma BlockPlace(m: Mstate, p: int)
    requires Valid(m) && p in Lives(m.heap)
    ensures p > 0 && p % 8 == 0 && p in m.heap && m.heap[p] == Chunk(Lives(m.heap)[p], Live)
    ensures p >= m.leastAddr && p + m.heap[p].size < W64 && m.top != 0
  {
    hide ViewsExcept, BinsInv;
    ChunkAddress(m, {}, p);
  }
}
