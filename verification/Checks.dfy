/** The debugging checks of malloc_state: in every valid state none of them fails. */
module Checks {
  import opened Words
  import opened BinIndex
  import opened BinMaps
  import opened Rings
  import opened Trie
  import opened TriePaths
  import opened State
  import opened TreeBins
  import opened SmallBins
  import opened Index
  import opened Heap
  import opened Payload
  import opened Invariant
  import opened InOut
  import opened Tmalloc
  import opened Taking
  import opened Freeing
  import opened Segments
  import opened FromSystem
  import opened Malloc
  import opened Trimming
  import opened Free
  import opened Conservation

  // ---- bin_find

  /** Position `j` of a ring of `n`, `k` steps on. */
  ghost function StepsOn(j: nat, k: nat, n: nat): (p: nat)
    requires j < n && k < n
    ensures p < n
  {
    if j + k < n then j + k else j + k - n
  }

  lemma StepsOnNext(j: nat, k: nat, n: nat)
    requires j < n && k < n
    ensures Next(StepsOn(j, k, n), n) == if k + 1 < n then StepsOn(j, k + 1, n) else j
  {}

  lemma EveryPosition(j: nat, n: nat, i: nat)
    requires j < n && i < n
    ensures StepsOn(j, if i >= j then i - j else i - j + n, n) == i
  {}

  /** The search through a whole ring. */
  method InRing(m: Mstate, start: int, x: int, ghost ring: seq<int>, ghost j: nat) returns (found: bool)
    requires Ring(m.fd, m.bk, ring) && j < |ring| && ring[j] == start
    ensures found <==> x in ring
  {
    var p := start;
    ghost var k: nat, n := 0, |ring|;
    while true
      invariant k < n && p == ring[StepsOn(j, k, n)]
      invariant forall i {:trigger StepsOn(j, i, n)} :: 0 <= i < k ==> ring[StepsOn(j, i, n)] != x
      decreases n - k
    {
      if p == x {
        return true;
      }
      StepsOnNext(j, k, n);
      RingStep(m.fd, m.bk, ring, StepsOn(j, k, n));
      RingStep(m.fd, m.bk, ring, j);
      p := At(m.fd, p);
      if p == start {
        SameSpot(ring, j, Next(StepsOn(j, k, n), n));
        forall i | 0 <= i < n
          ensures ring[i] != x
        {
          EveryPosition(j, n, i);
        }
        return false;
      }
      k := k + 1;
    }
  }

  lemma RingStep(fd: Field, bk: Field, ring: seq<int>, i: nat)
    requires Ring(fd, bk, ring) && i < |ring|
    ensures At(fd, ring[i]) == ring[Next(i, |ring|)]
  {}

  lemma SameSpot(ring: seq<int>, i: nat, j: nat)
    requires Distinct(ring) && i < |ring| && j < |ring| && ring[i] == ring[j]
    ensures i == j
  {}

  /** The head of the ring of a size is in it. */
  lemma LeadSpot(m: Tree, fd: Field, bk: Field, index: Field, t: Nodes, least: int, s: int)
    requires TreesInv(m, fd, bk, index, t, least) && s in t
    ensures Ring(fd, bk, t[s].ring) && t[s].lead in t[s].ring
  {
    assert RingOk(m, fd, bk, index, t, s);
  }

  lemma SmallSpot(h: Heads, fd: Field, bk: Field, smap: Binmap, b: Bins, least: int, i: int)
    requires SmallInv(h, fd, bk, smap, b, least) && 0 <= i < NSMALLBINS
    ensures |b| == NSMALLBINS && (Marked(smap, i) <==> b[i] != [])
    ensures b[i] != [] ==> Ring(fd, bk, BinRing(b, i)) && BinRing(b, i)[0] == SmallBinAt(i)
  {
    assert BinInv(h, fd, bk, smap, b, least, i);
  }

  /** bin_find: says whether the chunk is in the bin of its size. */
  method BinFind(m: Mstate, x: int) returns (found: bool)
    requires Valid(m) && x in m.heap
    ensures found <==> Kept(m.small, m.nodes, SizeAt(m.head, x), x)
  {
    hide ViewsExcept, BooksInv, TreesInv, SmallInv, TreeIndex, Ring, Marked;
    var size := SizeAt(m.head, x);
    ChunkAddress(m, {}, x);
    SizeMultiple(m, x);
    found := false;
    if size < MIN_LARGE_SIZE {
      var i := SmallIndex(size);
      SmallSpot(m.head, m.fd, m.bk, m.smallmap, m.small, m.leastAddr, i);
      if Marked(m.smallmap, i) {
        found := InRing(m, SmallBinAt(i), x, BinRing(m.small, i), 0);
      }
    } else {
      TreeIndexBrackets(size);
      found := TreeFind(m, x, size, TreeIndex(size));
    }
  }

  lemma SizeMultiple(m: Mstate, x: int)
    requires Valid(m) && x in m.heap
    ensures m.heap[x].size % 8 == 0 && m.heap[x].size >= 8
  {
    hide BinsInv, BooksInv;
    assert ChunkOk(m.head, m.foot, m.heap, x);
  }

  method TreeFind(m: Mstate, x: int, size: int, i: int) returns (found: bool)
    requires TreesOk(m) && MIN_LARGE_SIZE <= size && IsWord(size) && 0 <= i < NTREEBINS && i == TreeIndex(size)
    ensures found <==> Binned(m.nodes, size, x)
  {
    hide TreeIndex, RingsOk, Ring, Shr, Shl, Shl1, Bit, Indexed, LeftShift, BinWidth, Marked, Above, Shape;
    found := false;
    PathNone(TreeOf(m), m.nodes, i, size);
    BinArray(TreeOf(m), m.fd, m.bk, m.index, m.nodes, m.leastAddr);
    if Marked(m.treemap, i) {
      PathStart(TreeOf(m), m.nodes, i, size);
      var t := m.treebins[i];
      var sizebits := Shl(size, LeftShift(i), 64);
      while t != 0 && SizeAt(m.head, t) != size
        invariant t != 0 ==> OnPath(TreeOf(m), m.nodes, i, t, sizebits, size)
        invariant t == 0 ==> size !in m.nodes
        decreases if t == 0 then 0 else m.nodes[SizeAt(m.head, t)].w + 1
      {
        PathStep(TreeOf(m), m.nodes, i, t, sizebits, size);
        ghost var u, bits := t, sizebits;
        t := TreeOf(m).Child(Bit(sizebits, 63), t);
        if t == 0 {
          PathEnd(TreeOf(m), m.nodes, i, u, bits, size);
        }
        sizebits := Shl1(sizebits, 64);
      }
      if t != 0 {
        LeadSpot(TreeOf(m), m.fd, m.bk, m.index, m.nodes, m.leastAddr, size);
        ghost var ring := m.nodes[size].ring;
        ghost var j: nat :| j < |ring| && ring[j] == t;
        found := InRing(m, t, x, ring, j);
      }
    }
  }

  // ---- checks of one chunk

  /** is_mmapped. */
  predicate IsMmapped(m: Mstate, p: int)
    reads m`head, m`foot
  {
    !HeadAt(m.head, p).pinuse && At(m.foot, p) % 2 != 0
  }

  const FENCEPOST_HEAD: Head := Head(8, true, true)

  /** do_check_any_chunk. */
  method CheckAnyChunk(m: Mstate, p: int)
    requires Valid(m) && p in m.heap
  {
    hide BinsInv, ViewsExcept, BooksInv;
    ChunkAddress(m, {}, p);
    assert (p + 16) % 8 == 0;
    assert OkAddress(m, p);
  }

  lemma AroundInuse(m: Mstate, p: int)
    requires Valid(m) && p in m.heap && Inuse(m.heap[p].use) && m.heap[p].use != Fence
    ensures HeadAt(m.head, p) == Head(m.heap[p].size, true, HeadAt(m.head, p).pinuse)
    ensures HeadAt(m.head, p + m.heap[p].size).pinuse
    ensures !HeadAt(m.head, p).pinuse ==> At(m.foot, p) % 2 == 0 && SizeAt(m.head, p - At(m.foot, p)) == At(m.foot, p)
  {
    hide BinsInv, BooksInv, ViewsExcept;
    AroundUsed(WorldOf(m), p);
  }

  lemma AroundUsed(w: World, p: int)
    requires ViewsExcept(w, {}) && p in w.heap && Inuse(w.heap[p].use) && w.heap[p].use != Fence
    ensures HeadAt(w.head, p) == Head(w.heap[p].size, true, HeadAt(w.head, p).pinuse)
    ensures HeadAt(w.head, p + w.heap[p].size).pinuse
    ensures !HeadAt(w.head, p).pinuse ==> At(w.foot, p) % 2 == 0 && SizeAt(w.head, p - At(w.foot, p)) == At(w.foot, p)
  {
    hide IndexExcept, SegsInv, TopInv, Heap.Apart;
    assert ChunkOk(w.head, w.foot, w.heap, p);
    if !HeadAt(w.head, p).pinuse {
      var q := p - At(w.foot, p);
      assert ChunkOk(w.head, w.foot, w.heap, q) && w.heap[q] == Chunk(At(w.foot, p), Free);
      hide ViewsExcept;
      EvenSize(w.head, w.heap, q);
    }
  }

  lemma EvenSize(h: Heads, c: Chunks, q: int)
    requires q in c && HeadOk(h, c, q)
    ensures c[q].size % 2 == 0 && SizeAt(h, q) == c[q].size
  {
    EvenMultiple(c[q].size);
  }

  /** do_check_inuse_chunk. */
  method CheckInuseChunk(m: Mstate, p: int)
    requires Valid(m) && p in m.heap && Inuse(m.heap[p].use) && m.heap[p].use != Fence
  {
    hide Valid;
    CheckAnyChunk(m, p);
    AroundInuse(m, p);
    assert HeadAt(m.head, p).cinuse;
    assert HeadAt(m.head, p + SizeAt(m.head, p)).pinuse;
    var prev := p - At(m.foot, p);
    assert IsMmapped(m, p) || HeadAt(m.head, p).pinuse || prev + SizeAt(m.head, prev) == p;
    assert !IsMmapped(m, p);
  }

  lemma AroundFree(m: Mstate, p: int)
    requires Valid(m) && p in m.heap && m.heap[p].use == Free
    ensures HeadAt(m.head, p) == Head(m.heap[p].size, false, true) && m.heap[p].size >= MIN_CHUNK_SIZE && m.heap[p].size % 8 == 0
    ensures var n := p + m.heap[p].size;
      n in m.heap && !HeadAt(m.head, n).pinuse && HeadAt(m.head, n).cinuse && At(m.foot, n) == m.heap[p].size
      && Inuse(m.heap[n].use) && m.heap[n].use != Fence
    ensures p != m.dv ==> Kept(m.small, m.nodes, m.heap[p].size, p)
  {
    hide BinsInv, BooksInv, SegsInv, TopInv, Kept;
    assert ChunkOk(m.head, m.foot, m.heap, p);
    assert ChunkOk(m.head, m.foot, m.heap, p + m.heap[p].size);
    assert FreeAt(m.heap, m.heap[p].size, p);
  }

  /** The links of a chunk in a bin lead there and back. */
  lemma LinksMeet(m: Mstate, s: int, x: int)
    requires BinsOk(m) && Kept(m.small, m.nodes, s, x)
    ensures At(m.bk, At(m.fd, x)) == x && At(m.fd, At(m.bk, x)) == x
  {
    if s < MIN_LARGE_SIZE {
      var i := s / 8;
      assert BinInv(m.head, m.fd, m.bk, m.smallmap, m.small, m.leastAddr, i);
      hide Ring;
      RingNeighbours(m.fd, m.bk, BinRing(m.small, i), x);
    } else {
      assert RingOk(TreeOf(m), m.fd, m.bk, m.index, m.nodes, s);
      hide Ring;
      RingNeighbours(m.fd, m.bk, m.nodes[s].ring, x);
    }
  }

  /** do_check_free_chunk. */
  method CheckFreeChunk(m: Mstate, p: int)
    requires Valid(m) && p in m.heap && m.heap[p].use == Free
  {
    hide BinsInv, ViewsExcept, BooksInv, Kept;
    CheckAnyChunk(m, p);
    AroundFree(m, p);
    var sz := SizeAt(m.head, p);
    var next := p + sz;
    assert !HeadAt(m.head, p).cinuse;
    assert !HeadAt(m.head, next).pinuse;
    assert !IsMmapped(m, p);
    if p != m.dv && p != m.top {
      assert sz >= MIN_CHUNK_SIZE;
      assert sz % 8 == 0;
      ChunkAddress(m, {}, p);
      assert (p + 16) % 8 == 0;
      assert At(m.foot, next) == sz;
      assert HeadAt(m.head, p).pinuse;
      assert next == m.top || HeadAt(m.head, next).cinuse;
      LinksMeet(m, sz, p);
      assert At(m.bk, At(m.fd, p)) == p;
      assert At(m.fd, At(m.bk, p)) == p;
    }
  }

  lemma AroundTop(m: Mstate)
    requires Valid(m) && m.top != 0
    ensures m.top in m.heap && m.heap[m.top] == Chunk(m.topsize, Top) && m.topsize > 0
    ensures HeadAt(m.head, m.top) == Head(m.topsize, false, true) && !HeadAt(m.head, m.top + m.topsize).pinuse
    ensures RecordsOk(m.segBase, m.segSize, m.segNext, m.segs) && |m.segs| > 0 && m.segs[0].rec == SEG_HEAD
    ensures m.segs[0].base <= m.top < m.segs[0].end && m.top + m.topsize + TOP_FOOT_SIZE == m.segs[0].end
  {
    hide BinsInv, IndexExcept, RecordsOk, TotalSize;
    assert ChunkOk(m.head, m.foot, m.heap, m.top) && ChunkOk(m.head, m.foot, m.heap, m.top + m.topsize);
    RecordReads(m.segBase, m.segSize, m.segNext, m.segs, 0);
  }

  /** do_check_top_chunk. */
  method CheckTopChunk(m: Mstate)
    requires Valid(m) && m.top != 0
  {
    hide BinsInv, ViewsExcept, BooksInv;
    var p := m.top;
    AroundTop(m);
    hide RecordsOk;
    var sp, k := SegmentHolding(m, p);
    assert k == 0;
    RecordReads(m.segBase, m.segSize, m.segNext, m.segs, 0);
    var sz := SizeAt(m.head, p);
    assert sp != 0;
    CheckAnyChunk(m, p);
    assert sz == m.topsize;
    assert sz > 0;
    assert sz == At(m.segBase, sp) + At(m.segSize, sp) - p - TOP_FOOT_SIZE;
    assert HeadAt(m.head, p).pinuse;
    assert !HeadAt(m.head, p + sz).pinuse;
  }

  // ---- checks of the bins

  /** What the checks of the node of size `s` look at. */
  lemma NodeFacts(m: Tree, t: Nodes, s: int)
    requires Shape(m, t) && s in t
    ensures s >= MIN_LARGE_SIZE && IsWord(s) && t[s].lead > 0 && m.Size(t[s].lead) == s
    ensures var u := t[s].lead;
      var p, c0, c1 := At(m.parent, u), m.Child(0, u), m.Child(1, u);
      && 0 <= t[s].bin < NTREEBINS && |m.bins| == NTREEBINS && p != 0 && p != u
      && (m.Child(0, p) == u || m.Child(1, p) == u || (p == TreeBinAt(t[s].bin) && m.bins[t[s].bin] == u))
      && (c0 != 0 ==> At(m.parent, c0) == u && c0 != u && m.Size(c0) in t && t[m.Size(c0)].lead == c0 && t[m.Size(c0)].w < t[s].w)
      && (c1 != 0 ==> At(m.parent, c1) == u && c1 != u && m.Size(c1) in t && t[m.Size(c1)].lead == c1 && t[m.Size(c1)].w < t[s].w)
  {
    assert NodeOk(m, t, s) && UpOk(m, t, s) && DownOk(m, t, s, 0) && DownOk(m, t, s, 1);
    hide Shape, Shr, Bit;
    var p := At(m.parent, t[s].lead);
    if t[s].w != BinWidth(t[s].bin) {
      assert m.Child(Bit(s, t[s].w), p) == t[s].lead;
    }
  }

  /** The left subtree holds the smaller sizes. */
  lemma ChildrenOrdered(m: Tree, t: Nodes, s: int)
    requires Shape(m, t) && s in t && m.Child(0, t[s].lead) != 0 && m.Child(1, t[s].lead) != 0
    ensures m.Size(m.Child(0, t[s].lead)) < m.Size(m.Child(1, t[s].lead))
  {
    assert NodeOk(m, t, s) && DownOk(m, t, s, 0) && DownOk(m, t, s, 1);
    BitOrder(m.Size(m.Child(0, t[s].lead)), m.Size(m.Child(1, t[s].lead)), t[s].w - 1);
  }

  /** What the checks of a member of the ring of size `s` look at. */
  lemma MemberFacts(m: Mstate, s: int, u: int)
    requires Valid(m) && s in m.nodes && u in m.nodes[s].ring
    ensures u in m.heap && m.heap[u] == Chunk(s, Free) && At(m.index, u) == m.nodes[s].bin && u > 0
    ensures s >= 0 && m.nodes[s].bin == TreeIndex(s)
    ensures u != m.nodes[s].lead ==> At(m.parent, u) == 0 && At(m.child0, u) == 0 && At(m.child1, u) == 0
    ensures At(m.bk, At(m.fd, u)) == u && At(m.fd, At(m.bk, u)) == u
  {
    hide ViewsExcept, BooksInv, TreeIndex;
    assert RingOk(TreeOf(m), m.fd, m.bk, m.index, m.nodes, s);
    KeptLarge(m.head, BinsOf(m), s);
    LinksMeet(m, s, u);
    hide BinsInv;
    KeptAreFree(WorldOf(m), s, u);
  }

  lemma KeptAreFree(w: World, s: int, u: int)
    requires ViewsExcept(w, {}) && Kept(w.small, w.nodes, s, u)
    ensures FreeAt(w.heap, s, u)
  {
    hide Phys, SegsInv, TopInv, Kept;
  }

  lemma NodeChecks(m: Mstate, s: int)
    requires Valid(m) && s in m.nodes
    ensures Shape(TreeOf(m), m.nodes) && Ring(m.fd, m.bk, m.nodes[s].ring) && m.nodes[s].lead in m.nodes[s].ring
    ensures forall k {:trigger m.nodes[k]} :: k in m.nodes ==> k >= 0
  {
    hide ViewsExcept, BooksInv;
    assert RingOk(TreeOf(m), m.fd, m.bk, m.index, m.nodes, s);
    forall k {:trigger m.nodes[k]} | k in m.nodes
      ensures k >= 0
    {
      KeptLarge(m.head, BinsOf(m), k);
    }
  }

  /** do_check_tree. */
  method CheckTree(m: Mstate, t: int, ghost s: int)
    requires Valid(m) && s in m.nodes && m.nodes[s].lead == t
    decreases m.nodes[s].w
  {
    hide Valid, Shape, Ring, TreeIndex;
    NodeChecks(m, s);
    NodeFacts(TreeOf(m), m.nodes, s);
    MemberFacts(m, s, t);
    TreeIndexBrackets(s);
    var tindex := At(m.index, t);
    var tsize := SizeAt(m.head, t);
    var idx := TreeIndex(tsize);
    assert tindex == idx;
    assert tsize >= MIN_LARGE_SIZE;
    assert tsize >= MinSize(idx);
    assert idx == NTREEBINS - 1 || tsize < MinSize(idx + 1);
    var head, u := 0, t;
    ghost var ring := m.nodes[s].ring;
    ghost var j: nat :| j < |ring| && ring[j] == t;
    ghost var k: nat := 0;
    while true
      invariant k < |ring| && u == ring[StepsOn(j, k, |ring|)]
      invariant head == (if k == 0 then 0 else t)
      decreases |ring| - k
    {
      CheckTreeChunk(m, u, t, tindex, tsize, s);
      if k > 0 {
        NotLead(m, s, j, k);
      }
      if At(m.parent, u) == 0 {
        assert At(m.child0, u) == 0;
        assert At(m.child1, u) == 0;
      } else {
        assert head == 0;
        head := u;
        CheckTreeLinks(m, u, s);
      }
      StepsOnNext(j, k, |ring|);
      RingStep(m.fd, m.bk, ring, StepsOn(j, k, |ring|));
      u := At(m.fd, u);
      if u == t {
        break;
      }
      k := k + 1;
    }
    assert head != 0;
  }

  lemma NotLead(m: Mstate, s: int, j: nat, k: nat)
    requires Valid(m) && s in m.nodes && j < |m.nodes[s].ring| && 0 < k < |m.nodes[s].ring| && m.nodes[s].ring[j] == m.nodes[s].lead
    ensures var u := m.nodes[s].ring[StepsOn(j, k, |m.nodes[s].ring|)];
      u != m.nodes[s].lead && At(m.parent, u) == 0 && At(m.child0, u) == 0 && At(m.child1, u) == 0
  {
    hide Valid, TreeIndex;
    var u := m.nodes[s].ring[StepsOn(j, k, |m.nodes[s].ring|)];
    NodeChecks(m, s);
    MemberFacts(m, s, u);
  }

  /** The checks that do_check_tree makes of every chunk of a ring. */
  method CheckTreeChunk(m: Mstate, u: int, t: int, tindex: int, tsize: int, ghost s: int)
    requires Valid(m) && s in m.nodes && u in m.nodes[s].ring && tsize == s && tindex == m.nodes[s].bin
  {
    hide Valid, TreeIndex;
    MemberFacts(m, s, u);
    AroundFree(m, u);
    CheckAnyChunk(m, u);
    assert At(m.index, u) == tindex;
    assert SizeAt(m.head, u) == tsize;
    assert !HeadAt(m.head, u).cinuse;
    assert !HeadAt(m.head, u + tsize).pinuse;
    assert At(m.bk, At(m.fd, u)) == u;
    assert At(m.fd, At(m.bk, u)) == u;
  }

  /** The part of do_check_tree about the one chunk of the ring that has a parent. */
  method CheckTreeLinks(m: Mstate, u: int, ghost s: int)
    requires Valid(m) && s in m.nodes && u == m.nodes[s].lead
    decreases m.nodes[s].w, 0
  {
    hide Valid, Shape, Ring, Tree.Child;
    NodeChecks(m, s);
    NodeFacts(TreeOf(m), m.nodes, s);
    ChildrenOf(m, u);
    var parent := At(m.parent, u);
    assert parent != u;
    assert At(m.child0, parent) == u || At(m.child1, parent) == u
        || (parent == TreeBinAt(At(m.index, u)) && m.treebins[At(m.index, u)] == u) by {
      ChildrenOf(m, parent);
      IndexOfLead(m, s);
    }
    var c0, c1 := At(m.child0, u), At(m.child1, u);
    if c0 != 0 {
      assert At(m.parent, c0) == u;
      assert c0 != u;
      CheckTree(m, c0, SizeAt(m.head, c0));
    }
    if c1 != 0 {
      assert At(m.parent, c1) == u;
      assert c1 != u;
      CheckTree(m, c1, SizeAt(m.head, c1));
    }
    if c0 != 0 && c1 != 0 {
      ChildrenOrdered(TreeOf(m), m.nodes, s);
      assert SizeAt(m.head, c0) < SizeAt(m.head, c1);
    }
  }

  lemma ChildrenOf(m: Mstate, u: int)
    ensures TreeOf(m).Child(0, u) == At(m.child0, u) && TreeOf(m).Child(1, u) == At(m.child1, u)
  {}

  lemma IndexOfLead(m: Mstate, s: int)
    requires Valid(m) && s in m.nodes
    ensures At(m.index, m.nodes[s].lead) == m.nodes[s].bin
  {
    hide Valid, TreeIndex;
    NodeChecks(m, s);
    MemberFacts(m, s, m.nodes[s].lead);
  }

  lemma BinFacts(m: Mstate, i: int)
    requires Valid(m) && 0 <= i < NTREEBINS
    ensures |m.treebins| == NTREEBINS && (Marked(m.treemap, i) <==> m.treebins[i] != 0)
    ensures m.treebins[i] != 0 ==>
      SizeAt(m.head, m.treebins[i]) in m.nodes && m.nodes[SizeAt(m.head, m.treebins[i])].lead == m.treebins[i]
  {
    hide ViewsExcept, BooksInv, Marked;
    assert BinOk(TreeOf(m), m.nodes, i);
  }

  /** do_check_treebin. */
  method CheckTreebin(m: Mstate, i: int)
    requires Valid(m) && 0 <= i < NTREEBINS
  {
    hide Valid, Marked;
    BinFacts(m, i);
    var t := m.treebins[i];
    var empty := !Marked(m.treemap, i);
    if t == 0 {
      assert empty;
    }
    if !empty {
      CheckTree(m, t, SizeAt(m.head, t));
    }
  }

  /** A marked small bin, from its end. */
  lemma SmallbinFacts(m: Mstate, i: int)
    requires Valid(m) && 0 <= i < NSMALLBINS
    ensures |m.small| == NSMALLBINS && (Marked(m.smallmap, i) <==> m.small[i] != [])
    ensures m.small[i] != [] ==> Ring(m.fd, m.bk, BinRing(m.small, i)) && |BinRing(m.small, i)| == |m.small[i]| + 1
    ensures forall x {:trigger x in m.small[i]} :: x in m.small[i] ==> x in m.heap && m.heap[x] == Chunk(8 * i, Free) && x > 0
  {
    hide ViewsExcept, BooksInv, Marked;
    assert BinInv(m.head, m.fd, m.bk, m.smallmap, m.small, m.leastAddr, i);
    forall x {:trigger x in m.small[i]} | x in m.small[i]
      ensures x in m.heap && m.heap[x] == Chunk(8 * i, Free) && x > 0
    {
      assert Kept(m.small, m.nodes, 8 * i, x);
      KeptAreFree(WorldOf(m), 8 * i, x);
    }
  }

  lemma RingBack(fd: Field, bk: Field, ring: seq<int>, i: nat)
    requires Ring(fd, bk, ring) && i < |ring|
    ensures At(bk, ring[i]) == ring[if i == 0 then |ring| - 1 else i - 1]
  {
    var p := if i == 0 then |ring| - 1 else i - 1;
    assert Next(p, |ring|) == i && At(bk, ring[Next(p, |ring|)]) == ring[p];
  }

  /** do_check_smallbin. */
  method CheckSmallbin(m: Mstate, i: int)
    requires Valid(m) && 0 <= i < NSMALLBINS
  {
    hide Valid, Marked, Ring;
    SmallbinFacts(m, i);
    var b := SmallBinAt(i);
    var p := At(m.bk, b);
    var empty := !Marked(m.smallmap, i);
    ghost var ring := BinRing(m.small, i);
    if !empty {
      RingBack(m.fd, m.bk, ring, 0);
      assert ring[|ring| - 1] == m.small[i][|m.small[i]| - 1];
      assert p in m.small[i];
    }
    if p == b {
      assert empty;
    }
    if !empty {
      ghost var k := |ring| - 1;
      while p != b
        invariant 0 <= k < |ring| && p == ring[k]
        decreases k
      {
        RingBack(m.fd, m.bk, ring, k);
        assert k > 0 && p == m.small[i][k - 1];
        CheckSmallChunk(m, p, b, i);
        p := At(m.bk, p);
        k := k - 1;
      }
    }
  }

  lemma BackIsMate(m: Mstate, i: int, p: int)
    requires Valid(m) && 0 <= i < NSMALLBINS && |m.small| == NSMALLBINS && p in m.small[i]
    ensures At(m.bk, p) == SmallBinAt(i) || At(m.bk, p) in m.small[i]
  {
    hide ViewsExcept, BooksInv, Ring;
    assert BinInv(m.head, m.fd, m.bk, m.smallmap, m.small, m.leastAddr, i);
    RingNeighbours(m.fd, m.bk, BinRing(m.small, i), p);
  }

  /** The checks of one chunk of a small bin. */
  method CheckSmallChunk(m: Mstate, p: int, b: int, i: int)
    requires Valid(m) && 0 <= i < NSMALLBINS && |m.small| == NSMALLBINS && p in m.small[i] && b == SmallBinAt(i)
  {
    hide Valid, Marked, Ring;
    SmallbinFacts(m, i);
    CheckFreeChunk(m, p);
    AroundFree(m, p);
    var size := SizeAt(m.head, p);
    assert SmallIndex(size) == i;
    BackIsMate(m, i, p);
    var bk := At(m.bk, p);
    if bk in m.heap {
      SizeOfChunk(m, bk);
    }
    assert bk == b || SizeAt(m.head, bk) == SizeAt(m.head, p);
    var q := p + size;
    if HeadAt(m.head, q) != FENCEPOST_HEAD {
      CheckInuseChunk(m, q);
    }
  }

  lemma SizeOfChunk(m: Mstate, x: int)
    requires Valid(m) && x in m.heap
    ensures SizeAt(m.head, x) == m.heap[x].size && x > 0
  {
    hide BinsInv, ViewsExcept, BooksInv;
    ChunkAddress(m, {}, x);
  }

  // ---- the traversal of all chunks

  /** Where the walk through segment `i` stops: at top, or at the first fencepost. */
  ghost function StopAt(w: World, i: int): int
    requires 0 <= i < |w.segs|
  {
    if i == 0 then w.top else w.segs[i].rec - 16 + RECORD_SIZE
  }

  ghost predicate Walked(u: Use) {
    u == Live || u == Free || u == Record
  }

  /** What the walk through segment `i` meets at `x`. */
  lemma WalkMeets(w: World, i: int, x: int)
    requires ViewsExcept(w, {}) && w.top != 0 && 0 <= i < |w.segs| && x in w.heap && w.segs[i].base <= x < StopAt(w, i)
    ensures var c := w.heap;
      && Walked(c[x].use) && HasNext(c[x].use) && c[x].size >= MIN_CHUNK_SIZE && HeadAt(w.head, x).size == c[x].size && x > 0
      && HeadAt(w.head, x).cinuse == (c[x].use != Free) && x != w.top
      && x + c[x].size in c && x + c[x].size <= StopAt(w, i)
      && Follows(c[x].use, c[x + c[x].size].use)
  {
    var c := w.heap;
    assert ChunkOk(w.head, w.foot, c, x);
    if i == 0 {
      NewestEnds(w);
      NewestTop(w);
      assert x + c[x].size <= w.top;
    } else {
      TailFacts(w, i);
      TopElsewhere(w, i);
      var r := w.segs[i].rec - 16;
      assert x < r || x == r || x > r;
    }
  }

  /** Where the walk starts and stops. */
  lemma WalkEnds(w: World, i: int)
    requires ViewsExcept(w, {}) && w.top != 0 && 0 <= i < |w.segs|
    ensures var g, e := w.segs[i], StopAt(w, i);
      && g.base in w.heap && g.base > 0 && HeadAt(w.head, g.base).pinuse && g.base <= e < g.end && e in w.heap
      && (i == 0 ==> e == w.top)
      && (i > 0 ==> HeadAt(w.head, e) == FENCEPOST_HEAD && e != w.top)
  {
    hide ViewsExcept, Without;
    var g := w.segs[i];
    BaseStands(w, i);
    if i == 0 {
      NewestEnds(w);
    } else {
      TailFacts(w, i);
      FenceSizes(w, i);
      TopElsewhere(w, i);
      TopStands(w);
      var r := g.rec - 16;
      ChunkStands(w, r);
      ChunkStands(w, r + RECORD_SIZE);
      assert w.heap[r + RECORD_SIZE] == Chunk(FENCE_SIZE, Fence);
    }
  }

  lemma ChunkStands(w: World, x: int)
    requires ViewsExcept(w, {}) && x in w.heap
    ensures ChunkOk(w.head, w.foot, w.heap, x)
  {
    hide ChunkOk;
  }

  lemma BaseStands(w: World, i: int)
    requires ViewsExcept(w, {}) && w.top != 0 && 0 <= i < |w.segs|
    ensures BaseOk(w.head, w.heap, w.segs[i])
  {
    hide BaseOk;
  }

  lemma TopStands(w: World)
    requires ViewsExcept(w, {}) && w.top != 0
    ensures w.top in w.heap && w.heap[w.top] == Chunk(w.topsize, Top)
  {}

  /** The bytes of the chunks met so far. */
  ghost function Met(c: Chunks, a: int, b: int): int {
    Held(c, a, b, Live) + Held(c, a, b, Free) + Held(c, a, b, Record)
  }

  lemma MetStep(c: Chunks, a: int, q: int)
    requires Tiles(c, a, q) && q in c && c[q].size > 0 && Walked(c[q].use)
    ensures Tiles(c, a, q + c[q].size) && Met(c, a, q + c[q].size) == Met(c, a, q) + c[q].size
  {
    var b := q + c[q].size;
    assert Tiles(c, b, b) && Tiles(c, q, b);
    TilesJoin(c, a, q, b);
    assert Held(c, a, b, Live) == Held(c, a, q, Live) + Held(c, q, b, Live);
    assert Held(c, a, b, Free) == Held(c, a, q, Free) + Held(c, q, b, Free);
    assert Held(c, a, b, Record) == Held(c, a, q, Record) + Held(c, q, b, Record);
    assert Held(c, b, b, Live) == 0 && Held(c, b, b, Free) == 0 && Held(c, b, b, Record) == 0;
  }

  /** What the segments from `i` on keep in blocks and free chunks, less what those from `i + 1` on keep. */
  lemma MetAll(w: World, i: int)
    requires ViewsExcept(w, {}) && w.top != 0 && 0 <= i < |w.segs| && Tiles(w.heap, w.segs[i].base, StopAt(w, i))
    ensures Met(w.heap, w.segs[i].base, StopAt(w, i))
         == Stock(w.heap, w.segs, i) - Stock(w.heap, w.segs, i + 1) + (if i == 0 then 0 else RECORD_SIZE)
  {
    hide ViewsExcept, Tiles, Held;
    if i == 0 {
      MetNewest(w);
    } else {
      MetOlder(w, i);
    }
    StockStep(w.heap, w.segs, i);
  }

  lemma StockStep(c: Chunks, segs: seq<Seg>, i: nat)
    requires i < |segs|
    ensures Stock(c, segs, i) - Stock(c, segs, i + 1)
         == Held(c, segs[i].base, TilesEnd(segs, i), Live) + Held(c, segs[i].base, TilesEnd(segs, i), Free)
  {}

  lemma MetNewest(w: World)
    requires ViewsExcept(w, {}) && w.top != 0 && |w.segs| > 0 && Tiles(w.heap, w.segs[0].base, w.top)
    ensures Met(w.heap, w.segs[0].base, w.top)
         == Held(w.heap, w.segs[0].base, w.segs[0].end, Live) + Held(w.heap, w.segs[0].base, w.segs[0].end, Free)
  {
    hide ViewsExcept, Interior;
    var c, g, t := w.heap, w.segs[0], w.top + w.topsize;
    NewestEnds(w);
    assert Tiles(c, g.end, g.end) && Tiles(c, t, g.end) && Tiles(c, w.top, g.end);
    hide Tiles, Held;
    RecordsUpTo(c, g.base, w.top, t);
    Splits(c, g.base, w.top, g.end);
    TopOnly(c, w.top, t, g.end);
  }

  lemma MetOlder(w: World, i: int)
    requires ViewsExcept(w, {}) && w.top != 0 && 0 < i < |w.segs| && Tiles(w.heap, w.segs[i].base, StopAt(w, i))
    ensures Met(w.heap, w.segs[i].base, StopAt(w, i))
         == Held(w.heap, w.segs[i].base, w.segs[i].end - 8, Live) + Held(w.heap, w.segs[i].base, w.segs[i].end - 8, Free)
            + RECORD_SIZE
  {
    hide ViewsExcept, Interior, Tiles, Held, FencesFill;
    var c, g, e := w.heap, w.segs[i], StopAt(w, i);
    OlderConserved(w, i);
    TailFacts(w, i);
    FenceSizes(w, i);
    FencesTile(c, e, e, g.end);
    Splits(c, g.base, e, g.end - 8);
    NoneHeld(c, e, g.end - 8, Live);
    NoneHeld(c, e, g.end - 8, Free);
    NoneHeld(c, e, g.end - 8, Record);
    RecordBytes(w, i);
  }

  lemma Splits(c: Chunks, a: int, x: int, b: int)
    requires Tiles(c, a, x) && Tiles(c, x, b)
    ensures Held(c, a, b, Live) == Held(c, a, x, Live) + Held(c, x, b, Live)
    ensures Held(c, a, b, Free) == Held(c, a, x, Free) + Held(c, x, b, Free)
    ensures Held(c, a, b, Record) == Held(c, a, x, Record) + Held(c, x, b, Record)
  {
    TilesJoin(c, a, x, b);
  }

  lemma RecordsUpTo(c: Chunks, a: int, x: int, b: int)
    requires Interior(c, a, b) && x <= b
    ensures Held(c, a, x, Record) == 0
  {
    NoneHeld(c, a, x, Record);
  }

  lemma TopOnly(c: Chunks, top: int, t: int, e: int)
    requires top in c && t in c && c[top] == Chunk(t - top, Top) && c[t] == Chunk(e - t, Trailer) && top < t < e
    ensures Held(c, top, e, Live) == 0 && Held(c, top, e, Free) == 0
  {
    assert Held(c, e, e, Live) == 0 && Held(c, e, e, Free) == 0;
    assert Held(c, t, e, Live) == 0 && Held(c, t, e, Free) == 0;
  }

  lemma RecordBytes(w: World, i: int)
    requires ViewsExcept(w, {}) && w.top != 0 && 0 < i < |w.segs| && Tiles(w.heap, w.segs[i].base, w.segs[i].end - 8)
    ensures Held(w.heap, w.segs[i].base, w.segs[i].end - 8, Record) == RECORD_SIZE
  {
    hide ViewsExcept;
    var c, g := w.heap, w.segs[i];
    TailTiles(w, i);
    InteriorTiles(w, g.base, g.base, g.rec - 16);
    InteriorHeld(c, g.base, g.rec - 16);
    Splits(c, g.base, g.rec - 16, g.end - 8);
  }

  /** The checks of one chunk in the traversal. */
  method CheckWalked(m: Mstate, q: int, lastq: int)
    requires Valid(m) && q in m.heap && Walked(m.heap[q].use) && HeadAt(m.head, q).cinuse == (m.heap[q].use != Free)
    requires lastq != 0 && m.heap[q].use == Free ==> HeadAt(m.head, lastq).cinuse
    requires q != m.top
  {
    hide Valid, Kept;
    var found := BinFind(m, q);
    SizeOfChunk(m, q);
    if HeadAt(m.head, q).cinuse {
      InuseNotKept(m, q);
      assert !found;
      CheckInuseChunk(m, q);
    } else {
      AroundFree(m, q);
      assert q == m.dv || found;
      assert lastq == 0 || HeadAt(m.head, lastq).cinuse;
      CheckFreeChunk(m, q);
    }
  }

  lemma InuseNotKept(m: Mstate, q: int)
    requires Valid(m) && q in m.heap && m.heap[q].use != Free
    ensures forall s :: !Kept(m.small, m.nodes, s, q)
  {
    hide BinsInv, BooksInv, Kept;
    hide Phys, SegsInv, TopInv;
  }

  /** The inner loop: all chunks of segment `i`. */
  method TraverseSegment(m: Mstate, sp: int, ghost i: int) returns (sum: int)
    requires Valid(m) && m.top != 0 && 0 <= i < |m.segs|
    requires At(m.segBase, sp) == m.segs[i].base && At(m.segBase, sp) + At(m.segSize, sp) == m.segs[i].end
    ensures sum == Stock(m.heap, m.segs, i) - Stock(m.heap, m.segs, i + 1) + (if i == 0 then 0 else RECORD_SIZE)
  {
    hide BinsInv, ViewsExcept, BooksInv, Tiles, Met, Follows;
    sum := 0;
    var q := At(m.segBase, sp);
    var lastq := 0;
    ghost var w, base := WorldOf(m), q;
    WalkEnds(w, i);
    assert HeadAt(m.head, q).pinuse;
    NothingMet(m.heap, base);
    while At(m.segBase, sp) <= q < At(m.segBase, sp) + At(m.segSize, sp) && q != m.top && HeadAt(m.head, q) != FENCEPOST_HEAD
      invariant q in m.heap && base <= q <= StopAt(w, i) && Tiles(m.heap, base, q) && sum == Met(m.heap, base, q)
      invariant lastq != 0 ==> lastq in m.heap && HasNext(m.heap[lastq].use) && Follows(m.heap[lastq].use, m.heap[q].use)
                               && HeadAt(m.head, lastq).cinuse == (m.heap[lastq].use != Free)
      decreases StopAt(w, i) - q
    {
      assert q < StopAt(w, i);
      WalkMeets(w, i, q);
      sum := sum + SizeAt(m.head, q);
      if lastq != 0 {
        NotBothFree(m.heap, lastq, q);
      }
      CheckWalked(m, q, lastq);
      MetStep(m.heap, base, q);
      lastq := q;
      q := q + SizeAt(m.head, q);
    }
    if q < StopAt(w, i) {
      WalkMeets(w, i, q);
      assert false;
    }
    MetAll(w, i);
  }

  lemma NotBothFree(c: Chunks, p: int, q: int)
    requires p in c && q in c && Follows(c[p].use, c[q].use)
    ensures c[q].use == Free ==> c[p].use != Free
  {}

  lemma NothingMet(c: Chunks, a: int)
    ensures Tiles(c, a, a) && Met(c, a, a) == 0
  {}

  /** traverse_and_check: everything but fenceposts and the last word of each older segment is found. */
  method TraverseAndCheck(m: Mstate) returns (sum: int)
    requires Valid(m)
    ensures m.top == 0 ==> sum == 0
    ensures m.top != 0 ==> sum == m.footprint - Posts(m.heap, m.segs, 1) - 8 * (|m.segs| - 1)
    ensures sum <= m.footprint
  {
    hide Valid, RecordsOk;
    sum := 0;
    if m.top != 0 {
      AroundTop(m);
      var s := SEG_HEAD;
      ghost var k := 0;
      sum := m.topsize + TOP_FOOT_SIZE;
      while s != 0
        invariant RecordOf(m.segs, s, k)
        invariant sum == m.topsize + TOP_FOOT_SIZE + Stock(m.heap, m.segs, 0) - Stock(m.heap, m.segs, k)
                         + RECORD_SIZE * (if k == 0 then 0 else k - 1)
        decreases |m.segs| - k
      {
        WalkStep(m, m.segs, s, k);
        var part := TraverseSegment(m, s, k);
        sum := sum + part;
        s := At(m.segNext, s);
        k := k + 1;
      }
      FootprintConserved(m);
      PostsPositive(m.heap, m.segs, 1);
    } else {
      NoFootprint(m);
    }
  }

  lemma {:induction false} PostsPositive(c: Chunks, segs: seq<Seg>, i: nat)
    ensures Posts(c, segs, i) >= 0
    decreases |segs| - i
  {
    if i < |segs| {
      HeldPositive(c, segs[i].base, segs[i].end - 8, Fence);
      PostsPositive(c, segs, i + 1);
    }
  }

  lemma {:induction false} HeldPositive(c: Chunks, a: int, b: int, u: Use)
    ensures Held(c, a, b, u) >= 0
    decreases b - a
  {
    if a < b && a in c && c[a].size > 0 {
      HeldPositive(c, a + c[a].size, b, u);
    }
  }

  lemma NoFootprint(m: Mstate)
    requires Valid(m) && m.top == 0
    ensures m.footprint == 0
  {
    hide BinsInv;
  }

  lemma DvFacts(m: Mstate)
    requires Valid(m) && m.dvsize != 0
    ensures m.dv in m.heap && m.heap[m.dv] == Chunk(m.dvsize, Free) && forall s :: !Kept(m.small, m.nodes, s, m.dv)
  {
    hide BinsInv, BooksInv, Phys, SegsInv, TopInv, Kept;
  }

  lemma MaxFootprint(m: Mstate)
    requires Valid(m)
    ensures m.footprint <= m.maxFootprint
  {
    hide BinsInv, ViewsExcept;
  }

  /** do_check_malloc_state: no check fails. */
  method CheckMallocState(m: Mstate)
    requires Valid(m)
  {
    hide Valid, Kept;
    for i := 0 to NSMALLBINS {
      CheckSmallbin(m, i);
    }
    for i := 0 to NTREEBINS {
      CheckTreebin(m, i);
    }
    if m.dvsize != 0 {
      DvFacts(m);
      SizeOfChunk(m, m.dv);
      AroundFree(m, m.dv);
      CheckAnyChunk(m, m.dv);
      assert m.dvsize == SizeAt(m.head, m.dv);
      assert m.dvsize >= MIN_CHUNK_SIZE;
      var found := BinFind(m, m.dv);
      assert !found;
    }
    if m.top != 0 {
      AroundTop(m);
      CheckTopChunk(m);
      assert m.topsize == SizeAt(m.head, m.top);
      assert m.topsize > 0;
      InuseNotKept(m, m.top);
      var found := BinFind(m, m.top);
      assert !found;
    }
    var total := TraverseAndCheck(m);
    MaxFootprint(m);
    assert total <= m.footprint;
    assert m.footprint <= m.maxFootprint;
  }
}
