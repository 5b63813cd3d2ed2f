/** Moving free chunks into the index and out of it, with the whole invariant around. */
module InOut {
  import opened Words
  import opened BinIndex
  import opened Rings
  import opened Trie
  import opened TriePaths
  import opened State
  import opened TreeBins
  import opened TreeUnlink
  import opened SmallBins
  import opened Index
  import opened Heap
  import opened Invariant
  import opened Taking
  import opened Payload

  /** Every chunk lies in a segment: its address is the allocator's and its size fits a word. */
  lemma ChunkAddress(m: Mstate, out: set<int>, x: int)
    requires ViewsExcept(WorldOf(m), out) && Books(m) && x in m.heap
    ensures m.top != 0 && x > 0 && x % 8 == 0 && x >= m.leastAddr && IsWord(m.heap[x].size) && x + m.heap[x].size < W64
    ensures HeadAt(m.head, x).size == m.heap[x].size
    ensures m.heap[x].use == Free ==> m.heap[x].size >= 32 && m.heap[x].size % 8 == 0
  {
    assert ChunkOk(m.head, m.foot, m.heap, x);
    assert Covered(m.heap, m.segs, x);
    var i :| 0 <= i < |m.segs| && InSeg(m.heap, m.segs[i], x);
    assert BaseOk(m.head, m.heap, m.segs[i]);
  }

  lemma OutOfIndex(c: Chunks, dv: int, dvsize: int, small: seq<seq<int>>, nodes: Nodes,
                   small': seq<seq<int>>, nodes': Nodes, out: set<int>, s: int, p: int)
    requires IndexExcept(c, dv, dvsize, small, nodes, out) && Kept(small, nodes, s, p)
    requires KeptRemoved(small, nodes, small', nodes', s, p)
    ensures IndexExcept(c, dv, dvsize, small', nodes', out + {p}) && FreeAt(c, s, p) && p != dv && p !in out
  {
    hide Kept;
    assert FreeAt(c, s, p);
  }

  lemma IntoIndex(c: Chunks, dv: int, dvsize: int, small: seq<seq<int>>, nodes: Nodes,
                  small': seq<seq<int>>, nodes': Nodes, out: set<int>, s: int, p: int)
    requires IndexExcept(c, dv, dvsize, small, nodes, out) && p in out && FreeAt(c, s, p) && p > 0
    requires KeptAdded(small, nodes, small', nodes', s, p)
    ensures IndexExcept(c, dv, dvsize, small', nodes', out - {p})
  {
    hide Kept;
    assert dvsize != 0 ==> dv !in out;
  }

  /** The designated victim leaves the index. */
  lemma DvOut(w: World, out: set<int>)
    requires ViewsExcept(w, out) && w.dvsize != 0
    ensures ViewsExcept(w.(dv := 0, dvsize := 0), out + {w.dv}) && FreeAt(w.heap, w.dvsize, w.dv) && w.dv !in out
  {
    assert ChunkOk(w.head, w.foot, w.heap, w.dv);
    forall x, s | FreeAt(w.heap, s, x)
      ensures x > 0
    {
      assert ChunkOk(w.head, w.foot, w.heap, x);
    }
    hide Kept, Phys, TopInv, SegsInv;
  }

  /** A free chunk becomes the designated victim. */
  lemma DvIn(w: World, out: set<int>, p: int, s: int)
    requires ViewsExcept(w, out) && w.dvsize == 0 && p in out && FreeAt(w.heap, s, p)
    ensures ViewsExcept(w.(dv := p, dvsize := s), out - {p}) && s != 0
  {
    assert ChunkOk(w.head, w.foot, w.heap, p);
    forall x, k | FreeAt(w.heap, k, x)
      ensures x > 0
    {
      assert ChunkOk(w.head, w.foot, w.heap, x);
    }
    hide Kept, Phys, TopInv, SegsInv;
  }

  /** What the bin operations write. */
  lemma KeptWrites(w: World, v: BinView, out: set<int>, a: Memory, b: Memory, s: int, p: int)
    requires ViewsExcept(w, out) && BinsInv(w.head, v) && v.small == w.small && v.nodes == w.nodes
    requires a.head == w.head && a.foot == w.foot && FreeAt(w.heap, s, p)
    requires LinkWrites(a, b, w.small, w.nodes, p, s)
    ensures Quiet(a, b, Lives(w.heap))
  {
    forall q | Kept(w.small, w.nodes, SizeAt(w.head, q), q)
      ensures FreeWord(w.heap, q)
    {
      assert FreeAt(w.heap, SizeAt(w.head, q), q);
    }
    forall q | Binned(w.nodes, SizeAt(w.head, q), q)
      ensures BigFreeWord(w.heap, q)
    {
      NoSmallKeys(w.head, v, SizeAt(w.head, q), q);
      assert Kept(w.small, w.nodes, SizeAt(w.head, q), q);
      assert FreeAt(w.heap, SizeAt(w.head, q), q);
    }
    assert FreeWord(w.heap, p) && (s >= MIN_LARGE_SIZE ==> BigFreeWord(w.heap, p));
    hide BinsInv, IndexExcept, TopInv, SegsInv, Kept, Binned;
    assert BinWrites(a, b, w.heap);
    hide BinWrites;
    BinWritesQuiet(a, b, w.heap);
  }

  /** Chunks in bins are free, and of a chunk size. */
  lemma KeptIsFree(m: Mstate, out: set<int>, s: int, p: int)
    requires ValidExcept(m, out) && Kept(m.small, m.nodes, s, p)
    ensures FreeAt(m.heap, s, p) && 32 <= s && s % 8 == 0
  {
    assert FreeAt(m.heap, s, p);
    hide Kept;
    ChunkAddress(m, out, p);
  }

  /** The bookkeeping around a removal from a bin. */
  lemma Detached(w: World, v: BinView, out: set<int>, a: Memory, b: Memory, small': seq<seq<int>>, nodes': Nodes, s: int, p: int)
    requires ViewsExcept(w, out) && BinsInv(w.head, v) && v.small == w.small && v.nodes == w.nodes
    requires a.head == w.head && a.foot == w.foot && Kept(w.small, w.nodes, s, p)
    requires LinkWrites(a, b, w.small, w.nodes, p, s) && KeptRemoved(w.small, w.nodes, small', nodes', s, p)
    ensures ViewsExcept(w.(small := small', nodes := nodes'), out + {p})
    ensures FreeAt(w.heap, s, p) && p != w.dv && p !in out && Quiet(a, b, Lives(w.heap))
  {
    hide Phys, SegsInv, TopInv, BinsInv, KeptRemoved, Kept, LinkWrites, IndexExcept;
    OutOfIndex(w.heap, w.dv, w.dvsize, w.small, w.nodes, small', nodes', out, s, p);
    KeptWrites(w, v, out, a, b, s, p);
  }

  lemma Attached(w: World, v: BinView, out: set<int>, a: Memory, b: Memory, small': seq<seq<int>>, nodes': Nodes, s: int, p: int)
    requires ViewsExcept(w, out) && BinsInv(w.head, v) && v.small == w.small && v.nodes == w.nodes
    requires a.head == w.head && a.foot == w.foot && p in out && FreeAt(w.heap, s, p) && p > 0
    requires LinkWrites(a, b, w.small, w.nodes, p, s) && KeptAdded(w.small, w.nodes, small', nodes', s, p)
    ensures ViewsExcept(w.(small := small', nodes := nodes'), out - {p})
    ensures Quiet(a, b, Lives(w.heap))
  {
    hide Phys, SegsInv, TopInv, BinsInv, KeptAdded, Kept, LinkWrites, IndexExcept;
    IntoIndex(w.heap, w.dv, w.dvsize, w.small, w.nodes, small', nodes', out, s, p);
    KeptWrites(w, v, out, a, b, s, p);
  }

  lemma NotKept(w: World, out: set<int>, s: int, p: int)
    requires ViewsExcept(w, out) && p in out
    ensures !Kept(w.small, w.nodes, s, p)
  {
    hide Kept, Phys, SegsInv, TopInv;
  }

  /** A chunk is taken out of its bin. */
  method Detach(m: Mstate, p: int, s: int, ghost out: set<int>)
    requires ValidExcept(m, out) && Kept(m.small, m.nodes, s, p)
    modifies m`fd, m`bk, m`child0, m`child1, m`parent, m`treebins, m`treemap, m`smallmap, m`small, m`nodes
    ensures ValidExcept(m, out + {p}) && FreeAt(m.heap, s, p) && p != m.dv && p !in out
    ensures Quiet(old(MemoryOf(m)), MemoryOf(m), Lives(m.heap))
  {
    hide BinsInv, Kept, KeptRemoved, ViewsExcept, Books, Quiet, LinkWrites;
    KeptIsFree(m, out, s, p);
    ghost var w, v, a := WorldOf(m), BinsOf(m), MemoryOf(m);
    UnlinkChunk(m, p, s);
    Detached(w, v, out, a, MemoryOf(m), m.small, m.nodes, s, p);
  }

  /** The first chunk of small bin `i` is taken out. */
  method DetachFirst(m: Mstate, b: int, p: int, i: int, ghost out: set<int>)
    requires ValidExcept(m, out)
    requires 4 <= i < NSMALLBINS && i < |m.small| && m.small[i] != [] && b == SmallBinAt(i) && p == At(m.fd, b)
    requires Kept(m.small, m.nodes, 8 * i, p)
    modifies m`fd, m`bk, m`smallmap, m`small
    ensures ValidExcept(m, out + {p}) && FreeAt(m.heap, 8 * i, p) && p != m.dv && p !in out
    ensures Quiet(old(MemoryOf(m)), MemoryOf(m), Lives(m.heap))
  {
    hide BinsInv, InBin, Binned, ViewsExcept, Books, Quiet, LinkWrites;
    ghost var w, v, a := WorldOf(m), BinsOf(m), MemoryOf(m);
    SmallKeys(m.head, v);
    UnlinkFirst(m, b, p, i);
    Detached(w, v, out, a, MemoryOf(m), m.small, m.nodes, 8 * i, p);
  }

  /** A large chunk is taken out of its tree. */
  method DetachLarge(m: Mstate, p: int, ghost s: int, ghost out: set<int>)
    requires ValidExcept(m, out) && Kept(m.small, m.nodes, s, p) && s >= MIN_LARGE_SIZE
    modifies m`fd, m`bk, m`child0, m`child1, m`parent, m`treebins, m`treemap, m`nodes
    ensures ValidExcept(m, out + {p}) && FreeAt(m.heap, s, p) && p != m.dv && p !in out
    ensures Quiet(old(MemoryOf(m)), MemoryOf(m), Lives(m.heap))
  {
    hide BinsInv, InBin, Binned, ViewsExcept, Books, Quiet, LinkWrites;
    ghost var w, v, a := WorldOf(m), BinsOf(m), MemoryOf(m);
    SmallKeys(m.head, v);
    UnlinkLarge(m, p, s);
    Detached(w, v, out, a, MemoryOf(m), m.small, m.nodes, s, p);
  }

  lemma SmallKeys(h: Heads, v: BinView)
    requires BinsInv(h, v)
    ensures forall s, x :: InBin(v.small, s, x) ==> s < MIN_LARGE_SIZE
    ensures forall s, x :: Binned(v.nodes, s, x) ==> s >= MIN_LARGE_SIZE
  {
    forall s, x
      ensures InBin(v.small, s, x) ==> s < MIN_LARGE_SIZE
      ensures Binned(v.nodes, s, x) ==> s >= MIN_LARGE_SIZE
    {
      NoSmallKeys(h, v, s, x);
    }
  }

  /** A free chunk is put into its bin. */
  method Attach(m: Mstate, p: int, s: int, ghost out: set<int>)
    requires ValidExcept(m, out) && p in out && FreeAt(m.heap, s, p)
    modifies m`fd, m`bk, m`child0, m`child1, m`parent, m`index, m`treebins, m`treemap, m`smallmap, m`small, m`nodes
    ensures ValidExcept(m, out - {p})
    ensures Quiet(old(MemoryOf(m)), MemoryOf(m), Lives(m.heap))
  {
    hide BinsInv, Kept, KeptAdded, ViewsExcept, Books, Quiet, LinkWrites;
    ChunkAddress(m, out, p);
    NotKept(WorldOf(m), out, s, p);
    ghost var w, v, a := WorldOf(m), BinsOf(m), MemoryOf(m);
    InsertChunk(m, p, s);
    Attached(w, v, out, a, MemoryOf(m), m.small, m.nodes, s, p);
  }

  /** A large free chunk is put into its tree. */
  method AttachLarge(m: Mstate, p: int, s: int, ghost out: set<int>)
    requires ValidExcept(m, out) && p in out && FreeAt(m.heap, s, p) && s >= MIN_LARGE_SIZE
    modifies m`fd, m`bk, m`child0, m`child1, m`parent, m`index, m`treebins, m`treemap, m`nodes
    ensures ValidExcept(m, out - {p})
    ensures Quiet(old(MemoryOf(m)), MemoryOf(m), Lives(m.heap))
  {
    hide BinsInv, InBin, Binned, ViewsExcept, Books, Quiet, LinkWrites;
    ChunkAddress(m, out, p);
    NotKept(WorldOf(m), out, s, p);
    ghost var w, v, a := WorldOf(m), BinsOf(m), MemoryOf(m);
    SmallKeys(m.head, v);
    InsertLarge(m, p, s);
    Attached(w, v, out, a, MemoryOf(m), m.small, m.nodes, s, p);
  }
}
