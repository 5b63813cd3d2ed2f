/** The index of free chunks: small bins and tree bins together, and the designated victim. */
module Index {
  import opened Words
  import opened BinIndex
  import opened BinMaps
  import opened Rings
  import opened Trie
  import opened TriePaths
  import opened State
  import opened TreeBins
  import opened TreeUnlink
  import opened SmallBins

  /** Everything about the bins except the head words. */
  datatype BinView = BinView(fd: Field, bk: Field, child0: Field, child1: Field, parent: Field, index: Field,
                             treebins: seq<int>, treemap: Binmap, smallmap: Binmap,
                             small: seq<seq<int>>, nodes: Nodes, least: int)
  {
    ghost function TreeWith(h: Heads): Tree {
      Tree(h, child0, child1, parent, treebins, treemap)
    }
  }

  ghost function BinsOf(m: Mstate): BinView
    reads m
  {
    BinView(m.fd, m.bk, m.child0, m.child1, m.parent, m.index, m.treebins, m.treemap, m.smallmap,
            m.small, m.nodes, m.leastAddr)
  }

  ghost predicate BinsInv(h: Heads, v: BinView) {
    && SmallInv(h, v.fd, v.bk, v.smallmap, v.small, v.least)
    && TreesInv(v.TreeWith(h), v.fd, v.bk, v.index, v.nodes, v.least)
  }

  ghost predicate BinsOk(m: Mstate)
    reads m
  {
    BinsInv(m.head, BinsOf(m))
  }

  /** Chunk `x` is in the bin for chunks of size `s`. */
  ghost predicate Kept(small: seq<seq<int>>, nodes: Nodes, s: int, x: int) {
    if s < MIN_LARGE_SIZE then InBin(small, s, x) else Binned(nodes, s, x)
  }

  ghost predicate KeptAdded(small: seq<seq<int>>, nodes: Nodes, small': seq<seq<int>>, nodes': Nodes, s: int, x: int) {
    forall k, y :: Kept(small', nodes', k, y) <==> Kept(small, nodes, k, y) || (k == s && y == x)
  }

  ghost predicate KeptRemoved(small: seq<seq<int>>, nodes: Nodes, small': seq<seq<int>>, nodes': Nodes, s: int, x: int) {
    forall k, y :: Kept(small', nodes', k, y) <==> Kept(small, nodes, k, y) && !(k == s && y == x)
  }

  /** A chunk in a bin has its bin's size, a positive address, and is the allocator's. */
  lemma KeptSize(h: Heads, v: BinView, s: int, x: int)
    requires BinsInv(h, v) && Kept(v.small, v.nodes, s, x)
    ensures x > 0 && x >= v.least && SizeAt(h, x) == s && s >= 0
  {
    if s < MIN_LARGE_SIZE {
      assert BinInv(h, v.fd, v.bk, v.smallmap, v.small, v.least, s / 8);
    } else {
      assert RingOk(v.TreeWith(h), v.fd, v.bk, v.index, v.nodes, s);
    }
  }

  lemma SmallHeads(h: Heads, h': Heads, v: BinView)
    requires BinsInv(h, v)
    requires forall s, x :: Kept(v.small, v.nodes, s, x) ==> SizeAt(h', x) == SizeAt(h, x)
    ensures SmallInv(h', v.fd, v.bk, v.smallmap, v.small, v.least)
  {
    hide Ring, Marked, TreesInv, IsMap, SizeAt;
    forall i | 0 <= i < NSMALLBINS
      ensures BinInv(h', v.fd, v.bk, v.smallmap, v.small, v.least, i)
    {
      assert BinInv(h, v.fd, v.bk, v.smallmap, v.small, v.least, i);
      forall x | x in v.small[i]
        ensures SizeAt(h', x) == SizeAt(h, x)
      {
        assert Kept(v.small, v.nodes, 8 * i, x);
      }
    }
  }

  lemma TreeHeads(h: Heads, h': Heads, v: BinView)
    requires BinsInv(h, v)
    requires forall s, x :: Kept(v.small, v.nodes, s, x) ==> SizeAt(h', x) == SizeAt(h, x)
    ensures TreesInv(v.TreeWith(h'), v.fd, v.bk, v.index, v.nodes, v.least)
  {
    hide Ring, SmallInv, Shape, TreeIndex, SizeAt;
    var m, m', t := v.TreeWith(h), v.TreeWith(h'), v.nodes;
    forall s | s in t
      ensures t[s].lead in t[s].ring && RingOk(m', v.fd, v.bk, v.index, t, s)
      ensures m'.Size(t[s].lead) == m.Size(t[s].lead)
    {
      assert RingOk(m, v.fd, v.bk, v.index, t, s);
      KeptLarge(h, v, s);
      forall x | x in t[s].ring
        ensures SizeAt(h', x) == SizeAt(h, x)
      {
        assert Kept(v.small, v.nodes, s, x);
      }
    }
    ShapeFrame(m, m', t);
  }

  lemma KeptLarge(h: Heads, v: BinView, s: int)
    requires BinsInv(h, v) && s in v.nodes
    ensures s >= MIN_LARGE_SIZE
  {
    assert NodeOk(v.TreeWith(h), v.nodes, s);
  }

  /** The bins only depend on the sizes of the chunks in them. */
  lemma BinsFrame(h: Heads, h': Heads, v: BinView)
    requires BinsInv(h, v)
    requires forall s, x :: Kept(v.small, v.nodes, s, x) ==> SizeAt(h', x) == SizeAt(h, x)
    ensures BinsInv(h', v)
  {
    SmallHeads(h, h', v);
    TreeHeads(h, h', v);
  }

  /** Small rings stand while the links of their members and headers do. */
  lemma SmallLinks(h: Heads, fd: Field, bk: Field, fd': Field, bk': Field, smap: Binmap, b: Bins, least: int)
    requires SmallInv(h, fd, bk, smap, b, least)
    requires forall q :: q < 0 || InBin(b, SizeAt(h, q), q) ==> At(fd', q) == At(fd, q) && At(bk', q) == At(bk, q)
    ensures SmallInv(h, fd', bk', smap, b, least)
  {
    hide Ring, Marked, IsMap, SizeAt;
    forall i | 0 <= i < NSMALLBINS
      ensures BinInv(h, fd', bk', smap, b, least, i)
    {
      assert BinInv(h, fd, bk, smap, b, least, i);
      forall x | x in BinRing(b, i)
        ensures At(fd', x) == At(fd, x) && At(bk', x) == At(bk, x)
      {
        assert x < 0 || InBin(b, SizeAt(h, x), x);
      }
      OtherBin(h, fd, bk, smap, b, least, fd', bk', smap, b, i);
    }
  }

  /** The trees stand while the links of the rings' members do. */
  lemma TreeLinks(m: Tree, fd: Field, bk: Field, fd': Field, bk': Field, index: Field, t: Nodes, least: int)
    requires TreesInv(m, fd, bk, index, t, least)
    requires forall q :: Binned(t, m.Size(q), q) ==> At(fd', q) == At(fd, q) && At(bk', q) == At(bk, q)
    ensures TreesInv(m, fd', bk', index, t, least)
  {
    hide Ring, Shape, TreeIndex, Tree.Size, Tree.Child;
    forall s | s in t
      ensures RingOk(m, fd', bk', index, t, s)
    {
      assert RingOk(m, fd, bk, index, t, s);
      forall x | x in t[s].ring
        ensures At(fd', x) == At(fd, x) && At(bk', x) == At(bk, x)
      {
        assert Binned(t, m.Size(x), x);
      }
      RingOkFrame(m, fd, bk, index, t, m, fd', bk', index, t, s);
    }
  }

  /** No chunk is both in a small bin and in a tree. */
  lemma BinsApart(h: Heads, v: BinView, x: int)
    requires BinsInv(h, v)
    ensures !(InBin(v.small, SizeAt(h, x), x) && Binned(v.nodes, SizeAt(h, x), x))
    ensures Binned(v.nodes, SizeAt(h, x), x) ==> x > 0
  {
    if Binned(v.nodes, SizeAt(h, x), x) {
      KeptLarge(h, v, SizeAt(h, x));
      assert Kept(v.small, v.nodes, SizeAt(h, x), x);
      KeptSize(h, v, SizeAt(h, x), x);
    }
  }

  /** A change confined to small rings and `p` leaves the trees alone. */
  lemma TreesStay(h: Heads, v: BinView, fd': Field, bk': Field, p: int)
    requires BinsInv(h, v) && !Binned(v.nodes, SizeAt(h, p), p)
    requires forall q :: q != p && !(q < 0 || InBin(v.small, SizeAt(h, q), q)) ==>
      At(fd', q) == At(v.fd, q) && At(bk', q) == At(v.bk, q)
    ensures TreesInv(v.TreeWith(h), fd', bk', v.index, v.nodes, v.least)
  {
    forall q | Binned(v.nodes, SizeAt(h, q), q)
      ensures At(fd', q) == At(v.fd, q) && At(bk', q) == At(v.bk, q)
    {
      BinsApart(h, v, q);
    }
    hide Binned, InBin, SizeAt, TreesInv;
    TreeLinks(v.TreeWith(h), v.fd, v.bk, fd', bk', v.index, v.nodes, v.least);
  }

  /** A change confined to tree chunks and `p` leaves the small bins alone. */
  lemma SmallStay(h: Heads, v: BinView, fd': Field, bk': Field, p: int)
    requires BinsInv(h, v) && p > 0 && !InBin(v.small, SizeAt(h, p), p)
    requires forall q :: q != p && !Binned(v.nodes, SizeAt(h, q), q) ==>
      At(fd', q) == At(v.fd, q) && At(bk', q) == At(v.bk, q)
    ensures SmallInv(h, fd', bk', v.smallmap, v.small, v.least)
  {
    forall q | q < 0 || InBin(v.small, SizeAt(h, q), q)
      ensures At(fd', q) == At(v.fd, q) && At(bk', q) == At(v.bk, q)
    {
      BinsApart(h, v, q);
    }
    hide Binned, InBin, SizeAt, SmallInv;
    SmallLinks(h, v.fd, v.bk, fd', bk', v.smallmap, v.small, v.least);
  }

  lemma NoSmallKeys(h: Heads, v: BinView, s: int, x: int)
    requires BinsInv(h, v)
    ensures InBin(v.small, s, x) ==> s < MIN_LARGE_SIZE
    ensures Binned(v.nodes, s, x) ==> s >= MIN_LARGE_SIZE
  {
    if Binned(v.nodes, s, x) {
      KeptLarge(h, v, s);
    }
  }

  /** What a bin operation on chunk `p` of size `s` writes: `fd` and `bk` of bin headers, of kept chunks
      and of `p`; the other links of tree chunks only. */
  ghost predicate LinkWrites(a: Memory, b: Memory, small: seq<seq<int>>, nodes: Nodes, p: int, s: int) {
    && b == a.(fd := b.fd, bk := b.bk, child0 := b.child0, child1 := b.child1, parent := b.parent, index := b.index)
    && (forall q :: q != p && q >= 0 && !Kept(small, nodes, SizeAt(a.head, q), q) ==>
         At(b.fd, q) == At(a.fd, q) && At(b.bk, q) == At(a.bk, q))
    && (forall q :: (q != p || s < MIN_LARGE_SIZE) && !Binned(nodes, SizeAt(a.head, q), q) ==>
         && At(b.child0, q) == At(a.child0, q) && At(b.child1, q) == At(a.child1, q)
         && At(b.parent, q) == At(a.parent, q) && At(b.index, q) == At(a.index, q))
  }

  lemma SmallWrites(a: Memory, b: Memory, v: BinView, p: int, s: int)
    requires BinsInv(a.head, v) && b == a.(fd := b.fd, bk := b.bk) && s < MIN_LARGE_SIZE
    requires forall q :: q != p && !(q < 0 || InBin(v.small, SizeAt(a.head, q), q)) ==>
      At(b.fd, q) == At(a.fd, q) && At(b.bk, q) == At(a.bk, q)
    ensures LinkWrites(a, b, v.small, v.nodes, p, s)
  {
    forall q
      ensures InBin(v.small, SizeAt(a.head, q), q) ==> SizeAt(a.head, q) < MIN_LARGE_SIZE
    {
      NoSmallKeys(a.head, v, SizeAt(a.head, q), q);
    }
    hide InBin, Binned, BinsInv;
  }

  lemma LargeWrites(a: Memory, b: Memory, v: BinView, p: int, s: int)
    requires BinsInv(a.head, v) && s >= MIN_LARGE_SIZE
    requires b == a.(fd := b.fd, bk := b.bk, child0 := b.child0, child1 := b.child1, parent := b.parent, index := b.index)
    requires forall q :: q != p && !Binned(v.nodes, SizeAt(a.head, q), q) ==>
      && At(b.fd, q) == At(a.fd, q) && At(b.bk, q) == At(a.bk, q)
      && At(b.child0, q) == At(a.child0, q) && At(b.child1, q) == At(a.child1, q)
      && At(b.parent, q) == At(a.parent, q) && At(b.index, q) == At(a.index, q)
    ensures LinkWrites(a, b, v.small, v.nodes, p, s)
  {
    forall q
      ensures Binned(v.nodes, SizeAt(a.head, q), q) ==> SizeAt(a.head, q) >= MIN_LARGE_SIZE
    {
      NoSmallKeys(a.head, v, SizeAt(a.head, q), q);
    }
    hide InBin, Binned, BinsInv;
  }

  /** insert_chunk for a small chunk. */
  method InsertSmall(m: Mstate, p: int, s: int)
    requires BinsOk(m) && SmallSize(s)
    requires p > 0 && p >= m.leastAddr && SizeAt(m.head, p) == s && !Kept(m.small, m.nodes, s, p)
    modifies m`fd, m`bk, m`smallmap, m`small
    ensures BinsOk(m) && SmallAdded(old(m.small), m.small, s, p)
    ensures LinkWrites(old(MemoryOf(m)), MemoryOf(m), old(m.small), old(m.nodes), p, s)
  {
    hide SmallInv, TreesInv, InBin, Binned, SmallAdded;
    ghost var v, a := BinsOf(m), MemoryOf(m);
    NoSmallKeys(m.head, v, s, p);
    InsertSmallChunk(m, p, s);
    forall q | q != p && !(q < 0 || InBin(v.small, SizeAt(m.head, q), q))
      ensures At(m.fd, q) == At(v.fd, q) && At(m.bk, q) == At(v.bk, q)
    {
      assert LinksAt(m, q) == old(LinksAt(m, q));
    }
    TreesStay(m.head, v, m.fd, m.bk, p);
    SmallWrites(a, MemoryOf(m), v, p, s);
  }

  /** insert_chunk for a large chunk. */
  method InsertLarge(m: Mstate, p: int, s: int)
    requires BinsOk(m) && MIN_LARGE_SIZE <= s && IsWord(s)
    requires p > 0 && p >= m.leastAddr && SizeAt(m.head, p) == s && !Kept(m.small, m.nodes, s, p)
    modifies m`fd, m`bk, m`child0, m`child1, m`parent, m`index, m`treebins, m`treemap, m`nodes
    ensures BinsOk(m) && Added(old(m.nodes), m.nodes, s, p)
    ensures LinkWrites(old(MemoryOf(m)), MemoryOf(m), old(m.small), old(m.nodes), p, s)
  {
    hide SmallInv, TreesInv, InBin, Binned, Added;
    ghost var v, a := BinsOf(m), MemoryOf(m);
    NoSmallKeys(m.head, v, s, p);
    InsertLargeChunk(m, p, s);
    forall q | q != p && !Binned(v.nodes, SizeAt(m.head, q), q)
      ensures At(m.fd, q) == At(v.fd, q) && At(m.bk, q) == At(v.bk, q)
      ensures At(m.child0, q) == At(a.child0, q) && At(m.child1, q) == At(a.child1, q)
      ensures At(m.parent, q) == At(a.parent, q) && At(m.index, q) == At(a.index, q)
    {
      assert LinksAt(m, q) == old(LinksAt(m, q));
    }
    SmallStay(m.head, v, m.fd, m.bk, p);
    LargeWrites(a, MemoryOf(m), v, p, s);
  }

  /** insert_chunk: exactly `p` is added to the bin of its size. */
  method InsertChunk(m: Mstate, p: int, s: int)
    requires BinsOk(m) && 32 <= s && s % 8 == 0 && IsWord(s)
    requires p > 0 && p >= m.leastAddr && SizeAt(m.head, p) == s && !Kept(m.small, m.nodes, s, p)
    modifies m`fd, m`bk, m`child0, m`child1, m`parent, m`index, m`treebins, m`treemap, m`smallmap, m`small, m`nodes
    ensures BinsOk(m) && KeptAdded(old(m.small), old(m.nodes), m.small, m.nodes, s, p)
    ensures LinkWrites(old(MemoryOf(m)), MemoryOf(m), old(m.small), old(m.nodes), p, s)
  {
    ghost var v := BinsOf(m);
    forall k, x
      ensures InBin(v.small, k, x) ==> k < MIN_LARGE_SIZE
      ensures Binned(v.nodes, k, x) ==> k >= MIN_LARGE_SIZE
    {
      NoSmallKeys(m.head, v, k, x);
    }
    hide BinsInv, InBin, Binned;
    if IsSmall(s) {
      InsertSmall(m, p, s);
    } else {
      InsertLarge(m, p, s);
    }
  }

  /** unlink_chunk: exactly `p` is removed from the bin of its size. */
  method UnlinkChunk(m: Mstate, p: int, s: int)
    requires BinsOk(m) && 32 <= s && s % 8 == 0 && Kept(m.small, m.nodes, s, p)
    modifies m`fd, m`bk, m`child0, m`child1, m`parent, m`treebins, m`treemap, m`smallmap, m`small, m`nodes
    ensures BinsOk(m) && KeptRemoved(old(m.small), old(m.nodes), m.small, m.nodes, s, p)
    ensures LinkWrites(old(MemoryOf(m)), MemoryOf(m), old(m.small), old(m.nodes), p, s)
  {
    ghost var v := BinsOf(m);
    forall k, x
      ensures InBin(v.small, k, x) ==> k < MIN_LARGE_SIZE
      ensures Binned(v.nodes, k, x) ==> k >= MIN_LARGE_SIZE
    {
      NoSmallKeys(m.head, v, k, x);
    }
    hide BinsInv, InBin, Binned;
    if IsSmall(s) {
      UnlinkSmall(m, p, s);
    } else {
      UnlinkLarge(m, p, s);
    }
  }

  /** unlink_chunk for a small chunk. */
  method UnlinkSmall(m: Mstate, p: int, s: int)
    requires BinsOk(m) && SmallSize(s) && InBin(m.small, s, p)
    modifies m`fd, m`bk, m`smallmap, m`small
    ensures BinsOk(m) && SmallRemoved(old(m.small), m.small, s, p)
    ensures LinkWrites(old(MemoryOf(m)), MemoryOf(m), old(m.small), old(m.nodes), p, s)
  {
    hide SmallInv, TreesInv, InBin, Binned, SmallRemoved;
    ghost var v, a := BinsOf(m), MemoryOf(m);
    NotATreeChunk(m.head, v);
    UnlinkSmallChunk(m, p, s);
    forall q | !(q < 0 || InBin(v.small, SizeAt(m.head, q), q))
      ensures At(m.fd, q) == At(v.fd, q) && At(m.bk, q) == At(v.bk, q)
    {
      assert LinksAt(m, q) == old(LinksAt(m, q));
    }
    TreesStay(m.head, v, m.fd, m.bk, -1);
    SmallWrites(a, MemoryOf(m), v, p, s);
  }

  lemma NotATreeChunk(h: Heads, v: BinView)
    requires BinsInv(h, v)
    ensures !Binned(v.nodes, SizeAt(h, -1), -1)
  {
    BinsApart(h, v, -1);
  }

  /** unlink_first_small_chunk. */
  method UnlinkFirst(m: Mstate, b: int, p: int, i: int)
    requires BinsOk(m) && 4 <= i < NSMALLBINS && m.small[i] != [] && b == SmallBinAt(i) && p == At(m.fd, b)
    modifies m`fd, m`bk, m`smallmap, m`small
    ensures BinsOk(m) && SmallRemoved(old(m.small), m.small, 8 * i, p)
    ensures LinkWrites(old(MemoryOf(m)), MemoryOf(m), old(m.small), old(m.nodes), p, 8 * i)
  {
    hide SmallInv, TreesInv, InBin, Binned, SmallRemoved;
    ghost var v, a := BinsOf(m), MemoryOf(m);
    NotATreeChunk(m.head, v);
    UnlinkFirstSmallChunk(m, b, p, i);
    forall q | !(q < 0 || InBin(v.small, SizeAt(m.head, q), q))
      ensures At(m.fd, q) == At(v.fd, q) && At(m.bk, q) == At(v.bk, q)
    {
      assert LinksAt(m, q) == old(LinksAt(m, q));
    }
    TreesStay(m.head, v, m.fd, m.bk, -1);
    SmallWrites(a, MemoryOf(m), v, p, 8 * i);
  }

  /** unlink_chunk for a large chunk. */
  method UnlinkLarge(m: Mstate, p: int, ghost s: int)
    requires BinsOk(m) && Binned(m.nodes, s, p)
    modifies m`fd, m`bk, m`child0, m`child1, m`parent, m`treebins, m`treemap, m`nodes
    ensures BinsOk(m) && Removed(old(m.nodes), m.nodes, s, p)
    ensures LinkWrites(old(MemoryOf(m)), MemoryOf(m), old(m.small), old(m.nodes), p, s)
  {
    hide SmallInv, TreesInv, InBin, Binned, Removed;
    ghost var v, a := BinsOf(m), MemoryOf(m);
    LargeChunk(m.head, v, s, p);
    UnlinkLargeChunk(m, p, s);
    forall q | q != p && !Binned(v.nodes, SizeAt(m.head, q), q)
      ensures At(m.fd, q) == At(v.fd, q) && At(m.bk, q) == At(v.bk, q)
      ensures At(m.child0, q) == At(a.child0, q) && At(m.child1, q) == At(a.child1, q)
      ensures At(m.parent, q) == At(a.parent, q) && At(m.index, q) == At(a.index, q)
    {
      assert LinksAt(m, q) == old(LinksAt(m, q));
    }
    SmallStay(m.head, v, m.fd, m.bk, p);
    LargeWrites(a, MemoryOf(m), v, p, s);
  }

  lemma LargeChunk(h: Heads, v: BinView, s: int, p: int)
    requires BinsInv(h, v) && Binned(v.nodes, s, p)
    ensures p > 0 && SizeAt(h, p) == s && s >= MIN_LARGE_SIZE && !InBin(v.small, s, p)
  {
    KeptLarge(h, v, s);
    assert Kept(v.small, v.nodes, s, p);
    KeptSize(h, v, s, p);
    BinsApart(h, v, p);
  }
}
