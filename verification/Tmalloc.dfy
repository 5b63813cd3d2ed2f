/** Serving requests from the bins: tmalloc_large, tmalloc_small and the small bins. */
module Tmalloc {
  import opened Words
  import opened BinIndex
  import opened BinMaps
  import opened Rings
  import opened Trie
  import opened TriePaths
  import opened State
  import opened TreeBins
  import opened BestFit
  import opened SmallBins
  import opened Index
  import opened Heap
  import opened Invariant
  import opened Taking
  import opened Payload
  import opened Plans
  import opened InOut

  /** The request for a chunk of `nb` bytes has been served at `p`: one new block, which wastes less
      than a minimal chunk. */
  ghost predicate Served(c: Chunks, c': Chunks, p: int, nb: int) {
    p in Lives(c') && nb <= Lives(c')[p] < nb + MIN_CHUNK_SIZE && Given(c, c', p, Lives(c')[p])
  }

  /** `p` is a smallest free chunk of at least `nb` bytes. */
  ghost predicate Best(c: Chunks, p: int, nb: int) {
    && p in c && c[p].use == Free && c[p].size >= nb
    && forall x :: x in c && c[x].use == Free && c[x].size >= nb ==> c[p].size <= c[x].size
  }

  /** As `Best`, leaving out the designated victim. */
  ghost predicate BestKept(c: Chunks, dv: int, p: int, nb: int) {
    && p in c && c[p].use == Free && p != dv && c[p].size >= nb
    && forall x :: x in c && c[x].use == Free && x != dv && c[x].size >= nb ==> c[p].size <= c[x].size
  }

  lemma QuietGiven(a: Memory, b: Memory, d: Memory, c: Chunks, c': Chunks, p: int, s: int)
    requires Quiet(a, b, Lives(c)) && Quiet(b, d, Lives(c')) && Given(c, c', p, s)
    ensures Quiet(a, d, Lives(c))
  {
    assert Within(Lives(c), Lives(c'));
    hide Quiet, Within, Given, Lives;
    QuietAntitone(b, d, Lives(c), Lives(c'));
    QuietTrans(a, b, d, Lives(c));
  }

  lemma IsServed(c: Chunks, c': Chunks, p: int, s: int, nb: int)
    requires Given(c, c', p, s) && nb <= s < nb + MIN_CHUNK_SIZE
    ensures Served(c, c', p, nb)
  {
    hide Lives;
  }

  // ---- replacing the designated victim

  /** The old victim goes to its small bin. */
  method BinDv(m: Mstate, ghost p: int)
    requires ValidExcept(m, {p}) && 0 < m.dvsize < MIN_LARGE_SIZE
    modifies m`fd, m`bk, m`smallmap, m`small
    ensures BinsOk(m) && Books(m) && ViewsExcept(WorldOf(m).(dv := 0, dvsize := 0), {p})
    ensures Quiet(old(MemoryOf(m)), MemoryOf(m), Lives(m.heap))
  {
    hide BinsInv, ViewsExcept, Books, Quiet, InBin, Binned, LinkWrites, Lives;
    ghost var w, v, a := WorldOf(m), BinsOf(m), MemoryOf(m);
    ghost var w0, dv, dvs := w.(dv := 0, dvsize := 0), m.dv, m.dvsize;
    DvOut(w, {p});
    ChunkAddress(m, {p}, dv);
    NotKept(w0, {p} + {dv}, dvs, dv);
    SmallKeys(m.head, v);
    InsertSmall(m, m.dv, m.dvsize);
    Attached(w0, v, {p} + {dv}, a, MemoryOf(m), m.small, m.nodes, dvs, dv);
    assert {p} + {dv} - {dv} == {p};
  }

  /** With no victim there is none to put away. */
  lemma NoDv(w: World, out: set<int>)
    requires ViewsExcept(w, out) && w.dvsize == 0
    ensures w == w.(dv := 0, dvsize := 0)
  {}

  lemma QuietSelf(a: Memory, live: Blocks)
    ensures Quiet(a, a, live)
  {}

  method WriteDv(m: Mstate, p: int, s: int)
    modifies m`dv, m`dvsize
    ensures m.dv == p && m.dvsize == s
  {
    m.dvsize := s;
    m.dv := p;
  }

  lemma DvSize(w: World, out: set<int>)
    requires ViewsExcept(w, out)
    ensures w.dvsize == 0 || w.dvsize > 0
    ensures w.dvsize != 0 ==> w.dvsize >= 32
  {
    if w.dvsize != 0 {
      assert ChunkOk(w.head, w.foot, w.heap, w.dv);
    }
  }

  /** replace_dv: the old victim is empty or small and goes to its small bin. */
  method ReplaceDv(m: Mstate, p: int, s: int)
    requires ValidExcept(m, {p}) && FreeAt(m.heap, s, p) && m.dvsize < MIN_LARGE_SIZE
    modifies m`fd, m`bk, m`smallmap, m`small, m`dv, m`dvsize
    ensures ValidExcept(m, {}) && m.dv == p && m.dvsize == s
    ensures Quiet(old(MemoryOf(m)), MemoryOf(m), Lives(m.heap))
  {
    hide BinsInv, ViewsExcept, Books, Quiet, Kept, FreeAt, LinkWrites, Lives;
    var dvs := m.dvsize;
    DvSize(WorldOf(m), {p});
    if dvs != 0 {
      BinDv(m, p);
    } else {
      QuietSelf(MemoryOf(m), Lives(m.heap));
      NoDv(WorldOf(m), {p});
    }
    DvIn(WorldOf(m).(dv := 0, dvsize := 0), {p}, p, s);
    assert {p} - {p} == {};
    WriteDv(m, p, s);
  }

  // ---- using a chunk that has left its bin

  lemma CutWhole(s: Plan, p: int, size: int, nb: int)
    requires FreeAt(s.heap, size, p) && size - nb < MIN_CHUNK_SIZE
    ensures Cut(s, p, nb) == WithDv(s.(heap := Patch(s.heap, p, p + size, map[p := Chunk(size, Live)])), p == s.dv, 0, 0)
  {}

  lemma CutPart(s: Plan, p: int, size: int, nb: int)
    requires FreeAt(s.heap, size, p) && size - nb >= MIN_CHUNK_SIZE
    ensures Cut(s, p, nb)
         == WithDv(s.(heap := Patch(s.heap, p, p + size, Two(p, Chunk(nb, Live), Chunk(size - nb, Free)))),
                   p == s.dv || nb < MIN_LARGE_SIZE, p + nb, size - nb)
  {}

  /** A chunk out of the index is not the victim. */
  lemma NotVictim(m: Mstate, p: int, s: int)
    requires ValidExcept(m, {p}) && FreeAt(m.heap, s, p)
    ensures p != m.dv
  {
    hide BinsInv, BooksInv, SegsInv, TopInv;
    assert ChunkOk(m.head, m.foot, m.heap, p);
  }

  /** The front of the chunk `p` is used, and the rest goes to its bin. */
  method CarveFront(m: Mstate, p: int, nb: int, rsize: int)
    requires ValidExcept(m, {p}) && FreeAt(m.heap, nb + rsize, p)
    requires nb >= MIN_LARGE_SIZE && nb % 8 == 0 && rsize >= MIN_CHUNK_SIZE
    modifies m`fd, m`bk, m`child0, m`child1, m`parent, m`index, m`treebins, m`treemap, m`smallmap, m`small, m`nodes,
             m`head, m`foot, m`heap
    ensures ValidExcept(m, {}) && Given(old(m.heap), m.heap, p, nb) && HeadAt(m.head, p).pinuse
    ensures Quiet(old(MemoryOf(m)), MemoryOf(m), Lives(old(m.heap)))
    ensures m.heap == Patch(old(m.heap), p, p + nb + rsize, Two(p, Chunk(nb, Live), Chunk(rsize, Free)))
  {
    hide ValidExcept, Quiet, FreeAt, Lives, Given, Patch, Two, MemoryOf;
    ghost var a, c, r := MemoryOf(m), m.heap, p + nb;
    TakeFront(m, p, nb, nb + rsize, p + nb, rsize);
    ghost var b := MemoryOf(m);
    Attach(m, p + nb, rsize, {r});
    assert {r} - {r} == {};
    QuietGiven(a, b, MemoryOf(m), c, m.heap, p, nb);
  }

  /** The chunk `p` is used whole, or the rest goes to its bin. */
  method CarveToBin(m: Mstate, p: int, nb: int, rsize: int)
    requires ValidExcept(m, {p}) && FreeAt(m.heap, nb + rsize, p)
    requires nb >= MIN_LARGE_SIZE && nb % 8 == 0 && rsize >= 0
    modifies m`fd, m`bk, m`child0, m`child1, m`parent, m`index, m`treebins, m`treemap, m`smallmap, m`small, m`nodes,
             m`head, m`foot, m`heap
    ensures ValidExcept(m, {}) && Served(old(m.heap), m.heap, p, nb)
    ensures Quiet(old(MemoryOf(m)), MemoryOf(m), Lives(old(m.heap)))
    ensures HeadAt(m.head, p).pinuse
    ensures PlanOf(m) == Cut(old(PlanOf(m)), p, nb)
  {
    hide ValidExcept, Quiet, FreeAt, Lives, Given, Served, Patch, Two, Cut, MemoryOf;
    ghost var c := m.heap;
    NotVictim(m, p, nb + rsize);
    if rsize < MIN_CHUNK_SIZE {
      CutWhole(PlanOf(m), p, rsize + nb, nb);
      TakeWhole(m, p, rsize + nb);
      IsServed(c, m.heap, p, rsize + nb, nb);
    } else {
      CutPart(PlanOf(m), p, nb + rsize, nb);
      CarveFront(m, p, nb, rsize);
      IsServed(c, m.heap, p, nb, nb);
    }
  }

  /** The chunk `p` is used whole, or the rest becomes the designated victim. */
  method CarveToDv(m: Mstate, p: int, nb: int, rsize: int)
    requires ValidExcept(m, {p}) && FreeAt(m.heap, nb + rsize, p) && m.dvsize < MIN_LARGE_SIZE
    requires MIN_CHUNK_SIZE <= nb < MIN_LARGE_SIZE && nb % 8 == 0 && rsize >= 0
    modifies m`fd, m`bk, m`smallmap, m`small, m`head, m`foot, m`heap, m`dv, m`dvsize
    ensures ValidExcept(m, {}) && Served(old(m.heap), m.heap, p, nb)
    ensures Quiet(old(MemoryOf(m)), MemoryOf(m), Lives(old(m.heap)))
    ensures HeadAt(m.head, p).pinuse
    ensures PlanOf(m) == Cut(old(PlanOf(m)), p, nb)
  {
    hide BinsInv, ViewsExcept, Books, Quiet, FreeAt, Lives, Given, Served, Patch, Two, Cut, MemoryOf, ValidExcept, WorldOf, BinsOk, BinsOf;
    ghost var a, c := MemoryOf(m), m.heap;
    NotVictim(m, p, nb + rsize);
    if rsize < MIN_CHUNK_SIZE {
      CutWhole(PlanOf(m), p, rsize + nb, nb);
      TakeWhole(m, p, rsize + nb);
      IsServed(c, m.heap, p, rsize + nb, nb);
    } else {
      var r := p + nb;
      CutPart(PlanOf(m), p, nb + rsize, nb);
      TakeFront(m, p, nb, nb + rsize, r, rsize);
      ghost var b := MemoryOf(m);
      ReplaceDv(m, r, rsize);
      QuietGiven(a, b, MemoryOf(m), c, m.heap, p, nb);
      IsServed(c, m.heap, p, nb, nb);
    }
  }

  // ---- large requests

  lemma BinsTrees(m: Mstate)
    requires BinsOk(m)
    ensures TreesOk(m)
  {}

  /** The chunk in the tree of some size is a kept chunk. */
  lemma LeadKept(m: Mstate, out: set<int>, s: int)
    requires ValidExcept(m, out) && s in m.nodes
    ensures s >= MIN_LARGE_SIZE && Kept(m.small, m.nodes, s, m.nodes[s].lead) && FreeAt(m.heap, s, m.nodes[s].lead)
  {
    var t := BinsOf(m).TreeWith(m.head);
    assert RingOk(t, m.fd, m.bk, m.index, m.nodes, s) && NodeOk(t, m.nodes, s);
    assert Kept(m.small, m.nodes, s, m.nodes[s].lead);
  }

  /** Every free chunk of a large size is the victim or has its size in a tree. */
  lemma LargeFree(w: World, x: int)
    requires ViewsExcept(w, {}) && x in w.heap && w.heap[x].use == Free && w.heap[x].size >= MIN_LARGE_SIZE
    ensures x == w.dv ==> w.heap[x].size == w.dvsize
    ensures x == w.dv || w.heap[x].size in w.nodes
  {
    assert FreeAt(w.heap, w.heap[x].size, x);
    if x == w.dv {
      assert ChunkOk(w.head, w.foot, w.heap, x);
    } else {
      assert Kept(w.small, w.nodes, w.heap[x].size, x);
    }
  }

  lemma DvWord(m: Mstate)
    requires ValidExcept(m, {})
    ensures IsWord(m.dvsize)
  {
    hide BinsInv, Books, Phys, SegsInv, TopInv;
    if m.dvsize != 0 {
      assert m.dv in m.heap && m.heap[m.dv].size == m.dvsize;
      hide ViewsExcept;
      ChunkAddress(m, {}, m.dv);
    }
  }

  lemma BestOfTrees(w: World, p: int, nb: int)
    requires ViewsExcept(w, {}) && nb >= MIN_LARGE_SIZE && p in w.heap && w.heap[p].use == Free && w.heap[p].size >= nb
    requires forall s :: s in w.nodes && s >= nb ==> w.heap[p].size <= s
    requires w.dvsize >= nb ==> w.heap[p].size <= w.dvsize
    ensures Best(w.heap, p, nb)
  {
    hide ViewsExcept;
    forall x | x in w.heap && w.heap[x].use == Free && w.heap[x].size >= nb
      ensures w.heap[p].size <= w.heap[x].size
    {
      LargeFree(w, x);
    }
  }

  /** No free chunk that holds `nb` bytes is smaller than the victim, which does hold them. */
  ghost predicate DvFits(c: Chunks, dvsize: int, nb: int) {
    forall x :: x in c && c[x].use == Free && c[x].size >= nb ==> nb <= dvsize <= c[x].size
  }

  lemma DvIsBest(w: World, nb: int)
    requires ViewsExcept(w, {}) && nb >= MIN_LARGE_SIZE
    requires forall s :: s in w.nodes && s >= nb ==> nb <= w.dvsize <= s
    ensures DvFits(w.heap, w.dvsize, nb)
  {
    hide ViewsExcept;
    forall x | x in w.heap && w.heap[x].use == Free && w.heap[x].size >= nb
      ensures nb <= w.dvsize <= w.heap[x].size
    {
      LargeFree(w, x);
    }
  }

  /** The victim would leave more over, or cannot serve at all. */
  ghost predicate BeatsVictim(head: map<int, Head>, dvsize: int, p: int, nb: int) {
    nb <= dvsize ==> SizeAt(head, p) < dvsize
  }

  /** The chunk is the one of its size that is in the tree itself. */
  ghost predicate HeadsRing(head: map<int, Head>, t: Nodes, p: int) {
    SizeAt(head, p) in t && t[SizeAt(head, p)].lead == p
  }

  /** tmalloc_large: the smallest tree chunk that fits, unless the victim fits at least as well. */
  method TmallocLarge(m: Mstate, nb: int) returns (mem: int)
    requires Valid(m) && MIN_LARGE_SIZE <= nb && nb % 8 == 0 && IsWord(nb)
    modifies m`fd, m`bk, m`child0, m`child1, m`parent, m`index, m`treebins, m`treemap, m`smallmap, m`small, m`nodes,
             m`head, m`foot, m`heap
    ensures mem == 0 ==> unchanged(m) && DvFits(m.heap, m.dvsize, nb)
    ensures mem != 0 ==> Valid(m) && Served(old(m.heap), m.heap, mem - 16, nb) && Best(old(m.heap), mem - 16, nb)
    ensures mem != 0 ==> BeatsVictim(old(m.head), old(m.dvsize), mem - 16, nb) && HeadsRing(old(m.head), old(m.nodes), mem - 16)
    ensures mem != 0 ==> Quiet(old(MemoryOf(m)), MemoryOf(m), Lives(old(m.heap)))
    ensures mem != 0 ==> HeadAt(m.head, mem - 16).pinuse
    ensures mem != 0 ==> PlanOf(m) == Cut(old(PlanOf(m)), mem - 16, nb)
  {
    hide BinsInv, ViewsExcept, Books, Quiet, FreeAt, Lives, Given, Served, Best, DvFits, TreesOk, Kept, Cut, MemoryOf, PlanOf;
    BinsTrees(m);
    DvSize(WorldOf(m), {});
    var v, rsize := FindBestFit(m, nb);
    if v != 0 {
      LeadKept(m, {}, SizeAt(m.head, v));
      ChunkAddress(m, {}, v);
    }
    DvWord(m);
    mem := 0;
    if v != 0 && rsize < Sub64(m.dvsize, nb) {
      if OkAddress(m, v) {
        var r := v + nb;
        if v < r {
          BestOfTrees(WorldOf(m), v, nb);
          UseBestFit(m, v, nb, rsize);
          return v + 16;
        } else {
          assert false;
        }
      } else {
        assert false;
      }
    }
    DvIsBest(WorldOf(m), nb);
  }

  /** The best fit leaves its tree; what is left of it goes to a bin. */
  method UseBestFit(m: Mstate, v: int, nb: int, rsize: int)
    requires Valid(m) && Kept(m.small, m.nodes, nb + rsize, v) && nb + rsize >= MIN_LARGE_SIZE
    requires nb >= MIN_LARGE_SIZE && nb % 8 == 0 && rsize >= 0
    modifies m`fd, m`bk, m`child0, m`child1, m`parent, m`index, m`treebins, m`treemap, m`smallmap, m`small, m`nodes,
             m`head, m`foot, m`heap
    ensures Valid(m) && Served(old(m.heap), m.heap, v, nb)
    ensures Quiet(old(MemoryOf(m)), MemoryOf(m), Lives(old(m.heap)))
    ensures HeadAt(m.head, v).pinuse
    ensures PlanOf(m) == Cut(old(PlanOf(m)), v, nb)
  {
    hide BinsInv, ViewsExcept, Books, Quiet, FreeAt, Lives, Given, Served, TreesOk, Kept, Cut, MemoryOf, PlanOf;
    ghost var a, c := MemoryOf(m), m.heap;
    DetachLarge(m, v, nb + rsize, {});
    assert {} + {v} == {v};
    ghost var b := MemoryOf(m);
    CarveToBin(m, v, nb, rsize);
    QuietTrans(a, b, MemoryOf(m), Lives(c));
  }

  // ---- small requests

  lemma SmallestOfTrees(w: World, p: int)
    requires ViewsExcept(w, {}) && p in w.heap && forall s :: s in w.nodes ==> w.heap[p].size <= s
    ensures forall x :: x in w.heap && w.heap[x].use == Free && x != w.dv && w.heap[x].size >= MIN_LARGE_SIZE ==>
      w.heap[p].size <= w.heap[x].size
  {
    hide ViewsExcept;
    forall x | x in w.heap && w.heap[x].use == Free && x != w.dv && w.heap[x].size >= MIN_LARGE_SIZE
      ensures w.heap[p].size <= w.heap[x].size
    {
      LargeFree(w, x);
    }
  }

  /** Chunk `p` is the smallest of those in trees. */
  ghost predicate SmallestLarge(c: Chunks, dv: int, p: int) {
    && p in c && c[p].use == Free && p != dv && c[p].size >= MIN_LARGE_SIZE
    && forall x :: x in c && c[x].use == Free && x != dv && c[x].size >= MIN_LARGE_SIZE ==> c[p].size <= c[x].size
  }

  lemma SmallestIs(m: Mstate, v: int, s: int)
    requires Valid(m) && Kept(m.small, m.nodes, s, v) && FreeAt(m.heap, s, v) && s >= MIN_LARGE_SIZE
    requires forall s' :: s' in m.nodes ==> s <= s'
    ensures SmallestLarge(m.heap, m.dv, v)
  {
    hide BinsInv, Books, Kept, Phys, SegsInv, TopInv;
    assert v != m.dv;
    hide ViewsExcept;
    SmallestOfTrees(WorldOf(m), v);
  }

  /** The smallest tree chunk leaves its tree; what is left of it becomes the victim. */
  method UseSmallest(m: Mstate, v: int, nb: int, rsize: int)
    requires Valid(m) && Kept(m.small, m.nodes, nb + rsize, v) && nb + rsize >= MIN_LARGE_SIZE && m.dvsize < MIN_LARGE_SIZE
    requires MIN_CHUNK_SIZE <= nb < MIN_LARGE_SIZE && nb % 8 == 0 && rsize >= 0
    modifies m`fd, m`bk, m`child0, m`child1, m`parent, m`treebins, m`treemap, m`smallmap, m`small, m`nodes,
             m`head, m`foot, m`heap, m`dv, m`dvsize
    ensures Valid(m) && Served(old(m.heap), m.heap, v, nb) && HeadAt(m.head, v).pinuse
    ensures Quiet(old(MemoryOf(m)), MemoryOf(m), Lives(old(m.heap)))
    ensures PlanOf(m) == Cut(old(PlanOf(m)), v, nb)
  {
    hide BinsInv, ViewsExcept, Books, Quiet, FreeAt, Lives, Given, Served, TreesOk, Kept, Cut, MemoryOf, PlanOf;
    ghost var a, c := MemoryOf(m), m.heap;
    DetachLarge(m, v, nb + rsize, {});
    assert {} + {v} == {v};
    ghost var b := MemoryOf(m);
    CarveToDv(m, v, nb, rsize);
    QuietTrans(a, b, MemoryOf(m), Lives(c));
  }

  /** tmalloc_small: the smallest tree chunk, whose rest becomes the victim. */
  method TmallocSmall(m: Mstate, nb: int) returns (mem: int)
    requires Valid(m) && m.treemap != 0 && MIN_CHUNK_SIZE <= nb < MIN_LARGE_SIZE && nb % 8 == 0 && m.dvsize < nb
    modifies m`fd, m`bk, m`child0, m`child1, m`parent, m`treebins, m`treemap, m`smallmap, m`small, m`nodes,
             m`head, m`foot, m`heap, m`dv, m`dvsize
    ensures mem != 0 && Valid(m) && Served(old(m.heap), m.heap, mem - 16, nb)
    ensures SmallestLarge(old(m.heap), old(m.dv), mem - 16)
    ensures HeadsRing(old(m.head), old(m.nodes), mem - 16)
    ensures Quiet(old(MemoryOf(m)), MemoryOf(m), Lives(old(m.heap)))
    ensures HeadAt(m.head, mem - 16).pinuse
    ensures PlanOf(m) == Cut(old(PlanOf(m)), mem - 16, nb)
  {
    hide BinsInv, ViewsExcept, Books, Quiet, Lives, Given, Served, TreesOk, Kept, MemoryOf, Cut, FreeAt, PlanOf, SmallestLarge;
    BinsTrees(m);
    var v, rsize := FindSmallest(m, nb);
    LeadKept(m, {}, SizeAt(m.head, v));
    SmallestIs(m, v, SizeAt(m.head, v));
    ChunkAddress(m, {}, v);
    if OkAddress(m, v) {
      var r := v + nb;
      if v < r {
        UseSmallest(m, v, nb, rsize);
        return v + 16;
      } else {
        assert false;
      }
    } else {
      assert false;
    }
  }

  /** A free chunk other than the victim is in the small bin of its size, whose bit is set. */
  lemma SmallFree(w: World, v: BinView, x: int)
    requires ViewsExcept(w, {}) && BinsInv(w.head, v) && v.small == w.small && v.nodes == w.nodes
    requires x in w.heap && w.heap[x].use == Free && x != w.dv && w.heap[x].size < MIN_LARGE_SIZE
    ensures 0 <= w.heap[x].size && w.heap[x].size % 8 == 0 && w.heap[x].size / 8 < NSMALLBINS
    ensures Marked(v.smallmap, w.heap[x].size / 8)
  {
    var s := w.heap[x].size;
    assert FreeAt(w.heap, s, x);
    assert Kept(w.small, w.nodes, s, x);
    assert BinInv(w.head, v.fd, v.bk, v.smallmap, v.small, v.least, s / 8);
    hide Ring;
  }

  lemma BestOfSmall(w: World, v: BinView, i: int, p: int, nb: int)
    requires ViewsExcept(w, {}) && BinsInv(w.head, v) && v.small == w.small && v.nodes == w.nodes
    requires 0 <= nb <= 8 * i && i < NSMALLBINS && nb % 8 == 0 && FreeAt(w.heap, 8 * i, p) && p != w.dv
    requires forall j :: nb / 8 <= j < i ==> !Marked(v.smallmap, j)
    ensures BestKept(w.heap, w.dv, p, nb)
  {
    hide ViewsExcept, BinsInv, Marked;
    forall x | x in w.heap && w.heap[x].use == Free && x != w.dv && w.heap[x].size >= nb
      ensures w.heap[p].size <= w.heap[x].size
    {
      if w.heap[x].size < MIN_LARGE_SIZE {
        SmallFree(w, v, x);
      }
    }
  }

  /** No kept chunk has a size from `nb` up to, but not including, `top`. */
  ghost predicate NoneKept(c: Chunks, dv: int, nb: int, lim: int) {
    forall x :: x in c && c[x].use == Free && x != dv ==> !(nb <= c[x].size < lim)
  }

  lemma NoneInBins(w: World, v: BinView, nb: int, i: int)
    requires ViewsExcept(w, {}) && BinsInv(w.head, v) && v.small == w.small && v.nodes == w.nodes
    requires 0 <= nb && nb % 8 == 0 && i <= NSMALLBINS
    requires forall j :: nb / 8 <= j < i ==> !Marked(v.smallmap, j)
    ensures NoneKept(w.heap, w.dv, nb, 8 * i)
  {
    hide ViewsExcept, BinsInv, Marked;
    forall x | x in w.heap && w.heap[x].use == Free && x != w.dv
      ensures !(nb <= w.heap[x].size < 8 * i)
    {
      if w.heap[x].size < MIN_LARGE_SIZE {
        SmallFree(w, v, x);
      }
    }
  }

  /** An empty tree map means that no kept chunk is large. */
  lemma NoneInTrees(w: World, v: BinView)
    requires ViewsExcept(w, {}) && BinsInv(w.head, v) && v.small == w.small && v.nodes == w.nodes && v.treemap == 0
    ensures forall x :: x in w.heap && w.heap[x].use == Free && x != w.dv ==> w.heap[x].size < MIN_LARGE_SIZE
  {
    EmptyTrees(w.head, v);
    hide BinsInv, ViewsExcept;
    forall x | x in w.heap && w.heap[x].use == Free && x != w.dv
      ensures w.heap[x].size < MIN_LARGE_SIZE
    {
      if w.heap[x].size >= MIN_LARGE_SIZE {
        LargeFree(w, x);
      }
    }
  }

  lemma EmptyTrees(h: Heads, v: BinView)
    requires BinsInv(h, v) && v.treemap == 0
    ensures v.nodes == map[]
  {
    var t := v.TreeWith(h);
    EmptyMap(v.treemap);
    forall i | 0 <= i < NTREEBINS
      ensures t.bins[i] == 0
    {
      assert BinOk(t, v.nodes, i);
    }
    forall s | s in v.nodes
      ensures false
    {
      BelowRoot(t, v.nodes, s);
    }
  }

  /** The front chunk of a marked small bin. */
  lemma FrontChunk(m: Mstate, i: int)
    requires ValidExcept(m, {}) && 4 <= i < NSMALLBINS && Marked(m.smallmap, i)
    ensures |m.small| == NSMALLBINS && m.small[i] != []
    ensures var p := At(m.fd, SmallBinAt(i));
      Kept(m.small, m.nodes, 8 * i, p) && FreeAt(m.heap, 8 * i, p) && p != m.dv && p > 0 && SizeAt(m.head, p) == 8 * i
  {
    HeaderNeighbour(m.head, m.fd, m.bk, m.smallmap, m.small, m.leastAddr, i);
    var p := At(m.fd, SmallBinAt(i));
    assert Kept(m.small, m.nodes, 8 * i, p);
    assert FreeAt(m.heap, 8 * i, p);
  }

  /** The free chunk a small request of `nb` bytes is served from: the smallest kept chunk that fits
      when it is nearly exact or the victim does not fit. */
  ghost predicate SmallPick(c: Chunks, dv: int, dvsize: int, p: int, nb: int) {
    BestKept(c, dv, p, nb) && (c[p].size <= nb + 8 || dvsize < nb)
  }

  /** The front chunk of the first marked bin from the request's on is the best of the kept ones. */
  lemma FrontIsBest(m: Mstate, i: int, nb: int)
    requires Valid(m) && 0 <= nb <= 8 * i && 4 <= i < NSMALLBINS && nb % 8 == 0 && Marked(m.smallmap, i)
    requires forall j :: nb / 8 <= j < i ==> !Marked(m.smallmap, j)
    ensures |m.small| == NSMALLBINS && m.small[i] != []
    ensures var p := At(m.fd, SmallBinAt(i));
      && Kept(m.small, m.nodes, 8 * i, p) && FreeAt(m.heap, 8 * i, p) && p != m.dv && p > 0 && SizeAt(m.head, p) == 8 * i
      && p in m.heap && m.heap[p].size == 8 * i && BestKept(m.heap, m.dv, p, nb)
  {
    hide BinsInv, ViewsExcept, Books, Kept, BestKept, Marked;
    FrontChunk(m, i);
    BestOfSmall(WorldOf(m), BinsOf(m), i, At(m.fd, SmallBinAt(i)), nb);
  }

  lemma SmallMap(m: Mstate)
    requires BinsOk(m)
    ensures IsMap(m.smallmap)
  {}

  /** A remainderless fit: the first chunk of bin `i`, used whole. */
  method MallocExact(m: Mstate, nb: int, i: int) returns (mem: int)
    requires Valid(m) && MIN_CHUNK_SIZE <= nb && nb % 8 == 0 && 0 <= i < NSMALLBINS && Marked(m.smallmap, i)
    requires i == nb / 8 || (i == nb / 8 + 1 && !Marked(m.smallmap, nb / 8))
    modifies m`fd, m`bk, m`smallmap, m`small, m`head, m`heap
    ensures mem != 0 && Valid(m) && Served(old(m.heap), m.heap, mem - 16, nb)
    ensures SmallPick(old(m.heap), old(m.dv), old(m.dvsize), mem - 16, nb)
    ensures Quiet(old(MemoryOf(m)), MemoryOf(m), Lives(old(m.heap)))
    ensures HeadAt(m.head, mem - 16).pinuse
    ensures mem == old(At(m.fd, SmallBinAt(i))) + 16 && Given(old(m.heap), m.heap, mem - 16, 8 * i)
    ensures PlanOf(m) == Cut(old(PlanOf(m)), mem - 16, nb)
  {
    hide BinsInv, ViewsExcept, Books, Quiet, Lives, Given, Served, Kept, BestKept, Marked, Cut, Patch, MemoryOf, ValidExcept, FreeAt;
    ghost var a, c := MemoryOf(m), m.heap;
    var b := SmallBinAt(i);
    var p := At(m.fd, b);
    FrontIsBest(m, i, nb);
    DetachFirst(m, b, p, i, {});
    assert {} + {p} == {p};
    ghost var d := MemoryOf(m);
    CutWhole(PlanOf(m), p, 8 * i, nb);
    NotVictim(m, p, 8 * i);
    TakeWhole(m, p, 8 * i);
    QuietTrans(a, d, MemoryOf(m), Lives(c));
    IsServed(c, m.heap, p, 8 * i, nb);
    mem := p + 16;
  }

  /** A chunk of the next non-empty bin `i`; its rest becomes the victim. */
  method MallocNextBin(m: Mstate, nb: int, i: int) returns (mem: int)
    requires Valid(m) && MIN_CHUNK_SIZE <= nb && nb % 8 == 0 && nb / 8 < i < NSMALLBINS && Marked(m.smallmap, i)
    requires forall j :: nb / 8 <= j < i ==> !Marked(m.smallmap, j)
    requires m.dvsize < nb
    modifies m`fd, m`bk, m`smallmap, m`small, m`head, m`foot, m`heap, m`dv, m`dvsize
    ensures mem != 0 && Valid(m) && Served(old(m.heap), m.heap, mem - 16, nb)
    ensures SmallPick(old(m.heap), old(m.dv), old(m.dvsize), mem - 16, nb)
    ensures Quiet(old(MemoryOf(m)), MemoryOf(m), Lives(old(m.heap)))
    ensures HeadAt(m.head, mem - 16).pinuse
    ensures mem == old(At(m.fd, SmallBinAt(i))) + 16
    ensures PlanOf(m) == Cut(old(PlanOf(m)), mem - 16, nb)
  {
    hide BinsInv, ViewsExcept, Books, Quiet, Lives, Given, Served, Kept, BestKept, Marked, Cut, MemoryOf, ValidExcept, FreeAt, PlanOf;
    ghost var a, c := MemoryOf(m), m.heap;
    var b := SmallBinAt(i);
    var p := At(m.fd, b);
    FrontIsBest(m, i, nb);
    DetachFirst(m, b, p, i, {});
    assert {} + {p} == {p};
    ghost var d := MemoryOf(m);
    var rsize := 8 * i - nb;
    CarveToDv(m, p, nb, rsize);
    QuietTrans(a, d, MemoryOf(m), Lives(c));
    mem := p + 16;
  }

  lemma NoneSmall(w: World, v: BinView, nb: int)
    requires ViewsExcept(w, {}) && NoneKept(w.heap, w.dv, nb, MIN_LARGE_SIZE)
    requires forall x :: x in w.heap && w.heap[x].use == Free && x != w.dv ==> w.heap[x].size < MIN_LARGE_SIZE
    ensures forall k :: NoneKept(w.heap, w.dv, nb, k)
  {}

  lemma SmallestFits(c: Chunks, dv: int, p: int, nb: int)
    requires SmallestLarge(c, dv, p) && NoneKept(c, dv, nb, MIN_LARGE_SIZE) && nb < MIN_LARGE_SIZE
    ensures BestKept(c, dv, p, nb)
  {}

  /** No small bin has a chunk that fits: the trees are next. */
  method MallocFromTrees(m: Mstate, nb: int) returns (mem: int)
    requires Valid(m) && MIN_CHUNK_SIZE <= nb < MIN_LARGE_SIZE && nb % 8 == 0 && m.dvsize < nb
    requires NoneKept(m.heap, m.dv, nb, MIN_LARGE_SIZE)
    modifies m`fd, m`bk, m`child0, m`child1, m`parent, m`treebins, m`treemap, m`smallmap, m`small, m`nodes,
             m`head, m`foot, m`heap, m`dv, m`dvsize
    ensures mem == 0 ==> unchanged(m) && forall k :: NoneKept(m.heap, m.dv, nb, k)
    ensures mem != 0 ==> Valid(m) && Served(old(m.heap), m.heap, mem - 16, nb)
    ensures mem != 0 ==> SmallPick(old(m.heap), old(m.dv), old(m.dvsize), mem - 16, nb)
    ensures mem != 0 ==> Quiet(old(MemoryOf(m)), MemoryOf(m), Lives(old(m.heap)))
    ensures mem != 0 ==> HeadAt(m.head, mem - 16).pinuse
    ensures mem != 0 ==> PlanOf(m) == Cut(old(PlanOf(m)), mem - 16, nb)
  {
    hide ViewsExcept, BinsInv, Books, Quiet, Served, NoneKept, BestKept, SmallestLarge, Lives, Cut, MemoryOf, PlanOf;
    mem := 0;
    if m.treemap != 0 {
      ghost var c, dv := m.heap, m.dv;
      mem := TmallocSmall(m, nb);
      SmallestFits(c, dv, mem - 16, nb);
    } else {
      NoneInTrees(WorldOf(m), BinsOf(m));
      NoneSmall(WorldOf(m), BinsOf(m), nb);
    }
  }

  /** What the two low bits say: which bin has an exact or nearly exact fit, or that there is none. */
  lemma NearBins(m: Mstate, nb: int, idx: int)
    requires Valid(m) && MIN_CHUNK_SIZE <= nb < MIN_LARGE_SIZE && nb % 8 == 0 && idx == nb / 8
    ensures IsMap(m.smallmap) && IsMap(Shr(m.smallmap, idx)) && idx + 1 <= NSMALLBINS
    ensures And(Shr(m.smallmap, idx), 3) != 0 <==> Marked(m.smallmap, idx) || Marked(m.smallmap, idx + 1)
    ensures And(Not(Shr(m.smallmap, idx), MAP_BITS), 1) == if Marked(m.smallmap, idx) then 0 else 1
    ensures Marked(m.smallmap, idx + 1) ==> idx + 1 < NSMALLBINS
  {
    hide ViewsExcept, BinsInv, Books, Marked, And, Shr, Not;
    SmallMap(m);
    ThisBinOrNext(m.smallmap, idx);
  }

  lemma NoNearFit(m: Mstate, nb: int, idx: int)
    requires Valid(m) && MIN_CHUNK_SIZE <= nb < MIN_LARGE_SIZE && nb % 8 == 0 && idx == nb / 8
    requires !Marked(m.smallmap, idx) && !Marked(m.smallmap, idx + 1)
    ensures NoneKept(m.heap, m.dv, nb, nb + 8) && (nb + 16 <= MIN_LARGE_SIZE ==> NoneKept(m.heap, m.dv, nb, nb + 16))
  {
    hide ViewsExcept, BinsInv, Books, Marked, NoneKept;
    NoneInBins(WorldOf(m), BinsOf(m), nb, idx + 1);
    if nb + 16 <= MIN_LARGE_SIZE {
      NoneInBins(WorldOf(m), BinsOf(m), nb, idx + 2);
    }
  }

  lemma NoSmallFit(m: Mstate, nb: int)
    requires Valid(m) && 0 <= nb && nb % 8 == 0 && forall j :: nb / 8 <= j < NSMALLBINS ==> !Marked(m.smallmap, j)
    ensures NoneKept(m.heap, m.dv, nb, MIN_LARGE_SIZE)
  {
    hide ViewsExcept, BinsInv, Books, Marked, NoneKept;
    NoneInBins(WorldOf(m), BinsOf(m), nb, NSMALLBINS);
  }

  /** The bins beyond: the next that is not empty, or the trees. */
  method MallocBeyond(m: Mstate, nb: int, idx: int, smallbits: int) returns (mem: int)
    requires Valid(m) && MIN_CHUNK_SIZE <= nb < MIN_LARGE_SIZE && nb % 8 == 0 && idx == nb / 8
    requires IsMap(m.smallmap) && smallbits == Shr(m.smallmap, idx) && m.dvsize < nb
    requires !Marked(m.smallmap, idx) && !Marked(m.smallmap, idx + 1)
    modifies m`fd, m`bk, m`child0, m`child1, m`parent, m`treebins, m`treemap, m`smallmap, m`small, m`nodes,
             m`head, m`foot, m`heap, m`dv, m`dvsize
    ensures mem == 0 ==> unchanged(m) && forall k :: NoneKept(m.heap, m.dv, nb, k)
    ensures mem != 0 ==> Valid(m) && Served(old(m.heap), m.heap, mem - 16, nb)
    ensures mem != 0 ==> SmallPick(old(m.heap), old(m.dv), old(m.dvsize), mem - 16, nb)
    ensures mem != 0 ==> Quiet(old(MemoryOf(m)), MemoryOf(m), Lives(old(m.heap)))
    ensures mem != 0 ==> HeadAt(m.head, mem - 16).pinuse
    ensures mem != 0 ==> PlanOf(m) == Cut(old(PlanOf(m)), mem - 16, nb)
  {
    hide Valid, Marked, Quiet, Served, And, Shr, Shl, LeftBits, LeastBit, Bit2Idx, NoneKept, SmallPick, Lives, Cut, MemoryOf, PlanOf;
    NextSmallBin(m.smallmap, idx);
    if smallbits != 0 {
      var leftbits := And(Shl(smallbits, idx, MAP_BITS), LeftBits(IdxBit(idx)));
      mem := MallocNextBin(m, nb, Bit2Idx(LeastBit(leftbits)));
    } else {
      NoSmallFit(m, nb);
      mem := MallocFromTrees(m, nb);
    }
  }

  /** The first part of dlmalloc for small requests: the bins, or nothing if the victim is to be used
      or no kept chunk fits. */
  method MallocSmall(m: Mstate, nb: int) returns (mem: int)
    requires Valid(m) && MIN_CHUNK_SIZE <= nb < MIN_LARGE_SIZE && nb % 8 == 0
    modifies m`fd, m`bk, m`child0, m`child1, m`parent, m`treebins, m`treemap, m`smallmap, m`small, m`nodes,
             m`head, m`foot, m`heap, m`dv, m`dvsize
    ensures mem != 0 ==> Valid(m) && Served(old(m.heap), m.heap, mem - 16, nb)
    ensures mem != 0 ==> SmallPick(old(m.heap), old(m.dv), old(m.dvsize), mem - 16, nb)
    ensures mem != 0 ==> Quiet(old(MemoryOf(m)), MemoryOf(m), Lives(old(m.heap)))
    ensures mem == 0 ==> unchanged(m)
    ensures mem == 0 ==> NoneKept(m.heap, m.dv, nb, nb + 8) && (nb + 16 <= MIN_LARGE_SIZE ==> NoneKept(m.heap, m.dv, nb, nb + 16))
    ensures mem == 0 ==> nb <= m.dvsize || forall k :: NoneKept(m.heap, m.dv, nb, k)
    ensures mem != 0 ==> HeadAt(m.head, mem - 16).pinuse
    ensures mem != 0 ==> PlanOf(m) == Cut(old(PlanOf(m)), mem - 16, nb)
  {
    hide Valid, Quiet, Served, And, Shr, Not, Marked, NoneKept, SmallPick, Lives, Cut, MemoryOf, PlanOf;
    var idx := SmallIndex(nb);
    NearBins(m, nb, idx);
    var smallbits := Shr(m.smallmap, idx);
    mem := 0;
    if And(smallbits, 3) != 0 {
      mem := MallocExact(m, nb, idx + And(Not(smallbits, MAP_BITS), 1));
    } else {
      NoNearFit(m, nb, idx);
      if nb > m.dvsize {
        mem := MallocBeyond(m, nb, idx, smallbits);
      }
    }
  }
}
