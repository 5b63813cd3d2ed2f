/** What clients write into their blocks does not concern the allocator. */
module Scribbles {
  import opened Words
  import opened BinIndex
  import opened BinMaps
  import opened Rings
  import opened Trie
  import opened TriePaths
  import opened State
  import opened TreeBins
  import opened SmallBins
  import opened Index
  import opened Heap
  import opened Payload
  import opened Invariant

  /** From memory `a` to memory `b` anything may have happened inside the payloads, and nothing outside. */
  ghost predicate Scribbled(a: Memory, b: Memory, live: Blocks) {
    && (forall q {:trigger At(b.foot, q)} :: !InPayload(live, q) ==> At(b.foot, q) == At(a.foot, q))
    && (forall q {:trigger HeadAt(b.head, q)} :: !InPayload(live, q + 8) ==> HeadAt(b.head, q) == HeadAt(a.head, q))
    && (forall q {:trigger At(b.fd, q)} :: !InPayload(live, q + 16) ==> At(b.fd, q) == At(a.fd, q))
    && (forall q {:trigger At(b.bk, q)} :: !InPayload(live, q + 24) ==> At(b.bk, q) == At(a.bk, q))
    && (forall q {:trigger At(b.child0, q)} :: !InPayload(live, q + 32) ==> At(b.child0, q) == At(a.child0, q))
    && (forall q {:trigger At(b.child1, q)} :: !InPayload(live, q + 40) ==> At(b.child1, q) == At(a.child1, q))
    && (forall q {:trigger At(b.parent, q)} :: !InPayload(live, q + 48) ==> At(b.parent, q) == At(a.parent, q))
    && (forall q {:trigger At(b.index, q)} :: !InPayload(live, q + 56) ==> At(b.index, q) == At(a.index, q))
    && (forall r {:trigger At(b.segBase, r)} :: !InPayload(live, r) ==> At(b.segBase, r) == At(a.segBase, r))
    && (forall r {:trigger At(b.segSize, r)} :: !InPayload(live, r + 8) ==> At(b.segSize, r) == At(a.segSize, r))
    && (forall r {:trigger At(b.segNext, r)} :: !InPayload(live, r + 16) ==> At(b.segNext, r) == At(a.segNext, r))
  }

  /** The word at address `q + o` is the allocator's, by the chunk `q`: a head, or anything in a chunk that is
      not a block up to the foot word of the next chunk. */
  ghost predicate Owns(c: Chunks, q: int, o: int) {
    q in c && (o == 8 || (c[q].use != Live && 8 <= o <= c[q].size))
  }

  /** The allocator's words are not in any payload. */
  lemma OwnedOutside(c: Chunks, q: int, o: int)
    requires Heap.Apart(c) && Owns(c, q, o) && forall y :: y in c ==> c[y].size > 0
    ensures !InPayload(Lives(c), q + o)
  {
    OwnBytes(c, Lives(c), q, o);
  }

  /** And no two of them share an address: the words kept by chunk in separate maps are separate words. */
  lemma OwnedOnce(h: Heads, foot: Field, c: Chunks, p: int, o: int, q: int, o': int)
    requires Phys(h, foot, c) && Owns(c, p, o) && Owns(c, q, o') && p + o == q + o'
    ensures p == q && o == o'
  {
    assert ChunkOk(h, foot, c, p) && ChunkOk(h, foot, c, q);
    assert p < q || q < p || p == q;
  }

  // ---- the invariant after a scribble

  /** The words of a chunk that the invariant reads. */
  ghost predicate SameWords(a: Memory, b: Memory, c: Chunks, p: int) {
    && HeadAt(b.head, p) == HeadAt(a.head, p)
    && (p in c && c[p].use == Free ==>
         && At(b.foot, p + c[p].size) == At(a.foot, p + c[p].size) && At(b.fd, p) == At(a.fd, p) && At(b.bk, p) == At(a.bk, p)
         && (c[p].size >= MIN_LARGE_SIZE ==>
              && At(b.child0, p) == At(a.child0, p) && At(b.child1, p) == At(a.child1, p)
              && At(b.parent, p) == At(a.parent, p) && At(b.index, p) == At(a.index, p)))
    && (p in c && c[p].use == Record ==>
         && At(b.segBase, p + 16) == At(a.segBase, p + 16) && At(b.segSize, p + 16) == At(a.segSize, p + 16)
         && At(b.segNext, p + 16) == At(a.segNext, p + 16))
  }

  lemma WordsStand(a: Memory, b: Memory, h: Heads, foot: Field, c: Chunks, p: int)
    requires Phys(h, foot, c) && Scribbled(a, b, Lives(c)) && p in c
    ensures SameWords(a, b, c, p)
  {
    Sizes(h, foot, c);
    assert ChunkOk(h, foot, c, p);
    hide Phys, Scribbled, InPayload, Lives, Heap.Apart;
    OwnedOutside(c, p, 8);
    if c[p].use == Free {
      FreeOutside(c, p);
    }
    if c[p].use == Record {
      OwnedOutside(c, p, 16);
      OwnedOutside(c, p, 24);
      OwnedOutside(c, p, 32);
    }
    ScribbleAt(a, b, Lives(c), p, c[p].size);
  }

  lemma FreeOutside(c: Chunks, p: int)
    requires Heap.Apart(c) && (forall y :: y in c ==> c[y].size > 0) && p in c && c[p].use == Free && c[p].size >= MIN_CHUNK_SIZE
    ensures var live := Lives(c);
      && !InPayload(live, p + c[p].size) && !InPayload(live, p + 16) && !InPayload(live, p + 24)
      && (c[p].size >= MIN_LARGE_SIZE ==>
           !InPayload(live, p + 32) && !InPayload(live, p + 40) && !InPayload(live, p + 48) && !InPayload(live, p + 56))
  {
    hide Heap.Apart, InPayload, Lives;
    OwnedOutside(c, p, c[p].size);
    OwnedOutside(c, p, 16);
    OwnedOutside(c, p, 24);
    if c[p].size >= MIN_LARGE_SIZE {
      OwnedOutside(c, p, 32);
      OwnedOutside(c, p, 40);
      OwnedOutside(c, p, 48);
      OwnedOutside(c, p, 56);
    }
  }

  /** A scribble, read at the words of one chunk. */
  lemma ScribbleAt(a: Memory, b: Memory, live: Blocks, p: int, s: int)
    requires Scribbled(a, b, live)
    ensures !InPayload(live, p + 8) ==> HeadAt(b.head, p) == HeadAt(a.head, p)
    ensures !InPayload(live, p + s) ==> At(b.foot, p + s) == At(a.foot, p + s)
    ensures !InPayload(live, p + 16) ==> At(b.fd, p) == At(a.fd, p) && At(b.segBase, p + 16) == At(a.segBase, p + 16)
    ensures !InPayload(live, p + 24) ==> At(b.bk, p) == At(a.bk, p)
    ensures !InPayload(live, p + 16 + 8) ==> At(b.segSize, p + 16) == At(a.segSize, p + 16)
    ensures !InPayload(live, p + 16 + 16) ==> At(b.segNext, p + 16) == At(a.segNext, p + 16)
    ensures !InPayload(live, p + 32) ==> At(b.child0, p) == At(a.child0, p)
    ensures !InPayload(live, p + 40) ==> At(b.child1, p) == At(a.child1, p)
    ensures !InPayload(live, p + 48) ==> At(b.parent, p) == At(a.parent, p)
    ensures !InPayload(live, p + 56) ==> At(b.index, p) == At(a.index, p)
  {
    hide InPayload, At, HeadAt;
  }

  /** Nothing below address 24 is in a payload: bin headers and the head record are safe. */
  lemma LowAddresses(h: Heads, foot: Field, c: Chunks, w: int)
    requires Phys(h, foot, c) && w < 24
    ensures !InPayload(Lives(c), w)
  {
    Sizes(h, foot, c);
    hide Phys;
  }

  lemma AllStand(a: Memory, b: Memory, h: Heads, foot: Field, c: Chunks)
    requires Phys(h, foot, c) && Scribbled(a, b, Lives(c))
    ensures forall p {:trigger SameWords(a, b, c, p)} :: p in c ==> SameWords(a, b, c, p)
    ensures forall q {:trigger At(b.fd, q)} {:trigger At(b.bk, q)} :: q < 0 ==> At(b.fd, q) == At(a.fd, q) && At(b.bk, q) == At(a.bk, q)
    ensures At(b.segBase, SEG_HEAD) == At(a.segBase, SEG_HEAD) && At(b.segSize, SEG_HEAD) == At(a.segSize, SEG_HEAD)
    ensures At(b.segNext, SEG_HEAD) == At(a.segNext, SEG_HEAD)
  {
    hide Phys, Scribbled, InPayload, Lives, SameWords, At, HeadAt;
    forall p {:trigger SameWords(a, b, c, p)} | p in c
      ensures SameWords(a, b, c, p)
    {
      WordsStand(a, b, h, foot, c, p);
    }
    forall q {:trigger At(b.fd, q)} {:trigger At(b.bk, q)} | q < 0
      ensures At(b.fd, q) == At(a.fd, q) && At(b.bk, q) == At(a.bk, q)
    {
      LowAddresses(h, foot, c, q + 16);
      LowAddresses(h, foot, c, q + 24);
      ScribbleAt(a, b, Lives(c), q, 0);
    }
    LowAddresses(h, foot, c, SEG_HEAD);
    LowAddresses(h, foot, c, SEG_HEAD + 8);
    LowAddresses(h, foot, c, SEG_HEAD + 16);
    ScribbleAtRecord(a, b, Lives(c), SEG_HEAD);
  }

  lemma ScribbleAtRecord(a: Memory, b: Memory, live: Blocks, r: int)
    requires Scribbled(a, b, live) && !InPayload(live, r) && !InPayload(live, r + 8) && !InPayload(live, r + 16)
    ensures At(b.segBase, r) == At(a.segBase, r) && At(b.segSize, r) == At(a.segSize, r) && At(b.segNext, r) == At(a.segNext, r)
  {
    hide InPayload, At;
  }

  /** The allocator's words are as before. */
  ghost predicate Untouched(a: Memory, b: Memory, c: Chunks) {
    forall p {:trigger SameWords(a, b, c, p)} :: p in c ==> SameWords(a, b, c, p)
  }

  lemma StoodHead(a: Memory, b: Memory, c: Chunks, p: int)
    requires Untouched(a, b, c) && p in c
    ensures HeadAt(b.head, p) == HeadAt(a.head, p)
    ensures c[p].use == Free ==> At(b.foot, p + c[p].size) == At(a.foot, p + c[p].size)
  {
    assert SameWords(a, b, c, p);
  }

  lemma ChunkScribbled(a: Memory, b: Memory, c: Chunks, p: int)
    requires Untouched(a, b, c) && p in c && ChunkOk(a.head, a.foot, c, p)
    ensures ChunkOk(b.head, b.foot, c, p)
  {
    hide Untouched;
    StoodHead(a, b, c, p);
    if HasNext(c[p].use) {
      StoodHead(a, b, c, p + c[p].size);
    }
    if c[p].use != Trailer && !HeadAt(a.head, p).pinuse {
      StoodHead(a, b, c, p - At(a.foot, p));
    }
  }

  lemma PhysScribbled(a: Memory, b: Memory, c: Chunks)
    requires Untouched(a, b, c) && Phys(a.head, a.foot, c)
    ensures Phys(b.head, b.foot, c)
  {
    hide Untouched, ChunkOk, Heap.Apart;
    forall p | p in c
      ensures ChunkOk(b.head, b.foot, c, p)
    {
      assert ChunkOk(a.head, a.foot, c, p);
      ChunkScribbled(a, b, c, p);
    }
  }

  lemma SegsScribbled(a: Memory, b: Memory, c: Chunks, segs: seq<Seg>, top: int, topsize: int)
    requires Untouched(a, b, c) && SegsInv(a.head, c, segs, top, topsize)
    ensures SegsInv(b.head, c, segs, top, topsize)
  {
    hide TailOk, Covered, SegsApart, SameWords;
    forall i | 0 <= i < |segs|
      ensures BaseOk(b.head, c, segs[i])
    {
      assert BaseOk(a.head, c, segs[i]) && SameWords(a, b, c, segs[i].base);
      SameHead(a, b, c, segs[i].base);
    }
    hide BaseOk, Interior;
    SegsAssemble(b.head, c, segs, top, topsize);
  }

  lemma SameHead(a: Memory, b: Memory, c: Chunks, p: int)
    requires SameWords(a, b, c, p)
    ensures HeadAt(b.head, p) == HeadAt(a.head, p)
  {}

  /** The trees stand while all words of their chunks do. */
  lemma TreesFrame(m: Tree, fd: Field, bk: Field, index: Field, m': Tree, fd': Field, bk': Field, index': Field, t: Nodes, least: int)
    requires TreesInv(m, fd, bk, index, t, least) && m'.bins == m.bins && m'.treemap == m.treemap
    requires forall s, x {:trigger Binned(t, s, x)} :: Binned(t, s, x) ==>
      && m'.Size(x) == m.Size(x) && At(fd', x) == At(fd, x) && At(bk', x) == At(bk, x) && At(index', x) == At(index, x)
      && m'.Child(0, x) == m.Child(0, x) && m'.Child(1, x) == m.Child(1, x) && At(m'.parent, x) == At(m.parent, x)
    ensures TreesInv(m', fd', bk', index', t, least)
  {
    hide Ring, Shape, TreeIndex, Tree.Size, Tree.Child, At;
    forall s | s in t
      ensures t[s].lead in t[s].ring && RingOk(m', fd', bk', index', t, s)
    {
      assert RingOk(m, fd, bk, index, t, s);
      forall x | x in t[s].ring
        ensures Binned(t, s, x)
      {}
      RingOkFrame(m, fd, bk, index, t, m', fd', bk', index', t, s);
    }
    forall s | s in t
      ensures Binned(t, s, t[s].lead)
    {}
    ShapeFrame(m, m', t);
  }

  /** The bins after the words of memory `b` have replaced those of memory `a`. */
  ghost function ViewOf(v: BinView, b: Memory): BinView {
    v.(fd := b.fd, bk := b.bk, child0 := b.child0, child1 := b.child1, parent := b.parent, index := b.index)
  }

  ghost predicate KeptFree(c: Chunks, small: seq<seq<int>>, nodes: Nodes) {
    forall s, x {:trigger Kept(small, nodes, s, x)} :: Kept(small, nodes, s, x) ==> FreeAt(c, s, x)
  }

  lemma BinsScribbled(a: Memory, b: Memory, c: Chunks, v: BinView)
    requires Untouched(a, b, c) && BinsInv(a.head, v) && v == ViewOf(v, a) && KeptFree(c, v.small, v.nodes)
    requires forall q {:trigger At(b.fd, q)} {:trigger At(b.bk, q)} :: q < 0 ==> At(b.fd, q) == At(a.fd, q) && At(b.bk, q) == At(a.bk, q)
    ensures BinsInv(b.head, ViewOf(v, b))
  {
    hide BinsInv, Untouched, KeptFree, SmallInv, TreesInv;
    KeptHeads(a, b, c, v);
    BinsFrame(a.head, b.head, v);
    SmallScribbled(a, b, c, v);
    TreesScribbled(a, b, c, v);
    BothBins(b, v);
  }

  lemma BothBins(b: Memory, v: BinView)
    requires SmallInv(b.head, b.fd, b.bk, v.smallmap, v.small, v.least)
    requires TreesInv(ViewOf(v, b).TreeWith(b.head), b.fd, b.bk, b.index, v.nodes, v.least)
    ensures BinsInv(b.head, ViewOf(v, b))
  {
    hide SmallInv, TreesInv;
  }

  lemma KeptHeads(a: Memory, b: Memory, c: Chunks, v: BinView)
    requires Untouched(a, b, c) && KeptFree(c, v.small, v.nodes)
    ensures forall s, x {:trigger Kept(v.small, v.nodes, s, x)} :: Kept(v.small, v.nodes, s, x) ==> SizeAt(b.head, x) == SizeAt(a.head, x)
  {
    hide Kept, SameWords;
    forall s, x {:trigger Kept(v.small, v.nodes, s, x)} | Kept(v.small, v.nodes, s, x)
      ensures SizeAt(b.head, x) == SizeAt(a.head, x)
    {
      assert FreeAt(c, s, x) && SameWords(a, b, c, x);
      SameHead(a, b, c, x);
    }
  }

  lemma SmallScribbled(a: Memory, b: Memory, c: Chunks, v: BinView)
    requires Untouched(a, b, c) && BinsInv(b.head, v) && v == ViewOf(v, a) && KeptFree(c, v.small, v.nodes)
    requires forall q {:trigger At(b.fd, q)} {:trigger At(b.bk, q)} :: q < 0 ==> At(b.fd, q) == At(a.fd, q) && At(b.bk, q) == At(a.bk, q)
    ensures SmallInv(b.head, b.fd, b.bk, v.smallmap, v.small, v.least)
  {
    forall q | q < 0 || InBin(v.small, SizeAt(b.head, q), q)
      ensures At(b.fd, q) == At(a.fd, q) && At(b.bk, q) == At(a.bk, q)
    {
      if q >= 0 {
        var s := SizeAt(b.head, q);
        SmallKept(b.head, v, s, q);
        assert FreeAt(c, s, q) && SameWords(a, b, c, q);
      }
    }
    hide SmallInv, TreesInv, Untouched, KeptFree, InBin;
    SmallLinks(b.head, v.fd, v.bk, b.fd, b.bk, v.smallmap, v.small, v.least);
  }

  lemma SmallKept(h: Heads, v: BinView, s: int, q: int)
    requires BinsInv(h, v) && InBin(v.small, s, q)
    ensures Kept(v.small, v.nodes, s, q)
  {
    assert BinInv(h, v.fd, v.bk, v.smallmap, v.small, v.least, s / 8);
  }

  lemma TreesScribbled(a: Memory, b: Memory, c: Chunks, v: BinView)
    requires Untouched(a, b, c) && BinsInv(b.head, v) && v == ViewOf(v, a) && KeptFree(c, v.small, v.nodes)
    ensures TreesInv(ViewOf(v, b).TreeWith(b.head), b.fd, b.bk, b.index, v.nodes, v.least)
  {
    var m, m' := v.TreeWith(b.head), ViewOf(v, b).TreeWith(b.head);
    forall s, x {:trigger Binned(v.nodes, s, x)} | Binned(v.nodes, s, x)
      ensures m'.Size(x) == m.Size(x) && At(b.fd, x) == At(a.fd, x) && At(b.bk, x) == At(a.bk, x) && At(b.index, x) == At(a.index, x)
      ensures m'.Child(0, x) == m.Child(0, x) && m'.Child(1, x) == m.Child(1, x) && At(m'.parent, x) == At(m.parent, x)
    {
      KeptLarge(b.head, v, s);
      assert Kept(v.small, v.nodes, s, x);
      assert FreeAt(c, s, x) && SameWords(a, b, c, x);
    }
    hide SmallInv, TreesInv, Untouched, KeptFree, Binned, Tree.Size, Tree.Child, At;
    TreesFrame(m, v.fd, v.bk, v.index, m', b.fd, b.bk, b.index, v.nodes, v.least);
  }

  lemma RecordsScribbled(a: Memory, b: Memory, c: Chunks, segs: seq<Seg>)
    requires Untouched(a, b, c) && RecordsOk(a.segBase, a.segSize, a.segNext, segs)
    requires forall i {:trigger TailOk(c, segs[i])} :: 0 < i < |segs| ==> TailOk(c, segs[i])
    requires At(b.segBase, SEG_HEAD) == At(a.segBase, SEG_HEAD) && At(b.segSize, SEG_HEAD) == At(a.segSize, SEG_HEAD)
    requires At(b.segNext, SEG_HEAD) == At(a.segNext, SEG_HEAD)
    ensures RecordsOk(b.segBase, b.segSize, b.segNext, segs)
  {
    forall i | 0 <= i < |segs|
      ensures RecordOk(b.segBase, b.segSize, b.segNext, segs, i)
    {
      assert RecordOk(a.segBase, a.segSize, a.segNext, segs, i);
      if i > 0 {
        assert TailOk(c, segs[i]);
        assert SameWords(a, b, c, segs[i].rec - 16);
      }
    }
  }

  /** The invariant does not depend on the payloads. */
  lemma ScribbleKeeps(w: World, v: BinView, a: Memory, b: Memory, l: Ledger, total: int)
    requires ViewsExcept(w, {}) && BinsInv(w.head, v) && v.small == w.small && v.nodes == w.nodes && v == ViewOf(v, a)
    requires a.head == w.head && a.foot == w.foot && BooksInv(l, w.segs, total)
    requires a.segBase == l.segBase && a.segSize == l.segSize && a.segNext == l.segNext
    requires Scribbled(a, b, Lives(w.heap))
    ensures ViewsExcept(w.(head := b.head, foot := b.foot), {}) && BinsInv(b.head, ViewOf(v, b))
    ensures BooksInv(l.(segBase := b.segBase, segSize := b.segSize, segNext := b.segNext), w.segs, total)
  {
    hide BinsInv, Scribbled, Lives, Phys, IndexExcept, TopInv, SegsInv, RecordsOk, SameWords;
    AllStand(a, b, w.head, w.foot, w.heap);
    assert Untouched(a, b, w.heap);
    hide Untouched;
    PhysScribbled(a, b, w.heap);
    KeptIsFree(w);
    BinsScribbled(a, b, w.heap, v);
    if w.top != 0 {
      SegsScribbled(a, b, w.heap, w.segs, w.top, w.topsize);
      Tails(w);
    }
    RecordsScribbled(a, b, w.heap, w.segs);
  }

  lemma KeptIsFree(w: World)
    requires ViewsExcept(w, {})
    ensures KeptFree(w.heap, w.small, w.nodes)
  {
    hide Phys, SegsInv, TopInv, Kept;
  }

  lemma Tails(w: World)
    requires ViewsExcept(w, {}) && w.top != 0
    ensures forall i {:trigger TailOk(w.heap, w.segs[i])} :: 0 < i < |w.segs| ==> TailOk(w.heap, w.segs[i])
  {
    hide Phys, IndexExcept, TopInv, TailOk;
  }

  // ---- stores

  /** What a word of a payload may read as, whichever chunk word it would be. */
  datatype Bits = Bits(word: int, head: Head)

  /** The memory after a store to the word at `w`. */
  function Poked(a: Memory, w: int, x: Bits): Memory {
    Memory(a.head[w - 8 := x.head], a.foot[w := x.word], a.fd[w - 16 := x.word], a.bk[w - 24 := x.word],
           a.child0[w - 32 := x.word], a.child1[w - 40 := x.word], a.parent[w - 48 := x.word], a.index[w - 56 := x.word],
           a.segBase[w := x.word], a.segSize[w - 8 := x.word], a.segNext[w - 16 := x.word])
  }

  /** A store into a payload changes no word outside the payloads. */
  lemma StoredElsewhere(f: Field, live: Blocks, a: int, o: int, x: int)
    requires InPayload(live, a + o)
    ensures forall q {:trigger At(f[a := x], q)} :: !InPayload(live, q + o) ==> At(f[a := x], q) == At(f, q)
  {
    hide InPayload;
  }

  lemma HeadElsewhere(h: Heads, live: Blocks, w: int, k: Head)
    requires InPayload(live, w)
    ensures forall q {:trigger HeadAt(h[w - 8 := k], q)} :: !InPayload(live, q + 8) ==> HeadAt(h[w - 8 := k], q) == HeadAt(h, q)
  {
    hide InPayload;
  }

  lemma PokeScribbles(a: Memory, w: int, x: Bits, live: Blocks)
    requires InPayload(live, w)
    ensures Scribbled(a, Poked(a, w, x), live)
  {
    hide InPayload, At, HeadAt;
    HeadElsewhere(a.head, live, w, x.head);
    StoredElsewhere(a.foot, live, w, 0, x.word);
    StoredElsewhere(a.fd, live, w - 16, 16, x.word);
    StoredElsewhere(a.bk, live, w - 24, 24, x.word);
    StoredElsewhere(a.child0, live, w - 32, 32, x.word);
    StoredElsewhere(a.child1, live, w - 40, 40, x.word);
    StoredElsewhere(a.parent, live, w - 48, 48, x.word);
    StoredElsewhere(a.index, live, w - 56, 56, x.word);
    StoredElsewhere(a.segBase, live, w, 0, x.word);
    StoredElsewhere(a.segSize, live, w - 8, 8, x.word);
    StoredElsewhere(a.segNext, live, w - 16, 16, x.word);
  }

  method Poke(m: Mstate, w: int, x: Bits)
    requires Valid(m) && InPayload(Lives(m.heap), w)
    modifies m`head, m`foot, m`fd, m`bk, m`child0, m`child1, m`parent, m`index, m`segBase, m`segSize, m`segNext
    ensures Valid(m) && MemoryOf(m) == Poked(old(MemoryOf(m)), w, x)
  {
    hide ViewsExcept, BinsInv, BooksInv, TotalSize, Scribbled, InPayload, Lives, Poked, WorldOf, BinsOf, LedgerOf, MemoryOf, ValidExcept;
    ghost var b := Poked(MemoryOf(m), w, x);
    TakenApart(m, {});
    ViewOfMemory(m);
    PokeScribbles(MemoryOf(m), w, x, Lives(m.heap));
    ScribbleKeeps(WorldOf(m), BinsOf(m), MemoryOf(m), b, LedgerOf(m), TotalSize(m.segs));
    WritePoke(m, w, x);
    PutTogether(m, WorldOf(m), BinsOf(m), LedgerOf(m), {});
  }

  lemma ViewOfMemory(m: Mstate)
    ensures BinsOf(m) == ViewOf(BinsOf(m), MemoryOf(m))
  {}

  method PutPoke(m: Mstate, w: int, x: Bits)
    modifies m`head, m`foot, m`fd, m`bk, m`child0, m`child1, m`parent, m`index, m`segBase, m`segSize, m`segNext
    ensures MemoryOf(m) == Poked(old(MemoryOf(m)), w, x)
  {
    m.head := m.head[w - 8 := x.head];
    m.foot := m.foot[w := x.word];
    m.fd := m.fd[w - 16 := x.word];
    m.bk := m.bk[w - 24 := x.word];
    m.child0 := m.child0[w - 32 := x.word];
    m.child1 := m.child1[w - 40 := x.word];
    m.parent := m.parent[w - 48 := x.word];
    m.index := m.index[w - 56 := x.word];
    m.segBase := m.segBase[w := x.word];
    m.segSize := m.segSize[w - 8 := x.word];
    m.segNext := m.segNext[w - 16 := x.word];
  }

  /** The same, told of the views. */
  method WritePoke(m: Mstate, w: int, x: Bits)
    modifies m`head, m`foot, m`fd, m`bk, m`child0, m`child1, m`parent, m`index, m`segBase, m`segSize, m`segNext
    ensures MemoryOf(m) == Poked(old(MemoryOf(m)), w, x)
    ensures var b := MemoryOf(m);
      && WorldOf(m) == old(WorldOf(m)).(head := b.head, foot := b.foot) && BinsOf(m) == ViewOf(old(BinsOf(m)), b)
      && LedgerOf(m) == old(LedgerOf(m)).(segBase := b.segBase, segSize := b.segSize, segNext := b.segNext)
  {
    hide Poked;
    PutPoke(m, w, x);
  }

  // ---- memcpy and memset

  /** The bytes the clients have put into their blocks. */
  class Bytes {
    var at: Field

    constructor ()
      ensures at == map[]
    {
      at := map[];
    }
  }

  /** The bytes after the `n` bytes from `src` have been copied to `dst`. */
  ghost function CopyOf(f: Field, dst: int, src: int, n: nat): Field {
    if n == 0 then f else CopyOf(f, dst, src, n - 1)[dst + n - 1 := At(f, src + n - 1)]
  }

  lemma {:induction false} CopyOfAt(f: Field, dst: int, src: int, n: nat, w: int)
    ensures At(CopyOf(f, dst, src, n), w) == if dst <= w < dst + n then At(f, src + (w - dst)) else At(f, w)
  {
    if n > 0 {
      CopyOfAt(f, dst, src, n - 1, w);
    }
  }

  /** The bytes after `n` bytes from `dst` have been cleared. */
  ghost function ClearedBytes(f: Field, dst: int, n: nat): Field {
    if n == 0 then f else ClearedBytes(f, dst, n - 1)[dst + n - 1 := 0]
  }

  lemma {:induction false} ClearedAt(f: Field, dst: int, n: nat, w: int)
    ensures At(ClearedBytes(f, dst, n), w) == if dst <= w < dst + n then 0 else At(f, w)
  {
    if n > 0 {
      ClearedAt(f, dst, n - 1, w);
    }
  }

  /** A store of one byte into the block `q`: the chunk words over it are lost. */
  method StoreByte(m: Mstate, d: Bytes, w: int, x: int, ghost q: int)
    requires Valid(m) && q in Lives(m.heap) && q + 16 <= w < q + Lives(m.heap)[q] + 8
    modifies m`head, m`foot, m`fd, m`bk, m`child0, m`child1, m`parent, m`index, m`segBase, m`segSize, m`segNext, d
    ensures Valid(m) && d.at == old(d.at)[w := x]
    ensures Scribbled(old(MemoryOf(m)), MemoryOf(m), map[q := Lives(m.heap)[q]])
  {
    hide Valid, Scribbled, Lives, InPayload, Poked;
    WordOfByte(m, w, q);
    ghost var s := Lives(m.heap)[q];
    var bits: Bits := *;
    PokeScribbles(MemoryOf(m), w - w % 8, bits, map[q := s]);
    Poke(m, w - w % 8, bits);
    d.at := d.at[w := x];
  }

  lemma WordOfByte(m: Mstate, w: int, q: int)
    requires Valid(m) && q in Lives(m.heap) && q + 16 <= w < q + Lives(m.heap)[q] + 8
    ensures InPayload(Lives(m.heap), w - w % 8) && InPayload(map[q := Lives(m.heap)[q]], w - w % 8)
  {
    hide BinsInv, BooksInv, IndexExcept, SegsInv, TopInv;
    assert ChunkOk(m.head, m.foot, m.heap, q);
    var mine := map[q := Lives(m.heap)[q]];
    assert q in mine && q + 16 <= w - w % 8 < q + mine[q] + 8;
  }

  lemma ScribbledTrans(a: Memory, b: Memory, d: Memory, live: Blocks)
    requires Scribbled(a, b, live) && Scribbled(b, d, live)
    ensures Scribbled(a, d, live)
  {
    hide InPayload, At, HeadAt;
  }

  lemma ScribbledSelf(a: Memory, live: Blocks)
    ensures Scribbled(a, a, live)
  {}

  /** memcpy into the block `q`. */
  method MemCopy(m: Mstate, d: Bytes, dst: int, src: int, n: nat, ghost q: int)
    requires Valid(m) && q in Lives(m.heap) && dst == q + 16 && n <= Lives(m.heap)[q] - 8
    requires dst + n <= src || src + n <= dst
    modifies m`head, m`foot, m`fd, m`bk, m`child0, m`child1, m`parent, m`index, m`segBase, m`segSize, m`segNext, d
    ensures Valid(m) && d.at == CopyOf(old(d.at), dst, src, n)
    ensures Scribbled(old(MemoryOf(m)), MemoryOf(m), map[q := Lives(m.heap)[q]])
  {
    hide Valid, Scribbled, Lives;
    ghost var a, mine := MemoryOf(m), map[q := Lives(m.heap)[q]];
    ScribbledSelf(a, mine);
    var k := 0;
    while k < n
      invariant 0 <= k <= n && Valid(m)
      invariant d.at == CopyOf(old(d.at), dst, src, k)
      invariant Scribbled(a, MemoryOf(m), mine)
    {
      CopyOfAt(old(d.at), dst, src, k, src + k);
      ghost var b := MemoryOf(m);
      StoreByte(m, d, dst + k, At(d.at, src + k), q);
      ScribbledTrans(a, b, MemoryOf(m), mine);
      k := k + 1;
    }
  }

  /** memset with zero in the block `q`. */
  method MemClear(m: Mstate, d: Bytes, dst: int, n: nat, ghost q: int)
    requires Valid(m) && q in Lives(m.heap) && dst == q + 16 && n <= Lives(m.heap)[q] - 8
    modifies m`head, m`foot, m`fd, m`bk, m`child0, m`child1, m`parent, m`index, m`segBase, m`segSize, m`segNext, d
    ensures Valid(m) && d.at == ClearedBytes(old(d.at), dst, n)
    ensures Scribbled(old(MemoryOf(m)), MemoryOf(m), map[q := Lives(m.heap)[q]])
  {
    hide Valid, Scribbled, Lives;
    ghost var a, mine := MemoryOf(m), map[q := Lives(m.heap)[q]];
    ScribbledSelf(a, mine);
    var k := 0;
    while k < n
      invariant 0 <= k <= n && Valid(m)
      invariant d.at == ClearedBytes(old(d.at), dst, k)
      invariant Scribbled(a, MemoryOf(m), mine)
    {
      ghost var b := MemoryOf(m);
      StoreByte(m, d, dst + k, 0, q);
      ScribbledTrans(a, b, MemoryOf(m), mine);
      k := k + 1;
    }
  }

  // ---- words in payloads

  /** Byte `k` of a word, the lowest first. */
  function ByteOf(x: nat, k: nat): int {
    if k == 0 then x % 256 else ByteOf(x / 256, k - 1)
  }

  /** The word of `n` bytes at `a`. */
  function WordAt(f: Field, a: int, n: nat): int
    decreases n
  {
    if n == 0 then 0 else At(f, a) + 256 * WordAt(f, a + 1, n - 1)
  }

  /** The lowest `n` bytes of `x` are at `a`. */
  ghost predicate Holding(f: Field, a: int, x: nat, n: nat) {
    forall k: nat {:trigger ByteOf(x, k)} :: k < n ==> At(f, a + k) == ByteOf(x, k)
  }

  /** The bytes spell the word out. */
  lemma {:induction false} HoldingReads(f: Field, a: int, x: nat, n: nat)
    requires Holding(f, a, x, n) && x < Pow2(8 * n)
    ensures WordAt(f, a, n) == x
    decreases n
  {
    if n > 0 {
      forall k: nat {:trigger ByteOf(x / 256, k)} | k < n - 1
        ensures At(f, a + 1 + k) == ByteOf(x / 256, k)
      {
        assert ByteOf(x, k + 1) == ByteOf(x / 256, k);
      }
      assert ByteOf(x, 0) == x % 256;
      EightMore(x, n - 1);
      HoldingReads(f, a + 1, x / 256, n - 1);
    }
  }

  lemma EightMore(x: nat, n: nat)
    requires x < Pow2(8 * (n + 1))
    ensures x / 256 < Pow2(8 * n)
  {
    Pow2Plus8(8 * n);
    assert 8 * (n + 1) == 8 * n + 8;
  }

  /** The bytes of the first `n` words `xs`, one after the other from `dst` on. */
  ghost predicate Spelled(f: Field, dst: int, xs: seq<int>, n: nat) {
    n <= |xs| && forall i {:trigger xs[i]} :: 0 <= i < n ==> xs[i] >= 0 && Holding(f, dst + 8 * i, xs[i], 8)
  }

  /** Only bytes from `dst` up to `dst + len` differ. */
  ghost predicate OnlyThere(f: Field, f': Field, dst: int, len: int) {
    forall w {:trigger At(f', w)} :: !(dst <= w < dst + len) ==> At(f', w) == At(f, w)
  }

  /** A word is stored, byte by byte. */
  method StoreWord(m: Mstate, d: Bytes, a: int, x: nat, ghost q: int)
    requires Valid(m) && q in Lives(m.heap) && q + 16 <= a && a + 8 <= q + Lives(m.heap)[q] + 8
    modifies m`head, m`foot, m`fd, m`bk, m`child0, m`child1, m`parent, m`index, m`segBase, m`segSize, m`segNext, d
    ensures Valid(m) && Holding(d.at, a, x, 8) && OnlyThere(old(d.at), d.at, a, 8)
    ensures Scribbled(old(MemoryOf(m)), MemoryOf(m), map[q := Lives(m.heap)[q]])
  {
    hide Valid, Scribbled, Lives, ByteOf, Holding, OnlyThere;
    ghost var b, mine := MemoryOf(m), map[q := Lives(m.heap)[q]];
    ScribbledSelf(b, mine);
    NothingHeld(d.at, a, x);
    var k := 0;
    while k < 8
      invariant 0 <= k <= 8 && Valid(m)
      invariant Holding(d.at, a, x, k) && OnlyThere(old(d.at), d.at, a, k)
      invariant Scribbled(b, MemoryOf(m), mine)
    {
      ghost var e, f := MemoryOf(m), d.at;
      StoreByte(m, d, a + k, ByteOf(x, k), q);
      OneMoreByte(old(d.at), f, a, x, k);
      ScribbledTrans(b, e, MemoryOf(m), mine);
      k := k + 1;
    }
  }

  lemma NothingHeld(f: Field, a: int, x: nat)
    ensures Holding(f, a, x, 0) && OnlyThere(f, f, a, 0)
  {}

  lemma OneMoreByte(f0: Field, f: Field, a: int, x: nat, k: nat)
    requires Holding(f, a, x, k) && OnlyThere(f0, f, a, k)
    ensures Holding(f[a + k := ByteOf(x, k)], a, x, k + 1) && OnlyThere(f0, f[a + k := ByteOf(x, k)], a, k + 1)
  {
    hide ByteOf;
    var f' := f[a + k := ByteOf(x, k)];
    forall w {:trigger At(f', w)} | !(a <= w < a + k + 1)
      ensures At(f', w) == At(f0, w)
    {
      assert At(f', w) == At(f, w);
    }
  }

  /** An array of words is filled. */
  method StoreWords(m: Mstate, d: Bytes, dst: int, xs: seq<int>, ghost q: int)
    requires Valid(m) && q in Lives(m.heap) && dst == q + 16 && 8 * |xs| <= Lives(m.heap)[q] - 8
    requires forall i {:trigger xs[i]} :: 0 <= i < |xs| ==> xs[i] >= 0
    modifies m`head, m`foot, m`fd, m`bk, m`child0, m`child1, m`parent, m`index, m`segBase, m`segSize, m`segNext, d
    ensures Valid(m) && Spelled(d.at, dst, xs, |xs|) && OnlyThere(old(d.at), d.at, dst, 8 * |xs|)
    ensures Scribbled(old(MemoryOf(m)), MemoryOf(m), map[q := Lives(m.heap)[q]])
  {
    hide Valid, Scribbled, Lives, Holding, Spelled, OnlyThere;
    ghost var b, mine := MemoryOf(m), map[q := Lives(m.heap)[q]];
    ScribbledSelf(b, mine);
    NothingSpelled(d.at, dst, xs);
    var i := 0;
    while i < |xs|
      invariant 0 <= i <= |xs| && Valid(m)
      invariant Spelled(d.at, dst, xs, i) && OnlyThere(old(d.at), d.at, dst, 8 * i)
      invariant Scribbled(b, MemoryOf(m), mine)
    {
      ghost var e, f := MemoryOf(m), d.at;
      StoreWord(m, d, dst + 8 * i, xs[i], q);
      OneMoreWord(old(d.at), f, d.at, dst, xs, i);
      ScribbledTrans(b, e, MemoryOf(m), mine);
      i := i + 1;
    }
  }

  lemma NothingSpelled(f: Field, dst: int, xs: seq<int>)
    ensures Spelled(f, dst, xs, 0) && OnlyThere(f, f, dst, 0)
  {}

  lemma OneMoreWord(f0: Field, f: Field, f': Field, dst: int, xs: seq<int>, i: nat)
    requires i < |xs| && xs[i] >= 0 && Spelled(f, dst, xs, i) && OnlyThere(f0, f, dst, 8 * i)
    requires Holding(f', dst + 8 * i, xs[i], 8) && OnlyThere(f, f', dst + 8 * i, 8)
    ensures Spelled(f', dst, xs, i + 1) && OnlyThere(f0, f', dst, 8 * (i + 1))
  {
    hide At, ByteOf;
    forall j {:trigger xs[j]} | 0 <= j < i
      ensures Holding(f', dst + 8 * j, xs[j], 8)
    {
      assert Holding(f, dst + 8 * j, xs[j], 8);
    }
  }

  /** Payloads are apart: a scribble in one block leaves the others alone. */
  lemma OthersQuiet(m: Mstate, a: Memory, b: Memory, q: int)
    requires Valid(m) && q in Lives(m.heap) && Scribbled(a, b, map[q := Lives(m.heap)[q]])
    ensures Quiet(a, b, Lives(m.heap) - {q})
    ensures HeadAt(b.head, q) == HeadAt(a.head, q)
  {
    var mine, others := map[q := Lives(m.heap)[q]], Lives(m.heap) - {q};
    forall w | InPayload(others, w)
      ensures !InPayload(mine, w)
    {
      PayloadsApart(m, q, w);
    }
    assert !InPayload(mine, q + 8);
    hide Valid, Lives, InPayload;
  }

  lemma PayloadsApart(m: Mstate, q: int, w: int)
    requires Valid(m) && q in Lives(m.heap) && InPayload(Lives(m.heap) - {q}, w)
    ensures !(q + 16 <= w < q + Lives(m.heap)[q] + 8)
  {
    hide BinsInv, BooksInv, IndexExcept, SegsInv, TopInv;
    var y :| y in Lives(m.heap) - {q} && y + 16 <= w < y + Lives(m.heap)[y] + 8;
    assert m.heap[y].use == Live && m.heap[q].use == Live;
    assert y < q || q < y;
  }
}
