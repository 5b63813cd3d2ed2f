/** Which bytes belong to the clients, and that the allocator keeps away from them. */
module Payload {
  import opened BinIndex
  import opened Rings
  import opened Trie
  import opened State
  import opened Heap

  /** The blocks in the clients' hands: chunk addresses and chunk sizes. */
  type Blocks = map<int, int>

  ghost function Lives(c: Chunks): Blocks {
    map p | p in c && c[p].use == Live :: c[p].size
  }

  /** The word at `w` belongs to the client of a block: a payload starts behind the head word and
      runs over the foot word of the next chunk. */
  ghost predicate InPayload(live: Blocks, w: int) {
    exists y :: y in live && y + 16 <= w < y + live[y] + 8
  }

  /** Between memories `a` and `b` no word in a payload changed, whichever chunk word it would be. */
  ghost predicate Quiet(a: Memory, b: Memory, live: Blocks) {
    && (forall q :: InPayload(live, q) ==> At(b.foot, q) == At(a.foot, q))
    && (forall q :: InPayload(live, q + 8) ==> HeadAt(b.head, q) == HeadAt(a.head, q))
    && (forall q :: InPayload(live, q + 16) ==> At(b.fd, q) == At(a.fd, q))
    && (forall q :: InPayload(live, q + 24) ==> At(b.bk, q) == At(a.bk, q))
    && (forall q :: InPayload(live, q + 32) ==> At(b.child0, q) == At(a.child0, q))
    && (forall q :: InPayload(live, q + 40) ==> At(b.child1, q) == At(a.child1, q))
    && (forall q :: InPayload(live, q + 48) ==> At(b.parent, q) == At(a.parent, q))
    && (forall q :: InPayload(live, q + 56) ==> At(b.index, q) == At(a.index, q))
    && (forall r :: InPayload(live, r) ==> At(b.segBase, r) == At(a.segBase, r))
    && (forall r :: InPayload(live, r + 8) ==> At(b.segSize, r) == At(a.segSize, r))
    && (forall r :: InPayload(live, r + 16) ==> At(b.segNext, r) == At(a.segNext, r))
  }

  /** The blocks `live`, none of them larger, are among the blocks `all`. */
  ghost predicate Within(live: Blocks, all: Blocks) {
    forall y :: y in live ==> y in all && live[y] <= all[y]
  }

  lemma QuietAntitone(a: Memory, b: Memory, live: Blocks, all: Blocks)
    requires Quiet(a, b, all) && Within(live, all)
    ensures Quiet(a, b, live)
  {
    forall w | InPayload(live, w)
      ensures InPayload(all, w)
    {
      var y :| y in live && y + 16 <= w < y + live[y] + 8;
      assert y in all && y + 16 <= w < y + all[y] + 8;
    }
    hide InPayload, Within;
  }

  lemma QuietTrans(a: Memory, b: Memory, d: Memory, live: Blocks)
    requires Quiet(a, b, live) && Quiet(b, d, live)
    ensures Quiet(a, d, live)
  {
    hide InPayload, At, HeadAt;
  }

  /** The bytes a chunk owns -- from its head word to the next chunk's foot word -- are in no
      other chunk's payload; the head word is in none at all. */
  lemma OwnBytes(c: Chunks, live: Blocks, q: int, o: int)
    requires Apart(c) && Within(live, Lives(c)) && q in c
    requires 8 <= o <= c[q].size || o == 8
    requires forall y :: y in c ==> c[y].size > 0
    requires q !in live || o == 8
    ensures !InPayload(live, q + o)
  {
    forall y | y in live
      ensures !(y + 16 <= q + o < y + live[y] + 8)
    {
      assert y in c && live[y] <= c[y].size;
      assert y < q || q < y || q == y;
    }
  }

  lemma Sizes(h: Heads, foot: Field, c: Chunks)
    requires Phys(h, foot, c)
    ensures Apart(c) && forall y :: y in c ==> c[y].size > 0 && y >= 8
    ensures forall y :: y in c && c[y].use == Free ==> c[y].size >= MIN_CHUNK_SIZE
  {
    forall y | y in c
      ensures c[y].size > 0 && y >= 8 && (c[y].use == Free ==> c[y].size >= MIN_CHUNK_SIZE)
    {
      assert ChunkOk(h, foot, c, y);
    }
  }

  /** Links that a bin operation may write: those of free chunks and of the bin headers. */
  ghost predicate FreeWord(c: Chunks, q: int) {
    q in c && c[q].use == Free
  }

  ghost predicate BigFreeWord(c: Chunks, q: int) {
    q in c && c[q].use == Free && c[q].size >= MIN_LARGE_SIZE
  }

  ghost predicate BinWrites(a: Memory, b: Memory, c: Chunks) {
    && b == a.(fd := b.fd, bk := b.bk, child0 := b.child0, child1 := b.child1, parent := b.parent, index := b.index)
    && (forall q :: q >= 0 && !FreeWord(c, q) ==> At(b.fd, q) == At(a.fd, q) && At(b.bk, q) == At(a.bk, q))
    && (forall q :: !BigFreeWord(c, q) ==>
         && At(b.child0, q) == At(a.child0, q) && At(b.child1, q) == At(a.child1, q)
         && At(b.parent, q) == At(a.parent, q) && At(b.index, q) == At(a.index, q))
  }

  lemma BinWritesQuiet(a: Memory, b: Memory, c: Chunks)
    requires Phys(a.head, a.foot, c) && BinWrites(a, b, c)
    ensures Quiet(a, b, Lives(c))
  {
    Sizes(a.head, a.foot, c);
    hide Phys;
    var live := Lives(c);
    forall q
      ensures q < 0 || FreeWord(c, q) ==> !InPayload(live, q + 16) && !InPayload(live, q + 24)
      ensures BigFreeWord(c, q) ==>
        !InPayload(live, q + 32) && !InPayload(live, q + 40) && !InPayload(live, q + 48) && !InPayload(live, q + 56)
    {
      if FreeWord(c, q) {
        OwnBytes(c, live, q, 16);
        OwnBytes(c, live, q, 24);
      }
      if BigFreeWord(c, q) {
        OwnBytes(c, live, q, 32);
        OwnBytes(c, live, q, 40);
        OwnBytes(c, live, q, 48);
        OwnBytes(c, live, q, 56);
      }
    }
    hide InPayload, Lives, Apart;
    forall q
      ensures InPayload(live, q + 16) ==> At(b.fd, q) == At(a.fd, q)
      ensures InPayload(live, q + 24) ==> At(b.bk, q) == At(a.bk, q)
      ensures InPayload(live, q + 32) ==> At(b.child0, q) == At(a.child0, q)
      ensures InPayload(live, q + 40) ==> At(b.child1, q) == At(a.child1, q)
      ensures InPayload(live, q + 48) ==> At(b.parent, q) == At(a.parent, q)
      ensures InPayload(live, q + 56) ==> At(b.index, q) == At(a.index, q)
    {
    }
  }

  /** Head words are written at chunk addresses only, and a foot only behind a chunk that is not live. */
  ghost predicate TagWrites(a: Memory, b: Memory, c: Chunks, c': Chunks) {
    && b == a.(head := b.head, foot := b.foot)
    && (forall q :: HeadAt(b.head, q) != HeadAt(a.head, q) ==> q in c || q in c')
    && (forall q :: At(b.foot, q) != At(a.foot, q) ==> FootOf(c', q))
  }

  ghost predicate FootOf(c: Chunks, n: int) {
    exists x :: x in c && c[x].use == Free && n == x + c[x].size
  }

  lemma TagWritesQuiet(a: Memory, b: Memory, c: Chunks, c': Chunks, live: Blocks)
    requires Phys(a.head, a.foot, c) && Phys(b.head, b.foot, c') && TagWrites(a, b, c, c')
    requires Within(live, Lives(c)) && Within(live, Lives(c'))
    ensures Quiet(a, b, live)
  {
    Sizes(a.head, a.foot, c);
    Sizes(b.head, b.foot, c');
    hide Phys;
    forall q | HeadAt(b.head, q) != HeadAt(a.head, q)
      ensures !InPayload(live, q + 8)
    {
      if q in c {
        OwnBytes(c, live, q, 8);
      } else {
        OwnBytes(c', live, q, 8);
      }
    }
    forall q | At(b.foot, q) != At(a.foot, q)
      ensures !InPayload(live, q)
    {
      var x :| x in c' && c'[x].use == Free && q == x + c'[x].size;
      OwnBytes(c', live, x, c'[x].size);
    }
    hide InPayload;
  }

  // ---- blocks around a patched stretch

  ghost function LivesOutside(c: Chunks, a: int, b: int): Blocks {
    map p | p in c && c[p].use == Live && !(a <= p < b) :: c[p].size
  }

  lemma LivesPatch(c: Chunks, a: int, b: int, d: Chunks)
    requires forall x :: x in d ==> a <= x < b
    ensures Lives(Patch(c, a, b, d)) == LivesOutside(c, a, b) + Lives(d)
    ensures (forall x :: x in c && a <= x < b ==> c[x].use != Live) ==> LivesOutside(c, a, b) == Lives(c)
    ensures Within(LivesOutside(c, a, b), Lives(c)) && Within(LivesOutside(c, a, b), Lives(Patch(c, a, b, d)))
  {
    var c', l := Patch(c, a, b, d), LivesOutside(c, a, b);
    forall x
      ensures x in Lives(c') <==> x in l + Lives(d)
      ensures x in Lives(c') ==> Lives(c')[x] == (l + Lives(d))[x]
    {
    }
  }

  /** The heads the step writes belong to chunks before or after it; the one foot, at `n`, to a free chunk. */
  ghost predicate Retag(a: Memory, h': Heads, foot': Field, c: Chunks, c': Chunks) {
    && (forall q :: HeadAt(h', q) != HeadAt(a.head, q) ==> q in c || q in c')
    && (forall q :: At(foot', q) != At(a.foot, q) ==> FootOf(c', q))
  }

  /** A patch does not touch the payloads of the blocks outside its stretch. */
  lemma PatchQuiet(a: Memory, h': Heads, foot': Field, c: Chunks, lo: int, hi: int, d: Chunks)
    requires Phys(a.head, a.foot, c) && Phys(h', foot', Patch(c, lo, hi, d))
    requires Retag(a, h', foot', c, Patch(c, lo, hi, d))
    requires forall x :: x in d ==> lo <= x < hi
    ensures Quiet(a, a.(head := h', foot := foot'), LivesOutside(c, lo, hi))
  {
    LivesPatch(c, lo, hi, d);
    hide Phys, Patch, Lives, LivesOutside, FootOf, Quiet;
    assert TagWrites(a, a.(head := h', foot := foot'), c, Patch(c, lo, hi, d));
    hide TagWrites, Retag;
    TagWritesQuiet(a, a.(head := h', foot := foot'), c, Patch(c, lo, hi, d), LivesOutside(c, lo, hi));
  }
}
