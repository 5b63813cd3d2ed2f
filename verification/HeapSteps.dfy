/** The steps of the allocator on the physical heap. */
module HeapSteps {
  import opened Rings
  import opened Trie
  import opened State
  import opened Heap

  // ---- taking memory

  /** A free chunk is put to use whole. */
  lemma UseWhole(h: Heads, foot: Field, c: Chunks, p: int)
    requires Phys(h, foot, c) && p in c && c[p].use == Free
    ensures var s := c[p].size;
      Phys(SetPinuse(h[p := Head(s, true, true)], p + s, true), foot,
           Patch(c, p, p + s, map[p := Chunk(s, Live)]))
  {
    var s := c[p].size;
    assert ChunkOk(h, foot, c, p) && ChunkOk(h, foot, c, p + s);
    Alone(c, p);
    hide Phys, Whole;
    var h' := SetPinuse(h[p := Head(s, true, true)], p + s, true);
    assert OneFits(h, foot, h', foot, c, p, Chunk(s, Live));
    hide OneFits;
    PatchOne(h, foot, h', foot, c, p, Chunk(s, Live));
  }

  /** The front of a free chunk is put to use, the rest stays free. */
  lemma SplitFree(h: Heads, foot: Field, c: Chunks, p: int, nb: int)
    requires Phys(h, foot, c) && p in c && c[p].use == Free
    requires nb >= MIN_CHUNK_SIZE && nb % 8 == 0 && c[p].size - nb >= MIN_CHUNK_SIZE
    ensures var s := c[p].size;
      Phys(h[p := Head(nb, true, true)][p + nb := Head(s - nb, false, true)], foot[p + s := s - nb],
           Patch(c, p, p + s, Two(p, Chunk(nb, Live), Chunk(s - nb, Free))))
  {
    var s := c[p].size;
    assert ChunkOk(h, foot, c, p) && ChunkOk(h, foot, c, p + s);
    Alone(c, p);
    hide Phys, Whole;
    var h', foot' := h[p := Head(nb, true, true)][p + nb := Head(s - nb, false, true)], foot[p + s := s - nb];
    assert TwoFits(h, foot, h', foot', c, p, p + s, Chunk(nb, Live), Chunk(s - nb, Free));
    hide TwoFits;
    PatchTwo(h, foot, h', foot', c, p, p + s, Chunk(nb, Live), Chunk(s - nb, Free));
  }

  /** The front of top is put to use. */
  lemma SplitTop(h: Heads, foot: Field, c: Chunks, p: int, nb: int)
    requires Phys(h, foot, c) && p in c && c[p].use == Top
    requires nb >= MIN_CHUNK_SIZE && nb % 8 == 0 && nb < c[p].size
    ensures var s := c[p].size;
      Phys(h[p + nb := Head(s - nb, false, true)][p := Head(nb, true, true)], foot,
           Patch(c, p, p + s, Two(p, Chunk(nb, Live), Chunk(s - nb, Top))))
  {
    var s := c[p].size;
    assert ChunkOk(h, foot, c, p) && ChunkOk(h, foot, c, p + s);
    Alone(c, p);
    hide Phys, Whole;
    var h' := h[p + nb := Head(s - nb, false, true)][p := Head(nb, true, true)];
    assert TwoFits(h, foot, h', foot, c, p, p + s, Chunk(nb, Live), Chunk(s - nb, Top));
    hide TwoFits;
    PatchTwo(h, foot, h', foot, c, p, p + s, Chunk(nb, Live), Chunk(s - nb, Top));
  }

  // ---- giving memory back

  /** What every chunk's header says. */
  lemma HeadOf(h: Heads, foot: Field, c: Chunks, q: int)
    requires Phys(h, foot, c) && q in c
    ensures HeadOk(h, c, q)
  {
    assert ChunkOk(h, foot, c, q);
  }

  lemma CoalesceFits(h: Heads, foot: Field, c: Chunks, q: int, k: Chunk, h': Heads, foot': Field)
    requires q in c && (c[q].use == Live || c[q].use == Free) && HeadAt(h, q).pinuse && q > 0 && q % 8 == 0
    requires k.use == Free || k.use == Top
    requires SizeFits(k) && k.size > 0 && Whole(c, q, q + k.size) && RightFits(h, foot, h', foot', c, q + k.size, k.use, k.size)
    requires HeadAt(h', q) == Head(k.size, false, true)
    requires forall x :: x != q && x != q + k.size ==> HeadAt(h', x) == HeadAt(h, x)
    requires forall x :: x != q + k.size ==> At(foot', x) == At(foot, x)
    ensures OneFits(h, foot, h', foot', c, q, k)
  {
    hide Whole, HeadAt, At;
  }

  /** Whole chunks from `q` up to a chunk in use become one free chunk. */
  lemma Coalesce(h: Heads, foot: Field, c: Chunks, q: int, tot: int, h': Heads)
    requires Phys(h, foot, c) && q in c && (c[q].use == Live || c[q].use == Free) && HeadAt(h, q).pinuse
    requires tot >= MIN_CHUNK_SIZE && tot % 8 == 0 && Whole(c, q, q + tot)
    requires q + tot in c && Follows(Free, c[q + tot].use)
    requires HeadAt(h', q) == Head(tot, false, true)
    requires HeadAt(h', q + tot) == HeadAt(h, q + tot).(pinuse := false)
    requires forall x :: x != q && x != q + tot ==> HeadAt(h', x) == HeadAt(h, x)
    ensures Phys(h', foot[q + tot := tot], Patch(c, q, q + tot, map[q := Chunk(tot, Free)]))
  {
    hide Phys, Whole, OneFits, HeadAt, Patch;
    HeadOf(h, foot, c, q);
    CoalesceFits(h, foot, c, q, Chunk(tot, Free), h', foot[q + tot := tot]);
    PatchOne(h, foot, h', foot[q + tot := tot], c, q, Chunk(tot, Free));
  }

  /** Whole chunks from `q` up to the trailer become top. */
  lemma CoalesceTop(h: Heads, foot: Field, c: Chunks, q: int, tot: int)
    requires Phys(h, foot, c) && q in c && (c[q].use == Live || c[q].use == Free) && HeadAt(h, q).pinuse
    requires tot > 0 && tot % 8 == 0 && Whole(c, q, q + tot)
    requires q + tot in c && c[q + tot].use == Trailer
    ensures Phys(h[q := Head(tot, false, true)], foot, Patch(c, q, q + tot, map[q := Chunk(tot, Top)]))
  {
    hide Phys, Whole, OneFits, Patch;
    HeadOf(h, foot, c, q);
    HeadOf(h, foot, c, q + tot);
    CoalesceFits(h, foot, c, q, Chunk(tot, Top), h[q := Head(tot, false, true)], foot);
    PatchOne(h, foot, h[q := Head(tot, false, true)], foot, c, q, Chunk(tot, Top));
  }
}
