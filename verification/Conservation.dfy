/** Conservation: chunks tile every segment, and the footprint is what they add up to. */
module Conservation {
  import opened Words
  import opened Rings
  import opened Trie
  import opened State
  import opened Index
  import opened Heap
  import opened Payload
  import opened Invariant
  import opened Segments

  /** From `a` up to `b` chunk follows chunk without a gap. */
  ghost predicate Tiles(c: Chunks, a: int, b: int)
    decreases b - a
  {
    a == b || (a < b && a in c && c[a].size > 0 && Tiles(c, a + c[a].size, b))
  }

  /** The bytes in chunks of use `u` among those that follow each other from `a` up to `b`. */
  ghost function Held(c: Chunks, a: int, b: int, u: Use): int
    decreases b - a
  {
    if a < b && a in c && c[a].size > 0
    then (if c[a].use == u then c[a].size else 0) + Held(c, a + c[a].size, b, u)
    else 0
  }

  lemma {:induction false} TilesJoin(c: Chunks, a: int, x: int, b: int)
    requires Tiles(c, a, x) && Tiles(c, x, b)
    ensures Tiles(c, a, b)
    ensures forall u {:trigger Held(c, a, b, u)} :: Held(c, a, b, u) == Held(c, a, x, u) + Held(c, x, b, u)
    decreases x - a
  {
    if a != x {
      TilesBelow(c, x, b);
      TilesBelow(c, a, x);
      TilesJoin(c, a + c[a].size, x, b);
      forall u {:trigger Held(c, a, b, u)}
        ensures Held(c, a, b, u) == Held(c, a, x, u) + Held(c, x, b, u)
      {
        assert Held(c, a + c[a].size, b, u) == Held(c, a + c[a].size, x, u) + Held(c, x, b, u);
      }
    }
  }

  lemma TilesBelow(c: Chunks, a: int, b: int)
    requires Tiles(c, a, b)
    ensures a <= b
  {}

  /** All bytes of tiles are in chunks of one use or another. */
  lemma {:induction false} Conserved(c: Chunks, a: int, b: int)
    requires Tiles(c, a, b)
    ensures Held(c, a, b, Live) + Held(c, a, b, Free) + Held(c, a, b, Top) + Held(c, a, b, Record)
          + Held(c, a, b, Fence) + Held(c, a, b, Trailer) == b - a
    decreases b - a
  {
    if a != b {
      Conserved(c, a + c[a].size, b);
    }
  }

  /** No chunk of use `u` starts in the stretch. */
  ghost predicate Without(c: Chunks, a: int, b: int, u: Use) {
    forall x {:trigger c[x]} :: x in c && a <= x < b ==> c[x].use != u
  }

  lemma {:induction false} NoneHeld(c: Chunks, a: int, b: int, u: Use)
    requires Without(c, a, b, u)
    ensures Held(c, a, b, u) == 0
    decreases b - a
  {
    if a < b && a in c && c[a].size > 0 {
      NoneHeld(c, a + c[a].size, b, u);
    }
  }

  /** Every chunk that starts in a tiled stretch is one of the tiles. */
  lemma {:induction false} EachIsTile(c: Chunks, a: int, b: int, x: int)
    requires Tiles(c, a, b) && Apart(c) && x in c && a <= x < b
    ensures Tiles(c, a, x) && Tiles(c, x, b)
    decreases b - a
  {
    if a != x {
      EachIsTile(c, a + c[a].size, b, x);
    }
  }

  // ---- one segment

  /** Where the last chunk of segment `i` ends: in an older one the last word is the head of the last fencepost. */
  ghost function TilesEnd(segs: seq<Seg>, i: int): int
    requires 0 <= i < |segs|
  {
    if i == 0 then segs[i].end else segs[i].end - 8
  }

  /** An ordinary chunk of the stretch is followed by a chunk no later than the stretch's end. */
  lemma StepInside(w: World, x: int, lo: int, hi: int)
    requires ViewsExcept(w, {}) && Interior(w.heap, lo, hi) && x in w.heap && lo <= x < hi && hi in w.heap
    ensures w.heap[x].size > 0 && x + w.heap[x].size in w.heap && x + w.heap[x].size <= hi
  {
    assert ChunkOk(w.head, w.foot, w.heap, x);
  }

  lemma {:induction false} InteriorTiles(w: World, x: int, lo: int, hi: int)
    requires ViewsExcept(w, {}) && Interior(w.heap, lo, hi) && x in w.heap && lo <= x <= hi && hi in w.heap
    ensures Tiles(w.heap, x, hi)
    decreases hi - x
  {
    hide ViewsExcept, Interior;
    if x < hi {
      StepInside(w, x, lo, hi);
      InteriorTiles(w, x + w.heap[x].size, lo, hi);
    }
  }

  lemma {:induction false} FencesTile(c: Chunks, a: int, x: int, e: int)
    requires FencesFill(c, a, e) && a <= x <= e - 8 && x % 8 == 0 && e % 8 == 0
    requires forall y {:trigger c[y]} :: y in c && a <= y < e ==> c[y] == Chunk(FENCE_SIZE, Fence)
    ensures Tiles(c, x, e - 8) && Held(c, x, e - 8, Fence) == e - 8 - x
    decreases e - x
  {
    if x < e - 8 {
      assert x in c && c[x] == Chunk(FENCE_SIZE, Fence);
      FencesTile(c, a, x + 8, e);
    }
  }

  /** What the tail of an older segment looks like. */
  lemma TailTiles(w: World, i: int)
    requires ViewsExcept(w, {}) && w.top != 0 && 0 < i < |w.segs|
    ensures var g := w.segs[i];
      var r := g.rec - 16;
      && r in w.heap && g.base in w.heap && Interior(w.heap, g.base, r) && g.base <= r
      && Tiles(w.heap, r, g.end - 8) && Held(w.heap, r, g.end - 8, Record) == RECORD_SIZE
      && Held(w.heap, r, g.end - 8, Fence) == g.end - 8 - r - RECORD_SIZE
      && Held(w.heap, r, g.end - 8, Live) == 0 && Held(w.heap, r, g.end - 8, Free) == 0
      && Held(w.heap, r, g.end - 8, Top) == 0 && Held(w.heap, r, g.end - 8, Trailer) == 0
  {
    hide ViewsExcept, FencesFill, Interior;
    var c, g := w.heap, w.segs[i];
    var r := g.rec - 16;
    TailFacts(w, i);
    FenceSizes(w, i);
    FencesTile(c, r + RECORD_SIZE, r + RECORD_SIZE, g.end);
    NoneHeld(c, r, g.end - 8, Live);
    NoneHeld(c, r, g.end - 8, Free);
    NoneHeld(c, r, g.end - 8, Top);
    NoneHeld(c, r, g.end - 8, Trailer);
    NoneHeld(c, r + RECORD_SIZE, g.end - 8, Record);
  }

  lemma TailFacts(w: World, i: int)
    requires ViewsExcept(w, {}) && w.top != 0 && 0 < i < |w.segs|
    ensures var c, g := w.heap, w.segs[i];
      var r := g.rec - 16;
      && r in c && c[r] == Chunk(RECORD_SIZE, Record) && g.base in c && Interior(c, g.base, r) && g.base <= r
      && FencesFill(c, r + RECORD_SIZE, g.end) && r + RECORD_SIZE <= g.end - 32 && r % 8 == 0 && g.end % 8 == 0
      && forall y {:trigger c[y]} :: y in c && r <= y < g.end - 8 ==> y == r || c[y].use == Fence
  {
    var c, g := w.heap, w.segs[i];
    var r := g.rec - 16;
    assert TailOk(c, g) && BaseOk(w.head, c, g) && Apart(c);
    assert ChunkOk(w.head, w.foot, c, r);
    hide ViewsExcept, FencesFill, Interior;
    forall y {:trigger c[y]} | y in c && r <= y < g.end - 8
      ensures y == r || c[y].use == Fence
    {
      assert y == r || r < y;
    }
  }

  lemma FenceSizes(w: World, i: int)
    requires ViewsExcept(w, {}) && w.top != 0 && 0 < i < |w.segs|
    ensures var g := w.segs[i];
      forall y {:trigger w.heap[y]} :: y in w.heap && g.rec - 16 + RECORD_SIZE <= y < g.end ==> w.heap[y] == Chunk(FENCE_SIZE, Fence)
  {
    var g := w.segs[i];
    assert TailOk(w.heap, g);
    forall y {:trigger w.heap[y]} | y in w.heap && g.rec - 16 + RECORD_SIZE <= y < g.end
      ensures w.heap[y] == Chunk(FENCE_SIZE, Fence)
    {
      assert ChunkOk(w.head, w.foot, w.heap, y) && w.heap[y].use == Fence;
    }
  }

  /** Where the one top is: not in an older segment. */
  lemma TopElsewhere(w: World, i: int)
    requires ViewsExcept(w, {}) && w.top != 0 && 0 < i < |w.segs|
    ensures Without(w.heap, w.segs[i].base, w.segs[i].end, Top)
  {
    NewestEnds(w);
    hide Phys, IndexExcept;
    assert SegsApart(w.segs) && BaseOk(w.head, w.heap, w.segs[0]) && BaseOk(w.head, w.heap, w.segs[i]);
    assert !(w.segs[i].base <= w.top < w.segs[i].end);
  }

  /** Only ordinary chunks: no bytes in others. */
  lemma InteriorHeld(c: Chunks, a: int, b: int)
    requires Interior(c, a, b)
    ensures Held(c, a, b, Record) == 0 && Held(c, a, b, Fence) == 0 && Held(c, a, b, Trailer) == 0
  {
    NoneHeld(c, a, b, Record);
    NoneHeld(c, a, b, Fence);
    NoneHeld(c, a, b, Trailer);
  }

  /** An older segment: blocks and free chunks, then its record, then fenceposts. */
  lemma OlderConserved(w: World, i: int)
    requires ViewsExcept(w, {}) && w.top != 0 && 0 < i < |w.segs|
    ensures var g := w.segs[i];
      && Tiles(w.heap, g.base, g.end - 8)
      && Held(w.heap, g.base, g.end - 8, Live) + Held(w.heap, g.base, g.end - 8, Free)
         + RECORD_SIZE + Held(w.heap, g.base, g.end - 8, Fence) + 8 == g.end - g.base
      && 16 <= Held(w.heap, g.base, g.end - 8, Fence) < 64
  {
    var c, g := w.heap, w.segs[i];
    var r, e := g.rec - 16, g.end - 8;
    TailRange(w, i);
    hide ViewsExcept;
    TailTiles(w, i);
    InteriorTiles(w, g.base, g.base, r);
    TopElsewhere(w, i);
    InteriorHeld(c, g.base, r);
    NoneHeld(c, g.base, r, Top);
    TilesJoin(c, g.base, r, e);
    Conserved(c, g.base, e);
    assert Held(c, g.base, e, Record) == Held(c, g.base, r, Record) + Held(c, r, e, Record);
    assert Held(c, g.base, e, Top) == Held(c, g.base, r, Top) + Held(c, r, e, Top);
    assert Held(c, g.base, e, Fence) == Held(c, g.base, r, Fence) + Held(c, r, e, Fence);
    assert Held(c, g.base, e, Trailer) == Held(c, g.base, r, Trailer) + Held(c, r, e, Trailer);
  }

  lemma TailRange(w: World, i: int)
    requires ViewsExcept(w, {}) && w.top != 0 && 0 < i < |w.segs|
    ensures w.segs[i].end - 96 <= w.segs[i].rec - 16 <= w.segs[i].end - TOP_FOOT_SIZE
  {
    assert TailOk(w.heap, w.segs[i]);
  }

  /** The newest segment: blocks and free chunks, then top, then the trailer. */
  lemma NewestConserved(w: World)
    requires ViewsExcept(w, {}) && w.top != 0 && |w.segs| > 0
    ensures var g := w.segs[0];
      && Tiles(w.heap, g.base, g.end)
      && Held(w.heap, g.base, g.end, Live) + Held(w.heap, g.base, g.end, Free) + w.topsize + TOP_FOOT_SIZE == g.end - g.base
  {
    var c, g, top, t := w.heap, w.segs[0], w.top, w.top + w.topsize;
    NewestEnds(w);
    hide ViewsExcept;
    InteriorTiles(w, g.base, g.base, t);
    NewestTop(w);
    hide Interior;
    EachIsTile(c, g.base, t, top);
    InteriorHeld(c, g.base, t);
    NoneHeld(c, g.base, top, Top);
    TilesJoin(c, g.base, top, t);
    assert Held(c, g.base, t, Top) == Held(c, g.base, top, Top) + Held(c, top, t, Top);
    assert Held(c, top, t, Top) == w.topsize + Held(c, t, t, Top);
    Conserved(c, g.base, t);
    assert Tiles(c, g.end, g.end) && Tiles(c, t, g.end);
    TilesJoin(c, g.base, t, g.end);
    assert Held(c, g.base, g.end, Live) == Held(c, g.base, t, Live) + Held(c, t, g.end, Live);
    assert Held(c, g.base, g.end, Free) == Held(c, g.base, t, Free) + Held(c, t, g.end, Free);
    assert Held(c, g.end, g.end, Live) == 0 && Held(c, g.end, g.end, Free) == 0;
  }

  lemma NewestEnds(w: World)
    requires ViewsExcept(w, {}) && w.top != 0 && |w.segs| > 0
    ensures var c, g, t := w.heap, w.segs[0], w.top + w.topsize;
      && g.base in c && t in c && c[t] == Chunk(TOP_FOOT_SIZE, Trailer) && t + TOP_FOOT_SIZE == g.end
      && w.top in c && c[w.top] == Chunk(w.topsize, Top) && w.topsize > 0 && g.base <= w.top && Apart(c)
      && Interior(c, g.base, t)
  {
    assert BaseOk(w.head, w.heap, w.segs[0]) && ChunkOk(w.head, w.foot, w.heap, w.top);
  }

  lemma NewestTop(w: World)
    requires ViewsExcept(w, {}) && w.top != 0 && |w.segs| > 0
    ensures Without(w.heap, w.segs[0].base, w.top, Top)
  {
    hide Phys, IndexExcept, SegsInv;
  }

  // ---- the footprint

  /** Bytes of blocks and free chunks in the segments from `i` on. */
  ghost function Stock(c: Chunks, segs: seq<Seg>, i: nat): int
    decreases |segs| - i
  {
    if i >= |segs| then 0
    else
      var e := if i == 0 then segs[i].end else segs[i].end - 8;
      Held(c, segs[i].base, e, Live) + Held(c, segs[i].base, e, Free) + Stock(c, segs, i + 1)
  }

  /** Bytes of fenceposts in the segments from `i` on. */
  ghost function Posts(c: Chunks, segs: seq<Seg>, i: nat): int
    decreases |segs| - i
  {
    if i >= |segs| then 0
    else Held(c, segs[i].base, segs[i].end - 8, Fence) + Posts(c, segs, i + 1)
  }

  lemma {:induction false} OlderTotal(w: World, i: nat)
    requires ViewsExcept(w, {}) && w.top != 0 && 0 < i <= |w.segs|
    ensures TotalSize(w.segs[i..]) == Stock(w.heap, w.segs, i) + Posts(w.heap, w.segs, i) + (RECORD_SIZE + 8) * (|w.segs| - i)
    decreases |w.segs| - i
  {
    hide ViewsExcept;
    if i < |w.segs| {
      OlderTotal(w, i + 1);
      OlderConserved(w, i);
      assert w.segs[i..][1..] == w.segs[i + 1..];
    }
  }

  /** The footprint is all accounted for: blocks, free chunks, top with its trailer, and for every older segment
      its record, its fenceposts and one word. */
  lemma FootprintConserved(m: Mstate)
    requires Valid(m) && m.top != 0
    ensures m.footprint == Stock(m.heap, m.segs, 0) + m.topsize + TOP_FOOT_SIZE
                           + Posts(m.heap, m.segs, 1) + (RECORD_SIZE + 8) * (|m.segs| - 1)
    ensures m.footprint <= m.maxFootprint && |m.segs| > 0
  {
    hide BinsInv, ViewsExcept;
    var w := WorldOf(m);
    SomeSegment(w);
    NewestConserved(w);
    OlderTotal(w, 1);
    assert m.segs[0..] == m.segs;
  }

  lemma SomeSegment(w: World)
    requires ViewsExcept(w, {}) && w.top != 0
    ensures |w.segs| > 0
  {
    hide Phys, TopInv, IndexExcept;
  }

  // ---- the footprint is a word

  /** How many of the segments hold the address `k`. */
  ghost function Holders(segs: seq<Seg>, k: int): nat {
    if segs == [] then 0 else (if segs[0].base <= k < segs[0].end then 1 else 0) + Holders(segs[1..], k)
  }

  /** The bytes of the segments below address `k`. */
  ghost function Below(segs: seq<Seg>, k: int): int {
    if segs == [] then 0
    else (if k <= segs[0].base then 0 else if k < segs[0].end then k - segs[0].base else segs[0].end - segs[0].base)
         + Below(segs[1..], k)
  }

  ghost predicate Forward(segs: seq<Seg>) {
    forall i :: 0 <= i < |segs| ==> 0 <= segs[i].base < segs[i].end < W64
  }

  lemma {:induction false} NoHolder(segs: seq<Seg>, k: int)
    requires forall i :: 0 <= i < |segs| ==> !(segs[i].base <= k < segs[i].end)
    ensures Holders(segs, k) == 0
  {
    if segs != [] {
      NoHolder(segs[1..], k);
    }
  }

  lemma {:induction false} OneHolder(segs: seq<Seg>, k: int)
    requires SegsApart(segs)
    ensures Holders(segs, k) <= 1
  {
    if segs != [] {
      var rest := segs[1..];
      assert forall i :: 0 <= i < |rest| ==> rest[i] == segs[i + 1];
      if segs[0].base <= k < segs[0].end {
        assert forall i :: 0 <= i < |rest| ==> segs[0].end <= rest[i].base || rest[i].end <= segs[0].base;
        NoHolder(rest, k);
      } else {
        OneHolder(rest, k);
      }
    }
  }

  lemma {:induction false} BelowStep(segs: seq<Seg>, k: int)
    requires Forward(segs)
    ensures Below(segs, k + 1) == Below(segs, k) + Holders(segs, k)
  {
    if segs != [] {
      BelowStep(segs[1..], k);
    }
  }

  lemma {:induction false} BelowNothing(segs: seq<Seg>)
    requires Forward(segs)
    ensures Below(segs, 0) == 0
  {
    if segs != [] {
      BelowNothing(segs[1..]);
    }
  }

  lemma {:induction false} BelowFits(segs: seq<Seg>, k: nat)
    requires Forward(segs) && SegsApart(segs)
    ensures Below(segs, k) <= k
  {
    if k == 0 {
      BelowNothing(segs);
    } else {
      BelowFits(segs, k - 1);
      BelowStep(segs, k - 1);
      OneHolder(segs, k - 1);
    }
  }

  lemma {:induction false} BelowAll(segs: seq<Seg>)
    requires Forward(segs)
    ensures Below(segs, W64 - 1) == TotalSize(segs)
  {
    if segs != [] {
      BelowAll(segs[1..]);
    }
  }

  /** The footprint never wraps: segments do not overlap. */
  lemma FootprintIsWord(m: Mstate)
    requires Valid(m)
    ensures IsWord(m.footprint)
  {
    hide BinsInv, ViewsExcept;
    SegmentsForward(WorldOf(m));
    BelowFits(m.segs, W64 - 1);
    BelowAll(m.segs);
    BelowPositive(m.segs, W64 - 1);
  }

  lemma {:induction false} BelowPositive(segs: seq<Seg>, k: int)
    requires Forward(segs)
    ensures Below(segs, k) >= 0
  {
    if segs != [] {
      BelowPositive(segs[1..], k);
    }
  }

  lemma SegmentsForward(w: World)
    requires ViewsExcept(w, {})
    ensures Forward(w.segs) && SegsApart(w.segs)
  {
    if w.top != 0 {
      forall i | 0 <= i < |w.segs|
        ensures 0 <= w.segs[i].base < w.segs[i].end < W64
      {
        assert BaseOk(w.head, w.heap, w.segs[i]);
      }
    }
  }
}
