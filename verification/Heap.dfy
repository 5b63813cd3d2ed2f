/** The physical view of the heap: boundary-tagged chunks, one after the other. */
module Heap {
  import opened Rings
  import opened Trie
  import opened State

  const MIN_CHUNK_SIZE: int := 32
  const RECORD_SIZE: int := 40
  const FENCE_SIZE: int := 8
  const TOP_FOOT_SIZE: int := 72

  predicate Inuse(u: Use) {
    u == Live || u == Record || u == Fence
  }

  /** Which chunk may follow which inside a segment: no two free chunks meet, top is last before
      the trailer, and a segment record is followed by fenceposts. */
  predicate Follows(u: Use, v: Use) {
    match u
    case Live => v == Live || v == Free || v == Top || v == Record
    case Free => v == Live || v == Record
    case Top => v == Trailer
    case Record => v == Fence
    case Fence => v == Fence
    case Trailer => false
  }

  /** Sizes a chunk may have. */
  predicate SizeFits(k: Chunk) {
    && k.size % 8 == 0
    && match k.use
       case Live => k.size >= MIN_CHUNK_SIZE
       case Free => k.size >= MIN_CHUNK_SIZE
       case Top => k.size > 0
       case Record => k.size == RECORD_SIZE
       case Fence => k.size == FENCE_SIZE
       case Trailer => k.size == TOP_FOOT_SIZE
  }

  /** The head word of `p` tells its size and whether it is in use. */
  ghost predicate HeadOk(h: Heads, c: Chunks, p: int)
    requires p in c
  {
    && p > 0 && p % 8 == 0 && SizeFits(c[p])
    && HeadAt(h, p).size == c[p].size && HeadAt(h, p).cinuse == Inuse(c[p].use)
    && (c[p].use == Free || c[p].use == Top ==> HeadAt(h, p).pinuse)
    && (c[p].use == Trailer ==> !HeadAt(h, p).pinuse)
  }

  predicate HasNext(u: Use) {
    u == Live || u == Free || u == Top || u == Record
  }

  /** The chunk after `p` knows whether `p` is in use, and holds its size in its foot if it is free. */
  ghost predicate NextOk(h: Heads, foot: Field, c: Chunks, p: int)
    requires p in c
  {
    HasNext(c[p].use) ==>
      var n := p + c[p].size;
      && n in c && Follows(c[p].use, c[n].use)
      && HeadAt(h, n).pinuse == Inuse(c[p].use)
      && (c[p].use == Free ==> At(foot, n) == c[p].size)
  }

  /** A clear pinuse bit leads through the foot to the free chunk before `p`. */
  ghost predicate PrevOk(h: Heads, foot: Field, c: Chunks, p: int)
    requires p in c
  {
    c[p].use != Trailer && !HeadAt(h, p).pinuse ==>
      p - At(foot, p) in c && c[p - At(foot, p)] == Chunk(At(foot, p), Free)
  }

  ghost predicate ChunkOk(h: Heads, foot: Field, c: Chunks, p: int)
    requires p in c
  {
    HeadOk(h, c, p) && NextOk(h, foot, c, p) && PrevOk(h, foot, c, p)
  }

  /** Chunks do not overlap. */
  ghost predicate Apart(c: Chunks) {
    forall p, q {:trigger c[p], c[q]} :: p in c && q in c && p < q ==> p + c[p].size <= q
  }

  ghost predicate Phys(h: Heads, foot: Field, c: Chunks) {
    (forall p {:trigger ChunkOk(h, foot, c, p)} :: p in c ==> ChunkOk(h, foot, c, p)) && Apart(c)
  }

  // ---- replacing the chunks of a stretch of memory

  /** `c` with the chunks from `a` up to `b` replaced by those of `d`. */
  ghost function Patch(c: Chunks, a: int, b: int, d: Chunks): Chunks {
    (map x | x in c && !(a <= x < b) :: c[x]) + d
  }

  /** The stretch from `a` up to `b` consists of whole chunks. */
  ghost predicate Whole(c: Chunks, a: int, b: int) {
    forall x :: x in c ==>
      (x < a ==> x + c[x].size <= a) && (a <= x < b ==> x + c[x].size <= b)
  }

  /** Outside the stretch the words that matter are as before; at `b` only pinuse and foot may change. */
  ghost predicate SameOutside(h: Heads, foot: Field, h': Heads, foot': Field, c: Chunks, a: int, b: int) {
    && (forall x :: x in c && !(a <= x <= b) ==> HeadAt(h', x) == HeadAt(h, x) && At(foot', x) == At(foot, x))
    && HeadAt(h', b).size == HeadAt(h, b).size && HeadAt(h', b).cinuse == HeadAt(h, b).cinuse
  }

  /** The new chunks fit into the stretch and agree with each other and with their surroundings. */
  ghost predicate PatchFits(h: Heads, foot: Field, h': Heads, foot': Field, c: Chunks, a: int, b: int, d: Chunks) {
    var c' := Patch(c, a, b, d);
    && a < b && Whole(c, a, b) && SameOutside(h, foot, h', foot', c, a, b)
    && (forall x :: x in d ==> a <= x < b && x + d[x].size <= b)
    && Apart(d)
    && (forall x :: x in d ==> x in c' && ChunkOk(h', foot', c', x))
    && (b in c' ==> HeadOk(h', c', b) && PrevOk(h', foot', c', b))
    && (forall x :: x in c && x < a && x + c[x].size == a && HasNext(c[x].use) ==>
         a in d && Follows(c[x].use, d[a].use) && HeadAt(h', a).pinuse == Inuse(c[x].use)
         && At(foot', a) == At(foot, a))
  }

  /** Chunks outside the stretch stay, and so do their words. */
  lemma PatchOutside(h: Heads, foot: Field, h': Heads, foot': Field, c: Chunks, a: int, b: int, d: Chunks, x: int)
    requires PatchFits(h, foot, h', foot', c, a, b, d) && x in c && !(a <= x < b)
    ensures x in Patch(c, a, b, d) && Patch(c, a, b, d)[x] == c[x]
    ensures x != b ==> HeadAt(h', x) == HeadAt(h, x) && At(foot', x) == At(foot, x)
    ensures x < a ==> x + c[x].size <= a
  {}

  lemma PatchNext(h: Heads, foot: Field, h': Heads, foot': Field, c: Chunks, a: int, b: int, d: Chunks, x: int)
    requires Phys(h, foot, c) && PatchFits(h, foot, h', foot', c, a, b, d)
    requires x in c && !(a <= x < b)
    ensures x in Patch(c, a, b, d) && NextOk(h', foot', Patch(c, a, b, d), x)
  {
    PatchOutside(h, foot, h', foot', c, a, b, d, x);
    assert ChunkOk(h, foot, c, x);
    var n := x + c[x].size;
    if HasNext(c[x].use) {
      if n == a {
        assert d[a] == Patch(c, a, b, d)[a];
        assert x < a;
        hide Phys, Apart, Whole, SameOutside, ChunkOk;
      } else {
        assert !(a <= n <= b) && n in c;
        PatchOutside(h, foot, h', foot', c, a, b, d, n);
        hide PatchFits, Phys, Patch;
      }
    }
  }

  lemma PatchPrev(h: Heads, foot: Field, h': Heads, foot': Field, c: Chunks, a: int, b: int, d: Chunks, x: int)
    requires Phys(h, foot, c) && PatchFits(h, foot, h', foot', c, a, b, d)
    requires x in c && !(a <= x <= b)
    ensures x in Patch(c, a, b, d) && PrevOk(h', foot', Patch(c, a, b, d), x) && HeadOk(h', Patch(c, a, b, d), x)
  {
    PatchOutside(h, foot, h', foot', c, a, b, d, x);
    assert ChunkOk(h, foot, c, x);
    if c[x].use != Trailer && !HeadAt(h, x).pinuse {
      var q := x - At(foot, x);
      assert q in c && ChunkOk(h, foot, c, q) && q + c[q].size == x && q < x;
      assert c[q].size == At(foot, x);
      PatchOutside(h, foot, h', foot', c, a, b, d, q);
      hide PatchFits, Phys, Patch, Apart;
    } else {
      hide PatchFits, Phys, Patch, Apart;
    }
  }

  lemma PatchChunk(h: Heads, foot: Field, h': Heads, foot': Field, c: Chunks, a: int, b: int, d: Chunks, x: int)
    requires Phys(h, foot, c) && PatchFits(h, foot, h', foot', c, a, b, d)
    requires x in Patch(c, a, b, d)
    ensures ChunkOk(h', foot', Patch(c, a, b, d), x)
  {
    if x !in d {
      hide Phys, Apart;
      PatchNext(h, foot, h', foot', c, a, b, d, x);
      if x != b {
        PatchPrev(h, foot, h', foot', c, a, b, d, x);
      }
      hide HeadOk, NextOk, PrevOk;
    }
  }

  lemma PatchPhys(h: Heads, foot: Field, h': Heads, foot': Field, c: Chunks, a: int, b: int, d: Chunks)
    requires Phys(h, foot, c) && PatchFits(h, foot, h', foot', c, a, b, d)
    ensures Phys(h', foot', Patch(c, a, b, d))
  {
    var c' := Patch(c, a, b, d);
    forall x | x in c'
      ensures ChunkOk(h', foot', c', x)
    {
      PatchChunk(h, foot, h', foot', c, a, b, d, x);
    }
    assert Apart(c');
  }

  // ---- what the allocator does to chunks

  /** `n->head |= PINUSE_BIT` or `n->head &= ~PINUSE_BIT`. */
  function SetPinuse(h: Heads, n: int, b: bool): Heads {
    h[n := HeadAt(h, n).(pinuse := b)]
  }

  /** The chunks around `p`: nothing overlaps it, and what follows it starts where it ends. */
  lemma Alone(c: Chunks, p: int)
    requires Apart(c) && p in c && c[p].size > 0
    ensures Whole(c, p, p + c[p].size)
    ensures forall x :: x in c && p <= x < p + c[p].size ==> x == p
  {
  }

  /** What may stand before `a` goes with the new chunk there; a new first chunk has pinuse set. */
  ghost predicate LeftFits(h: Heads, foot: Field, h': Heads, foot': Field, c: Chunks, a: int, u: Use) {
    && a > 0 && a % 8 == 0
    && if a in c then
         && HeadAt(h', a).pinuse == HeadAt(h, a).pinuse && At(foot', a) == At(foot, a)
         && (if HeadAt(h, a).pinuse then HasNext(c[a].use) && HasNext(u)
             else (c[a].use == Live || c[a].use == Record) && (u == Live || u == Record))
       else HeadAt(h', a).pinuse
  }

  /** What stands at `b` goes with a chunk of use `u` and size `s` before it. */
  ghost predicate RightFits(h: Heads, foot: Field, h': Heads, foot': Field, c: Chunks, b: int, u: Use, s: int) {
    && b in c && Follows(u, c[b].use)
    && HeadAt(h', b) == HeadAt(h, b).(pinuse := Inuse(u))
    && (u == Free ==> At(foot', b) == s)
  }

  /** Whatever chunk ends at `a` may be followed by one of use `u`. */
  ghost predicate LeftNeighbours(foot: Field, h': Heads, foot': Field, c: Chunks, a: int, u: Use) {
    forall x :: x in c && x + c[x].size == a && HasNext(c[x].use) ==>
      Follows(c[x].use, u) && HeadAt(h', a).pinuse == Inuse(c[x].use) && At(foot', a) == At(foot, a)
  }

  lemma LeftIsFine(h: Heads, foot: Field, h': Heads, foot': Field, c: Chunks, a: int, u: Use)
    requires Phys(h, foot, c) && LeftFits(h, foot, h', foot', c, a, u)
    ensures LeftNeighbours(foot, h', foot', c, a, u)
  {
    forall x | x in c && x + c[x].size == a && HasNext(c[x].use)
      ensures Follows(c[x].use, u) && HeadAt(h', a).pinuse == Inuse(c[x].use) && At(foot', a) == At(foot, a)
    {
      assert ChunkOk(h, foot, c, x);
    }
  }

  /** The chunk before `a` is still where the foot of `a` says. */
  lemma LeftPrev(h: Heads, foot: Field, h': Heads, foot': Field, c: Chunks, a: int, b: int, d: Chunks)
    requires Phys(h, foot, c) && a in d && a < b && LeftFits(h, foot, h', foot', c, a, d[a].use)
    requires forall x :: x in d ==> a <= x
    ensures a in Patch(c, a, b, d) && PrevOk(h', foot', Patch(c, a, b, d), a)
  {
    if a in c && !HeadAt(h, a).pinuse {
      assert ChunkOk(h, foot, c, a);
      var q := a - At(foot, a);
      assert q in c && ChunkOk(h, foot, c, q);
      assert Patch(c, a, b, d)[q] == c[q];
    }
  }

  lemma RightHead(h: Heads, foot: Field, h': Heads, foot': Field, c: Chunks, a: int, b: int, d: Chunks, p: int)
    requires Phys(h, foot, c) && p in d && p + d[p].size == b && RightFits(h, foot, h', foot', c, b, d[p].use, d[p].size)
    requires forall x :: x in d ==> a <= x < b
    ensures b in Patch(c, a, b, d) && Patch(c, a, b, d)[b] == c[b] && p in Patch(c, a, b, d)
    ensures HeadOk(h', Patch(c, a, b, d), b) && PrevOk(h', foot', Patch(c, a, b, d), b)
    ensures NextOk(h', foot', Patch(c, a, b, d), p)
  {
    assert ChunkOk(h, foot, c, b);
    assert Patch(c, a, b, d)[p] == d[p];
    hide Patch;
  }

  /** One chunk `k` in place of the whole chunks from `a` up to its end. */
  ghost predicate OneFits(h: Heads, foot: Field, h': Heads, foot': Field, c: Chunks, a: int, k: Chunk) {
    var b := a + k.size;
    && SizeFits(k) && k.size > 0 && HasNext(k.use)
    && Whole(c, a, b) && SameOutside(h, foot, h', foot', c, a, b)
    && HeadAt(h', a).size == k.size && HeadAt(h', a).cinuse == Inuse(k.use)
    && (k.use == Free || k.use == Top ==> HeadAt(h', a).pinuse)
    && LeftFits(h, foot, h', foot', c, a, k.use)
    && RightFits(h, foot, h', foot', c, b, k.use, k.size)
  }

  lemma PatchOne(h: Heads, foot: Field, h': Heads, foot': Field, c: Chunks, a: int, k: Chunk)
    requires Phys(h, foot, c) && OneFits(h, foot, h', foot', c, a, k)
    ensures Phys(h', foot', Patch(c, a, a + k.size, map[a := k]))
  {
    var b, d := a + k.size, map[a := k];
    var c' := Patch(c, a, b, d);
    assert a > 0 && a % 8 == 0;
    hide Phys, ChunkOk, LeftFits, RightFits, Whole, SameOutside, Patch, Follows;
    LeftPrev(h, foot, h', foot', c, a, b, d);
    RightHead(h, foot, h', foot', c, a, b, d, a);
    LeftIsFine(h, foot, h', foot', c, a, k.use);
    hide LeftNeighbours, HeadOk, NextOk, PrevOk;
    OneFitsPatch(h, foot, h', foot', c, a, k);
    PatchPhys(h, foot, h', foot', c, a, b, d);
  }

  /** The words around the new chunk at `a`, in the patched heap. */
  ghost predicate InPlace(h: Heads, foot: Field, c: Chunks, a: int, b: int) {
    && a in c && b in c && PrevOk(h, foot, c, a) && NextOk(h, foot, c, a)
    && HeadOk(h, c, b) && PrevOk(h, foot, c, b)
  }

  lemma OneFitsPatch(h: Heads, foot: Field, h': Heads, foot': Field, c: Chunks, a: int, k: Chunk)
    requires InPlace(h', foot', Patch(c, a, a + k.size, map[a := k]), a, a + k.size)
    requires LeftNeighbours(foot, h', foot', c, a, k.use)
    requires OneFits(h, foot, h', foot', c, a, k) && a > 0 && a % 8 == 0
    ensures PatchFits(h, foot, h', foot', c, a, a + k.size, map[a := k])
  {
    var d := map[a := k];
    assert Patch(c, a, a + k.size, d)[a] == k;
    hide Patch, RightFits, Whole, SameOutside, Follows, PrevOk, NextOk, HeadAt;
  }

  /** The end of a segment: whatever is mapped right behind it does not depend on it. */
  ghost predicate EndFits(h: Heads, foot: Field, h': Heads, foot': Field, c: Chunks, b: int) {
    b in c ==> HeadAt(h', b) == HeadAt(h, b) && HeadAt(h, b).pinuse
  }

  /** Two chunks `k` and `l` in place of the whole chunks from `a` up to `b`. */
  ghost predicate TwoFits(h: Heads, foot: Field, h': Heads, foot': Field, c: Chunks, a: int, b: int, k: Chunk, l: Chunk) {
    var n := a + k.size;
    && SizeFits(k) && SizeFits(l) && k.size > 0 && l.size > 0 && HasNext(k.use)
    && n + l.size <= b && Whole(c, a, b) && SameOutside(h, foot, h', foot', c, a, b)
    && HeadAt(h', a).size == k.size && HeadAt(h', a).cinuse == Inuse(k.use)
    && (k.use == Free || k.use == Top ==> HeadAt(h', a).pinuse)
    && HeadAt(h', n) == Head(l.size, Inuse(l.use), Inuse(k.use))
    && Follows(k.use, l.use) && (k.use == Free ==> At(foot', n) == k.size)
    && LeftFits(h, foot, h', foot', c, a, k.use)
    && (l.use == Trailer || (HasNext(l.use) && b == n + l.size))
    && (if l.use == Trailer then EndFits(h, foot, h', foot', c, b)
        else RightFits(h, foot, h', foot', c, b, l.use, l.size))
  }

  ghost function Two(a: int, k: Chunk, l: Chunk): Chunks {
    map[a := k, a + k.size := l]
  }

  /** The second of two new chunks. */
  lemma SecondChunk(h: Heads, foot: Field, h': Heads, foot': Field, c: Chunks, a: int, b: int, k: Chunk, l: Chunk)
    requires Phys(h, foot, c) && TwoFits(h, foot, h', foot', c, a, b, k, l)
    ensures var c', n := Patch(c, a, b, Two(a, k, l)), a + k.size;
      && n in c' && c'[n] == l && ChunkOk(h', foot', c', n)
      && (b in c' ==> HeadOk(h', c', b) && PrevOk(h', foot', c', b))
  {
    var d, n := Two(a, k, l), a + k.size;
    var c' := Patch(c, a, b, d);
    assert c'[n] == l && c'[a] == k && d[n] == l;
    assert HeadOk(h', c', n) && PrevOk(h', foot', c', n);
    if l.use == Trailer {
      if b in c {
        assert ChunkOk(h, foot, c, b) && c'[b] == c[b];
      }
      hide Phys, Patch, Whole, SameOutside;
    } else {
      hide PrevOk, NextOk, HeadOk;
      RightHead(h, foot, h', foot', c, a, b, d, n);
    }
  }

  lemma FirstChunk(h: Heads, foot: Field, h': Heads, foot': Field, c: Chunks, a: int, b: int, k: Chunk, l: Chunk)
    requires Phys(h, foot, c) && TwoFits(h, foot, h', foot', c, a, b, k, l)
    ensures var c' := Patch(c, a, b, Two(a, k, l));
      a in c' && c'[a] == k && ChunkOk(h', foot', c', a)
  {
    var d, n := Two(a, k, l), a + k.size;
    var c' := Patch(c, a, b, d);
    assert c'[n] == l && c'[a] == k && d[a] == k;
    assert HeadOk(h', c', a) && NextOk(h', foot', c', a);
    hide Phys, Patch, Whole, SameOutside, Follows;
    LeftPrev(h, foot, h', foot', c, a, b, d);
  }

  lemma TwoFitsPatch(h: Heads, foot: Field, h': Heads, foot': Field, c: Chunks, a: int, b: int, k: Chunk, l: Chunk)
    requires Phys(h, foot, c) && TwoFits(h, foot, h', foot', c, a, b, k, l)
    requires LeftNeighbours(foot, h', foot', c, a, k.use)
    ensures PatchFits(h, foot, h', foot', c, a, b, Two(a, k, l))
  {
    var d := Two(a, k, l);
    FirstChunk(h, foot, h', foot', c, a, b, k, l);
    SecondChunk(h, foot, h', foot', c, a, b, k, l);
    assert d.Keys == {a, a + k.size} && d[a] == k && d[a + k.size] == l;
    hide Phys, Patch, Whole, SameOutside, Follows, ChunkOk, HeadOk, PrevOk, Two, LeftFits, RightFits, EndFits, HeadAt;
  }

  lemma PatchTwo(h: Heads, foot: Field, h': Heads, foot': Field, c: Chunks, a: int, b: int, k: Chunk, l: Chunk)
    requires Phys(h, foot, c) && TwoFits(h, foot, h', foot', c, a, b, k, l)
    ensures Phys(h', foot', Patch(c, a, b, Two(a, k, l)))
  {
    LeftIsFine(h, foot, h', foot', c, a, k.use);
    TwoFitsPatch(h, foot, h', foot', c, a, b, k, l);
    hide TwoFits, PatchFits;
    PatchPhys(h, foot, h', foot', c, a, b, Two(a, k, l));
  }
}
