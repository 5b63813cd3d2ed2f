/** dlmemalign. */
module Memalign {
  import opened Words
  import opened BinMaps
  import opened Rings
  import opened Trie
  import opened State
  import opened Index
  import opened Heap
  import opened Payload
  import opened Plans
  import opened Invariant
  import opened Taking
  import opened Tmalloc
  import opened Freeing
  import opened Resizing
  import opened Regions
  import opened Segments
  import opened FromSystem
  import opened Malloc
  import opened Free
  import opened Realloc
  import opened Alignment

  /** `(mem + alignment - 1) & -alignment`. */
  function RoundUp(mem: int, alignment: int): int
    requires 0 < alignment < Pow2(64) && 0 <= mem && mem + alignment - 1 < Pow2(64)
  {
    And(mem + alignment - 1, Neg(alignment, 64))
  }

  /** The next multiple of the alignment. */
  lemma RoundsUp(mem: int, alignment: int)
    requires PowerOfTwo(alignment) && 8 <= alignment && 0 <= mem && mem + alignment - 1 < W64
    ensures Pow2(64) == W64 && alignment < W64
    ensures var r := RoundUp(mem, alignment);
      mem <= r < mem + alignment && Multiple(r, alignment) && (r == mem <==> mem % alignment == 0)
    ensures alignment % 8 == 0
  {
    Pow2Of64();
    var k: nat :| k < 64 && alignment == Pow2(k);
    var x := mem + alignment - 1;
    AndNeg(x, k, 64);
    ClearedIsMultiple(x, alignment);
    AlignedByEight(k);
    MultipleAbove(mem, x - x % alignment, alignment);
  }

  lemma ClearedIsMultiple(x: nat, g: int)
    requires g > 0
    ensures 0 <= x % g < g && Multiple(x - x % g, g)
  {
    RoundDown(x, g);
    assert x - x % g == x / g * g;
  }

  /** The least multiple at or above `a` is `a` itself just when `a` is one. */
  lemma MultipleAbove(a: int, r: int, g: int)
    requires g > 0 && Multiple(r, g) && a <= r < a + g
    ensures r == a <==> a % g == 0
  {
    if a % g == 0 {
      MultipleSum(r, a, g);
      SmallMultiple(r - a, g);
    }
  }

  lemma SmallMultiple(d: int, g: int)
    requires 0 <= d < g && Multiple(d, g)
    ensures d == 0
  {}

  lemma AlignedByEight(k: nat)
    requires Pow2(k) >= 8
    ensures Pow2(k) % 8 == 0
  {
    assert Pow2(2) == 4 && Pow2(1) == 2;
    if k >= 3 {
      assert Pow2(k) == 2 * Pow2(k - 1) && Pow2(k - 1) == 2 * Pow2(k - 2) && Pow2(k - 2) == 2 * Pow2(k - 3);
    }
  }

  lemma MultipleOfEight(x: int, g: int)
    requires g > 0 && g % 8 == 0 && Multiple(x, g)
    ensures x % 8 == 0
  {
    assert x == x / g * g;
    var k := g / 8;
    assert x / g * g == 8 * (x / g * k);
  }

  /** What memalign asks malloc for; the largest word stands for a request that it refuses itself. */
  function AlignRequest(bytes: int, alignment: int): (r: int)
    requires IsWord(bytes) && alignment >= 0
    ensures IsWord(r)
  {
    if bytes >= MAX_REQUEST - alignment then MAX_SIZE_T else Request2Size(bytes) + alignment + MIN_CHUNK_SIZE - 8
  }

  /** The size asked for to be able to align leaves room for the leader and the block. */
  lemma AlignRoom(bytes: int, alignment: int)
    requires 0 <= bytes < MAX_REQUEST - alignment && 32 <= alignment < W64 && alignment % 8 == 0
    ensures var nb := Request2Size(bytes);
      && nb >= MIN_CHUNK_SIZE && nb % 8 == 0 && nb >= bytes + 8
      && AlignRequest(bytes, alignment) == nb + alignment + MIN_CHUNK_SIZE - 8
      && ChunkSize(AlignRequest(bytes, alignment)) >= nb + alignment + MIN_CHUNK_SIZE
  {}

  /** Where the aligned block starts: the next aligned address that leaves room for a leader. */
  function AlignedPlace(p: int, br: int, alignment: int): int {
    if br - p >= MIN_CHUNK_SIZE then br else br + alignment
  }

  lemma AlignedPlaceFits(p: int, mem: int, alignment: int)
    requires PowerOfTwo(alignment) && 32 <= alignment && mem == p + 16 && p > 0 && p % 8 == 0 && mem + alignment - 1 < W64
    requires mem % alignment != 0
    ensures Pow2(64) == W64 && alignment < W64
    ensures var q := AlignedPlace(p, RoundUp(mem, alignment) - 16, alignment);
      && q - p >= MIN_CHUNK_SIZE && q - p <= alignment + 24 && (q - p) % 8 == 0 && Multiple(q + 16, alignment)
    ensures FirstAligned(p, AlignedPlace(p, RoundUp(mem, alignment) - 16, alignment), alignment)
  {
    hide Multiple, RoundUp, AlignedPlace, PowerOfTwo;
    RoundsUp(mem, alignment);
    var r := RoundUp(mem, alignment);
    MultipleOfEight(r, alignment);
    MultipleOfItself(alignment);
    MultipleSum(r, alignment, alignment);
    PlaceInRange(p, r, alignment);
  }

  lemma PlaceInRange(p: int, r: int, alignment: int)
    requires p % 8 == 0 && r % 8 == 0 && alignment % 8 == 0 && p + 16 < r < p + 16 + alignment && alignment >= 32
    ensures var q := AlignedPlace(p, r - 16, alignment);
      q - p >= MIN_CHUNK_SIZE && q - p <= alignment + 24 && (q - p) % 8 == 0 && (q == r - 16 || q == r - 16 + alignment)
  {}

  lemma MultipleOfItself(g: int)
    requires g > 0
    ensures Multiple(g, g)
  {}

  // ---- in outline

  /** The first aligned place at `p0` or, with room for a leader, behind it. */
  ghost predicate FirstAligned(p0: int, p: int, alignment: int) {
    && alignment != 0 && (p + 16) % alignment == 0
    && (p == p0 || ((p0 + 16) % alignment != 0 && MIN_CHUNK_SIZE <= p - p0 < MIN_CHUNK_SIZE + alignment))
  }

  /** The block at `p0` is cut down to an aligned one at `p`: what is before it is given back, and what is more than the
      least chunk behind its `nb` bytes. */
  ghost function CutDown(s: Plan, p0: int, p: int, nb: int): Plan {
    var s1 := if p == p0 then s else SplitOff(s, p0, p - p0);
    var more := SizeIn(s1.heap, p) > nb + MIN_CHUNK_SIZE;
    var s2 := if more then SplitOff(s1, p, nb) else s1;
    var s3 := if p == p0 then s2 else Freed(s2, p0);
    if more then Freed(s3, p + nb) else s3
  }

  /** Malloc finds a block of `big` bytes somewhere, and what is left of it starts at `p`. */
  ghost predicate Memaligned(s: Plan, s': Plan, p: int, big: int, nb: int, alignment: int, mp: int) {
    exists p0 :: Picks(s, p0, big, mp) && FirstAligned(p0, p, alignment) && s' == CutDown(Malloced(s, p0, big, mp), p0, p, nb)
  }

  // ---- carving an aligned block out of a larger one

  /** Besides the blocks `rest` there are exactly those at `mine`. */
  ghost predicate Beside(rest: Blocks, c: Chunks, mine: set<int>) {
    && (forall y {:trigger y in Lives(c)} {:trigger y in mine} {:trigger y in rest} :: y in Lives(c) <==> y in rest || y in mine)
    && (forall y {:trigger y in mine} :: y in mine ==> y !in rest)
    && (forall y {:trigger rest[y]} {:trigger Lives(c)[y]} :: y in rest ==> Lives(c)[y] == rest[y])
  }

  lemma BesideServed(c: Chunks, c': Chunks, p: int, nb: int)
    requires Served(c, c', p, nb)
    ensures Beside(Lives(c), c', {p})
  {
    hide Lives;
  }

  lemma BesideSplit(rest: Blocks, c: Chunks, c': Chunks, mine: set<int>, p: int, nb: int, rsize: int)
    requires Beside(rest, c, mine) && p in mine && p + nb !in Lives(c) && Lives(c') == Lives(c)[p := nb][p + nb := rsize]
    ensures Beside(rest, c', mine + {p + nb})
  {
    hide Lives;
  }

  lemma BesideReleased(rest: Blocks, c: Chunks, c': Chunks, mine: set<int>, p: int)
    requires Beside(rest, c, mine) && p in mine && Released(c, c', p)
    ensures Beside(rest, c', mine - {p})
    ensures forall y :: y in mine && y != p ==> y in Lives(c) && y in Lives(c') && Lives(c')[y] == Lives(c)[y]
  {
    hide Lives;
  }

  lemma BesideWithin(rest: Blocks, c: Chunks, mine: set<int>)
    requires Beside(rest, c, mine)
    ensures Within(rest, Lives(c))
  {
    hide Lives;
  }

  lemma BesideOne(rest: Blocks, c: Chunks, q: int)
    requires Beside(rest, c, {q})
    ensures q in Lives(c) && Lives(c) == rest[q := Lives(c)[q]] && q !in rest
  {
    hide Lives;
    var l, r := Lives(c), rest[q := Lives(c)[q]];
    assert q in {q};
    forall y
      ensures y in l <==> y in r
      ensures y in l ==> l[y] == r[y]
    {
      assert y in {q} <==> y == q;
    }
  }

  /** The next step leaves the blocks `rest` alone, too. */
  lemma QuietOn(a: Memory, b: Memory, d: Memory, c: Chunks, rest: Blocks)
    requires Quiet(a, b, rest) && Quiet(b, d, Lives(c)) && Within(rest, Lives(c))
    ensures Quiet(a, d, rest)
  {
    hide Quiet, Lives, Within;
    QuietAntitone(b, d, rest, Lives(c));
    QuietTrans(a, b, d, rest);
  }

  /** A misaligned block is split at the first aligned place that leaves room for a leader. */
  method AlignBlock(m: Mstate, p: int, s: int, alignment: int, ghost nb: int, ghost rest: Blocks)
      returns (q: int, leader: int, ghost mine: set<int>)
    requires Valid(m) && BlockAt(m.heap, s, p) && Beside(rest, m.heap, {p})
    requires PowerOfTwo(alignment) && 32 <= alignment <= 0x8000_0000_0000_0000
    requires nb >= MIN_CHUNK_SIZE && s >= nb + alignment + MIN_CHUNK_SIZE
    modifies m`head, m`heap
    ensures Valid(m) && q > 0 && q in Lives(m.heap) && Lives(m.heap)[q] >= nb && BlockAt(m.heap, Lives(m.heap)[q], q)
    ensures (q + 16) % alignment == 0 && (leader == 0 ==> q == p)
    ensures Beside(rest, m.heap, mine) && mine == (if leader == 0 then {q} else {leader - 16, q})
    ensures leader != 0 ==> leader - 16 != q
    ensures Quiet(old(MemoryOf(m)), MemoryOf(m), rest)
    ensures FirstAligned(p, q, alignment) && (leader != 0 ==> q != p && leader == p + 16)
    ensures PlanOf(m) == if leader == 0 then old(PlanOf(m)) else SplitOff(old(PlanOf(m)), p, q - p)
  {
    hide Valid, Quiet, Lives, Beside, PowerOfTwo, AlignedPlace, RoundUp, FirstAligned, SplitHeap, MemoryOf;
    ghost var a, c := MemoryOf(m), m.heap;
    BlockIn(m, p, s);
    BlockWord(m, p, s);
    var mem := p + 16;
    q, leader, mine := p, 0, {p};
    if mem % alignment != 0 {
      AlignedPlaceFits(p, mem, alignment);
      var br := RoundUp(mem, alignment) - 16;
      var pos := AlignedPlace(p, br, alignment);
      var leadsize := pos - p;
      var newsize := s - leadsize;
      SplitBlock(m, p, leadsize, newsize, true);
      BesideSplit(rest, c, m.heap, {p}, p, leadsize, newsize);
      BesideWithin(rest, m.heap, {p} + {pos});
      QuietAntitone(a, MemoryOf(m), rest, Lives(m.heap));
      leader := p + 16;
      q := pos;
      mine := {p, pos};
      assert {p} + {pos} == {p, pos};
      BlockIn(m, pos, newsize);
      ModOfMultiple(q + 16, alignment);
    } else {
      AlignedItself(p, alignment);
      QuietSelf(a, rest);
    }
  }

  lemma AlignedItself(p: int, g: int)
    requires g != 0 && (p + 16) % g == 0
    ensures FirstAligned(p, p, g)
  {}

  lemma ModOfMultiple(x: int, g: int)
    requires Multiple(x, g)
    ensures g != 0 && x % g == 0
  {}

  lemma BlockWord(m: Mstate, p: int, s: int)
    requires Valid(m) && BlockAt(m.heap, s, p)
    ensures p + s < W64 && p % 8 == 0
  {
    hide BinsInv, BooksInv, ViewsExcept;
    BlockPlace(m, p) by {
      assert p in Lives(m.heap);
    }
  }

  /** Spare room at the end is split off, just when it is more than the least chunk. */
  method CutTrailer(m: Mstate, p: int, nb: int, ghost rest: Blocks, ghost mine0: set<int>) returns (trailer: int, ghost mine: set<int>)
    requires Valid(m) && p in mine0 && Beside(rest, m.heap, mine0) && p in Lives(m.heap) && BlockAt(m.heap, Lives(m.heap)[p], p)
    requires nb >= MIN_CHUNK_SIZE && nb % 8 == 0 && Lives(m.heap)[p] >= nb && p > 0
    modifies m`head, m`heap
    ensures Valid(m) && p in Lives(m.heap) && nb <= Lives(m.heap)[p] <= nb + MIN_CHUNK_SIZE
    ensures var s := old(Lives(m.heap))[p];
      if s > nb + MIN_CHUNK_SIZE then trailer == p + nb + 16 && Lives(m.heap)[p] == nb else trailer == 0 && Lives(m.heap)[p] == s
    ensures Beside(rest, m.heap, mine) && mine == (if trailer == 0 then mine0 else mine0 + {trailer - 16})
    ensures trailer != 0 ==> trailer - 16 !in mine0 && trailer - 16 != p
    ensures Quiet(old(MemoryOf(m)), MemoryOf(m), rest)
    ensures SizeIn(old(m.heap), p) == old(Lives(m.heap))[p]
    ensures PlanOf(m) == if trailer == 0 then old(PlanOf(m)) else SplitOff(old(PlanOf(m)), p, nb)
  {
    hide Valid, Quiet, Lives, Beside, SplitHeap, MemoryOf;
    ghost var a, c := MemoryOf(m), m.heap;
    OldBlock(m, p);
    var size := SizeAt(m.head, p);
    trailer, mine := 0, mine0;
    if size > nb + MIN_CHUNK_SIZE {
      var remainder_size := size - nb;
      var remainder := p + nb;
      SplitBlock(m, p, nb, remainder_size, false);
      BesideSplit(rest, c, m.heap, mine0, p, nb, remainder_size);
      BesideWithin(rest, m.heap, mine0 + {remainder});
      NotMine(rest, c, mine0, remainder);
      QuietAntitone(a, MemoryOf(m), rest, Lives(m.heap));
      trailer, mine := remainder + 16, mine0 + {remainder};
      BlockIn(m, p, nb);
    } else {
      QuietSelf(a, rest);
    }
  }

  lemma NotMine(rest: Blocks, c: Chunks, mine: set<int>, q: int)
    requires Beside(rest, c, mine) && q !in Lives(c)
    ensures q !in mine
  {
    hide Lives;
  }

  /** One of the blocks besides `rest` is freed. */
  method FreeMine(m: Mstate, q: int, p: int, ghost rest: Blocks, ghost mine: set<int>)
    requires Valid(m) && q in mine && p in mine && p != q && Beside(rest, m.heap, mine) && q > 0
    modifies m
    ensures Valid(m) && Beside(rest, m.heap, mine - {q}) && Quiet(old(MemoryOf(m)), MemoryOf(m), rest)
    ensures p in old(Lives(m.heap)) && p in Lives(m.heap) && Lives(m.heap)[p] == old(Lives(m.heap))[p]
    ensures PlanOf(m) == Freed(old(PlanOf(m)), q)
  {
    hide Valid, Quiet, Lives, Released, Freed, MemoryOf;
    ghost var a, c := MemoryOf(m), m.heap;
    assert q in Lives(c);
    hide Beside;
    Dlfree(m, q + 16);
    BesideReleased(rest, c, m.heap, mine, q);
    BesideWithin(rest, m.heap, mine - {q});
    QuietAntitone(a, MemoryOf(m), rest, Lives(m.heap));
  }

  /** `q` is a block of at least `nb` bytes, the only new one, and its payload starts at a multiple of
      `alignment`. */
  ghost predicate ServedAligned(c: Chunks, c': Chunks, q: int, nb: int, alignment: int) {
    && q in Lives(c') && nb <= Lives(c')[q] <= nb + MIN_CHUNK_SIZE && Given(c, c', q, Lives(c')[q])
    && alignment != 0 && (q + 16) % alignment == 0
  }

  lemma IsServedAligned(c: Chunks, c': Chunks, q: int, nb: int, alignment: int)
    requires Beside(Lives(c), c', {q}) && q in Lives(c') && nb <= Lives(c')[q] <= nb + MIN_CHUNK_SIZE
    requires alignment != 0 && (q + 16) % alignment == 0
    ensures ServedAligned(c, c', q, nb, alignment)
  {
    hide Lives;
    BesideOne(Lives(c), c', q);
  }

  /** The part of internal_memalign behind the call of malloc. */
  method CarveAligned(m: Mstate, p0: int, s: int, nb: int, alignment: int, ghost rest: Blocks) returns (p: int)
    requires Valid(m) && BlockAt(m.heap, s, p0) && Beside(rest, m.heap, {p0})
    requires PowerOfTwo(alignment) && 32 <= alignment <= 0x8000_0000_0000_0000
    requires nb >= MIN_CHUNK_SIZE && nb % 8 == 0 && s >= nb + alignment + MIN_CHUNK_SIZE
    modifies m
    ensures Valid(m) && Beside(rest, m.heap, {p}) && p in Lives(m.heap) && nb <= Lives(m.heap)[p] <= nb + MIN_CHUNK_SIZE
    ensures p > 0 && (p + 16) % alignment == 0
    ensures Quiet(old(MemoryOf(m)), MemoryOf(m), rest)
    ensures FirstAligned(p0, p, alignment) && PlanOf(m) == CutDown(old(PlanOf(m)), p0, p, nb)
  {
    hide Valid, Quiet, Lives, Beside, PowerOfTwo, Freed, SplitOff, FirstAligned, MemoryOf;
    ghost var a, mine := MemoryOf(m), {p0};
    var leader, trailer;
    p, leader, mine := AlignBlock(m, p0, s, alignment, nb, rest);
    ghost var b, mine1 := MemoryOf(m), mine;
    trailer, mine := CutTrailer(m, p, nb, rest, mine);
    QuietTrans(a, b, MemoryOf(m), rest);
    if leader != 0 {
      b := MemoryOf(m);
      MinePositive(m, leader - 16, rest, mine);
      FreeMine(m, leader - 16, p, rest, mine);
      mine := mine - {leader - 16};
      QuietTrans(a, b, MemoryOf(m), rest);
    }
    if trailer != 0 {
      b := MemoryOf(m);
      MinePositive(m, trailer - 16, rest, mine);
      FreeMine(m, trailer - 16, p, rest, mine);
      mine := mine - {trailer - 16};
      QuietTrans(a, b, MemoryOf(m), rest);
    }
    assert mine == {p};
  }

  lemma MinePositive(m: Mstate, q: int, rest: Blocks, mine: set<int>)
    requires Valid(m) && Beside(rest, m.heap, mine) && q in mine
    ensures q > 0
  {
    hide Valid, Lives;
    BlockPlace(m, q);
  }

  /** internal_memalign for alignments above the malloc alignment. */
  method InternalMemalign(m: Mstate, alignment0: int, bytes: int, mp: int) returns (mem: int, ghost alignment: int)
    requires Valid(m) && 8 < alignment0 <= 0x8000_0000_0000_0000 && IsWord(bytes)
    requires mp == CMFAIL || FreshFor(m, alignment0, bytes, mp)
    modifies m
    ensures Valid(m) && Rounded(alignment0, alignment)
    ensures mem == 0 ==> unchanged(m)
    ensures mem != 0 ==> ServedAligned(old(m.heap), m.heap, mem - 16, Request2Size(bytes), alignment)
    ensures mem != 0 ==> Quiet(old(MemoryOf(m)), MemoryOf(m), Lives(old(m.heap)))
    ensures mem == 0 <==> Refused(old(m.heap), old(m.topsize), m.granularity, ChunkSize(AlignRequest(bytes, alignment)), mp)
    ensures mem != 0 ==>
      Memaligned(old(PlanOf(m)), PlanOf(m), mem - 16, ChunkSize(AlignRequest(bytes, alignment)), Request2Size(bytes), alignment, mp)
  {
    hide Valid, Quiet, Lives, Beside, PowerOfTwo, Served, Chosen, NoFit, Given, Fresh, SysRequest, ServedAligned, Refused, Rounded, FreshFor, FirstAligned, CutDown, Malloced, Picks, MemoryOf;
    var al := RoundAlignment(alignment0);
    alignment := al;
    mem := 0;
    RoundedRange(alignment0, al);
    if bytes >= MAX_REQUEST - al {
      HugeRefused(m, mp);
    } else {
      AlignRoom(bytes, al);
      Granule(m);
      FreshToAlign(m, alignment0, al, bytes, mp);
      var nb := Request2Size(bytes);
      var req := nb + al + MIN_CHUNK_SIZE - 8;
      ghost var a, c := MemoryOf(m), m.heap;
      mem := Dlmalloc(m, req, mp);
      if mem != 0 {
        ghost var b := MemoryOf(m);
        BesideServed(c, m.heap, mem - 16, ChunkSize(req));
        NewBlock(m, c, mem - 16, ChunkSize(req));
        var p := CarveAligned(m, mem - 16, SizeAt(m.head, mem - 16), nb, al, Lives(c));
        QuietTrans(a, b, MemoryOf(m), Lives(c));
        IsServedAligned(c, m.heap, p, nb, al);
        mem := p + 16;
      }
    }
  }

  /** The system's answer suits the request that memalign makes for room to align in. */
  ghost predicate FreshFor(m: Mstate, alignment0: int, bytes: int, mp: int)
    requires IsWord(bytes) && GranularityOk(m.granularity)
    reads m`segs
  {
    forall alignment {:trigger Rounded(alignment0, alignment)} :: Rounded(alignment0, alignment) && bytes < MAX_REQUEST - alignment ==>
      Fresh(m.segs, mp, mp + SysRequest(m.granularity, ChunkSize(AlignRequest(bytes, alignment))))
  }

  lemma FreshToAlign(m: Mstate, alignment0: int, al: int, bytes: int, mp: int)
    requires IsWord(bytes) && GranularityOk(m.granularity) && Rounded(alignment0, al) && bytes < MAX_REQUEST - al
    requires mp == CMFAIL || FreshFor(m, alignment0, bytes, mp)
    ensures al >= 0
    ensures mp == CMFAIL || Fresh(m.segs, mp, mp + SysRequest(m.granularity, ChunkSize(AlignRequest(bytes, al))))
  {
    hide Fresh, SysRequest;
  }

  lemma RoundedRange(alignment0: int, al: int)
    requires Rounded(alignment0, al)
    ensures 32 <= al <= 0x8000_0000_0000_0000 && al % 8 == 0
  {
    var k: nat :| k < 64 && al == Pow2(k);
    Pow2Of64();
    assert Pow2(64) == 2 * Pow2(63);
    Pow2Monotone(k, 63);
    AlignedByEight(k);
  }

  /** What malloc has returned. */
  lemma NewBlock(m: Mstate, c: Chunks, p: int, nb: int)
    requires Valid(m) && Served(c, m.heap, p, nb)
    ensures p in Lives(m.heap) && BlockAt(m.heap, SizeAt(m.head, p), p) && nb <= SizeAt(m.head, p)
    ensures SizeAt(m.head, p) == Lives(m.heap)[p]
  {
    hide Valid, Lives, Given;
    OldBlock(m, p);
  }

  /** dlmemalign: any malloc'ed block will do for small alignments. */
  method Dlmemalign(m: Mstate, alignment0: int, bytes: int, mp: int) returns (mem: int, ghost alignment: int)
    requires Valid(m) && 0 <= alignment0 <= 0x8000_0000_0000_0000 && IsWord(bytes)
    requires mp == CMFAIL
      || (if alignment0 <= 8 then Fresh(m.segs, mp, mp + SysRequest(m.granularity, ChunkSize(bytes)))
          else FreshFor(m, alignment0, bytes, mp))
    modifies m
    ensures Valid(m) && (if alignment0 <= 8 then alignment == 8 else Rounded(alignment0, alignment))
    ensures mem == 0 ==> unchanged(m)
    ensures mem != 0 ==> ServedAligned(old(m.heap), m.heap, mem - 16, ChunkSize(bytes), alignment)
    ensures mem != 0 ==> Quiet(old(MemoryOf(m)), MemoryOf(m), Lives(old(m.heap)))
    ensures alignment >= 0
    ensures mem == 0 <==> Refused(old(m.heap), old(m.topsize), m.granularity,
                                  ChunkSize(if alignment0 <= 8 then bytes else AlignRequest(bytes, alignment)), mp)
    ensures mem != 0 && alignment0 <= 8 ==>
      Picks(old(PlanOf(m)), mem - 16, ChunkSize(bytes), mp) && PlanOf(m) == Malloced(old(PlanOf(m)), mem - 16, ChunkSize(bytes), mp)
    ensures mem != 0 && alignment0 > 8 ==>
      Memaligned(old(PlanOf(m)), PlanOf(m), mem - 16, ChunkSize(AlignRequest(bytes, alignment)), ChunkSize(bytes), alignment, mp)
  {
    hide Valid, Quiet, Served, Chosen, NoFit, SysRequest, Fresh, ServedAligned, FreshFor, Rounded, Given, Refused, Memaligned, Malloced, Picks, MemoryOf;
    if alignment0 <= 8 {
      ghost var c := m.heap;
      alignment := 8;
      mem := Dlmalloc(m, bytes, mp);
      if mem != 0 {
        ServedEight(m, c, mem - 16, ChunkSize(bytes));
      }
    } else {
      HugeRefused(m, mp);
      mem, alignment := InternalMemalign(m, alignment0, bytes, mp);
      RoundedRange(alignment0, alignment);
      if mem != 0 {
        GrowsOnlyOnce(bytes);
      }
    }
  }

  /** Every block is aligned to eight. */
  lemma ServedEight(m: Mstate, c: Chunks, p: int, nb: int)
    requires Valid(m) && Served(c, m.heap, p, nb)
    ensures ServedAligned(c, m.heap, p, nb, 8)
  {
    hide Valid;
    NewBlock(m, c, p, nb);
    BlockIn(m, p, SizeAt(m.head, p));
    BlockWord(m, p, SizeAt(m.head, p));
  }
}
