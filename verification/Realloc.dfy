/** dlrealloc. */
module Realloc {
  import opened Words
  import opened Rings
  import opened Trie
  import opened State
  import opened Index
  import opened Heap
  import opened Payload
  import opened Plans
  import opened Invariant
  import opened Taking
  import opened Tmalloc
  import opened Freeing
  import opened Scribbles
  import opened Resizing
  import opened Regions
  import opened FromSystem
  import opened Malloc
  import opened Free

  /** request2size. */
  function Request2Size(bytes: int): int
    requires bytes >= 0
  {
    if bytes < MIN_REQUEST then MIN_CHUNK_SIZE else PadRequest(bytes)
  }

  function Min(a: int, b: int): int {
    if a <= b then a else b
  }

  /** As much of the payload of the block `p`, of size `s`, as fits into `bytes` bytes is now in that of `q`. */
  ghost predicate Moved(f: Field, f': Field, p: int, q: int, s: int, bytes: int) {
    var n := Min(s - 8, bytes);
    n >= 0 && f' == CopyOf(f, q + 16, p + 16, n)
  }

  /** The block at `p` has become one of at least `nb` bytes at `q`, perhaps the same place. */
  ghost predicate Resized(c: Chunks, c': Chunks, p: int, q: int, nb: int) {
    && p in Lives(c) && q in Lives(c') && nb <= Lives(c')[q] < nb + MIN_CHUNK_SIZE
    && Lives(c') == (Lives(c) - {p})[q := Lives(c')[q]]
    && (q != p ==> q !in Lives(c))
  }

  /** The blocks whose payloads the operation has to leave alone: all others, and what stays of this one. */
  ghost function Bystanders(c: Chunks, c': Chunks, p: int, q: int): Blocks {
    if p == q then Lives(c)[p := Min(SizeIn(c, p), SizeIn(c', p))] else Lives(c) - {p}
  }

  // ---- in outline

  /** A block that is to have `nb` bytes where it is: the rest is freed if it can stand alone, or top gives what lacks. */
  ghost function ResizedThere(s: Plan, p: int, nb: int): Plan {
    var size := SizeIn(s.heap, p);
    if size < nb then GrownInto(s, p, nb)
    else if size - nb >= MIN_CHUNK_SIZE then Freed(SplitOff(s, p, nb), p + nb)
    else s
  }

  /** The block at `p` is resized in place, or freed after malloc has found another at `q`. */
  ghost function Realloced(s: Plan, p: int, q: int, nb: int, mp: int): Plan {
    if FitsInPlace(s.top, s.topsize, p, SizeIn(s.heap, p), nb) then ResizedThere(s, p, nb) else Freed(Malloced(s, q, nb, mp), p)
  }

  // ---- the three ways

  lemma ShrunkBlocks(c: Chunks, c1: Chunks, c': Chunks, p: int, nb: int, rsize: int)
    requires BlockAt(c, nb + rsize, p) && Lives(c1) == Lives(c)[p := nb][p + nb := rsize] && p + nb !in Lives(c)
    requires Released(c1, c', p + nb) && nb > 0 && rsize > 0
    ensures Lives(c') == Lives(c)[p := nb]
    ensures Resized(c, c', p, p, nb) && Bystanders(c, c', p, p) == Lives(c')
  {
    assert Lives(c') == Lives(c)[p := nb];
    assert Lives(c)[p := nb] == (Lives(c) - {p})[p := nb];
  }

  /** Big enough already: the rest is freed if it can stand alone. */
  method ShrinkInPlace(m: Mstate, p: int, oldsize: int, nb: int)
    requires Valid(m) && BlockAt(m.heap, oldsize, p) && nb >= MIN_CHUNK_SIZE && nb % 8 == 0 && nb <= oldsize
    modifies m
    ensures Valid(m) && Resized(old(m.heap), m.heap, p, p, nb)
    ensures Quiet(old(MemoryOf(m)), MemoryOf(m), Bystanders(old(m.heap), m.heap, p, p))
    ensures m.footprint <= old(m.footprint)
    ensures PlanOf(m) == ResizedThere(old(PlanOf(m)), p, nb)
    ensures SizeIn(m.heap, p) == if oldsize - nb >= MIN_CHUNK_SIZE then nb else oldsize
  {
    hide Valid, Quiet, Lives, Released, Freed, SplitHeap, MemoryOf;
    ghost var a, c := MemoryOf(m), m.heap;
    var rsize := oldsize - nb;
    if rsize >= MIN_CHUNK_SIZE {
      var remainder := p + nb;
      BlockIn(m, p, oldsize);
      SplitBlock(m, p, nb, rsize, false);
      ghost var b, c1 := MemoryOf(m), m.heap;
      Dlfree(m, remainder + 16);
      QuietAfter(a, b, MemoryOf(m), c1, m.heap, remainder);
      ShrunkBlocks(c, c1, m.heap, p, nb, rsize);
      LiveSizeIn(m.heap, p);
    } else {
      KeptBlocks(c, p, oldsize, nb);
      QuietSelf(a, Lives(c));
    }
  }

  lemma LiveSizeIn(c: Chunks, p: int)
    ensures p in Lives(c) ==> SizeIn(c, p) == Lives(c)[p]
  {}

  lemma KeptBlocks(c: Chunks, p: int, s: int, nb: int)
    requires BlockAt(c, s, p) && nb <= s < nb + MIN_CHUNK_SIZE
    ensures Resized(c, c, p, p, nb) && Bystanders(c, c, p, p) == Lives(c)
    ensures p in Lives(c) && Lives(c)[p] == s
  {
    assert Lives(c)[p] == s;
    assert Lives(c) == (Lives(c) - {p})[p := s];
    assert Lives(c)[p := s] == Lives(c);
  }

  lemma GrownBystanders(c: Chunks, c': Chunks, p: int, s: int, nb: int)
    requires BlockAt(c, s, p) && Lives(c') == Lives(c)[p := nb] && s <= nb
    ensures Resized(c, c', p, p, nb) && Bystanders(c, c', p, p) == Lives(c)
  {
    assert Lives(c)[p] == s;
    assert Lives(c)[p := nb] == (Lives(c) - {p})[p := nb];
    assert Lives(c)[p := s] == Lives(c);
  }

  lemma MovedBlocks(c: Chunks, c1: Chunks, c': Chunks, p: int, q: int, nb: int)
    requires Served(c, c1, q, nb) && Released(c1, c', p) && p in Lives(c)
    ensures p != q && Resized(c, c', p, q, nb) && Bystanders(c, c', p, q) == Lives(c) - {p}
    ensures Within(Lives(c) - {p}, Lives(c)) && Within(Lives(c) - {p}, Lives(c'))
  {
    hide Lives;
    assert Lives(c') == (Lives(c) - {p})[q := Lives(c1)[q]];
  }

  lemma QuietMoved(a: Memory, b: Memory, d: Memory, c: Chunks, c': Chunks, live: Blocks)
    requires Quiet(a, b, Lives(c)) && Quiet(b, d, Lives(c')) && Within(live, Lives(c)) && Within(live, Lives(c'))
    ensures Quiet(a, d, live)
  {
    hide Quiet, Lives, Within;
    QuietAntitone(a, b, live, Lives(c));
    QuietAntitone(b, d, live, Lives(c'));
    QuietTrans(a, b, d, live);
  }

  /** Two blocks are apart, payloads included. */
  lemma BlocksApart(m: Mstate, p: int, q: int)
    requires Valid(m) && p in Lives(m.heap) && q in Lives(m.heap) && p != q
    ensures p % 8 == 0 && q % 8 == 0
    ensures p + Lives(m.heap)[p] <= q || q + Lives(m.heap)[q] <= p
  {
    hide BinsInv, BooksInv, IndexExcept, SegsInv, TopInv;
    assert ChunkOk(m.head, m.foot, m.heap, p) && ChunkOk(m.head, m.foot, m.heap, q);
    assert p < q || q < p;
  }

  /** Malloc, copy, free. */
  method MoveBlock(m: Mstate, d: Bytes, p: int, oldsize: int, bytes: int, mp: int) returns (mem: int)
    requires Valid(m) && BlockAt(m.heap, oldsize, p) && IsWord(bytes) && bytes < MAX_REQUEST
    requires mp == CMFAIL || Fresh(m.segs, mp, mp + SysRequest(m.granularity, ChunkSize(bytes)))
    modifies m, d
    ensures Valid(m)
    ensures mem == 0 ==> unchanged(m) && unchanged(d)
    ensures mem != 0 ==> mem - 16 != p && Resized(old(m.heap), m.heap, p, mem - 16, ChunkSize(bytes))
    ensures mem != 0 ==> Quiet(old(MemoryOf(m)), MemoryOf(m), Bystanders(old(m.heap), m.heap, p, mem - 16))
    ensures mem != 0 ==> Moved(old(d.at), d.at, p, mem - 16, oldsize, bytes)
    ensures mem != 0 ==> PlanOf(m) == Freed(Malloced(old(PlanOf(m)), mem - 16, ChunkSize(bytes), mp), p)
    ensures mem != 0 ==> Picks(old(PlanOf(m)), mem - 16, ChunkSize(bytes), mp)
    ensures mem == 0 <==> Refused(old(m.heap), old(m.topsize), m.granularity, ChunkSize(bytes), mp)
  {
    hide Valid, Quiet, Lives, Released, Served, Chosen, Refused, SysRequest, NoFit, Fresh, CopyOf, Scribbled, Freed, Malloced, NewBlockAt, MemoryOf, ChunkSize, PlanOf, Resized, Bystanders, BlockAt, GranularityOk, Within, Picks;
    ghost var a, c := MemoryOf(m), m.heap;
    BlockIn(m, p, oldsize);
    mem := Dlmalloc(m, bytes, mp);
    if mem != 0 {
      ghost var b, c1 := MemoryOf(m), m.heap;
      var oc := oldsize - 8;
      CopyRoom(m, c, c1, p, mem - 16, oldsize, bytes);
      MemCopy(m, d, mem, p + 16, if oc < bytes then oc else bytes, mem - 16);
      NewBlockQuiet(m, c, b, MemoryOf(m), mem - 16, ChunkSize(bytes));
      QuietTrans(a, b, MemoryOf(m), Lives(c));
      b := MemoryOf(m);
      Dlfree(m, p + 16);
      MovedBlocks(c, c1, m.heap, p, mem - 16, ChunkSize(bytes));
      QuietMoved(a, b, MemoryOf(m), c, m.heap, Lives(c) - {p});
    }
  }

  lemma BlockIn(m: Mstate, p: int, s: int)
    requires Valid(m) && BlockAt(m.heap, s, p)
    ensures p in Lives(m.heap) && Lives(m.heap)[p] == s && p > 0 && s >= MIN_CHUNK_SIZE
  {
    hide BinsInv, BooksInv;
    BlockPlace(m, p);
    BlockEnd(WorldOf(m), {}, p);
  }

  /** The new block does not overlap the old one, which is still there. */
  lemma CopyRoom(m: Mstate, c: Chunks, c1: Chunks, p: int, q: int, s: int, bytes: int)
    requires Valid(m) && m.heap == c1 && BlockAt(c, s, p) && p > 0 && s >= 8 && IsWord(bytes)
    requires Served(c, c1, q, ChunkSize(bytes)) && bytes < MAX_REQUEST
    ensures p in Lives(c1) && Lives(c1)[p] == s && q in Lives(c1) && 0 <= Min(s - 8, bytes) <= Lives(c1)[q] - 8
    ensures q + 16 + Min(s - 8, bytes) <= p + 16 || p + 16 + Min(s - 8, bytes) <= q + 16
  {
    hide Valid;
    assert p in Lives(c) && Lives(c)[p] == s;
    BlocksApart(m, p, q);
  }

  /** Writing into a new block does not change the others. */
  lemma NewBlockQuiet(m: Mstate, c: Chunks, a: Memory, b: Memory, q: int, nb: int)
    requires Valid(m) && Served(c, m.heap, q, nb) && Scribbled(a, b, map[q := Lives(m.heap)[q]])
    ensures Quiet(a, b, Lives(c)) && HeadAt(b.head, q) == HeadAt(a.head, q)
  {
    hide Valid, Scribbled, Quiet, Lives;
    OthersQuiet(m, a, b, q);
    assert Lives(m.heap) - {q} == Lives(c);
  }

  /** What realloc finds at a block. */
  lemma OldBlock(m: Mstate, p: int)
    requires Valid(m) && p in Lives(m.heap)
    ensures BlockAt(m.heap, Lives(m.heap)[p], p) && p >= m.leastAddr && p > 0
    ensures HeadAt(m.head, p).cinuse && SizeAt(m.head, p) == Lives(m.heap)[p] && Lives(m.heap)[p] >= MIN_CHUNK_SIZE
    ensures HeadAt(m.head, p + Lives(m.heap)[p]).pinuse
    ensures !HeadAt(m.head, p).pinuse ==> At(m.foot, p) % 2 == 0
    ensures SizeIn(m.heap, p) == Lives(m.heap)[p]
  {
    hide Valid;
    BlockFacts(m, p);
  }

  lemma GrowsOnlyOnce(bytes: int)
    requires IsWord(bytes) && bytes < MAX_REQUEST
    ensures Request2Size(bytes) == ChunkSize(bytes) && Request2Size(bytes) % 8 == 0
  {}

  /** The block of size `s` at `p` has, or with top behind it can have, `nb` bytes where it is. */
  predicate FitsInPlace(top: int, topsize: int, p: int, s: int, nb: int) {
    s >= nb || (p + s == top && s + topsize > nb)
  }

  /** The two ways of resizing a block where it is. */
  method ResizeInPlace(m: Mstate, p: int, oldsize: int, nb: int) returns (done: bool)
    requires Valid(m) && BlockAt(m.heap, oldsize, p) && nb >= MIN_CHUNK_SIZE && nb % 8 == 0
    modifies m
    ensures Valid(m) && done == FitsInPlace(old(m.top), old(m.topsize), p, oldsize, nb)
    ensures !done ==> unchanged(m)
    ensures done ==> Resized(old(m.heap), m.heap, p, p, nb)
    ensures done ==> Quiet(old(MemoryOf(m)), MemoryOf(m), Bystanders(old(m.heap), m.heap, p, p))
    ensures done ==> PlanOf(m) == ResizedThere(old(PlanOf(m)), p, nb)
    ensures done ==> SizeIn(m.heap, p) == if oldsize >= nb && oldsize - nb < MIN_CHUNK_SIZE then oldsize else nb
  {
    hide Freed, SplitOff, GrownInto, MemoryOf, Valid, Quiet, Lives, Resized, Bystanders;
    done := true;
    if oldsize >= nb {
      ShrinkInPlace(m, p, oldsize, nb);
    } else if p + oldsize == m.top && oldsize + m.topsize > nb {
      ghost var c := m.heap;
      GrowBlock(m, p, nb, oldsize);
      GrownBystanders(c, m.heap, p, oldsize, nb);
      LiveSizeIn(m.heap, p);
    } else {
      done := false;
    }
  }

  /** Realloc can give nothing: the request is too large, or does not fit in place and malloc refuses. */
  ghost predicate ReallocRefused(c: Chunks, top: int, topsize: int, g: int, p: int, bytes: int, mp: int)
    requires GranularityOk(g) && IsWord(bytes) && p in Lives(c)
  {
    bytes >= MAX_REQUEST
    || (!FitsInPlace(top, topsize, p, Lives(c)[p], ChunkSize(bytes)) && Refused(c, topsize, g, ChunkSize(bytes), mp))
  }

  /** internal_realloc: the block is resized in place if it is large enough or if top follows and has room,
      and moved otherwise; as many bytes of its payload as fit are kept, and no other payload changes. */
  method InternalRealloc(m: Mstate, d: Bytes, oldmem: int, bytes: int, mp: int) returns (mem: int)
    requires Valid(m) && oldmem - 16 in Lives(m.heap) && IsWord(bytes)
    requires mp == CMFAIL || Fresh(m.segs, mp, mp + SysRequest(m.granularity, ChunkSize(bytes)))
    modifies m, d
    ensures Valid(m)
    ensures mem == 0 ==> unchanged(m) && unchanged(d)
    ensures mem == 0 <==> ReallocRefused(old(m.heap), old(m.top), old(m.topsize), m.granularity, oldmem - 16, bytes, mp)
    ensures mem != 0 ==> Resized(old(m.heap), m.heap, oldmem - 16, mem - 16, ChunkSize(bytes))
    ensures mem != 0 ==> Quiet(old(MemoryOf(m)), MemoryOf(m), Bystanders(old(m.heap), m.heap, oldmem - 16, mem - 16))
    ensures mem != 0 ==>
      (mem == oldmem <==> FitsInPlace(old(m.top), old(m.topsize), oldmem - 16, SizeIn(old(m.heap), oldmem - 16), ChunkSize(bytes)))
    ensures mem != 0 ==> PlanOf(m) == Realloced(old(PlanOf(m)), oldmem - 16, mem - 16, ChunkSize(bytes), mp)
    ensures mem != 0 && mem == oldmem ==>
      var s, nb := SizeIn(old(m.heap), oldmem - 16), ChunkSize(bytes);
      SizeIn(m.heap, oldmem - 16) == if s >= nb && s - nb < MIN_CHUNK_SIZE then s else nb
    ensures mem != 0 && mem != oldmem ==> Picks(old(PlanOf(m)), mem - 16, ChunkSize(bytes), mp)
    ensures mem != 0 && mem == oldmem ==> unchanged(d)
    ensures mem != 0 && mem != oldmem ==>
      Moved(old(d.at), d.at, oldmem - 16, mem - 16, SizeIn(old(m.heap), oldmem - 16), bytes)
  {
    hide Valid, Quiet, Lives, Resized, Bystanders, Refused, SysRequest, NoFit, Fresh, Moved, Freed, Malloced, NewBlockAt, ResizedThere, MemoryOf, Chosen, Picks;
    mem := 0;
    if bytes < MAX_REQUEST {
      GrowsOnlyOnce(bytes);
      var oldp := oldmem - 16;
      OldBlock(m, oldp);
      var oldsize := SizeAt(m.head, oldp);
      var next := oldp + oldsize;
      if OkAddress(m, oldp) && HeadAt(m.head, oldp).cinuse && oldp < next && HeadAt(m.head, next).pinuse {
        var nb := Request2Size(bytes);
        if !HeadAt(m.head, oldp).pinuse && At(m.foot, oldp) % 2 != 0 {
          assert false;
        }
        var done := ResizeInPlace(m, oldp, oldsize, nb);
        if done {
          mem := oldp + 16;
        } else {
          mem := MoveBlock(m, d, oldp, oldsize, bytes, mp);
        }
      } else {
        assert false;
      }
    }
  }

  /** dlrealloc: malloc without a block, else internal_realloc. */
  method Dlrealloc(m: Mstate, d: Bytes, oldmem: int, bytes: int, mp: int) returns (mem: int)
    requires Valid(m) && (oldmem == 0 || oldmem - 16 in Lives(m.heap)) && IsWord(bytes)
    requires mp == CMFAIL || Fresh(m.segs, mp, mp + SysRequest(m.granularity, ChunkSize(bytes)))
    modifies m, d
    ensures Valid(m)
    ensures mem == 0 ==> unchanged(m) && unchanged(d)
    ensures mem == 0 <==>
      if oldmem == 0 then Refused(old(m.heap), old(m.topsize), m.granularity, ChunkSize(bytes), mp)
      else ReallocRefused(old(m.heap), old(m.top), old(m.topsize), m.granularity, oldmem - 16, bytes, mp)
    ensures oldmem == 0 && mem != 0 ==> Served(old(m.heap), m.heap, mem - 16, ChunkSize(bytes)) && unchanged(d)
    ensures oldmem == 0 && mem != 0 ==> Quiet(old(MemoryOf(m)), MemoryOf(m), Lives(old(m.heap)))
    ensures oldmem != 0 && mem != 0 ==> Resized(old(m.heap), m.heap, oldmem - 16, mem - 16, ChunkSize(bytes))
    ensures oldmem != 0 && mem != 0 ==> Quiet(old(MemoryOf(m)), MemoryOf(m), Bystanders(old(m.heap), m.heap, oldmem - 16, mem - 16))
    ensures oldmem != 0 && mem != 0 && mem == oldmem ==> unchanged(d)
    ensures oldmem != 0 && mem != 0 && mem != oldmem ==>
      Moved(old(d.at), d.at, oldmem - 16, mem - 16, SizeIn(old(m.heap), oldmem - 16), bytes)
    ensures mem != 0 && mem != oldmem ==> Picks(old(PlanOf(m)), mem - 16, ChunkSize(bytes), mp)
    ensures mem != 0 ==>
      PlanOf(m) == if oldmem == 0 then Malloced(old(PlanOf(m)), mem - 16, ChunkSize(bytes), mp)
                   else Realloced(old(PlanOf(m)), oldmem - 16, mem - 16, ChunkSize(bytes), mp)
  {
    hide Valid, Quiet, Served, Lives, Resized, Bystanders, SysRequest, NoFit, Fresh, CopyOf, Chosen, Refused, Malloced, Realloced, NewBlockAt, MemoryOf, Picks;
    if oldmem == 0 {
      mem := Dlmalloc(m, bytes, mp);
    } else {
      mem := InternalRealloc(m, d, oldmem, bytes, mp);
    }
  }
}
