/** dlfree. */
module Free {
  import opened Words
  import opened Rings
  import opened Trie
  import opened State
  import opened Index
  import opened Heap
  import opened Payload
  import opened Plans
  import opened Invariant
  import opened Taking
  import opened InOut
  import opened Segments
  import opened Tmalloc
  import opened Freeing
  import opened FromSystem
  import opened Trimming

  /** Freeing trims just when the block joins top and top is then larger than the threshold. */
  ghost function FreedAndTrimmed(s: Plan, q: int, p: int): Plan {
    var s1 := FreedFrom(s, q, p);
    if p + SizeIn(s.heap, p) == s.top && s1.topsize > s.trimCheck then Trimmed(s1, 0) else s1
  }

  /** What dlfree does to a block. */
  ghost function Freed(s: Plan, p: int): Plan {
    FreedAndTrimmed(s, MergeFrom(s.heap, p), p)
  }

  /** Trimmed just when the block has joined top and top was then larger than the threshold: nothing changes for the
      segments otherwise, and when nothing could be given back, trimming is off from then on. */
  ghost predicate TrimmedJust(s: Plan, s': Plan, q: int, p: int) {
    var joint := s.top + s.topsize - q;
    if p + SizeIn(s.heap, p) != s.top then
      && s'.segs == s.segs && s'.footprint == s.footprint && s'.trimCheck == s.trimCheck && s'.asked == s.asked
      && s'.top == s.top && s'.topsize == s.topsize
    else if joint <= s.trimCheck then
      && s'.segs == s.segs && s'.footprint == s.footprint && s'.trimCheck == s.trimCheck && s'.asked == s.asked
      && s'.top == q && s'.topsize == joint
    else s'.footprint != s.footprint || s'.trimCheck == MAX_SIZE_T
  }

  /** That is what the test of the threshold comes to. */
  lemma TrimsIff(s: Plan, q: int, p: int)
    requires s.top != 0 && q != 0
    ensures TrimmedJust(s, FreedAndTrimmed(s, q, p), q, p)
  {
    hide Swept, WithTopCut, TopKept, Patch;
  }

  lemma FreedCases(s: Plan, q: int, p: int)
    requires p in s.heap && p != s.dv && forall y :: y in s.heap ==> s.heap[y].size > 0
    ensures var n, toDv := p + s.heap[p].size, q == s.dv;
      && (n == s.top ==>
           FreedFrom(s, q, p)
           == WithDv(s.(heap := TopHeap(s.heap, q, n + s.topsize), top := q, topsize := s.topsize + n - q), toDv, 0, 0))
      && (n != s.top && n in s.heap && s.heap[n].use != Free ==>
           FreedFrom(s, q, p) == WithDv(s.(heap := FreeHeap(s.heap, q, n)), toDv, q, n - q))
      && (n != s.top && n in s.heap && s.heap[n].use == Free ==>
           var b := n + s.heap[n].size;
           FreedFrom(s, q, p) == WithDv(s.(heap := FreeHeap(s.heap, q, b)), toDv || n == s.dv, q, b - q))
  {
    hide Patch;
    assert s.top + s.topsize - q == s.topsize + s.top - q;
  }

  /** Where merging starts, and what it makes. */
  lemma FreeingCases(m: Mstate, out: set<int>, q: int, p: int)
    requires FreeingAt(m, out, q, p)
    ensures p in m.heap && p != m.dv && q == MergeFrom(m.heap, p)
    ensures var s, n, toDv := PlanOf(m), p + m.heap[p].size, q == m.dv;
      && (n == s.top ==>
           FreedFrom(s, q, p)
           == WithDv(s.(heap := TopHeap(s.heap, q, n + s.topsize), top := q, topsize := s.topsize + n - q), toDv, 0, 0))
      && (n != s.top && n in s.heap && s.heap[n].use != Free ==>
           FreedFrom(s, q, p) == WithDv(s.(heap := FreeHeap(s.heap, q, n)), toDv, q, n - q))
      && (n != s.top && n in s.heap && s.heap[n].use == Free ==>
           var b := n + s.heap[n].size;
           FreedFrom(s, q, p) == WithDv(s.(heap := FreeHeap(s.heap, q, b)), toDv || n == s.dv, q, b - q))
  {
    hide FreeingAt, MergeFrom, FreedFrom, TopHeap, FreeHeap, WithDv;
    FreeingSizes(m, out, q, p);
    FreedCases(PlanOf(m), q, p);
  }

  lemma FreeingSizes(m: Mstate, out: set<int>, q: int, p: int)
    requires FreeingAt(m, out, q, p)
    ensures p in m.heap && p != m.dv && q == MergeFrom(m.heap, p)
    ensures forall y :: y in m.heap ==> m.heap[y].size > 0
  {
    hide BinsInv, ViewsExcept, BooksInv, TotalSize, MergeStart;
    MergeFromIs(WorldOf(m), out, q, p);
    DvNotLive(WorldOf(m), out, p);
    ViewSizes(WorldOf(m), out);
  }

  lemma ViewSizes(w: World, out: set<int>)
    requires ViewsExcept(w, out)
    ensures forall y :: y in w.heap ==> w.heap[y].size > 0
  {
    Sizes(w.head, w.foot, w.heap);
  }

  /** After trimming, too, the one difference between the blocks is that `p` is gone. */
  lemma ReleasedAndTrimmed(a: Memory, b: Memory, d: Memory, c: Chunks, c': Chunks, c'': Chunks, p: int)
    requires Released(c, c', p) && Quiet(a, b, Lives(c')) && SameBlocks(b, d, c', c'')
    ensures Released(c, c'', p) && Quiet(a, d, Lives(c''))
  {
    hide Quiet, Lives;
    QuietTrans(a, b, d, Lives(c'));
  }

  lemma BlockFacts(m: Mstate, p: int)
    requires Valid(m) && p in Lives(m.heap)
    ensures p in m.heap && m.heap[p].use == Live && p >= m.leastAddr && p > 0 && Lives(m.heap)[p] == m.heap[p].size
    ensures HeadAt(m.head, p).cinuse && SizeAt(m.head, p) == m.heap[p].size && m.heap[p].size >= MIN_CHUNK_SIZE
    ensures var n := p + m.heap[p].size;
      && n in m.heap && HeadAt(m.head, n).pinuse
      && (HeadAt(m.head, n).cinuse || m.heap[n].use == Free || n == m.top)
      && (m.heap[n].use == Free ==> !HeadAt(m.head, n).cinuse && n != m.top)
      && (n == m.top ==> !HeadAt(m.head, n).cinuse)
    ensures !HeadAt(m.head, p).pinuse ==>
      var s := At(m.foot, p);
      FreeAt(m.heap, s, p - s) && s % 2 == 0 && p - s >= m.leastAddr && s > 0
  {
    hide BinsInv, ViewsExcept, BooksInv, Lives, FreeAt;
    BlockPlace(m, p);
    ChunkAddress(m, {}, p);
    AroundBlock(WorldOf(m), p);
    if !HeadAt(m.head, p).pinuse {
      ChunkAddress(m, {}, p - At(m.foot, p));
    }
  }

  lemma AroundBlock(w: World, p: int)
    requires ViewsExcept(w, {}) && p in w.heap && w.heap[p].use == Live
    ensures HeadAt(w.head, p).cinuse && SizeAt(w.head, p) == w.heap[p].size && w.heap[p].size >= MIN_CHUNK_SIZE
    ensures var n := p + w.heap[p].size;
      && n in w.heap && HeadAt(w.head, n).pinuse
      && (HeadAt(w.head, n).cinuse || w.heap[n].use == Free || n == w.top)
      && (w.heap[n].use == Free ==> !HeadAt(w.head, n).cinuse && n != w.top)
      && (n == w.top ==> !HeadAt(w.head, n).cinuse)
    ensures !HeadAt(w.head, p).pinuse ==>
      var s := At(w.foot, p);
      FreeAt(w.heap, s, p - s) && p - s in w.heap && s % 2 == 0 && s > 0
  {
    hide ViewsExcept;
    Around(w, {}, p);
    if !HeadAt(w.head, p).pinuse {
      EvenMultiple(At(w.foot, p));
    }
  }

  lemma EvenMultiple(s: int)
    requires s % 8 == 0
    ensures s % 2 == 0
  {
    var k := s / 8;
    assert s == 2 * (4 * k);
    DividesTimes(4 * k, 2);
  }

  /** The chunk before the block leaves its bin, unless it is the victim. */
  method DetachPrev(m: Mstate, q: int, prevsize: int, ghost p: int)
    requires Valid(m) && p in Lives(m.heap) && !HeadAt(m.head, p).pinuse && prevsize == At(m.foot, p) && q == p - prevsize && q != m.dv
    modifies m`fd, m`bk, m`child0, m`child1, m`parent, m`treebins, m`treemap, m`smallmap, m`small, m`nodes
    ensures FreeingAt(m, {q}, q, p) && q != m.dv
    ensures Quiet(old(MemoryOf(m)), MemoryOf(m), Lives(m.heap))
  {
    hide BinsInv, ViewsExcept, BooksInv, TotalSize, Quiet, Kept;
    BlockFacts(m, p);
    NextKept(WorldOf(m), {}, q);
    Detach(m, q, prevsize, {});
    assert {} + {q} == {q};
  }

  /** What the head words say of the chunk behind the block. */
  lemma BehindBlock(m: Mstate, out: set<int>, q: int, p: int)
    requires FreeingAt(m, out, q, p)
    ensures var n := p + m.heap[p].size;
      && n in m.heap && q <= p < n && p != m.dv && HeadAt(m.head, n).pinuse
      && (HeadAt(m.head, n).cinuse ==> m.heap[n].use != Free && n != m.top && n != m.dv)
      && (!HeadAt(m.head, n).cinuse && n != m.top ==> m.heap[n].use == Free && (n == m.dv ==> m.heap[n].size == m.dvsize))
      && (n == m.top ==> !HeadAt(m.head, n).cinuse)
  {
    hide BinsInv, BooksInv, TotalSize, MergeStart, ViewsExcept;
    var w := WorldOf(m);
    Around(w, out, p);
    MergeBefore(w, out, q, p);
    DvNotLive(w, out, p);
    LiveSize(w, out, p);
    if p + w.heap[p].size == w.dv {
      VictimIsFree(w, out, w.dv);
    }
  }

  lemma VictimIsFree(w: World, out: set<int>, n: int)
    requires ViewsExcept(w, out) && n in w.heap && n == w.dv
    ensures w.heap[n] == Chunk(w.dvsize, Free)
  {
    Sizes(w.head, w.foot, w.heap);
  }

  lemma NothingOut(m: Mstate, out: set<int>, q: int, p: int)
    requires FreeingAt(m, out, q, p) && (q == p || q == m.dv)
    ensures out == {}
  {
    hide ValidExcept;
  }

  /** Freeing starts: nothing has merged, or the victim from the left. */
  lemma StartFreeing(m: Mstate, q: int, p: int)
    requires Valid(m) && p in Lives(m.heap)
    requires if HeadAt(m.head, p).pinuse then q == p else q == p - At(m.foot, p) && q == m.dv
    ensures FreeingAt(m, {}, q, p)
  {
    hide BinsInv, ViewsExcept, BooksInv, TotalSize;
  }

  /** The block, with what merged from the left, joins top, which is trimmed when it has become too large. */
  method FreeTowardsTop(m: Mstate, q: int, psize: int, ghost out: set<int>, ghost p: int)
    requires FreeingAt(m, out, q, p) && m.top == p + m.heap[p].size && psize == m.top - q && p != m.dv
    modifies m
    ensures Valid(m) && Released(old(m.heap), m.heap, p) && Quiet(old(MemoryOf(m)), MemoryOf(m), Lives(m.heap))
    ensures m.footprint <= old(m.footprint) && m.maxFootprint == old(m.maxFootprint)
    ensures m.top == q && m.topsize <= old(m.topsize) + psize
    ensures m.footprint == old(m.footprint) ==> m.topsize == old(m.topsize) + psize
    ensures PlanOf(m) == FreedAndTrimmed(old(PlanOf(m)), q, p)
  {
    hide Valid, FreeingAt, Quiet, Lives, Released, SameBlocks, FreedFrom, TopHeap, Trimmed, MemoryOf;
    ghost var a, c := MemoryOf(m), m.heap;
    FreeingCases(m, out, q, p);
    if q == m.dv {
      NothingOut(m, out, q, p);
      FreeDvJoinsTop(m, q, psize, p);
    } else {
      FreeJoinsTop(m, q, psize, out, p);
    }
    if m.topsize > m.trimCheck {
      ghost var b, c' := MemoryOf(m), m.heap;
      var _ := SysTrim(m, 0);
      ReleasedAndTrimmed(a, b, MemoryOf(m), c, c', m.heap, p);
    }
  }

  /** Dlfree from the test of the chunk behind the block on. */
  method ConsolidateForward(m: Mstate, q: int, psize: int, next: int, ghost out: set<int>, ghost p: int)
    requires FreeingAt(m, out, q, p) && next == p + m.heap[p].size && psize == next - q
    requires q == m.dv && q != p ==> !HeadAt(m.head, next).cinuse
    modifies m
    ensures Valid(m) && Released(old(m.heap), m.heap, p) && Quiet(old(MemoryOf(m)), MemoryOf(m), Lives(m.heap))
    ensures m.footprint <= old(m.footprint) && m.maxFootprint == old(m.maxFootprint) && next in old(m.heap)
    ensures next == old(m.top) ==> m.top == q && m.topsize <= old(m.topsize) + psize
    ensures next == old(m.top) && m.footprint == old(m.footprint) ==> m.topsize == old(m.topsize) + psize
    ensures PlanOf(m) == FreedAndTrimmed(old(PlanOf(m)), q, p)
    ensures next != old(m.top) ==>
      var s := psize + (if old(m.heap[next].use) == Free then old(m.heap[next].size) else 0);
      && FreeAt(m.heap, s, q) && m.top == old(m.top) && m.topsize == old(m.topsize) && m.footprint == old(m.footprint)
      && (if q == old(m.dv) || next == old(m.dv) then m.dv == q && m.dvsize == s else m.dv == old(m.dv) && m.dvsize == old(m.dvsize))
  {
    hide FreeingAt, Valid, Quiet, Lives, Released, FreeAt, WorldOf, MemoryOf, FreedFrom, FreeHeap, TopHeap, Trimmed, MergeFrom;
    BehindBlock(m, out, q, p);
    FreeingCases(m, out, q, p);
    if q < next && HeadAt(m.head, next).pinuse {
      if !HeadAt(m.head, next).cinuse {
        if next == m.top {
          FreeTowardsTop(m, q, psize, out, p);
        } else if next == m.dv {
          FreeBeforeDv(m, q, psize, next, out, p);
        } else {
          FreeForward(m, q, psize, next, out, p);
        }
      } else {
        FreePlain(m, q, psize, next, out, p);
      }
    } else {
      assert false;
    }
  }

  /** Dlfree when the victim is before the block. */
  method FreeBehindDv(m: Mstate, q: int, psize: int, next: int, ghost p: int)
    requires Valid(m) && p in Lives(m.heap) && FreeingAt(m, {}, q, p) && q == m.dv
    requires next == p + m.heap[p].size && psize == next - q
    modifies m
    ensures Valid(m) && Released(old(m.heap), m.heap, p) && Quiet(old(MemoryOf(m)), MemoryOf(m), Lives(m.heap))
    ensures m.footprint <= old(m.footprint) && m.maxFootprint == old(m.maxFootprint)
    ensures m.footprint < old(m.footprint) ==> next == old(m.top)
    ensures PlanOf(m) == FreedAndTrimmed(old(PlanOf(m)), q, p)
  {
    hide Valid, FreeingAt, Quiet, Lives, Released, FreeAt, FreedFrom, FreeHeap, MergeFrom, Trimmed, MemoryOf;
    BlockFacts(m, p);
    FreeingCases(m, {}, q, p);
    if HeadAt(m.head, next).cinuse && HeadAt(m.head, next).pinuse {
      FreeIntoDv(m, q, psize, next, p);
    } else {
      ConsolidateForward(m, q, psize, next, {}, p);
    }
  }

  /** Dlfree when a free chunk from the bins is before the block. */
  method FreeBehindFree(m: Mstate, q: int, prevsize: int, psize: int, next: int, ghost p: int)
    requires Valid(m) && p in Lives(m.heap) && !HeadAt(m.head, p).pinuse && prevsize == At(m.foot, p) && q == p - prevsize && q != m.dv
    requires p in m.heap && next == p + m.heap[p].size && psize == next - q
    modifies m
    ensures Valid(m) && Released(old(m.heap), m.heap, p) && Quiet(old(MemoryOf(m)), MemoryOf(m), Lives(m.heap))
    ensures m.footprint <= old(m.footprint) && m.maxFootprint == old(m.maxFootprint)
    ensures m.footprint < old(m.footprint) ==> next == old(m.top)
    ensures q == MergeFrom(old(m.heap), p)
    ensures PlanOf(m) == FreedAndTrimmed(old(PlanOf(m)), q, p)
  {
    hide Valid, FreeingAt, Quiet, Lives, Released, FreedAndTrimmed, MergeFrom, MemoryOf, FreeAt;
    ghost var a, c := MemoryOf(m), m.heap;
    DetachPrev(m, q, prevsize, p);
    ghost var b := MemoryOf(m);
    FreeingSizes(m, {q}, q, p);
    ConsolidateForward(m, q, psize, next, {q}, p);
    QuietAfter(a, b, MemoryOf(m), c, m.heap, p);
  }

  /** Dlfree when the chunk before the block is free: it leaves its bin, or the victim takes the block in. */
  method FreeMergingLeft(m: Mstate, p: int, next: int)
    requires Valid(m) && p in Lives(m.heap) && !HeadAt(m.head, p).pinuse && p in m.heap && next == p + m.heap[p].size
    modifies m
    ensures Valid(m) && Released(old(m.heap), m.heap, p) && Quiet(old(MemoryOf(m)), MemoryOf(m), Lives(m.heap))
    ensures m.footprint <= old(m.footprint) && m.maxFootprint == old(m.maxFootprint)
    ensures m.footprint < old(m.footprint) ==> next == old(m.top)
    ensures PlanOf(m) == Freed(old(PlanOf(m)), p)
  {
    hide Valid, FreeingAt, Quiet, Lives, Released, FreedAndTrimmed, MergeFrom, MemoryOf, FreeAt;
    BlockFacts(m, p);
    var prevsize := At(m.foot, p);
    if prevsize % 2 != 0 {
      assert false;
    }
    var prev := p - prevsize;
    var psize := next - prev;
    if OkAddress(m, prev) {
      if prev != m.dv {
        FreeBehindFree(m, prev, prevsize, psize, next, p);
      } else {
        StartFreeing(m, prev, p);
        FreeingSizes(m, {}, prev, p);
        FreeBehindDv(m, prev, psize, next, p);
      }
    } else {
      assert false;
    }
  }

  lemma FreeTrims(m: Mstate, p: int)
    requires Valid(m) && p in Lives(m.heap)
    ensures TrimmedJust(PlanOf(m), Freed(PlanOf(m), p), MergeFrom(m.heap, p), p)
  {
    hide Valid, MergeFrom, FreedAndTrimmed, TrimmedJust;
    BlockPlace(m, p);
    FreedFromPlace(m, p);
    TrimsIff(PlanOf(m), MergeFrom(m.heap, p), p);
  }

  lemma FreedFromPlace(m: Mstate, p: int)
    requires Valid(m) && p in Lives(m.heap)
    ensures MergeFrom(m.heap, p) > 0
  {
    hide BinsInv, BooksInv, IndexExcept, SegsInv, TopInv;
    Sizes(m.head, m.foot, m.heap);
  }

  /** dlfree: the block of `mem`, and no other, is gone, and no other block's payload has changed. */
  method Dlfree(m: Mstate, mem: int)
    requires Valid(m) && (mem == 0 || mem - 16 in Lives(m.heap))
    modifies m
    ensures Valid(m)
    ensures mem == 0 ==> unchanged(m)
    ensures mem != 0 ==> Released(old(m.heap), m.heap, mem - 16) && Quiet(old(MemoryOf(m)), MemoryOf(m), Lives(m.heap))
    ensures m.footprint <= old(m.footprint) && m.maxFootprint == old(m.maxFootprint)
    ensures m.footprint < old(m.footprint) ==> mem != 0 && mem - 16 + old(Lives(m.heap))[mem - 16] == old(m.top)
    ensures mem != 0 ==> PlanOf(m) == Freed(old(PlanOf(m)), mem - 16)
    ensures mem != 0 ==> TrimmedJust(old(PlanOf(m)), PlanOf(m), MergeFrom(old(m.heap), mem - 16), mem - 16)
  {
    hide Valid, FreeingAt, Quiet, Lives, Released, MergeFrom, FreedAndTrimmed, MemoryOf, TrimmedJust, PlanOf;
    if mem != 0 {
      var p := mem - 16;
      BlockFacts(m, p);
      FreeTrims(m, p);
      PlanParts(m);
      if OkAddress(m, p) && HeadAt(m.head, p).cinuse {
        var psize := SizeAt(m.head, p);
        var next := p + psize;
        if !HeadAt(m.head, p).pinuse {
          FreeMergingLeft(m, p, next);
        } else {
          StartFreeing(m, p, p);
          FreeingSizes(m, {}, p, p);
          ConsolidateForward(m, p, psize, next, {}, p);
        }
      } else {
        assert false;
      }
    }
  }
}
