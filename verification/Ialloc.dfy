/** dlindependent_calloc and dlindependent_comalloc: one chunk carved into many blocks. */
module Ialloc {
  import opened Words
  import opened Rings
  import opened Trie
  import opened State
  import opened Index
  import opened Heap
  import opened Payload
  import opened Plans
  import opened Invariant
  import opened Taking
  import opened Tmalloc
  import opened Freeing
  import opened Scribbles
  import opened Resizing
  import opened Regions
  import opened Segments
  import opened FromSystem
  import opened Malloc
  import opened Free
  import opened Realloc
  import opened Alignment
  import opened Memalign

  // ---- sums of chunk sizes

  function Sum(s: seq<int>): int {
    if s == [] then 0 else s[0] + Sum(s[1..])
  }

  lemma {:induction false} SumAppend(s: seq<int>, x: int)
    ensures Sum(s + [x]) == Sum(s) + x
  {
    if s == [] {
      assert s + [x] == [x];
      assert Sum([x]) == x + Sum([x][1..]);
    } else {
      assert (s + [x])[1..] == s[1..] + [x];
      SumAppend(s[1..], x);
    }
  }

  /** The chunk sizes of the elements. */
  function Requests(n: nat, sizes: seq<int>, same: bool): (r: seq<int>)
    requires if same then |sizes| > 0 else |sizes| == n
    requires forall i :: 0 <= i < |sizes| ==> sizes[i] >= 0
    ensures |r| == n
  {
    seq(n, i requires 0 <= i < n => Request2Size(if same then sizes[0] else sizes[i]))
  }

  lemma {:induction false} SumOfSame(s: seq<int>, x: int)
    requires forall i :: 0 <= i < |s| ==> s[i] == x
    ensures Sum(s) == |s| * x
  {
    if s != [] {
      SumOfSame(s[1..], x);
      assert (|s| - 1) * x + x == |s| * x;
    }
  }

  lemma RequestIsChunk(b: int)
    requires b >= 0
    ensures Request2Size(b) >= MIN_CHUNK_SIZE && Request2Size(b) % 8 == 0 && Request2Size(b) >= b + 8
  {}

  /** Sizes chunks may have. */
  ghost predicate ChunkSizes(s: seq<int>) {
    forall i {:trigger s[i]} :: 0 <= i < |s| ==> s[i] >= MIN_CHUNK_SIZE && s[i] % 8 == 0
  }

  lemma {:induction false} SumOfChunks(s: seq<int>)
    requires ChunkSizes(s)
    ensures Sum(s) >= MIN_CHUNK_SIZE * |s| && Sum(s) % 8 == 0
  {
    if s != [] {
      assert forall i :: 0 <= i < |s| - 1 ==> s[1..][i] == s[i + 1];
      SumOfChunks(s[1..]);
    }
  }

  /** The chunk sizes `reqs` are all `element_size`, or else those for the request sizes `sizes`. */
  ghost predicate Priced(reqs: seq<int>, element_size: int, sizes: seq<int>) {
    if element_size != 0 then forall i :: 0 <= i < |reqs| ==> reqs[i] == element_size
    else |sizes| == |reqs| && (forall i :: 0 <= i < |reqs| ==> sizes[i] >= 0 && reqs[i] == Request2Size(sizes[i]))
  }

  // ---- splitting with late headers

  /** All is in order but for the head word of the block `p`, which will say that its size is `rem`. */
  ghost predicate ValidBut(m: Mstate, p: int, rem: int)
    reads m
  {
    var h := m.head[p := Head(rem, true, true)];
    && BinsInv(h, BinsOf(m)) && ViewsExcept(WorldOf(m).(head := h), {}) && Books(m)
    && BlockAt(m.heap, rem, p)
  }

  ghost function MemoryBut(m: Mstate, p: int, rem: int): Memory
    reads m
  {
    MemoryOf(m).(head := m.head[p := Head(rem, true, true)])
  }

  lemma HeadersLate(m: Mstate, p: int, rem: int)
    requires Valid(m) && BlockAt(m.heap, rem, p) && HeadAt(m.head, p).pinuse
    ensures ValidBut(m, p, rem) && MemoryBut(m, p, rem) == MemoryOf(m)
  {
    BlockHead(m, p, rem);
    assert m.head[p := Head(rem, true, true)] == m.head;
    assert WorldOf(m).(head := m.head) == WorldOf(m);
  }

  lemma BlockHead(m: Mstate, p: int, rem: int)
    requires Valid(m) && BlockAt(m.heap, rem, p)
    ensures p in m.head && m.head[p].size == rem && m.head[p].cinuse
  {
    hide BinsInv, ViewsExcept, BooksInv;
    OldBlock(m, p) by {
      assert p in Lives(m.heap);
    }
  }

  /** The words of a split whose second half gets its header later. */
  lemma LateTags(h: Heads, p: int, nb: int, rem: int)
    requires 0 < nb < rem && HeadAt(h, p + rem).pinuse
    ensures var h0 := h[p := Head(rem, true, true)];
      var h1 := h[p := Head(nb, true, true)][p + nb := Head(rem - nb, true, true)];
      PairTags(h0, h1, p, nb, p + rem, Head(rem - nb, true, true))
  {}

  /** A split whose first half gets its header later. */
  lemma EarlyTags(h: Heads, p: int, nb: int, rem: int)
    requires 0 < nb < rem && HeadAt(h, p + rem).pinuse
    ensures var h0 := h[p := Head(rem, true, true)];
      var h1 := h[p + nb := Head(rem - nb, true, true)][p := Head(nb, true, true)];
      PairTags(h0, h1, p, nb, p + rem, Head(rem - nb, true, true))
  {}

  lemma LateSplit(w: World, h: Heads, h1: Heads, v: BinView, a: Memory, p: int, nb: int, rem: int)
    requires var h0 := h[p := Head(rem, true, true)];
      && ViewsExcept(w.(head := h0), {}) && BinsInv(h0, v) && v.small == w.small && v.nodes == w.nodes
      && a.head == h0 && a.foot == w.foot
    requires BlockAt(w.heap, rem, p) && nb >= MIN_CHUNK_SIZE && nb % 8 == 0 && rem - nb >= MIN_CHUNK_SIZE
    requires h1 == h[p := Head(nb, true, true)][p + nb := Head(rem - nb, true, true)]
          || h1 == h[p + nb := Head(rem - nb, true, true)][p := Head(nb, true, true)]
    ensures var heap' := SplitHeap(w.heap, p, nb, rem);
      && ViewsExcept(w.(head := h1, heap := heap'), {}) && BinsInv(h1, v)
      && Lives(heap') == Lives(w.heap)[p := nb][p + nb := rem - nb] && p + nb !in Lives(w.heap)
      && BlockAt(heap', nb, p) && BlockAt(heap', rem - nb, p + nb)
      && Quiet(a, a.(head := h1), Lives(heap'))
  {
    hide BinsInv, ViewsExcept, Quiet, Lives, PairTags, SplitHeap;
    var w0 := w.(head := h[p := Head(rem, true, true)]);
    LateEnd(w, h, p, rem);
    LateTags(h, p, nb, rem);
    EarlyTags(h, p, nb, rem);
    BlockSplit(w0, v, a, p, nb, rem, h1);
    SplitFacts(w0, p, nb, rem, h1);
    assert w0.(head := h1, heap := SplitHeap(w.heap, p, nb, rem)) == w.(head := h1, heap := SplitHeap(w.heap, p, nb, rem));
  }

  lemma LateEnd(w: World, h: Heads, p: int, rem: int)
    requires ViewsExcept(w.(head := h[p := Head(rem, true, true)]), {}) && BlockAt(w.heap, rem, p) && rem > 0
    ensures HeadAt(h, p + rem).pinuse
  {
    hide ViewsExcept;
    BlockEnd(w.(head := h[p := Head(rem, true, true)]), {}, p);
  }

  // ---- the steps of a split with late headers

  method WriteHeader(m: Mstate, q: int, s: int, ghost heap': Chunks)
    modifies m`head, m`heap
    ensures m.head == old(m.head)[q := Head(s, true, true)] && m.heap == heap'
  {
    m.head := m.head[q := Head(s, true, true)];
    m.heap := heap';
  }

  lemma LateReady(m: Mstate, p: int, nb: int, rem: int, h1: Heads)
    requires ValidBut(m, p, rem) && nb >= MIN_CHUNK_SIZE && nb % 8 == 0 && rem - nb >= MIN_CHUNK_SIZE
    requires h1 == m.head[p := Head(nb, true, true)][p + nb := Head(rem - nb, true, true)]
          || h1 == m.head[p + nb := Head(rem - nb, true, true)][p := Head(nb, true, true)]
    ensures var heap' := SplitHeap(m.heap, p, nb, rem);
      && ViewsExcept(WorldOf(m).(head := h1, heap := heap'), {}) && BinsInv(h1, BinsOf(m)) && Books(m)
      && Lives(heap') == Lives(m.heap)[p := nb][p + nb := rem - nb] && p + nb !in Lives(m.heap)
      && BlockAt(heap', nb, p) && BlockAt(heap', rem - nb, p + nb)
      && Quiet(MemoryBut(m, p, rem), MemoryOf(m).(head := h1), Lives(heap'))
  {
    hide BinsInv, ViewsExcept, BooksInv, Quiet, Lives, SplitHeap;
    LateSplit(WorldOf(m), m.head, h1, BinsOf(m), MemoryBut(m, p, rem), p, nb, rem);
    assert MemoryBut(m, p, rem).(head := h1) == MemoryOf(m).(head := h1);
  }

  /** The first `nb` bytes become a block of their own; the header of the rest comes later. */
  method SplitFront(m: Mstate, p: int, nb: int, rem: int)
    requires ValidBut(m, p, rem) && nb >= MIN_CHUNK_SIZE && nb % 8 == 0 && rem - nb >= MIN_CHUNK_SIZE
    modifies m`head, m`heap
    ensures ValidBut(m, p + nb, rem - nb)
    ensures Lives(m.heap) == old(Lives(m.heap))[p := nb][p + nb := rem - nb] && p + nb !in old(Lives(m.heap))
    ensures Quiet(old(MemoryBut(m, p, rem)), MemoryBut(m, p + nb, rem - nb), Lives(m.heap))
    ensures m.heap == SplitHeap(old(m.heap), p, nb, rem)
  {
    hide BinsInv, ViewsExcept, BooksInv, Quiet, Lives, SplitHeap;
    LateReady(m, p, nb, rem, m.head[p := Head(nb, true, true)][p + nb := Head(rem - nb, true, true)]);
    WriteHeader(m, p, nb, SplitHeap(m.heap, p, nb, rem));
  }

  /** The bytes from `nb` on become a block of their own; the header of the front comes later. */
  method SplitBack(m: Mstate, p: int, nb: int, rem: int)
    requires ValidBut(m, p, rem) && nb >= MIN_CHUNK_SIZE && nb % 8 == 0 && rem - nb >= MIN_CHUNK_SIZE
    modifies m`head, m`heap
    ensures ValidBut(m, p, nb)
    ensures Lives(m.heap) == old(Lives(m.heap))[p := nb][p + nb := rem - nb] && p + nb !in old(Lives(m.heap))
    ensures Quiet(old(MemoryBut(m, p, rem)), MemoryBut(m, p, nb), Lives(m.heap))
    ensures m.heap == SplitHeap(old(m.heap), p, nb, rem)
  {
    hide BinsInv, ViewsExcept, BooksInv, Quiet, Lives, SplitHeap;
    LateReady(m, p, nb, rem, m.head[p + nb := Head(rem - nb, true, true)][p := Head(nb, true, true)]);
    WriteHeader(m, p + nb, rem - nb, SplitHeap(m.heap, p, nb, rem));
  }

  method LastHeader(m: Mstate, p: int, rem: int)
    requires ValidBut(m, p, rem)
    modifies m`head
    ensures Valid(m) && MemoryOf(m) == old(MemoryBut(m, p, rem)) && BlockAt(m.heap, rem, p)
  {
    hide BinsInv, ViewsExcept, BooksInv;
    m.head := m.head[p := Head(rem, true, true)];
  }

  /** Heap `c'` has only blocks from `a` up to `b`, and is `c` elsewhere. */
  ghost predicate SplitInside(c: Chunks, c': Chunks, a: int, b: int) {
    && (forall x {:trigger x in c'} {:trigger x in c} :: !(a <= x < b) ==> (x in c' <==> x in c))
    && (forall x {:trigger c'[x]} :: !(a <= x < b) && x in c && x in c' ==> c'[x] == c[x])
    && (forall x {:trigger c'[x]} :: a <= x < b && x in c' ==> c'[x].use == Live)
  }

  lemma SplitInsideStep(c: Chunks, c': Chunks, a: int, b: int, p: int, nb: int, s: int)
    requires SplitInside(c, c', a, b) && a <= p && p + s <= b && 0 < nb < s
    ensures SplitInside(c, SplitHeap(c', p, nb, s), a, b)
  {}

  lemma SplitInsideStart(m: Mstate, p: int, s: int)
    requires Valid(m) && BlockAt(m.heap, s, p)
    ensures SplitInside(m.heap, m.heap, p, p + s)
  {
    hide BinsInv, ViewsExcept, BooksInv;
    BlockEnd(WorldOf(m), {}, p);
  }

  // ---- the elements

  /** The chunks behind the pointers handed out. */
  ghost function Starts(ptrs: seq<int>): set<int> {
    set k | 0 <= k < |ptrs| :: ptrs[k] - 16
  }

  lemma StartsAppend(ptrs: seq<int>, p: int)
    ensures Starts(ptrs + [p + 16]) == Starts(ptrs) + {p}
  {
    var all := ptrs + [p + 16];
    assert all[|ptrs|] - 16 == p;
    forall x | x in Starts(ptrs)
      ensures x in Starts(all)
    {
      var k :| 0 <= k < |ptrs| && x == ptrs[k] - 16;
      assert all[k] == ptrs[k];
    }
  }

  /** The `n` blocks at `ptrs` lie one after the other from `p0` on, of exactly the sizes `reqs`. */
  ghost predicate Elements(live: Blocks, ptrs: seq<int>, reqs: seq<int>, p0: int, n: nat) {
    && n <= |ptrs| && n <= |reqs|
    && forall k {:trigger ptrs[k]} :: 0 <= k < n ==>
         ptrs[k] == p0 + Sum(reqs[..k]) + 16 && ptrs[k] - 16 in live && live[ptrs[k] - 16] == reqs[k]
  }

  /** The blocks at `ptrs` tile the stretch from `p0` up to `end`: all but the last have exactly the sizes
      `reqs`, and the last at least that. */
  ghost predicate Tiled(live: Blocks, ptrs: seq<int>, reqs: seq<int>, p0: int, end: int) {
    && |ptrs| == |reqs| > 0 && Elements(live, ptrs, reqs, p0, |reqs| - 1)
    && var q := ptrs[|reqs| - 1] - 16;
      q == p0 + Sum(reqs[..|reqs| - 1]) && q in live && q + live[q] == end && live[q] >= reqs[|reqs| - 1]
  }

  lemma {:induction false} SumSplit(s: seq<int>, i: nat)
    requires i <= |s|
    ensures Sum(s) == Sum(s[..i]) + Sum(s[i..])
  {
    if i == 0 {
      assert s[..0] == [] && s[0..] == s;
    } else {
      SumSplit(s[1..], i - 1);
      assert s[..i][1..] == s[1..][..i - 1] && s[1..][i - 1..] == s[i..];
    }
  }

  /** What is left after element `i` has room for the elements after it. */
  lemma SumStep(s: seq<int>, i: nat)
    requires ChunkSizes(s) && i + 1 < |s|
    ensures Sum(s[..i + 1]) == Sum(s[..i]) + s[i] && Sum(s[i..]) == s[i] + Sum(s[i + 1..])
    ensures Sum(s[i + 1..]) >= MIN_CHUNK_SIZE && s[i] >= MIN_CHUNK_SIZE && s[i] % 8 == 0
  {
    assert s[..i + 1] == s[..i] + [s[i]] && s[i..][1..] == s[i + 1..];
    SumAppend(s[..i], s[i]);
    var t := s[i + 1..];
    forall k | 0 <= k < |t|
      ensures t[k] >= MIN_CHUNK_SIZE && t[k] % 8 == 0
    {
      assert t[k] == s[i + 1 + k];
    }
    SumOfChunks(t);
    assert MIN_CHUNK_SIZE * |t| >= MIN_CHUNK_SIZE;
  }

  lemma SumLast(s: seq<int>)
    requires |s| > 0
    ensures Sum(s[|s| - 1..]) == s[|s| - 1] && s[|s| - 1..] == [s[|s| - 1]]
  {
    assert s[|s| - 1..][1..] == [];
  }

  ghost predicate AllBelow(ptrs: seq<int>, p: int) {
    forall k {:trigger ptrs[k]} :: 0 <= k < |ptrs| ==> ptrs[k] - 16 < p
  }

  lemma ElementsStep(live: Blocks, live': Blocks, ptrs: seq<int>, reqs: seq<int>, p0: int, i: nat, p: int, rest: int)
    requires Elements(live, ptrs, reqs, p0, i) && i == |ptrs| < |reqs| && p == p0 + Sum(reqs[..i])
    requires AllBelow(ptrs, p)
    requires live' == live[p := reqs[i]][p + reqs[i] := rest] && reqs[i] > 0
    ensures Elements(live', ptrs + [p + 16], reqs, p0, i + 1)
    ensures AllBelow(ptrs + [p + 16], p + reqs[i])
  {}

  /** The blocks `rest` still stand beside those of the aggregate. */
  lemma BesideStep(rest: Blocks, c: Chunks, c': Chunks, ptrs: seq<int>, extra: set<int>, p: int, nb: int, rem: int)
    requires Beside(rest, c, Starts(ptrs) + extra + {p}) && p + nb !in Lives(c)
    requires Lives(c') == Lives(c)[p := nb][p + nb := rem]
    ensures Beside(rest, c', Starts(ptrs + [p + 16]) + extra + {p + nb})
  {
    hide Lives, Beside, Starts;
    BesideSplit(rest, c, c', Starts(ptrs) + extra + {p}, p, nb, rem);
    StartsAppend(ptrs, p);
    assert Starts(ptrs) + extra + {p} + {p + nb} == Starts(ptrs + [p + 16]) + extra + {p + nb};
  }

  /** The blocks at `mine` are as before. */
  ghost predicate SameOn(live: Blocks, live': Blocks, mine: set<int>) {
    forall y {:trigger y in mine} :: y in mine ==> (y in live <==> y in live') && (y in live ==> live'[y] == live[y])
  }

  lemma SameOnStep(live: Blocks, live1: Blocks, live2: Blocks, mine: set<int>, p: int, nb: int, rem: int, end: int)
    requires SameOn(live, live1, mine) && live2 == live1[p := nb][p + nb := rem]
    requires p + nb < end && nb > 0 && forall y {:trigger y in mine} :: y in mine ==> y >= end
    ensures SameOn(live, live2, mine)
  {}

  lemma SameOnSelf(live: Blocks, mine: set<int>)
    ensures SameOn(live, live, mine)
  {}

  /** split out elements. */
  method SplitElements(m: Mstate, p0: int, rem0: int, n: nat, element_size: int, sizes: seq<int>,
                       ghost reqs: seq<int>, ghost rest: Blocks, ghost extra: set<int>,
                       ghost c0: Chunks, ghost a0: int, ghost b0: int) returns (ptrs: seq<int>)
    requires ValidBut(m, p0, rem0) && Beside(rest, m.heap, extra + {p0})
    requires n > 0 && |reqs| == n && ChunkSizes(reqs) && Sum(reqs) <= rem0
    requires forall y {:trigger y in extra} :: y in extra ==> y >= p0 + rem0
    requires Priced(reqs, element_size, sizes)
    requires SplitInside(c0, m.heap, a0, b0) && a0 <= p0 && p0 + rem0 <= b0
    modifies m`head, m`heap
    ensures Valid(m) && |ptrs| == n && Beside(rest, m.heap, Starts(ptrs) + extra)
    ensures Tiled(Lives(m.heap), ptrs, reqs, p0, p0 + rem0)
    ensures Quiet(old(MemoryBut(m, p0, rem0)), MemoryOf(m), rest)
    ensures SameOn(old(Lives(m.heap)), Lives(m.heap), extra)
    ensures SplitInside(c0, m.heap, a0, b0)
  {
    hide SameOn, Valid, ValidBut, MemoryBut, Quiet, Lives, Beside, Starts, Sum, ChunkSizes, SplitInside, SplitHeap;
    ghost var a, live := MemoryBut(m, p0, rem0), Lives(m.heap);
    SameOnSelf(live, extra);
    var p, remainder_size, i := p0, rem0, 0;
    ptrs := [];
    StartElements(rest, m.heap, extra, p0, reqs);
    QuietSelf(a, rest);
    while i != n - 1
      invariant 0 <= i < n && |ptrs| == i
      invariant p == p0 + Sum(reqs[..i]) && remainder_size == rem0 - (p - p0) && remainder_size >= Sum(reqs[i..])
      invariant ValidBut(m, p, remainder_size) && Beside(rest, m.heap, Starts(ptrs) + extra + {p})
      invariant Elements(Lives(m.heap), ptrs, reqs, p0, i)
      invariant AllBelow(ptrs, p)
      invariant SplitInside(c0, m.heap, a0, b0) && p0 <= p && p + remainder_size == p0 + rem0
      invariant Quiet(a, MemoryBut(m, p, remainder_size), rest)
      invariant SameOn(live, Lives(m.heap), extra)
    {
      ghost var b, c := MemoryBut(m, p, remainder_size), m.heap;
      var size := if element_size != 0 then element_size else Request2Size(sizes[i]);
      SumStep(reqs, i);
      SplitFront(m, p, size, remainder_size);
      SplitInsideStep(c0, c, a0, b0, p, size, remainder_size);
      BesideStep(rest, c, m.heap, ptrs, extra, p, size, remainder_size - size);
      BesideWithin(rest, m.heap, Starts(ptrs + [p + 16]) + extra + {p + size});
      QuietOn(a, b, MemoryBut(m, p + size, remainder_size - size), m.heap, rest);
      SameOnStep(live, Lives(c), Lives(m.heap), extra, p, size, remainder_size - size, p0 + rem0);
      ElementsStep(Lives(c), Lives(m.heap), ptrs, reqs, p0, i, p, remainder_size - size);
      ptrs := ptrs + [p + 16];
      remainder_size := remainder_size - size;
      p := p + size;
      i := i + 1;
    }
    SumLast(reqs);
    StartsAppend(ptrs, p);
    assert Starts(ptrs) + extra + {p} == Starts(ptrs + [p + 16]) + extra;
    LastHeader(m, p, remainder_size);
    BlockLives(m.heap, remainder_size, p);
    ptrs := ptrs + [p + 16];
  }

  lemma BlockLives(c: Chunks, s: int, p: int)
    requires BlockAt(c, s, p)
    ensures p in Lives(c) && Lives(c)[p] == s
  {}

  lemma StartElements(rest: Blocks, c: Chunks, extra: set<int>, p: int, reqs: seq<int>)
    requires Beside(rest, c, extra + {p})
    ensures Beside(rest, c, Starts([]) + extra + {p}) && Sum(reqs[..0]) == 0 && reqs[0..] == reqs
  {
    hide Beside;
    assert Starts([]) + extra + {p} == extra + {p};
  }

  // ---- sizes

  /** The bytes of the aggregate: all elements and, unless the caller brings one, the array of pointers. */
  function AggregateSize(reqs: seq<int>, chunks: int): int {
    Sum(reqs) + (if chunks == 0 then Request2Size(|reqs| * 8) else 0)
  }

  lemma RequestsAreChunks(n: nat, sizes: seq<int>, same: bool)
    requires if same then |sizes| > 0 else |sizes| == n
    requires forall i :: 0 <= i < |sizes| ==> sizes[i] >= 0
    ensures ChunkSizes(Requests(n, sizes, same))
  {}

  lemma PartialSum(s: seq<int>, i: nat)
    requires ChunkSizes(s) && i < |s|
    ensures 0 <= Sum(s[..i]) && Sum(s[..i + 1]) == Sum(s[..i]) + s[i] && Sum(s[..i + 1]) <= Sum(s) && s[i] >= 0
  {
    assert s[..i + 1] == s[..i] + [s[i]];
    SumAppend(s[..i], s[i]);
    SumSplit(s, i + 1);
    SumOfChunks(s[..i]);
    SumOfChunks(s[i + 1..]);
  }

  /** request2size on 64-bit words. */
  function WrappedRequest(bytes: int): int
    requires bytes >= 0
  {
    Request2Size(bytes) % W64
  }

  /** The size of the aggregate as 64-bit words add up. */
  function WrappedSize(reqs: seq<int>, chunks: int): int {
    (Sum(reqs) % W64 + (if chunks == 0 then WrappedRequest(|reqs| * 8 % W64) else 0)) % W64
  }

  lemma WrapSum(a: int, b: int)
    ensures Add64(a % W64, b % W64) == (a + b) % W64
  {
    var r := Add64(a % W64, b % W64);
    var k := if a % W64 + b % W64 < W64 then 0 else 1;
    assert a + b == (a / W64 + b / W64 + k) * W64 + r;
    ModUnique(a + b, W64, a / W64 + b / W64 + k, r);
  }

  lemma WrapTimes(n: int, e: int)
    ensures n * (e % W64) % W64 == n * e % W64
  {
    var d := e % W64;
    var k, r := n * d / W64, n * d % W64;
    assert e == e / W64 * W64 + d;
    assert n * e == n * (e / W64) * W64 + n * d;
    assert n * e == (n * (e / W64) + k) * W64 + r;
    ModUnique(n * e, W64, n * (e / W64) + k, r);
  }

  /** compute total element size: all sizes wrap at 2^64, and so may the sum. */
  method ContentsSize(n: nat, sizes: seq<int>, same: bool) returns (element_size: int, contents_size: int)
    requires n > 0 && (if same then |sizes| > 0 else |sizes| == n)
    requires forall i :: 0 <= i < |sizes| ==> IsWord(sizes[i]) && sizes[i] >= 0
    ensures contents_size == Sum(Requests(n, sizes, same)) % W64
    ensures Sum(Requests(n, sizes, same)) < W64 ==>
      contents_size == Sum(Requests(n, sizes, same)) && Priced(Requests(n, sizes, same), element_size, sizes)
  {
    hide Sum, Request2Size, Requests, Priced;
    RequestsAreChunks(n, sizes, same);
    SumOfChunks(Requests(n, sizes, same));
    if Sum(Requests(n, sizes, same)) < W64 {
      BelowWord(Sum(Requests(n, sizes, same)));
    }
    if same {
      element_size := WrappedRequest(sizes[0]);
      SameContents(n, sizes);
      contents_size := n * element_size % W64;
    } else {
      element_size := 0;
      contents_size := AddedContents(n, sizes);
    }
  }

  lemma SameContents(n: nat, sizes: seq<int>)
    requires n > 0 && |sizes| > 0 && (forall i :: 0 <= i < |sizes| ==> sizes[i] >= 0)
    ensures n * WrappedRequest(sizes[0]) % W64 == Sum(Requests(n, sizes, true)) % W64
    ensures Sum(Requests(n, sizes, true)) < W64 ==> Priced(Requests(n, sizes, true), WrappedRequest(sizes[0]), sizes)
  {
    var e := Request2Size(sizes[0]);
    RequestIsChunk(sizes[0]);
    var reqs := Requests(n, sizes, true);
    SumOfSame(reqs, e);
    hide Request2Size, Sum, Requests;
    WrapTimes(n, e);
    if Sum(reqs) < W64 {
      OneOfMany(n, e);
      BelowWord(e);
    }
  }

  lemma OneOfMany(n: nat, e: nat)
    requires n > 0
    ensures e <= n * e
  {
    assert n * e == e + (n - 1) * e;
  }

  /** The wrapping sum. */
  method AddedContents(n: nat, sizes: seq<int>) returns (contents_size: int)
    requires |sizes| == n && (forall i :: 0 <= i < |sizes| ==> IsWord(sizes[i]) && sizes[i] >= 0)
    ensures contents_size == Sum(Requests(n, sizes, false)) % W64
    ensures Priced(Requests(n, sizes, false), 0, sizes)
  {
    hide Sum, Request2Size;
    ghost var reqs := Requests(n, sizes, false);
    contents_size := 0;
    var i := 0;
    EmptySum(reqs);
    while i != n
      invariant 0 <= i <= n && contents_size == Sum(reqs[..i]) % W64
    {
      assert reqs[..i + 1] == reqs[..i] + [reqs[i]];
      SumAppend(reqs[..i], reqs[i]);
      WrapSum(Sum(reqs[..i]), reqs[i]);
      contents_size := Add64(contents_size, WrappedRequest(sizes[i]));
      i := i + 1;
    }
    assert reqs[..n] == reqs;
  }

  lemma EmptySum(s: seq<int>)
    ensures Sum(s[..0]) == 0
  {}

  /** The sizes that ialloc computes before it calls malloc. */
  method AggregateRequest(n: nat, sizes: seq<int>, same: bool, chunks: int)
      returns (element_size: int, contents_size: int, array_size: int, size: int)
    requires n > 0 && (if same then |sizes| > 0 else |sizes| == n)
    requires forall i :: 0 <= i < |sizes| ==> IsWord(sizes[i]) && sizes[i] >= 0
    ensures size == WrappedSize(Requests(n, sizes, same), chunks)
    ensures AggregateSize(Requests(n, sizes, same), chunks) < W64 ==>
      && size == AggregateSize(Requests(n, sizes, same), chunks) && contents_size == Sum(Requests(n, sizes, same))
      && array_size == (if chunks == 0 then Request2Size(n * 8) else 0)
      && Priced(Requests(n, sizes, same), element_size, sizes)
  {
    hide Sum, Request2Size, Requests, Priced;
    array_size := if chunks == 0 then WrappedRequest(n * 8 % W64) else 0;
    element_size, contents_size := ContentsSize(n, sizes, same);
    size := Add64(contents_size, array_size);
    WrapSum(contents_size, array_size);
    BelowWord(contents_size);
    BelowWord(array_size);
    RequestsAreChunks(n, sizes, same);
    if AggregateSize(Requests(n, sizes, same), chunks) < W64 {
      NothingWraps(Requests(n, sizes, same), chunks);
    }
  }

  lemma NothingWraps(reqs: seq<int>, chunks: int)
    requires ChunkSizes(reqs) && AggregateSize(reqs, chunks) < W64
    ensures WrappedSize(reqs, chunks) == AggregateSize(reqs, chunks) && 0 <= Sum(reqs) < W64
    ensures chunks == 0 ==> WrappedRequest(|reqs| * 8 % W64) == Request2Size(|reqs| * 8)
  {
    hide Sum, Request2Size, ChunkSizes;
    SumOfChunks(reqs);
    RequestIsChunk(|reqs| * 8);
    BelowWord(Sum(reqs));
    BelowWord(AggregateSize(reqs, chunks));
    if chunks == 0 {
      BelowWord(|reqs| * 8);
      BelowWord(Request2Size(|reqs| * 8));
    }
  }

  lemma PadOfChunk(total: int)
    requires MIN_CHUNK_SIZE <= total < W64 && total % 8 == 0
    ensures IsWord(total - 8) && ChunkSize(total - 8) == (if total - 8 >= MAX_REQUEST then MAX_SIZE_T else total)
  {}

  // ---- what independent_calloc and independent_comalloc do

  /** The new blocks: the elements, as large as asked for and one after the other, and behind them the array
      of pointers unless the caller has brought one. */
  ghost predicate Carved(c: Chunks, c': Chunks, reqs: seq<int>, chunks: int, marray: int, ptrs: seq<int>) {
    && |ptrs| == |reqs| > 0
    && var p := ptrs[0] - 16;
      if chunks != 0 then
        && marray == chunks && Beside(Lives(c), c', Starts(ptrs))
        && exists end :: Tiled(Lives(c'), ptrs, reqs, p, end) && p + Sum(reqs) <= end < p + Sum(reqs) + MIN_CHUNK_SIZE
      else
        && Beside(Lives(c), c', Starts(ptrs) + {marray - 16})
        && Tiled(Lives(c'), ptrs, reqs, p, p + Sum(reqs)) && marray - 16 == p + Sum(reqs)
        && marray - 16 in Lives(c') && Request2Size(|reqs| * 8) <= Lives(c')[marray - 16] < Request2Size(|reqs| * 8) + MIN_CHUNK_SIZE
  }

  lemma FirstElement(live: Blocks, ptrs: seq<int>, reqs: seq<int>, p0: int, end: int)
    requires Tiled(live, ptrs, reqs, p0, end)
    ensures |ptrs| > 0 && ptrs[0] == p0 + 16
  {
    assert Sum(reqs[..0]) == 0;
    assert ptrs[0] == ptrs[0];
  }

  /** The payloads of the elements lie in the bytes that have been cleared. */
  lemma PayloadsCleared(f: Field, live: Blocks, ptrs: seq<int>, reqs: seq<int>, p: int, end: int, len: nat, k: int, w: int)
    requires Tiled(live, ptrs, reqs, p, end) && ChunkSizes(reqs) && end - p - 8 <= len && 0 <= k < |ptrs|
    requires ptrs[k] - 16 in live && InPayload(map[ptrs[k] - 16 := live[ptrs[k] - 16]], w)
    ensures At(ClearedBytes(f, p + 16, len), w) == 0
  {
    ClearedAt(f, p + 16, len, w);
    PartialSum(reqs, k);
    PartialSum(reqs, |reqs| - 1);
    assert reqs[..|reqs|] == reqs;
  }

  /** All payloads of the elements are clear. */
  ghost predicate ElementsClear(f: Field, live: Blocks, ptrs: seq<int>) {
    forall k, w {:trigger At(f, w), ptrs[k]} ::
      (0 <= k < |ptrs| && ptrs[k] - 16 in live && InPayload(map[ptrs[k] - 16 := live[ptrs[k] - 16]], w))
      ==> At(f, w) == 0
  }

  lemma AllCleared(f: Field, live: Blocks, ptrs: seq<int>, reqs: seq<int>, p: int, end: int, len: nat)
    requires Tiled(live, ptrs, reqs, p, end) && ChunkSizes(reqs) && end - p - 8 <= len
    ensures ElementsClear(ClearedBytes(f, p + 16, len), live, ptrs)
  {
    hide InPayload, ClearedBytes, At, Tiled;
    forall k, w {:trigger At(ClearedBytes(f, p + 16, len), w), ptrs[k]} | 0 <= k < |ptrs| && ptrs[k] - 16 in live
      && InPayload(map[ptrs[k] - 16 := live[ptrs[k] - 16]], w)
      ensures At(ClearedBytes(f, p + 16, len), w) == 0
    {
      PayloadsCleared(f, live, ptrs, reqs, p, end, len, k, w);
    }
  }

  lemma ArrayBlock(m: Mstate, live: Blocks, extra: set<int>, q: int)
    requires Valid(m) && SameOn(live, Lives(m.heap), extra) && q in extra && q in live
    ensures BlockAt(m.heap, live[q], q)
  {
    hide Valid;
  }

  /** Ialloc behind the call of malloc: `p` is a fresh block of `S` bytes. */
  method CarveElements(m: Mstate, p: int, S: int, n: nat, element_size: int, contents_size: int, sizes: seq<int>, chunks: int,
                       ghost reqs: seq<int>, ghost rest: Blocks) returns (marray: int, ptrs: seq<int>)
    requires Valid(m) && BlockAt(m.heap, S, p) && HeadAt(m.head, p).pinuse && Beside(rest, m.heap, {p})
    requires n > 0 && |reqs| == n && ChunkSizes(reqs) && contents_size == Sum(reqs)
    requires AggregateSize(reqs, chunks) <= S < AggregateSize(reqs, chunks) + MIN_CHUNK_SIZE
    requires Priced(reqs, element_size, sizes)
    modifies m`head, m`heap
    ensures Valid(m) && |ptrs| == n
    ensures Quiet(old(MemoryOf(m)), MemoryOf(m), rest)
    ensures Tiled(Lives(m.heap), ptrs, reqs, p, if chunks != 0 then p + S else p + contents_size)
    ensures Beside(rest, m.heap, Starts(ptrs) + (if chunks != 0 then {} else {marray - 16}))
    ensures if chunks != 0 then marray == chunks
            else marray - 16 == p + contents_size && BlockAt(m.heap, S - contents_size, marray - 16)
    ensures marray != 0
    ensures SplitInside(old(m.heap), m.heap, p, p + S)
  {
    hide Valid, ValidBut, MemoryBut, Quiet, Lives, Beside, Starts, Sum, ChunkSizes, Tiled, SplitInside, SplitHeap;
    ghost var a, extra: set<int> := MemoryOf(m), {};
    var remainder_size := S;
    marray := chunks;
    SumOfChunks(reqs);
    SplitInsideStart(m, p, S);
    ghost var c0 := m.heap;
    HeadersLate(m, p, S);
    QuietSelf(a, rest);
    assert extra + {p} == {p};
    if chunks == 0 {
      ghost var b, c := MemoryBut(m, p, S), m.heap;
      var array_chunk_size := remainder_size - contents_size;
      RequestIsChunk(n * 8);
      assert MIN_CHUNK_SIZE * n >= MIN_CHUNK_SIZE;
      SplitBack(m, p, contents_size, remainder_size);
      SplitInsideStep(c0, c, p, p + S, p, contents_size, S);
      marray := p + contents_size + 16;
      BesideSplit(rest, c, m.heap, {p}, p, contents_size, array_chunk_size);
      BesideWithin(rest, m.heap, {p} + {p + contents_size});
      QuietOn(a, b, MemoryBut(m, p, contents_size), m.heap, rest);
      remainder_size := contents_size;
      extra := {p + contents_size};
      assert extra + {p} == {p} + {p + contents_size};
    }
    ghost var b, live := MemoryBut(m, p, remainder_size), Lives(m.heap);
    ptrs := SplitElements(m, p, remainder_size, n, element_size, sizes, reqs, rest, extra, c0, p, p + S);
    QuietTrans(a, b, MemoryOf(m), rest);
    if chunks == 0 {
      ArrayBlock(m, live, extra, marray - 16);
      BlockIn(m, marray - 16, live[marray - 16]);
    }
  }

  /** What is asked of malloc: for no elements the size of the empty array, else the whole aggregate. */
  function AskedSize(n: nat, sizes: seq<int>, same: bool, chunks: int): int
    requires n > 0 ==> if same then |sizes| > 0 else |sizes| == n
    requires forall i :: 0 <= i < |sizes| ==> sizes[i] >= 0
  {
    if n == 0 then 0 else AggregateSize(Requests(n, sizes, same), chunks) - 8
  }

  lemma CarvedIs(c: Chunks, c': Chunks, reqs: seq<int>, chunks: int, marray: int, ptrs: seq<int>, p: int, S: int)
    requires |reqs| > 0 && AggregateSize(reqs, chunks) <= S < AggregateSize(reqs, chunks) + MIN_CHUNK_SIZE
    requires Tiled(Lives(c'), ptrs, reqs, p, if chunks != 0 then p + S else p + Sum(reqs))
    requires Beside(Lives(c), c', Starts(ptrs) + (if chunks != 0 then {} else {marray - 16}))
    requires if chunks != 0 then marray == chunks
             else marray - 16 == p + Sum(reqs) && BlockAt(c', S - Sum(reqs), marray - 16)
    ensures Carved(c, c', reqs, chunks, marray, ptrs)
  {
    hide Lives, Beside, Starts, Tiled, Sum;
    FirstElement(Lives(c'), ptrs, reqs, p, if chunks != 0 then p + S else p + Sum(reqs));
    TiledCount(Lives(c'), ptrs, reqs, p, if chunks != 0 then p + S else p + Sum(reqs));
    if chunks != 0 {
      assert Starts(ptrs) + {} == Starts(ptrs);
      assert Tiled(Lives(c'), ptrs, reqs, ptrs[0] - 16, p + S);
    } else {
      BlockLives(c', S - Sum(reqs), marray - 16);
    }
  }

  lemma TiledCount(live: Blocks, ptrs: seq<int>, reqs: seq<int>, p0: int, end: int)
    requires Tiled(live, ptrs, reqs, p0, end)
    ensures |ptrs| == |reqs| > 0
  {}

  lemma ServedSize(m: Mstate, c: Chunks, p: int, nb: int)
    requires Valid(m) && Served(c, m.heap, p, nb)
    ensures SizeAt(m.head, p) < nb + MIN_CHUNK_SIZE
  {
    hide Valid, Lives, Given;
    OldBlock(m, p);
  }

  /** The sizes ialloc works with. */
  lemma Aggregate(n: nat, sizes: seq<int>, same: bool, chunks: int)
    requires n > 0 && (if same then |sizes| > 0 else |sizes| == n)
    requires forall i :: 0 <= i < |sizes| ==> sizes[i] >= 0
    requires AggregateSize(Requests(n, sizes, same), chunks) < W64
    ensures var reqs, total := Requests(n, sizes, same), AggregateSize(Requests(n, sizes, same), chunks);
      && ChunkSizes(reqs) && 0 <= Sum(reqs) <= total && IsWord(total - 8) && total >= MIN_CHUNK_SIZE
      && ChunkSize(total - 8) == (if total - 8 >= MAX_REQUEST then MAX_SIZE_T else total)
  {
    hide Sum, Request2Size, Requests, ChunkSize, ChunkSizes;
    var reqs := Requests(n, sizes, same);
    RequestsAreChunks(n, sizes, same);
    SumOfChunks(reqs);
    RequestIsChunk(n * 8);
    assert MIN_CHUNK_SIZE * n >= MIN_CHUNK_SIZE;
    PadOfChunk(AggregateSize(reqs, chunks));
  }

  /** The bytes in the payloads of the blocks `live` are as before. */
  ghost predicate SameBytes(f: Field, f': Field, live: Blocks) {
    forall w {:trigger At(f', w)} :: InPayload(live, w) ==> At(f', w) == At(f, w)
  }

  /** Clearing bytes of a new block does not change the bytes of the others. */
  lemma ClearsOnlyItself(m: Mstate, f: Field, c: Chunks, q: int, nb: int, len: nat)
    requires Valid(m) && Served(c, m.heap, q, nb) && len <= Lives(m.heap)[q] - 8
    ensures SameBytes(f, ClearedBytes(f, q + 16, len), Lives(c))
  {
    assert Lives(m.heap) - {q} == Lives(c);
    hide Valid, Lives, Served, InPayload, At, ClearedBytes;
    var f' := ClearedBytes(f, q + 16, len);
    forall w {:trigger At(f', w)} | InPayload(Lives(c), w)
      ensures At(f', w) == At(f, w)
    {
      PayloadsApart(m, q, w);
      ClearedAt(f, q + 16, len, w);
    }
  }

  /** The block `p` has been split into blocks, and nothing else has happened. */
  ghost predicate SplitUp(s: Plan, s': Plan, p: int) {
    s' == s.(heap := s'.heap) && SplitInside(s.heap, s'.heap, p, p + SizeIn(s.heap, p))
  }

  /** The aggregate is cleared, if it has to be. */
  method ClearAggregate(m: Mstate, d: Bytes, p: int, len: nat, clear: bool, ghost c: Chunks, ghost nb: int)
    requires Valid(m) && Served(c, m.heap, p, nb) && p in Lives(m.heap) && len <= Lives(m.heap)[p] - 8
    modifies m`head, m`foot, m`fd, m`bk, m`child0, m`child1, m`parent, m`index, m`segBase, m`segSize, m`segNext, d
    ensures Valid(m) && Quiet(old(MemoryOf(m)), MemoryOf(m), Lives(c)) && HeadAt(m.head, p) == old(HeadAt(m.head, p))
    ensures d.at == if clear then ClearedBytes(old(d.at), p + 16, len) else old(d.at)
    ensures !clear ==> unchanged(d)
    ensures SameBytes(old(d.at), d.at, Lives(c))
  {
    hide Valid, Quiet, Lives, Served, Scribbled, ClearedBytes, SameBytes;
    ghost var b := MemoryOf(m);
    if clear {
      MemClear(m, d, p + 16, len, p);
      NewBlockQuiet(m, c, b, MemoryOf(m), p, nb);
      ClearsOnlyItself(m, old(d.at), c, p, nb, len);
    } else {
      QuietSelf(b, Lives(c));
      SameBytesSelf(d.at, Lives(c));
    }
  }

  lemma SameBytesSelf(f: Field, live: Blocks)
    ensures SameBytes(f, f, live)
  {}

  /** The new block is cleared and carved up. */
  method CarveAggregate(m: Mstate, d: Bytes, mem: int, size: int, n: nat, element_size: int, contents_size: int, array_size: int,
                       sizes: seq<int>, clear: bool, chunks: int, ghost c: Chunks, ghost reqs: seq<int>)
      returns (marray: int, ptrs: seq<int>)
    requires Valid(m) && IsWord(size - 8) && ChunkSize(size - 8) == (if size - 8 >= MAX_REQUEST then MAX_SIZE_T else size)
    requires Served(c, m.heap, mem - 16, ChunkSize(size - 8)) && HeadAt(m.head, mem - 16).pinuse
    requires n > 0 && |reqs| == n && ChunkSizes(reqs) && contents_size == Sum(reqs) && size == AggregateSize(reqs, chunks)
    requires array_size == if chunks == 0 then Request2Size(n * 8) else 0
    requires Priced(reqs, element_size, sizes)
    modifies m`head, m`foot, m`fd, m`bk, m`child0, m`child1, m`parent, m`index, m`segBase, m`segSize, m`segNext, m`heap, d
    ensures Valid(m) && marray != 0 && Carved(c, m.heap, reqs, chunks, marray, ptrs)
    ensures Quiet(old(MemoryOf(m)), MemoryOf(m), Lives(c))
    ensures if clear then ElementsClear(d.at, Lives(m.heap), ptrs) else unchanged(d)
    ensures SameBytes(old(d.at), d.at, Lives(c))
    ensures |ptrs| > 0 && ptrs[0] == mem
    ensures SplitInside(old(m.heap), m.heap, mem - 16, mem - 16 + SizeIn(old(m.heap), mem - 16))
  {
    hide Valid, Quiet, Lives, Beside, Starts, Sum, ChunkSizes, Tiled, Served, Carved, AggregateSize, ElementsClear, ClearedBytes,
         SplitInside, SameBytes, MemoryOf, ChunkSize, Request2Size, Priced, BlockAt, SizeIn, SizeAt, InPayload, ValidBut;
    var p := mem - 16;
    AggregateFound(m, c, p, size, reqs, chunks, contents_size, array_size);
    var remainder_size := SizeAt(m.head, p);
    var len := remainder_size - 8 - array_size;
    ghost var b := MemoryOf(m);
    ClearAggregate(m, d, p, len, clear, c, ChunkSize(size - 8));
    ghost var b1 := MemoryOf(m);
    marray, ptrs := CarveElements(m, p, remainder_size, n, element_size, contents_size, sizes, chunks, reqs, Lives(c));
    QuietTrans(b, b1, MemoryOf(m), Lives(c));
    ghost var end := if chunks != 0 then p + remainder_size else p + contents_size;
    FirstElement(Lives(m.heap), ptrs, reqs, p, end);
    CarvedIs(c, m.heap, reqs, chunks, marray, ptrs, p, remainder_size);
    if clear {
      AllCleared(old(d.at), Lives(m.heap), ptrs, reqs, p, end, len);
    }
  }

  /** Ialloc once malloc has delivered. */
  method FillAggregate(m: Mstate, d: Bytes, mem: int, size: int, n: nat, element_size: int, contents_size: int, array_size: int,
                       sizes: seq<int>, clear: bool, chunks: int, ghost c: Chunks, ghost reqs: seq<int>)
      returns (marray: int, ptrs: seq<int>)
    requires Valid(m) && IsWord(size - 8) && ChunkSize(size - 8) == (if size - 8 >= MAX_REQUEST then MAX_SIZE_T else size)
    requires Served(c, m.heap, mem - 16, ChunkSize(size - 8)) && HeadAt(m.head, mem - 16).pinuse
    requires n > 0 && |reqs| == n && ChunkSizes(reqs) && contents_size == Sum(reqs) && size == AggregateSize(reqs, chunks)
    requires array_size == if chunks == 0 then Request2Size(n * 8) else 0
    requires Priced(reqs, element_size, sizes)
    modifies m`head, m`foot, m`fd, m`bk, m`child0, m`child1, m`parent, m`index, m`segBase, m`segSize, m`segNext, m`heap, d
    ensures Valid(m) && marray != 0 && Carved(c, m.heap, reqs, chunks, marray, ptrs)
    ensures Quiet(old(MemoryOf(m)), MemoryOf(m), Lives(c))
    ensures if clear then ElementsClear(d.at, Lives(m.heap), ptrs) else unchanged(d)
    ensures SameBytes(old(d.at), d.at, Lives(c))
    ensures |ptrs| > 0 && ptrs[0] == mem
    ensures SplitUp(old(PlanOf(m)), PlanOf(m), mem - 16)
  {
    hide Valid, Quiet, Lives, Sum, ChunkSizes, Served, Carved, AggregateSize, ElementsClear, SplitInside, SameBytes, MemoryOf,
         ChunkSize, Request2Size, Priced, SizeIn;
    marray, ptrs := CarveAggregate(m, d, mem, size, n, element_size, contents_size, array_size, sizes, clear, chunks, c, reqs);
  }

  /** What malloc has found is a block with room for all, and for the caller's array only if there is one. */
  lemma AggregateFound(m: Mstate, c: Chunks, p: int, size: int, reqs: seq<int>, chunks: int, contents_size: int, array_size: int)
    requires Valid(m) && IsWord(size - 8) && ChunkSize(size - 8) == (if size - 8 >= MAX_REQUEST then MAX_SIZE_T else size)
    requires Served(c, m.heap, p, ChunkSize(size - 8)) && |reqs| > 0 && ChunkSizes(reqs)
    requires contents_size == Sum(reqs) && size == AggregateSize(reqs, chunks)
    requires array_size == if chunks == 0 then Request2Size(|reqs| * 8) else 0
    ensures var S := SizeAt(m.head, p);
      && BlockAt(m.heap, S, p) && Beside(Lives(c), m.heap, {p}) && p in Lives(m.heap) && Lives(m.heap)[p] == S && SizeIn(m.heap, p) == S
      && AggregateSize(reqs, chunks) <= S < AggregateSize(reqs, chunks) + MIN_CHUNK_SIZE
      && 0 <= S - 8 - array_size <= S - 8 && (if chunks != 0 then S else contents_size) <= S - array_size
  {
    hide Valid, Quiet, Lives, Beside, Sum, ChunkSizes, Served, AggregateSize, ChunkSize, Request2Size;
    NewBlock(m, c, p, ChunkSize(size - 8));
    ServedSize(m, c, p, ChunkSize(size - 8));
    BesideServed(c, m.heap, p, ChunkSize(size - 8));
    ServedReal(m, p, size);
    AggregateLen(reqs, chunks, |reqs|, contents_size, array_size, SizeAt(m.head, p));
  }

  /** Ialloc for at least one element. */
  method AllocateElements(m: Mstate, d: Bytes, n: nat, sizes: seq<int>, same: bool, clear: bool, chunks: int, mp: int)
      returns (marray: int, ptrs: seq<int>)
    requires Valid(m) && n > 0 && (if same then |sizes| > 0 else |sizes| == n)
    requires forall i :: 0 <= i < |sizes| ==> IsWord(sizes[i]) && sizes[i] >= 0
    requires AggregateSize(Requests(n, sizes, same), chunks) < W64 && IsWord(AskedSize(n, sizes, same, chunks))
    requires mp == CMFAIL || Fresh(m.segs, mp, mp + SysRequest(m.granularity, ChunkSize(AskedSize(n, sizes, same, chunks))))
    modifies m, d
    ensures Valid(m)
    ensures marray == 0 ==> unchanged(m) && unchanged(d)
    ensures marray == 0 <==> Refused(old(m.heap), old(m.topsize), m.granularity, ChunkSize(AskedSize(n, sizes, same, chunks)), mp)
    ensures marray != 0 ==>
      && Carved(old(m.heap), m.heap, Requests(n, sizes, same), chunks, marray, ptrs)
      && (if clear then ElementsClear(d.at, Lives(m.heap), ptrs) else unchanged(d))
      && SameBytes(old(d.at), d.at, Lives(old(m.heap)))
    ensures marray != 0 ==>
      && |ptrs| > 0
      && var p, nb := ptrs[0] - 16, ChunkSize(AskedSize(n, sizes, same, chunks));
      Picks(old(PlanOf(m)), p, nb, mp) && SplitUp(Malloced(old(PlanOf(m)), p, nb, mp), PlanOf(m), p)
    ensures marray != 0 ==> Quiet(old(MemoryOf(m)), MemoryOf(m), Lives(old(m.heap)))
  {
    hide Valid, Quiet, Lives, Beside, Starts, Sum, ChunkSizes, Tiled, Served, Chosen, NoFit, SysRequest, Fresh, Carved,
         AggregateSize, ElementsClear, SameBytes, Priced, Requests, ChunkSize, Picks, Malloced, SplitInside, SizeIn, MemoryOf, PlanOf, SplitUp;
    AskedIs(n, sizes, same, chunks);
    ptrs := [];
    ghost var a, c := MemoryOf(m), m.heap;
    Aggregate(n, sizes, same, chunks);
    ghost var reqs := Requests(n, sizes, same);
    var element_size, contents_size, array_size, size := AggregateRequest(n, sizes, same, chunks);
    var mem := Dlmalloc(m, Sub64(size, 8), mp);
    marray := 0;
    if mem != 0 {
      ghost var b := MemoryOf(m);
      marray, ptrs := FillAggregate(m, d, mem, size, n, element_size, contents_size, array_size, sizes, clear, chunks, c, reqs);
      QuietTrans(a, b, MemoryOf(m), Lives(c));
    }
  }

  /** The pointer array is in a block: its own, or one that the caller has brought. */
  lemma ArrayRoom(m: Mstate, c: Chunks, reqs: seq<int>, chunks: int, marray: int, ptrs: seq<int>)
    requires Valid(m) && Carved(c, m.heap, reqs, chunks, marray, ptrs)
    requires chunks != 0 ==> chunks - 16 in Lives(c) && 8 * |reqs| <= Lives(c)[chunks - 16] - 8
    ensures |ptrs| == |reqs| && marray - 16 in Lives(m.heap) && 8 * |reqs| <= Lives(m.heap)[marray - 16] - 8
    ensures forall i {:trigger ptrs[i]} :: 0 <= i < |ptrs| ==> ptrs[i] >= 0
    ensures Within(if chunks != 0 then Lives(c) - {chunks - 16} else Lives(c), Lives(m.heap) - {marray - 16})
  {
    hide Valid, Lives;
    RequestIsChunk(|reqs| * 8);
    var end := if chunks != 0 then
      var e :| Tiled(Lives(m.heap), ptrs, reqs, ptrs[0] - 16, e); e else ptrs[0] - 16 + Sum(reqs);
    assert chunks == 0 ==> marray - 16 in Starts(ptrs) + {marray - 16};
    hide Sum;
    forall i {:trigger ptrs[i]} | 0 <= i < |ptrs|
      ensures ptrs[i] >= 0
    {
      TiledThere(Lives(m.heap), ptrs, reqs, ptrs[0] - 16, end, i);
      BlockPlace(m, ptrs[i] - 16);
    }
  }

  lemma TiledThere(live: Blocks, ptrs: seq<int>, reqs: seq<int>, p: int, end: int, i: int)
    requires Tiled(live, ptrs, reqs, p, end) && 0 <= i < |ptrs|
    ensures ptrs[i] - 16 in live
  {}

  /** The pointers are stored in the array. */
  method StorePointers(m: Mstate, d: Bytes, marray: int, ptrs: seq<int>, chunks: int, ghost c: Chunks, ghost reqs: seq<int>)
    requires Valid(m) && Carved(c, m.heap, reqs, chunks, marray, ptrs)
    requires chunks != 0 ==> chunks - 16 in Lives(c) && 8 * |reqs| <= Lives(c)[chunks - 16] - 8
    modifies m`head, m`foot, m`fd, m`bk, m`child0, m`child1, m`parent, m`index, m`segBase, m`segSize, m`segNext, d
    ensures Valid(m) && Spelled(d.at, marray, ptrs, |ptrs|) && OnlyThere(old(d.at), d.at, marray, 8 * |ptrs|)
    ensures Quiet(old(MemoryOf(m)), MemoryOf(m), if chunks != 0 then Lives(c) - {chunks - 16} else Lives(c))
  {
    hide Valid, Quiet, Lives, Carved, Spelled, OnlyThere, Scribbled, Within;
    ghost var a := MemoryOf(m);
    ArrayRoom(m, c, reqs, chunks, marray, ptrs);
    StoreWords(m, d, marray, ptrs, marray - 16);
    OthersQuiet(m, a, MemoryOf(m), marray - 16);
    QuietAntitone(a, MemoryOf(m), if chunks != 0 then Lives(c) - {chunks - 16} else Lives(c), Lives(m.heap) - {marray - 16});
  }

  /** The caller's array, if it is a block of this heap. */
  ghost function ArrayBlocks(chunks: int, owned: bool): set<int> {
    if chunks != 0 && owned then {chunks - 16} else {}
  }

  /** ialloc, when the total size does not overflow. `owned` tells of the caller's array whether it is a block of
      this heap; the bytes of one that is not are not part of the model. `bytes` are the bytes in the payloads before
      the pointers are stored. */
  method Ialloc(m: Mstate, d: Bytes, n: nat, sizes: seq<int>, same: bool, clear: bool, chunks: int, owned: bool, mp: int)
      returns (marray: int, ptrs: seq<int>, ghost bytes: Field)
    requires Valid(m)
    requires n > 0 ==> if same then |sizes| > 0 else |sizes| == n
    requires forall i :: 0 <= i < |sizes| ==> IsWord(sizes[i]) && sizes[i] >= 0
    requires n > 0 ==> AggregateSize(Requests(n, sizes, same), chunks) < W64
    requires IsWord(AskedSize(n, sizes, same, chunks))
    requires mp == CMFAIL || Fresh(m.segs, mp, mp + SysRequest(m.granularity, ChunkSize(AskedSize(n, sizes, same, chunks))))
    requires chunks != 0 && owned ==> chunks - 16 in Lives(m.heap) && 8 * n <= Lives(m.heap)[chunks - 16] - 8
    modifies m, d
    ensures Valid(m)
    ensures n == 0 || marray == 0 ==> unchanged(d)
    ensures n == 0 && chunks != 0 ==> marray == chunks && unchanged(m)
    ensures n == 0 && chunks == 0 && marray != 0 ==> Served(old(m.heap), m.heap, marray - 16, MIN_CHUNK_SIZE)
    ensures n == 0 && chunks == 0 && marray != 0 ==>
      Picks(old(PlanOf(m)), marray - 16, MIN_CHUNK_SIZE, mp) && PlanOf(m) == Malloced(old(PlanOf(m)), marray - 16, MIN_CHUNK_SIZE, mp)
    ensures marray == 0 ==> unchanged(m)
    ensures (n > 0 || chunks == 0) ==>
      (marray == 0 <==> Refused(old(m.heap), old(m.topsize), m.granularity, ChunkSize(AskedSize(n, sizes, same, chunks)), mp))
    ensures n > 0 && marray != 0 ==>
      && Carved(old(m.heap), m.heap, Requests(n, sizes, same), chunks, marray, ptrs)
      && (if clear then ElementsClear(bytes, Lives(m.heap), ptrs) else bytes == old(d.at))
      && SameBytes(old(d.at), bytes, Lives(old(m.heap)))
    ensures n > 0 && marray != 0 ==>
      && |ptrs| > 0
      && var p, nb := ptrs[0] - 16, ChunkSize(AskedSize(n, sizes, same, chunks));
      Picks(old(PlanOf(m)), p, nb, mp) && SplitUp(Malloced(old(PlanOf(m)), p, nb, mp), PlanOf(m), p)
    ensures n > 0 && marray != 0 ==>
      if chunks == 0 || owned then Spelled(d.at, marray, ptrs, |ptrs|) && OnlyThere(bytes, d.at, marray, 8 * n) else d.at == bytes
    ensures marray != 0 ==> Quiet(old(MemoryOf(m)), MemoryOf(m), Lives(old(m.heap)) - ArrayBlocks(chunks, owned))
  {
    hide Valid, Quiet, Lives, Beside, Starts, Sum, ChunkSizes, Tiled, Served, Chosen, NoFit, SysRequest, Fresh, Carved,
         AggregateSize, ElementsClear, Within, SameBytes, Spelled, OnlyThere, Refused, ChunkSize, Picks, Malloced, SplitUp, MemoryOf, PlanOf, Requests;
    ptrs, bytes := [], d.at;
    ghost var a, c := MemoryOf(m), m.heap;
    LessQuiet(a, a, Lives(c), ArrayBlocks(chunks, owned));
    if n == 0 {
      if chunks != 0 {
        marray := chunks;
      } else {
        marray := Dlmalloc(m, 0, mp);
        NoArray(Lives(c));
      }
      return;
    }
    marray, ptrs := AllocateElements(m, d, n, sizes, same, clear, chunks, mp);
    bytes := d.at;
    if marray != 0 {
      ghost var b := MemoryOf(m);
      LessQuiet(a, b, Lives(c), ArrayBlocks(chunks, owned));
      if chunks == 0 || owned {
        ghost var reqs := Requests(n, sizes, same);
        CarvedCount(c, m.heap, reqs, chunks, marray, ptrs);
        StorePointers(m, d, marray, ptrs, chunks, c, reqs);
        NoArray(Lives(c));
        QuietTrans(a, b, MemoryOf(m), Lives(c) - ArrayBlocks(chunks, owned));
      }
    }
  }

  lemma LessQuiet(a: Memory, b: Memory, live: Blocks, out: set<int>)
    requires a == b || Quiet(a, b, live)
    ensures Quiet(a, b, live - out)
  {
    QuietSelf(a, live);
    hide Quiet;
    QuietAntitone(a, b, live - out, live);
  }

  lemma NoArray(live: Blocks)
    ensures live - {} == live
  {}

  lemma CarvedCount(c: Chunks, c': Chunks, reqs: seq<int>, chunks: int, marray: int, ptrs: seq<int>)
    requires Carved(c, c', reqs, chunks, marray, ptrs)
    ensures |ptrs| == |reqs|
  {}

  lemma AskedIs(n: nat, sizes: seq<int>, same: bool, chunks: int)
    requires n > 0 && (if same then |sizes| > 0 else |sizes| == n)
    requires forall i :: 0 <= i < |sizes| ==> sizes[i] >= 0
    ensures AskedSize(n, sizes, same, chunks) == AggregateSize(Requests(n, sizes, same), chunks) - 8
  {}

  lemma AggregateLen(reqs: seq<int>, chunks: int, n: nat, contents_size: int, array_size: int, S: int)
    requires |reqs| == n > 0 && contents_size == Sum(reqs) && array_size == if chunks == 0 then Request2Size(n * 8) else 0
    requires ChunkSizes(reqs) && S >= AggregateSize(reqs, chunks)
    ensures var len := S - 8 - array_size;
      len >= 0 && len <= S - 8 && (if chunks != 0 then S else contents_size) - 8 <= len
  {
    SumOfChunks(reqs);
    RequestIsChunk(n * 8);
    assert MIN_CHUNK_SIZE * n >= MIN_CHUNK_SIZE;
  }

  /** A chunk that malloc has found has the size it was asked for. */
  lemma ServedReal(m: Mstate, p: int, size: int)
    requires Valid(m) && BlockAt(m.heap, SizeAt(m.head, p), p) && IsWord(size - 8) && ChunkSize(size - 8) <= SizeAt(m.head, p)
    ensures ChunkSize(size - 8) != MAX_SIZE_T
  {
    hide Valid;
    BlockWord(m, p, SizeAt(m.head, p));
    BlockIn(m, p, SizeAt(m.head, p));
  }

  /** Whether the chunk that malloc has found is large enough for the aggregate: exactly if its size does not
      overflow. */
  lemma RoomIffNoOverflow(m: Mstate, c: Chunks, p: int, reqs: seq<int>, chunks: int)
    requires Valid(m) && ChunkSizes(reqs) && |reqs| > 0 && IsWord(WrappedSize(reqs, chunks))
    requires Served(c, m.heap, p, ChunkSize(Sub64(WrappedSize(reqs, chunks), 8)))
    ensures p in Lives(m.heap)
    ensures AggregateSize(reqs, chunks) <= Lives(m.heap)[p] <==> AggregateSize(reqs, chunks) < W64
  {
    hide Valid, Lives, Given, Sum, ChunkSizes, ChunkSize, WrappedSize;
    ServedIsSmaller(m, c, p, ChunkSize(Sub64(WrappedSize(reqs, chunks), 8)));
    OldBlock(m, p);
    BlockWord(m, p, Lives(m.heap)[p]);
    if AggregateSize(reqs, chunks) < W64 {
      NothingWraps(reqs, chunks);
      LeastAggregate(reqs, chunks);
      PadOfChunk(AggregateSize(reqs, chunks));
    }
  }

  lemma LeastAggregate(reqs: seq<int>, chunks: int)
    requires ChunkSizes(reqs) && |reqs| > 0
    ensures AggregateSize(reqs, chunks) >= MIN_CHUNK_SIZE && AggregateSize(reqs, chunks) % 8 == 0
  {
    hide Sum, Request2Size, ChunkSizes;
    SumOfChunks(reqs);
    RequestIsChunk(|reqs| * 8);
    assert MIN_CHUNK_SIZE * |reqs| >= MIN_CHUNK_SIZE;
  }

  /** There is no aggregate whose size overflows: a block is smaller than the address space. */
  lemma OverflowCannotTile(m: Mstate, ptrs: seq<int>, reqs: seq<int>, p: int, end: int)
    requires Valid(m) && Tiled(Lives(m.heap), ptrs, reqs, p, end) && ChunkSizes(reqs)
    ensures Sum(reqs) < W64
  {
    hide Valid, Lives;
    var q := ptrs[|reqs| - 1] - 16;
    PartialSum(reqs, |reqs| - 1);
    assert reqs[..|reqs|] == reqs;
    FirstElement(Lives(m.heap), ptrs, reqs, p, end);
    BlockPlace(m, ptrs[0] - 16);
    OldBlock(m, q);
    BlockWord(m, q, Lives(m.heap)[q]);
  }

  // ---- calloc

  /** The size dlcalloc asks for: the product, or the largest word if it does not fit. */
  function CallocAsk(n: int, elem: int): (req: int)
    ensures IsWord(req)
  {
    if 0 <= n * elem < W64 then n * elem else MAX_SIZE_T
  }

  method CallocRequest(n: int, elem: int) returns (req: int)
    requires IsWord(n) && IsWord(elem)
    ensures req == CallocAsk(n, elem)
  {
    req := 0;
    if n != 0 {
      req := n * elem % W64;
      SmallProduct(n, elem);
      WrappedProduct(n, elem);
      if (n > 0xffff || elem > 0xffff) && req / n != elem {
        req := MAX_SIZE_T;
      }
    }
  }

  lemma SmallProduct(n: int, elem: int)
    requires 0 < n && 0 <= elem
    ensures n <= 0xffff && elem <= 0xffff ==> 0 <= n * elem < W64
  {
    if n <= 0xffff && elem <= 0xffff {
      assert n * elem <= 0xffff * elem;
    }
  }

  /** Dividing shows whether a product has wrapped. */
  lemma WrappedProduct(n: int, elem: int)
    requires 0 < n < W64 && IsWord(elem)
    ensures n * elem % W64 / n == elem <==> n * elem < W64
  {
    var x, r := n * elem, n * elem % W64;
    assert x >= 0;
    if x < W64 {
      assert r == x;
      QuotientIs(x, n, elem);
    } else {
      var k := x / W64;
      assert r == x - k * W64 && k >= 1;
      assert r < x;
      QuotientSmaller(r, x, n, elem);
    }
  }

  lemma QuotientSmaller(r: int, x: int, n: int, e: int)
    requires n > 0 && 0 <= r < x && x == n * e
    ensures r / n != e
  {
    assert r == n * (r / n) + r % n;
  }

  lemma QuotientIs(x: int, n: int, e: int)
    requires n > 0 && x == n * e && e >= 0
    ensures x / n == e
  {
    var q, r := x / n, x % n;
    assert x == n * q + r;
    assert n * (e - q) == r;
    Between(e - q, n, r);
    if e - q >= 1 { TimesGrows(e - q, n); }
    if e - q <= -1 { TimesGrows(e - q, n); }
  }

  /** dlcalloc: the block is clear; a product that overflows is refused. */
  method Dlcalloc(m: Mstate, d: Bytes, n: int, elem: int, mp: int) returns (mem: int)
    requires Valid(m) && IsWord(n) && IsWord(elem)
    requires mp == CMFAIL || Fresh(m.segs, mp, mp + SysRequest(m.granularity, ChunkSize(CallocAsk(n, elem))))
    modifies m, d
    ensures Valid(m)
    ensures mem == 0 ==> unchanged(m) && unchanged(d)
    ensures n * elem >= W64 ==> mem == 0
    ensures mem == 0 <==> Refused(old(m.heap), old(m.topsize), m.granularity, ChunkSize(CallocAsk(n, elem)), mp)
    ensures mem != 0 ==> Served(old(m.heap), m.heap, mem - 16, ChunkSize(CallocAsk(n, elem)))
    ensures mem != 0 ==> Quiet(old(MemoryOf(m)), MemoryOf(m), Lives(old(m.heap)))
    ensures mem != 0 ==> forall w {:trigger At(d.at, w)} :: At(d.at, w) == if mem <= w < mem + n * elem then 0 else At(old(d.at), w)
    ensures mem != 0 ==>
      var nb := ChunkSize(CallocAsk(n, elem));
      Picks(old(PlanOf(m)), mem - 16, nb, mp) && PlanOf(m) == Malloced(old(PlanOf(m)), mem - 16, nb, mp)
  {
    hide Valid, Quiet, Served, Lives, Chosen, NoFit, SysRequest, Fresh, Scribbled, Refused, Picks, Malloced, MemoryOf, PlanOf;
    var req := CallocRequest(n, elem);
    ghost var c := m.heap;
    mem := Dlmalloc(m, req, mp);
    if mem != 0 {
      ServedIsSmaller(m, c, mem - 16, ChunkSize(req));
      ghost var a, b := old(MemoryOf(m)), MemoryOf(m);
      MemClear(m, d, mem, req, mem - 16);
      NewBlockQuiet(m, c, b, MemoryOf(m), mem - 16, ChunkSize(req));
      QuietTrans(a, b, MemoryOf(m), Lives(c));
      forall w
        ensures At(d.at, w) == if mem <= w < mem + n * elem then 0 else At(old(d.at), w)
      {
        ClearedAt(old(d.at), mem, req, w);
      }
    }
  }

  lemma ServedIsSmaller(m: Mstate, c: Chunks, p: int, nb: int)
    requires Valid(m) && Served(c, m.heap, p, nb)
    ensures nb < MAX_SIZE_T && p in Lives(m.heap) && nb <= Lives(m.heap)[p]
  {
    hide Valid;
    NewBlock(m, c, p, nb);
    BlockIn(m, p, SizeAt(m.head, p));
    BlockWord(m, p, SizeAt(m.head, p));
  }
}
