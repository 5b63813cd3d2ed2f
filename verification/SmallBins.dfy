/** The bins of small free chunks: one ring per size, through a header in the bookkeeping record. */
module SmallBins {
  import opened BinIndex
  import opened BinMaps
  import opened Rings
  import opened Trie
  import opened State

  type Bins = seq<seq<int>>

  /** smallbin_at: the header of bin `i`, seen as a chunk; never a chunk address. */
  function SmallBinAt(i: int): int {
    -1 - i
  }

  /** The whole ring of bin `i`: its header and its chunks in `fd` order. */
  ghost function BinRing(b: Bins, i: int): seq<int>
    requires 0 <= i < |b|
  {
    [SmallBinAt(i)] + b[i]
  }

  /** The bit of a bin is authoritative: when set the bin is a proper ring, when clear no chunk of
      the bin's size is kept and the header's links are stale. */
  ghost predicate BinInv(h: Heads, fd: Field, bk: Field, smap: Binmap, b: Bins, least: int, i: int)
    requires 0 <= i < |b|
  {
    && (Marked(smap, i) <==> b[i] != [])
    && (b[i] != [] ==> Ring(fd, bk, BinRing(b, i)))
    && (forall x :: x in b[i] ==> x > 0 && x >= least && SizeAt(h, x) == 8 * i)
  }

  ghost predicate SmallInv(h: Heads, fd: Field, bk: Field, smap: Binmap, b: Bins, least: int) {
    && |b| == NSMALLBINS && IsMap(smap)
    && (forall i {:trigger BinInv(h, fd, bk, smap, b, least, i)} :: 0 <= i < NSMALLBINS ==>
         BinInv(h, fd, bk, smap, b, least, i))
  }

  ghost predicate SmallOk(m: Mstate)
    reads m
  {
    SmallInv(m.head, m.fd, m.bk, m.smallmap, m.small, m.leastAddr)
  }

  /** Chunk `x` is kept in the bin of size `s`. */
  ghost predicate InBin(b: Bins, s: int, x: int) {
    0 <= s && s % 8 == 0 && s / 8 < |b| && x in b[s / 8]
  }

  ghost predicate SmallAdded(b: Bins, b': Bins, s: int, x: int) {
    forall k, y :: InBin(b', k, y) <==> InBin(b, k, y) || (k == s && y == x)
  }

  ghost predicate SmallRemoved(b: Bins, b': Bins, s: int, x: int) {
    forall k, y :: InBin(b', k, y) <==> InBin(b, k, y) && !(k == s && y == x)
  }

  /** `q` is the address of a chunk in some small bin, or of a bin header. */
  ghost predicate InSmallRing(m: Mstate, b: Bins, q: int)
    reads m`head
  {
    q < 0 || InBin(b, SizeAt(m.head, q), q)
  }

  /** A small, aligned chunk size. */
  predicate SmallSize(s: int) {
    32 <= s < MIN_LARGE_SIZE && s % 8 == 0
  }

  /** Bins whose ring has not been touched keep their invariant. */
  lemma OtherBin(h: Heads, fd: Field, bk: Field, smap: Binmap, b: Bins, least: int,
                 fd': Field, bk': Field, smap': Binmap, b': Bins, j: int)
    requires 0 <= j < |b| && |b'| == |b| && b'[j] == b[j] && BinInv(h, fd, bk, smap, b, least, j)
    requires Marked(smap', j) <==> Marked(smap, j)
    requires forall x :: x in BinRing(b, j) ==> At(fd', x) == At(fd, x) && At(bk', x) == At(bk, x)
    ensures BinInv(h, fd', bk', smap', b', least, j)
  {
    if b[j] != [] {
      assert BinRing(b', j) == BinRing(b, j);
      RingFrame(fd, bk, fd', bk', BinRing(b, j));
    }
  }

  /** The rings of different bins have no chunk in common. */
  lemma Apart(h: Heads, fd: Field, bk: Field, smap: Binmap, b: Bins, least: int, i: int, j: int, x: int)
    requires 0 <= i < |b| && 0 <= j < |b| && i != j
    requires BinInv(h, fd, bk, smap, b, least, i) && BinInv(h, fd, bk, smap, b, least, j)
    requires x in BinRing(b, i)
    ensures x !in BinRing(b, j)
  {}

  // ---- insertion

  /** The ring of bin `i` after `p` has been linked in at its front. */
  lemma FrontRing(h: Heads, fd: Field, bk: Field, smap: Binmap, b: Bins, least: int, i: int, p: int)
    requires 0 <= i < |b| && BinInv(h, fd, bk, smap, b, least, i) && p > 0 && p !in b[i]
    ensures var q := SmallBinAt(i);
      var f := if b[i] == [] then q else At(fd, q);
      && Ring(fd[q := p][p := f], bk[f := p][p := q], [q] + ([p] + b[i]))
      && f in BinRing(b, i)
  {
    var q := SmallBinAt(i);
    if b[i] == [] {
      assert [q] + ([p] + b[i]) == [q, p];
    } else {
      var f, ring := At(fd, q), BinRing(b, i);
      RingInsert(fd, bk, ring, 0, p);
      RingNeighbours(fd, bk, ring, q);
      assert InsertAfter(ring, 0, p) == [q] + ([p] + b[i]);
    }
  }

  lemma InsertInv(h: Heads, fd: Field, bk: Field, smap: Binmap, b: Bins, least: int, s: int, p: int)
    requires SmallInv(h, fd, bk, smap, b, least) && SmallSize(s)
    requires p > 0 && p >= least && SizeAt(h, p) == s && p !in b[s / 8]
    ensures var i := s / 8;
      var q := SmallBinAt(i);
      var f := if Marked(smap, i) then At(fd, q) else q;
      var b' := b[i := [p] + b[i]];
      && SmallInv(h, fd[q := p][p := f], bk[f := p][p := q], if Marked(smap, i) then smap else Mark(smap, i), b', least)
      && SmallAdded(b, b', s, p)
      && f in BinRing(b, i)
  {
    var i := s / 8;
    var q := SmallBinAt(i);
    var f := if Marked(smap, i) then At(fd, q) else q;
    var b' := b[i := [p] + b[i]];
    var smap' := if Marked(smap, i) then smap else Mark(smap, i);
    var fd', bk' := fd[q := p][p := f], bk[f := p][p := q];
    MarkMarks(smap, i, i);
    assert BinInv(h, fd, bk, smap, b, least, i);
    FrontRing(h, fd, bk, smap, b, least, i, p);
    assert BinRing(b', i) == [q] + ([p] + b[i]);
    hide Ring, Marked, Mark, IsMap;
    forall j | 0 <= j < NSMALLBINS
      ensures BinInv(h, fd', bk', smap', b', least, j)
    {
      MarkMarks(smap, i, j);
      if j != i {
        assert BinInv(h, fd, bk, smap, b, least, j);
        Apart(h, fd, bk, smap, b, least, i, j, f);
        OtherBin(h, fd, bk, smap, b, least, fd', bk', smap', b', j);
      }
    }
  }

  /** insert_small_chunk: exactly `p` is added, at the front of the bin of its size. */
  method InsertSmallChunk(m: Mstate, p: int, s: int)
    requires SmallOk(m) && SmallSize(s)
    requires p > 0 && p >= m.leastAddr && SizeAt(m.head, p) == s && !InBin(m.small, s, p)
    modifies m`fd, m`bk, m`smallmap, m`small
    ensures SmallOk(m) && SmallAdded(old(m.small), m.small, s, p)
    ensures s / 8 < |old(m.small)| && m.small == old(m.small)[s / 8 := [p] + old(m.small)[s / 8]]
    ensures forall q :: q != p && !InSmallRing(m, old(m.small), q) ==> LinksAt(m, q) == old(LinksAt(m, q))
  {
    hide SmallInv, SmallAdded, Marked, Mark;
    var i := SmallIndex(s);
    var b := SmallBinAt(i);
    var f := b;
    HeaderNeighbour(m.head, m.fd, m.bk, m.smallmap, m.small, m.leastAddr, i);
    InsertInv(m.head, m.fd, m.bk, m.smallmap, m.small, m.leastAddr, s, p);
    if !Marked(m.smallmap, i) {
      m.smallmap := Mark(m.smallmap, i);
    } else if OkAddress(m, At(m.fd, b)) {
      f := At(m.fd, b);
    } else {
      assert false;
    }
    WriteFront(m, b, f, p);
    m.small := m.small[i := [p] + m.small[i]];
  }

  method WriteFront(m: Mstate, b: int, f: int, p: int)
    modifies m`fd, m`bk
    ensures m.fd == old(m.fd)[b := p][p := f] && m.bk == old(m.bk)[f := p][p := b]
  {
    m.fd := m.fd[b := p];
    m.bk := m.bk[f := p];
    m.fd := m.fd[p := f];
    m.bk := m.bk[p := b];
  }

  /** The first chunk of a marked bin. */
  lemma HeaderNeighbour(h: Heads, fd: Field, bk: Field, smap: Binmap, b: Bins, least: int, i: int)
    requires SmallInv(h, fd, bk, smap, b, least) && 0 <= i < NSMALLBINS
    ensures |b| == NSMALLBINS && (Marked(smap, i) <==> b[i] != [])
    ensures b[i] != [] ==>
      var p := At(fd, SmallBinAt(i));
      p == b[i][0] && p > 0 && p >= least && SizeAt(h, p) == 8 * i && At(bk, p) == SmallBinAt(i)
  {
    assert BinInv(h, fd, bk, smap, b, least, i);
    if b[i] != [] {
      var ring := BinRing(b, i);
      assert ring[0] == SmallBinAt(i) && ring[1] == b[i][0] && b[i][0] in b[i];
      assert At(fd, ring[0]) == ring[Next(0, |ring|)] && At(bk, ring[Next(0, |ring|)]) == ring[0];
    }
  }

  // ---- removal

  /** The links of a chunk in bin `i` lead to ring members; they coincide when it is the only chunk. */
  lemma ChunkNeighbours(h: Heads, fd: Field, bk: Field, smap: Binmap, b: Bins, least: int, i: int, p: int)
    requires 0 <= i < |b| && BinInv(h, fd, bk, smap, b, least, i) && p in b[i]
    ensures At(fd, p) in BinRing(b, i) && At(bk, p) in BinRing(b, i) && At(fd, p) != p && At(bk, p) != p
    ensures At(fd, p) == At(bk, p) <==> b[i] == [p]
    ensures At(fd, p) == SmallBinAt(i) || (At(fd, p) >= least && At(fd, p) > 0 && InBin(b, 8 * i, At(fd, p)))
    ensures At(bk, p) == SmallBinAt(i) || (At(bk, p) >= least && At(bk, p) > 0 && InBin(b, 8 * i, At(bk, p)))
  {
    RingNeighbours(fd, bk, BinRing(b, i), p);
    RingOfTwo(fd, bk, BinRing(b, i), p);
    assert |b[i]| == 1 ==> b[i] == [b[i][0]];
  }

  ghost function PositionOf(s: seq<int>, x: int): (k: int)
    requires x in s
    ensures 0 <= k < |s| && s[k] == x
  {
    var k :| 0 <= k < |s| && s[k] == x;
    k
  }

  lemma DistinctTail(q: int, s: seq<int>)
    requires Distinct([q] + s)
    ensures Distinct(s)
  {
    forall i, j | 0 <= i < j < |s|
      ensures s[i] != s[j]
    {
      assert ([q] + s)[i + 1] == s[i] && ([q] + s)[j + 1] == s[j];
    }
  }

  lemma RemoveTail(q: int, s: seq<int>, k: int)
    requires 0 <= k < |s|
    ensures ([q] + s)[k + 1] == s[k]
    ensures Remove([q] + s, k + 1) == [q] + Remove(s, k)
  {
    assert ([q] + s)[..k + 1] == [q] + s[..k];
    assert ([q] + s)[k + 2..] == s[k + 1..];
  }

  lemma RingOfRest(fd: Field, bk: Field, q: int, s: seq<int>, k: int)
    requires Ring(fd, bk, [q] + s) && 0 <= k < |s|
    ensures var f, c := At(fd, s[k]), At(bk, s[k]);
      Ring(fd[c := f], bk[f := c], [q] + Remove(s, k))
    ensures forall y :: y in Remove(s, k) <==> y in s && y != s[k]
  {
    DistinctTail(q, s);
    RemoveTail(q, s, k);
    RemoveMembers(s, k);
    hide Ring, Remove, Distinct;
    RingRemove(fd, bk, [q] + s, k + 1);
  }

  lemma RemoveBin(h: Heads, fd: Field, bk: Field, smap: Binmap, b: Bins, least: int, i: int, p: int, smap': Binmap)
    requires 0 <= i < |b| && BinInv(h, fd, bk, smap, b, least, i) && p in b[i]
    requires Marked(smap', i) <==> b[i] != [p]
    ensures var k := PositionOf(b[i], p);
      var f, c := At(fd, p), At(bk, p);
      var fd', bk' := if f == c then fd else fd[c := f], if f == c then bk else bk[f := c];
      BinInv(h, fd', bk', smap', b[i := Remove(b[i], k)], least, i)
    ensures forall y :: y in Remove(b[i], PositionOf(b[i], p)) <==> y in b[i] && y != p
  {
    var k := PositionOf(b[i], p);
    ChunkNeighbours(h, fd, bk, smap, b, least, i, p);
    RingOfRest(fd, bk, SmallBinAt(i), b[i], k);
    assert Remove(b[i], k) == [] <==> b[i] == [p];
    hide Ring, Remove, Marked;
  }

  lemma RemoveInv(h: Heads, fd: Field, bk: Field, smap: Binmap, b: Bins, least: int, s: int, p: int)
    requires SmallInv(h, fd, bk, smap, b, least) && SmallSize(s) && p in b[s / 8]
    ensures var i, f, c := s / 8, At(fd, p), At(bk, p);
      var b' := b[i := Remove(b[i], PositionOf(b[i], p))];
      && (f == c ==> SmallInv(h, fd, bk, Clear(smap, i), b', least))
      && (f != c ==> SmallInv(h, fd[c := f], bk[f := c], smap, b', least))
      && SmallRemoved(b, b', s, p)
  {
    var i, f, c := s / 8, At(fd, p), At(bk, p);
    var b' := b[i := Remove(b[i], PositionOf(b[i], p))];
    var smap' := if f == c then Clear(smap, i) else smap;
    var fd', bk' := if f == c then fd else fd[c := f], if f == c then bk else bk[f := c];
    assert BinInv(h, fd, bk, smap, b, least, i);
    ClearClears(smap, i, i);
    ChunkNeighbours(h, fd, bk, smap, b, least, i, p);
    RemoveBin(h, fd, bk, smap, b, least, i, p, smap');
    hide Ring, Marked, Clear, IsMap, Remove;
    forall j | 0 <= j < NSMALLBINS
      ensures BinInv(h, fd', bk', smap', b', least, j)
    {
      ClearClears(smap, i, j);
      if j != i {
        assert BinInv(h, fd, bk, smap, b, least, j);
        Apart(h, fd, bk, smap, b, least, i, j, f);
        Apart(h, fd, bk, smap, b, least, i, j, c);
        OtherBin(h, fd, bk, smap, b, least, fd', bk', smap', b', j);
      }
    }
  }

  /** unlink_small_chunk: exactly `p` is removed. */
  method UnlinkSmallChunk(m: Mstate, p: int, s: int)
    requires SmallOk(m) && SmallSize(s) && InBin(m.small, s, p)
    modifies m`fd, m`bk, m`smallmap, m`small
    ensures SmallOk(m) && SmallRemoved(old(m.small), m.small, s, p)
    ensures forall q :: !InSmallRing(m, old(m.small), q) ==> LinksAt(m, q) == old(LinksAt(m, q))
  {
    var f := At(m.fd, p);
    var b := At(m.bk, p);
    var i := SmallIndex(s);
    assert BinInv(m.head, m.fd, m.bk, m.smallmap, m.small, m.leastAddr, i);
    ChunkNeighbours(m.head, m.fd, m.bk, m.smallmap, m.small, m.leastAddr, i, p);
    RemoveInv(m.head, m.fd, m.bk, m.smallmap, m.small, m.leastAddr, s, p);
    assert p != b && p != f && SizeAt(m.head, p) == 8 * i;
    ghost var small' := m.small[i := Remove(m.small[i], PositionOf(m.small[i], p))];
    NeighbourSizes(m.head, m.fd, m.bk, m.smallmap, m.small, m.leastAddr, i);
    hide BinInv, SmallRemoved, Clear, Remove;
    if f == b {
      m.smallmap := Clear(m.smallmap, i);
    } else if (f == SmallBinAt(i) || OkAddress(m, f)) && (b == SmallBinAt(i) || OkAddress(m, b)) {
      m.bk := m.bk[f := b];
      m.fd := m.fd[b := f];
    } else {
      assert false;
    }
    m.small := small';
  }

  lemma NeighbourSizes(h: Heads, fd: Field, bk: Field, smap: Binmap, b: Bins, least: int, i: int)
    requires 0 <= i < |b| && BinInv(h, fd, bk, smap, b, least, i)
    ensures forall y :: y in b[i] ==> SizeAt(h, y) == 8 * i && InBin(b, SizeAt(h, y), y)
  {}

  /** unlink_first_small_chunk: the front chunk of bin `i` is removed. */
  method UnlinkFirstSmallChunk(m: Mstate, b: int, p: int, i: int)
    requires SmallOk(m) && 4 <= i < NSMALLBINS && m.small[i] != [] && b == SmallBinAt(i) && p == At(m.fd, b)
    modifies m`fd, m`bk, m`smallmap, m`small
    ensures SmallOk(m) && SmallRemoved(old(m.small), m.small, 8 * i, p)
    ensures forall q :: !InSmallRing(m, old(m.small), q) ==> LinksAt(m, q) == old(LinksAt(m, q))
  {
    hide SmallInv, SmallRemoved, Clear, Remove;
    var f := At(m.fd, p);
    FirstReady(m, b, p, i);
    ghost var small' := m.small[i := Remove(m.small[i], PositionOf(m.small[i], p))];
    if b == f {
      m.smallmap := Clear(m.smallmap, i);
    } else if OkAddress(m, f) {
      m.fd := m.fd[b := f];
      m.bk := m.bk[f := b];
    } else {
      assert false;
    }
    m.small := small';
  }

  /** The front chunk can be bypassed. */
  lemma FirstReady(m: Mstate, b: int, p: int, i: int)
    requires SmallOk(m) && 4 <= i < NSMALLBINS && m.small[i] != [] && b == SmallBinAt(i) && p == At(m.fd, b)
    ensures |m.small| == NSMALLBINS && IsMap(m.smallmap) && p > 0 && p in m.small[i]
    ensures var f := At(m.fd, p);
      var b' := m.small[i := Remove(m.small[i], PositionOf(m.small[i], p))];
      && At(m.bk, p) == b && (b != f ==> OkAddress(m, f))
      && SmallInv(m.head, if b == f then m.fd else m.fd[b := f], if b == f then m.bk else m.bk[f := b],
                  if b == f then Clear(m.smallmap, i) else m.smallmap, b', m.leastAddr)
      && SmallRemoved(m.small, b', 8 * i, p)
      && InSmallRing(m, m.small, b) && InSmallRing(m, m.small, f)
  {
    HeaderNeighbour(m.head, m.fd, m.bk, m.smallmap, m.small, m.leastAddr, i);
    assert BinInv(m.head, m.fd, m.bk, m.smallmap, m.small, m.leastAddr, i);
    ChunkNeighbours(m.head, m.fd, m.bk, m.smallmap, m.small, m.leastAddr, i, p);
    RemoveInv(m.head, m.fd, m.bk, m.smallmap, m.small, m.leastAddr, 8 * i, p);
    NeighbourSizes(m.head, m.fd, m.bk, m.smallmap, m.small, m.leastAddr, i);
    hide BinInv, SmallRemoved, Clear, Remove;
    assert p != b && SizeAt(m.head, p) == 8 * i;
  }
}
