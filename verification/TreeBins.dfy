/** Linking large free chunks into the tree bins and out of them. */
module TreeBins {
  import opened Words
  import opened BinIndex
  import opened BinMaps
  import opened Rings
  import opened Trie
  import opened TriePaths
  import opened State

  /** Every size sits in the bin its index names. */
  ghost predicate Indexed(t: Nodes) {
    forall s :: s in t ==> s >= 0 && t[s].bin == TreeIndex(s)
  }

  ghost predicate Above(t: Nodes, least: int) {
    forall s, x :: Binned(t, s, x) ==> x >= least
  }

  ghost predicate TreesInv(m: Tree, fd: Field, bk: Field, index: Field, t: Nodes, least: int) {
    && Shape(m, t)
    && RingsOk(m, fd, bk, index, t)
    && Indexed(t)
    && Above(t, least)
  }

  ghost predicate TreesOk(m: Mstate)
    reads m
  {
    TreesInv(TreeOf(m), m.fd, m.bk, m.index, m.nodes, m.leastAddr)
  }

  /** `x` may be put in a tree under size `s`. */
  ghost predicate Insertable(m: Tree, t: Nodes, least: int, x: int, s: int) {
    && MIN_LARGE_SIZE <= s && IsWord(s)
    && x > 0 && x >= least && m.Size(x) == s
    && !Binned(t, s, x)
  }

  // ---- the walk from a root towards a size

  /** `a` is the chunk in the tree, in bin `i`, on the path of size `s`; `k` holds the bits of `s`
      below it; if some node has size `s` it is still ahead. */
  ghost predicate OnPath(m: Tree, t: Nodes, i: int, a: int, k: int, s: int) {
    && m.Size(a) in t && m.Size(a) >= 0 && IsWord(s)
    && var n := t[m.Size(a)];
    && n.lead == a && n.bin == i && n.w <= 64
    && Shr(m.Size(a), n.w) == Shr(s, n.w)
    && Pow2(64) == W64
    && k == Shl(s, 64 - n.w, 64)
    && (s in t ==> InSub(t, s, m.Size(a)))
  }

  lemma PathStart(m: Tree, t: Nodes, i: int, s: int)
    requires Shape(m, t) && Indexed(t) && MIN_LARGE_SIZE <= s && IsWord(s)
    requires i == TreeIndex(s) && 0 <= i < NTREEBINS && m.bins[i] != 0
    ensures Pow2(64) == W64
    ensures OnPath(m, t, i, m.bins[i], Shl(s, LeftShift(i), 64), s)
  {
    Pow2Of64();
    assert BinOk(m, t, i);
    var r := m.Size(m.bins[i]);
    assert NodeOk(m, t, r);
    SameBinSamePrefix(r, s);
    if s in t {
      BelowRoot(m, t, s);
    }
  }

  /** One step down the path: the tested bit is the bit of `s` that picks the child. */
  lemma PathStep(m: Tree, t: Nodes, i: int, a: int, k: int, s: int)
    requires Shape(m, t) && OnPath(m, t, i, a, k, s) && m.Size(a) != s
    ensures var w := t[m.Size(a)].w;
      && w > 0 && 0 <= k < Pow2(64) && Bit(k, 63) == Bit(s, w - 1)
      && var q := m.Child(Bit(k, 63), a);
      q != 0 ==> OnPath(m, t, i, q, Shl1(k, 64), s) && t[m.Size(q)].w + 1 == w
  {
    hide Shr, Bit, Shl, Shl1, Pow2, BinWidth;
    var z := m.Size(a);
    var w := t[z].w;
    assert NodeOk(m, t, z) && DownOk(m, t, z, 0) && DownOk(m, t, z, 1);
    ShiftByZero(z);
    ShiftByZero(s);
    TestedBit(s, w, k);
    if s in t {
      ChildToward(m, t, s, z);
    }
    var c := Bit(k, 63);
    var q := m.Child(c, a);
    if q != 0 {
      assert ChildOk(m, t, z, c, q);
      FinerShr(m.Size(q), s, w);
    }
  }

  lemma ShiftByZero(x: nat)
    ensures Shr(x, 0) == x
  {}

  /** The top bit of the shifted size is the bit that the node tests. */
  lemma TestedBit(s: int, w: nat, k: int)
    requires IsWord(s) && 0 < w <= 64 && Pow2(64) == W64 && k == Shl(s, 64 - w, 64)
    ensures 0 <= k < Pow2(64) && Bit(k, 63) == Bit(s, w - 1) && Shl1(k, 64) == Shl(s, 64 - (w - 1), 64)
  {
    hide Pow2, Shl1, Bit;
    ShlBit(s, 64 - w, w - 1, 64);
  }

  lemma FinerShr(y: nat, s: nat, w: nat)
    requires w > 0 && Shr(y, w) == Shr(s, w) && Bit(y, w - 1) == Bit(s, w - 1)
    ensures Shr(y, w - 1) == Shr(s, w - 1)
  {}

  /** A path that ends at an empty slot shows that the size is new. */
  lemma PathEnd(m: Tree, t: Nodes, i: int, a: int, k: int, s: int)
    requires Shape(m, t) && Indexed(t) && OnPath(m, t, i, a, k, s) && m.Size(a) != s
    requires 0 <= i < NTREEBINS && TreeIndex(s) == i && 0 <= k < Pow2(64)
    requires m.Child(Bit(k, 63), a) == 0
    ensures s !in t
  {
    PathStep(m, t, i, a, k, s);
    if s in t {
      ChildToward(m, t, s, m.Size(a));
    }
  }

  /** An unmarked bin holds no size. */
  lemma PathNone(m: Tree, t: Nodes, i: int, s: int)
    requires Shape(m, t) && Indexed(t) && 0 <= i < NTREEBINS && s >= 0 && TreeIndex(s) == i
    ensures m.bins[i] == 0 <==> !Marked(m.treemap, i)
    ensures m.bins[i] == 0 ==> s !in t
  {
    assert BinOk(m, t, i);
    if s in t {
      BelowRoot(m, t, s);
    }
  }

  /** The runtime checks on a chunk in the tree and on its ring neighbours succeed. */
  lemma LeadAddresses(m: Tree, fd: Field, bk: Field, index: Field, t: Nodes, least: int, s: int)
    requires TreesInv(m, fd, bk, index, t, least) && s in t
    ensures t[s].lead >= least && t[s].lead > 0 && t[s].lead in t[s].ring
    ensures At(fd, t[s].lead) >= least && At(bk, t[s].lead) >= least
    ensures m.Size(t[s].lead) == s && s >= MIN_LARGE_SIZE
    ensures Binned(t, s, t[s].lead) && Binned(t, s, At(fd, t[s].lead)) && Binned(t, s, At(bk, t[s].lead))
    ensures m.Size(At(fd, t[s].lead)) == s && m.Size(At(bk, t[s].lead)) == s
  {
    assert NodeOk(m, t, s) && RingOk(m, fd, bk, index, t, s);
    RingNeighbours(fd, bk, t[s].ring, t[s].lead);
    hide Ring;
    assert Binned(t, s, t[s].lead) && Binned(t, s, At(fd, t[s].lead)) && Binned(t, s, At(bk, t[s].lead));
  }

  lemma BinArray(m: Tree, fd: Field, bk: Field, index: Field, t: Nodes, least: int)
    requires TreesInv(m, fd, bk, index, t, least)
    ensures |m.bins| == NTREEBINS && IsMap(m.treemap)
  {}

  // ---- insertion

  /** `t'` holds the chunks of `t` and `x`, under size `s`. */
  ghost predicate Added(t: Nodes, t': Nodes, s: int, x: int) {
    forall k, y :: Binned(t', k, y) <==> Binned(t, k, y) || (k == s && y == x)
  }

  lemma HangRing(m: Tree, fd: Field, bk: Field, index: Field, t: Nodes,
                 i: int, p: int, c: int, x: int, s: int, w: nat, k: int)
    requires CanHang(m, t, i, p, c, x, s, w) && RingsOk(m, fd, bk, index, t) && k in t
    ensures RingOk(Hang(m, i, p, c, x), fd[x := x], bk[x := x], index, t[s := Node(x, [x], i, w)], k)
  {
    assert RingOk(m, fd, bk, index, t, k);
    hide Shape, Shr, Bit, Ring, Mark;
    assert p == t[k].lead || p !in t[k].ring;
    RingOkFrame(m, fd, bk, index, t, Hang(m, i, p, c, x), fd[x := x], bk[x := x], index,
                t[s := Node(x, [x], i, w)], k);
  }

  lemma HangSelf(m: Tree, fd: Field, bk: Field, index: Field, t: Nodes, i: int, p: int, c: int, x: int, s: int, w: nat)
    requires CanHang(m, t, i, p, c, x, s, w) && At(index, x) == i
    ensures RingOk(Hang(m, i, p, c, x), fd[x := x], bk[x := x], index, t[s := Node(x, [x], i, w)], s)
  {
    RingAlone(fd, bk, x);
    hide Shape, Ring, Shr, Bit, Mark;
  }

  lemma HangInv(m: Tree, fd: Field, bk: Field, index: Field, t: Nodes, least: int,
                i: int, p: int, c: int, x: int, s: int, w: nat)
    requires |m.bins| == NTREEBINS && 0 <= i < NTREEBINS
    requires TreesInv(m, fd, bk, index, t, least) && Insertable(m, t, least, x, s)
    requires CanHang(m, t, i, p, c, x, s, w) && i == TreeIndex(s) && At(index, x) == i
    ensures TreesInv(Hang(m, i, p, c, x), fd[x := x], bk[x := x], index,
                     t[s := Node(x, [x], i, w)], least)
    ensures Added(t, t[s := Node(x, [x], i, w)], s, x)
  {
    hide Shape, Hang, TreeIndex, CanHang, RingOk, Insertable, Indexed, Above, Added;
    var m', t' := Hang(m, i, p, c, x), t[s := Node(x, [x], i, w)];
    HangNew(m, t, least, i, p, c, x, s, w);
    HangShape(m, t, i, p, c, x, s, w, [x]);
    forall k | k in t'
      ensures RingOk(m', fd[x := x], bk[x := x], index, t', k)
    {
      if k == s {
        HangSelf(m, fd, bk, index, t, i, p, c, x, s, w);
      } else {
        HangRing(m, fd, bk, index, t, i, p, c, x, s, w, k);
      }
    }
  }

  /** What the new leaf does to sizes, bins and addresses. */
  lemma HangNew(m: Tree, t: Nodes, least: int, i: int, p: int, c: int, x: int, s: int, w: nat)
    requires CanHang(m, t, i, p, c, x, s, w) && Insertable(m, t, least, x, s) && i == TreeIndex(s)
    requires Indexed(t) && Above(t, least)
    ensures var t' := t[s := Node(x, [x], i, w)];
      s !in t && m.Size(x) == s && Indexed(t') && Above(t', least) && Added(t, t', s, x)
  {
    hide Shape, TreeIndex;
    var t' := t[s := Node(x, [x], i, w)];
    forall k, y {:trigger Binned(t', k, y)} | Binned(t', k, y)
      ensures y >= least
    {
      assert Binned(t, k, y) || y == x;
    }
  }

  /** The memory after `x` has been marked as a chunk outside the tree proper. */
  function Unparented(m: Tree, x: int): Tree {
    m.(parent := m.parent[x := 0])
  }

  /** The words that tell a chunk's bin and, as yet, no children. */
  ghost predicate Blank(m: Tree, index: Field, x: int, i: int) {
    m.Child(0, x) == 0 && m.Child(1, x) == 0 && At(index, x) == i
  }

  lemma ChainOther(m: Tree, fd: Field, bk: Field, index: Field, t: Nodes, x: int, s: int, t': Nodes, j: int)
    requires RingsOk(m, fd, bk, index, t) && m.Size(x) == s && s in t && x !in t[s].ring
    requires j in t && j != s && j in t' && t'[j] == t[j]
    ensures var a, f := t[s].lead, At(fd, t[s].lead);
      RingOk(Unparented(m, x), fd[a := x][x := f], bk[f := x][x := a], index, t', j)
  {
    var a, f := t[s].lead, At(fd, t[s].lead);
    assert RingOk(m, fd, bk, index, t, s) && RingOk(m, fd, bk, index, t, j);
    RingNeighbours(fd, bk, t[s].ring, a);
    hide Ring, RingsOk;
    RingOkFrame(m, fd, bk, index, t, Unparented(m, x), fd[a := x][x := f], bk[f := x][x := a],
                index, t', j);
  }

  lemma ChainSelf(m: Tree, fd: Field, bk: Field, index: Field, t: Nodes, x: int, s: int, k: int)
    requires s in t && RingOk(m, fd, bk, index, t, s) && m.Size(x) == s && x > 0
    requires Blank(m, index, x, t[s].bin)
    requires x !in t[s].ring && 0 <= k < |t[s].ring| && t[s].ring[k] == t[s].lead
    ensures var a, f := t[s].lead, At(fd, t[s].lead);
      RingOk(Unparented(m, x), fd[a := x][x := f], bk[f := x][x := a], index,
             t[s := t[s].(ring := InsertAfter(t[s].ring, k, x))], s)
  {
    RingInsert(fd, bk, t[s].ring, k, x);
    InsertMembers(t[s].ring, k, x);
    hide Ring, InsertAfter;
  }

  lemma ChainRing(m: Tree, fd: Field, bk: Field, index: Field, t: Nodes, x: int, s: int, k: int)
    requires RingsOk(m, fd, bk, index, t) && m.Size(x) == s && x > 0 && s in t && Blank(m, index, x, t[s].bin)
    requires s in t && x !in t[s].ring && 0 <= k < |t[s].ring| && t[s].ring[k] == t[s].lead
    ensures var a, f := t[s].lead, At(fd, t[s].lead);
      RingsOk(Unparented(m, x), fd[a := x][x := f], bk[f := x][x := a], index,
              t[s := t[s].(ring := InsertAfter(t[s].ring, k, x))])
  {
    hide RingOk, Unparented, InsertAfter;
    var a, f := t[s].lead, At(fd, t[s].lead);
    var m', fd', bk', index' := Unparented(m, x), fd[a := x][x := f], bk[f := x][x := a], index;
    var t' := t[s := t[s].(ring := InsertAfter(t[s].ring, k, x))];
    forall j | j in t'
      ensures RingOk(m', fd', bk', index', t', j)
    {
      if j == s {
        ChainSelf(m, fd, bk, index, t, x, s, k);
      } else {
        ChainOther(m, fd, bk, index, t, x, s, t', j);
      }
    }
  }

  lemma ChainInv(m: Tree, fd: Field, bk: Field, index: Field, t: Nodes, least: int, x: int, s: int, k: int)
    requires TreesInv(m, fd, bk, index, t, least) && Insertable(m, t, least, x, s)
    requires s in t && Blank(m, index, x, t[s].bin) && 0 <= k < |t[s].ring| && t[s].ring[k] == t[s].lead
    ensures var a, f := t[s].lead, At(fd, t[s].lead);
      TreesInv(Unparented(m, x), fd[a := x][x := f], bk[f := x][x := a], index,
               t[s := t[s].(ring := InsertAfter(t[s].ring, k, x))], least)
    ensures Added(t, t[s := t[s].(ring := InsertAfter(t[s].ring, k, x))], s, x)
  {
    var t' := t[s := t[s].(ring := InsertAfter(t[s].ring, k, x))];
    ChainRing(m, fd, bk, index, t, x, s, k);
    InsertMembers(t[s].ring, k, x);
    ChainShape(m, fd, bk, index, t, least, x, s, k);
    hide Shape, RingsOk, TreeIndex, Unparented, InsertAfter;
    assert Added(t, t', s, x);
  }

  lemma ChainShape(m: Tree, fd: Field, bk: Field, index: Field, t: Nodes, least: int, x: int, s: int, k: int)
    requires TreesInv(m, fd, bk, index, t, least) && Insertable(m, t, least, x, s)
    requires s in t && Blank(m, index, x, t[s].bin) && 0 <= k < |t[s].ring| && t[s].ring[k] == t[s].lead
    ensures Shape(Unparented(m, x), t[s := t[s].(ring := InsertAfter(t[s].ring, k, x))])
  {
    forall j | j in t
      ensures t[j].lead != x
    {
      assert NodeOk(m, t, j) && RingOk(m, fd, bk, index, t, j);
    }
    ShapeFrame(m, Unparented(m, x), t);
    ShapeOfRing(Unparented(m, x), t, s, InsertAfter(t[s].ring, k, x));
  }

  /** The shape does not depend on the rings. */
  lemma ShapeOfRing(m: Tree, t: Nodes, s: int, ring: seq<int>)
    requires Shape(m, t) && s in t
    ensures Shape(m, t[s := t[s].(ring := ring)])
  {
    hide Shr, Bit, Marked, Tree.Child, Tree.Size;
    var t' := t[s := t[s].(ring := ring)];
    forall k | k in t'
      ensures NodeOk(m, t', k) && UpOk(m, t', k) && DownOk(m, t', k, 0) && DownOk(m, t', k, 1)
    {
      assert NodeOk(m, t, k) && UpOk(m, t, k) && DownOk(m, t, k, 0) && DownOk(m, t, k, 1);
    }
    forall i | 0 <= i < NTREEBINS
      ensures BinOk(m, t', i)
    {
      assert BinOk(m, t, i);
    }
  }

  ghost function IndexOf(s: seq<int>, x: int): (k: int)
    requires x in s
    ensures 0 <= k < |s| && s[k] == x
  {
    var k :| 0 <= k < |s| && s[k] == x;
    k
  }

  /** Writing the words of a chunk that is in no tree changes no tree. */
  lemma OutsideInv(m: Tree, fd: Field, bk: Field, index: Field, t: Nodes, least: int, x: int, i: int)
    requires TreesInv(m, fd, bk, index, t, least) && !Binned(t, m.Size(x), x)
    ensures TreesInv(m.(child0 := m.child0[x := 0], child1 := m.child1[x := 0]), fd, bk, index[x := i], t, least)
  {
    hide Shape, Indexed, Above;
    var m' := m.(child0 := m.child0[x := 0], child1 := m.child1[x := 0]);
    forall s | s in t
      ensures t[s].lead in t[s].ring && m.Size(t[s].lead) == s && RingOk(m', fd, bk, index[x := i], t, s)
    {
      assert RingOk(m, fd, bk, index, t, s);
      RingOkFrame(m, fd, bk, index, t, m', fd, bk, index[x := i], t, s);
    }
    ShapeFrame(m, m', t);
  }

  /** The walk of insert_large_chunk: stops at the chunk of size `s` in the tree or, when there is
      none, at the parent with an empty slot `c` where it belongs. */
  method FindPlace(m: Mstate, i: int, s: int) returns (t: int, c: int)
    requires TreesOk(m) && MIN_LARGE_SIZE <= s && IsWord(s)
    requires 0 <= i < NTREEBINS && i == TreeIndex(s) && m.treebins[i] != 0
    ensures SizeAt(m.head, t) in m.nodes && m.nodes[SizeAt(m.head, t)].lead == t
    ensures m.nodes[SizeAt(m.head, t)].bin == i
    ensures SizeAt(m.head, t) != s ==>
      var w := m.nodes[SizeAt(m.head, t)].w;
      && s !in m.nodes && w > 0 && SizeAt(m.head, t) >= 0
      && Shr(SizeAt(m.head, t), w) == Shr(s, w)
      && c == Bit(s, w - 1) && TreeOf(m).Child(c, t) == 0
  {
    hide TreeIndex;
    PathStart(TreeOf(m), m.nodes, i, s);
    c := 0;
    t := m.treebins[i];
    var k := Shl(s, LeftShift(i), 64);
    hide RingsOk, Shr, Shl, Shl1, Bit, Indexed, LeftShift, BinWidth, Marked, Mark, Above, Shape;
    while SizeAt(m.head, t) != s
      invariant OnPath(TreeOf(m), m.nodes, i, t, k, s)
      decreases m.nodes[SizeAt(m.head, t)].w
    {
      PathStep(TreeOf(m), m.nodes, i, t, k, s);
      c := Bit(k, 63);
      var q := TreeOf(m).Child(c, t);
      if q == 0 {
        PathEnd(TreeOf(m), m.nodes, i, t, k, s);
        return;
      }
      t := q;
      k := Shl1(k, 64);
    }
  }

  /** `q` is a chunk of one of the trees. */
  ghost predicate InTrees(m: Mstate, t: Nodes, q: int)
    reads m`head
  {
    Binned(t, SizeAt(m.head, q), q)
  }

  /** The chunk is the only one of its size, in a tree; or it has been chained right behind the one in the tree. */
  ghost predicate Chained(t: Nodes, t': Nodes, s: int, x: int) {
    && s in t'
    && if s in t then
         t[s].lead in t[s].ring && t' == t[s := t[s].(ring := InsertAfter(t[s].ring, IndexOf(t[s].ring, t[s].lead), x))]
       else
         t' == t[s := t'[s]] && t'[s].lead == x && t'[s].ring == [x]
  }

  lemma HangFresh(m: Tree, t: Nodes, i: int, p: int, c: int, x: int, s: int, w: nat, n: Node)
    requires CanHang(m, t, i, p, c, x, s, w) && n.lead == x && n.ring == [x]
    ensures Chained(t, t[s := n], s, x)
  {
    assert t[s := n] == t[s := t[s := n][s]];
  }

  /** The branch of insert_large_chunk for an empty bin. */
  method LinkRoot(m: Mstate, i: int, x: int, s: int)
    requires TreesOk(m) && Insertable(TreeOf(m), m.nodes, m.leastAddr, x, s)
    requires 0 <= i < NTREEBINS && i == TreeIndex(s) && At(m.index, x) == i
    requires CanHang(TreeOf(m), m.nodes, i, TreeBinAt(i), 0, x, s, BinWidth(i))
    modifies m`fd, m`bk, m`parent, m`treebins, m`treemap, m`nodes
    ensures TreesOk(m) && Added(old(m.nodes), m.nodes, s, x)
    ensures forall q :: q != x ==> LinksAt(m, q) == old(LinksAt(m, q))
    ensures Chained(old(m.nodes), m.nodes, s, x)
  {
    hide TreesInv, TreeIndex, Added, Insertable, Mark, CanHang, BinWidth, Chained;
    BinArray(TreeOf(m), m.fd, m.bk, m.index, m.nodes, m.leastAddr);
    HangInv(TreeOf(m), m.fd, m.bk, m.index, m.nodes, m.leastAddr, i, TreeBinAt(i), 0, x, s, BinWidth(i));
    HangFresh(TreeOf(m), m.nodes, i, TreeBinAt(i), 0, x, s, BinWidth(i), Node(x, [x], i, BinWidth(i)));
    WriteRoot(m, i, x);
    m.nodes := m.nodes[s := Node(x, [x], i, BinWidth(i))];
  }

  method WriteRoot(m: Mstate, i: int, x: int)
    requires 0 <= i < NTREEBINS && |m.treebins| == NTREEBINS && IsMap(m.treemap)
    modifies m`fd, m`bk, m`parent, m`treebins, m`treemap
    ensures m.treemap == Mark(old(m.treemap), i) && m.treebins == old(m.treebins)[i := x]
    ensures m.parent == old(m.parent)[x := TreeBinAt(i)] && m.fd == old(m.fd)[x := x] && m.bk == old(m.bk)[x := x]
  {
    hide Mark;
    m.treemap := Mark(m.treemap, i);
    m.treebins := m.treebins[i := x];
    m.parent := m.parent[x := TreeBinAt(i)];
    m.fd, m.bk := m.fd[x := x], m.bk[x := x];
  }

  /** `p->child[c] = x`. */
  method SetChild(m: Mstate, p: int, c: int, x: int)
    modifies m`child0, m`child1
    ensures m.child0 == if c == 0 then old(m.child0)[p := x] else old(m.child0)
    ensures m.child1 == if c == 0 then old(m.child1) else old(m.child1)[p := x]
    ensures forall q :: q != p ==> LinksAt(m, q) == old(LinksAt(m, q))
  {
    if c == 0 {
      m.child0 := m.child0[p := x];
    } else {
      m.child1 := m.child1[p := x];
    }
  }

  /** The branch of insert_large_chunk that puts `x` into the empty slot `c` of `p`. */
  method LinkLeaf(m: Mstate, ghost i: int, p: int, c: int, x: int, s: int, ghost w: nat)
    requires TreesOk(m) && Insertable(TreeOf(m), m.nodes, m.leastAddr, x, s)
    requires 0 <= i < NTREEBINS && i == TreeIndex(s) && At(m.index, x) == i && p > 0
    requires CanHang(TreeOf(m), m.nodes, i, p, c, x, s, w)
    modifies m`fd, m`bk, m`child0, m`child1, m`parent, m`nodes
    ensures TreesOk(m) && Added(old(m.nodes), m.nodes, s, x)
    ensures forall q :: q != x && q != p ==> LinksAt(m, q) == old(LinksAt(m, q))
    ensures Chained(old(m.nodes), m.nodes, s, x)
  {
    hide TreesInv, TreeIndex, Added, Insertable, CanHang, Binned, LinksAt, Chained;
    BinArray(TreeOf(m), m.fd, m.bk, m.index, m.nodes, m.leastAddr);
    HangInv(TreeOf(m), m.fd, m.bk, m.index, m.nodes, m.leastAddr, i, p, c, x, s, w);
    HangFresh(TreeOf(m), m.nodes, i, p, c, x, s, w, Node(x, [x], i, w));
    WriteLeaf(m, p, c, x);
    m.nodes := m.nodes[s := Node(x, [x], i, w)];
  }

  /** The words of a new leaf `x` in the slot `c` of `p`. */
  method WriteLeaf(m: Mstate, p: int, c: int, x: int)
    modifies m`fd, m`bk, m`child0, m`child1, m`parent
    ensures m.fd == old(m.fd)[x := x] && m.bk == old(m.bk)[x := x] && m.parent == old(m.parent)[x := p]
    ensures m.child0 == if c == 0 then old(m.child0)[p := x] else old(m.child0)
    ensures m.child1 == if c == 0 then old(m.child1) else old(m.child1)[p := x]
    ensures forall q :: q != x && q != p ==> LinksAt(m, q) == old(LinksAt(m, q))
  {
    SetChild(m, p, c, x);
    m.parent := m.parent[x := p];
    m.fd, m.bk := m.fd[x := x], m.bk[x := x];
  }

  method WriteChained(m: Mstate, t: int, f: int, x: int)
    modifies m`fd, m`bk, m`parent
    ensures m.fd == old(m.fd)[t := x][x := f] && m.bk == old(m.bk)[f := x][x := t] && m.parent == old(m.parent)[x := 0]
  {
    m.fd, m.bk := m.fd[t := x], m.bk[f := x];
    m.fd, m.bk := m.fd[x := f], m.bk[x := t];
    m.parent := m.parent[x := 0];
  }

  /** The branch of insert_large_chunk that chains `x` to the chunk `t` of its own size. */
  method LinkChained(m: Mstate, t: int, x: int, s: int)
    requires TreesOk(m) && Insertable(TreeOf(m), m.nodes, m.leastAddr, x, s)
    requires s in m.nodes && m.nodes[s].lead == t && Blank(TreeOf(m), m.index, x, m.nodes[s].bin)
    modifies m`fd, m`bk, m`parent, m`nodes
    ensures TreesOk(m) && Added(old(m.nodes), m.nodes, s, x)
    ensures forall q :: q != x && !InTrees(m, old(m.nodes), q) ==> LinksAt(m, q) == old(LinksAt(m, q))
    ensures Chained(old(m.nodes), m.nodes, s, x)
  {
    hide TreesInv, Added, Insertable, InsertAfter;
    LeadAddresses(TreeOf(m), m.fd, m.bk, m.index, m.nodes, m.leastAddr, s);
    ghost var j := IndexOf(m.nodes[s].ring, t);
    ChainInv(TreeOf(m), m.fd, m.bk, m.index, m.nodes, m.leastAddr, x, s, j);
    var f := At(m.fd, t);
    if OkAddress(m, t) && OkAddress(m, f) {
      WriteChained(m, t, f, x);
      m.nodes := m.nodes[s := m.nodes[s].(ring := InsertAfter(m.nodes[s].ring, j, x))];
    } else {
      assert false;
    }
  }

  /** The branch of insert_large_chunk for a bin that already has a root. */
  method LinkBelow(m: Mstate, i: int, x: int, s: int)
    requires TreesOk(m) && Insertable(TreeOf(m), m.nodes, m.leastAddr, x, s)
    requires 0 <= i < NTREEBINS && i == TreeIndex(s) && m.treebins[i] != 0
    requires Blank(TreeOf(m), m.index, x, i)
    modifies m`fd, m`bk, m`child0, m`child1, m`parent, m`treebins, m`treemap, m`nodes
    ensures TreesOk(m) && Added(old(m.nodes), m.nodes, s, x)
    ensures forall q :: q != x && !InTrees(m, old(m.nodes), q) ==> LinksAt(m, q) == old(LinksAt(m, q))
    ensures Chained(old(m.nodes), m.nodes, s, x)
  {
    hide TreeIndex, Added, Shape, RingsOk, Indexed, Above, Shr, Bit, Chained;
    var t, c := FindPlace(m, i, s);
    LeadAddresses(TreeOf(m), m.fd, m.bk, m.index, m.nodes, m.leastAddr, SizeAt(m.head, t));
    if SizeAt(m.head, t) == s {
      hide TreesOk, Insertable;
      LinkChained(m, t, x, s);
    } else if OkAddress(m, t + 32 + 8 * c) {
      ghost var w := m.nodes[SizeAt(m.head, t)].w - 1;
      assert CanHang(TreeOf(m), m.nodes, i, t, c, x, s, w);
      hide TreesOk, Insertable, CanHang;
      LinkLeaf(m, i, t, c, x, s, w);
    } else {
      assert false;
    }
  }

  /** insert_large_chunk: exactly `x` is added, under its own size. */
  method InsertLargeChunk(m: Mstate, x: int, s: int)
    requires TreesOk(m) && Insertable(TreeOf(m), m.nodes, m.leastAddr, x, s)
    modifies m`fd, m`bk, m`child0, m`child1, m`parent, m`index, m`treebins, m`treemap, m`nodes
    ensures TreesOk(m)
    ensures Added(old(m.nodes), m.nodes, s, x)
    ensures forall q :: q != x && !InTrees(m, old(m.nodes), q) ==> LinksAt(m, q) == old(LinksAt(m, q))
    ensures Chained(old(m.nodes), m.nodes, s, x)
  {
    hide TreesInv, TreeIndex, Marked, BinWidth, Added, Binned, Insertable, CanHang, Blank, LinksAt, Chained;
    InsertableSize(TreeOf(m), m.nodes, m.leastAddr, x, s);
    var i := TreeIndex(s);
    InsertReady(TreeOf(m), m.fd, m.bk, m.index, m.nodes, m.leastAddr, x, s, i);
    WriteBlank(m, x, i);
    if !Marked(m.treemap, i) {
      LinkRoot(m, i, x, s);
    } else {
      LinkBelow(m, i, x, s);
    }
  }

  method WriteBlank(m: Mstate, x: int, i: int)
    modifies m`index, m`child0, m`child1
    ensures TreeOf(m) == Blanked(old(TreeOf(m)), x) && m.index == old(m.index)[x := i]
    ensures forall q :: q != x ==> LinksAt(m, q) == old(LinksAt(m, q))
  {
    m.index := m.index[x := i];
    m.child0 := m.child0[x := 0];
    m.child1 := m.child1[x := 0];
  }

  ghost function Blanked(m: Tree, x: int): Tree {
    m.(child0 := m.child0[x := 0], child1 := m.child1[x := 0])
  }

  lemma InsertableSize(m: Tree, t: Nodes, least: int, x: int, s: int)
    requires Insertable(m, t, least, x, s)
    ensures s >= MIN_LARGE_SIZE
  {}

  /** With `x` blank, what linking it in needs is there. */
  lemma InsertReady(m: Tree, fd: Field, bk: Field, index: Field, t: Nodes, least: int, x: int, s: int, i: int)
    requires TreesInv(m, fd, bk, index, t, least) && Insertable(m, t, least, x, s) && i == TreeIndex(s)
    ensures var m' := Blanked(m, x);
      && 0 <= i < NTREEBINS && |m.bins| == NTREEBINS && IsMap(m.treemap)
      && TreesInv(m', fd, bk, index[x := i], t, least) && Insertable(m', t, least, x, s) && Blank(m', index[x := i], x, i)
      && (if Marked(m.treemap, i) then m.bins[i] != 0 else CanHang(m', t, i, TreeBinAt(i), 0, x, s, BinWidth(i)))
  {
    TreeIndexBrackets(s);
    hide TreeIndex, Shape, RingsOk, Indexed, Above, Shr, Bit, Marked, BinWidth, Binned;
    PathNone(m, t, i, s);
    OutsideInv(m, fd, bk, index, t, least, x, i);
    BinArray(m, fd, bk, index, t, least);
  }
}
