/** Taking chunks out of the tree bins. */
module TreeUnlink {
  import opened Words
  import opened BinIndex
  import opened BinMaps
  import opened Rings
  import opened Trie
  import opened TriePaths
  import opened State
  import opened TreeBins

  /** `t'` holds the chunks of `t` without `x`. */
  ghost predicate Removed(t: Nodes, t': Nodes, s: int, x: int) {
    forall k, y :: Binned(t', k, y) <==> Binned(t, k, y) && !(k == s && y == x)
  }

  /** The ring closes over the chunk; where it was in the tree the one that was chained before it is now, and no other
      ring is touched. */
  ghost predicate Unchained(t: Nodes, t': Nodes, s: int, x: int) {
    && s in t && x in t[s].ring
    && (forall j {:trigger j in t'} :: j != s ==> (j in t' <==> j in t) && (j in t ==> t'[j].lead == t[j].lead && t'[j].ring == t[j].ring))
    && var k, n := IndexOf(t[s].ring, x), |t[s].ring|;
       if n == 1 then s !in t'
       else s in t' && t'[s].ring == Remove(t[s].ring, k) && t'[s].lead == if x == t[s].lead then t[s].ring[if k == 0 then n - 1 else k - 1] else t[s].lead
  }

  // ---- a chunk that is not alone in its ring

  /** Words of the other rings survive the removal of `x` from the ring of size `s`. */
  lemma UnchainOther(m: Tree, fd: Field, bk: Field, index: Field, t: Nodes, s: int, x: int, t': Nodes, j: int)
    requires RingsOk(m, fd, bk, index, t) && s in t && x in t[s].ring
    requires j in t && j != s && j in t' && t'[j] == t[j]
    ensures var f, r := At(fd, x), At(bk, x);
      RingOk(m, fd[r := f], bk[f := r], index, t', j)
  {
    var f, r := At(fd, x), At(bk, x);
    assert RingOk(m, fd, bk, index, t, s) && RingOk(m, fd, bk, index, t, j);
    RingNeighbours(fd, bk, t[s].ring, x);
    hide Ring, RingsOk;
    RingOkFrame(m, fd, bk, index, t, m, fd[r := f], bk[f := r], index, t', j);
  }

  /** What is left of the ring of size `s` after `x` is gone. */
  lemma UnchainRing(m: Tree, fd: Field, bk: Field, index: Field, t: Nodes, s: int, x: int, k: int)
    requires s in t && RingOk(m, fd, bk, index, t, s) && At(bk, x) != x
    requires 0 <= k < |t[s].ring| && t[s].ring[k] == x
    ensures var f, r := At(fd, x), At(bk, x);
      && Ring(fd[r := f], bk[f := r], Remove(t[s].ring, k)) && r in Remove(t[s].ring, k)
    ensures forall y :: y in Remove(t[s].ring, k) <==> y != x && y in t[s].ring
  {
    RingNeighbours(fd, bk, t[s].ring, x);
    RemoveMembers(t[s].ring, k);
    RingRemove(fd, bk, t[s].ring, k);
  }

  lemma UnchainInv(m: Tree, fd: Field, bk: Field, index: Field, t: Nodes, least: int, s: int, x: int, k: int)
    requires TreesInv(m, fd, bk, index, t, least) && s in t && At(bk, x) != x && x != t[s].lead
    requires 0 <= k < |t[s].ring| && t[s].ring[k] == x
    ensures var f, r := At(fd, x), At(bk, x);
      TreesInv(m, fd[r := f], bk[f := r], index, t[s := t[s].(ring := Remove(t[s].ring, k))], least)
    ensures Removed(t, t[s := t[s].(ring := Remove(t[s].ring, k))], s, x)
  {
    var f, r := At(fd, x), At(bk, x);
    var t' := t[s := t[s].(ring := Remove(t[s].ring, k))];
    assert RingOk(m, fd, bk, index, t, s);
    UnchainRing(m, fd, bk, index, t, s, x, k);
    ShapeOfRing(m, t, s, Remove(t[s].ring, k));
    hide Shape, Ring, Remove, TreeIndex;
    assert RingOk(m, fd[r := f], bk[f := r], index, t', s);
    hide RingOk;
    forall j | j in t'
      ensures RingOk(m, fd[r := f], bk[f := r], index, t', j)
    {
      if j != s {
        UnchainOther(m, fd, bk, index, t, s, x, t', j);
      }
    }
    assert Removed(t, t', s, x);
  }

  // ---- a leaf

  lemma PruneRing(m: Tree, fd: Field, bk: Field, index: Field, t: Nodes, i: int, p: int, c: int, s: int, k: int)
    requires CanPrune(m, t, i, p, c, s) && k in t && k != s && RingOk(m, fd, bk, index, t, k)
    ensures RingOk(SetSlot(m, i, p, c, 0), fd, bk, index, t - {s}, k)
  {
    PruneReads(m, t, i, p, c, s);
    PruneSlot(m, t, i, p, c, s);
    hide Shape, Ring, SetSlot, CanPrune, Tree.Child;
    RingOkFrame(m, fd, bk, index, t, SetSlot(m, i, p, c, 0), fd, bk, index, t - {s}, k);
  }

  lemma PruneInv(m: Tree, fd: Field, bk: Field, index: Field, t: Nodes, least: int, i: int, p: int, c: int, s: int)
    requires TreesInv(m, fd, bk, index, t, least) && CanPrune(m, t, i, p, c, s)
    ensures TreesInv(SetSlot(m, i, p, c, 0), fd, bk, index, t - {s}, least)
    ensures t[s].ring == [t[s].lead] ==> Removed(t, t - {s}, s, t[s].lead)
  {
    PruneShape(m, t, i, p, c, s);
    hide Shape, TreeIndex, SetSlot, CanPrune, RingOk;
    forall k | k in t - {s}
      ensures RingOk(SetSlot(m, i, p, c, 0), fd, bk, index, t - {s}, k)
    {
      PruneRing(m, fd, bk, index, t, i, p, c, s, k);
    }
    assert forall k, y :: Binned(t - {s}, k, y) ==> Binned(t, k, y);
  }

  /** The slot a leaf sits in belongs to the chunk in the tree of some size, or to a bin. */
  lemma PruneSlot(m: Tree, t: Nodes, i: int, p: int, c: int, s: int)
    requires CanPrune(m, t, i, p, c, s)
    ensures p != TreeBinAt(i) ==> m.Size(p) in t && t[m.Size(p)].lead == p
    ensures p == TreeBinAt(i) ==> p < 0
  {
    assert NodeOk(m, t, s) && UpOk(m, t, s);
  }

  // ---- one chunk takes the place of another

  /** The ring `ring` of size `r` around `a`, whose tree links do not matter yet. */
  ghost predicate LooseRing(m: Tree, fd: Field, bk: Field, index: Field, ring: seq<int>, a: int, r: int, i: int) {
    && Ring(fd, bk, ring) && a in ring
    && (forall x :: x in ring ==> x > 0 && m.Size(x) == r && At(index, x) == i)
    && (forall x :: x in ring && x != a ==> At(m.parent, x) == 0 && m.Child(0, x) == 0 && m.Child(1, x) == 0)
  }

  ghost predicate GraftReady(m: Tree, fd: Field, bk: Field, index: Field, t: Nodes, least: int,
                             i: int, p: int, c: int, s: int, r: int, a: int, ring: seq<int>) {
    && CanGraft(m, t, i, p, c, s, r, a)
    && Indexed(t) && r >= 0 && TreeIndex(r) == i
    && (forall k {:trigger RingOk(m, fd, bk, index, t, k)} :: k in t && k != s ==> RingOk(m, fd, bk, index, t, k))
    && (forall k, y :: k != s && Binned(t, k, y) ==> y >= least)
    && (forall y :: y in ring ==> y >= least)
    && LooseRing(m, fd, bk, index, ring, a, r, i)
  }

  lemma GraftRing(m: Tree, fd: Field, bk: Field, index: Field, t: Nodes,
                  i: int, p: int, c: int, s: int, r: int, a: int, ring: seq<int>, k: int)
    requires CanGraft(m, t, i, p, c, s, r, a) && k in t && k != s && RingOk(m, fd, bk, index, t, k)
    ensures var m', t' := Graft(m, i, p, c, t[s].lead, a), (t - {s})[r := Node(a, ring, i, t[s].w)];
      k != r && RingOk(m', fd, bk, index, t', k)
  {
    var m', t' := Graft(m, i, p, c, t[s].lead, a), (t - {s})[r := Node(a, ring, i, t[s].w)];
    GraftReads(m, t, i, p, c, s, r, a);
    GraftSlots(m, t, i, p, c, s, r, a);
    hide Shape, Ring, Graft, Tree.Child, CanGraft;
    assert k != r;
    RingOkFrame(m, fd, bk, index, t, m', fd, bk, index, t', k);
  }

  /** The chunks around a graft: each is the one in the tree of its size. */
  lemma GraftSlots(m: Tree, t: Nodes, i: int, p: int, c: int, s: int, r: int, a: int)
    requires CanGraft(m, t, i, p, c, s, r, a)
    ensures p != TreeBinAt(i) ==> m.Size(p) in t && t[m.Size(p)].lead == p
    ensures forall d :: (d == 0 || d == 1) ==> var q := m.Child(d, t[s].lead);
      q != 0 ==> m.Size(q) in t && t[m.Size(q)].lead == q && m.Size(q) != s
    ensures m.Size(a) == r && (r == s || r !in t)
  {
    assert NodeOk(m, t, s) && UpOk(m, t, s) && DownOk(m, t, s, 0) && DownOk(m, t, s, 1);
    hide Shr, Bit;
  }

  lemma GraftInv(m: Tree, fd: Field, bk: Field, index: Field, t: Nodes, least: int,
                 i: int, p: int, c: int, s: int, r: int, a: int, ring: seq<int>)
    requires GraftReady(m, fd, bk, index, t, least, i, p, c, s, r, a, ring)
    ensures TreesInv(Graft(m, i, p, c, t[s].lead, a), fd, bk, index,
                     (t - {s})[r := Node(a, ring, i, t[s].w)], least)
  {
    var m', t' := Graft(m, i, p, c, t[s].lead, a), (t - {s})[r := Node(a, ring, i, t[s].w)];
    GraftShape(m, t, i, p, c, s, r, a, ring);
    GraftSelf(m, fd, bk, index, t, least, i, p, c, s, r, a, ring);
    hide Shape, Graft, TreeIndex, CanGraft, LooseRing, RingOk;
    forall k | k in t'
      ensures RingOk(m', fd, bk, index, t', k)
    {
      if k != r {
        GraftRing(m, fd, bk, index, t, i, p, c, s, r, a, ring, k);
      }
    }
    forall k, y | Binned(t', k, y)
      ensures y >= least
    {
      if k != r {
        assert Binned(t, k, y);
      }
    }
  }

  lemma GraftSelf(m: Tree, fd: Field, bk: Field, index: Field, t: Nodes, least: int,
                  i: int, p: int, c: int, s: int, r: int, a: int, ring: seq<int>)
    requires GraftReady(m, fd, bk, index, t, least, i, p, c, s, r, a, ring)
    ensures RingOk(Graft(m, i, p, c, t[s].lead, a), fd, bk, index, (t - {s})[r := Node(a, ring, i, t[s].w)], r)
  {
    GraftReads(m, t, i, p, c, s, r, a);
    GraftSlots(m, t, i, p, c, s, r, a);
    hide Shape, Ring, Graft, TreeIndex, CanGraft;
  }

  // ---- the walk to a leaf

  /** `x` is the chunk in the tree of size `s`; `a`, of size `r`, is a descendant in the slot
      `c` of `p`. */
  ghost predicate Descendant(m: Tree, t: Nodes, s: int, p: int, c: int, a: int) {
    && s in t && s >= 0 && m.Size(a) in t && m.Size(a) >= 0
    && t[m.Size(a)].lead == a && InSub(t, m.Size(a), s) && t[m.Size(a)].w < t[s].w
    && (c == 0 || c == 1) && p > 0 && m.Child(c, p) == a && At(m.parent, a) == p
  }

  lemma ChildIsDescendant(m: Tree, t: Nodes, s: int, c: int)
    requires Shape(m, t) && s in t && (c == 0 || c == 1)
    ensures var a := m.Child(c, t[s].lead);
      a != 0 ==> Descendant(m, t, s, t[s].lead, c, a)
  {
    assert NodeOk(m, t, s) && DownOk(m, t, s, 0) && DownOk(m, t, s, 1);
    hide Shr, Bit, Shape;
  }

  lemma DescendantStep(m: Tree, t: Nodes, s: int, p: int, c: int, a: int, d: int)
    requires Shape(m, t) && Descendant(m, t, s, p, c, a) && (d == 0 || d == 1)
    ensures var q := m.Child(d, a);
      q != 0 ==> Descendant(m, t, s, a, d, q) && t[m.Size(q)].w < t[m.Size(a)].w
  {
    var r, q := m.Size(a), m.Child(d, a);
    assert NodeOk(m, t, r) && DownOk(m, t, r, 0) && DownOk(m, t, r, 1);
    if q != 0 {
      ShrCoarser(m.Size(q), r, t[r].w, t[s].w);
    }
    hide Shr, Bit, Shape;
  }

  // ---- the steps of unlink_large_chunk

  /** Where the chunk `x` of size `s` in the tree sits. */
  ghost predicate SitsAt(m: Tree, index: Field, t: Nodes, s: int, x: int, p: int, c: int) {
    && Shape(m, t) && s in t && s >= 0 && t[s].lead == x && At(index, x) == t[s].bin
    && 0 <= t[s].bin < NTREEBINS
    && At(m.parent, x) == p
    && (p != TreeBinAt(t[s].bin) ==> t[s].w < BinWidth(t[s].bin) && c == Bit(s, t[s].w))
  }

  /** The tests by which the code finds the slot of `x` are right. */
  lemma SlotTests(m: Tree, index: Field, t: Nodes, s: int, x: int, p: int, c: int)
    requires SitsAt(m, index, t, s, x, p, c)
    ensures |m.bins| == NTREEBINS && IsMap(m.treemap)
    ensures m.bins[t[s].bin] == x <==> p == TreeBinAt(t[s].bin)
    ensures p != TreeBinAt(t[s].bin) ==>
      && m.Size(p) in t && t[m.Size(p)].lead == p && p > 0
      && (c == 0 || c == 1) && m.Child(c, p) == x && (m.Child(0, p) == x <==> c == 0)
  {
    var i := t[s].bin;
    assert NodeOk(m, t, s) && UpOk(m, t, s) && BinOk(m, t, i);
    if p != TreeBinAt(i) {
      var z := m.Size(p);
      assert NodeOk(m, t, z) && DownOk(m, t, z, 0);
    }
    hide Shr, Bit, Shape;
  }

  /** Puts `r` into the slot that holds `x`. */
  method WriteSlot(m: Mstate, x: int, p: int, r: int, ghost t: Nodes, ghost s: int, ghost c: int)
    requires SitsAt(TreeOf(m), m.index, t, s, x, p, c) && (p > 0 ==> p >= m.leastAddr)
    modifies m`child0, m`child1, m`treebins, m`treemap
    ensures |old(m.treebins)| == NTREEBINS && IsMap(old(m.treemap))
    ensures TreeOf(m) == SetSlot(old(TreeOf(m)), t[s].bin, p, c, r)
    ensures forall q :: q != p || p < 0 ==> LinksAt(m, q) == old(LinksAt(m, q))
  {
    SlotTests(TreeOf(m), m.index, t, s, x, p, c);
    var i := At(m.index, x);
    hide SitsAt, Clear;
    if m.treebins[i] == x {
      m.treebins := m.treebins[i := r];
      if r == 0 {
        m.treemap := Clear(m.treemap, i);
      }
    } else if OkAddress(m, p) {
      if At(m.child0, p) == x {
        m.child0 := m.child0[p := r];
      } else {
        m.child1 := m.child1[p := r];
      }
    } else {
      assert false;
    }
  }

  ghost predicate IsChild(m: Tree, x: int, q: int) {
    q != 0 && (q == m.Child(0, x) || q == m.Child(1, x))
  }

  /** Gives `r` the parent `p` and the children of `x`. */
  method TakeOver(m: Mstate, x: int, p: int, r: int)
    requires r >= m.leastAddr
    requires At(m.child0, x) != 0 ==> At(m.child0, x) >= m.leastAddr
    requires At(m.child1, x) != 0 ==> At(m.child1, x) >= m.leastAddr
    requires r != x
    modifies m`child0, m`child1, m`parent
    ensures TreeOf(m) == Adopt(old(TreeOf(m)), x, p, r)
    ensures forall q :: q != r && !IsChild(old(TreeOf(m)), x, q) ==> LinksAt(m, q) == old(LinksAt(m, q))
  {
    if OkAddress(m, r) {
      m.parent := m.parent[r := p];
      var c0 := At(m.child0, x);
      if c0 != 0 {
        if OkAddress(m, c0) {
          m.child0 := m.child0[r := c0];
          m.parent := m.parent[c0 := r];
        } else {
          assert false;
        }
      }
      var c1 := At(m.child1, x);
      if c1 != 0 {
        if OkAddress(m, c1) {
          m.child1 := m.child1[r := c1];
          m.parent := m.parent[c1 := r];
        } else {
          assert false;
        }
      }
    } else {
      assert false;
    }
  }

  /** The rightmost-first walk from `x` to a leaf below it; `p` and `c` tell the leaf's slot. */
  method FindLeaf(m: Mstate, x: int, ghost s: int) returns (r: int, p: int, c: int)
    requires TreesOk(m) && s in m.nodes && m.nodes[s].lead == x
    ensures r == 0 ==> At(m.child0, x) == 0 && At(m.child1, x) == 0
    ensures r != 0 ==> Descendant(TreeOf(m), m.nodes, s, p, c, r) && At(m.child0, r) == 0 && At(m.child1, r) == 0
  {
    assert Shape(TreeOf(m), m.nodes);
    hide Shape;
    ChildIsDescendant(TreeOf(m), m.nodes, s, 0);
    ChildIsDescendant(TreeOf(m), m.nodes, s, 1);
    r, p, c := At(m.child1, x), x, 1;
    if r == 0 {
      r, c := At(m.child0, x), 0;
    }
    hide TreesInv, InSub;
    if r != 0 {
      while true
        invariant r != 0 && Descendant(TreeOf(m), m.nodes, s, p, c, r)
        decreases m.nodes[SizeAt(m.head, r)].w
      {
        DescendantStep(TreeOf(m), m.nodes, s, p, c, r, 0);
        DescendantStep(TreeOf(m), m.nodes, s, p, c, r, 1);
        var q, d := At(m.child1, r), 1;
        if q == 0 {
          q, d := At(m.child0, r), 0;
          if q == 0 {
            break;
          }
        }
        r, p, c := q, r, d;
      }
    }
  }

  /** The slot of the chunk in the tree of size `s`. */
  ghost function SlotOf(m: Tree, t: Nodes, s: int): (c: int)
    requires s in t && s >= 0
  {
    Bit(s, t[s].w)
  }

  lemma Sits(m: Tree, fd: Field, bk: Field, index: Field, t: Nodes, least: int, s: int)
    requires TreesInv(m, fd, bk, index, t, least) && s in t
    ensures s >= 0 && SitsAt(m, index, t, s, t[s].lead, At(m.parent, t[s].lead), SlotOf(m, t, s))
  {
    assert NodeOk(m, t, s) && UpOk(m, t, s) && RingOk(m, fd, bk, index, t, s);
    hide Shape, Ring, Shr, Bit;
  }

  /** Every chunk a link of a tree leads to is at an address the allocator owns. */
  lemma LinkAddresses(m: Tree, fd: Field, bk: Field, index: Field, t: Nodes, least: int, s: int)
    requires TreesInv(m, fd, bk, index, t, least) && s in t
    ensures var x := t[s].lead;
      && (At(m.parent, x) > 0 ==> At(m.parent, x) >= least)
      && (At(m.child0, x) != 0 ==> At(m.child0, x) >= least)
      && (At(m.child1, x) != 0 ==> At(m.child1, x) >= least)
      && (At(m.parent, x) > 0 ==> Binned(t, m.Size(At(m.parent, x)), At(m.parent, x)))
      && (forall q :: IsChild(m, x, q) ==> Binned(t, m.Size(q), q))
  {
    Sits(m, fd, bk, index, t, least, s);
    var x := t[s].lead;
    SlotTests(m, index, t, s, x, At(m.parent, x), SlotOf(m, t, s));
    assert NodeOk(m, t, s) && DownOk(m, t, s, 0) && DownOk(m, t, s, 1);
    hide TreesInv, Shr, Bit, SitsAt;
    if At(m.parent, x) > 0 {
      LeadAddresses(m, fd, bk, index, t, least, m.Size(At(m.parent, x)));
    }
    if m.Child(0, x) != 0 {
      LeadAddresses(m, fd, bk, index, t, least, m.Size(m.Child(0, x)));
    }
    if m.Child(1, x) != 0 {
      LeadAddresses(m, fd, bk, index, t, least, m.Size(m.Child(1, x)));
    }
  }

  /** The backward link of a chunk leads to the one chained before it. */
  lemma ChunkBefore(m: Tree, fd: Field, bk: Field, index: Field, t: Nodes, least: int, s: int, k: int)
    requires TreesInv(m, fd, bk, index, t, least) && s in t && 0 <= k < |t[s].ring|
    ensures At(bk, t[s].ring[k]) == t[s].ring[if k == 0 then |t[s].ring| - 1 else k - 1]
  {
    hide Shape;
    assert RingOk(m, fd, bk, index, t, s);
    var b := if k == 0 then |t[s].ring| - 1 else k - 1;
    assert Next(b, |t[s].ring|) == k;
  }

  /** What is left of the ring without the chunk in the tree. */
  lemma MateRing(m: Tree, fd: Field, bk: Field, index: Field, t: Nodes, least: int, s: int, k: int)
    requires TreesInv(m, fd, bk, index, t, least) && s in t
    requires 0 <= k < |t[s].ring| && t[s].ring[k] == t[s].lead && At(bk, t[s].lead) != t[s].lead
    ensures var x := t[s].lead;
      var f, r, ring := At(fd, x), At(bk, x), Remove(t[s].ring, k);
      && LooseRing(m, fd[r := f], bk[f := r], index, ring, r, s, t[s].bin) && r != x && r > 0 && m.Size(r) == s
      && m.Child(0, r) == 0 && m.Child(1, r) == 0
      && (forall y :: y in ring <==> y != x && y in t[s].ring)
  {
    hide Shape, Ring, Remove, TreeIndex, Shr, Bit;
    assert RingOk(m, fd, bk, index, t, s);
    UnchainRing(m, fd, bk, index, t, s, t[s].lead, k);
  }

  lemma MatePlace(m: Tree, fd: Field, bk: Field, index: Field, t: Nodes, least: int, s: int)
    requires TreesInv(m, fd, bk, index, t, least) && s in t
    ensures Shape(m, t) && Indexed(t) && NodeOk(m, t, s) && s >= 0 && TreeIndex(s) == t[s].bin
    ensures forall k, y :: Binned(t, k, y) ==> y >= least
    ensures At(m.parent, t[s].lead) != TreeBinAt(t[s].bin) ==> SlotOf(m, t, s) == Bit(s, t[s].w)
  {
    hide Ring, RingsOk, Shr, Bit, TreeIndex;
    assert NodeOk(m, t, s) && UpOk(m, t, s);
  }

  lemma MateElsewhere(m: Tree, fd: Field, bk: Field, index: Field, t: Nodes, least: int, s: int, k: int, j: int)
    requires TreesInv(m, fd, bk, index, t, least) && s in t
    requires 0 <= k < |t[s].ring| && t[s].ring[k] == t[s].lead && j in t && j != s
    ensures RingOk(m, fd[At(bk, t[s].lead) := At(fd, t[s].lead)], bk[At(fd, t[s].lead) := At(bk, t[s].lead)], index, t, j)
  {
    hide Shape, RingsOk, RingOk;
    UnchainOther(m, fd, bk, index, t, s, t[s].lead, t, j);
  }

  lemma MateRemoved(t: Nodes, s: int, k: int, r: int)
    requires s in t && 0 <= k < |t[s].ring|
    requires forall y :: y in Remove(t[s].ring, k) <==> y != t[s].lead && y in t[s].ring
    ensures Removed(t, (t - {s})[s := Node(r, Remove(t[s].ring, k), t[s].bin, t[s].w)], s, t[s].lead)
    ensures forall y :: y in Remove(t[s].ring, k) ==> Binned(t, s, y)
  {
    hide Remove;
  }

  /** A ring mate of the chunk in the tree can take its place. */
  lemma MateReady(m: Tree, fd: Field, bk: Field, index: Field, t: Nodes, least: int, s: int, k: int)
    requires TreesInv(m, fd, bk, index, t, least) && s in t
    requires 0 <= k < |t[s].ring| && t[s].ring[k] == t[s].lead && At(bk, t[s].lead) != t[s].lead
    ensures s >= 0
    ensures var x := t[s].lead;
      var f, r, ring := At(fd, x), At(bk, x), Remove(t[s].ring, k);
      && GraftReady(m, fd[r := f], bk[f := r], index, t, least, t[s].bin, At(m.parent, x), SlotOf(m, t, s),
                    s, s, r, ring)
      && Removed(t, (t - {s})[s := Node(r, ring, t[s].bin, t[s].w)], s, x)
  {
    hide TreesInv, Shape, Ring, Remove, TreeIndex, Shr, Bit, RingOk, Binned;
    var x := t[s].lead;
    var f, r, ring := At(fd, x), At(bk, x), Remove(t[s].ring, k);
    MateRing(m, fd, bk, index, t, least, s, k);
    MatePlace(m, fd, bk, index, t, least, s);
    MateRemoved(t, s, k, At(bk, x));
    hide LooseRing;
    forall j | j in t && j != s
      ensures RingOk(m, fd[r := f], bk[f := r], index, t, j)
    {
      MateElsewhere(m, fd, bk, index, t, least, s, k, j);
    }
  }

  /** A leaf below the node of size `s`. */
  ghost predicate LeafBelow(m: Tree, t: Nodes, s: int, q: int, d: int, a: int) {
    && Descendant(m, t, s, q, d, a) && m.Child(0, a) == 0 && m.Child(1, a) == 0
  }

  lemma LeafCut(m: Tree, fd: Field, bk: Field, index: Field, t: Nodes, least: int, s: int, q: int, d: int, a: int)
    requires TreesInv(m, fd, bk, index, t, least) && s in t && LeafBelow(m, t, s, q, d, a)
    ensures CanPrune(m, t, t[s].bin, q, d, m.Size(a)) && m.Size(a) != s && q >= least
    ensures m.Size(q) in t && t[m.Size(q)].lead == q && a >= least
  {
    var z := m.Size(a);
    assert NodeOk(m, t, s) && NodeOk(m, t, z) && UpOk(m, t, z);
    hide Shape, Shr, Bit, RingsOk, Indexed, Above;
    LeadAddresses(m, fd, bk, index, t, least, m.Size(q));
    LeadAddresses(m, fd, bk, index, t, least, z);
  }

  lemma LeafGraft(m: Tree, fd: Field, bk: Field, index: Field, t: Nodes, least: int, s: int, q: int, d: int, a: int)
    requires TreesInv(m, fd, bk, index, t, least) && s in t && LeafBelow(m, t, s, q, d, a)
    ensures CanPrune(m, t, t[s].bin, q, d, m.Size(a))
    ensures var m1, t1 := SetSlot(m, t[s].bin, q, d, 0), t - {m.Size(a)};
      && s in t1 && s >= 0 && TreesInv(m1, fd, bk, index, t1, least)
      && CanGraft(m1, t1, t[s].bin, At(m.parent, t[s].lead), SlotOf(m, t, s), s, m.Size(a), a)
  {
    LeafCut(m, fd, bk, index, t, least, s, q, d, a);
    PruneInv(m, fd, bk, index, t, least, t[s].bin, q, d, m.Size(a));
    PruneReads(m, t, t[s].bin, q, d, m.Size(a));
    assert NodeOk(m, t, s) && NodeOk(m, t, m.Size(a));
    hide Shape, Shr, Bit, RingsOk, Indexed, Above, SetSlot, Tree.Child, CanPrune;
  }

  lemma LeafRing(m: Tree, fd: Field, bk: Field, index: Field, t: Nodes, least: int, s: int, q: int, d: int, a: int)
    requires TreesInv(m, fd, bk, index, t, least) && s in t && LeafBelow(m, t, s, q, d, a)
    ensures CanPrune(m, t, t[s].bin, q, d, m.Size(a))
    ensures var m1, z := SetSlot(m, t[s].bin, q, d, 0), m.Size(a);
      LooseRing(m1, fd, bk, index, t[z].ring, a, z, t[s].bin)
  {
    LeafCut(m, fd, bk, index, t, least, s, q, d, a);
    PruneReads(m, t, t[s].bin, q, d, m.Size(a));
    assert NodeOk(m, t, m.Size(q)) && RingOk(m, fd, bk, index, t, m.Size(a));
    hide Shape, Shr, Bit, RingsOk, Indexed, Above, SetSlot, Tree.Child, CanPrune, Ring;
  }

  /** The chunks around the leaf are in the trees, and apart from the node it replaces. */
  lemma LeafPlace(m: Tree, fd: Field, bk: Field, index: Field, t: Nodes, least: int, s: int, q: int, d: int, a: int)
    requires TreesInv(m, fd, bk, index, t, least) && s in t && LeafBelow(m, t, s, q, d, a)
    ensures m.Size(a) in t && m.Size(a) != s && a != t[s].lead && t[m.Size(a)].lead == a
    ensures Binned(t, m.Size(a), a) && Binned(t, m.Size(q), q) && (d == 0 || d == 1) && q > 0
  {
    LeafCut(m, fd, bk, index, t, least, s, q, d, a);
    LeadAddresses(m, fd, bk, index, t, least, m.Size(q));
    LeadAddresses(m, fd, bk, index, t, least, m.Size(a));
    LeadAddresses(m, fd, bk, index, t, least, s);
  }

  /** With its slot emptied, the leaf `a` can take the place of the only chunk of size `s`. */
  lemma LeafReady(m: Tree, fd: Field, bk: Field, index: Field, t: Nodes, least: int, s: int, q: int, d: int, a: int)
    requires TreesInv(m, fd, bk, index, t, least) && s in t && t[s].ring == [t[s].lead]
    requires LeafBelow(m, t, s, q, d, a)
    ensures CanPrune(m, t, t[s].bin, q, d, m.Size(a)) && q >= least && a >= least && s >= 0
    ensures var z, m1 := m.Size(a), SetSlot(m, t[s].bin, q, d, 0);
      && GraftReady(m1, fd, bk, index, t - {z}, least, t[s].bin, At(m.parent, t[s].lead), SlotOf(m, t, s),
                    s, z, a, t[z].ring)
      && SitsAt(m1, index, t - {z}, s, t[s].lead, At(m.parent, t[s].lead), SlotOf(m, t, s))
      && Removed(t, (t - {z} - {s})[z := Node(a, t[z].ring, t[s].bin, t[s].w)], s, t[s].lead)
  {
    LeafCut(m, fd, bk, index, t, least, s, q, d, a);
    LeafGraft(m, fd, bk, index, t, least, s, q, d, a);
    LeafRing(m, fd, bk, index, t, least, s, q, d, a);
    var z, m1 := m.Size(a), SetSlot(m, t[s].bin, q, d, 0);
    assert NodeOk(m, t, z);
    assert forall y :: y in t[z].ring ==> Binned(t, z, y);
    Sits(m1, fd, bk, index, t - {z}, least, s);
    assert m1.parent == m.parent;
    hide Shape, SetSlot, Tree.Child, CanPrune, LooseRing, LeafBelow, CanGraft, TreeIndex, RingOk, SitsAt;
  }

  /** unlink_large_chunk's last step: `r` takes the tree position of `x`. */
  method PutInPlace(m: Mstate, x: int, p: int, r: int,
                    ghost t: Nodes, ghost s: int, ghost z: int, ghost c: int, ghost ring: seq<int>)
    requires SitsAt(TreeOf(m), m.index, t, s, x, p, c)
    requires GraftReady(TreeOf(m), m.fd, m.bk, m.index, t, m.leastAddr, t[s].bin, p, c, s, z, r, ring)
    requires (p > 0 ==> p >= m.leastAddr) && r >= m.leastAddr && r != x && p != x
    requires At(m.child0, x) != 0 ==> At(m.child0, x) >= m.leastAddr
    requires At(m.child1, x) != 0 ==> At(m.child1, x) >= m.leastAddr
    modifies m`child0, m`child1, m`parent, m`treebins, m`treemap, m`nodes
    ensures m.nodes == (t - {s})[z := Node(r, ring, t[s].bin, t[s].w)]
    ensures TreesOk(m)
    ensures forall q :: q != r && (q != p || p < 0) && !IsChild(old(TreeOf(m)), x, q) ==>
      LinksAt(m, q) == old(LinksAt(m, q))
  {
    hide GraftReady, SitsAt, TreesInv, LinksAt, Graft, IsChild;
    SitsThere(TreeOf(m), m.index, t, s, x, p, c);
    GraftInv(TreeOf(m), m.fd, m.bk, m.index, t, m.leastAddr, t[s].bin, p, c, s, z, r, ring);
    WritePlace(m, x, p, r, t, s, c);
    m.nodes := (t - {s})[z := Node(r, ring, t[s].bin, t[s].w)];
  }

  lemma SitsThere(m: Tree, index: Field, t: Nodes, s: int, x: int, p: int, c: int)
    requires SitsAt(m, index, t, s, x, p, c)
    ensures s in t && 0 <= t[s].bin < NTREEBINS && t[s].lead == x && |m.bins| == NTREEBINS && IsMap(m.treemap)
  {}

  /** The writes: `r` in the slot of `x`, with its parent and children. */
  method WritePlace(m: Mstate, x: int, p: int, r: int, ghost t: Nodes, ghost s: int, ghost c: int)
    requires SitsAt(TreeOf(m), m.index, t, s, x, p, c)
    requires (p > 0 ==> p >= m.leastAddr) && r >= m.leastAddr && r != x && p != x
    requires At(m.child0, x) != 0 ==> At(m.child0, x) >= m.leastAddr
    requires At(m.child1, x) != 0 ==> At(m.child1, x) >= m.leastAddr
    modifies m`child0, m`child1, m`parent, m`treebins, m`treemap
    ensures |old(m.treebins)| == NTREEBINS && IsMap(old(m.treemap)) && 0 <= t[s].bin < NTREEBINS
    ensures TreeOf(m) == Graft(old(TreeOf(m)), t[s].bin, p, c, x, r)
    ensures forall q :: q != r && (q != p || p < 0) && !IsChild(old(TreeOf(m)), x, q) ==>
      LinksAt(m, q) == old(LinksAt(m, q))
  {
    hide SitsAt;
    SitsThere(TreeOf(m), m.index, t, s, x, p, c);
    SlotTests(TreeOf(m), m.index, t, s, x, p, c);
    WriteSlot(m, x, p, r, t, s, c);
    hide LinksAt;
    TakeOver(m, x, p, r);
  }

  /** unlink_large_chunk for a chunk chained behind the one in the tree. */
  method UnlinkMate(m: Mstate, x: int, ghost s: int)
    requires TreesOk(m) && Binned(m.nodes, s, x) && At(m.bk, x) != x && At(m.parent, x) == 0
    modifies m`fd, m`bk, m`nodes
    ensures TreesOk(m) && Removed(old(m.nodes), m.nodes, s, x)
    ensures forall q :: !InTrees(m, old(m.nodes), q) ==> LinksAt(m, q) == old(LinksAt(m, q))
    ensures Unchained(old(m.nodes), m.nodes, s, x)
  {
    hide TreesInv, Removed, Remove;
    ghost var t, k := m.nodes, IndexOf(m.nodes[s].ring, x);
    var f := At(m.fd, x);
    var r := At(m.bk, x);
    RingAddresses(TreeOf(m), m.fd, m.bk, m.index, t, m.leastAddr, s, x);
    UnchainInv(TreeOf(m), m.fd, m.bk, m.index, t, m.leastAddr, s, x, k);
    if OkAddress(m, f) {
      m.bk := m.bk[f := r];
      m.fd := m.fd[r := f];
      m.nodes := t[s := t[s].(ring := Remove(t[s].ring, k))];
    } else {
      assert false;
    }
  }

  /** unlink_large_chunk for the chunk in the tree when its ring has another to take its place. */
  method UnlinkLead(m: Mstate, x: int, ghost s: int)
    requires TreesOk(m) && Binned(m.nodes, s, x) && At(m.bk, x) != x && At(m.parent, x) != 0
    modifies m`fd, m`bk, m`child0, m`child1, m`parent, m`treebins, m`treemap, m`nodes
    ensures TreesOk(m) && Removed(old(m.nodes), m.nodes, s, x)
    ensures forall q :: !InTrees(m, old(m.nodes), q) ==> LinksAt(m, q) == old(LinksAt(m, q))
    ensures Unchained(old(m.nodes), m.nodes, s, x)
  {
    hide TreesInv, Removed, Remove, GraftReady, SitsAt;
    ghost var t, k := m.nodes, IndexOf(m.nodes[s].ring, x);
    var xp := At(m.parent, x);
    var f := At(m.fd, x);
    var r := At(m.bk, x);
    RingAddresses(TreeOf(m), m.fd, m.bk, m.index, t, m.leastAddr, s, x);
    MateReady(TreeOf(m), m.fd, m.bk, m.index, t, m.leastAddr, s, k);
    ChunkBefore(TreeOf(m), m.fd, m.bk, m.index, t, m.leastAddr, s, k);
    LinkAddresses(TreeOf(m), m.fd, m.bk, m.index, t, m.leastAddr, s);
    Sits(TreeOf(m), m.fd, m.bk, m.index, t, m.leastAddr, s);
    ghost var d := SlotOf(TreeOf(m), t, s);
    if OkAddress(m, f) {
      m.bk := m.bk[f := r];
      m.fd := m.fd[r := f];
      assert forall q :: q != f && q != r ==> LinksAt(m, q) == old(LinksAt(m, q));
      hide LinksAt;
      PutInPlace(m, x, xp, r, t, s, s, d, Remove(t[s].ring, k));
    } else {
      assert false;
    }
  }

  lemma RingAddresses(m: Tree, fd: Field, bk: Field, index: Field, t: Nodes, least: int, s: int, x: int)
    requires TreesInv(m, fd, bk, index, t, least) && Binned(t, s, x)
    ensures At(fd, x) >= least && At(bk, x) >= least && x >= least && x > 0 && m.Size(x) == s && s >= MIN_LARGE_SIZE
    ensures At(m.parent, x) == 0 <==> x != t[s].lead
    ensures At(bk, x) == x <==> t[s].ring == [x]
    ensures t[s].ring == [x] ==> x == t[s].lead
    ensures At(m.parent, x) != x && At(bk, x) > 0
    ensures Binned(t, s, At(fd, x)) && Binned(t, s, At(bk, x)) && m.Size(At(fd, x)) == s && m.Size(At(bk, x)) == s
  {
    assert RingOk(m, fd, bk, index, t, s) && NodeOk(m, t, s) && UpOk(m, t, s);
    RingNeighbours(fd, bk, t[s].ring, x);
    hide Shape, Shr, Bit;
    assert Binned(t, s, At(fd, x)) && Binned(t, s, At(bk, x));
  }

  /** unlink_large_chunk for the only chunk of its size, with nothing below it. */
  method UnlinkLeafNode(m: Mstate, x: int, ghost s: int)
    requires TreesOk(m) && Binned(m.nodes, s, x) && At(m.bk, x) == x
    requires At(m.child0, x) == 0 && At(m.child1, x) == 0
    modifies m`child0, m`child1, m`treebins, m`treemap, m`nodes
    ensures TreesOk(m) && Removed(old(m.nodes), m.nodes, s, x)
    ensures forall q :: !InTrees(m, old(m.nodes), q) ==> LinksAt(m, q) == old(LinksAt(m, q))
    ensures Unchained(old(m.nodes), m.nodes, s, x)
  {
    hide TreesInv, CanPrune, Removed;
    ghost var t := m.nodes;
    var xp := At(m.parent, x);
    RingAddresses(TreeOf(m), m.fd, m.bk, m.index, t, m.leastAddr, s, x);
    LinkAddresses(TreeOf(m), m.fd, m.bk, m.index, t, m.leastAddr, s);
    LeafPrunable(TreeOf(m), m.fd, m.bk, m.index, t, m.leastAddr, s);
    ghost var d := SlotOf(TreeOf(m), t, s);
    hide SitsAt;
    PruneInv(TreeOf(m), m.fd, m.bk, m.index, t, m.leastAddr, t[s].bin, xp, d, s);
    WriteSlot(m, x, xp, 0, t, s, d);
    m.nodes := t - {s};
  }

  lemma LeafPrunable(m: Tree, fd: Field, bk: Field, index: Field, t: Nodes, least: int, s: int)
    requires TreesInv(m, fd, bk, index, t, least) && s in t
    requires m.Child(0, t[s].lead) == 0 && m.Child(1, t[s].lead) == 0
    ensures s >= 0 && SitsAt(m, index, t, s, t[s].lead, At(m.parent, t[s].lead), SlotOf(m, t, s))
    ensures CanPrune(m, t, t[s].bin, At(m.parent, t[s].lead), SlotOf(m, t, s), s)
  {
    Sits(m, fd, bk, index, t, least, s);
    SlotTests(m, index, t, s, t[s].lead, At(m.parent, t[s].lead), SlotOf(m, t, s));
  }

  /** unlink_large_chunk for the only chunk of its size: a leaf below it, if any, takes its place. */
  method UnlinkAlone(m: Mstate, x: int, ghost s: int)
    requires TreesOk(m) && Binned(m.nodes, s, x) && At(m.bk, x) == x
    modifies m`child0, m`child1, m`parent, m`treebins, m`treemap, m`nodes
    ensures TreesOk(m) && Removed(old(m.nodes), m.nodes, s, x)
    ensures forall q :: !InTrees(m, old(m.nodes), q) ==> LinksAt(m, q) == old(LinksAt(m, q))
    ensures Unchained(old(m.nodes), m.nodes, s, x)
  {
    hide TreesInv, SitsAt, Removed, GraftReady;
    ghost var t := m.nodes;
    RingAddresses(TreeOf(m), m.fd, m.bk, m.index, t, m.leastAddr, s, x);
    var r, p, c := FindLeaf(m, x, s);
    if r == 0 {
      UnlinkLeafNode(m, x, s);
    } else {
      ReplaceByLeaf(m, x, r, p, c, s);
    }
  }

  lemma SlotCleared(m: Tree, i: int, p: int, c: int, x: int)
    requires |m.bins| == NTREEBINS && 0 <= i < NTREEBINS && p > 0 && IsMap(m.treemap)
    ensures SetSlot(m, i, p, c, 0) == (if c == 0 then m.(child0 := m.child0[p := 0]) else m.(child1 := m.child1[p := 0]))
    ensures forall q :: IsChild(SetSlot(m, i, p, c, 0), x, q) ==> IsChild(m, x, q)
  {}

  lemma BinOfNode(m: Tree, fd: Field, bk: Field, index: Field, t: Nodes, least: int, s: int)
    requires TreesInv(m, fd, bk, index, t, least) && s in t
    ensures |m.bins| == NTREEBINS && IsMap(m.treemap) && 0 <= t[s].bin < NTREEBINS
  {
    assert NodeOk(m, t, s);
  }

  /** A leaf of another size moves into its place, with its ring. */
  lemma LeafUnchained(t: Nodes, s: int, x: int, z: int, n: Node)
    requires s in t && t[s].ring == [x] && z in t && z != s && n.lead == t[z].lead && n.ring == t[z].ring
    ensures Unchained(t, (t - {z} - {s})[z := n], s, x)
  {}

  method ReplaceByLeaf(m: Mstate, x: int, r: int, p: int, c: int, ghost s: int)
    requires TreesOk(m) && Binned(m.nodes, s, x) && m.nodes[s].lead == x && m.nodes[s].ring == [x]
    requires LeafBelow(TreeOf(m), m.nodes, s, p, c, r)
    modifies m`child0, m`child1, m`parent, m`treebins, m`treemap, m`nodes
    ensures TreesOk(m) && Removed(old(m.nodes), m.nodes, s, x)
    ensures forall q :: !InTrees(m, old(m.nodes), q) ==> LinksAt(m, q) == old(LinksAt(m, q))
    ensures Unchained(old(m.nodes), m.nodes, s, x)
  {
    hide TreesInv, SitsAt, Removed, GraftReady, LeafBelow, CanPrune, LinksAt, SetSlot, IsChild, Shape, RingOk, SlotOf, Unchained;
    ghost var t := m.nodes;
    var xp := At(m.parent, x);
    BinOfNode(TreeOf(m), m.fd, m.bk, m.index, t, m.leastAddr, s);
    RingAddresses(TreeOf(m), m.fd, m.bk, m.index, t, m.leastAddr, s, x);
    LinkAddresses(TreeOf(m), m.fd, m.bk, m.index, t, m.leastAddr, s);
    LeafReady(TreeOf(m), m.fd, m.bk, m.index, t, m.leastAddr, s, p, c, r);
    LeafPlace(TreeOf(m), m.fd, m.bk, m.index, t, m.leastAddr, s, p, c, r);
    ghost var d := SlotOf(TreeOf(m), t, s);
    ghost var z := SizeAt(m.head, r);
    LeafUnchained(t, s, x, z, Node(r, t[z].ring, t[s].bin, t[s].w));
    if OkAddress(m, p + 32 + 8 * c) {
      SetChild(m, p, c, 0);
      SlotCleared(old(TreeOf(m)), t[s].bin, p, c, x);
      PutInPlace(m, x, xp, r, t - {z}, s, z, d, t[z].ring);
    } else {
      assert false;
    }
  }

  /** unlink_large_chunk: exactly `x` is removed. */
  method UnlinkLargeChunk(m: Mstate, x: int, ghost s: int)
    requires TreesOk(m) && Binned(m.nodes, s, x)
    modifies m`fd, m`bk, m`child0, m`child1, m`parent, m`treebins, m`treemap, m`nodes
    ensures TreesOk(m) && Removed(old(m.nodes), m.nodes, s, x)
    ensures forall q :: !InTrees(m, old(m.nodes), q) ==> LinksAt(m, q) == old(LinksAt(m, q))
    ensures Unchained(old(m.nodes), m.nodes, s, x)
  {
    if At(m.bk, x) != x {
      if At(m.parent, x) == 0 {
        UnlinkMate(m, x, s);
      } else {
        UnlinkLead(m, x, s);
      }
    } else {
      UnlinkAlone(m, x, s);
    }
  }
}
