/** Walking the tries: which subtree holds which sizes, and the rings that hang off the nodes. */
module TriePaths {
  import opened Words
  import opened BinIndex
  import opened BinMaps
  import opened Rings
  import opened Trie

  /** Size `s` lies in the subtree of size `u`. */
  ghost predicate InSub(t: Nodes, s: int, u: int) {
    && s in t && u in t && s >= 0 && u >= 0
    && t[s].bin == t[u].bin && t[s].w <= t[u].w
    && Shr(s, t[u].w) == Shr(u, t[u].w)
  }

  /** A position in a bin holds at most one node. */
  lemma {:induction false} SamePosition(m: Tree, t: Nodes, a: int, b: int)
    requires Shape(m, t) && a in t && b in t && a >= 0 && b >= 0
    requires t[a].bin == t[b].bin && t[a].w == t[b].w && Shr(a, t[a].w) == Shr(b, t[a].w)
    requires t[a].w <= BinWidth(BinOf(m, t, a))
    ensures a == b
    decreases BinWidth(BinOf(m, t, a)) - t[a].w
  {
    assert NodeOk(m, t, a) && NodeOk(m, t, b) && UpOk(m, t, a) && UpOk(m, t, b);
    var w := t[a].w;
    if w != BinWidth(t[a].bin) {
      var pa, pb := m.Size(At(m.parent, t[a].lead)), m.Size(At(m.parent, t[b].lead));
      ShrCoarser(a, b, w, w + 1);
      assert NodeOk(m, t, pa) && NodeOk(m, t, pb);
      SamePosition(m, t, pa, pb);
    }
  }

  ghost function BinOf(m: Tree, t: Nodes, s: int): (i: int)
    requires Shape(m, t) && s in t
    ensures 0 <= i < NTREEBINS && i == t[s].bin
  {
    assert NodeOk(m, t, s);
    t[s].bin
  }

  /** Below a node, the child on the side of `s` exists and its subtree holds `s`. */
  lemma {:induction false} ChildToward(m: Tree, t: Nodes, s: int, u: int)
    requires Shape(m, t) && InSub(t, s, u) && s != u
    ensures t[u].w > 0
    ensures var q := m.Child(Bit(s, t[u].w - 1), t[u].lead);
      q != 0 && m.Size(q) in t && InSub(t, s, m.Size(q)) && t[m.Size(q)].w + 1 == t[u].w
    decreases t[u].w - t[s].w
  {
    assert NodeOk(m, t, s) && NodeOk(m, t, u) && UpOk(m, t, s);
    if t[s].w == t[u].w {
      SamePosition(m, t, s, u);
    } else {
      var w := t[s].w + 1;
      var p := m.Size(At(m.parent, t[s].lead));
      assert NodeOk(m, t, p);
      ShrCoarser(p, s, w, t[u].w);
      if w == t[u].w {
        SamePosition(m, t, p, u);
      } else {
        ChildToward(m, t, p, u);
        ShrCoarser(p, s, w, t[u].w - 1);
      }
    }
  }

  /** Every size of a bin lies below the bin's root. */
  lemma {:induction false} BelowRoot(m: Tree, t: Nodes, s: int)
    requires Shape(m, t) && s in t
    ensures s >= 0 && m.bins[BinOf(m, t, s)] != 0
    ensures InSub(t, s, m.Size(m.bins[BinOf(m, t, s)]))
    decreases BinWidth(BinOf(m, t, s)) - t[s].w
  {
    assert NodeOk(m, t, s) && UpOk(m, t, s) && BinOk(m, t, t[s].bin);
    hide Shr, Marked, Tree.Child, DownOk;
    if t[s].w != BinWidth(t[s].bin) {
      var p := m.Size(At(m.parent, t[s].lead));
      assert NodeOk(m, t, p);
      BelowRoot(m, t, p);
      var r := m.Size(m.bins[t[s].bin]);
      ShrCoarser(p, s, t[s].w + 1, t[r].w);
    }
  }

  /** Chunks of one size form one ring of unparented, childless chunks around the one in the tree. */
  ghost predicate RingOk(m: Tree, fd: Field, bk: Field, index: Field, t: Nodes, s: int)
    requires s in t
  {
    var n := t[s];
    && Ring(fd, bk, n.ring) && n.lead in n.ring
    && (forall x :: x in n.ring ==> x > 0 && m.Size(x) == s && At(index, x) == n.bin)
    && (forall x :: x in n.ring && x != n.lead ==> At(m.parent, x) == 0 && m.Child(0, x) == 0 && m.Child(1, x) == 0)
  }

  ghost predicate RingsOk(m: Tree, fd: Field, bk: Field, index: Field, t: Nodes) {
    forall s {:trigger RingOk(m, fd, bk, index, t, s)} :: s in t ==> RingOk(m, fd, bk, index, t, s)
  }

  /** Chunk `x` is kept under size `s`. */
  ghost predicate Binned(t: Nodes, s: int, x: int) {
    s in t && x in t[s].ring
  }

  /** The shape only depends on the words of the chunks in the tree. */
  lemma ShapeFrame(m: Tree, m': Tree, t: Nodes)
    requires Shape(m, t) && m'.bins == m.bins && m'.treemap == m.treemap
    requires forall s :: s in t ==> var x := t[s].lead;
      && m'.Size(x) == m.Size(x) && At(m'.parent, x) == At(m.parent, x)
      && m'.Child(0, x) == m.Child(0, x) && m'.Child(1, x) == m.Child(1, x)
    ensures Shape(m', t)
  {
    hide Shr, Bit, Marked, Tree.Child, Tree.Size;
    forall s | s in t
      ensures NodeOk(m', t, s) && UpOk(m', t, s) && DownOk(m', t, s, 0) && DownOk(m', t, s, 1)
    {
      assert NodeOk(m, t, s) && UpOk(m, t, s) && DownOk(m, t, s, 0) && DownOk(m, t, s, 1);
    }
    forall i | 0 <= i < NTREEBINS
      ensures BinOk(m', t, i)
    {
      assert BinOk(m, t, i);
    }
  }

  /** A ring stands while the words of its members do, up to the tree links of the one in the tree. */
  lemma RingOkFrame(m: Tree, fd: Field, bk: Field, index: Field, t: Nodes,
                    m': Tree, fd': Field, bk': Field, index': Field, t': Nodes, s: int)
    requires s in t && RingOk(m, fd, bk, index, t, s) && s in t'
    requires t'[s].ring == t[s].ring && t'[s].lead == t[s].lead && t'[s].bin == t[s].bin
    requires forall x :: x in t[s].ring ==>
      && m'.Size(x) == m.Size(x)
      && At(fd', x) == At(fd, x) && At(bk', x) == At(bk, x) && At(index', x) == At(index, x)
    requires forall x :: x in t[s].ring && x != t[s].lead ==>
      && At(m'.parent, x) == At(m.parent, x)
      && m'.Child(0, x) == m.Child(0, x) && m'.Child(1, x) == m.Child(1, x)
    ensures RingOk(m', fd', bk', index', t', s)
  {
    RingFrame(fd, bk, fd', bk', t[s].ring);
    hide Ring;
  }
}
