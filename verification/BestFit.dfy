/** The searches through the tree bins. */
module BestFit {
  import opened Words
  import opened BinIndex
  import opened BinMaps
  import opened Rings
  import opened Trie
  import opened TriePaths
  import opened State
  import opened TreeBins

  /** `a` is null or the chunk in the tree of its size. */
  ghost predicate InTree(m: Tree, t: Nodes, a: int) {
    a != 0 ==> m.Size(a) in t && t[m.Size(a)].lead == a && m.Size(a) >= MIN_LARGE_SIZE && IsWord(m.Size(a))
  }

  /** `v` with remainder `rsize` is the candidate for `nb`: none yet, or a chunk that fits. */
  ghost predicate Candidate(m: Tree, t: Nodes, nb: int, v: int, rsize: int) {
    && InTree(m, t, v)
    && (v == 0 ==> rsize == W64 - nb)
    && (v != 0 ==> m.Size(v) >= nb && rsize == m.Size(v) - nb)
  }

  /** Size `s` cannot be missed: it is no better than the candidate, or lies in the subtree of
      `a`, or is no better than `a` itself. */
  ghost predicate Held(m: Tree, t: Nodes, nb: int, rsize: int, a: int, s: int) {
    s - nb >= rsize || (a != 0 && (InSub(t, s, m.Size(a)) || s >= m.Size(a)))
  }

  /** While walking towards `nb`: `a` is the current chunk, `rst` the deepest right subtree not taken. */
  ghost predicate WalkCovers(m: Tree, t: Nodes, i: int, nb: int, rsize: int, a: int, rst: int) {
    && (forall s :: s in t && t[s].bin == i && s >= nb ==>
      Held(m, t, nb, rsize, rst, s) || (a != 0 && InSub(t, s, m.Size(a))))
    && (rst != 0 ==> forall s :: InSub(t, s, m.Size(rst)) ==> s > nb)
    && (rst != 0 && a != 0 ==> forall s, u :: InSub(t, s, m.Size(a)) && InSub(t, u, m.Size(rst)) ==> s < u)
  }

  /** While descending to the left: nothing outside the subtree of `a` beats the candidate and `a`. */
  ghost predicate DescentCovers(m: Tree, t: Nodes, nb: int, rsize: int, a: int) {
    && (forall s :: s in t && s >= nb ==> Held(m, t, nb, rsize, a, s))
    && (a != 0 && rsize != 0 ==> forall s :: InSub(t, s, m.Size(a)) ==> s >= nb)
  }

  /** Comparing chunk `a` with the candidate. */
  function Better(m: Tree, nb: int, v: int, rsize: int, a: int): (int, int)
    requires IsWord(nb) && IsWord(m.Size(a))
  {
    var trem := Sub64(m.Size(a), nb);
    if trem < rsize then (a, trem) else (v, rsize)
  }

  lemma BetterCandidate(m: Tree, t: Nodes, nb: int, v: int, rsize: int, a: int)
    requires Candidate(m, t, nb, v, rsize) && InTree(m, t, a) && a != 0 && 0 < nb && IsWord(nb)
    ensures var (v', r') := Better(m, nb, v, rsize, a);
      && Candidate(m, t, nb, v', r') && r' <= rsize && (m.Size(a) >= nb ==> r' <= m.Size(a) - nb)
  {}

  /** What lies below child `c` lies below its parent, on the side of bit `c`. */
  lemma BelowChild(m: Tree, t: Nodes, z: int, c: int, s: int)
    requires Shape(m, t) && z in t && (c == 0 || c == 1) && m.Child(c, t[z].lead) != 0
    requires InSub(t, s, m.Size(m.Child(c, t[z].lead)))
    ensures z >= 0 && t[z].w > 0 && InSub(t, s, z) && Bit(s, t[z].w - 1) == c
  {
    assert NodeOk(m, t, z) && DownOk(m, t, z, 0) && DownOk(m, t, z, 1);
    var y := m.Size(m.Child(c, t[z].lead));
    ShrCoarser(s, y, t[y].w, t[z].w);
    hide Shape;
    assert Bit(s, t[z].w - 1) == Bit(y, t[z].w - 1);
  }

  /** Sizes below the two children of one node. */
  lemma ChildrenOrdered(m: Tree, t: Nodes, z: int, s: int, u: int)
    requires Shape(m, t) && z in t
    requires m.Child(0, t[z].lead) != 0 && InSub(t, s, m.Size(m.Child(0, t[z].lead)))
    requires m.Child(1, t[z].lead) != 0 && InSub(t, u, m.Size(m.Child(1, t[z].lead)))
    ensures s < u
  {
    hide Shape;
    BelowChild(m, t, z, 0, s);
    BelowChild(m, t, z, 1, u);
    BitOrder(s, u, t[z].w - 1);
  }

  /** A node and its own subtree. */
  lemma InOwnSub(m: Tree, t: Nodes, s: int)
    requires Shape(m, t) && s in t
    ensures InSub(t, s, s)
  {
    assert NodeOk(m, t, s);
  }

  /** The walk's loop state. */
  ghost predicate Walking(m: Tree, t: Nodes, i: int, nb: int, rsize: int, a: int, k: int, rst: int) {
    && Shape(m, t) && a != 0 && OnPath(m, t, i, a, k, nb) && 0 <= k < Pow2(64)
    && InTree(m, t, rst)
    && WalkCovers(m, t, i, nb, rsize, a, rst)
  }

  /** The right subtree that the walk leaves behind, if it leaves one. */
  function LeftBehind(m: Tree, a: int, k: int, rst: int): int
    requires 0 <= k
  {
    var rt := m.Child(1, a);
    if rt != 0 && rt != m.Child(Bit(k, 63), a) then rt else rst
  }

  lemma WalkHolds(m: Tree, t: Nodes, i: int, nb: int, rsize: int, a: int, k: int, rst: int, r': int, s: int)
    requires Walking(m, t, i, nb, rsize, a, k, rst) && m.Size(a) != nb
    requires r' <= rsize && (m.Size(a) >= nb ==> r' <= m.Size(a) - nb)
    requires s in t && t[s].bin == i && s >= nb
    ensures var a' := m.Child(Bit(k, 63), a);
      Held(m, t, nb, r', LeftBehind(m, a, k, rst), s) || (a' != 0 && InSub(t, s, m.Size(a')))
  {
    var z := m.Size(a);
    var w, rt, c := t[z].w, m.Child(1, a), Bit(k, 63);
    PathStep(m, t, i, a, k, nb);
    assert NodeOk(m, t, z) && DownOk(m, t, z, 0) && DownOk(m, t, z, 1);
    if InSub(t, s, z) {
      if s != z {
        ChildToward(m, t, s, z);
        if Bit(s, w - 1) < c {
          BitOrder(s, nb, w - 1);
        }
      }
    } else if rst != 0 && rt != 0 && c == 0 {
      InOwnSub(m, t, m.Size(rt));
      InOwnSub(m, t, m.Size(rst));
      BelowChild(m, t, z, 1, m.Size(rt));
    }
  }

  lemma WalkLeavesLarger(m: Tree, t: Nodes, i: int, nb: int, rsize: int, a: int, k: int, rst: int, s: int)
    requires Walking(m, t, i, nb, rsize, a, k, rst) && m.Size(a) != nb
    requires var rst' := LeftBehind(m, a, k, rst); rst' != 0 && InSub(t, s, m.Size(rst'))
    ensures s > nb
  {
    var z, rt, c := m.Size(a), m.Child(1, a), Bit(k, 63);
    PathStep(m, t, i, a, k, nb);
    if rt != 0 && c == 0 && LeftBehind(m, a, k, rst) == rt {
      BelowChild(m, t, z, 1, s);
      BitOrder(nb, s, t[z].w - 1);
    }
  }

  lemma WalkKeepsOrder(m: Tree, t: Nodes, i: int, nb: int, rsize: int, a: int, k: int, rst: int, s: int, u: int)
    requires Walking(m, t, i, nb, rsize, a, k, rst) && m.Size(a) != nb
    requires var a' := m.Child(Bit(k, 63), a); a' != 0 && InSub(t, s, m.Size(a'))
    requires var rst' := LeftBehind(m, a, k, rst); rst' != 0 && InSub(t, u, m.Size(rst'))
    ensures s < u
  {
    var z, rt, c := m.Size(a), m.Child(1, a), Bit(k, 63);
    PathStep(m, t, i, a, k, nb);
    BelowChild(m, t, z, c, s);
    if rt != 0 && c == 0 && LeftBehind(m, a, k, rst) == rt {
      ChildrenOrdered(m, t, z, s, u);
    }
  }

  lemma AtOnPath(m: Tree, t: Nodes, i: int, a: int, k: int, s: int)
    requires OnPath(m, t, i, a, k, s)
    ensures m.Size(a) in t && t[m.Size(a)].lead == a && t[m.Size(a)].bin == i
  {}

  /** One step of the walk: on to the child towards `nb`, or the end of the path. */
  lemma WalkStep(m: Tree, t: Nodes, i: int, nb: int, rsize: int, a: int, k: int, rst: int, r': int)
    requires Walking(m, t, i, nb, rsize, a, k, rst) && m.Size(a) != nb
    requires r' <= rsize && (m.Size(a) >= nb ==> r' <= m.Size(a) - nb)
    ensures t[m.Size(a)].w > 0
    ensures var a', rst' := m.Child(Bit(k, 63), a), LeftBehind(m, a, k, rst);
      && InTree(m, t, rst') && WalkCovers(m, t, i, nb, r', a', rst')
      && (a' != 0 ==> Walking(m, t, i, nb, r', a', Shl1(k, 64), rst') && t[m.Size(a')].w < t[m.Size(a)].w)
      && (rst' != 0 && rst' != rst ==> t[m.Size(rst')].bin == i)
  {
    hide Shape, OnPath, Shl1, Bit, InSub, Held;
    var a', rst' := m.Child(Bit(k, 63), a), LeftBehind(m, a, k, rst);
    PathStep(m, t, i, a, k, nb);
    AtOnPath(m, t, i, a, k, nb);
    RightChildInTree(m, t, m.Size(a));
    forall s | s in t && t[s].bin == i && s >= nb
      ensures Held(m, t, nb, r', rst', s) || (a' != 0 && InSub(t, s, m.Size(a')))
    {
      WalkHolds(m, t, i, nb, rsize, a, k, rst, r', s);
    }
    forall s | rst' != 0 && InSub(t, s, m.Size(rst'))
      ensures s > nb
    {
      WalkLeavesLarger(m, t, i, nb, rsize, a, k, rst, s);
    }
    forall s, u | a' != 0 && rst' != 0 && InSub(t, s, m.Size(a')) && InSub(t, u, m.Size(rst'))
      ensures s < u
    {
      WalkKeepsOrder(m, t, i, nb, rsize, a, k, rst, s, u);
    }
  }

  lemma RightChildInTree(m: Tree, t: Nodes, z: int)
    requires Shape(m, t) && z in t
    ensures InTree(m, t, m.Child(0, t[z].lead)) && InTree(m, t, m.Child(1, t[z].lead))
    ensures m.Child(0, t[z].lead) != 0 ==> t[m.Size(m.Child(0, t[z].lead))].bin == t[z].bin
    ensures m.Child(1, t[z].lead) != 0 ==> t[m.Size(m.Child(1, t[z].lead))].bin == t[z].bin
  {
    assert NodeOk(m, t, z) && DownOk(m, t, z, 0) && DownOk(m, t, z, 1);
    if m.Child(0, t[z].lead) != 0 {
      assert NodeOk(m, t, m.Size(m.Child(0, t[z].lead)));
    }
    if m.Child(1, t[z].lead) != 0 {
      assert NodeOk(m, t, m.Size(m.Child(1, t[z].lead)));
    }
  }

  /** Sizes of other bins: lower bins hold nothing that fits, higher bins nothing smaller. */
  lemma OtherBins(m: Tree, t: Nodes, nb: int, s: int, z: int)
    requires Shape(m, t) && Indexed(t) && s in t && z in t
    requires MIN_LARGE_SIZE <= nb && IsWord(nb)
    ensures t[s].bin < TreeIndex(nb) ==> s < nb
    ensures t[s].bin > t[z].bin ==> s > z
    ensures t[s].bin > TreeIndex(nb) ==> s > nb
  {
    assert NodeOk(m, t, s) && NodeOk(m, t, z);
    hide TreeIndex;
    if s >= nb {
      TreeIndexMonotone(nb, s);
    } else {
      TreeIndexMonotone(s, nb);
    }
    if s <= z {
      TreeIndexMonotone(s, z);
    }
  }

  /** The end of the walk: `rst` (if any) holds whatever could still be better. */
  lemma WalkEnds(m: Tree, t: Nodes, nb: int, v: int, rsize: int, rst: int)
    requires Shape(m, t) && Indexed(t) && MIN_LARGE_SIZE <= nb && IsWord(nb)
    requires Candidate(m, t, nb, v, rsize) && InTree(m, t, rst)
    requires WalkCovers(m, t, TreeIndex(nb), nb, rsize, 0, rst)
    requires v != 0 || rst != 0
    requires v != 0 ==> t[m.Size(v)].bin == TreeIndex(nb)
    requires rst != 0 ==> t[m.Size(rst)].bin == TreeIndex(nb)
    ensures DescentCovers(m, t, nb, rsize, rst)
  {
    hide TreeIndex, Shape, Indexed, InSub;
    forall s | s in t && s >= nb
      ensures Held(m, t, nb, rsize, rst, s)
    {
      if t[s].bin != TreeIndex(nb) {
        OtherBins(m, t, nb, s, m.Size(if v != 0 then v else rst));
      }
    }
  }

  /** Bin `i` is the first non-empty one above bin `idx`. */
  ghost predicate FirstAbove(m: Tree, idx: int, i: int)
    requires |m.bins| == NTREEBINS && 0 <= idx
  {
    idx < i < NTREEBINS && m.bins[i] != 0 && forall j :: idx < j < i ==> m.bins[j] == 0
  }

  /** Nothing in the bin of `nb` fits: the next non-empty bin holds the smallest chunk that does. */
  lemma NextBinCovers(m: Tree, t: Nodes, nb: int, a: int)
    requires Shape(m, t) && Indexed(t) && MIN_LARGE_SIZE <= nb && IsWord(nb)
    requires 0 <= TreeIndex(nb) < NTREEBINS
    requires forall s :: s in t && t[s].bin == TreeIndex(nb) ==> s < nb
    requires a == 0 ==> forall j :: TreeIndex(nb) < j < NTREEBINS ==> m.bins[j] == 0
    requires a != 0 ==> exists i :: FirstAbove(m, TreeIndex(nb), i) && m.bins[i] == a
    ensures InTree(m, t, a) && DescentCovers(m, t, nb, W64 - nb, a)
  {
    var idx := TreeIndex(nb);
    var i := if a == 0 then NTREEBINS else var i :| FirstAbove(m, idx, i) && m.bins[i] == a; i;
    if a != 0 {
      assert BinOk(m, t, i) && NodeOk(m, t, m.Size(a));
    }
    hide TreeIndex, Shape;
    forall s | s in t && s >= nb
      ensures Held(m, t, nb, W64 - nb, a, s)
    {
      BelowRoot(m, t, s);
      OtherBins(m, t, nb, s, if a == 0 then s else m.Size(a));
    }
    forall s | a != 0 && InSub(t, s, m.Size(a))
      ensures s >= nb
    {
      OtherBins(m, t, nb, s, s);
    }
  }

  /** leftmost_child. */
  function LeftmostChild(m: Tree, a: int): int {
    if m.Child(0, a) != 0 then m.Child(0, a) else m.Child(1, a)
  }

  /** One step of the descent: the left subtree, when there is one, holds smaller sizes. */
  lemma DescentStep(m: Tree, t: Nodes, nb: int, rsize: int, a: int, r': int)
    requires Shape(m, t) && DescentCovers(m, t, nb, rsize, a) && a != 0 && InTree(m, t, a)
    requires 0 <= r' <= rsize && (m.Size(a) >= nb ==> r' <= m.Size(a) - nb)
    ensures var q := LeftmostChild(m, a);
      && InTree(m, t, q) && DescentCovers(m, t, nb, r', q)
      && (q != 0 ==> t[m.Size(q)].w < t[m.Size(a)].w)
  {
    var z, q := m.Size(a), LeftmostChild(m, a);
    RightChildInTree(m, t, z);
    assert DownOk(m, t, z, 0) && DownOk(m, t, z, 1);
    hide Shape;
    InOwnSub(m, t, z);
    forall s | s in t && s >= nb
      ensures Held(m, t, nb, r', q, s)
    {
      if InSub(t, s, z) && s != z {
        ChildToward(m, t, s, z);
        if m.Child(0, a) != 0 && m.Child(1, a) != 0 && InSub(t, s, m.Size(m.Child(1, a))) {
          InOwnSub(m, t, m.Size(q));
          ChildrenOrdered(m, t, z, m.Size(q), s);
        }
      }
    }
    forall s | q != 0 && r' != 0 && InSub(t, s, m.Size(q))
      ensures s >= nb
    {
      BelowChild(m, t, z, if m.Child(0, a) != 0 then 0 else 1, s);
    }
  }

  // ---- the searches themselves

  /** The walk of tmalloc_large through the bin of `nb`. */
  method WalkBin(m: Mstate, i: int, nb: int) returns (t: int, v: int, rsize: int)
    requires TreesOk(m) && MIN_LARGE_SIZE <= nb && IsWord(nb)
    requires 0 <= i < NTREEBINS && i == TreeIndex(nb) && m.treebins[i] != 0
    ensures Candidate(TreeOf(m), m.nodes, nb, v, rsize) && InTree(TreeOf(m), m.nodes, t)
    ensures v != 0 ==> m.nodes[SizeAt(m.head, v)].bin == i
    ensures t != 0 ==> m.nodes[SizeAt(m.head, t)].bin == i
    ensures t != 0 || v != 0 ==> DescentCovers(TreeOf(m), m.nodes, nb, rsize, t)
    ensures t == 0 && v == 0 ==> forall s :: s in m.nodes && m.nodes[s].bin == i ==> s < nb
  {
    hide TreeIndex;
    ghost var tree, nodes := TreeOf(m), m.nodes;
    WalkStart(tree, nodes, i, nb);
    v, rsize := 0, Sub64(0, nb);
    t := m.treebins[i];
    var sizebits := Shl(nb, LeftShift(i), 64);
    var rst := 0;
    hide Shape, RingsOk, Indexed, Above, OnPath, WalkCovers, DescentCovers, Shr, Shl, Shl1, Bit, LeftShift;
    while true
      invariant Walking(tree, nodes, i, nb, rsize, t, sizebits, rst)
      invariant Candidate(tree, nodes, nb, v, rsize) && InTree(tree, nodes, t)
      invariant t != 0 && nodes[tree.Size(t)].bin == i && rsize > 0
      invariant v != 0 ==> nodes[tree.Size(v)].bin == i
      invariant rst != 0 ==> nodes[tree.Size(rst)].bin == i
      decreases nodes[tree.Size(t)].w
    {
      BetterCandidate(tree, nodes, nb, v, rsize, t);
      ghost var r0 := rsize;
      var trem := Sub64(SizeAt(m.head, t), nb);
      if trem < rsize {
        v := t;
        rsize := trem;
        if rsize == 0 {
          ExactCovers(tree, nodes, nb, t);
          return;
        }
      }
      WalkStep(tree, nodes, i, nb, r0, t, sizebits, rst, rsize);
      RightChildInTree(tree, nodes, tree.Size(t));
      var rt := At(m.child1, t);
      t := TreeOf(m).Child(Bit(sizebits, 63), t);
      if rt != 0 && rt != t {
        rst := rt;
      }
      if t == 0 {
        t := rst;
        break;
      }
      sizebits := Shl1(sizebits, 64);
    }
    if t != 0 || v != 0 {
      WalkEnds(tree, nodes, nb, v, rsize, t);
    } else {
      WalkFails(tree, nodes, i, nb);
    }
  }

  lemma WalkStart(m: Tree, t: Nodes, i: int, nb: int)
    requires Shape(m, t) && Indexed(t) && MIN_LARGE_SIZE <= nb && IsWord(nb)
    requires 0 <= i < NTREEBINS && i == TreeIndex(nb) && m.bins[i] != 0
    ensures nb < Pow2(64) && Walking(m, t, i, nb, W64 - nb, m.bins[i], Shl(nb, LeftShift(i), 64), 0)
    ensures InTree(m, t, m.bins[i]) && t[m.Size(m.bins[i])].bin == i
    ensures Candidate(m, t, nb, 0, W64 - nb)
  {
    PathStart(m, t, i, nb);
    assert BinOk(m, t, i) && NodeOk(m, t, m.Size(m.bins[i]));
    hide TreeIndex;
    forall s | s in t && t[s].bin == i
      ensures InSub(t, s, m.Size(m.bins[i]))
    {
      BelowRoot(m, t, s);
    }
  }

  lemma ExactCovers(m: Tree, t: Nodes, nb: int, a: int)
    ensures DescentCovers(m, t, nb, 0, a)
  {}

  lemma WalkFails(m: Tree, t: Nodes, i: int, nb: int)
    requires Shape(m, t) && WalkCovers(m, t, i, nb, W64 - nb, 0, 0)
    ensures forall s :: s in t && t[s].bin == i ==> s < nb
  {
    forall s | s in t && t[s].bin == i
      ensures s < nb
    {
      assert NodeOk(m, t, s);
    }
  }

  /** The first chunk of the next non-empty bin. */
  method NextRoot(m: Mstate, nb: int) returns (t: int)
    requires TreesOk(m) && MIN_LARGE_SIZE <= nb && IsWord(nb)
    requires forall s :: s in m.nodes && m.nodes[s].bin == TreeIndex(nb) ==> s < nb
    ensures InTree(TreeOf(m), m.nodes, t) && DescentCovers(TreeOf(m), m.nodes, nb, W64 - nb, t)
  {
    TreeIndexBrackets(nb);
    var idx := TreeIndex(nb);
    NextBin(m.treemap, idx);
    BinsOfMap(TreeOf(m), m.nodes);
    hide TreeIndex, Shape, Marked, And, LeftBits, LeastBit, Bit2Idx, DescentCovers;
    t := 0;
    var leftbits := And(LeftBits(IdxBit(idx)), m.treemap);
    if leftbits != 0 {
      var i := Bit2Idx(LeastBit(leftbits));
      t := m.treebins[i];
      assert FirstAbove(TreeOf(m), idx, i);
    }
    NextBinCovers(TreeOf(m), m.nodes, nb, t);
  }

  lemma BinsOfMap(m: Tree, t: Nodes)
    requires Shape(m, t)
    ensures |m.bins| == NTREEBINS && IsMap(m.treemap)
    ensures forall i :: 0 <= i < NTREEBINS ==> (Marked(m.treemap, i) <==> m.bins[i] != 0)
  {
    forall i | 0 <= i < NTREEBINS
      ensures Marked(m.treemap, i) <==> m.bins[i] != 0
    {
      assert BinOk(m, t, i);
    }
  }

  /** The leftmost descent: the candidate ends up smallest among all sizes that fit. */
  method Descend(m: Mstate, nb: int, t0: int, v0: int, rsize0: int) returns (v: int, rsize: int)
    requires TreesOk(m) && 0 < nb && IsWord(nb)
    requires Candidate(TreeOf(m), m.nodes, nb, v0, rsize0) && InTree(TreeOf(m), m.nodes, t0)
    requires DescentCovers(TreeOf(m), m.nodes, nb, rsize0, t0)
    ensures Candidate(TreeOf(m), m.nodes, nb, v, rsize)
    ensures forall s :: s in m.nodes && s >= nb ==> s - nb >= rsize
  {
    ghost var tree, nodes := TreeOf(m), m.nodes;
    assert Shape(tree, nodes);
    hide TreesInv, Shape, DescentCovers;
    var t := t0;
    v, rsize := v0, rsize0;
    while t != 0
      invariant Candidate(tree, nodes, nb, v, rsize) && InTree(tree, nodes, t)
      invariant DescentCovers(tree, nodes, nb, rsize, t)
      decreases t != 0, if t != 0 then nodes[tree.Size(t)].w else 0
    {
      BetterCandidate(tree, nodes, nb, v, rsize, t);
      ghost var r0 := rsize;
      var trem := Sub64(SizeAt(m.head, t), nb);
      if trem < rsize {
        rsize := trem;
        v := t;
      }
      DescentStep(tree, nodes, nb, r0, t, rsize);
      t := LeftmostChild(TreeOf(m), t);
    }
    DescentEnds(tree, nodes, nb, rsize);
  }

  lemma DescentEnds(m: Tree, t: Nodes, nb: int, rsize: int)
    requires DescentCovers(m, t, nb, rsize, 0)
    ensures forall s :: s in t && s >= nb ==> s - nb >= rsize
  {
    forall s | s in t && s >= nb
      ensures s - nb >= rsize
    {
      assert Held(m, t, nb, rsize, 0, s);
    }
  }

  /** The search of tmalloc_large: the smallest tree chunk that holds `nb` bytes, or none. */
  method FindBestFit(m: Mstate, nb: int) returns (v: int, rsize: int)
    requires TreesOk(m) && MIN_LARGE_SIZE <= nb && IsWord(nb)
    ensures v == 0 ==> rsize == W64 - nb && forall s :: s in m.nodes ==> s < nb
    ensures v != 0 ==>
      && SizeAt(m.head, v) in m.nodes && m.nodes[SizeAt(m.head, v)].lead == v
      && rsize == SizeAt(m.head, v) - nb && rsize >= 0
      && forall s :: s in m.nodes && s >= nb ==> SizeAt(m.head, v) <= s
  {
    TreeIndexBrackets(nb);
    var idx := TreeIndex(nb);
    hide TreeIndex;
    var t := m.treebins[idx];
    v, rsize := 0, Sub64(0, nb);
    if t != 0 {
      t, v, rsize := WalkBin(m, idx, nb);
    } else {
      EmptyBin(TreeOf(m), m.nodes, idx);
    }
    if t == 0 && v == 0 {
      t := NextRoot(m, nb);
    }
    AllWords(TreeOf(m), m.nodes);
    hide TreesInv, DescentCovers;
    v, rsize := Descend(m, nb, t, v, rsize);
  }

  lemma EmptyBin(m: Tree, t: Nodes, i: int)
    requires Shape(m, t) && 0 <= i < NTREEBINS && m.bins[i] == 0
    ensures forall s :: s in t ==> t[s].bin != i
  {
    forall s | s in t
      ensures t[s].bin != i
    {
      BelowRoot(m, t, s);
    }
  }

  lemma AllWords(m: Tree, t: Nodes)
    requires Shape(m, t)
    ensures forall s :: s in t ==> MIN_LARGE_SIZE <= s && IsWord(s)
  {
    forall s | s in t
      ensures MIN_LARGE_SIZE <= s && IsWord(s)
    {
      assert NodeOk(m, t, s);
    }
  }

  /** The search of tmalloc_small: the smallest tree chunk of all. */
  method FindSmallest(m: Mstate, nb: int) returns (v: int, rsize: int)
    requires TreesOk(m) && m.treemap != 0 && 0 < nb < MIN_LARGE_SIZE
    ensures SizeAt(m.head, v) in m.nodes && m.nodes[SizeAt(m.head, v)].lead == v
    ensures rsize == SizeAt(m.head, v) - nb && rsize > 0
    ensures forall s :: s in m.nodes ==> SizeAt(m.head, v) <= s
  {
    BinsOfMap(TreeOf(m), m.nodes);
    LeastBitIsLowestBin(m.treemap);
    AllWords(TreeOf(m), m.nodes);
    var i := Bit2Idx(LeastBit(m.treemap));
    var t := m.treebins[i];
    FirstRoot(TreeOf(m), m.nodes, nb, i);
    hide DescentCovers, LeastBit, Bit2Idx, Shape, InSub;
    v := t;
    rsize := Sub64(SizeAt(m.head, t), nb);
    DescentStep(TreeOf(m), m.nodes, nb, W64 - nb, t, rsize);
    t := LeftmostChild(TreeOf(m), t);
    hide TreesInv;
    v, rsize := Descend(m, nb, t, v, rsize);
  }

  lemma FirstRoot(m: Tree, t: Nodes, nb: int, i: int)
    requires Shape(m, t) && Indexed(t) && 0 < nb < MIN_LARGE_SIZE
    requires 0 <= i < NTREEBINS && m.bins[i] != 0 && forall j :: 0 <= j < i ==> m.bins[j] == 0
    ensures InTree(m, t, m.bins[i]) && DescentCovers(m, t, nb, W64 - nb, m.bins[i])
    ensures Candidate(m, t, nb, 0, W64 - nb) && t != map[]
  {
    assert BinOk(m, t, i);
    var r := m.Size(m.bins[i]);
    assert NodeOk(m, t, r);
    hide Shape, TreeIndex;
    AllWords(m, t);
    forall s | s in t
      ensures InSub(t, s, r) || s >= r
    {
      BelowRoot(m, t, s);
      OtherBins(m, t, MIN_LARGE_SIZE, s, r);
    }
  }
}
