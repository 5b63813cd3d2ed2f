/** The tries of large free chunks: shape of the tree threaded through memory. */
module Trie {
  import opened Words
  import opened BinIndex
  import opened BinMaps
  import opened Rings

  /** Size and use bits packed in a chunk's `head` word. */
  datatype Head = Head(size: int, cinuse: bool, pinuse: bool)

  type Heads = map<int, Head>

  function HeadAt(h: Heads, a: int): Head {
    if a in h then h[a] else Head(0, false, false)
  }

  function SizeAt(h: Heads, a: int): int {
    HeadAt(h, a).size
  }

  /** The words that make up the trees: chunk links, the bin array and its map. */
  datatype Tree = Tree(head: Heads, child0: Field, child1: Field, parent: Field,
                       bins: seq<int>, treemap: Binmap)
  {
    function Child(c: int, a: int): int {
      if c == 0 then At(child0, a) else At(child1, a)
    }

    function Size(a: int): int {
      SizeAt(head, a)
    }
  }

  /** Everything known about one size: the chunk in the tree, all chunks of that size in ring
      order, the bin, and the number of size bits its subtree still has to resolve. */
  datatype Node = Node(lead: int, ring: seq<int>, bin: int, w: nat)

  /** The trie nodes, by chunk size. */
  type Nodes = map<int, Node>

  /** Address of the bin slot `i`, used as the parent of a root; never a chunk address. */
  function TreeBinAt(i: int): int {
    -1000 - i
  }

  ghost predicate ParentOk(m: Tree, t: Nodes, s: int, p: int)
    requires s in t && s >= 0
  {
    && p > 0
    && m.Size(p) in t && m.Size(p) >= 0
    && var q := t[m.Size(p)];
    && q.lead == p && q.bin == t[s].bin && q.w == t[s].w + 1
    && Shr(m.Size(p), q.w) == Shr(s, q.w)
    && m.Child(Bit(s, t[s].w), p) == t[s].lead
  }

  ghost predicate ChildOk(m: Tree, t: Nodes, s: int, c: int, q: int)
    requires s in t && s >= 0
  {
    && q > 0
    && m.Size(q) in t && m.Size(q) >= 0
    && var k := t[m.Size(q)];
    && k.lead == q && k.bin == t[s].bin && k.w + 1 == t[s].w
    && Shr(m.Size(q), t[s].w) == Shr(s, t[s].w)
    && Bit(m.Size(q), k.w) == c
    && At(m.parent, q) == t[s].lead
  }

  ghost predicate NodeOk(m: Tree, t: Nodes, s: int)
    requires s in t
  {
    var n := t[s];
    && MIN_LARGE_SIZE <= s && IsWord(s)
    && 0 <= n.bin < NTREEBINS && n.w <= BinWidth(n.bin)
    && n.lead > 0 && m.Size(n.lead) == s
  }

  ghost predicate UpOk(m: Tree, t: Nodes, s: int)
    requires s in t && NodeOk(m, t, s) && |m.bins| == NTREEBINS
  {
    var n := t[s];
    if n.w == BinWidth(n.bin)
    then m.bins[n.bin] == n.lead && At(m.parent, n.lead) == TreeBinAt(n.bin)
    else ParentOk(m, t, s, At(m.parent, n.lead))
  }

  ghost predicate DownOk(m: Tree, t: Nodes, s: int, c: int)
    requires s in t && s >= 0
  {
    var q := m.Child(c, t[s].lead);
    q != 0 ==> ChildOk(m, t, s, c, q)
  }

  ghost predicate BinOk(m: Tree, t: Nodes, i: int)
    requires |m.bins| == NTREEBINS && 0 <= i < NTREEBINS
  {
    && (Marked(m.treemap, i) <==> m.bins[i] != 0)
    && (m.bins[i] != 0 ==>
      var s := m.Size(m.bins[i]);
      s in t && t[s].lead == m.bins[i] && t[s].bin == i && t[s].w == BinWidth(i))
  }

  /** Parent and child links agree, every subtree shares the size bits its path has resolved, and
      a bin's bit is set exactly when it has a root. */
  ghost predicate Shape(m: Tree, t: Nodes) {
    && |m.bins| == NTREEBINS && IsMap(m.treemap)
    && (forall s {:trigger NodeOk(m, t, s)} :: s in t ==> NodeOk(m, t, s))
    && (forall s {:trigger UpOk(m, t, s)} :: s in t ==> NodeOk(m, t, s) && UpOk(m, t, s))
    && (forall s {:trigger DownOk(m, t, s, 0)} {:trigger DownOk(m, t, s, 1)} :: s in t ==>
         NodeOk(m, t, s) && DownOk(m, t, s, 0) && DownOk(m, t, s, 1))
    && (forall i {:trigger BinOk(m, t, i)} :: 0 <= i < NTREEBINS ==> BinOk(m, t, i))
  }

  // ---- putting a new leaf into an empty slot

  /** The memory after the childless `x` has been hung below `p`, or made the root of bin `i` when
      `p` is that bin. */
  function Hang(m: Tree, i: int, p: int, c: int, x: int): Tree
    requires |m.bins| == NTREEBINS && 0 <= i < NTREEBINS
  {
    var m1 := m.(parent := m.parent[x := p]);
    if p == TreeBinAt(i) then m1.(bins := m.bins[i := x], treemap := Mark(m.treemap, i))
    else if c == 0 then m1.(child0 := m1.child0[p := x])
    else m1.(child1 := m1.child1[p := x])
  }

  ghost predicate CanHang(m: Tree, t: Nodes, i: int, p: int, c: int, x: int, s: int, w: nat) {
    && Shape(m, t) && s !in t && MIN_LARGE_SIZE <= s && IsWord(s)
    && x > 0 && m.Size(x) == s && 0 <= i < NTREEBINS
    && m.Child(0, x) == 0 && m.Child(1, x) == 0
    && if p == TreeBinAt(i) then w == BinWidth(i) && m.bins[i] == 0
       else
         && p > 0 && m.Size(p) in t && m.Size(p) >= 0
         && t[m.Size(p)].lead == p && t[m.Size(p)].bin == i && t[m.Size(p)].w == w + 1
         && Shr(m.Size(p), w + 1) == Shr(s, w + 1) && Bit(s, w) == c && m.Child(c, p) == 0
  }

  lemma HangUp(m: Tree, t: Nodes, i: int, p: int, c: int, x: int, s: int, w: nat, ring: seq<int>, k: int)
    requires CanHang(m, t, i, p, c, x, s, w) && k in t
    ensures var m', t' := Hang(m, i, p, c, x), t[s := Node(x, ring, i, w)];
      NodeOk(m', t', k) && UpOk(m', t', k)
  {
    assert NodeOk(m, t, k) && UpOk(m, t, k);
    hide Shr, Bit, Mark, Marked, Shape;
    var m', n := Hang(m, i, p, c, x), t[k];
    assert At(m'.parent, n.lead) == At(m.parent, n.lead);
    if n.w != BinWidth(n.bin) {
      assert m'.Child(Bit(k, n.w), At(m.parent, n.lead)) == n.lead;
    }
  }

  lemma HangDownSlot(m: Tree, t: Nodes, i: int, p: int, c: int, x: int, s: int, w: nat, ring: seq<int>, k: int)
    requires CanHang(m, t, i, p, c, x, s, w) && k in t && p == t[k].lead && p != TreeBinAt(i)
    ensures NodeOk(m, t, k)
    ensures DownOk(Hang(m, i, p, c, x), t[s := Node(x, ring, i, w)], k, c)
  {
    assert NodeOk(m, t, k);
    hide Shr, Bit, Mark, Marked, Shape;
  }

  lemma HangDown(m: Tree, t: Nodes, i: int, p: int, c: int, x: int, s: int, w: nat, ring: seq<int>, k: int, d: int)
    requires CanHang(m, t, i, p, c, x, s, w) && k in t && (d == 0 || d == 1)
    requires p != t[k].lead || c != d
    ensures NodeOk(m, t, k)
    ensures DownOk(Hang(m, i, p, c, x), t[s := Node(x, ring, i, w)], k, d)
  {
    assert NodeOk(m, t, k) && DownOk(m, t, k, d);
    hide Shr, Bit, Mark, Marked, Shape;
    assert Hang(m, i, p, c, x).Child(d, t[k].lead) == m.Child(d, t[k].lead);
  }

  lemma HangDowns(m: Tree, t: Nodes, i: int, p: int, c: int, x: int, s: int, w: nat, ring: seq<int>, k: int)
    requires CanHang(m, t, i, p, c, x, s, w) && k in t
    ensures NodeOk(m, t, k)
    ensures var m', t' := Hang(m, i, p, c, x), t[s := Node(x, ring, i, w)];
      DownOk(m', t', k, 0) && DownOk(m', t', k, 1)
  {
    assert NodeOk(m, t, k);
    hide Shr, Bit, Shape, DownOk, Hang;
    if p == t[k].lead {
      HangDownSlot(m, t, i, p, c, x, s, w, ring, k);
      HangDown(m, t, i, p, c, x, s, w, ring, k, 1 - c);
    } else {
      HangDown(m, t, i, p, c, x, s, w, ring, k, 0);
      HangDown(m, t, i, p, c, x, s, w, ring, k, 1);
    }
  }

  lemma HangNew(m: Tree, t: Nodes, i: int, p: int, c: int, x: int, s: int, w: nat, ring: seq<int>)
    requires CanHang(m, t, i, p, c, x, s, w)
    ensures var m', t' := Hang(m, i, p, c, x), t[s := Node(x, ring, i, w)];
      NodeOk(m', t', s) && UpOk(m', t', s) && DownOk(m', t', s, 0) && DownOk(m', t', s, 1)
  {
    hide Shr, Bit, Mark, Marked;
    if p != TreeBinAt(i) {
      assert NodeOk(m, t, m.Size(p));
    }
  }

  lemma HangBin(m: Tree, t: Nodes, i: int, p: int, c: int, x: int, s: int, w: nat, ring: seq<int>, j: int)
    requires CanHang(m, t, i, p, c, x, s, w) && 0 <= j < NTREEBINS
    ensures BinOk(Hang(m, i, p, c, x), t[s := Node(x, ring, i, w)], j)
  {
    hide Shr, Bit, Mark, Marked;
    assert BinOk(m, t, j);
    MarkMarks(m.treemap, i, j);
  }

  lemma HangShape(m: Tree, t: Nodes, i: int, p: int, c: int, x: int, s: int, w: nat, ring: seq<int>)
    requires CanHang(m, t, i, p, c, x, s, w)
    ensures Shape(Hang(m, i, p, c, x), t[s := Node(x, ring, i, w)])
  {
    var m', t' := Hang(m, i, p, c, x), t[s := Node(x, ring, i, w)];
    MarkMarks(m.treemap, i, i);
    hide Shr, Bit, Mark, Marked, NodeOk, UpOk, DownOk, BinOk;
    forall k | k in t'
      ensures NodeOk(m', t', k) && UpOk(m', t', k) && DownOk(m', t', k, 0) && DownOk(m', t', k, 1)
    {
      if k == s {
        HangNew(m, t, i, p, c, x, s, w, ring);
      } else {
        HangUp(m, t, i, p, c, x, s, w, ring, k);
        HangDowns(m, t, i, p, c, x, s, w, ring, k);
      }
    }
    forall j | 0 <= j < NTREEBINS
      ensures BinOk(m', t', j)
    {
      HangBin(m, t, i, p, c, x, s, w, ring, j);
    }
  }

  // ---- cutting off a leaf

  /** The memory after a slot has been set to `r`: child `c` of `p`, or bin `i` when `p` is that bin. */
  function SetSlot(m: Tree, i: int, p: int, c: int, r: int): Tree
    requires |m.bins| == NTREEBINS && 0 <= i < NTREEBINS && IsMap(m.treemap)
  {
    if p == TreeBinAt(i) then
      m.(bins := m.bins[i := r], treemap := if r == 0 then Clear(m.treemap, i) else m.treemap)
    else if c == 0 then m.(child0 := m.child0[p := r])
    else m.(child1 := m.child1[p := r])
  }

  ghost predicate CanPrune(m: Tree, t: Nodes, i: int, p: int, c: int, r: int) {
    && Shape(m, t) && r in t
    && m.Child(0, t[r].lead) == 0 && m.Child(1, t[r].lead) == 0
    && t[r].bin == i && 0 <= i < NTREEBINS
    && At(m.parent, t[r].lead) == p
    && (p != TreeBinAt(i) ==> (c == 0 || c == 1) && m.Child(c, p) == t[r].lead)
  }

  /** Only the slot of the leaf changes, and only the leaf sat in it. */
  lemma PruneReads(m: Tree, t: Nodes, i: int, p: int, c: int, r: int)
    requires CanPrune(m, t, i, p, c, r)
    ensures var m' := SetSlot(m, i, p, c, 0);
      && m'.parent == m.parent && m'.head == m.head
      && (p == TreeBinAt(i) ==> m'.child0 == m.child0 && m'.child1 == m.child1 && m'.bins == m.bins[i := 0])
      && (p != TreeBinAt(i) ==> m'.bins == m.bins && m'.Child(c, p) == 0)
      && (forall q, d :: (d == 0 || d == 1) && (q != p || d != c) ==> m'.Child(d, q) == m.Child(d, q))
  {
    assert NodeOk(m, t, r) && UpOk(m, t, r);
    hide Shr, Bit, Shape, NodeOk, UpOk, Clear;
  }

  lemma PruneUp(m: Tree, t: Nodes, i: int, p: int, c: int, r: int, k: int)
    requires CanPrune(m, t, i, p, c, r) && k in t && k != r
    ensures NodeOk(SetSlot(m, i, p, c, 0), t - {r}, k) && UpOk(SetSlot(m, i, p, c, 0), t - {r}, k)
  {
    PruneReads(m, t, i, p, c, r);
    assert NodeOk(m, t, k) && UpOk(m, t, k) && NodeOk(m, t, r) && UpOk(m, t, r);
    hide Shr, Bit, Shape, SetSlot, Tree.Child;
    var m', n := SetSlot(m, i, p, c, 0), t[k];
    if n.w != BinWidth(n.bin) {
      var u := At(m.parent, n.lead);
      assert u != t[r].lead;
      assert m'.Child(Bit(k, n.w), u) == n.lead;
    }
  }

  lemma PruneDown(m: Tree, t: Nodes, i: int, p: int, c: int, r: int, k: int, d: int)
    requires CanPrune(m, t, i, p, c, r) && k in t && k != r && (d == 0 || d == 1)
    ensures NodeOk(m, t, k) && DownOk(SetSlot(m, i, p, c, 0), t - {r}, k, d)
  {
    PruneReads(m, t, i, p, c, r);
    assert NodeOk(m, t, k) && DownOk(m, t, k, d) && NodeOk(m, t, r) && UpOk(m, t, r);
    hide Shr, Bit, Shape, SetSlot, Tree.Child;
    if m.Child(d, t[k].lead) == t[r].lead {
      assert p == t[k].lead;
    }
  }

  lemma PruneBin(m: Tree, t: Nodes, i: int, p: int, c: int, r: int, j: int)
    requires CanPrune(m, t, i, p, c, r) && 0 <= j < NTREEBINS
    ensures BinOk(SetSlot(m, i, p, c, 0), t - {r}, j)
  {
    assert NodeOk(m, t, r) && UpOk(m, t, r) && BinOk(m, t, j);
    ClearClears(m.treemap, i, j);
    hide Shr, Bit, Clear, Marked, Shape;
    if m.bins[j] == t[r].lead {
      assert p == TreeBinAt(i);
    }
  }

  lemma PruneShape(m: Tree, t: Nodes, i: int, p: int, c: int, r: int)
    requires CanPrune(m, t, i, p, c, r)
    ensures Shape(SetSlot(m, i, p, c, 0), t - {r})
  {
    var m', t' := SetSlot(m, i, p, c, 0), t - {r};
    ClearClears(m.treemap, i, i);
    hide Shr, Bit, Clear, Marked, NodeOk, UpOk, DownOk, BinOk;
    forall k | k in t'
      ensures NodeOk(m', t', k) && UpOk(m', t', k) && DownOk(m', t', k, 0) && DownOk(m', t', k, 1)
    {
      PruneUp(m, t, i, p, c, r, k);
      PruneDown(m, t, i, p, c, r, k, 0);
      PruneDown(m, t, i, p, c, r, k, 1);
    }
    forall j | 0 <= j < NTREEBINS
      ensures BinOk(m', t', j)
    {
      PruneBin(m, t, i, p, c, r, j);
    }
  }

  // ---- putting one chunk in the place of another

  /** The memory after `r` has taken over the parent `p` and the children of `x`. */
  function Adopt(m: Tree, x: int, p: int, r: int): Tree {
    var c0, c1 := m.Child(0, x), m.Child(1, x);
    var up := m.parent[r := p];
    var up0 := if c0 != 0 then up[c0 := r] else up;
    m.(child0 := if c0 != 0 then m.child0[r := c0] else m.child0,
       child1 := if c1 != 0 then m.child1[r := c1] else m.child1,
       parent := if c1 != 0 then up0[c1 := r] else up0)
  }

  /** The memory after `r` has taken the tree position of `x`, which was child `c` of `p` or the
      root of bin `i`. */
  function Graft(m: Tree, i: int, p: int, c: int, x: int, r: int): Tree
    requires |m.bins| == NTREEBINS && 0 <= i < NTREEBINS && IsMap(m.treemap)
  {
    Adopt(SetSlot(m, i, p, c, r), x, p, r)
  }

  ghost predicate CanGraft(m: Tree, t: Nodes, i: int, p: int, c: int, s: int, r: int, a: int) {
    && Shape(m, t) && s in t && s >= 0
    && t[s].bin == i && 0 <= i < NTREEBINS
    && At(m.parent, t[s].lead) == p
    && (p != TreeBinAt(i) ==> c == Bit(s, t[s].w))
    && a > 0 && a != t[s].lead && m.Size(a) == r && MIN_LARGE_SIZE <= r && IsWord(r)
    && (r == s || r !in t) && Shr(r, t[s].w) == Shr(s, t[s].w)
    && m.Child(0, a) == 0 && m.Child(1, a) == 0
  }

  /** The places that a graft writes are different. */
  lemma GraftPlaces(m: Tree, t: Nodes, i: int, p: int, c: int, s: int, r: int, a: int)
    requires CanGraft(m, t, i, p, c, s, r, a)
    ensures s in t && 0 <= i < NTREEBINS && |m.bins| == NTREEBINS && IsMap(m.treemap) && a > 0 && a != t[s].lead
    ensures var x := t[s].lead;
      var c0, c1 := m.Child(0, x), m.Child(1, x);
      && (c0 != 0 ==> c0 != a && c0 != c1) && (c1 != 0 ==> c1 != a)
      && m.Child(0, a) == 0 && m.Child(1, a) == 0
      && (p != TreeBinAt(i) ==> p != a && p != x && m.Child(c, p) == x && (c == 0 || c == 1))
      && x != 0
  {
    assert NodeOk(m, t, s) && UpOk(m, t, s) && DownOk(m, t, s, 0) && DownOk(m, t, s, 1);
    hide Shr, Bit, Shape;
  }

  lemma SlotReads(m: Tree, i: int, p: int, c: int, r: int)
    requires |m.bins| == NTREEBINS && 0 <= i < NTREEBINS && IsMap(m.treemap) && r != 0 && (p != TreeBinAt(i) ==> c == 0 || c == 1)
    ensures var m' := SetSlot(m, i, p, c, r);
      && m'.head == m.head && m'.parent == m.parent && m'.treemap == m.treemap
      && m'.bins == (if p == TreeBinAt(i) then m.bins[i := r] else m.bins)
      && (p != TreeBinAt(i) ==> m'.Child(c, p) == r)
      && (forall q, d :: (d == 0 || d == 1) && (p == TreeBinAt(i) || q != p || d != c) ==> m'.Child(d, q) == m.Child(d, q))
  {}

  lemma AdoptReads(m: Tree, x: int, p: int, r: int)
    requires var c0, c1 := m.Child(0, x), m.Child(1, x);
      r != x && (c0 != 0 ==> c0 != r && c0 != c1) && (c1 != 0 ==> c1 != r)
    ensures var m' := Adopt(m, x, p, r);
      var c0, c1 := m.Child(0, x), m.Child(1, x);
      && m'.head == m.head && m'.bins == m.bins && m'.treemap == m.treemap && At(m'.parent, r) == p
      && (c0 != 0 ==> At(m'.parent, c0) == r) && (c1 != 0 ==> At(m'.parent, c1) == r)
      && (forall q :: q != r && q != c0 && q != c1 ==> At(m'.parent, q) == At(m.parent, q))
      && m'.Child(0, r) == (if c0 != 0 then c0 else m.Child(0, r)) && m'.Child(1, r) == (if c1 != 0 then c1 else m.Child(1, r))
      && (forall q, d :: (d == 0 || d == 1) && q != r ==> m'.Child(d, q) == m.Child(d, q))
  {}

  /** Reading the memory of a graft, away from and at the places it writes. */
  lemma GraftReads(m: Tree, t: Nodes, i: int, p: int, c: int, s: int, r: int, a: int)
    requires CanGraft(m, t, i, p, c, s, r, a)
    ensures var x := t[s].lead;
      var m' := Graft(m, i, p, c, x, a);
      var c0, c1 := m.Child(0, x), m.Child(1, x);
      && m'.head == m.head && m'.treemap == m.treemap
      && m'.bins == (if p == TreeBinAt(i) then m.bins[i := a] else m.bins)
      && At(m'.parent, a) == p
      && (c0 != 0 ==> c0 != a && At(m'.parent, c0) == a) && (c1 != 0 ==> c1 != a && At(m'.parent, c1) == a)
      && (forall q :: q != a && q != c0 && q != c1 ==> At(m'.parent, q) == At(m.parent, q))
      && m'.Child(0, a) == c0 && m'.Child(1, a) == c1
      && (p != TreeBinAt(i) ==> p != a && p != x && m.Child(c, p) == x && m'.Child(c, p) == a)
      && (forall q, d :: (d == 0 || d == 1) && q != a && (q != p || d != c) ==> m'.Child(d, q) == m.Child(d, q))
  {
    hide CanGraft, Adopt, SetSlot, Tree.Child;
    GraftPlaces(m, t, i, p, c, s, r, a);
    SlotReads(m, i, p, c, a);
    AdoptReads(SetSlot(m, i, p, c, a), t[s].lead, p, a);
  }

  /** The children of `x` get `a` as parent. */
  lemma GraftUpChild(m: Tree, t: Nodes, i: int, p: int, c: int, s: int, r: int, a: int, ring: seq<int>, k: int)
    requires CanGraft(m, t, i, p, c, s, r, a) && k in t && k != s
    requires NodeOk(m, t, k) && t[k].w != BinWidth(t[k].bin) && At(m.parent, t[k].lead) == t[s].lead
    ensures var m', t' := Graft(m, i, p, c, t[s].lead, a), (t - {s})[r := Node(a, ring, i, t[s].w)];
      k != r && NodeOk(m', t', k) && UpOk(m', t', k)
  {
    GraftReads(m, t, i, p, c, s, r, a);
    assert NodeOk(m, t, k) && UpOk(m, t, k) && NodeOk(m, t, s);
    hide Shr, Bit, Shape, Graft, Tree.Child, Tree.Size, DownOk;
    assert t[k].lead == m.Child(Bit(k, t[k].w), t[s].lead);
  }

  lemma GraftUp(m: Tree, t: Nodes, i: int, p: int, c: int, s: int, r: int, a: int, ring: seq<int>, k: int)
    requires CanGraft(m, t, i, p, c, s, r, a) && k in t && k != s
    requires At(m.parent, t[k].lead) != t[s].lead
    ensures var m', t' := Graft(m, i, p, c, t[s].lead, a), (t - {s})[r := Node(a, ring, i, t[s].w)];
      k != r && NodeOk(m', t', k) && UpOk(m', t', k)
  {
    GraftReads(m, t, i, p, c, s, r, a);
    assert NodeOk(m, t, k) && UpOk(m, t, k) && NodeOk(m, t, s) && UpOk(m, t, s);
    assert DownOk(m, t, s, 0) && DownOk(m, t, s, 1);
    hide Shr, Bit, Shape, Graft, Tree.Child, Tree.Size;
    var m', n := Graft(m, i, p, c, t[s].lead, a), t[k];
    assert At(m'.parent, n.lead) == At(m.parent, n.lead);
    if n.w != BinWidth(n.bin) {
      assert m'.Child(Bit(k, n.w), At(m.parent, n.lead)) == n.lead;
    }
  }

  /** The slot that held `x` leads to `a`. */
  lemma GraftDownSlot(m: Tree, t: Nodes, i: int, p: int, c: int, s: int, r: int, a: int, ring: seq<int>, k: int, d: int)
    requires CanGraft(m, t, i, p, c, s, r, a) && k in t && k != s && (d == 0 || d == 1)
    requires m.Child(d, t[k].lead) == t[s].lead
    ensures var m', t' := Graft(m, i, p, c, t[s].lead, a), (t - {s})[r := Node(a, ring, i, t[s].w)];
      k != r && k >= 0 && DownOk(m', t', k, d)
  {
    GraftReads(m, t, i, p, c, s, r, a);
    assert NodeOk(m, t, k) && DownOk(m, t, k, d) && NodeOk(m, t, s);
    assert p == t[k].lead && c == d;
    ShrCoarser(r, s, t[s].w, t[s].w + 1);
    assert Bit(r, t[s].w) == Bit(s, t[s].w);
    hide Shr, Bit, Shape, Graft, Tree.Child, Tree.Size, UpOk;
  }

  lemma GraftDown(m: Tree, t: Nodes, i: int, p: int, c: int, s: int, r: int, a: int, ring: seq<int>, k: int, d: int)
    requires CanGraft(m, t, i, p, c, s, r, a) && k in t && k != s && (d == 0 || d == 1)
    requires m.Child(d, t[k].lead) != t[s].lead
    ensures var m', t' := Graft(m, i, p, c, t[s].lead, a), (t - {s})[r := Node(a, ring, i, t[s].w)];
      k != r && k >= 0 && DownOk(m', t', k, d)
  {
    GraftReads(m, t, i, p, c, s, r, a);
    assert NodeOk(m, t, k) && DownOk(m, t, k, d) && NodeOk(m, t, s);
    assert DownOk(m, t, s, 0) && DownOk(m, t, s, 1);
    hide Shr, Bit, Shape, Graft, Tree.Child, Tree.Size, UpOk;
    assert Graft(m, i, p, c, t[s].lead, a).Child(d, t[k].lead) == m.Child(d, t[k].lead);
  }

  lemma GraftNew(m: Tree, t: Nodes, i: int, p: int, c: int, s: int, r: int, a: int, ring: seq<int>)
    requires CanGraft(m, t, i, p, c, s, r, a)
    ensures var m', t' := Graft(m, i, p, c, t[s].lead, a), (t - {s})[r := Node(a, ring, i, t[s].w)];
      NodeOk(m', t', r) && UpOk(m', t', r) && DownOk(m', t', r, 0) && DownOk(m', t', r, 1)
  {
    GraftReads(m, t, i, p, c, s, r, a);
    ShrCoarser(r, s, t[s].w, t[s].w + 1);
    assert NodeOk(m, t, s) && UpOk(m, t, s);
    assert DownOk(m, t, s, 0) && DownOk(m, t, s, 1);
    assert Bit(r, t[s].w) == Bit(s, t[s].w);
    hide Shr, Bit, Shape, Graft, Tree.Child, Tree.Size;
  }

  lemma GraftOld(m: Tree, t: Nodes, i: int, p: int, c: int, s: int, r: int, a: int, ring: seq<int>, k: int)
    requires CanGraft(m, t, i, p, c, s, r, a) && k in t && k != s
    ensures var m', t' := Graft(m, i, p, c, t[s].lead, a), (t - {s})[r := Node(a, ring, i, t[s].w)];
      k != r && NodeOk(m', t', k) && UpOk(m', t', k) && DownOk(m', t', k, 0) && DownOk(m', t', k, 1)
  {
    assert UpOk(m, t, k) && NodeOk(m, t, k) && NodeOk(m, t, s);
    hide Shr, Bit, Shape, Graft, DownOk;
    if At(m.parent, t[k].lead) == t[s].lead {
      GraftUpChild(m, t, i, p, c, s, r, a, ring, k);
    } else {
      GraftUp(m, t, i, p, c, s, r, a, ring, k);
    }
    if m.Child(0, t[k].lead) == t[s].lead {
      GraftDownSlot(m, t, i, p, c, s, r, a, ring, k, 0);
    } else {
      GraftDown(m, t, i, p, c, s, r, a, ring, k, 0);
    }
    if m.Child(1, t[k].lead) == t[s].lead {
      GraftDownSlot(m, t, i, p, c, s, r, a, ring, k, 1);
    } else {
      GraftDown(m, t, i, p, c, s, r, a, ring, k, 1);
    }
  }

  lemma GraftBin(m: Tree, t: Nodes, i: int, p: int, c: int, s: int, r: int, a: int, ring: seq<int>, j: int)
    requires CanGraft(m, t, i, p, c, s, r, a) && 0 <= j < NTREEBINS
    ensures BinOk(Graft(m, i, p, c, t[s].lead, a), (t - {s})[r := Node(a, ring, i, t[s].w)], j)
  {
    GraftReads(m, t, i, p, c, s, r, a);
    assert NodeOk(m, t, s) && UpOk(m, t, s) && BinOk(m, t, j) && BinOk(m, t, i);
    hide Shr, Bit, Shape, Graft, Tree.Child, Tree.Size, Marked;
  }

  lemma GraftShape(m: Tree, t: Nodes, i: int, p: int, c: int, s: int, r: int, a: int, ring: seq<int>)
    requires CanGraft(m, t, i, p, c, s, r, a)
    ensures Shape(Graft(m, i, p, c, t[s].lead, a), (t - {s})[r := Node(a, ring, i, t[s].w)])
  {
    var m', t' := Graft(m, i, p, c, t[s].lead, a), (t - {s})[r := Node(a, ring, i, t[s].w)];
    GraftReads(m, t, i, p, c, s, r, a);
    hide Shr, Bit, Marked, NodeOk, UpOk, DownOk, BinOk, Graft;
    forall k | k in t'
      ensures NodeOk(m', t', k) && UpOk(m', t', k) && DownOk(m', t', k, 0) && DownOk(m', t', k, 1)
    {
      if k == r {
        GraftNew(m, t, i, p, c, s, r, a, ring);
      } else {
        GraftOld(m, t, i, p, c, s, r, a, ring, k);
      }
    }
    forall j | 0 <= j < NTREEBINS
      ensures BinOk(m', t', j)
    {
      GraftBin(m, t, i, p, c, s, r, a, ring, j);
    }
  }
}
