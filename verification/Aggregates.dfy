/** libffi's layout of nested aggregates: initialize_aggregate and its callers. */
module Aggregates {
  import opened Words
  import opened BinMaps
  import opened Alignment
  import opened Options
  import opened Segments

  /** What a type amounts to. */
  datatype Layout = Layout(size: int, alignment: int)

  /** The fields of an aggregate so far: where the last one ends, the largest alignment, the offsets. */
  datatype Partial = Partial(end: int, alignment: int, offsets: seq<int>)

  const LIMIT: int := 0x8000_0000_0000_0000

  class FfiType {
    var size: int
    var alignment: int
    const elements: seq<FfiType>
    const defined: bool            // elements != NULL

    // what a basic type says of itself, and how deep types are nested
    ghost const basic: Option<Layout>
    ghost const rank: nat

    /** A basic type: its size and alignment are known from the start. */
    constructor Basic(size: int, alignment: int)
      requires 0 < size <= LIMIT && PowerOfTwo(alignment) && alignment <= LIMIT
      ensures this.size == size && this.alignment == alignment && this.basic == Some(Layout(size, alignment))
      ensures elements == [] && !defined && rank == 0
    {
      this.size, this.alignment, this.elements, this.defined := size, alignment, [], false;
      this.basic, this.rank := Some(Layout(size, alignment)), 0;
    }

    /** An aggregate, not yet laid out; without `defined` there is no list of elements at all. */
    constructor Aggregate(elements: seq<FfiType>, defined: bool, ghost rank: nat)
      requires forall e :: e in elements ==> e.rank < rank
      requires !defined ==> elements == []
      ensures this.size == 0 && this.alignment == 0 && this.basic == None
      ensures this.elements == elements && this.defined == defined && this.rank == rank
    {
      this.size, this.alignment, this.elements, this.defined := 0, 0, elements, defined;
      this.basic, this.rank := None, rank;
    }
  }

  // ---- FFI_ALIGN

  /** `((v - 1) | (a - 1)) + 1` on 64-bit words. */
  function FfiAlign(v: int, a: int): int
    requires IsWord(v) && IsWord(a)
  {
    (Or(Sub64(v, 1), Sub64(a, 1)) + 1) % W64
  }

  /** `r` is the least multiple of `a` that is at least `v`. */
  ghost predicate LeastMultiple(r: int, v: int, a: int) {
    a > 0 && r >= v && r % a == 0 && forall x {:trigger x % a} :: x >= v && x % a == 0 ==> r <= x
  }

  /** The least multiple of `a` from `v` on. */
  function Up(v: int, a: int): int
    requires v >= 0 && a > 0
  {
    (v + a - 1) / a * a
  }

  lemma UpIsLeast(v: int, a: int)
    requires v >= 0 && a > 0
    ensures LeastMultiple(Up(v, a), v, a) && Up(v, a) < v + a
  {
    var q, r := (v + a - 1) / a, (v + a - 1) % a;
    assert v + a - 1 == a * q + r;
    DividesTimes(q, a);
    assert q * a == a * q;
    forall x {:trigger x % a} | x >= v && x % a == 0
      ensures q * a <= x
    {
      assert x == a * (x / a);
      NotBelow(x / a, q, a, v);
    }
  }

  /** The multiple before the least one from `v` on is below `v`. */
  lemma NotBelow(k: int, q: int, a: int, v: int)
    requires a > 0 && a * k >= v && a * q <= v + a - 1
    ensures a * q <= a * k
  {
    assert a * (q - k) == a * q - a * k;
    TimesGrows(q - k, a);
    assert q - k <= 0 ==> a * (q - k) <= 0 by {
      TimesGrows(q - k, a);
    }
  }

  lemma LeastUnique(r: int, r': int, v: int, a: int)
    requires LeastMultiple(r, v, a) && LeastMultiple(r', v, a)
    ensures r == r'
  {
    assert r % a == 0 && r' % a == 0;
  }

  lemma {:induction false} OrOnes(x: nat, k: nat)
    ensures Or(x, Pow2(k) - 1) == x - x % Pow2(k) + Pow2(k) - 1
  {
    hide Or;
    if k == 0 {
      OrZero(x);
    } else if x == 0 {
      OrZero(Pow2(k) - 1);
      NoRemainder(Pow2(k));
    } else {
      OrOnes(x / 2, k - 1);
      OrDoubles(x, Pow2(k - 1));
    }
  }

  lemma NoRemainder(g: int)
    requires g > 0
    ensures 0 % g == 0
  {}

  lemma OrDoubles(x: nat, g: int)
    requires x > 0 && g > 0 && Or(x / 2, g - 1) == x / 2 - x / 2 % g + g - 1
    ensures Or(x, 2 * g - 1) == x - x % (2 * g) + 2 * g - 1
  {
    hide Or;
    ModHalf(x, g);
    OrStep(x, g - 1);
    assert 2 * (g - 1) + 1 == 2 * g - 1;
    OrSum(x, g, Or(x / 2, g - 1));
  }

  lemma OrZero(x: nat)
    ensures Or(x, 0) == x && Or(0, x) == x
  {}

  lemma OrSum(x: nat, g: int, o: int)
    requires g > 0 && o == x / 2 - x / 2 % g + g - 1 && x % (2 * g) == 2 * (x / 2 % g) + x % 2
    ensures 2 * o + 1 == x - x % (2 * g) + 2 * g - 1
  {}

  lemma OrStep(x: nat, z: nat)
    requires x > 0
    ensures Or(x, 2 * z + 1) == 2 * Or(x / 2, z) + 1
  {
    assert (2 * z + 1) / 2 == z;
  }

  lemma {:induction false} OrSelf(x: nat)
    ensures Or(x, x) == x
  {
    if x > 0 {
      OrSelf(x / 2);
    }
  }

  /** FFI_ALIGN rounds up to powers of two. */
  lemma FfiAlignRoundsUp(v: int, a: int)
    requires 0 <= v <= LIMIT && PowerOfTwo(a) && a <= LIMIT
    ensures a > 0 && FfiAlign(v, a) == Up(v, a)
  {
    hide Or, Pow2, Up;
    var k: nat :| k < 64 && a == Pow2(k);
    if v == 0 {
      Pow2Of64();
      OrOnes(W64 - 1, k);
      LastResidue(k);
      UpOfZero(a);
    } else {
      OrOnes(v - 1, k);
      UpOfPositive(v, a);
      NoWrap(v, a, Or(v - 1, a - 1));
    }
  }

  lemma NoWrap(v: int, a: int, o: int)
    requires 0 < v <= LIMIT && 0 < a <= LIMIT && o == v - 1 - (v - 1) % a + a - 1
    ensures (o + 1) % W64 == v - 1 - (v - 1) % a + a
  {
    assert 0 <= (v - 1) % a < a;
    WordStays(o + 1);
  }

  lemma WordStays(x: int)
    requires IsWord(x)
    ensures x % W64 == x
  {}

  lemma EmptyAlign()
    ensures FfiAlign(0, 0) == 0
  {
    OrSelf(W64 - 1);
  }

  lemma UpOfZero(a: int)
    requires a > 0
    ensures Up(0, a) == 0
  {
    QuotientOf(a - 1, a, 0, a - 1);
  }

  lemma UpOfPositive(v: int, a: int)
    requires a > 0 && v > 0
    ensures Up(v, a) == v - 1 - (v - 1) % a + a
  {
    var q, r := (v - 1) / a, (v - 1) % a;
    assert v - 1 == q * a + r;
    assert (q + 1) * a == q * a + a;
    QuotientOf(v + a - 1, a, q + 1, r);
  }

  lemma QuotientOf(x: int, g: int, q: int, r: int)
    requires g > 0 && x == q * g + r && 0 <= r < g
    ensures x / g == q
  {
    var q', r' := x / g, x % g;
    assert x == g * q' + r';
    assert g * (q - q') == r' - r;
    TimesGrows(q - q', g);
  }

  lemma {:induction false} LastResidue(k: nat)
    requires k < 64
    ensures (W64 - 1) % Pow2(k) == Pow2(k) - 1
  {
    Pow2Of64();
    Residue(64, k);
  }

  lemma {:induction false} Residue(n: nat, k: nat)
    requires k <= n
    ensures (Pow2(n) - 1) % Pow2(k) == Pow2(k) - 1
    decreases n
  {
    if k < n {
      Residue(n - 1, k);
      var q := (Pow2(n - 1) - 1) / Pow2(k);
      assert Pow2(n - 1) - 1 == q * Pow2(k) + Pow2(k) - 1;
      assert Pow2(n) - 1 == 2 * (q * Pow2(k) + Pow2(k)) - 1 == (2 * q + 1) * Pow2(k) + Pow2(k) - 1;
      ModUnique(Pow2(n) - 1, Pow2(k), 2 * q + 1, Pow2(k) - 1);
    } else {
      ModUnique(Pow2(n) - 1, Pow2(n), 0, Pow2(n) - 1);
    }
  }

  // ---- what the layout ought to be

  /** Sizes and alignments that are already there. */
  type Sizes = map<FfiType, Layout>

  /** A size and an alignment that can be relied on. */
  ghost predicate SoundLayout(l: Layout) {
    0 < l.size <= LIMIT && PowerOfTwo(l.alignment) && l.alignment <= LIMIT
  }

  ghost predicate Sound(k: Sizes) {
    forall x {:trigger x in k} :: x in k ==> SoundLayout(k[x])
  }

  /** Elements are nested less deeply than what holds them; basic types are sound. */
  ghost predicate Ranked(t: FfiType)
    decreases t.rank
  {
    && (t.basic.Some? ==> SoundLayout(t.basic.value))
    && forall e {:trigger e in t.elements} :: e in t.elements ==> e.rank < t.rank && Ranked(e)
  }

  /** The greedy layout of the first `n` elements over the sizes already there, if they all have one. */
  ghost function Fields(t: FfiType, n: nat, k: Sizes): Option<Partial>
    requires Ranked(t) && n <= |t.elements|
    decreases t.rank, n
  {
    if n == 0 then Some(Partial(0, 0, []))
    else
      assert t.elements[n - 1] in t.elements;
      match Fields(t, n - 1, k)
      case None => None
      case Some(p) =>
        match LayoutOf(t.elements[n - 1], k)
        case None => None
        case Some(l) => if l.alignment <= 0 || p.end < 0 then None else Some(Extended(p, l))
  }

  ghost function Extended(p: Partial, l: Layout): Partial
    requires p.end >= 0 && l.alignment > 0
  {
    var o := Up(p.end, l.alignment);
    Partial(o + l.size, if p.alignment > l.alignment then p.alignment else l.alignment, p.offsets + [o])
  }

  /** The layout an aggregate gets from its elements: none when it is empty or has an element without one. */
  ghost function Anew(t: FfiType, k: Sizes): Option<Layout>
    requires Ranked(t)
    decreases t.rank, |t.elements| + 1
  {
    if !t.defined then None
    else
      match Fields(t, |t.elements|, k)
      case None => None
      case Some(p) =>
        if p.alignment <= 0 || p.end < 0 then None else Some(Layout(Up(p.end, p.alignment), p.alignment))
  }

  /** What a type counts as when some sizes are already there; with none, its layout. */
  ghost function LayoutOf(t: FfiType, k: Sizes): Option<Layout>
    requires Ranked(t)
    decreases t.rank, |t.elements| + 2
  {
    if t.basic.Some? then t.basic else if t in k then Some(k[t]) else Anew(t, k)
  }

  /** No aggregate within `t` is longer than half the address space. */
  ghost predicate Fits(t: FfiType, k: Sizes)
    requires Ranked(t)
    decreases t.rank
  {
    && (forall n {:trigger Fields(t, n, k)} :: 0 <= n <= |t.elements| && Fields(t, n, k).Some? ==> Fields(t, n, k).value.end <= LIMIT)
    && (Anew(t, k).Some? ==> Anew(t, k).value.size <= LIMIT)
    && forall e {:trigger e in t.elements} :: e in t.elements ==> Fits(e, k)
  }

  /** Layouts have a positive size and a power of two for an alignment. */
  lemma {:induction false} LayoutSound(t: FfiType, k: Sizes)
    requires Ranked(t) && Sound(k) && LayoutOf(t, k).Some?
    ensures var l := LayoutOf(t, k).value; l.size > 0 && PowerOfTwo(l.alignment) && 0 < l.alignment <= LIMIT
    decreases t.rank, |t.elements| + 1
  {
    hide Up, PowerOfTwo, Extended;
    if t.basic.None? && t !in k {
      FieldsSound(t, |t.elements|, k);
      var p := Fields(t, |t.elements|, k).value;
      UpIsLeast(p.end, p.alignment);
    } else {
      PowersPositive(LayoutOf(t, k).value.alignment);
    }
  }

  lemma PowersPositive(a: int)
    requires PowerOfTwo(a)
    ensures a > 0
  {
    var k: nat :| k < 64 && a == Pow2(k);
  }

  lemma {:induction false} FieldsSound(t: FfiType, n: nat, k: Sizes)
    requires Ranked(t) && Sound(k) && n <= |t.elements| && Fields(t, n, k).Some?
    ensures var p := Fields(t, n, k).value;
      && p.end >= 0 && p.alignment >= 0 && (n == 0 <==> p.alignment == 0) && (n == 0 <==> p.end == 0) && |p.offsets| == n
      && (n > 0 ==> PowerOfTwo(p.alignment) && p.alignment <= LIMIT)
    decreases t.rank, n
  {
    hide Up, PowerOfTwo;
    if n > 0 {
      assert t.elements[n - 1] in t.elements;
      FieldsSound(t, n - 1, k);
      LayoutSound(t.elements[n - 1], k);
      UpIsLeast(Fields(t, n - 1, k).value.end, LayoutOf(t.elements[n - 1], k).value.alignment);
    }
  }

  /** The greedy layout of a non-empty list of fields, told without computing it. */
  ghost predicate Greedy(fields: seq<Layout>, offsets: seq<int>, l: Layout) {
    && |offsets| == |fields| > 0
    && (forall i {:trigger Placed(fields, offsets, i)} :: 0 <= i < |fields| ==> Placed(fields, offsets, i))
    && (forall i {:trigger fields[i]} :: 0 <= i < |fields| ==> fields[i].alignment <= l.alignment)
    && (exists i :: 0 <= i < |fields| && fields[i].alignment == l.alignment)
    && LeastMultiple(l.size, offsets[|fields| - 1] + fields[|fields| - 1].size, l.alignment)
  }

  /** There is only one such layout. */
  lemma GreedyUnique(fields: seq<Layout>, offsets: seq<int>, l: Layout, offsets': seq<int>, l': Layout)
    requires Greedy(fields, offsets, l) && Greedy(fields, offsets', l')
    ensures offsets == offsets' && l == l'
  {
    hide LeastMultiple;
    SameOffsets(fields, offsets, l, offsets', l', |fields|);
    assert offsets[..|fields|] == offsets && offsets'[..|fields|] == offsets';
    assert l.alignment == l'.alignment;
    LeastUnique(l.size, l'.size, offsets[|fields| - 1] + fields[|fields| - 1].size, l.alignment);
  }

  lemma {:induction false} SameOffsets(fields: seq<Layout>, offsets: seq<int>, l: Layout, offsets': seq<int>, l': Layout, n: nat)
    requires Greedy(fields, offsets, l) && Greedy(fields, offsets', l') && n <= |fields|
    ensures offsets[..n] == offsets'[..n]
  {
    if n > 0 {
      hide LeastMultiple;
      SameOffsets(fields, offsets, l, offsets', l', n - 1);
      var v := if n == 1 then 0 else offsets[n - 2] + fields[n - 2].size;
      assert n > 1 ==> offsets[..n - 1][n - 2] == offsets'[..n - 1][n - 2];
      assert Placed(fields, offsets, n - 1) && Placed(fields, offsets', n - 1);
      LeastUnique(offsets[n - 1], offsets'[n - 1], v, fields[n - 1].alignment);
      assert offsets[..n] == offsets[..n - 1] + [offsets[n - 1]];
      assert offsets'[..n] == offsets'[..n - 1] + [offsets'[n - 1]];
    }
  }

  /** The layouts of the elements of a type that has one itself. */
  ghost function ElementLayouts(t: FfiType, n: nat, k: Sizes): seq<Layout>
    requires Ranked(t) && n <= |t.elements| && Fields(t, n, k).Some?
  {
    if n == 0 then []
    else
      assert t.elements[n - 1] in t.elements;
      ElementLayouts(t, n - 1, k) + [LayoutOf(t.elements[n - 1], k).value]
  }

  ghost predicate GreedySoFar(fields: seq<Layout>, p: Partial) {
    && |p.offsets| == |fields|
    && (forall i {:trigger Placed(fields, p.offsets, i)} :: 0 <= i < |fields| ==> Placed(fields, p.offsets, i))
    && (forall i {:trigger fields[i]} :: 0 <= i < |fields| ==> fields[i].alignment <= p.alignment)
    && (|fields| > 0 ==> (exists i :: 0 <= i < |fields| && fields[i].alignment == p.alignment)
                         && p.end == p.offsets[|fields| - 1] + fields[|fields| - 1].size)
  }

  lemma {:induction false} FieldsGreedy(t: FfiType, n: nat, k: Sizes)
    requires Ranked(t) && Sound(k) && n <= |t.elements| && Fields(t, n, k).Some?
    ensures |ElementLayouts(t, n, k)| == n && GreedySoFar(ElementLayouts(t, n, k), Fields(t, n, k).value)
  {
    hide Up, PowerOfTwo, LeastMultiple, GreedySoFar;
    if n == 0 {
      NothingGreedy();
    } else {
      assert t.elements[n - 1] in t.elements;
      FieldsGreedy(t, n - 1, k);
      FieldsSound(t, n - 1, k);
      var p, l := Fields(t, n - 1, k).value, LayoutOf(t.elements[n - 1], k).value;
      LayoutSound(t.elements[n - 1], k);
      UpIsLeast(p.end, l.alignment);
      GreedyStep(ElementLayouts(t, n - 1, k), p, l);
    }
  }

  lemma NothingGreedy()
    ensures GreedySoFar([], Partial(0, 0, []))
  {}

  /** Field `i` is where the greedy layout puts it. */
  ghost predicate Placed(fields: seq<Layout>, offsets: seq<int>, i: int)
    requires 0 <= i < |fields| && |offsets| == |fields|
  {
    LeastMultiple(offsets[i], if i == 0 then 0 else offsets[i - 1] + fields[i - 1].size, fields[i].alignment)
  }

  lemma PlacedStays(fields: seq<Layout>, offsets: seq<int>, l: Layout, o: int, i: int)
    requires 0 <= i < |fields| && |offsets| == |fields| && Placed(fields, offsets, i)
    ensures Placed(fields + [l], offsets + [o], i)
  {
    hide LeastMultiple;
  }

  lemma PlacedLast(fields: seq<Layout>, offsets: seq<int>, l: Layout, o: int, end: int)
    requires |offsets| == |fields| && LeastMultiple(o, end, l.alignment)
    requires end == if fields == [] then 0 else offsets[|fields| - 1] + fields[|fields| - 1].size
    ensures Placed(fields + [l], offsets + [o], |fields|)
  {
    hide LeastMultiple;
  }

  lemma GreedyStep(fields: seq<Layout>, p: Partial, l: Layout)
    requires GreedySoFar(fields, p) && p.end >= 0 && l.alignment > 0 && LeastMultiple(Up(p.end, l.alignment), p.end, l.alignment)
    requires |fields| == 0 ==> p.end == 0 && p.alignment == 0
    ensures GreedySoFar(fields + [l], Extended(p, l))
  {
    hide LeastMultiple, Up, Placed;
    var o := Up(p.end, l.alignment);
    var fields', p' := fields + [l], Extended(p, l);
    forall i {:trigger Placed(fields', p'.offsets, i)} | 0 <= i < |fields'|
      ensures Placed(fields', p'.offsets, i)
    {
      if i < |fields| {
        PlacedStays(fields, p.offsets, l, o, i);
      } else {
        PlacedLast(fields, p.offsets, l, o, p.end);
      }
    }
    if p.alignment > l.alignment {
      var i :| 0 <= i < |fields| && fields[i].alignment == p.alignment;
      assert fields'[i].alignment == p'.alignment;
    } else {
      assert fields'[|fields|].alignment == p'.alignment;
    }
  }

  /** The layout of an aggregate is the greedy one. */
  lemma LayoutIsGreedy(t: FfiType, k: Sizes)
    requires Ranked(t) && Sound(k) && Anew(t, k).Some?
    ensures var n := |t.elements|;
      Fields(t, n, k).Some? && Greedy(ElementLayouts(t, n, k), Fields(t, n, k).value.offsets, Anew(t, k).value)
  {
    hide LeastMultiple, Up, Placed, PowerOfTwo;
    var n := |t.elements|;
    FieldsGreedy(t, n, k);
    FieldsSound(t, n, k);
    var p, fields := Fields(t, n, k).value, ElementLayouts(t, n, k);
    UpIsLeast(p.end, p.alignment);
    GreedyAtLast(fields, p, Anew(t, k).value);
  }

  lemma GreedyAtLast(fields: seq<Layout>, p: Partial, l: Layout)
    requires GreedySoFar(fields, p) && |fields| > 0 && l.alignment == p.alignment && LeastMultiple(l.size, p.end, l.alignment)
    ensures Greedy(fields, p.offsets, l)
  {
    hide LeastMultiple, Placed;
  }

  // ---- when some sizes are already there

  /** All of the types that nesting leads to. */
  ghost predicate Closed(all: set<FfiType>) {
    forall t {:trigger t in all} :: t in all ==> Ranked(t) && forall e {:trigger e in t.elements} :: e in t.elements ==> e in all
  }

  /** The sizes `k` and `k'` say the same of a type. */
  ghost predicate Alike(t: FfiType, k: Sizes, k': Sizes)
    requires Ranked(t)
  {
    || ((t in k <==> t in k') && (t in k ==> k[t] == k'[t]))
    || LayoutOf(t, k) == LayoutOf(t, k')
  }

  lemma {:induction false} FieldsSame(t: FfiType, n: nat, k: Sizes, k': Sizes)
    requires Ranked(t) && n <= |t.elements|
    requires forall e {:trigger e in t.elements} :: e in t.elements ==> LayoutOf(e, k) == LayoutOf(e, k')
    ensures Fields(t, n, k) == Fields(t, n, k')
  {
    hide LayoutOf, Extended;
    if n > 0 {
      assert t.elements[n - 1] in t.elements;
      FieldsSame(t, n - 1, k, k');
    }
  }

  /** Sizes that say the same of all that is nested no deeper lay a type out in the same way. */
  lemma {:induction false} SameLayout(all: set<FfiType>, t: FfiType, k: Sizes, k': Sizes)
    requires Closed(all) && t in all
    requires forall x {:trigger x in all} :: x in all && x.rank <= t.rank ==> Alike(x, k, k')
    ensures LayoutOf(t, k) == LayoutOf(t, k')
    decreases t.rank
  {
    hide Fields;
    forall e {:trigger e in t.elements} | e in t.elements
      ensures LayoutOf(e, k) == LayoutOf(e, k')
    {
      assert e in all;
      SameLayout(all, e, k, k');
    }
    FieldsSame(t, |t.elements|, k, k');
  }

  /** The sizes `k` and `k'` lay out every type of a lower rank in the same way. */
  ghost predicate Agree(all: set<FfiType>, rank: nat, k: Sizes, k': Sizes)
    requires Closed(all)
  {
    forall x {:trigger x in all} :: x in all && x.rank < rank ==> LayoutOf(x, k) == LayoutOf(x, k')
  }

  ghost predicate AgreeOnAll(all: set<FfiType>, k: Sizes, k': Sizes)
    requires Closed(all)
  {
    forall x {:trigger x in all} :: x in all ==> LayoutOf(x, k) == LayoutOf(x, k')
  }

  /** Of types nested at least so deep, the same are in `k` and `k'`, apart from `t`. */
  ghost predicate SameFrom(all: set<FfiType>, t: FfiType, k: Sizes, k': Sizes) {
    forall x {:trigger x in all} :: x in all && x.rank >= t.rank && x != t ==>
      (x in k <==> x in k') && (x in k ==> k[x] == k'[x])
  }

  ghost predicate SameBelow(all: set<FfiType>, t: FfiType, k: Sizes, k': Sizes) {
    forall x {:trigger x in all} :: x in all && x.rank < t.rank ==> (x in k <==> x in k') && (x in k ==> k[x] == k'[x])
  }

  /** Agreement on what is nested less deeply, and on `t`, is agreement on everything. */
  lemma Lift(all: set<FfiType>, t: FfiType, k: Sizes, k': Sizes)
    requires Closed(all) && t in all && Agree(all, t.rank, k, k') && SameFrom(all, t, k, k') && Alike(t, k, k')
    ensures AgreeOnAll(all, k, k')
  {
    hide LayoutOf;
    forall x {:trigger x in all} | x in all
      ensures LayoutOf(x, k) == LayoutOf(x, k')
    {
      SameLayout(all, x, k, k');
    }
  }

  /** The size of a type has no say in what is nested less deeply. */
  lemma Local(all: set<FfiType>, t: FfiType, k: Sizes, k': Sizes)
    requires Closed(all) && SameBelow(all, t, k, k')
    ensures Agree(all, t.rank, k, k')
  {
    hide LayoutOf;
    forall x {:trigger x in all} | x in all && x.rank < t.rank
      ensures LayoutOf(x, k) == LayoutOf(x, k')
    {
      SameLayout(all, x, k, k');
    }
  }

  /** A layout stays when sizes are added for types that had none. */
  lemma {:induction false} GoodStays(t: FfiType, k: Sizes, l: Sizes)
    requires Ranked(t) && LayoutOf(t, k).Some?
    requires forall x {:trigger x in l} :: x in l ==> Ranked(x) && LayoutOf(x, k).None?
    ensures LayoutOf(t, k + l) == LayoutOf(t, k)
    decreases t.rank, |t.elements| + 1
  {
    hide Extended;
    if t.basic.None? && t !in k {
      FieldsStay(t, |t.elements|, k, l);
    }
  }

  lemma {:induction false} FieldsStay(t: FfiType, n: nat, k: Sizes, l: Sizes)
    requires Ranked(t) && n <= |t.elements| && Fields(t, n, k).Some?
    requires forall x {:trigger x in l} :: x in l ==> Ranked(x) && LayoutOf(x, k).None?
    ensures Fields(t, n, k + l) == Fields(t, n, k)
    decreases t.rank, n
  {
    hide LayoutOf, Extended;
    if n > 0 {
      assert t.elements[n - 1] in t.elements;
      FieldsStay(t, n - 1, k, l);
      GoodStays(t.elements[n - 1], k, l);
    }
  }

  /** How many elements have a layout before the first that has none. */
  ghost function Good(t: FfiType, n: nat, k: Sizes): (g: nat)
    requires Ranked(t) && n <= |t.elements|
    ensures g <= n && Fields(t, g, k).Some? && (g == n <==> Fields(t, n, k).Some?)
  {
    if n == 0 then 0 else if Fields(t, n, k).Some? then n else Good(t, n - 1, k)
  }

  /** The sizes that a failed attempt leaves in types that have no layout: those of the aggregate, of its first bad
      element, of the first bad element of that, and so on, as far as anything sound came before. */
  ghost function Leftovers(t: FfiType, k: Sizes): Sizes
    requires Ranked(t)
    decreases t.rank
  {
    if LayoutOf(t, k).Some? || !t.defined then map[]
    else
      var g := Good(t, |t.elements|, k);
      var p := Fields(t, g, k).value;
      var inner :=
        if g == |t.elements| then map[]
        else
          assert t.elements[g] in t.elements;
          Leftovers(t.elements[g], k);
      if g == 0 then inner else inner[t := Layout(p.end, p.alignment)]
  }

  /** They are sizes of types without a layout. */
  lemma {:induction false} LeftoversBad(all: set<FfiType>, t: FfiType, k: Sizes, x: FfiType)
    requires Closed(all) && t in all && x in Leftovers(t, k)
    ensures x in all && x.rank <= t.rank && (x.rank == t.rank ==> x == t) && LayoutOf(x, k).None?
    decreases t.rank
  {
    hide LayoutOf;
    var g := Good(t, |t.elements|, k);
    if x != t {
      assert t.elements[g] in t.elements;
      LeftoversBad(all, t.elements[g], k, x);
    }
  }

  /** They depend on layouts only. */
  lemma {:induction false} LeftoversSame(all: set<FfiType>, t: FfiType, k: Sizes, k': Sizes)
    requires Closed(all) && t in all && LayoutOf(t, k) == LayoutOf(t, k') && Agree(all, t.rank, k, k')
    ensures Leftovers(t, k) == Leftovers(t, k')
    decreases t.rank
  {
    hide LayoutOf;
    var n := |t.elements|;
    forall m: nat | m <= n
      ensures Fields(t, m, k) == Fields(t, m, k')
    {
      ElementsAgree(all, t, k, k');
      FieldsSame(t, m, k, k');
    }
    GoodSame(t, n, k, k');
    var g := Good(t, n, k);
    if g < n {
      assert t.elements[g] in t.elements;
      ElementsAgree(all, t, k, k');
      LeftoversSame(all, t.elements[g], k, k');
    }
  }

  lemma ElementsAgree(all: set<FfiType>, t: FfiType, k: Sizes, k': Sizes)
    requires Closed(all) && t in all && Agree(all, t.rank, k, k')
    ensures forall e {:trigger e in t.elements} :: e in t.elements ==> Ranked(e) && LayoutOf(e, k) == LayoutOf(e, k')
  {
    hide LayoutOf;
  }

  lemma {:induction false} GoodSame(t: FfiType, n: nat, k: Sizes, k': Sizes)
    requires Ranked(t) && n <= |t.elements|
    requires forall m: nat {:trigger Fields(t, m, k)} :: m <= n ==> Fields(t, m, k) == Fields(t, m, k')
    ensures Good(t, n, k) == Good(t, n, k')
  {
    if n > 0 {
      GoodSame(t, n - 1, k, k');
    }
  }

  /** Sizes of bad types say the same on top of sizes that agree. */
  lemma AddedAgree(all: set<FfiType>, rank: nat, k: Sizes, k': Sizes, l: Sizes)
    requires Closed(all) && Agree(all, rank, k, k')
    requires forall x {:trigger x in l} :: x in l ==> x in all && x.rank < rank && LayoutOf(x, k).None?
    ensures Agree(all, rank, k + l, k' + l)
  {
    forall x {:trigger x in all} | x in all && x.rank < rank
      ensures LayoutOf(x, k + l) == LayoutOf(x, k' + l)
    {
      forall y {:trigger y in all} | y in all && y.rank <= x.rank
        ensures Alike(y, k + l, k' + l)
      {
        AddedAlike(y, k, k', l);
      }
      SameLayout(all, x, k + l, k' + l);
    }
  }

  lemma AddedAlike(t: FfiType, k: Sizes, k': Sizes, l: Sizes)
    requires Ranked(t) && LayoutOf(t, k) == LayoutOf(t, k')
    requires forall x {:trigger x in l} :: x in l ==> Ranked(x) && LayoutOf(x, k).None? && LayoutOf(x, k').None?
    ensures Alike(t, k + l, k' + l)
  {
    hide Anew;
    if LayoutOf(t, k).Some? {
      GoodStays(t, k, l);
      GoodStays(t, k', l);
    }
  }

  // ---- laying out

  /** The size of a basic type is its own; one that is not zero is sound, and so is the alignment then. */
  ghost predicate Sane(t: FfiType)
    requires Ranked(t)
    reads t
  {
    && (t.size != 0 ==> SoundLayout(Layout(t.size, t.alignment)))
    && (t.basic.Some? ==> t.basic == Some(Layout(t.size, t.alignment)))
  }

  ghost predicate AllSane(all: set<FfiType>)
    requires Closed(all)
    reads all
  {
    forall t {:trigger t in all} :: t in all ==> Sane(t)
  }

  /** The aggregates that have a size. */
  ghost function Known(all: set<FfiType>): Sizes
    reads all
  {
    map x | x in all && x.basic.None? && x.size != 0 :: Layout(x.size, x.alignment)
  }

  lemma KnownSound(all: set<FfiType>)
    requires Closed(all) && AllSane(all)
    ensures Sound(Known(all))
  {
    hide SoundLayout;
  }

  lemma LessSound(k: Sizes, t: FfiType)
    requires Sound(k)
    ensures Sound(k - {t})
  {
    hide SoundLayout;
  }

  /** What an element counts as is what it says of itself, if it says anything. */
  lemma SizeSays(all: set<FfiType>, e: FfiType)
    requires Closed(all) && AllSane(all) && e in all
    ensures e.size != 0 ==> LayoutOf(e, Known(all)) == Some(Layout(e.size, e.alignment))
    ensures e.size == 0 ==> e.basic.None? && e !in Known(all)
  {
    hide Anew;
  }

  /** What ffi_prep_cif_core does with the return type and every argument type, and initialize_aggregate with every
      element: only a size of zero makes it lay the type out. */
  method Prepare(t: FfiType, ghost all: set<FfiType>) returns (ok: bool)
    requires Closed(all) && AllSane(all) && t in all && Fits(t, Known(all))
    modifies all
    ensures AllSane(all)
    ensures ok <==> LayoutOf(t, old(Known(all))).Some?
    ensures ok ==> LayoutOf(t, old(Known(all))) == Some(Layout(t.size, t.alignment)) && t.size != 0
    ensures ok ==> AgreeOnAll(all, Known(all), old(Known(all)))
    ensures !ok ==> AgreeOnAll(all, Known(all), old(Known(all)) + Leftovers(t, old(Known(all))))
    ensures forall x {:trigger x in all} :: x in all && x != t && x.rank >= t.rank ==> x.size == old(x.size) && x.alignment == old(x.alignment)
    decreases t.rank, 2
  {
    hide LayoutOf, AgreeOnAll, Fits, Leftovers, Anew;
    ghost var before := Known(all);
    SizeSays(all, t);
    SameAgrees(all, before);
    ok := true;
    if t.size == 0 {
      assert before - {t} == before;
      NotKnown(t, before);
      var done, _ := InitializeAggregate(t, all);
      ok := done;
    }
  }

  /** initialize_aggregate: succeeds exactly when the elements give a layout over the sizes already there, and then
      stores and returns it. When it fails the sum over the elements before the first bad one stays behind in the
      size; and so it does in that element, in its first bad element, and so on. */
  method InitializeAggregate(t: FfiType, ghost all: set<FfiType>) returns (ok: bool, offsets: seq<int>)
    requires Closed(all) && AllSane(all) && t in all && t.basic.None? && Fits(t, Known(all) - {t})
    modifies all
    ensures AllSane(all)
    ensures ok <==> Anew(t, old(Known(all)) - {t}).Some?
    ensures ok ==> Anew(t, old(Known(all)) - {t}) == Some(Layout(t.size, t.alignment)) && t.size != 0
    ensures ok ==> Fields(t, |t.elements|, old(Known(all)) - {t}).Some?
                   && offsets == Fields(t, |t.elements|, old(Known(all)) - {t}).value.offsets
    ensures ok ==> AgreeOnAll(all, Known(all), old(Known(all)) - {t})
    ensures !ok && (t.defined || old(t.size) == 0) ==>
      AgreeOnAll(all, Known(all), old(Known(all)) - {t} + Leftovers(t, old(Known(all)) - {t}))
    ensures !ok && !t.defined ==> Known(all) == old(Known(all))
    ensures forall x {:trigger x in all} :: x in all && x != t && x.rank >= t.rank ==> x.size == old(x.size) && x.alignment == old(x.alignment)
    decreases t.rank, 1
  {
    hide Up, FfiAlign, PowerOfTwo, LeastMultiple, Fits, LayoutOf, Anew, SoundLayout, Leftovers, Good, AgreeOnAll, Agree, Alike,
         AllSane, Sound, SameFrom;
    ok, offsets := false, [];
    ghost var k := Known(all) - {t};
    if !t.defined {
      Untouched(all, t, Known(all));
      return;
    }
    KnownSound(all);
    LessSound(Known(all), t);
    Reset(t, all);
    var i := 0;
    while i < |t.elements|
      invariant 0 <= i <= |t.elements| && Fields(t, i, k) == Some(Partial(t.size, t.alignment, offsets))
      invariant AllSane(all) && Agree(all, t.rank, Known(all), k) && SameFrom(all, t, Known(all), k)
      invariant forall x {:trigger x in all} :: x in all && x != t && x.rank >= t.rank ==> x.size == old(x.size) && x.alignment == old(x.alignment)
    {
      var done := Ready(t, i, offsets, all, k);
      if !done {
        return;
      }
      offsets := Append(t, i, offsets, all, k);
      i := i + 1;
    }
    ok := Finish(t, offsets, all, k);
  }

  method Reset(t: FfiType, ghost all: set<FfiType>)
    requires Closed(all) && AllSane(all) && t in all && t.basic.None?
    modifies t
    ensures t.size == 0 && t.alignment == 0 && AllSane(all)
    ensures Agree(all, t.rank, Known(all), old(Known(all)) - {t}) && SameFrom(all, t, Known(all), old(Known(all)) - {t})
  {
    hide SoundLayout, Agree;
    ghost var k := Known(all) - {t};
    t.size := 0;
    t.alignment := 0;
    Local(all, t, Known(all), k);
  }

  /** An element is laid out if it has no size. When this fails the whole has no layout. */
  method Ready(t: FfiType, i: nat, offsets: seq<int>, ghost all: set<FfiType>, ghost k: Sizes) returns (ok: bool)
    requires Closed(all) && AllSane(all) && t in all && t.basic.None? && t.defined && t !in k && Sound(k) && Fits(t, k) && i < |t.elements|
    requires Fields(t, i, k) == Some(Partial(t.size, t.alignment, offsets))
    requires Agree(all, t.rank, Known(all), k) && SameFrom(all, t, Known(all), k)
    modifies all
    ensures AllSane(all)
    ensures ok ==> t.elements[i] in all && t.elements[i].rank < t.rank && Agree(all, t.rank, Known(all), k) && SameFrom(all, t, Known(all), k)
                   && LayoutOf(t.elements[i], k) == Some(Layout(t.elements[i].size, t.elements[i].alignment))
    ensures !ok ==> Anew(t, k).None? && AgreeOnAll(all, Known(all), k + Leftovers(t, k))
    ensures forall x {:trigger x in all} :: x in all && x.rank >= t.rank ==> x.size == old(x.size) && x.alignment == old(x.alignment)
    decreases t.rank, 0
  {
    hide Fits, Fields, LayoutOf, Anew, SoundLayout, Leftovers, AgreeOnAll, Agree, Sane;
    var e := t.elements[i];
    assert e in t.elements;
    ghost var before := Known(all);
    ElementFits(all, t, e, k, before);
    AgreeBelow(all, t, e, before, k);
    ok := Prepare(e, all);
    if ok {
      StillAgree(all, t.rank, Known(all), before, k);
    } else {
      Spoilt(all, t, i, before, Known(all), k);
    }
  }

  /** The element goes to the next place its alignment allows. */
  method Append(t: FfiType, i: nat, offsets: seq<int>, ghost all: set<FfiType>, ghost k: Sizes) returns (offsets': seq<int>)
    requires Closed(all) && AllSane(all) && t in all && t.basic.None? && Sound(k) && Fits(t, k) && i < |t.elements|
    requires Fields(t, i, k) == Some(Partial(t.size, t.alignment, offsets))
    requires t.elements[i] in all && t.elements[i].rank < t.rank
    requires LayoutOf(t.elements[i], k) == Some(Layout(t.elements[i].size, t.elements[i].alignment))
    requires Agree(all, t.rank, Known(all), k) && SameFrom(all, t, Known(all), k)
    modifies t
    ensures Fields(t, i + 1, k) == Some(Partial(t.size, t.alignment, offsets'))
    ensures AllSane(all) && Agree(all, t.rank, Known(all), k) && SameFrom(all, t, Known(all), k)
  {
    hide Up, FfiAlign, PowerOfTwo, Fits, Fields, LayoutOf, SoundLayout, Agree;
    var e := t.elements[i];
    ghost var known := Known(all);
    AlignedEnd(t, i, k);
    t.size := FfiAlign(t.size, e.alignment);
    offsets' := offsets + [t.size];
    t.size := t.size + e.size;
    t.alignment := if t.alignment > e.alignment then t.alignment else e.alignment;
    Local(all, t, Known(all), known);
    AgreeOn(all, t.rank, Known(all), known, k);
  }

  /** The size is rounded up to the alignment; zero is a failure. */
  method Finish(t: FfiType, offsets: seq<int>, ghost all: set<FfiType>, ghost k: Sizes) returns (ok: bool)
    requires Closed(all) && AllSane(all) && t in all && t.basic.None? && t.defined && t !in k && Sound(k) && Fits(t, k)
    requires Fields(t, |t.elements|, k) == Some(Partial(t.size, t.alignment, offsets))
    requires Agree(all, t.rank, Known(all), k) && SameFrom(all, t, Known(all), k)
    modifies t
    ensures AllSane(all)
    ensures ok <==> Anew(t, k).Some?
    ensures ok ==> Anew(t, k) == Some(Layout(t.size, t.alignment)) && t.size != 0 && AgreeOnAll(all, Known(all), k)
    ensures !ok ==> AgreeOnAll(all, Known(all), k + Leftovers(t, k))
  {
    hide Up, FfiAlign, PowerOfTwo, Fits, Fields, LayoutOf, SoundLayout, Agree, AgreeOnAll, Leftovers, Anew;
    ghost var known := Known(all);
    if t.elements == [] {
      EmptyAlign();
      NoElements(t, k);
    } else {
      FinalSize(t, k);
    }
    t.size := FfiAlign(t.size, t.alignment);
    ok := t.size != 0;
    Local(all, t, Known(all), known);
    AgreeOn(all, t.rank, Known(all), known, k);
    LaidOut(all, t, Known(all), k);
  }

  lemma NoElements(t: FfiType, k: Sizes)
    requires Ranked(t) && t.elements == []
    ensures Anew(t, k).None? && Fields(t, 0, k) == Some(Partial(0, 0, []))
  {}

  lemma AgreeOn(all: set<FfiType>, rank: nat, a: Sizes, b: Sizes, c: Sizes)
    requires Closed(all) && Agree(all, rank, a, b) && Agree(all, rank, b, c)
    ensures Agree(all, rank, a, c)
  {
    hide LayoutOf;
  }

  /** Without a list of elements nothing is done. */
  lemma Untouched(all: set<FfiType>, t: FfiType, known: Sizes)
    requires Closed(all) && t in all && !t.defined
    ensures Anew(t, known - {t}).None?
    ensures t !in known ==> AgreeOnAll(all, known, known - {t} + Leftovers(t, known - {t}))
  {
    if t !in known {
      assert known - {t} + Leftovers(t, known - {t}) == known;
      SameAgrees(all, known);
    }
  }

  lemma ElementFits(all: set<FfiType>, t: FfiType, e: FfiType, k: Sizes, k': Sizes)
    requires Closed(all) && t in all && Fits(t, k) && e in t.elements && Agree(all, t.rank, k', k)
    ensures Fits(e, k')
  {
    assert e in all;
    FitsSame(all, e, k, k');
  }

  lemma {:induction false} FitsSame(all: set<FfiType>, t: FfiType, k: Sizes, k': Sizes)
    requires Closed(all) && t in all && Fits(t, k) && Agree(all, t.rank, k', k)
    ensures Fits(t, k')
    decreases t.rank
  {
    hide LayoutOf;
    ElementsAgree(all, t, k', k);
    forall n {:trigger Fields(t, n, k')} | 0 <= n <= |t.elements|
      ensures Fields(t, n, k') == Fields(t, n, k)
    {
      FieldsSame(t, n, k', k);
    }
    assert Fields(t, |t.elements|, k') == Fields(t, |t.elements|, k);
    forall e {:trigger e in t.elements} | e in t.elements
      ensures Fits(e, k')
    {
      assert e in all;
      FitsSame(all, e, k, k');
    }
  }

  /** A type without a size of its own counts as what its elements give. */
  lemma NotKnown(t: FfiType, k: Sizes)
    requires Ranked(t) && t.basic.None? && t !in k
    ensures LayoutOf(t, k) == Anew(t, k)
  {}

  lemma StillAgree(all: set<FfiType>, rank: nat, k: Sizes, k': Sizes, k'': Sizes)
    requires Closed(all) && AgreeOnAll(all, k, k') && Agree(all, rank, k', k'')
    ensures Agree(all, rank, k, k'')
  {
    hide LayoutOf;
  }

  lemma SameAgrees(all: set<FfiType>, k: Sizes)
    requires Closed(all)
    ensures AgreeOnAll(all, k, k)
  {
    hide LayoutOf;
  }

  /** What the failure of element `i` leaves behind. */
  lemma Spoilt(all: set<FfiType>, t: FfiType, i: nat, before: Sizes, after: Sizes, k: Sizes)
    requires Closed(all) && t in all && Sound(k) && t.basic.None? && t !in k && t.defined
    requires i < |t.elements| && t.elements[i] in all && Fields(t, i, k).Some? && LayoutOf(t.elements[i], before).None?
    requires Agree(all, t.rank, before, k) && AgreeOnAll(all, after, before + Leftovers(t.elements[i], before))
    requires SameFrom(all, t, after, k)
    requires t in after <==> Fields(t, i, k).value.end != 0
    requires t in after ==> after[t] == Layout(Fields(t, i, k).value.end, Fields(t, i, k).value.alignment)
    ensures Anew(t, k).None? && AgreeOnAll(all, after, k + Leftovers(t, k))
  {
    hide LayoutOf, Fields, Alike, Leftovers, Good;
    var e := t.elements[i];
    assert e in t.elements;
    var l := Leftovers(e, k);
    AgreeBelow(all, t, e, before, k);
    LeftoversSame(all, e, before, k);
    BadElement(t, i, |t.elements|, k);
    BadLayout(t, i, k);
    forall x {:trigger x in l} | x in l
      ensures x in all && x.rank < t.rank && LayoutOf(x, k).None?
    {
      LeftoversBad(all, e, k, x);
    }
    BadInBoth(all, t.rank, before, k, l);
    AddedAgree(all, t.rank, before, k, l);
    LeftoversOf(t, i, k);
    FieldsSound(t, i, k);
    Local(all, t, k + l, k + Leftovers(t, k));
    Chained(all, t.rank, after, before + l, k + l, k + Leftovers(t, k));
    SameAlike(t, after, k + Leftovers(t, k));
    Lift(all, t, after, k + Leftovers(t, k));
  }

  lemma AgreeBelow(all: set<FfiType>, t: FfiType, e: FfiType, k: Sizes, k': Sizes)
    requires Closed(all) && e in all && e.rank < t.rank && Agree(all, t.rank, k, k')
    ensures Agree(all, e.rank, k, k') && LayoutOf(e, k) == LayoutOf(e, k')
  {
    hide LayoutOf;
  }

  lemma BadInBoth(all: set<FfiType>, rank: nat, k: Sizes, k': Sizes, l: Sizes)
    requires Closed(all) && Agree(all, rank, k, k')
    requires forall x {:trigger x in l} :: x in l ==> x in all && x.rank < rank && LayoutOf(x, k').None?
    ensures forall x {:trigger x in l} :: x in l ==> x in all && x.rank < rank && LayoutOf(x, k).None?
  {
    hide LayoutOf;
  }

  lemma Chained(all: set<FfiType>, rank: nat, a: Sizes, b: Sizes, c: Sizes, d: Sizes)
    requires Closed(all) && AgreeOnAll(all, a, b) && Agree(all, rank, b, c) && Agree(all, rank, c, d)
    ensures Agree(all, rank, a, d)
  {
    hide LayoutOf;
  }

  lemma SameAlike(t: FfiType, k: Sizes, k': Sizes)
    requires Ranked(t) && (t in k <==> t in k') && (t in k ==> k[t] == k'[t])
    ensures Alike(t, k, k')
  {}

  lemma BadLayout(t: FfiType, i: nat, k: Sizes)
    requires Ranked(t) && t.basic.None? && t !in k && Fields(t, |t.elements|, k).None?
    ensures Anew(t, k).None? && LayoutOf(t, k).None?
  {}

  lemma LeftoversOf(t: FfiType, i: nat, k: Sizes)
    requires Ranked(t) && LayoutOf(t, k).None? && t.defined && i < |t.elements| && Good(t, |t.elements|, k) == i
    ensures Fields(t, i, k).Some? && Ranked(t.elements[i])
    ensures var p := Fields(t, i, k).value;
      Leftovers(t, k) == if i == 0 then Leftovers(t.elements[i], k) else Leftovers(t.elements[i], k)[t := Layout(p.end, p.alignment)]
  {
    hide LayoutOf, Fields;
    assert t.elements[i] in t.elements;
  }

  /** What the end of the loop leaves behind. */
  lemma LaidOut(all: set<FfiType>, t: FfiType, after: Sizes, k: Sizes)
    requires Closed(all) && t in all && t.basic.None? && t !in k
    requires Agree(all, t.rank, after, k) && SameFrom(all, t, after, k)
    requires t in after <==> Anew(t, k).Some?
    requires t in after ==> after[t] == Anew(t, k).value
    ensures t in after ==> AgreeOnAll(all, after, k)
    ensures t !in after && t.elements == [] ==> AgreeOnAll(all, after, k + Leftovers(t, k))
  {
    hide Anew, Fields, Agree;
    assert Alike(t, after, k);
    Lift(all, t, after, k);
    if t !in after && t.elements == [] {
      assert Leftovers(t, k) == map[] && k + Leftovers(t, k) == k;
    }
  }

  /** Nothing wraps on the way. */
  lemma AlignedEnd(t: FfiType, i: nat, k: Sizes)
    requires Ranked(t) && Sound(k) && Fits(t, k) && i < |t.elements| && Fields(t, i, k).Some?
    requires Ranked(t.elements[i]) && LayoutOf(t.elements[i], k).Some?
    ensures var p, l := Fields(t, i, k).value, LayoutOf(t.elements[i], k).value;
      && 0 <= p.end <= LIMIT && 0 < l.alignment <= LIMIT && IsWord(p.end) && IsWord(l.alignment)
      && FfiAlign(p.end, l.alignment) == Up(p.end, l.alignment)
      && Fields(t, i + 1, k) == Some(Extended(p, l)) && SoundLayout(Layout(Extended(p, l).end, Extended(p, l).alignment))
  {
    hide Up, PowerOfTwo, FfiAlign;
    FieldsSound(t, i, k);
    assert t.elements[i] in t.elements;
    LayoutSound(t.elements[i], k);
    FfiAlignRoundsUp(Fields(t, i, k).value.end, LayoutOf(t.elements[i], k).value.alignment);
    FieldsSound(t, i + 1, k);
    assert Fields(t, i + 1, k).value.end <= LIMIT;
  }

  lemma FinalSize(t: FfiType, k: Sizes)
    requires Ranked(t) && Sound(k) && Fits(t, k) && t.defined && t.elements != [] && Fields(t, |t.elements|, k).Some?
    ensures var p := Fields(t, |t.elements|, k).value;
      && 0 < p.end <= LIMIT && 0 < p.alignment <= LIMIT && IsWord(p.end) && IsWord(p.alignment)
      && FfiAlign(p.end, p.alignment) == Up(p.end, p.alignment) && Up(p.end, p.alignment) > 0
      && Anew(t, k) == Some(Layout(Up(p.end, p.alignment), p.alignment)) && SoundLayout(Anew(t, k).value)
  {
    hide Up, PowerOfTwo, FfiAlign;
    FieldsSound(t, |t.elements|, k);
    var p := Fields(t, |t.elements|, k).value;
    PowersPositive(p.alignment);
    FfiAlignRoundsUp(p.end, p.alignment);
    UpIsLeast(p.end, p.alignment);
  }

  /** An element without a layout: it is the first, and there is no layout for the whole. */
  lemma {:induction false} BadElement(t: FfiType, i: nat, n: nat, k: Sizes)
    requires Ranked(t) && i < n <= |t.elements| && Fields(t, i, k).Some?
    requires Ranked(t.elements[i]) && LayoutOf(t.elements[i], k).None?
    ensures Fields(t, n, k).None? && Good(t, n, k) == i
  {
    assert t.elements[i] in t.elements;
    if n > i + 1 {
      BadElement(t, i, n - 1, k);
    }
  }

  // ---- when there is no layout

  /** An aggregate without a size that has no list of elements, an empty one, or such an element. */
  ghost predicate Malformed(t: FfiType, k: Sizes)
    requires Ranked(t)
    decreases t.rank
  {
    && t.basic.None? && t !in k
    && (!t.defined || t.elements == [] || exists e {:trigger e in t.elements} :: e in t.elements && Malformed(e, k))
  }

  /** There is a layout for everything else. */
  lemma {:induction false} NoLayoutIff(t: FfiType, k: Sizes)
    requires Ranked(t) && Sound(k)
    ensures LayoutOf(t, k).None? <==> Malformed(t, k)
    decreases t.rank
  {
    hide Extended, SoundLayout;
    if t.basic.None? && t !in k && t.defined {
      var n := |t.elements|;
      var g := Good(t, n, k);
      FieldsSound(t, g, k);
      forall e {:trigger e in t.elements} | e in t.elements
        ensures Ranked(e) && (LayoutOf(e, k).None? <==> Malformed(e, k))
      {
        NoLayoutIff(e, k);
      }
      if g < n {
        FirstBad(t, n, k);
        assert t.elements[g] in t.elements;
      } else {
        forall e {:trigger e in t.elements} | e in t.elements
          ensures !Malformed(e, k)
        {
          var i :| 0 <= i < n && t.elements[i] == e;
          FieldsPrefix(t, i, n, k);
        }
      }
    }
  }

  /** The first element without a layout. */
  lemma {:induction false} FirstBad(t: FfiType, n: nat, k: Sizes)
    requires Ranked(t) && Sound(k) && n <= |t.elements| && Good(t, n, k) < n
    ensures Ranked(t.elements[Good(t, n, k)]) && LayoutOf(t.elements[Good(t, n, k)], k).None?
  {
    hide LayoutOf, Extended, SoundLayout;
    assert t.elements[n - 1] in t.elements && t.elements[Good(t, n, k)] in t.elements;
    if Fields(t, n - 1, k).None? {
      FirstBad(t, n - 1, k);
    } else {
      FieldsSound(t, n - 1, k);
      if LayoutOf(t.elements[n - 1], k).Some? {
        LayoutSound(t.elements[n - 1], k);
      }
    }
  }

  lemma {:induction false} FieldsPrefix(t: FfiType, i: nat, n: nat, k: Sizes)
    requires Ranked(t) && i < n <= |t.elements| && Fields(t, n, k).Some?
    ensures Ranked(t.elements[i]) && LayoutOf(t.elements[i], k).Some?
  {
    assert t.elements[i] in t.elements && t.elements[n - 1] in t.elements;
    if i < n - 1 {
      FieldsPrefix(t, i, n - 1, k);
    }
  }

  /** Where every size is right, so is what types count as. */
  lemma SettledAgrees(all: set<FfiType>, k: Sizes)
    requires Closed(all)
    requires forall x {:trigger x in k} :: x in k ==> x in all && LayoutOf(x, map[]) == Some(k[x])
    ensures AgreeOnAll(all, k, map[])
  {
    hide Anew;
    forall x {:trigger x in all} | x in all
      ensures LayoutOf(x, k) == LayoutOf(x, map[])
    {
      SameLayout(all, x, k, map[]);
    }
  }

  // ---- trying again

  /** A type is refused, and refused again when prepared once more. */
  ghost predicate Hopeless(t: FfiType, k: Sizes)
    requires Ranked(t)
  {
    Malformed(t, k) && Malformed(t, k + Leftovers(t, k))
  }

  /** What a first attempt leaves behind decides the second. */
  method PrepareTwice(t: FfiType, ghost all: set<FfiType>) returns (first: bool, second: bool)
    requires Closed(all) && AllSane(all) && t in all
    requires Fits(t, Known(all)) && Fits(t, Known(all) + Leftovers(t, Known(all)))
    modifies all
    ensures first <==> !Malformed(t, old(Known(all)))
    ensures second <==> !Hopeless(t, old(Known(all)))
  {
    hide LayoutOf, AgreeOnAll, Fits, Leftovers, Anew, Malformed, Sound;
    ghost var k := Known(all);
    KnownSound(all);
    NoLayoutIff(t, k);
    ghost var l := Leftovers(t, k);
    LeftoversSound(t, k);
    BothSound(k, l);
    NoLayoutIff(t, k + l);
    first := Prepare(t, all);
    ghost var k' := if first then k else k + l;
    AgreeAt(all, t, Known(all), k');
    second := Prepare(t, all);
  }

  lemma AgreeAt(all: set<FfiType>, t: FfiType, k: Sizes, k': Sizes)
    requires Closed(all) && t in all && AgreeOnAll(all, k, k')
    ensures LayoutOf(t, k) == LayoutOf(t, k')
    ensures Fits(t, k') ==> Fits(t, k)
  {
    hide LayoutOf;
    if Fits(t, k') {
      FitsSame(all, t, k', k);
    }
  }

  lemma BothSound(k: Sizes, l: Sizes)
    requires Sound(k) && Sound(l)
    ensures Sound(k + l)
  {
    hide SoundLayout;
  }

  /** What is left behind is a sound size. */
  lemma {:induction false} LeftoversSound(t: FfiType, k: Sizes)
    requires Ranked(t) && Sound(k) && Fits(t, k)
    ensures Sound(Leftovers(t, k))
    decreases t.rank
  {
    hide LayoutOf, PowerOfTwo;
    var g := Good(t, |t.elements|, k);
    FieldsSound(t, g, k);
    assert Fields(t, g, k).value.end <= LIMIT;
    if g < |t.elements| {
      assert t.elements[g] in t.elements;
      LeftoversSound(t.elements[g], k);
    }
  }

  /** When a malformed type is accepted the second time: it has elements, and either the first of them is sound, or
      the first of them would itself be accepted the second time, and every other one is sound once the sizes that
      the first left behind are counted. */
  lemma RetryAccepted(t: FfiType, k: Sizes)
    requires Ranked(t) && Sound(k) && Malformed(t, k)
    ensures t.defined && t.elements != [] ==> Ranked(t.elements[0])
    ensures !Hopeless(t, k) <==>
      && t.defined && t.elements != []
      && var e := t.elements[0];
         || !Malformed(e, k)
         || (!Hopeless(e, k) && forall x {:trigger x in t.elements} :: x in t.elements && x != e ==> !Malformed(x, k + Leftovers(e, k)))
  {
    hide LayoutOf, Fields, Anew;
    NoLayoutIff(t, k);
    if t.defined && t.elements != [] {
      var e := t.elements[0];
      assert e in t.elements;
      NoLayoutIff(e, k);
      if LayoutOf(e, k).Some? {
        LeavesSize(t, k);
      } else {
        LeavesNone(t, k);
        assert !Malformed(t, k + Leftovers(t, k)) <==> forall x {:trigger x in t.elements} :: x in t.elements ==> !Malformed(x, k + Leftovers(e, k));
      }
    } else {
      NothingLeft(t, k);
    }
  }

  lemma NothingLeft(t: FfiType, k: Sizes)
    requires Ranked(t) && t.basic.None? && t !in k && (!t.defined || t.elements == [])
    ensures Leftovers(t, k) == map[] && t !in k + Leftovers(t, k)
  {}

  /** A sound first element leaves a size. */
  lemma LeavesSize(t: FfiType, k: Sizes)
    requires Ranked(t) && Sound(k) && t.basic.None? && LayoutOf(t, k).None? && t.defined && t.elements != []
    requires Ranked(t.elements[0]) && LayoutOf(t.elements[0], k).Some?
    ensures t in Leftovers(t, k)
  {
    hide LayoutOf, Extended;
    var e := t.elements[0];
    LayoutSound(e, k);
    assert Fields(t, 0, k) == Some(Partial(0, 0, []));
    assert Fields(t, 1, k).Some?;
    GoodFrom(t, 1, |t.elements|, k);
  }

  lemma {:induction false} GoodFrom(t: FfiType, i: nat, n: nat, k: Sizes)
    requires Ranked(t) && i <= n <= |t.elements| && Fields(t, i, k).Some?
    ensures Good(t, n, k) >= i
  {
    hide Fields;
    if i < n {
      GoodFrom(t, i, n - 1, k);
    }
  }

  /** A bad first element leaves what it leaves, and nothing in the type itself. */
  lemma LeavesNone(t: FfiType, k: Sizes)
    requires Ranked(t) && Sound(k) && t.basic.None? && t !in k && LayoutOf(t, k).None? && t.defined && t.elements != []
    requires Ranked(t.elements[0]) && LayoutOf(t.elements[0], k).None?
    ensures Leftovers(t, k) == Leftovers(t.elements[0], k) && t !in k + Leftovers(t, k)
  {
    hide LayoutOf, Extended;
    assert Fields(t, 0, k) == Some(Partial(0, 0, []));
    BadElement(t, 0, |t.elements|, k);
    LeftoversOf(t, 0, k);
    LowerLeftovers(t.elements[0], k);
    assert t.elements[0] in t.elements;
  }

  lemma {:induction false} LowerLeftovers(t: FfiType, k: Sizes)
    requires Ranked(t)
    ensures forall x {:trigger x in Leftovers(t, k)} :: x in Leftovers(t, k) ==> x.rank <= t.rank
    decreases t.rank
  {
    hide LayoutOf;
    var g := Good(t, |t.elements|, k);
    if g < |t.elements| {
      assert t.elements[g] in t.elements;
      LowerLeftovers(t.elements[g], k);
    }
  }

  /** A structure of an int and an empty structure, and one that only holds this: neither has a layout, and the
      second attempt accepts them all the same. */
  method RetryExample(nested: bool) returns (first: bool, second: bool, ghost t: FfiType)
    ensures Ranked(t) && Malformed(t, map[]) && t.basic.None?
    ensures nested ==> |t.elements| == 1 && Ranked(t.elements[0]) && Malformed(t.elements[0], map[])
    ensures !first && second
  {
    PowerOfFour();
    var word := new FfiType.Basic(4, 4);
    var empty := new FfiType.Aggregate([], true, 0);
    var inner := new FfiType.Aggregate([word, empty], true, 1);
    var outer := new FfiType.Aggregate([inner], true, 2);
    ghost var all := {word, empty, inner, outer};
    ghost var left: Sizes := map[inner := Layout(4, 4)];
    IntAndEmpty(word, empty, inner, map[]);
    IntAndEmpty(word, empty, inner, left);
    NoLayoutIff(inner, map[]);
    OnlyThis(inner, outer);
    assert Known(all) == map[] && map[] + left == left;
    assert inner in outer.elements && word in inner.elements && empty in inner.elements;
    if nested {
      t := outer;
      first, second := PrepareTwice(outer, all);
    } else {
      t := inner;
      first, second := PrepareTwice(inner, all);
    }
  }

  lemma IntAndEmpty(word: FfiType, empty: FfiType, t: FfiType, k: Sizes)
    requires word.basic == Some(Layout(4, 4)) && word.elements == [] && PowerOfTwo(4)
    requires empty.basic == None && empty.elements == [] && empty.defined && empty !in k
    requires t.basic == None && t.elements == [word, empty] && t.defined && empty.rank < t.rank && word.rank < t.rank
    ensures Ranked(t) && Fits(t, k) && (t !in k ==> Malformed(t, k) && Leftovers(t, k) == map[t := Layout(4, 4)])
  {
    hide PowerOfTwo;
    assert Ranked(word) && Ranked(empty);
    assert t.elements[0] == word && t.elements[1] == empty && empty in t.elements;
    NoElements(word, k);
    NoElements(empty, k);
    assert Fits(word, k) && Fits(empty, k) && LayoutOf(word, k) == Some(Layout(4, 4)) && LayoutOf(empty, k) == None;
    assert Fields(t, 0, k) == Some(Partial(0, 0, []));
    FirstOf4();
    assert Fields(t, 1, k) == Some(Partial(4, 4, [0]));
    assert Fields(t, 2, k) == None && Good(t, 2, k) == 1 && Anew(t, k) == None;
    LeftoversEmpty(empty, k);
  }

  lemma LeftoversEmpty(t: FfiType, k: Sizes)
    requires Ranked(t) && t.elements == []
    ensures Leftovers(t, k) == map[]
  {}

  lemma OnlyThis(inner: FfiType, t: FfiType)
    requires Ranked(inner) && Malformed(inner, map[]) && Leftovers(inner, map[]) == map[inner := Layout(4, 4)] && Anew(inner, map[]) == None
    requires Fits(inner, map[]) && Fits(inner, map[inner := Layout(4, 4)]) && PowerOfTwo(4)
    requires inner.basic == None && inner.rank < t.rank && t.basic == None && t.elements == [inner] && t.defined
    ensures Ranked(t) && Malformed(t, map[]) && Fits(t, map[])
    ensures var k: Sizes := map[inner := Layout(4, 4)];
      Leftovers(t, map[]) == k && Fits(t, k) && !Malformed(t, k)
  {
    hide PowerOfTwo, Leftovers, Malformed;
    assert inner in t.elements && t.elements[0] == inner;
    var k: Sizes := map[inner := Layout(4, 4)];
    OnlyGood(t, inner, k);
    OnlyBad(t, inner, map[]);
    MalformedBy(t, inner, map[]);
    NotMalformed(t, inner, k);
  }

  lemma OnlyGood(t: FfiType, e: FfiType, k: Sizes)
    requires Ranked(t) && t.elements == [e] && t.defined && Ranked(e) && LayoutOf(e, k) == Some(Layout(4, 4)) && Fits(e, k)
    ensures Fits(t, k)
  {
    hide Fields, LayoutOf, Up;
    OnlyField(t, e, k);
    FourUp();
    forall n {:trigger Fields(t, n, k)} | 0 <= n <= |t.elements|
      ensures Fields(t, n, k).Some? && Fields(t, n, k).value.end <= LIMIT
    {
      assert n == 0 || n == 1;
    }
  }

  lemma FourUp()
    ensures Up(4, 4) == 4
  {}

  lemma OnlyField(t: FfiType, e: FfiType, k: Sizes)
    requires Ranked(t) && t.elements == [e] && Ranked(e) && LayoutOf(e, k) == Some(Layout(4, 4))
    ensures Fields(t, 0, k) == Some(Partial(0, 0, [])) && Fields(t, 1, k) == Some(Partial(4, 4, [0]))
  {
    hide LayoutOf, Extended;
    assert t.elements[0] == e;
    FirstOf4();
  }

  lemma FirstOf4()
    ensures Extended(Partial(0, 0, []), Layout(4, 4)) == Partial(4, 4, [0])
  {
    assert Up(0, 4) == 0;
  }

  lemma OnlyBad(t: FfiType, e: FfiType, k: Sizes)
    requires Ranked(t) && t.basic.None? && t !in k && t.elements == [e] && t.defined && Ranked(e) && LayoutOf(e, k) == None
    ensures Fields(t, 0, k) == Some(Partial(0, 0, [])) && Fields(t, 1, k) == None && Anew(t, k) == None
    ensures Leftovers(t, k) == Leftovers(e, k)
  {
    hide Leftovers;
    assert t.elements[0] == e;
    assert Fields(t, 0, k) == Some(Partial(0, 0, []));
    BadElement(t, 0, 1, k);
    LeftoversOf(t, 0, k);
  }

  lemma MalformedBy(t: FfiType, e: FfiType, k: Sizes)
    requires Ranked(t) && t.basic.None? && t !in k && e in t.elements && Malformed(e, k)
    ensures Malformed(t, k)
  {}

  lemma NotMalformed(t: FfiType, e: FfiType, k: Sizes)
    requires Ranked(t) && t.elements == [e] && t.defined && e in k
    ensures !Malformed(t, k)
  {}

  lemma PowerOfFour()
    ensures PowerOfTwo(4)
  {
    assert Pow2(2) == 4;
  }
}
