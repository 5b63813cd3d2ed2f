/** The list of segments: its records in memory, walks along it, and its total size. */
module Segments {
  import opened Words
  import opened Rings
  import opened State
  import opened Heap
  import opened Invariant
  import opened Regions
  import opened Adding
  import opened Payload

  // ---- total size

  lemma {:induction false} TotalUpdate(segs: seq<Seg>, i: int, g: Seg)
    requires 0 <= i < |segs|
    ensures TotalSize(segs[i := g]) == TotalSize(segs) - (segs[i].end - segs[i].base) + (g.end - g.base)
  {
    if i == 0 {
      assert segs[i := g][1..] == segs[1..];
    } else {
      TotalUpdate(segs[1..], i - 1, g);
      assert segs[i := g][1..] == segs[1..][i - 1 := g];
    }
  }

  lemma TotalPush(segs: seq<Seg>, tb: int, te: int, rec: int)
    requires |segs| > 0
    ensures TotalSize(Pushed(segs, tb, te, rec)) == TotalSize(segs) + te - tb
  {
    var segs' := Pushed(segs, tb, te, rec);
    assert segs'[1..] == segs[0 := segs[0].(rec := rec)];
    TotalUpdate(segs, 0, segs[0].(rec := rec));
  }

  ghost function Dropped(segs: seq<Seg>, i: int): seq<Seg>
    requires 0 <= i < |segs|
  {
    segs[..i] + segs[i + 1..]
  }

  lemma DroppedAt(segs: seq<Seg>, i: int)
    requires 0 <= i < |segs|
    ensures |Dropped(segs, i)| == |segs| - 1
    ensures forall j :: 0 <= j < |segs| - 1 ==> Dropped(segs, i)[j] == segs[if j < i then j else j + 1]
  {}

  lemma {:induction false} TotalDrop(segs: seq<Seg>, i: int)
    requires 0 <= i < |segs|
    ensures TotalSize(Dropped(segs, i)) == TotalSize(segs) - (segs[i].end - segs[i].base)
  {
    if i == 0 {
      assert Dropped(segs, 0) == segs[1..];
    } else {
      TotalDrop(segs[1..], i - 1);
      assert Dropped(segs, i)[0] == segs[0];
      assert Dropped(segs, i)[1..] == Dropped(segs[1..], i - 1);
    }
  }

  // ---- whole granules

  lemma MultipleSum(a: int, b: int, g: int)
    requires g > 0 && Multiple(a, g) && Multiple(b, g)
    ensures Multiple(a + b, g) && Multiple(a - b, g)
  {
    var x, y := a / g, b / g;
    assert a == g * x && b == g * y;
    assert a + b == g * (x + y) && a - b == g * (x - y);
    DividesTimes(x + y, g);
    DividesTimes(x - y, g);
  }

  lemma DividesTimes(x: int, g: int)
    requires g > 0
    ensures g * x % g == 0
  {
    var y := g * x;
    var q, r := y / g, y % g;
    assert y == g * q + r;
    assert g * (x - q) == g * x - g * q;
    Between(x - q, g, r);
  }

  lemma TimesGrows(d: int, g: int)
    requires g > 0
    ensures d >= 1 ==> g * d >= g
    ensures d <= -1 ==> g * d <= -g
  {}

  lemma Between(d: int, g: int, r: int)
    requires 0 <= r < g && g * d == r
    ensures r == 0
  {
    TimesGrows(d, g);
    assert d == 0 ==> g * d == 0;
  }

  // ---- records

  /** Records lie inside their own segments, so no two share an address. */
  ghost predicate RecsApart(segs: seq<Seg>) {
    && |segs| > 0 && segs[0].rec == SEG_HEAD
    && (forall i :: 0 < i < |segs| ==> segs[i].rec > 0)
    && (forall i, j :: 0 < i < |segs| && 0 < j < |segs| && i != j ==> segs[i].rec != segs[j].rec)
  }

  lemma RecordsApart(w: World, out: set<int>, segBase: Field, segSize: Field, segNext: Field)
    requires ViewsExcept(w, out) && w.top != 0 && RecordsOk(segBase, segSize, segNext, w.segs)
    ensures RecsApart(w.segs)
  {
    forall i | 0 <= i < |w.segs|
      ensures if i == 0 then w.segs[i].rec == SEG_HEAD else w.segs[i].rec > 0
    {
      assert RecordOk(segBase, segSize, segNext, w.segs, i);
    }
    forall i, j | 0 < i < |w.segs| && 0 < j < |w.segs| && i != j
      ensures w.segs[i].rec != w.segs[j].rec
    {
      assert TailOk(w.heap, w.segs[i]) && TailOk(w.heap, w.segs[j]) && SegsApart(w.segs);
      assert i < j || j < i;
    }
  }

  /** Rewriting the base and size words of one record. */
  lemma RecordsUpdate(segBase: Field, segSize: Field, segNext: Field, segBase': Field, segSize': Field,
                      segs: seq<Seg>, i: int, g: Seg)
    requires RecordsOk(segBase, segSize, segNext, segs) && RecsApart(segs) && 0 <= i < |segs| && g.rec == segs[i].rec
    requires forall x :: x != g.rec ==> At(segBase', x) == At(segBase, x) && At(segSize', x) == At(segSize, x)
    requires At(segBase', g.rec) == g.base && At(segSize', g.rec) == g.end - g.base
    ensures RecordsOk(segBase', segSize', segNext, segs[i := g])
  {
    var segs' := segs[i := g];
    forall j | 0 <= j < |segs|
      ensures RecordOk(segBase', segSize', segNext, segs', j)
    {
      assert RecordOk(segBase, segSize, segNext, segs, j);
      assert j != i ==> segs[j].rec != g.rec;
    }
  }

  /** Pushing the head record down into a record of its own. */
  lemma RecordsPush(segBase: Field, segSize: Field, segNext: Field, segs: seq<Seg>, tb: int, te: int, ss: int)
    requires RecordsOk(segBase, segSize, segNext, segs) && RecsApart(segs) && ss > 0
    requires forall i :: 0 < i < |segs| ==> segs[i].rec != ss
    ensures RecordsOk(segBase[ss := At(segBase, SEG_HEAD)][SEG_HEAD := tb],
                      segSize[ss := At(segSize, SEG_HEAD)][SEG_HEAD := te - tb],
                      segNext[ss := At(segNext, SEG_HEAD)][SEG_HEAD := ss], Pushed(segs, tb, te, ss))
  {
    var segs' := Pushed(segs, tb, te, ss);
    PushedAt(segs, tb, te, ss);
    hide Pushed;
    var b', s', n' := segBase[ss := At(segBase, SEG_HEAD)][SEG_HEAD := tb],
                      segSize[ss := At(segSize, SEG_HEAD)][SEG_HEAD := te - tb],
                      segNext[ss := At(segNext, SEG_HEAD)][SEG_HEAD := ss];
    forall i | 0 <= i < |segs'|
      ensures RecordOk(b', s', n', segs', i)
    {
      if i >= 1 {
        assert RecordOk(segBase, segSize, segNext, segs, i - 1);
      }
    }
  }

  /** Linking the record before `i` past it. */
  lemma RecordsDrop(segBase: Field, segSize: Field, segNext: Field, segs: seq<Seg>, i: int)
    requires RecordsOk(segBase, segSize, segNext, segs) && RecsApart(segs) && 0 < i < |segs|
    ensures RecordsOk(segBase, segSize, segNext[segs[i - 1].rec := At(segNext, segs[i].rec)], Dropped(segs, i))
  {
    var segs', n' := Dropped(segs, i), segNext[segs[i - 1].rec := At(segNext, segs[i].rec)];
    assert RecordOk(segBase, segSize, segNext, segs, i);
    forall j | 0 <= j < |segs'|
      ensures RecordOk(segBase, segSize, n', segs', j)
    {
      var k := if j < i then j else j + 1;
      assert segs'[j] == segs[k] && RecordOk(segBase, segSize, segNext, segs, k);
      assert j + 1 < |segs'| ==> segs'[j + 1] == segs[if j + 1 < i then j + 1 else j + 2];
      assert k != i - 1 ==> segs[k].rec != segs[i - 1].rec;
    }
  }

  /** Writing the words of segment records: they are in no payload. */
  ghost predicate RecordWrites(a: Memory, b: Memory, ss: int) {
    && b == a.(segBase := b.segBase, segSize := b.segSize, segNext := b.segNext)
    && forall r :: r != ss && r != SEG_HEAD ==>
         At(b.segBase, r) == At(a.segBase, r) && At(b.segSize, r) == At(a.segSize, r) && At(b.segNext, r) == At(a.segNext, r)
  }

  lemma RecordQuiet(a: Memory, b: Memory, c: Chunks, live: Blocks, ss: int)
    requires Phys(a.head, a.foot, c) && RecordWrites(a, b, ss) && Within(live, Lives(c))
    requires ss == SEG_HEAD || (ss - 16 in c && c[ss - 16] == Chunk(RECORD_SIZE, Record))
    ensures Quiet(a, b, live)
  {
    Sizes(a.head, a.foot, c);
    hide Phys;
    if ss != SEG_HEAD {
      assert ss - 16 !in live;
      OwnBytes(c, live, ss - 16, 16);
      OwnBytes(c, live, ss - 16, 24);
      OwnBytes(c, live, ss - 16, 32);
    }
    forall w | w < 16
      ensures !InPayload(live, w)
    {
    }
    hide InPayload, Lives;
  }

  // ---- walks

  /** `sp` is the record of segment `k`, or null behind the last one. */
  ghost predicate RecordOf(segs: seq<Seg>, sp: int, k: int) {
    0 <= k <= |segs| && (k < |segs| ==> sp == segs[k].rec && sp != 0) && (k == |segs| ==> sp == 0)
  }

  lemma WalkStep(m: Mstate, segs: seq<Seg>, sp: int, k: int)
    requires RecordsOk(m.segBase, m.segSize, m.segNext, segs) && RecordOf(segs, sp, k) && k < |segs|
    ensures RecordOf(segs, At(m.segNext, sp), k + 1)
    ensures At(m.segBase, sp) == segs[k].base && At(m.segBase, sp) + At(m.segSize, sp) == segs[k].end
  {
    assert RecordOk(m.segBase, m.segSize, m.segNext, segs, k);
    if k + 1 < |segs| {
      assert RecordOk(m.segBase, m.segSize, m.segNext, segs, k + 1);
    }
  }

  /** The first segment that ends at `a`. */
  method SegmentEndingAt(m: Mstate, a: int) returns (sp: int, ghost k: int)
    requires |m.segs| > 0 && RecordsOk(m.segBase, m.segSize, m.segNext, m.segs)
    ensures RecordOf(m.segs, sp, k) && (k < |m.segs| ==> m.segs[k].end == a)
    ensures forall j :: 0 <= j < k ==> m.segs[j].end != a
  {
    sp, k := SEG_HEAD, 0;
    assert RecordOk(m.segBase, m.segSize, m.segNext, m.segs, 0);
    while sp != 0 && a != At(m.segBase, sp) + At(m.segSize, sp)
      invariant RecordOf(m.segs, sp, k)
      invariant forall j :: 0 <= j < k ==> m.segs[j].end != a
      decreases |m.segs| - k
    {
      WalkStep(m, m.segs, sp, k);
      sp, k := At(m.segNext, sp), k + 1;
    }
    if k < |m.segs| {
      WalkStep(m, m.segs, sp, k);
    }
  }

  /** The first segment that begins at `a`. */
  method SegmentStartingAt(m: Mstate, a: int) returns (sp: int, ghost k: int)
    requires |m.segs| > 0 && RecordsOk(m.segBase, m.segSize, m.segNext, m.segs)
    ensures RecordOf(m.segs, sp, k) && (k < |m.segs| ==> m.segs[k].base == a)
    ensures forall j :: 0 <= j < k ==> m.segs[j].base != a
  {
    sp, k := SEG_HEAD, 0;
    assert RecordOk(m.segBase, m.segSize, m.segNext, m.segs, 0);
    while sp != 0 && At(m.segBase, sp) != a
      invariant RecordOf(m.segs, sp, k)
      invariant forall j :: 0 <= j < k ==> m.segs[j].base != a
      decreases |m.segs| - k
    {
      WalkStep(m, m.segs, sp, k);
      sp, k := At(m.segNext, sp), k + 1;
    }
    if k < |m.segs| {
      WalkStep(m, m.segs, sp, k);
    }
  }

  /** segment_holding. */
  method SegmentHolding(m: Mstate, a: int) returns (sp: int, ghost k: int)
    requires |m.segs| > 0 && RecordsOk(m.segBase, m.segSize, m.segNext, m.segs)
    ensures RecordOf(m.segs, sp, k) && (k < |m.segs| ==> m.segs[k].base <= a < m.segs[k].end)
    ensures forall j :: 0 <= j < k ==> !(m.segs[j].base <= a < m.segs[j].end)
  {
    sp, k := SEG_HEAD, 0;
    assert RecordOk(m.segBase, m.segSize, m.segNext, m.segs, 0);
    while true
      invariant RecordOf(m.segs, sp, k) && k < |m.segs|
      invariant forall j :: 0 <= j < k ==> !(m.segs[j].base <= a < m.segs[j].end)
      decreases |m.segs| - k
    {
      WalkStep(m, m.segs, sp, k);
      if a >= At(m.segBase, sp) && a < At(m.segBase, sp) + At(m.segSize, sp) {
        return;
      }
      sp, k := At(m.segNext, sp), k + 1;
      if sp == 0 {
        return;
      }
    }
  }

  /** has_segment_link: some record lies inside the segment of record `ss`. */
  method HasSegmentLink(m: Mstate, ss: int, ghost i: int) returns (r: bool)
    requires RecordsOk(m.segBase, m.segSize, m.segNext, m.segs) && 0 <= i < |m.segs| && ss == m.segs[i].rec
    ensures r <==> exists j :: 0 <= j < |m.segs| && m.segs[i].base <= m.segs[j].rec < m.segs[i].end
  {
    var sp := SEG_HEAD;
    ghost var k := 0;
    assert RecordOk(m.segBase, m.segSize, m.segNext, m.segs, 0);
    assert RecordOk(m.segBase, m.segSize, m.segNext, m.segs, i);
    while true
      invariant RecordOf(m.segs, sp, k) && k < |m.segs|
      invariant forall j :: 0 <= j < k ==> !(m.segs[i].base <= m.segs[j].rec < m.segs[i].end)
      decreases |m.segs| - k
    {
      WalkStep(m, m.segs, sp, k);
      if sp >= At(m.segBase, ss) && sp < At(m.segBase, ss) + At(m.segSize, ss) {
        assert m.segs[i].base <= m.segs[k].rec < m.segs[i].end;
        return true;
      }
      sp, k := At(m.segNext, sp), k + 1;
      if sp == 0 {
        return false;
      }
    }
  }
}
