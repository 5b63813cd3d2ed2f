/** The heap in outline -- chunks, victim, top and segments -- and what the operations do to it. */
module Plans {
  import opened BinIndex
  import opened State
  import opened Heap

  /** Without the words in memory and without the bins: every free chunk is in a bin, except the victim. */
  datatype Plan = Plan(heap: Chunks, dv: int, dvsize: int, top: int, topsize: int, segs: seq<Seg>,
                       footprint: int, trimCheck: int, least: int, asked: nat, rules: Rules)

  /** The parameters, and the system's answers. */
  datatype Rules = Rules(granularity: int, threshold: int, system: nat -> bool)

  ghost function PlanOf(m: Mstate): Plan
    reads m`heap, m`dv, m`dvsize, m`top, m`topsize, m`segs, m`footprint, m`trimCheck, m`leastAddr, m`asked
  {
    Plan(m.heap, m.dv, m.dvsize, m.top, m.topsize, m.segs, m.footprint, m.trimCheck, m.leastAddr, m.asked,
         Rules(m.granularity, m.trimThreshold, m.system))
  }

  lemma PlanParts(m: Mstate)
    ensures var s := PlanOf(m);
      && s.heap == m.heap && s.segs == m.segs && s.dv == m.dv && s.dvsize == m.dvsize && s.top == m.top && s.topsize == m.topsize
      && s.least == m.leastAddr
  {}

  // ---- taking

  /** The first `nb` bytes of a free chunk become a block, or all of it when the rest would be too small for a chunk.
      The rest is free, and is the victim if the victim has been cut or the request is a small one. */
  ghost function Cut(s: Plan, p: int, nb: int): Plan {
    var size := SizeIn(s.heap, p);
    var rest := size - nb;
    if rest < MIN_CHUNK_SIZE then
      WithDv(s.(heap := Patch(s.heap, p, p + size, map[p := Chunk(size, Live)])), p == s.dv, 0, 0)
    else
      WithDv(s.(heap := Patch(s.heap, p, p + size, Two(p, Chunk(nb, Live), Chunk(rest, Free)))),
             p == s.dv || nb < MIN_LARGE_SIZE, p + nb, rest)
  }

  ghost function SizeIn(c: Chunks, p: int): int {
    if p in c then c[p].size else 0
  }

  ghost function WithDv(s: Plan, changes: bool, dv: int, dvsize: int): Plan {
    if changes then s.(dv := dv, dvsize := dvsize) else s
  }

  /** The first `nb` bytes of top become a block. */
  ghost function CutTop(s: Plan, nb: int): Plan {
    s.(heap := Patch(s.heap, s.top, s.top + s.topsize, Two(s.top, Chunk(nb, Live), Chunk(s.topsize - nb, Top))),
       top := s.top + nb, topsize := s.topsize - nb)
  }

  // ---- giving back

  /** The free chunk right before `p`, or `p` itself. */
  ghost function MergeFrom(c: Chunks, p: int): int {
    if x :| x in c && c[x].use == Free && x + c[x].size == p then x else p
  }

  /** The block `p` with what is free before it, from `q` on, and behind it becomes one free chunk, which is the victim
      if the victim has part in it; with top behind it all is top. */
  ghost function FreedFrom(s: Plan, q: int, p: int): Plan {
    var n := p + SizeIn(s.heap, p);
    if n == s.top then
      var b := s.top + s.topsize;
      WithDv(s.(heap := Patch(s.heap, q, b, map[q := Chunk(b - q, Top)]), top := q, topsize := b - q), q != p && q == s.dv, 0, 0)
    else
      var b := if n in s.heap && s.heap[n].use == Free then n + s.heap[n].size else n;
      WithDv(s.(heap := Patch(s.heap, q, b, map[q := Chunk(b - q, Free)])),
             (q != p && q == s.dv) || (b != n && n == s.dv), q, b - q)
  }

  // ---- what that means, chunk by chunk

  /** Outside the chunks `xs` there is no difference. */
  ghost predicate SameBut(c: Chunks, c': Chunks, xs: set<int>) {
    forall x {:trigger x in c} {:trigger x in c'} :: x !in xs ==> (x in c' <==> x in c) && (x in c ==> c'[x] == c[x])
  }

  /** Chunks do not overlap, and none is empty. */
  ghost predicate Separate(c: Chunks) {
    Apart(c) && forall x {:trigger c[x]} :: x in c ==> c[x].size > 0
  }

  /** The block is exactly as large as asked for, and then the rest is a free chunk behind it; or it is the whole chunk,
      when less than the least chunk would be left. */
  lemma CutLaw(s: Plan, p: int, nb: int)
    requires Separate(s.heap) && p in s.heap && s.heap[p].use == Free && 0 < nb <= s.heap[p].size
    ensures var t, rest := Cut(s, p, nb), s.heap[p].size - nb;
      if rest < MIN_CHUNK_SIZE then
        && p in t.heap && t.heap[p] == Chunk(s.heap[p].size, Live) && SameBut(s.heap, t.heap, {p})
        && (if p == s.dv then t.dv == 0 && t.dvsize == 0 else t.dv == s.dv && t.dvsize == s.dvsize)
      else
        && p in t.heap && t.heap[p] == Chunk(nb, Live) && p + nb in t.heap && t.heap[p + nb] == Chunk(rest, Free)
        && SameBut(s.heap, t.heap, {p, p + nb})
        && (if p == s.dv || nb < MIN_LARGE_SIZE then t.dv == p + nb && t.dvsize == rest else t.dv == s.dv && t.dvsize == s.dvsize)
  {
    assert forall y :: y in s.heap && p <= y < p + s.heap[p].size ==> y == p;
  }

  /** The same at the lower end of top. */
  lemma CutTopLaw(s: Plan, nb: int)
    requires Separate(s.heap) && s.top in s.heap && s.heap[s.top] == Chunk(s.topsize, Top) && 0 < nb < s.topsize
    ensures var t := CutTop(s, nb);
      && t.top == s.top + nb && t.topsize == s.topsize - nb
      && s.top in t.heap && t.heap[s.top] == Chunk(nb, Live) && t.top in t.heap && t.heap[t.top] == Chunk(t.topsize, Top)
      && SameBut(s.heap, t.heap, {s.top, t.top}) && t.dv == s.dv && t.dvsize == s.dvsize && t.segs == s.segs
  {
    assert forall y :: y in s.heap && s.top <= y < s.top + s.topsize ==> y == s.top;
  }

  /** The sizes add up. */
  lemma FreedLaw(s: Plan, p: int)
    requires Separate(s.heap) && p in s.heap && s.heap[p].use == Live && p + s.heap[p].size in s.heap && p != s.dv
    requires s.top in s.heap ==> s.heap[s.top] == Chunk(s.topsize, Top)
    requires forall x :: x in s.heap && s.heap[x].use == Top ==> x == s.top
    ensures var q, n := MergeFrom(s.heap, p), p + s.heap[p].size;
      var t := FreedFrom(s, q, p);
      var before, behind := (if q == p then 0 else SizeIn(s.heap, q)), (if s.heap[n].use == Free || n == s.top then s.heap[n].size else 0);
      && q in t.heap && t.heap[q] == Chunk(before + s.heap[p].size + behind, if n == s.top then Top else Free)
      && (q != p ==> p !in t.heap && q in s.heap && s.heap[q].use == Free && q + s.heap[q].size == p)
      && (behind > 0 <==> n !in t.heap) && SameBut(s.heap, t.heap, {q, p} + (if behind > 0 then {n} else {}))
      && (if n == s.top then t.top == q && t.topsize == t.heap[q].size else t.top == s.top && t.topsize == s.topsize)
      && (if s.dv != q && (s.dv != n || behind == 0 || n == s.top) then t.dv == s.dv && t.dvsize == s.dvsize
          else if n == s.top then t.dv == 0 && t.dvsize == 0
          else t.dv == q && t.dvsize == t.heap[q].size)
      && t.segs == s.segs && t.footprint == s.footprint && t.trimCheck == s.trimCheck
  {
    hide Separate, MergeFrom, Apart;
    var q, n := MergeFrom(s.heap, p), p + s.heap[p].size;
    var b := if s.heap[n].use == Free || n == s.top then n + s.heap[n].size else n;
    MergeFromLaw(s.heap, p);
    OnlyMerged(s.heap, q, p, n, b);
  }

  lemma MergeFromLaw(c: Chunks, p: int)
    requires Separate(c) && p in c
    ensures var q := MergeFrom(c, p);
      q in c && q <= p && (q != p ==> c[q].use == Free && q + c[q].size == p)
    ensures c[p].size > 0 && forall n :: n in c ==> c[n].size > 0
  {}

  /** Between `q` and `b` there are only `q`, `p` and `n`. */
  lemma OnlyMerged(c: Chunks, q: int, p: int, n: int, b: int)
    requires Separate(c) && q in c && p in c && n in c && (q == p || q + c[q].size == p) && n == p + c[p].size
    requires b == n || b == n + c[n].size
    ensures forall y :: y in c && q <= y < b ==> y == q || y == p || (y == n && b != n)
  {
    forall y | y in c && q <= y < b
      ensures y == q || y == p || (y == n && b != n)
    {
      assert y < p || p < y || y == p;
      assert y < q || q < y || y == q;
      assert y < n || n < y || y == n;
    }
  }
}
