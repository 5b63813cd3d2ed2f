/** Circular doubly-linked lists threaded through memory by `fd` and `bk` words. */
module Rings {

  /** One word of every chunk, by chunk address. */
  type Field = map<int, int>

  /** The word at address `a`; unmapped memory reads as zero. */
  function At(m: Field, a: int): int {
    if a in m then m[a] else 0
  }

  function Next(i: nat, n: nat): (j: nat)
    requires i < n
    ensures j < n
  {
    if i + 1 == n then 0 else i + 1
  }

  ghost predicate Distinct(s: seq<int>) {
    forall i, j :: 0 <= i < j < |s| ==> s[i] != s[j]
  }

  /** `s` is one whole circular list: `fd` steps forward through it, `bk` backward. */
  ghost predicate Ring(fd: Field, bk: Field, s: seq<int>) {
    && |s| > 0
    && Distinct(s)
    && (forall i :: 0 <= i < |s| ==> At(fd, s[i]) == s[Next(i, |s|)])
    && (forall i :: 0 <= i < |s| ==> At(bk, s[Next(i, |s|)]) == s[i])
  }

  ghost function InsertAfter(s: seq<int>, k: int, x: int): seq<int>
    requires 0 <= k < |s|
  {
    s[..k + 1] + [x] + s[k + 1..]
  }

  ghost function Remove(s: seq<int>, k: int): seq<int>
    requires 0 <= k < |s|
  {
    s[..k] + s[k + 1..]
  }

  lemma InsertMembers(s: seq<int>, k: int, x: int)
    requires 0 <= k < |s|
    ensures forall y :: y in InsertAfter(s, k, x) <==> y == x || y in s
  {
    assert s == s[..k + 1] + s[k + 1..];
  }

  lemma RemoveMembers(s: seq<int>, k: int)
    requires 0 <= k < |s| && Distinct(s)
    ensures forall y :: y in Remove(s, k) <==> y != s[k] && y in s
  {
    assert s == s[..k] + [s[k]] + s[k + 1..];
  }

  lemma RingFrame(fd: Field, bk: Field, fd': Field, bk': Field, s: seq<int>)
    requires Ring(fd, bk, s)
    requires forall x :: x in s ==> At(fd', x) == At(fd, x) && At(bk', x) == At(bk, x)
    ensures Ring(fd', bk', s)
  {
    forall i | 0 <= i < |s|
      ensures At(fd', s[i]) == s[Next(i, |s|)] && At(bk', s[Next(i, |s|)]) == s[i]
    {
      assert s[i] in s && s[Next(i, |s|)] in s;
    }
  }

  /** Each link leads to a neighbour in the ring, and the opposite link leads back. */
  lemma RingNeighbours(fd: Field, bk: Field, s: seq<int>, x: int)
    requires Ring(fd, bk, s) && x in s
    ensures At(fd, x) in s && At(bk, x) in s
    ensures At(bk, At(fd, x)) == x && At(fd, At(bk, x)) == x
    ensures At(bk, x) == x <==> |s| == 1
    ensures At(fd, x) == x <==> |s| == 1
  {
    var i :| 0 <= i < |s| && s[i] == x;
    var p := if i == 0 then |s| - 1 else i - 1;
    assert Next(p, |s|) == i;
    assert At(bk, s[Next(p, |s|)]) == s[p];
    assert At(fd, s[p]) == s[Next(p, |s|)];
  }

  /** In a ring of exactly two, and only there, both links of a member coincide. */
  lemma RingOfTwo(fd: Field, bk: Field, s: seq<int>, x: int)
    requires Ring(fd, bk, s) && x in s && |s| >= 2
    ensures At(fd, x) == At(bk, x) <==> |s| == 2
  {
    var i :| 0 <= i < |s| && s[i] == x;
    var p := if i == 0 then |s| - 1 else i - 1;
    assert Next(p, |s|) == i;
    assert At(bk, s[Next(p, |s|)]) == s[p];
  }

  lemma RingAlone(fd: Field, bk: Field, x: int)
    ensures Ring(fd[x := x], bk[x := x], [x])
  {}

  /** Linking `x` in behind `s[k]`. */
  lemma RingInsert(fd: Field, bk: Field, s: seq<int>, k: int, x: int)
    requires Ring(fd, bk, s) && 0 <= k < |s| && x !in s
    ensures var f := At(fd, s[k]);
      Ring(fd[s[k] := x][x := f], bk[f := x][x := s[k]], InsertAfter(s, k, x))
  {
    var f := At(fd, s[k]);
    var fd', bk' := fd[s[k] := x][x := f], bk[f := x][x := s[k]];
    var t := InsertAfter(s, k, x);
    forall i | 0 <= i < |t|
      ensures At(fd', t[i]) == t[Next(i, |t|)] && At(bk', t[Next(i, |t|)]) == t[i]
    {
      if i <= k {
        assert t[i] == s[i] && At(fd, s[i]) == s[Next(i, |s|)] && At(bk, s[Next(i, |s|)]) == s[i];
      } else if i > k + 1 {
        assert t[i] == s[i - 1] && At(fd, s[i - 1]) == s[Next(i - 1, |s|)];
        assert At(bk, s[Next(i - 1, |s|)]) == s[i - 1];
      }
    }
  }

  /** One position of a ring after its element `k` has been taken out. */
  lemma RingRemoveAt(fd: Field, bk: Field, s: seq<int>, k: int, j: int)
    requires Ring(fd, bk, s) && 0 <= k < |s| && |s| >= 2 && 0 <= j < |s| && j != k
    ensures var f, b := At(fd, s[k]), At(bk, s[k]);
      var n := if Next(j, |s|) == k then Next(k, |s|) else Next(j, |s|);
      n != k && At(fd[b := f], s[j]) == s[n] && At(bk[f := b], s[n]) == s[j]
  {
    var p := if k == 0 then |s| - 1 else k - 1;
    assert Next(p, |s|) == k && At(bk, s[Next(p, |s|)]) == s[p];
    assert At(fd, s[k]) == s[Next(k, |s|)];
    assert At(fd, s[j]) == s[Next(j, |s|)] && At(bk, s[Next(j, |s|)]) == s[j];
    assert Next(j, |s|) == k ==> j == p;
    assert j != p ==> s[j] != s[p];
    assert j != p ==> Next(j, |s|) != Next(k, |s|) && s[Next(j, |s|)] != s[Next(k, |s|)];
  }

  /** Linking the two neighbours of `s[k]` to each other. */
  lemma RingRemove(fd: Field, bk: Field, s: seq<int>, k: int)
    requires Ring(fd, bk, s) && 0 <= k < |s| && |s| >= 2
    ensures var f, b := At(fd, s[k]), At(bk, s[k]);
      Ring(fd[b := f], bk[f := b], Remove(s, k))
  {
    var f, b := At(fd, s[k]), At(bk, s[k]);
    var t := Remove(s, k);
    assert forall i :: 0 <= i < |t| ==> t[i] == s[if i < k then i else i + 1];
    assert Distinct(t);
    hide Ring;
    forall i | 0 <= i < |t|
      ensures At(fd[b := f], t[i]) == t[Next(i, |t|)] && At(bk[f := b], t[Next(i, |t|)]) == t[i]
    {
      RingRemoveAt(fd, bk, s, k, if i < k then i else i + 1);
    }
    RingFromParts(fd[b := f], bk[f := b], t);
  }

  lemma RingFromParts(fd: Field, bk: Field, s: seq<int>)
    requires |s| > 0 && Distinct(s)
    requires forall i :: 0 <= i < |s| ==> At(fd, s[i]) == s[Next(i, |s|)] && At(bk, s[Next(i, |s|)]) == s[i]
    ensures Ring(fd, bk, s)
  {}
}
