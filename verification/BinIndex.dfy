/** Which bin holds a chunk of a given size. */
module BinIndex {
  import opened Words

  const NSMALLBINS: int := 32
  const NTREEBINS: int := 32
  const MIN_LARGE_SIZE: int := 256

  predicate IsSmall(s: int)
    requires s >= 0
  {
    SmallIndex(s) < NSMALLBINS
  }

  function SmallIndex(s: int): (i: int)
    requires s >= 0
    ensures i >= 0
  {
    s / 8
  }

  /** `((y - c) >> 16) & b` on 32-bit unsigned operands, `b` a power of two. */
  function BorrowBit(y: int, c: int, b: int): int
    requires 0 <= y && 0 <= c && b > 0
  {
    ((y - c) % 0x1_0000_0000) / 0x1_0000 / b % 2 * b
  }

  /** `y << n` for the shifts the macro uses. */
  function ShlBy(y: int, n: int): int {
    if n == 8 then 256 * y else if n == 4 then 16 * y else if n == 2 then 4 * y else y
  }

  /** The branch-free search for the leading one of `x`. */
  function LeadingBit(x: int): int
    requires 1 <= x <= 0xFFFF
  {
    var n := BorrowBit(x, 0x100, 8);
    var y := ShlBy(x, n);
    var k := if y >= 0 then BorrowBit(y, 0x1000, 4) else 0;
    var n1 := n + k;
    var y1 := ShlBy(y, k);
    var k1 := if y1 >= 0 then BorrowBit(y1, 0x4000, 2) else 0;
    var n2 := n1 + k1;
    14 - n2 + ShlBy(y1, k1) / 0x8000
  }

  /** The tree bin index of a chunk of size `s`. */
  function TreeIndex(s: int): (i: int)
    requires 0 <= s
  {
    var x := s / 256;
    if x == 0 then 0
    else if x > 0xFFFF then NTREEBINS - 1
    else
      var k := LeadingBit(x);
      2 * k + (if k >= 0 then Bit(s, k + 7) else 0)
  }

  /** Smallest size held in tree bin `i`. */
  function MinSize(i: int): int
    requires 0 <= i < NTREEBINS
  {
    Pow2(i / 2 + 8) + (i % 2) * Pow2(i / 2 + 7)
  }

  /** Number of size bits a trie in bin `i` resolves; the last bin resolves them all. */
  function BinWidth(i: int): (w: nat)
    requires 0 <= i < NTREEBINS
    ensures 7 <= w <= 64
  {
    if i == NTREEBINS - 1 then 64 else i / 2 + 7
  }

  /** leftshift_for_tree_index: puts the first bit to test at the top of the word. */
  function LeftShift(i: int): (n: nat)
    requires 0 <= i < NTREEBINS
    ensures n == 64 - BinWidth(i)
  {
    if i == NTREEBINS - 1 then 0 else 63 - (i / 2 + 6)
  }

  /** The position of the leading one of `x = s >> 8`. */
  function Log(x: int): (k: int)
    requires 1 <= x <= 0xFFFF
    ensures 0 <= k <= 15
  {
    if x < 0x2 then 0 else if x < 0x4 then 1 else if x < 0x8 then 2 else if x < 0x10 then 3
    else if x < 0x20 then 4 else if x < 0x40 then 5 else if x < 0x80 then 6 else if x < 0x100 then 7
    else if x < 0x200 then 8 else if x < 0x400 then 9 else if x < 0x800 then 10 else if x < 0x1000 then 11
    else if x < 0x2000 then 12 else if x < 0x4000 then 13 else if x < 0x8000 then 14 else 15
  }

  lemma BorrowBitIsCompare(y: int, c: int, b: int)
    requires 0 <= y <= 0xFFFF && 0 <= c <= 0x4000 && b in {2, 4, 8}
    ensures BorrowBit(y, c, b) == if y < c then b else 0
  {
    if y < c {
      assert ((y - c) % 0x1_0000_0000) / 0x1_0000 == 0xFFFF;
    }
  }

  lemma LeadingBitIsLog(x: int)
    requires 1 <= x <= 0xFFFF
    ensures LeadingBit(x) == Log(x)
  {
    BorrowBitIsCompare(x, 0x100, 8);
    var n := BorrowBit(x, 0x100, 8);
    var y := ShlBy(x, n);
    BorrowBitIsCompare(y, 0x1000, 4);
    var k := BorrowBit(y, 0x1000, 4);
    var y1 := ShlBy(y, k);
    BorrowBitIsCompare(y1, 0x4000, 2);
  }

  lemma LogBounds(x: int)
    requires 1 <= x <= 0xFFFF
    ensures Pow2(Log(x)) <= x < Pow2(Log(x) + 1)
  {
    assert Pow2(4) == 0x10 && Pow2(6) == 0x40 && Pow2(8) == 0x100 && Pow2(10) == 0x400;
    assert Pow2(12) == 0x1000 && Pow2(14) == 0x4000 && Pow2(16) == 0x1_0000;
  }

  lemma {:induction false} Pow2Plus8(k: nat)
    ensures Pow2(k + 8) == 256 * Pow2(k)
  {
    if k == 0 {
      assert Pow2(4) == 16;
    } else {
      Pow2Plus8(k - 1);
    }
  }

  /** Below 2^24 the leading one of a size is bit `k + 8`; the index is made of `k` and the next bit. */
  lemma IndexOfMidSize(s: int)
    requires 256 <= s < 0x100_0000
    ensures var k := Log(s / 256); Pow2(k + 8) <= s < Pow2(k + 9) && TreeIndex(s) == 2 * k + Bit(s, k + 7)
  {
    var x := s / 256;
    LogBounds(x);
    LeadingBitIsLog(x);
    Pow2Plus8(Log(x));
    Pow2Plus8(Log(x) + 1);
  }

  lemma {:induction false} ShrOfPow2(n: nat)
    ensures Shr(Pow2(n), n) == 1
  {
    if n > 0 {
      ShrOfPow2(n - 1);
      ShrDouble(Pow2(n - 1), n - 1);
    }
  }

  /** A number whose leading one is bit `n + 1`: bit `n` says which half of the octave it is in. */
  lemma HalfOctave(s: int, n: nat)
    requires Pow2(n + 1) <= s < Pow2(n + 2)
    ensures Shr(s, n) == 2 + Bit(s, n)
    ensures Pow2(n + 1) + Bit(s, n) * Pow2(n) <= s < Pow2(n + 1) + (Bit(s, n) + 1) * Pow2(n)
  {
    ShrBelowPow2(s, n + 1, 1);
    ShrOfPow2(n + 1);
    ShrMonotone(Pow2(n + 1), s, n + 1);
    assert Shr(s, n + 1) == 1 && Pow2(1) == 2;
    var r := s - Pow2(n + 1);
    ShrMinusPow2(s, n + 1, n);
    if Bit(s, n) == 0 {
      if r >= Pow2(n) {
        ShrOfPow2(n);
        ShrMonotone(Pow2(n), r, n);
      }
    } else if r < Pow2(n) {
      ShrBelowPow2(r, n, 0);
    }
  }

  lemma IndexSplitsOctave(s: int)
    requires 256 <= s < 0x100_0000
    ensures var i := TreeIndex(s);
      && 0 <= i < NTREEBINS
      && Shr(s, i / 2 + 7) == 2 + i % 2
      && MinSize(i) <= s < Pow2(i / 2 + 8) + (i % 2 + 1) * Pow2(i / 2 + 7)
  {
    hide TreeIndex, Log, Pow2, Bit, Shr;
    var k := Log(s / 256);
    IndexOfMidSize(s);
    HalfOctave(s, k + 7);
    IndexParts(k, Bit(s, k + 7));
  }

  lemma IndexParts(k: int, b: int)
    requires 0 <= k <= 15 && (b == 0 || b == 1)
    ensures var i := 2 * k + b;
      i / 2 == k && i % 2 == b && 0 <= i < NTREEBINS && MinSize(i) == Pow2(k + 8) + b * Pow2(k + 7)
  {
    hide Pow2;
    var i := 2 * k + b;
    assert i / 2 == k && i % 2 == b;
  }

  lemma NextMinSize(i: int)
    requires 0 <= i < NTREEBINS - 1
    ensures MinSize(i + 1) == Pow2(i / 2 + 8) + (i % 2 + 1) * Pow2(i / 2 + 7)
  {
    if i % 2 == 1 {
      assert (i + 1) / 2 == i / 2 + 1;
    } else {
      assert (i + 1) / 2 == i / 2;
    }
  }

  lemma LastMinSize()
    ensures MinSize(NTREEBINS - 1) == 0xC0_0000
  {
    Pow2Plus8(7);
    Pow2Plus8(15);
    Pow2Plus8(14);
    assert Pow2(7) == 128 && Pow2(14) == 0x4000 && Pow2(15) == 0x8000;
  }

  /** The index brackets the size: no smaller than its bin's least size, smaller than the next bin's. */
  lemma TreeIndexBrackets(s: int)
    requires MIN_LARGE_SIZE <= s && IsWord(s)
    ensures var i := TreeIndex(s);
      0 <= i < NTREEBINS && MinSize(i) <= s && (i < NTREEBINS - 1 ==> s < MinSize(i + 1))
  {
    if s < 0x100_0000 {
      IndexSplitsOctave(s);
      if TreeIndex(s) < NTREEBINS - 1 {
        NextMinSize(TreeIndex(s));
      }
    } else {
      LastMinSize();
    }
  }

  lemma {:induction false} MinSizeMonotone(i: int, j: int)
    requires 0 <= i <= j < NTREEBINS
    ensures MinSize(i) <= MinSize(j)
  {
    hide MinSize;
    if i < j {
      MinSizeMonotone(i, j - 1);
      MinSizeStep(j - 1);
    }
  }

  lemma MinSizeStep(i: int)
    requires 0 <= i < NTREEBINS - 1
    ensures MinSize(i) <= MinSize(i + 1)
  {
    hide MinSize, Pow2;
    NextMinSize(i);
    ThisMinSize(i);
    OneMore(Pow2(i / 2 + 8), i % 2, Pow2(i / 2 + 7));
  }

  lemma ThisMinSize(i: int)
    requires 0 <= i < NTREEBINS
    ensures MinSize(i) == Pow2(i / 2 + 8) + (i % 2) * Pow2(i / 2 + 7)
  {
    hide Pow2;
  }

  lemma OneMore(x: int, b: int, p: int)
    requires p >= 0
    ensures x + b * p <= x + (b + 1) * p
  {}

  /** Larger sizes never have smaller indices. */
  lemma TreeIndexMonotone(a: int, b: int)
    requires MIN_LARGE_SIZE <= a <= b && IsWord(b)
    ensures TreeIndex(a) <= TreeIndex(b)
  {
    TreeIndexBrackets(a);
    TreeIndexBrackets(b);
    if TreeIndex(a) > TreeIndex(b) {
      MinSizeMonotone(TreeIndex(b) + 1, TreeIndex(a));
    }
  }

  /** All sizes of one bin agree on the bits its trie does not resolve. */
  lemma SameBinSamePrefix(a: int, b: int)
    requires MIN_LARGE_SIZE <= a && IsWord(a) && MIN_LARGE_SIZE <= b && IsWord(b)
    requires TreeIndex(a) == TreeIndex(b)
    ensures 0 <= TreeIndex(a) < NTREEBINS
    ensures Shr(a, BinWidth(TreeIndex(a))) == Shr(b, BinWidth(TreeIndex(a)))
  {
    TreeIndexBrackets(a);
    if TreeIndex(a) == NTREEBINS - 1 {
      ShrWord(a);
      ShrWord(b);
    } else {
      IndexSplitsOctave(a);
      IndexSplitsOctave(b);
    }
  }
}
