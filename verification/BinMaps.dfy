/** The 32-bit maps that say which bins are non-empty, and the bit tricks that search them. */
module BinMaps {
  import opened Words

  const MAP_BITS: nat := 32

  type Binmap = nat

  /** A value of `binmap_t`. */
  predicate IsMap(m: Binmap) {
    m < Pow2(MAP_BITS)
  }

  predicate Marked(m: Binmap, i: int)
    requires 0 <= i
  {
    Bit(m, i) == 1
  }

  /** Bitwise `x & y`. */
  function And(x: nat, y: nat): (r: nat)
    ensures r <= x
  {
    if x == 0 || y == 0 then 0 else 2 * And(x / 2, y / 2) + (if x % 2 == 1 && y % 2 == 1 then 1 else 0)
  }

  /** Bitwise `x | y`. */
  function Or(x: nat, y: nat): nat {
    if x == 0 then y
    else if y == 0 then x
    else 2 * Or(x / 2, y / 2) + (if x % 2 == 1 || y % 2 == 1 then 1 else 0)
  }

  /** Bitwise complement of a `w`-bit value. */
  function Not(x: nat, w: nat): nat
    requires x < Pow2(w)
  {
    Pow2(w) - 1 - x
  }

  /** Two's complement negation of a `w`-bit value. */
  function Neg(x: nat, w: nat): nat
    requires x < Pow2(w)
  {
    if x == 0 then 0 else Pow2(w) - x
  }

  /** idx2bit. */
  function IdxBit(i: int): Binmap
    requires 0 <= i < MAP_BITS
  {
    Pow2(i)
  }

  function Mark(m: Binmap, i: int): Binmap
    requires 0 <= i < MAP_BITS
  {
    Or(m, IdxBit(i))
  }

  function Clear(m: Binmap, i: int): Binmap
    requires 0 <= i < MAP_BITS && IsMap(m)
  {
    Pow2Monotone(i + 1, MAP_BITS);
    And(m, Not(IdxBit(i), MAP_BITS))
  }

  /** left_bits: all bits left of the least bit of `x`. */
  function LeftBits(x: Binmap): Binmap
    requires IsMap(x)
  {
    Or(Shl1(x, MAP_BITS), Neg(Shl1(x, MAP_BITS), MAP_BITS))
  }

  /** least_bit. */
  function LeastBit(x: Binmap): Binmap
    requires IsMap(x)
  {
    And(x, Neg(x, MAP_BITS))
  }

  /** The C library's ffs: one plus the position of the first set bit. */
  function Ffs(x: nat): (n: nat)
  {
    if x == 0 then 0 else if x % 2 == 1 then 1 else 1 + Ffs(x / 2)
  }

  /** compute_bit2idx in the configuration that uses ffs. */
  function Bit2Idx(x: Binmap): int {
    Ffs(x) - 1
  }

  // ---- bit by bit

  lemma {:induction false} Pow2Monotone(a: nat, b: nat)
    requires a <= b
    ensures Pow2(a) <= Pow2(b)
    ensures a < b ==> Pow2(a) < Pow2(b)
  {
    if a < b {
      Pow2Monotone(a, b - 1);
    }
  }

  lemma {:induction false} ShrHalf(x: nat, n: nat)
    ensures Shr(x, n + 1) == Shr(x / 2, n)
  {
    if n > 0 {
      ShrHalf(x, n - 1);
    }
  }

  lemma {:induction false} ShrZero(n: nat)
    ensures Shr(0, n) == 0
  {
    if n > 0 {
      ShrZero(n - 1);
    }
  }

  lemma {:induction false} ShrShr(x: nat, n: nat, m: nat)
    ensures Shr(Shr(x, n), m) == Shr(x, n + m)
  {
    if m > 0 {
      ShrShr(x, n, m - 1);
    }
  }

  lemma {:induction false} AndBits(x: nat, y: nat, n: nat)
    ensures Bit(And(x, y), n) == 1 <==> Bit(x, n) == 1 && Bit(y, n) == 1
  {
    ShrZero(n);
    if x != 0 && y != 0 && n > 0 {
      AndBits(x / 2, y / 2, n - 1);
      ShrHalf(x, n - 1);
      ShrHalf(y, n - 1);
      ShrHalf(And(x, y), n - 1);
    }
  }

  lemma {:induction false} OrBits(x: nat, y: nat, n: nat)
    ensures Bit(Or(x, y), n) == 1 <==> Bit(x, n) == 1 || Bit(y, n) == 1
  {
    ShrZero(n);
    if x != 0 && y != 0 && n > 0 {
      OrBits(x / 2, y / 2, n - 1);
      ShrHalf(x, n - 1);
      ShrHalf(y, n - 1);
      ShrHalf(Or(x, y), n - 1);
    }
  }

  lemma {:induction false} OrBelow(x: nat, y: nat, w: nat)
    requires x < Pow2(w) && y < Pow2(w)
    ensures Or(x, y) < Pow2(w)
  {
    if x != 0 && y != 0 {
      OrBelow(x / 2, y / 2, w - 1);
    }
  }

  lemma {:induction false} NotBits(x: nat, w: nat, n: nat)
    requires x < Pow2(w) && n < w
    ensures Bit(Not(x, w), n) != Bit(x, n)
  {
    assert Pow2(w) == 2 * Pow2(w - 1);
    if n > 0 {
      NotBits(x / 2, w - 1, n - 1);
      ShrHalf(x, n - 1);
      ShrHalf(Not(x, w), n - 1);
      assert Not(x, w) / 2 == Not(x / 2, w - 1);
    }
  }

  lemma {:induction false} Pow2Bits(i: nat, n: nat)
    ensures Bit(Pow2(i), n) == 1 <==> i == n
  {
    if n > 0 {
      ShrHalf(Pow2(i), n - 1);
      if i > 0 {
        Pow2Bits(i - 1, n - 1);
      } else {
        ShrZero(n - 1);
      }
    }
  }

  lemma {:induction false} BitsAbove(a: nat, w: nat, n: nat)
    requires a <= w && n < w
    ensures Pow2(a) <= Pow2(w)
    ensures Bit(Pow2(w) - Pow2(a), n) == 1 <==> a <= n
  {
    Pow2Monotone(a, w);
    if a == 0 {
      Pow2Monotone(0, w);
      NotBits(0, w, n);
      ShrZero(n);
    } else if n > 0 {
      BitsAbove(a - 1, w - 1, n - 1);
      ShrHalf(Pow2(w) - Pow2(a), n - 1);
    }
  }

  lemma {:induction false} AndNotIsZero(x: nat, w: nat)
    requires x < Pow2(w)
    ensures And(x, Not(x, w)) == 0
  {
    if x != 0 {
      assert Pow2(w) == 2 * Pow2(w - 1);
      AndNotIsZero(x / 2, w - 1);
      assert Not(x, w) / 2 == Not(x / 2, w - 1);
    }
  }

  /** `x & -x` has exactly the least set bit of `x`. */
  lemma {:induction false} AndNegIsLeast(x: nat, w: nat) returns (k: nat)
    requires 0 < x < Pow2(w)
    ensures k < w && And(x, Neg(x, w)) == Pow2(k)
    ensures Bit(x, k) == 1 && forall j :: 0 <= j < k ==> Bit(x, j) == 0
  {
    assert Pow2(w) == 2 * Pow2(w - 1);
    if x % 2 == 1 {
      k := 0;
      assert Neg(x, w) / 2 == Not(x / 2, w - 1);
      AndNotIsZero(x / 2, w - 1);
    } else {
      var k1 := AndNegIsLeast(x / 2, w - 1);
      k := k1 + 1;
      ShrHalf(x, k1);
      forall j | 0 < j < k
        ensures Bit(x, j) == 0
      {
        ShrHalf(x, j - 1);
        assert Bit(x / 2, j - 1) == 0;
      }
    }
  }

  lemma {:induction false} FfsOfPow2(k: nat)
    ensures Ffs(Pow2(k)) == k + 1
  {
    if k > 0 {
      FfsOfPow2(k - 1);
    }
  }

  lemma {:induction false} ZeroIffNoBits(m: nat, w: nat)
    requires m < Pow2(w)
    ensures m == 0 <==> forall i :: 0 <= i < w ==> !Marked(m, i)
  {
    if m != 0 {
      var k := AndNegIsLeast(m, w);
      assert Marked(m, k);
    } else {
      forall i | 0 <= i < w
        ensures !Marked(m, i)
      {
        ShrZero(i);
      }
    }
  }

  // ---- what the allocator relies on

  lemma MarkMarks(m: Binmap, i: int, j: int)
    requires IsMap(m) && 0 <= i < MAP_BITS && 0 <= j < MAP_BITS
    ensures IsMap(Mark(m, i))
    ensures Marked(Mark(m, i), j) <==> i == j || Marked(m, j)
  {
    Pow2Monotone(i, MAP_BITS);
    OrBelow(m, IdxBit(i), MAP_BITS);
    OrBits(m, IdxBit(i), j);
    Pow2Bits(i, j);
  }

  lemma ClearClears(m: Binmap, i: int, j: int)
    requires IsMap(m) && 0 <= i < MAP_BITS && 0 <= j < MAP_BITS
    ensures IsMap(Clear(m, i))
    ensures Marked(Clear(m, i), j) <==> i != j && Marked(m, j)
  {
    Pow2Monotone(i + 1, MAP_BITS);
    AndBits(m, Not(IdxBit(i), MAP_BITS), j);
    NotBits(IdxBit(i), MAP_BITS, j);
    Pow2Bits(i, j);
  }

  lemma EmptyMap(m: Binmap)
    requires IsMap(m)
    ensures m == 0 <==> forall i :: 0 <= i < MAP_BITS ==> !Marked(m, i)
  {
    ZeroIffNoBits(m, MAP_BITS);
  }

  /** The least set bit of a non-empty map is the lowest marked bin. */
  lemma LeastBitIsLowestBin(m: Binmap)
    requires IsMap(m) && m != 0
    ensures var i := Bit2Idx(LeastBit(m));
      0 <= i < MAP_BITS && Marked(m, i) && forall j :: 0 <= j < i ==> !Marked(m, j)
  {
    var k := AndNegIsLeast(m, MAP_BITS);
    FfsOfPow2(k);
  }

  lemma LeftBitsOfIdxBit(i: int, j: int)
    requires 0 <= i < MAP_BITS && 0 <= j < MAP_BITS
    ensures IsMap(IdxBit(i)) && IsMap(LeftBits(IdxBit(i)))
    ensures Marked(LeftBits(IdxBit(i)), j) <==> i < j
  {
    Pow2Monotone(i, MAP_BITS);
    Pow2Monotone(i + 1, MAP_BITS);
    var x := Shl1(IdxBit(i), MAP_BITS);
    OrBelow(x, Neg(x, MAP_BITS), MAP_BITS);
    OrBits(x, Neg(x, MAP_BITS), j);
    if i + 1 < MAP_BITS {
      Pow2Monotone(i + 1, MAP_BITS);
      Pow2Bits(i + 1, j);
      BitsAbove(i + 1, MAP_BITS, j);
    } else {
      ShrZero(j);
    }
  }

  /** The lowest non-empty bin above bin `i` is the least bit of `left_bits(idx2bit(i)) & m`. */
  lemma NextBin(m: Binmap, i: int)
    requires IsMap(m) && 0 <= i < MAP_BITS
    ensures IsMap(IdxBit(i)) && IsMap(LeftBits(IdxBit(i))) && IsMap(And(LeftBits(IdxBit(i)), m))
    ensures var left := And(LeftBits(IdxBit(i)), m);
      if left == 0 then forall j :: i < j < MAP_BITS ==> !Marked(m, j)
      else
        var k := Bit2Idx(LeastBit(left));
        i < k < MAP_BITS && Marked(m, k) && forall j :: i < j < k ==> !Marked(m, j)
  {
    LeftBitsOfIdxBit(i, i);
    var left := And(LeftBits(IdxBit(i)), m);
    forall j | 0 <= j < MAP_BITS
      ensures Marked(left, j) <==> i < j && Marked(m, j)
    {
      LeftBitsOfIdxBit(i, j);
      AndBits(LeftBits(IdxBit(i)), m, j);
    }
    EmptyMap(left);
    if left != 0 {
      LeastBitIsLowestBin(left);
    }
  }

  // ---- the search for a small bin

  lemma {:induction false} ShlOfShr(x: nat, i: nat, j: nat, w: nat)
    requires x < Pow2(w) && i <= j < w
    ensures Shr(x, i) < Pow2(w) && Bit(Shl(Shr(x, i), i, w), j) == Bit(x, j)
  {
    ShrMonotone(0, x, i);
    ShrShrinks(x, i);
    ShrShr(x, i, j - i);
    ShlBit(Shr(x, i), i, j - i, w);
  }

  lemma {:induction false} ShrShrinks(x: nat, n: nat)
    ensures Shr(x, n) <= x
  {
    if n > 0 {
      ShrShrinks(x, n - 1);
    }
  }

  /** Bits 0 and 1 of `x` are what `x & 3` and `~x & 1` look at. */
  lemma LowBits(x: nat, w: nat)
    requires x < Pow2(w) && w > 0
    ensures And(x, 3) != 0 <==> Bit(x, 0) == 1 || Bit(x, 1) == 1
    ensures And(Not(x, w), 1) == 1 - Bit(x, 0)
  {
    assert And(x / 2, 1) == x / 2 % 2;
    NotBits(x, w, 0);
  }

  /** `smallbits & 3` tests bin `i` and the next one; `~smallbits & 1` steps to the next one when bin
      `i` is empty. */
  lemma ThisBinOrNext(m: Binmap, i: int)
    requires IsMap(m) && 0 <= i < MAP_BITS
    ensures IsMap(Shr(m, i))
    ensures And(Shr(m, i), 3) != 0 <==> Marked(m, i) || Marked(m, i + 1)
    ensures And(Not(Shr(m, i), MAP_BITS), 1) == if Marked(m, i) then 0 else 1
    ensures Marked(m, i + 1) ==> i + 1 < MAP_BITS
  {
    hide Shr, And, Not, Pow2;
    ShrShrinks(m, i);
    LowBits(Shr(m, i), MAP_BITS);
    ShrShr(m, i, 0);
    ShrShr(m, i, 1);
    NothingBeyond(m);
  }

  lemma NothingBeyond(m: Binmap)
    requires IsMap(m)
    ensures !Marked(m, MAP_BITS)
  {
    ShrBelowPow2(m, MAP_BITS, 0);
  }

  lemma LeftMarks(m: Binmap, i: int, j: int)
    requires IsMap(m) && 0 <= i < MAP_BITS && 0 <= j < MAP_BITS && IsMap(Shr(m, i)) && IsMap(IdxBit(i))
    ensures Marked(And(Shl(Shr(m, i), i, MAP_BITS), LeftBits(IdxBit(i))), j) <==> i < j && Marked(m, j)
  {
    hide Shr, Shl, And, LeftBits, IdxBit, Pow2;
    LeftBitsOfIdxBit(i, j);
    AndBits(Shl(Shr(m, i), i, MAP_BITS), LeftBits(IdxBit(i)), j);
    if i <= j {
      ShlOfShr(m, i, j, MAP_BITS);
    }
  }

  /** The lowest non-empty bin above an empty bin `i`, found from the shifted map. */
  lemma NextSmallBin(m: Binmap, i: int)
    requires IsMap(m) && 0 <= i < MAP_BITS && !Marked(m, i)
    ensures IsMap(Shr(m, i)) && IsMap(IdxBit(i)) && IsMap(LeftBits(IdxBit(i)))
    ensures var left := And(Shl(Shr(m, i), i, MAP_BITS), LeftBits(IdxBit(i)));
      && IsMap(left) && (Shr(m, i) == 0 <==> left == 0)
      && if left == 0 then forall j :: i <= j < MAP_BITS ==> !Marked(m, j)
         else
           var k := Bit2Idx(LeastBit(left));
           i < k < MAP_BITS && Marked(m, k) && forall j :: i <= j < k ==> !Marked(m, j)
  {
    hide Shr, Shl, And, LeftBits, LeastBit, Bit2Idx, IdxBit, Marked, Pow2;
    ShrShrinks(m, i);
    LeftBitsOfIdxBit(i, i);
    var left := And(Shl(Shr(m, i), i, MAP_BITS), LeftBits(IdxBit(i)));
    forall j | 0 <= j < MAP_BITS
      ensures Marked(left, j) <==> i < j && Marked(m, j)
    {
      LeftMarks(m, i, j);
    }
    EmptyMap(left);
    ShiftedMapEmpty(m, i);
    if left != 0 {
      LeastBitIsLowestBin(left);
    }
  }

  lemma ShiftedMapEmpty(m: Binmap, i: int)
    requires IsMap(m) && 0 <= i < MAP_BITS
    ensures Shr(m, i) == 0 <==> forall j :: i <= j < MAP_BITS ==> !Marked(m, j)
  {
    ShrShrinks(m, i);
    ZeroIffNoBits(Shr(m, i), MAP_BITS - i) by {
      ShrBelowPow2(m, i, MAP_BITS - i);
    }
    forall j | 0 <= j < MAP_BITS - i
      ensures Marked(Shr(m, i), j) <==> Marked(m, i + j)
    {
      ShrShr(m, i, j);
    }
    assert forall j :: i <= j < MAP_BITS ==> (Marked(m, j) <==> Marked(Shr(m, i), j - i));
  }
}
