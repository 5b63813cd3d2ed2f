/** Powers of two and rounding up to their multiples, as the allocator computes them. */
module Alignment {
  import opened Words
  import opened BinMaps
  import opened Invariant
  import opened Segments

  // ---- the bit tricks

  lemma {:induction false} AndSelf(x: nat)
    ensures And(x, x) == x
  {
    if x > 0 {
      AndSelf(x / 2);
    }
  }

  /** `x & (x - 1)` is zero for powers of two only. */
  lemma {:induction false} PowerTest(x: nat) returns (k: nat)
    requires x > 0
    ensures And(x, x - 1) == 0 ==> x == Pow2(k)
  {
    k := 0;
    if x % 2 == 1 {
      AndSelf(x / 2);
      assert (x - 1) / 2 == x / 2;
    } else {
      assert (x - 1) / 2 == x / 2 - 1;
      var k1 := PowerTest(x / 2);
      k := k1 + 1;
    }
  }

  lemma {:induction false} PowerPasses(k: nat)
    ensures And(Pow2(k), Pow2(k) - 1) == 0
  {
    if k > 0 {
      PowerPasses(k - 1);
      assert (Pow2(k) - 1) / 2 == Pow2(k - 1) - 1;
    }
  }

  lemma {:induction false} AndAll(x: nat, w: nat)
    requires x < Pow2(w)
    ensures And(x, Pow2(w) - 1) == x
  {
    if x > 0 {
      assert (Pow2(w) - 1) / 2 == Pow2(w - 1) - 1;
      AndAll(x / 2, w - 1);
    }
  }

  /** `x & -a` clears what `a`, a power of two, does not divide. */
  lemma {:induction false} AndNeg(x: nat, k: nat, w: nat)
    requires x < Pow2(w) && k < w
    ensures Pow2(k) < Pow2(w) && And(x, Neg(Pow2(k), w)) == x - x % Pow2(k)
  {
    Pow2Monotone(k, w);
    if k == 0 {
      AndAll(x, w);
    } else {
      AndNeg(x / 2, k - 1, w - 1);
      var g, z := Pow2(k - 1), Neg(Pow2(k - 1), w - 1);
      NegDoubles(k, w);
      AndEven(x, z);
      AndNegStep(x, g, z);
    }
  }

  lemma NegDoubles(k: nat, w: nat)
    requires 0 < k < w
    ensures Pow2(k) == 2 * Pow2(k - 1) && Pow2(k - 1) < Pow2(w - 1) && Pow2(k) < Pow2(w)
    ensures Neg(Pow2(k), w) == 2 * Neg(Pow2(k - 1), w - 1)
  {
    Pow2Monotone(k, w);
    Pow2Monotone(k - 1, w - 1);
  }

  lemma AndNegStep(x: nat, g: int, z: nat)
    requires g > 0 && And(x, 2 * z) == 2 * And(x / 2, z) && And(x / 2, z) == x / 2 - x / 2 % g
    ensures And(x, 2 * z) == x - x % (2 * g)
  {
    hide And;
    ModHalf(x, g);
  }

  lemma AndEven(x: nat, z: nat)
    ensures And(x, 2 * z) == 2 * And(x / 2, z)
  {}

  lemma ModHalf(x: nat, g: int)
    requires g > 0
    ensures x % (2 * g) == 2 * (x / 2 % g) + x % 2
  {
    var q, r := x / 2 / g, x / 2 % g;
    assert x / 2 == q * g + r;
    assert x == q * (2 * g) + (2 * r + x % 2);
    ModUnique(x, 2 * g, q, 2 * r + x % 2);
  }

  lemma ModUnique(x: int, g: int, q: int, r: int)
    requires x == q * g + r && 0 <= r < g
    ensures x % g == r
  {
    var q', r' := x / g, x % g;
    assert g * (q - q') == r' - r;
    TimesGrows(q - q', g);
  }

  ghost predicate PowerOfTwo(a: int) {
    exists k: nat :: k < 64 && a == Pow2(k)
  }

  /** The alignment internal_memalign works with: the least power of two that is no smaller than the request
      and a minimal chunk. */
  ghost predicate Rounded(alignment: int, a: int) {
    && PowerOfTwo(a) && a >= 32 && alignment <= a
    && (a == 32 || a < 2 * alignment)
  }

  lemma {:induction false} PowerBelow(x: nat, k: nat)
    requires x == Pow2(k) && x < W64
    ensures k < 64
  {
    Pow2Of64();
    if k >= 64 {
      Pow2Monotone(64, k);
    }
  }

  /** The adjusted alignment. */
  method RoundAlignment(alignment0: int) returns (alignment: int)
    requires 8 < alignment0 <= 0x8000_0000_0000_0000
    ensures Rounded(alignment0, alignment)
  {
    alignment := alignment0;
    if alignment < 32 {
      alignment := 32;
    }
    PowerOf32();
    PowerPasses(5);
    if And(alignment, alignment - 1) != 0 {
      var a := 16;
      while a < alignment
        invariant a >= 16 && (a == 16 || a < 2 * alignment) && a <= 0x8000_0000_0000_0000
        invariant PowerOfTwo(a)
        decreases alignment - a
      {
        Doubles(a);
        a := 2 * a;
      }
      alignment := a;
    } else {
      var k := PowerTest(alignment);
      PowerBelow(alignment, k);
    }
  }

  lemma PowerOf32()
    ensures PowerOfTwo(16) && PowerOfTwo(32) && Pow2(4) == 16 && Pow2(5) == 32
  {
    assert Pow2(4) == 16 && Pow2(5) == 32;
  }

  /** Below 2^63 a power of two can be doubled, and then is at most 2^63. */
  lemma Doubles(a: int)
    requires PowerOfTwo(a) && a < 0x8000_0000_0000_0000
    ensures PowerOfTwo(2 * a) && 2 * a <= 0x8000_0000_0000_0000
  {
    var k: nat :| k < 64 && a == Pow2(k);
    Pow2Of64();
    assert Pow2(64) == 2 * Pow2(63);
    if k >= 63 {
      Pow2Monotone(63, k);
    }
    Pow2Monotone(k + 1, 63);
    assert 2 * a == Pow2(k + 1);
  }

  // ---- requests above 2^63

  /** What the loop over `a` has after `n` shifts of a 64-bit word. */
  function ShiftedWord(n: nat): int {
    if n == 0 then 16 else 2 * ShiftedWord(n - 1) % W64
  }

  lemma {:induction false} ShiftedIs(n: nat)
    ensures ShiftedWord(n) == if n < 60 then Pow2(n + 4) else 0
  {
    hide Pow2;
    if n == 0 {
      PowerOf32();
    } else {
      ShiftedIs(n - 1);
      NextPower(n);
    }
  }

  lemma NextPower(n: nat)
    requires n > 0
    ensures n < 60 ==> 2 * Pow2(n + 3) % W64 == Pow2(n + 4)
    ensures n == 60 ==> 2 * Pow2(n + 3) % W64 == 0
  {
    Pow2Of64();
    assert 2 * Pow2(n + 3) == Pow2(n + 4);
    if n < 60 {
      TopPower(n + 4);
      BelowWord(Pow2(n + 4));
    }
  }

  lemma BelowWord(x: int)
    requires 0 <= x < W64
    ensures x % W64 == x
  {}

  /** The loop never ends for a request above 2^63, and every such request enters it. */
  lemma NeverReached(alignment: int, n: nat)
    requires 0x8000_0000_0000_0000 < alignment < W64
    ensures And(alignment, alignment - 1) != 0 && ShiftedWord(n) < alignment
  {
    hide Pow2, And;
    ShiftedIs(n);
    if n < 60 {
      TopPower(n + 4);
    }
    if And(alignment, alignment - 1) == 0 {
      var k := PowerTest(alignment);
      PowerBelow(alignment, k);
      TopPower(k);
    }
  }

  lemma TopPower(k: nat)
    requires k < 64
    ensures Pow2(k) <= 0x8000_0000_0000_0000
  {
    Pow2Of64();
    assert Pow2(64) == 2 * Pow2(63);
    Pow2Monotone(k, 63);
  }
}
