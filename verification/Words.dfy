/** Arithmetic of the allocator's 64-bit `size_t` words, stated over unbounded integers. */
module Words {

  /** 2^64, the number of values of `size_t`. */
  const W64: int := 0x1_0000_0000_0000_0000

  /** MAX_SIZE_T. */
  const MAX_SIZE_T: int := W64 - 1

  predicate IsWord(x: int) {
    0 <= x < W64
  }

  function Pow2(n: nat): (p: int)
    ensures p >= 1
  {
    if n == 0 then 1 else 2 * Pow2(n - 1)
  }

  /** Unsigned addition, wrapping at 2^64. */
  function Add64(a: int, b: int): int
    requires IsWord(a) && IsWord(b)
  {
    if a + b < W64 then a + b else a + b - W64
  }

  /** Unsigned subtraction, wrapping below zero. */
  function Sub64(a: int, b: int): int
    requires IsWord(a) && IsWord(b)
  {
    if a >= b then a - b else a - b + W64
  }

  /** Unsigned `k << 1` in a word of `w` bits: the top bit is lost. */
  function Shl1(k: int, w: nat): (r: int)
    requires 0 <= k < Pow2(w)
    ensures 0 <= r < Pow2(w)
  {
    if 2 * k < Pow2(w) then 2 * k else 2 * k - Pow2(w)
  }

  /** Unsigned `k << n` in a word of `w` bits. */
  function Shl(k: int, n: nat, w: nat): (r: int)
    requires 0 <= k < Pow2(w)
    ensures 0 <= r < Pow2(w)
  {
    if n == 0 then k else Shl1(Shl(k, n - 1, w), w)
  }

  /** Unsigned `s >> n`: the bits of `s` from bit `n` upwards. */
  function Shr(s: int, n: nat): (r: int)
    requires s >= 0
    ensures 0 <= r
  {
    if n == 0 then s else Shr(s, n - 1) / 2
  }

  /** Bit `n` of `s`, that is, `(s >> n) & 1`. */
  function Bit(s: int, n: nat): (b: int)
    requires s >= 0
    ensures b == 0 || b == 1
  {
    Shr(s, n) % 2
  }

  /** Sizes that agree from bit `n` upwards agree from every higher bit upwards. */
  lemma {:induction false} ShrCoarser(a: int, b: int, n: nat, m: nat)
    requires 0 <= a && 0 <= b && n <= m
    requires Shr(a, n) == Shr(b, n)
    ensures Shr(a, m) == Shr(b, m)
  {
    if n < m {
      ShrCoarser(a, b, n, m - 1);
    }
  }

  /** Shifting right keeps the order. */
  lemma {:induction false} ShrMonotone(a: int, b: int, n: nat)
    requires 0 <= a <= b
    ensures Shr(a, n) <= Shr(b, n)
  {
    if n > 0 {
      ShrMonotone(a, b, n - 1);
    }
  }

  /** Numbers that agree above bit `n` are ordered by bit `n`. */
  lemma BitOrder(a: int, b: int, n: nat)
    requires 0 <= a && 0 <= b && Shr(a, n + 1) == Shr(b, n + 1)
    requires Bit(a, n) < Bit(b, n)
    ensures a < b
  {
    if b <= a {
      ShrMonotone(b, a, n);
    }
  }

  lemma {:induction false} ShrBelowPow2(s: int, n: nat, m: nat)
    requires 0 <= s < Pow2(n + m)
    ensures Shr(s, n) < Pow2(m)
  {
    if n > 0 {
      ShrBelowPow2(s, n - 1, m + 1);
    }
  }

  lemma Pow2Of64()
    ensures Pow2(64) == W64
  {
    assert Pow2(8) == 256;
    assert Pow2(16) == 65536;
    assert Pow2(24) == 0x100_0000;
    assert Pow2(32) == 0x1_0000_0000;
    assert Pow2(40) == 0x100_0000_0000;
    assert Pow2(48) == 0x1_0000_0000_0000;
    assert Pow2(56) == 0x100_0000_0000_0000;
  }

  /** A word has no bits from bit 64 upwards. */
  lemma ShrWord(s: int)
    requires IsWord(s)
    ensures Shr(s, 64) == 0
  {
    Pow2Of64();
    ShrBelowPow2(s, 64, 0);
  }

  lemma {:induction false} ShrDouble(k: int, m: nat)
    requires k >= 0
    ensures Shr(2 * k, m + 1) == Shr(k, m)
  {
    if m > 0 {
      ShrDouble(k, m - 1);
    }
  }

  lemma {:induction false} ShrMinusPow2(x: int, n: nat, m: nat)
    requires m <= n && x >= Pow2(n)
    ensures Shr(x, m) >= Pow2(n - m) && Shr(x - Pow2(n), m) == Shr(x, m) - Pow2(n - m)
  {
    if m > 0 {
      ShrMinusPow2(x, n, m - 1);
      assert Pow2(n - (m - 1)) == 2 * Pow2(n - m);
    }
  }

  /** One left shift moves every surviving bit up by one. */
  lemma Shl1Bit(k: int, m: nat, w: nat)
    requires 0 <= k < Pow2(w) && m + 1 < w
    ensures Bit(Shl1(k, w), m + 1) == Bit(k, m)
  {
    ShrDouble(k, m);
    if 2 * k >= Pow2(w) {
      ShrMinusPow2(2 * k, w, m + 1);
      assert Pow2(w - m - 1) == 2 * Pow2(w - m - 2);
    }
  }

  /** After `n` left shifts, bit `m` of the original sits at bit `m + n`. */
  lemma {:induction false} ShlBit(s: int, n: nat, m: nat, w: nat)
    requires 0 <= s < Pow2(w) && m + n < w
    ensures Bit(Shl(s, n, w), m + n) == Bit(s, m)
  {
    if n > 0 {
      ShlBit(s, n - 1, m, w);
      Shl1Bit(Shl(s, n - 1, w), m + n - 1, w);
    }
  }
}
