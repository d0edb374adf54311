/** Unsigned bit operations on naturals, written out bit by bit so that the
    masks and shifts of the key decoder can be modelled as
    `asset_id_to_currency_id` writes them and then related to plain digit
    arithmetic. */
module Bits {
  import opened Primitives

  /** 2 raised to the power `n`. */
  function Pow2(n: nat): (r: nat)
    ensures r >= 1
  {
    if n == 0 then 1 else 2 * Pow2(n - 1)
  }

  /** Bitwise AND of two unsigned integers (Rust's `&`), defined on the
      binary digits from the least significant one upwards. The result never
      exceeds either operand, so masking a `u64` yields a `u64`. */
  function BitAnd(x: nat, y: nat): (r: nat)
    ensures r <= x && r <= y
    decreases x
  {
    if x == 0 || y == 0 then 0
    else 2 * BitAnd(x / 2, y / 2) + (if x % 2 == 1 && y % 2 == 1 then 1 else 0)
  }

  /** Logical right shift (Rust's `>>` on unsigned integers): the result is
      the number of whole multiples of 2^n that fit in `x`. */
  function Shr(x: nat, n: nat): (r: nat)
    ensures r * Pow2(n) <= x < (r + 1) * Pow2(n)
  {
    var d := Pow2(n);
    assert x / d >= 0 by { DivNonNegative(x, d); }
    var q := x / d;
    assert x == d * q + x % d && 0 <= x % d < d;
    assert (q + 1) * d == q * d + d;
    q
  }

  /** The quotient of a natural by a positive divisor is a natural. */
  lemma DivNonNegative(x: nat, d: nat)
    requires d >= 1
    ensures x / d >= 0
  {
    var q := x / d;
    assert x == d * q + x % d;
    if q < 0 {
      MulNegative(d, q);
      assert false;
    }
  }

  /** Rust's `as u8` on an unsigned integer: keeps the low eight bits, that
      is, the one byte value that differs from `x` by a multiple of 256. */
  function TruncateU8(x: nat): (r: u8)
    ensures (x - r) % U8_LIMIT == 0
  {
    x % U8_LIMIT
  }

  /** Euclidean division has a unique quotient and remainder. */
  lemma DivModUnique(x: int, d: int, q: int, r: int)
    requires d > 0 && x == d * q + r && 0 <= r < d
    ensures x / d == q && x % d == r
  {
    var q', r' := x / d, x % d;
    assert d * q' + r' == d * q + r;
    if q' > q {
      MulAtLeast(d, q' - q);
      assert false;
    } else if q' < q {
      MulAtLeast(d, q - q');
      assert false;
    }
  }

  lemma MulAtLeast(d: int, k: int)
    requires d > 0 && k >= 1
    ensures d * k >= d
  {
  }

  /** Exponents add under multiplication. */
  lemma {:induction false} Pow2Add(a: nat, b: nat)
    ensures Pow2(a + b) == Pow2(a) * Pow2(b)
    decreases a
  {
    if a > 0 {
      Pow2Add(a - 1, b);
    }
  }

  /** The powers the key decoder's masks are built from. */
  lemma Pow2Constants()
    ensures Pow2(16) == 0x1_0000
    ensures Pow2(32) == 0x1_0000_0000
  {
    assert Pow2(4) == 0x10;
    Pow2Add(4, 4);
    Pow2Add(8, 8);
    Pow2Add(16, 16);
  }

  lemma MulNegative(d: int, q: int)
    requires d >= 1 && q <= -1
    ensures d * q <= -d
  {
  }

  /** Powers of two grow with the exponent. */
  lemma {:induction false} Pow2Monotone(lo: nat, hi: nat)
    requires lo <= hi
    ensures Pow2(lo) <= Pow2(hi)
    decreases hi
  {
    if lo < hi {
      Pow2Monotone(lo, hi - 1);
    }
  }

  /** Splitting off the least significant bit of a remainder modulo 2^h. */
  lemma ModHalf(x: nat, h: nat)
    requires h >= 1
    ensures x % Pow2(h) == 2 * ((x / 2) % Pow2(h - 1)) + x % 2
  {
    var p := Pow2(h - 1);
    var q, b := x / 2, x % 2;
    var m, s := q / p, q % p;
    assert q == p * m + s;
    assert x == 2 * q + b;
    assert x == (2 * p) * m + (2 * s + b) by {
      assert 2 * (p * m) == (2 * p) * m;
    }
    DivModUnique(x, 2 * p, m, 2 * s + b);
  }

  /** Masking with 2^k - 1 keeps the low `k` bits. */
  lemma {:induction false} LowMask(x: nat, k: nat)
    ensures BitAnd(x, Pow2(k) - 1) == x % Pow2(k)
    decreases k
  {
    if k == 0 {
    } else if x == 0 {
    } else {
      var mask := Pow2(k) - 1;
      assert mask % 2 == 1 && mask / 2 == Pow2(k - 1) - 1;
      LowMask(x / 2, k - 1);
      ModHalf(x, k);
    }
  }

  /** An even mask contributes no low bit: AND-ing with it shifts down. */
  lemma EvenMask(x: nat, m: nat)
    ensures BitAnd(x, 2 * m) == 2 * BitAnd(x / 2, m)
  {
  }

  /** Masking with 2^hi - 2^lo (the ones in bit positions lo .. hi-1) keeps
      exactly those bits of `x`. */
  lemma {:induction false} RangeMask(x: nat, lo: nat, hi: nat)
    requires lo <= hi
    ensures Pow2(lo) <= Pow2(hi)
    ensures BitAnd(x, Pow2(hi) - Pow2(lo)) == x % Pow2(hi) - x % Pow2(lo)
    decreases lo
  {
    if lo == 0 {
      LowMask(x, hi);
    } else if hi == lo {
      assert BitAnd(x, 0) == 0;
    } else if x == 0 {
      Pow2Monotone(lo, hi);
    } else {
      RangeMask(x / 2, lo - 1, hi - 1);
      RangeMaskStep(x, lo, hi);
    }
  }

  /** The inductive step of `RangeMask`: the mask is even, so its result is
      twice the masked upper bits of `x`. */
  lemma RangeMaskStep(x: nat, lo: nat, hi: nat)
    requires 0 < lo < hi
    requires Pow2(lo - 1) <= Pow2(hi - 1)
    requires BitAnd(x / 2, Pow2(hi - 1) - Pow2(lo - 1))
             == (x / 2) % Pow2(hi - 1) - (x / 2) % Pow2(lo - 1)
    ensures Pow2(lo) <= Pow2(hi)
    ensures BitAnd(x, Pow2(hi) - Pow2(lo)) == x % Pow2(hi) - x % Pow2(lo)
  {
    var ph, pl := Pow2(hi - 1), Pow2(lo - 1);
    assert Pow2(hi) - Pow2(lo) == 2 * (ph - pl);
    EvenMask(x, ph - pl);
    ModHalf(x, hi);
    ModHalf(x, lo);
  }
}
