/** Bit operations on naturals, written the way the C++ code writes them with
    `&` against a power-of-two mask, and their arithmetic meaning. */
module Bits {

  /** SIZE_MAX + 1 for the 64-bit targets the engines are built for:
      arithmetic on `size_t` is modulo this. */
  const SizeModulus: nat := 0x1_0000_0000_0000_0000

  /** 2^k. Alignments and buffer sizes in the engine are all of this form. */
  function Pow2(k: nat): (r: nat)
    ensures r >= 1
  {
    if k == 0 then 1 else 2 * Pow2(k - 1)
  }

  /** `x & (2^k - 1)`: the k low bits of x, defined bit by bit. */
  function LowBits(x: nat, k: nat): nat
  {
    if k == 0 then 0 else 2 * LowBits(x / 2, k - 1) + x % 2
  }

  /** `x & ~(2^k - 1)`: x with its k low bits cleared, defined bit by bit. */
  function ClearLowBits(x: nat, k: nat): nat
  {
    if k == 0 then x else 2 * ClearLowBits(x / 2, k - 1)
  }

  /** Division with remainder is unique. */
  lemma DivModUnique(x: int, d: nat, q: int, r: int)
    requires 0 <= r < d
    requires x == q * d + r
    ensures x / d == q && x % d == r
  {
    var q', r' := x / d, x % d;
    assert x == q' * d + r';
    assert (q' - q) * d == r - r';
    if q' > q {
      MulAtLeast(q' - q, d);
    } else if q' < q {
      MulAtLeast(q - q', d);
    }
  }

  lemma MulAtLeast(a: int, d: nat)
    requires a >= 1
    ensures a * d >= d
  {
    assert a * d == (a - 1) * d + d;
  }

  /** Halving and the modulus of an even number commute. */
  lemma {:induction false} HalfMod(x: nat, p: nat)
    requires p >= 1
    ensures x % (2 * p) == 2 * ((x / 2) % p) + x % 2
  {
    var q := (x / 2) / p;
    var r := (x / 2) % p;
    assert x / 2 == q * p + r;
    assert x == 2 * (x / 2) + x % 2;
    assert x == q * (2 * p) + (2 * r + x % 2);
    DivModUnique(x, 2 * p, q, 2 * r + x % 2);
  }

  /** Masking with 2^k - 1 is the remainder modulo 2^k. */
  lemma {:induction false} LowBitsIsMod(x: nat, k: nat)
    ensures LowBits(x, k) == x % Pow2(k)
  {
    if k > 0 {
      LowBitsIsMod(x / 2, k - 1);
      HalfMod(x, Pow2(k - 1));
    }
  }

  /** Clearing the k low bits rounds down to a multiple of 2^k. */
  lemma {:induction false} ClearLowBitsIsRoundDown(x: nat, k: nat)
    ensures ClearLowBits(x, k) == x - x % Pow2(k)
  {
    if k > 0 {
      ClearLowBitsIsRoundDown(x / 2, k - 1);
      HalfMod(x, Pow2(k - 1));
    }
  }

  /** A larger power of two is a multiple of a smaller one. */
  lemma {:induction false} Pow2Divides(a: nat, b: nat)
    requires b <= a
    ensures Pow2(a) % Pow2(b) == 0 && Pow2(a) >= Pow2(b)
  {
    if a > b {
      Pow2Divides(a - 1, b);
      var m := Pow2(a - 1) / Pow2(b);
      assert Pow2(a - 1) == m * Pow2(b);
      assert Pow2(a) == (2 * m) * Pow2(b);
      DivModUnique(Pow2(a), Pow2(b), 2 * m, 0);
    }
  }

  /** Powers of two are ordered as their exponents. */
  lemma {:induction false} Pow2Monotone(a: nat, b: nat)
    ensures Pow2(a) > Pow2(b) <==> a > b
  {
    if a > b {
      Pow2Divides(a - 1, b);
    } else {
      Pow2Divides(b, a);
    }
  }

  /** A multiple of m * d is a multiple of d. */
  lemma MultipleOfMultiple(x: nat, m: nat, d: nat)
    requires d >= 1 && m >= 1
    requires x % (m * d) == 0
    ensures x % d == 0
  {
    var q := x / (m * d);
    assert x == q * (m * d);
    assert x == (q * m) * d;
    DivModUnique(x, d, q * m, 0);
  }

  /** Reducing modulo a multiple of d first does not change the remainder modulo d. */
  lemma ModOfMod(x: int, m: nat, d: nat)
    requires d >= 1 && m >= 1
    ensures (x % (m * d)) % d == x % d
  {
    var q := x / (m * d);
    var r := x % (m * d);
    assert x == q * (m * d) + r;
    var r2 := r % d;
    assert r == (r / d) * d + r2;
    assert x == (q * m + r / d) * d + r2;
    DivModUnique(x, d, q * m + r / d, r2);
  }

  /** Rounding down to a multiple of a moves by less than a. */
  lemma RoundDown(x: nat, a: nat)
    requires a >= 1
    ensures (x - x % a) % a == 0
    ensures x - x % a <= x < x - x % a + a
  {
    DivModUnique(x - x % a, a, x / a, 0);
  }

  /** Two distinct multiples of a are at least a apart. */
  lemma MultiplesApart(m: nat, p: nat, a: nat)
    requires a >= 1 && m % a == 0 && p % a == 0 && m < p
    ensures m + a <= p
  {
    assert m == (m / a) * a;
    assert p == (p / a) * a;
    assert p - m == (p / a - m / a) * a;
    if p / a <= m / a {
      MulAtLeast(m / a - p / a + 1, a);
    }
    MulAtLeast(p / a - m / a, a);
  }

  /** The sum of two multiples of a is a multiple of a. */
  lemma SumOfMultiples(x: nat, y: nat, a: nat)
    requires a >= 1 && x % a == 0 && y % a == 0
    ensures (x + y) % a == 0
  {
    assert x == (x / a) * a;
    assert y == (y / a) * a;
    DivModUnique(x + y, a, x / a + y / a, 0);
  }

  /** A multiple of a larger power of two is a multiple of a smaller one. */
  lemma MultipleOfSmallerPow2(x: nat, big: nat, small: nat)
    requires small <= big && x % Pow2(big) == 0
    ensures x % Pow2(small) == 0
  {
    Pow2Divides(big, small);
    var m := Pow2(big) / Pow2(small);
    assert Pow2(big) == m * Pow2(small);
    assert m >= 1;
    MultipleOfMultiple(x, m, Pow2(small));
  }

  /** Exponents add when powers of two multiply. */
  lemma {:induction false} Pow2Add(a: nat, b: nat)
    ensures Pow2(a + b) == Pow2(a) * Pow2(b)
  {
    if a > 0 {
      Pow2Add(a - 1, b);
    }
  }

  /** size_t arithmetic is modulo 2^64. */
  lemma SizeModulusIsPow2()
    ensures Pow2(64) == SizeModulus
  {
    assert Pow2(1) == 2;
    Pow2Add(1, 1);
    Pow2Add(2, 2);
    Pow2Add(4, 4);
    assert Pow2(8) == 0x100;
    Pow2Add(8, 8);
    assert Pow2(16) == 0x1_0000;
    Pow2Add(16, 16);
    assert Pow2(32) == 0x1_0000_0000;
    Pow2Add(32, 32);
  }

  /** Masking a wrapped size_t difference with 2^k - 1 (k <= 64) gives the
      difference modulo 2^k. */
  lemma MaskedDifference(x: int, k: nat)
    requires k <= 64
    ensures LowBits(x % SizeModulus, k) == x % Pow2(k)
  {
    LowBitsIsMod(x % SizeModulus, k);
    SizeModulusIsPow2();
    Pow2Add(64 - k, k);
    ModOfMod(x, Pow2(64 - k), Pow2(k));
  }
}
