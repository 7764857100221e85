/** The Rust integer semantics the programs rely on, written out over unbounded integers. */
module Primitives {

  const I32_MIN: int := -0x8000_0000
  const I32_MAX: int := 0x7FFF_FFFF
  const U32_MAX: int := 0xFFFF_FFFF
  const I64_MIN: int := -0x8000_0000_0000_0000
  const I64_MAX: int := 0x7FFF_FFFF_FFFF_FFFF
  /** 2^64: `usize` on a 64-bit target holds 0 .. 2^64 - 1. */
  const USIZE_MODULUS: int := 0x1_0000_0000_0000_0000

  /** Rust's `/` on signed integers: the quotient truncated toward zero. */
  function Quot(a: int, b: int): int
    requires b > 0
  {
    if a >= 0 then a / b else -((-a) / b)
  }

  /** Rust's `%` on signed integers: the remainder has the sign of the dividend. */
  function Rem(a: int, b: int): (r: int)
    requires b > 0
    ensures 0 <= a ==> 0 <= r < b
    ensures a < 0 ==> -b < r <= 0
  {
    if a >= 0 then a % b else -((-a) % b)
  }

  /** Truncating quotient and remainder fit together: the dividend is the quotient times the
      divisor plus the remainder. */
  lemma QuotRem(a: int, b: int)
    requires b > 0
    ensures a == Quot(a, b) * b + Rem(a, b)
  {
  }

  /** `x as usize` for a 64-bit integer: the same bits read as unsigned, that is x modulo 2^64. */
  function AsUsize(x: int): (u: nat)
    ensures u < USIZE_MODULUS
    ensures 0 <= x < USIZE_MODULUS ==> u == x
    ensures -USIZE_MODULUS <= x < 0 ==> u == x + USIZE_MODULUS
  {
    x % USIZE_MODULUS
  }

  /** `b.pow(e)`. */
  function Pow(b: int, e: nat): (r: int)
    ensures b > 0 ==> r > 0
  {
    if e == 0 then 1 else b * Pow(b, e - 1)
  }

  /** Digit n of a word, counting from 0 at the right, by repeated truncating division by ten. */
  function DigitAt(word: int, n: nat): int
    decreases n
  {
    if n == 0 then Rem(word, 10) else DigitAt(Quot(word, 10), n - 1)
  }

  /** Digit n is what `(word / 10.pow(n)) % 10` computes. */
  lemma {:induction false} DigitAtPower(word: int, n: nat)
    ensures DigitAt(word, n) == Rem(Quot(word, Pow(10, n)), 10)
    decreases n
  {
    if n > 0 {
      var p := Pow(10, n - 1);
      DigitAtPower(Quot(word, 10), n - 1);
      QuotTen(word, p);
      assert Pow(10, n) == 10 * p;
    }
  }

  /** Dividing by ten and then by c, both truncating, divides by 10 * c. */
  lemma QuotTen(a: int, c: int)
    requires c > 0
    ensures Quot(Quot(a, 10), c) == Quot(a, 10 * c)
  {
    if a >= 0 {
      DivTen(a, c);
    } else {
      DivTen(-a, c);
      assert Quot(a, 10) == -((-a) / 10);
    }
  }

  lemma DivTen(x: int, c: int)
    requires x >= 0 && c > 0
    ensures (x / 10) / c == x / (10 * c)
  {
    var q, r := x / 10, x % 10;
    var q2, r2 := q / c, q % c;
    assert x == q2 * (10 * c) + (r2 * 10 + r) by {
      assert x == q * 10 + r;
      assert q == q2 * c + r2;
    }
    DivUnique(x, 10 * c, q2, r2 * 10 + r);
  }

  lemma DivUnique(x: int, d: int, q: int, r: int)
    requires d > 0 && x == q * d + r && 0 <= r < d
    ensures x / d == q
  {
    if x / d > q {
      MulMonotone(q + 1, x / d, d);
    } else if x / d < q {
      MulMonotone(x / d + 1, q, d);
    }
  }

  lemma {:induction false} MulMonotone(a: int, b: int, d: nat)
    requires a <= b
    ensures a * d <= b * d
  {
    if d > 0 {
      MulMonotone(a, b, d - 1);
      assert a * d == a * (d - 1) + a;
      assert b * d == b * (d - 1) + b;
    }
  }
}
