/** Java `int` semantics used by the renderer: the 32-bit pattern of an `int`,
    `BigInteger.intValue()`, truncating division, and the shift-and-mask field
    extraction written as division and remainder by powers of two. */
module JavaInt {

  /** The bit pattern of a Java `int`, read as an unsigned number (bit 0 is the
      least significant). `(code >> s) & (2^w - 1)` reads bits s .. s+w-1 of that
      pattern whatever the sign of `code`, because the mask drops every bit the
      arithmetic shift copies in from the sign; on a `Word` it is
      `code / 2^s % 2^w`. */
  type Word = x: int | 0 <= x < 0x1_0000_0000

  /** The values of a Java `int`. */
  type Int32 = x: int | -0x8000_0000 <= x < 0x8000_0000

  const TWO_32: int := 0x1_0000_0000

  /** `BigInteger.intValue()`: the low 32 bits of the two's complement form of `n`.
      Dafny's `%` is Euclidean, so for a negative `n` this is also the low 32 bits. */
  function IntValue(n: int): (w: Word)
    ensures (n - w) % TWO_32 == 0
    ensures 0 <= n < TWO_32 ==> w == n
  {
    n % TWO_32
  }

  /** Two big integers give the same `int` exactly when they agree modulo 2^32. */
  lemma {:induction false} IntValueOnlyLow32(n: int, m: int)
    ensures IntValue(n) == IntValue(m) <==> (n - m) % TWO_32 == 0
  {
    var q, r := n / TWO_32, m / TWO_32;
    assert n == TWO_32 * q + IntValue(n);
    assert m == TWO_32 * r + IntValue(m);
    assert n - m == TWO_32 * (q - r) + (IntValue(n) - IntValue(m));
    if IntValue(n) == IntValue(m) {
      DivModUnique(n - m, TWO_32, q - r, 0);
    } else if IntValue(n) > IntValue(m) {
      DivModUnique(n - m, TWO_32, q - r, IntValue(n) - IntValue(m));
    } else {
      DivModUnique(n - m, TWO_32, q - r - 1, TWO_32 + IntValue(n) - IntValue(m));
    }
  }

  /** Adding any multiple of 2^32 to a big integer does not change its `intValue()`. */
  lemma {:induction false} IntValueIgnoresHighBits(n: int, k: int)
    ensures IntValue(n + k * TWO_32) == IntValue(n)
  {
    assert (n + k * TWO_32) - n == TWO_32 * k;
    DivModUnique(TWO_32 * k, TWO_32, k, 0);
    IntValueOnlyLow32(n + k * TWO_32, n);
  }

  /** Java's `a / b` on `int`, which truncates toward zero, for a positive divisor. */
  function Div(a: int, b: int): (q: int)
    requires b > 0
    ensures a >= 0 ==> q == a / b
    ensures a < 0 ==> q == -((-a) / b)
  {
    if a >= 0 then a / b else -((-a) / b)
  }

  /** Truncating division by 4 and by 2 of the same number: twice the half is at
      least four times the quarter when it is non-negative, and at most when negative. */
  lemma QuarterAndHalf(a: int)
    ensures a >= 0 ==> 0 <= 4 * Div(a, 4) <= 2 * Div(a, 2) <= a
    ensures a < 0 ==> a <= 2 * Div(a, 2) <= 4 * Div(a, 4) <= 0
  {
    var n := if a >= 0 then a else -a;
    var q, r := n / 4, n % 4;
    DivModUnique(n, 2, 2 * q + r / 2, r % 2);
  }

  lemma MulAtLeast(k: int, d: int)
    requires k >= 1 && d > 0
    ensures k * d >= d
  {
  }

  lemma MulLe(a: int, x: int, y: int)
    requires 0 <= a && x <= y
    ensures a * x <= a * y
  {
    assert a * y - a * x == a * (y - x);
  }

  lemma MulSub(q: int, h: int, d: int)
    ensures (q - h) * d == q * d - h * d
  {
  }

  /** Quotient and remainder are unique: `x = lo + d * hi` with `0 <= lo < d`
      fixes both. */
  lemma DivModUnique(x: int, d: int, hi: int, lo: int)
    requires 0 < d && 0 <= lo < d && x == lo + d * hi
    ensures x / d == hi && x % d == lo
  {
    var q, r := x / d, x % d;
    assert q * d + r == x;
    MulSub(q, hi, d);
    assert (q - hi) * d == lo - r;
    if q > hi {
      MulAtLeast(q - hi, d);
    } else if q < hi {
      MulSub(hi, q, d);
      MulAtLeast(hi - q, d);
    }
  }

  /** The field of width `w` at position `d` (both as powers of two) of
      `lo + d * f + d * w * hi` is `f`, when `lo` lies below the field and `f` fits it. */
  lemma Digit(x: int, d: int, w: int, lo: int, f: int, hi: int)
    requires 0 < d && 0 < w && 0 <= lo < d && 0 <= f < w
    requires x == lo + d * f + d * w * hi
    ensures x / d % w == f
  {
    assert d * f + d * w * hi == d * (f + w * hi);
    DivModUnique(x, d, f + w * hi, lo);
    DivModUnique(f + w * hi, w, hi, f);
  }

  /** Splitting the low bits: the remainder by `a * b` is the remainder by `a`
      plus the next field of width `b`. */
  lemma ModSplit(x: int, a: int, b: int)
    requires 0 < a && 0 < b
    ensures x % (a * b) == x % a + a * (x / a % b)
    ensures x / (a * b) == x / a / b
  {
    var q1, r1 := x / a, x % a;
    var q2, r2 := q1 / b, q1 % b;
    assert x == a * q1 + r1;
    assert q1 == b * q2 + r2;
    assert a * q1 == a * (b * q2) + a * r2;
    assert a * (b * q2) == a * b * q2;
    MulLe(a, r2, b - 1);
    assert a * (b - 1) == a * b - a;
    DivModUnique(x, a * b, q2, a * r2 + r1);
  }
}
