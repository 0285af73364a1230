/**
  Fixed-point arithmetic at scale 1e8 on 64-bit integers (pkg/decimal/decimal.go).

  The functions say what each operation returns and exactly when it panics. Module
  DecimalMachine below contains the word-level code and proves that it computes them.
 */
module Decimal {
  import opened Outcomes

  const MAX_INT64: int := 0x7FFF_FFFF_FFFF_FFFF
  const MIN_INT64: int := -0x8000_0000_0000_0000
  const SCALE: int := 100_000_000

  type Fixed = x: int | MIN_INT64 <= x <= MAX_INT64

  predicate InRange(x: int) {
    MIN_INT64 <= x <= MAX_INT64
  }

  /** The value of a checked operation whose exact result is `x`. */
  function Fit(x: int): Checked<Fixed> {
    if InRange(x) then Done(x) else Panicked
  }

  function Magnitude(x: int): nat {
    if x < 0 then -x else x
  }

  /** Go's `-x` on int64: the most negative value is its own negation. */
  function Negate(x: Fixed): Fixed {
    if x == MIN_INT64 then x else -x
  }

  function Abs(x: Fixed): Fixed {
    if x < 0 then Negate(x) else x
  }

  /** Go's `/` on integers, which truncates toward zero. */
  function Quotient(a: int, b: int): int
    requires b != 0
  {
    var q := Magnitude(a) / Magnitude(b);
    if (a < 0) != (b < 0) then -q else q
  }

  function Add(f: Fixed, o: Fixed): Checked<Fixed> {
    Fit(f + o)
  }

  function Sub(f: Fixed, o: Fixed): Checked<Fixed> {
    Add(f, Negate(o))
  }

  /**
    |a|*|b|/|c| rounded down, negated when `a` and `b` have different signs; the sign of
    `c` plays no part. Panics for c == 0 and when the magnitude exceeds MAX_INT64.
   */
  function MulDiv(a: Fixed, b: Fixed, c: Fixed): Checked<Fixed> {
    if c == 0 then Panicked
    else
      var m := Magnitude(a) * Magnitude(b) / Magnitude(c);
      if m > MAX_INT64 then Panicked else Done(if (a < 0) != (b < 0) then -m else m)
  }

  function Mul(f: Fixed, o: Fixed): Checked<Fixed> {
    MulDiv(f, o, SCALE)
  }

  function Div(f: Fixed, o: Fixed): Checked<Fixed> {
    MulDiv(f, SCALE, o)
  }

  function MulBps(f: Fixed, bps: Fixed): Checked<Fixed> {
    MulDiv(f, bps, 10_000)
  }

  /** The overflow guard lets MIN_INT64 through, so that one product wraps. */
  function MulInt(f: Fixed, n: Fixed): Checked<Fixed> {
    if f == MIN_INT64 then Done(if n % 2 == 0 then 0 else MIN_INT64)
    else if Magnitude(f * n) > MAX_INT64 then Panicked
    else Done(f * n)
  }

  // Exactness and the one operand on which each operation is inexact.

  /** `Sub` is exact subtraction for every subtrahend except MIN_INT64, and for that one never. */
  lemma SubExactIff(f: Fixed, o: Fixed)
    ensures Sub(f, o) == Fit(f - o) <==> o != MIN_INT64
  {
    if o == MIN_INT64 {
      assert Negate(o) == o;
    }
  }

  /**
    `MulInt` is exact multiplication but for two cases: a MIN_INT64 receiver is never caught
    (it is right only for the factors 0 and 1), and a product of MIN_INT64 is refused.
   */
  lemma MulIntExactIff(f: Fixed, n: Fixed)
    ensures MulInt(f, n) == Fit(f * n)
            <==> (if f == MIN_INT64 then n == 0 || n == 1 else f * n != MIN_INT64)
  {
    if f == MIN_INT64 {
      if n >= 2 {
        assert f * n <= MIN_INT64 * 2;
      } else if n <= -1 {
        assert f * n >= -MIN_INT64;
      }
    }
  }

  /**
    `Div` is the checked truncated quotient for positive divisors; for negative ones only where
    the quotient is 0, or does not fit. A quotient of MIN_INT64 is refused.
   */
  lemma DivExactIff(f: Fixed, o: Fixed)
    requires o != 0
    ensures var q := Quotient(f * SCALE, o);
            Div(f, o) == Fit(q) <==> q != MIN_INT64 && (o > 0 || q == 0 || Magnitude(q) > MAX_INT64)
  {
    MagnitudeScaled(f);
    var m := Magnitude(f) * SCALE / Magnitude(o);
    FloorAtLeast(Magnitude(f) * SCALE, Magnitude(o), 0);
    assert Quotient(f * SCALE, o) == if (f < 0) != (o < 0) then -m else m;
  }

  /** The product of two fixed-point values, truncated toward zero. */
  function Notional(f: Fixed, o: Fixed): int {
    Quotient(f * o, SCALE)
  }

  /** `Mul` is that product wherever its magnitude fits, so it never returns MIN_INT64. */
  lemma MulIsQuotient(f: Fixed, o: Fixed)
    ensures Mul(f, o) == if Magnitude(Notional(f, o)) <= MAX_INT64 then Done(Notional(f, o)) else Panicked
  {
    ProductMagnitude(f, o);
    var m := Magnitude(f) * Magnitude(o);
    assert Magnitude(SCALE) == SCALE;
    FloorAtLeast(m, SCALE, 0);
    if m == 0 {
      assert m / SCALE == 0;
    }
  }

  lemma NotionalOfNonneg(f: Fixed, o: Fixed)
    requires f >= 0 && o >= 0
    ensures Notional(f, o) == f * o / SCALE >= 0
  {
    MulMonotone(0, f, o);
  }

  /** Magnitude and sign of a product. */
  lemma ProductMagnitude(f: int, o: int)
    ensures Magnitude(f * o) == Magnitude(f) * Magnitude(o)
    ensures f != 0 && o != 0 ==> f * o != 0 && (f * o < 0 <==> (f < 0) != (o < 0))
    ensures f == 0 || o == 0 ==> f * o == 0
  {
    var a: int, b: int := Magnitude(f), Magnitude(o);
    if f != 0 && o != 0 {
      MulMonotone(1, a, b);
      if f < 0 && o < 0 {
        assert f * o == a * b;
      } else if f < 0 {
        assert f * o == -(a * b);
      } else if o < 0 {
        assert f * o == -(a * b);
      }
    }
  }

  lemma MagnitudeScaled(f: int)
    ensures Magnitude(f * SCALE) == Magnitude(f) * SCALE
    ensures f * SCALE < 0 <==> f < 0
  {
  }

  // Facts about nonnegative operands, used by every bound above this layer.

  lemma MulNonneg(a: Fixed, b: Fixed)
    requires a >= 0 && b >= 0
    ensures a * b / SCALE >= 0
    ensures Mul(a, b) == if a * b / SCALE > MAX_INT64 then Panicked else Done(a * b / SCALE)
  {
    assert a * b >= 0;
  }

  lemma DivNonneg(a: Fixed, b: Fixed)
    requires a >= 0 && b > 0
    ensures a * SCALE / b >= 0
    ensures Div(a, b) == if a * SCALE / b > MAX_INT64 then Panicked else Done(a * SCALE / b)
  {
    assert Magnitude(a) == a && Magnitude(SCALE) == SCALE && Magnitude(b) == b;
    FloorAtLeast(a * SCALE, b, 0);
  }

  lemma BpsNonneg(a: Fixed, bps: Fixed)
    requires a >= 0 && bps >= 0
    ensures a * bps / 10_000 >= 0
    ensures MulBps(a, bps) == if a * bps / 10_000 > MAX_INT64 then Panicked else Done(a * bps / 10_000)
  {
    assert a * bps >= 0;
  }

  lemma MulMonotone(a: int, b: int, c: int)
    requires a <= b && c >= 0
    ensures a * c <= b * c
  {
  }

  lemma MulCancel(a: int, b: int, c: int)
    requires a * c < b * c && c > 0
    ensures a < b
  {
    if b <= a {
      MulMonotone(b, a, c);
    }
  }

  /** The rounding of a floor division: x/c is the q with q*c <= x < (q+1)*c. */
  lemma FloorBounds(x: int, c: int)
    requires c > 0
    ensures x / c * c <= x < (x / c + 1) * c
  {
    assert (x / c + 1) * c == x / c * c + c;
  }

  lemma FloorAtMost(x: int, c: int, q: int)
    requires c > 0 && x < (q + 1) * c
    ensures x / c <= q
  {
    FloorBounds(x, c);
    MulCancel(x / c, q + 1, c);
  }

  lemma FloorAtLeast(x: int, c: int, q: int)
    requires c > 0 && q * c <= x
    ensures q <= x / c
  {
    FloorBounds(x, c);
    MulCancel(q, x / c + 1, c);
  }

  lemma FloorMonotone(x: int, y: int, c: int)
    requires c > 0 && x <= y
    ensures x / c <= y / c
  {
    FloorBounds(x, c);
    FloorAtLeast(y, c, x / c);
  }

  /** Dividing twice, rounding down each time, is dividing once by the product. */
  lemma NestedFloor(x: int, b: int, c: int)
    requires b > 0 && c > 0
    ensures b * c > 0
    ensures x / b / c == x / (b * c)
  {
    var y, q := x / b, x / b / c;
    FloorBounds(x, b);
    FloorBounds(y, c);
    calc {
      q * (b * c);
      q * c * b;
    <= { MulMonotone(q * c, y, b); }
      y * b;
    }
    calc {
      (q + 1) * (b * c);
      (q + 1) * c * b;
    >= { MulMonotone(y + 1, (q + 1) * c, b); }
      (y + 1) * b;
    }
    FloorAtLeast(x, b * c, q);
    FloorAtMost(x, b * c, q);
  }
}

/** The 64- and 128-bit code of pkg/decimal/decimal.go, proved to compute the functions above. */
module DecimalMachine {
  import opened Outcomes
  import opened Decimal

  const TWO_64: int := 0x1_0000_0000_0000_0000

  type Word = x: int | 0 <= x < TWO_64

  /** Two's complement: the int64 congruent to `x`. */
  function Wrap(x: int): Fixed {
    (x - MIN_INT64) % TWO_64 + MIN_INT64
  }

  method Plus(f: Fixed, o: Fixed) returns (r: Checked<Fixed>)
    ensures r == Decimal.Add(f, o)
  {
    var s := Wrap(f + o);
    if (o > 0 && s < f) || (o < 0 && s > f) {
      return Panicked;
    }
    r := Done(s);
  }

  method Minus(f: Fixed, o: Fixed) returns (r: Checked<Fixed>)
    ensures r == Decimal.Sub(f, o)
  {
    r := Plus(f, Wrap(0 - o));
  }

  method TimesInt(f: Fixed, n: Fixed) returns (r: Checked<Fixed>)
    ensures r == Decimal.MulInt(f, n)
  {
    hide Wrap, MulInt, IntGuard;
    if n == 0 || f == 0 {
      ZeroProduct(f, n);
    } else {
      var caught := Guarded(f, n);
      if caught {
        GuardCatches(f, n);
        return Panicked;
      }
      GuardPasses(f, n);
    }
    r := Done(Wrap(f * n));
  }

  method Guarded(f: Fixed, n: Fixed) returns (caught: bool)
    requires n != 0
    ensures caught == IntGuard(f, n)
  {
    hide Wrap, Quotient;
    WrapIsNegate(n);
    WrapIsNegate(f);
    var an: int := n;
    if an < 0 {
      an := Wrap(0 - an);
    }
    var af: int := f;
    if af < 0 {
      af := Wrap(0 - af);
    }
    caught := af > Quotient(MAX_INT64, an);
  }

  lemma WrapIsNegate(x: Fixed)
    ensures Wrap(0 - x) == Negate(x)
  {
  }

  /** The guard |f| > MAX/|n| of MulInt, as the machine evaluates it. */
  predicate IntGuard(f: Fixed, n: Fixed)
    requires n != 0
  {
    Abs(f) > Quotient(MAX_INT64, Abs(n))
  }

  lemma GuardCatches(f: Fixed, n: Fixed)
    requires n != 0 && f != 0 && IntGuard(f, n)
    ensures MulInt(f, n) == Panicked
  {
    ProductMagnitude(f, n);
    var k, m := Magnitude(f), Magnitude(n);
    if n == MIN_INT64 {
      MulMonotone(1, k, m);
    } else {
      FloorBounds(MAX_INT64, m);
      MulMonotone(MAX_INT64 / m + 1, k, m);
    }
  }

  lemma GuardPasses(f: Fixed, n: Fixed)
    requires n != 0 && f != 0 && !IntGuard(f, n)
    ensures MulInt(f, n) == Done(Wrap(f * n))
  {
    hide Wrap;
    if f == MIN_INT64 {
      WrapOfMin(n);
    } else {
      hide MulInt;
      SmallProduct(f, n);
      WithinRange(f, n, f * n);
    }
  }

  lemma SmallProduct(f: Fixed, n: Fixed)
    requires n != 0 && f != MIN_INT64 && !IntGuard(f, n)
    ensures Magnitude(f * n) <= MAX_INT64
  {
    ProductMagnitude(f, n);
    var k, m := Magnitude(f), Magnitude(n);
    assert n != MIN_INT64 ==> Abs(n) == m && Quotient(MAX_INT64, m) == MAX_INT64 / m;
    FloorBounds(MAX_INT64, m);
    if n == MIN_INT64 {
      assert Quotient(MAX_INT64, MIN_INT64) == 0;
    } else {
      MulMonotone(k, MAX_INT64 / m, m);
    }
  }

  lemma WithinRange(f: Fixed, n: Fixed, product: int)
    requires f != MIN_INT64 && product == f * n && Magnitude(product) <= MAX_INT64
    ensures MulInt(f, n) == Done(product) && Wrap(product) == product
  {
  }

  lemma ZeroProduct(f: Fixed, n: Fixed)
    requires f == 0 || n == 0
    ensures f * n == 0 && MulInt(f, n) == Done(Wrap(f * n))
  {
  }

  lemma WrapOfMin(n: int)
    ensures Wrap(MIN_INT64 * n) == if n % 2 == 0 then 0 else MIN_INT64
  {
    var h := n / 2;
    if n % 2 == 0 {
      assert MIN_INT64 * n - MIN_INT64 == -h * TWO_64 - MIN_INT64;
    } else {
      assert MIN_INT64 * n - MIN_INT64 == -h * TWO_64;
    }
  }

  function Unsigned(v: Fixed): (u: Word)
    ensures u == Magnitude(v)
  {
    if v < 0 then Wrap(0 - v) % TWO_64 else v
  }

  /** The full product as a high and a low word. */
  method Mul64(a: Word, b: Word) returns (hi: Word, lo: Word)
    ensures hi * TWO_64 + lo == a * b
  {
    ProductBound(a, b);
    hi, lo := a * b / TWO_64, a * b % TWO_64;
  }

  lemma ProductBound(a: Word, b: Word)
    ensures 0 <= a * b < TWO_64 * TWO_64
  {
    MulMonotone(0, a, b);
    MulMonotone(a, TWO_64, b);
  }

  /** A quotient that does not fit one word is refused by comparing the high word alone. */
  lemma HighWordGuard(hi: Word, lo: Word, y: Word)
    requires y > 0
    ensures hi >= y <==> (hi * TWO_64 + lo) / y >= TWO_64
  {
    var p := hi * TWO_64 + lo;
    if hi >= y {
      MulMonotone(y, hi, TWO_64);
      FloorAtLeast(p, y, TWO_64);
    } else {
      MulMonotone(hi + 1, y, TWO_64);
      FloorAtMost(p, y, TWO_64 - 1);
    }
  }

  method Div64(hi: Word, lo: Word, y: Word) returns (q: Checked<Word>)
    requires y > 0
    ensures q == if (hi * TWO_64 + lo) / y < TWO_64 then Done((hi * TWO_64 + lo) / y) else Panicked
  {
    HighWordGuard(hi, lo, y);
    if hi >= y {
      return Panicked;
    }
    q := Done((hi * TWO_64 + lo) / y);
  }

  method MulDiv128(a: Fixed, b: Fixed, c: Fixed) returns (r: Checked<Fixed>)
    ensures r == Decimal.MulDiv(a, b, c)
  {
    hide MulDiv, Magnitude, Wrap;
    var neg := (a < 0) != (b < 0);
    WhenZero(a, b, c);
    if c == 0 {
      return Panicked;
    }
    var hi, lo := Mul64(Unsigned(a), Unsigned(b));
    MagnitudePositive(c);
    var q := Div64(hi, lo, Unsigned(c));
    MeansQuotient(a, b, c, hi * TWO_64 + lo, (hi * TWO_64 + lo) / Unsigned(c));
    if q.Panicked? || q.value > MAX_INT64 {
      return Panicked;
    }
    var v: Fixed := q.value;
    WrapIsNegate(v);
    r := Done(if neg then Wrap(0 - v) else v);
  }

  lemma WhenZero(a: Fixed, b: Fixed, c: Fixed)
    ensures c == 0 ==> MulDiv(a, b, c) == Panicked
  {
  }

  lemma MagnitudePositive(c: Fixed)
    requires c != 0
    ensures Magnitude(c) > 0
  {
  }

  /** MulDiv in terms of the product and the quotient of the magnitudes. */
  lemma MeansQuotient(a: Fixed, b: Fixed, c: Fixed, product: int, q: int)
    requires c != 0 && Magnitude(c) > 0
    requires product == Magnitude(a) * Magnitude(b) && q == product / Magnitude(c)
    ensures MulDiv(a, b, c) == if q > MAX_INT64 then Panicked else Done(if (a < 0) != (b < 0) then -q else q)
  {
  }
}
