/**
  Reading and printing fixed-point values (Parse and String of pkg/decimal/decimal.go).

  A string is a sequence of bytes, one char each. A byte outside ASCII is never a digit, so
  ranging over runes and ranging over bytes reject the same inputs for the same reason.
 */
module DecimalText {
  import opened Decimal

  datatype ParseError = InvalidInput | Overflow

  datatype ParseResult = Parsed(value: Fixed) | Failed(error: ParseError)

  const MAX_DIGITS := 18

  // Decimal notation.

  predicate IsDigit(c: char) {
    '0' <= c <= '9'
  }

  function DigitValue(c: char): nat
    requires IsDigit(c)
  {
    c as int - '0' as int
  }

  function DigitChar(d: nat): (c: char)
    requires d < 10
    ensures IsDigit(c) && DigitValue(c) == d
    ensures c == '0' <==> d == 0
  {
    (d + '0' as int) as char
  }

  predicate AllDigits(s: string) {
    forall i :: 0 <= i < |s| ==> IsDigit(s[i])
  }

  function Pow10(k: nat): (p: nat)
    ensures p > 0
  {
    if k == 0 then 1 else 10 * Pow10(k - 1)
  }

  /** The number a digit string denotes. */
  function DigitsValue(s: string): nat
    requires AllDigits(s)
  {
    if s == "" then 0 else DigitsValue(s[..|s| - 1]) * 10 + DigitValue(s[|s| - 1])
  }

  // The accepted notation: [+-] digits [. digits], at most 18 and 8 of them.

  function Unsigned(s: string): string {
    if s != "" && (s[0] == '-' || s[0] == '+') then s[1..] else s
  }

  predicate HasMinus(s: string) {
    s != "" && s[0] == '-'
  }

  /** The position of the first `c`, or |s|. */
  function IndexOf(s: string, c: char): (i: nat)
    ensures i <= |s| && c !in s[..i]
    ensures i < |s| ==> s[i] == c
  {
    if s == "" || s[0] == c then 0
    else
      assert s[1..][..IndexOf(s[1..], c)] == s[1..IndexOf(s[1..], c) + 1];
      1 + IndexOf(s[1..], c)
  }

  function IntPart(s: string): string {
    var u := Unsigned(s);
    u[..IndexOf(u, '.')]
  }

  function FracPart(s: string): string {
    var u := Unsigned(s);
    var i := IndexOf(u, '.');
    if i < |u| then u[i + 1..] else ""
  }

  predicate WellShaped(s: string) {
    && Unsigned(s) != ""
    && '.' !in FracPart(s)
    && (IntPart(s) != "" || FracPart(s) != "")
    && |FracPart(s)| <= 8
  }

  /** whole.frac times 1e8. */
  function Combine(whole: string, frac: string): nat
    requires AllDigits(whole) && AllDigits(frac) && |frac| <= 8
  {
    DigitsValue(whole) * SCALE + DigitsValue(frac) * Pow10(8 - |frac|)
  }

  predicate PartsAccepted(whole: string, frac: string)
    requires |frac| <= 8
  {
    AllDigits(whole) && AllDigits(frac) && |whole| <= MAX_DIGITS && Combine(whole, frac) <= MAX_INT64
  }

  predicate Acceptable(s: string) {
    WellShaped(s) && PartsAccepted(IntPart(s), FracPart(s))
  }

  /** The denoted number times 1e8, without its sign. */
  function ScaledMagnitude(s: string): nat
    requires Acceptable(s)
  {
    Combine(IntPart(s), FracPart(s))
  }

  function ScaledValue(s: string): Fixed
    requires Acceptable(s)
  {
    if HasMinus(s) then 0 - ScaledMagnitude(s) else ScaledMagnitude(s)
  }

  /** Some leading digits of `t` already denote more than MAX_INT64. */
  predicate LeadingOverflow(t: string) {
    exists k :: 0 <= k <= |t| && AllDigits(t[..k]) && DigitsValue(t[..k]) > MAX_INT64
  }

  predicate PartsTooLarge(whole: string, frac: string)
    requires |frac| <= 8
  {
    || LeadingOverflow(whole)
    || (&& AllDigits(whole)
        && (|whole| > MAX_DIGITS || (AllDigits(frac) && Combine(whole, frac) > MAX_INT64)))
  }

  /** The inputs reported as too large; every other refused input is malformed. */
  predicate TooLarge(s: string) {
    WellShaped(s) && PartsTooLarge(IntPart(s), FracPart(s))
  }

  lemma PrefixAtMost(t: string, k: nat)
    requires AllDigits(t) && k <= |t|
    ensures DigitsValue(t[..k]) <= DigitsValue(t)
  {
    if k < |t| {
      PrefixAtMost(t[..|t| - 1], k);
      assert t[..|t| - 1][..k] == t[..k];
    } else {
      assert t[..k] == t;
    }
  }

  /** One digit more. */
  lemma OneMoreDigit(t: string, i: nat)
    requires i < |t| && AllDigits(t[..i])
    ensures AllDigits(t[..i + 1]) <==> IsDigit(t[i])
    ensures IsDigit(t[i]) ==> DigitsValue(t[..i + 1]) == DigitsValue(t[..i]) * 10 + DigitValue(t[i])
  {
    assert t[..i + 1] == t[..i] + [t[i]];
    assert t[..i + 1][..i] == t[..i];
    if AllDigits(t[..i + 1]) {
      PrefixDigit(t, i + 1, i);
    }
  }

  /** One decimal place more. */
  lemma Pow10Step(v: nat, k: nat)
    ensures Pow10(k + 1) == 10 * Pow10(k) && Pow10(0) == 1
    ensures v * Pow10(0) == v && v * Pow10(k + 1) == v * Pow10(k) * 10
  {
    TimesTen(v, Pow10(k));
  }

  lemma TimesTen(v: nat, p: nat)
    ensures v * (10 * p) == v * p * 10
  {
  }

  lemma PrefixDigit(t: string, k: nat, i: nat)
    requires i < k <= |t| && AllDigits(t[..k])
    ensures IsDigit(t[i])
  {
    assert t[..k][i] == t[i];
  }

  /** Go's digit loop over the whole part, with its overflow guard. */
  method ReadWhole(t: string) returns (r: ParseResult)
    ensures r.Parsed? <==> AllDigits(t) && DigitsValue(t) <= MAX_INT64
    ensures r.Parsed? ==> r.value == DigitsValue(t)
    ensures r == Failed(Overflow) <==> LeadingOverflow(t)
    ensures r.Failed? && r.error != Overflow ==> !AllDigits(t)
  {
    var whole: Fixed := 0;
    var i := 0;
    while i < |t|
      invariant 0 <= i <= |t|
      invariant AllDigits(t[..i]) && whole == DigitsValue(t[..i])
    {
      var c := t[i];
      OneMoreDigit(t, i);
      if !IsDigit(c) {
        forall k | 0 <= k <= |t| && AllDigits(t[..k])
          ensures DigitsValue(t[..k]) <= MAX_INT64
        {
          if k > i {
            PrefixDigit(t, k, i);
          }
          PrefixAtMost(t[..i], k);
          assert t[..i][..k] == t[..k];
        }
        return Failed(InvalidInput);
      }
      var d := DigitValue(c);
      if whole > (MAX_INT64 - d) / 10 {
        assert DigitsValue(t[..i + 1]) == whole * 10 + d > MAX_INT64;
        if AllDigits(t) {
          PrefixAtMost(t, i + 1);
        }
        return Failed(Overflow);
      }
      whole := whole * 10 + d;
      i := i + 1;
    }
    assert t[..i] == t;
    forall k | 0 <= k <= |t|
      ensures DigitsValue(t[..k]) <= MAX_INT64
    {
      PrefixAtMost(t, k);
    }
    r := Parsed(whole);
  }

  lemma DigitsValueBound(t: string)
    requires AllDigits(t)
    ensures DigitsValue(t) < Pow10(|t|)
  {
    if t != "" {
      DigitsValueBound(t[..|t| - 1]);
    }
  }

  lemma Pow10Monotone(i: nat, j: nat)
    requires i <= j
    ensures Pow10(i) <= Pow10(j)
  {
    if i < j {
      Pow10Monotone(i, j - 1);
    }
  }

  lemma Pow10Add(i: nat, j: nat)
    ensures Pow10(i + j) == Pow10(i) * Pow10(j)
  {
    hide Pow10;
    Pow10Step(1, 0);
    if i > 0 {
      Pow10Add(i - 1, j);
      Pow10Step(1, i - 1);
      Pow10Step(1, i - 1 + j);
      TenTimes(Pow10(i - 1), Pow10(j));
    }
  }

  lemma TenTimes(a: nat, b: nat)
    ensures 10 * a * b == 10 * (a * b)
  {
  }

  lemma Pow10Below8(k: nat)
    requires k <= 8
    ensures Pow10(8) == SCALE
    ensures Pow10(k) < SCALE <==> k < 8
  {
    assert Pow10(4) == 10_000;
    Pow10Add(4, 4);
    if k < 8 {
      Pow10Monotone(k + 1, 8);
    }
  }

  /** Go's fraction loop. */
  method ReadFraction(t: string) returns (r: ParseResult)
    requires |t| <= 8
    ensures r.Parsed? <==> AllDigits(t)
    ensures r.Parsed? ==> r.value == DigitsValue(t) * Pow10(8 - |t|) && 0 <= r.value < SCALE
    ensures r.Failed? ==> r.error == InvalidInput
  {
    Pow10Below8(|t|);
    Pow10Monotone(|t|, 8);
    var frac: int, scale: int := 0, 1;
    assert t[..0] == "" && DigitsValue("") == 0 && Pow10(0) == 1;
    hide Pow10, DigitsValue, DigitValue;
    var i := 0;
    while i < |t|
      invariant 0 <= i <= |t|
      invariant AllDigits(t[..i])
      invariant frac == DigitsValue(t[..i])
      invariant scale == Pow10(i)
    {
      if !IsDigit(t[i]) {
        return Failed(InvalidInput);
      }
      OneMoreDigit(t, i);
      Pow10Step(frac, i);
      frac := frac * 10 + DigitValue(t[i]);
      scale := scale * 10;
      i := i + 1;
    }
    assert t[..i] == t;
    DigitsValueBound(t);
    frac := ScaleUp(frac, |t|);
    r := Parsed(frac);
  }

  /** Go's scaling loop: a fraction of `n` digits as a multiple of 1e-8. */
  method ScaleUp(digits: nat, n: nat) returns (frac: nat)
    requires n <= 8 && digits < Pow10(n)
    ensures frac == digits * Pow10(8 - n) && frac < SCALE
  {
    frac := digits;
    hide Pow10;
    Pow10Step(digits, 0);
    var scale, k := Pow10(n), n;
    Pow10Below8(k);
    while scale < SCALE
      invariant n <= k <= 8 && scale == Pow10(k)
      invariant scale < SCALE <==> k < 8
      invariant frac == digits * Pow10(k - n) && frac < scale
      decreases 8 - k
    {
      Pow10Step(digits, k - n);
      Pow10Step(digits, k);
      frac, scale, k := frac * 10, scale * 10, k + 1;
      Pow10Below8(k);
    }
  }

  /**
    Parse accepts exactly the well-formed in-range numerals, returns the exact number times
    1e8, and tells apart numerals that are too large from input that is malformed.
   */
  method Parse(input: string) returns (r: ParseResult)
    ensures r.Parsed? <==> Acceptable(input)
    ensures r.Parsed? ==> r.value == ScaledValue(input)
    ensures r.Failed? ==> (r.error == Overflow <==> TooLarge(input))
  {
    var s := input;
    if s == "" {
      return Failed(InvalidInput);
    }
    var neg := false;
    if s[0] == '-' || s[0] == '+' {
      neg := s[0] == '-';
      s := s[1..];
    }
    if s == "" {
      return Failed(InvalidInput);
    }
    var intPart, fracPart := s, "";
    var dot := IndexOf(s, '.');
    if dot < |s| {
      intPart, fracPart := s[..dot], s[dot + 1..];
      if IndexOf(fracPart, '.') < |fracPart| {
        return Failed(InvalidInput);
      }
      assert fracPart[..|fracPart|] == fracPart;
    }
    assert intPart == IntPart(input) && fracPart == FracPart(input);
    if intPart == "" && fracPart == "" {
      return Failed(InvalidInput);
    }
    if |fracPart| > 8 {
      return Failed(InvalidInput);
    }
    assert WellShaped(input);
    var m := ReadParts(intPart, fracPart);
    if m.Failed? {
      return m;
    }
    var v := m.value;
    r := Parsed(if neg then 0 - v else v);
  }

  /** The arithmetic half of Parse, on a whole and a fractional part already told apart. */
  method ReadParts(whole: string, frac: string) returns (r: ParseResult)
    requires |frac| <= 8
    ensures r.Parsed? <==> PartsAccepted(whole, frac)
    ensures r.Parsed? ==> r.value == Combine(whole, frac)
    ensures r.Failed? ==> (r.error == Overflow <==> PartsTooLarge(whole, frac))
  {
    WholeAtMostParts(whole, frac);
    var w := ReadWhole(whole);
    if w.Failed? {
      return w;
    }
    if |whole| > MAX_DIGITS {
      return Failed(Overflow);
    }
    var f := ReadFraction(frac);
    if f.Failed? {
      return f;
    }
    if w.value > (MAX_INT64 - f.value) / SCALE {
      return Failed(Overflow);
    }
    r := Parsed(w.value * SCALE + f.value);
  }

  lemma WholeAtMostParts(whole: string, frac: string)
    requires |frac| <= 8
    ensures AllDigits(whole) && AllDigits(frac) ==> DigitsValue(whole) <= Combine(whole, frac)
    ensures AllDigits(whole) && LeadingOverflow(whole) ==> DigitsValue(whole) > MAX_INT64
  {
    if AllDigits(whole) && LeadingOverflow(whole) {
      var k :| 0 <= k <= |whole| && DigitsValue(whole[..k]) > MAX_INT64;
      PrefixAtMost(whole, k);
    }
    if AllDigits(whole) && AllDigits(frac) {
      MulMonotone(0, DigitsValue(frac), Pow10(8 - |frac|));
    }
  }

  // Printing.

  /** fmt's %d for a nonnegative number. */
  function Itoa(n: nat): string {
    if n < 10 then [DigitChar(n)] else Itoa(n / 10) + [DigitChar(n % 10)]
  }

  function FormatInt(x: int): string {
    if x < 0 then "-" + Itoa(-x) else Itoa(x)
  }

  /** The digits of `n`, padded with zeros on the left to at least `width` of them. */
  function ZeroPad(n: nat, width: nat): string {
    if width == 0 then (if n == 0 then "" else Itoa(n))
    else ZeroPad(n / 10, width - 1) + [DigitChar(n % 10)]
  }

  /** fmt's %08d, whose width counts the sign. */
  function Format08(x: int): string {
    if x < 0 then "-" + ZeroPad(-x, 7) else ZeroPad(x, 8)
  }

  function TrimZeros(s: string): string {
    if s != "" && s[|s| - 1] == '0' then TrimZeros(s[..|s| - 1]) else s
  }

  /** Go's % on integers: the remainder takes the sign of the dividend. */
  function Remainder(a: int, b: int): int
    requires b != 0
  {
    a - Quotient(a, b) * b
  }

  function String(f: Fixed): string {
    var v := if f < 0 then Negate(f) else f;
    var whole, frac := Quotient(v, SCALE), Remainder(v, SCALE);
    var sign := if f < 0 then "-" else "";
    if frac == 0 then sign + FormatInt(whole)
    else sign + FormatInt(whole) + "." + TrimZeros(Format08(frac))
  }

  // The canonical form and the two inverse laws.

  /** No plus sign, no needless zero on either end, no bare point, no minus zero. */
  predicate Canonical(s: string) {
    && Acceptable(s)
    && s[0] != '+'
    && IntPart(s) != ""
    && (IntPart(s)[0] == '0' ==> |IntPart(s)| == 1)
    && (if FracPart(s) == "" then '.' !in Unsigned(s) else FracPart(s)[|FracPart(s)| - 1] != '0')
    && (HasMinus(s) ==> ScaledMagnitude(s) > 0)
  }

  lemma {:induction false} ItoaDenotes(n: nat)
    ensures Itoa(n) != "" && AllDigits(Itoa(n)) && DigitsValue(Itoa(n)) == n
    ensures Itoa(n)[0] == '0' <==> n == 0
    ensures n == 0 ==> Itoa(n) == "0"
  {
    var s := Itoa(n);
    if n < 10 {
      assert s[..0] == "";
    } else {
      ItoaDenotes(n / 10);
      assert s[..|s| - 1] == Itoa(n / 10);
    }
  }

  lemma {:induction false} ItoaLength(n: nat, k: nat)
    requires k > 0 && n < Pow10(k)
    ensures |Itoa(n)| <= k
  {
    if n >= 10 {
      ItoaLength(n / 10, k - 1);
    }
  }

  lemma LastDigit(n: nat, c: char)
    requires IsDigit(c)
    ensures (n * 10 + DigitValue(c)) / 10 == n && DigitChar((n * 10 + DigitValue(c)) % 10) == c
  {
  }

  /** A digit string without leading zeros is the print of its value. */
  lemma {:induction false} ItoaInverse(s: string)
    requires s != "" && AllDigits(s) && (s[0] == '0' ==> |s| == 1)
    ensures Itoa(DigitsValue(s)) == s
    ensures |s| > 1 ==> DigitsValue(s) >= 10
  {
    var init, last := s[..|s| - 1], s[|s| - 1];
    assert s == init + [last];
    LastDigit(DigitsValue(init), last);
    if init == "" {
      OneDigit(s);
    } else {
      hide Itoa, DigitValue, IsDigit;
      ItoaInverse(init);
      if |init| == 1 {
        OneDigit(init);
      }
      ItoaStep(DigitsValue(init), DigitValue(last));
    }
  }

  lemma OneDigit(s: string)
    requires |s| == 1 && AllDigits(s)
    ensures DigitsValue(s) == DigitValue(s[0]) < 10 && Itoa(DigitsValue(s)) == s
    ensures s[0] != '0' ==> DigitsValue(s) > 0
  {
    assert s[..0] == "";
    LastDigit(0, s[0]);
    assert s == [s[0]];
  }

  lemma ItoaStep(n: nat, d: nat)
    requires n > 0 && d < 10
    ensures n * 10 + d >= 10 && Itoa(n * 10 + d) == Itoa(n) + [DigitChar(d)]
  {
    assert (n * 10 + d) / 10 == n && (n * 10 + d) % 10 == d;
  }

  lemma {:induction false} ZeroPadDenotes(n: nat, width: nat)
    requires n < Pow10(width)
    ensures var s := ZeroPad(n, width); |s| == width && AllDigits(s) && DigitsValue(s) == n
  {
    if width > 0 {
      ZeroPadDenotes(n / 10, width - 1);
      var s := ZeroPad(n, width);
      assert s[..|s| - 1] == ZeroPad(n / 10, width - 1);
    }
  }

  lemma {:induction false} ZeroPadInverse(s: string)
    requires AllDigits(s)
    ensures ZeroPad(DigitsValue(s), |s|) == s
  {
    if s != "" {
      var init, last := s[..|s| - 1], s[|s| - 1];
      ZeroPadInverse(init);
      LastDigit(DigitsValue(init), last);
      assert s == init + [last];
    }
  }

  lemma TrailingZero(s: string)
    requires AllDigits(s) && s != "" && s[|s| - 1] == '0'
    ensures DigitsValue(s) == DigitsValue(s[..|s| - 1]) * 10
  {
  }

  lemma {:induction false} TrimZerosDenotes(s: string)
    requires AllDigits(s)
    ensures var t := TrimZeros(s);
            && |t| <= |s| && AllDigits(t)
            && (t != "" ==> t[|t| - 1] != '0')
            && DigitsValue(s) == DigitsValue(t) * Pow10(|s| - |t|)
  {
    hide Pow10, DigitsValue;
    var t := TrimZeros(s);
    if s == "" || s[|s| - 1] != '0' {
      Pow10Step(DigitsValue(t), 0);
    } else {
      var init := s[..|s| - 1];
      TrimZerosDenotes(init);
      TrailingZero(s);
      Pow10Step(DigitsValue(t), |init| - |t|);
    }
  }

  /** `n` printed with at least `width` digits, without its trailing zeros. */
  function Trimmed(n: nat, width: nat): string {
    TrimZeros(ZeroPad(n, width))
  }

  lemma TrimmedStep(n: nat, width: nat)
    ensures Trimmed(10 * n, width + 1) == Trimmed(n, width)
  {
    assert 10 * n / 10 == n && 10 * n % 10 == 0;
    var s := ZeroPad(10 * n, width + 1);
    assert s == ZeroPad(n, width) + "0";
    assert s[..|s| - 1] == ZeroPad(n, width);
  }

  /** d * 10^j, one digit at a time. */
  function Shifted(d: nat, j: nat): nat
    decreases j
  {
    if j == 0 then d else Shifted(10 * d, j - 1)
  }

  lemma {:induction false} ShiftedIsProduct(d: nat, j: nat)
    ensures Shifted(d, j) == d * Pow10(j)
    decreases j
  {
    if j > 0 {
      ShiftedIsProduct(10 * d, j - 1);
      assert 10 * d * Pow10(j - 1) == d * (10 * Pow10(j - 1));
    }
  }

  lemma {:induction false} TrimmedShift(d: nat, width: nat, j: nat)
    ensures Trimmed(Shifted(d, j), width + j) == Trimmed(d, width)
    decreases j
  {
    hide Trimmed;
    if j > 0 {
      TrimmedShift(10 * d, width + 1, j - 1);
      TrimmedStep(d, width);
    }
  }

  lemma TrimmedProduct(d: nat, width: nat, j: nat)
    ensures Trimmed(d * Pow10(j), width + j) == Trimmed(d, width)
  {
    ShiftedIsProduct(d, j);
    TrimmedShift(d, width, j);
  }

  lemma TrimmedDigits(s: string)
    requires AllDigits(s) && (s != "" ==> s[|s| - 1] != '0')
    ensures Trimmed(DigitsValue(s), |s|) == s
  {
    ZeroPadInverse(s);
  }

  /** Padding a fraction to eight digits and trimming it again gives it back. */
  lemma TrimmedInverse(s: string, j: nat)
    requires AllDigits(s) && |s| + j == 8 && (s != "" ==> s[|s| - 1] != '0')
    ensures Trimmed(DigitsValue(s) * Pow10(j), 8) == s
  {
    hide Trimmed, DigitsValue, Pow10;
    TrimmedProduct(DigitsValue(s), |s|, j);
    TrimmedDigits(s);
  }

  lemma {:induction false} IndexOfFirst(s: string, c: char, k: nat)
    requires k < |s| && s[k] == c && c !in s[..k]
    ensures IndexOf(s, c) == k
  {
    if k > 0 {
      assert s[..k][0] == s[0];
      assert s[1..][..k - 1] == s[..k][1..];
      IndexOfFirst(s[1..], c, k - 1);
    }
  }

  lemma {:induction false} IndexOfAbsent(s: string, c: char)
    requires c !in s
    ensures IndexOf(s, c) == |s|
  {
    if s != "" {
      IndexOfAbsent(s[1..], c);
    }
  }

  /** A numeral put together from its parts. */
  function Numeral(neg: bool, whole: string, frac: string): string {
    (if neg then "-" else "") + (whole + (if frac != "" then "." + frac else ""))
  }

  lemma SignOf(neg: bool, u: string)
    requires u != "" && IsDigit(u[0])
    ensures var s := (if neg then "-" else "") + u;
            Unsigned(s) == u && HasMinus(s) == neg && s[0] != '+'
  {
  }

  lemma PointOf(whole: string, frac: string)
    requires '.' !in whole
    ensures var u := whole + (if frac != "" then "." + frac else "");
            && IndexOf(u, '.') == |whole| && u[..|whole|] == whole
            && (frac != "" ==> |whole| < |u| && u[|whole| + 1..] == frac)
            && (frac == "" ==> u == whole)
  {
    var u := whole + (if frac != "" then "." + frac else "");
    assert u[..|whole|] == whole;
    if frac != "" {
      IndexOfFirst(u, '.', |whole|);
    } else {
      assert u == whole;
      IndexOfAbsent(u, '.');
    }
  }

  lemma PartsOf(neg: bool, whole: string, frac: string)
    requires whole != "" && AllDigits(whole) && AllDigits(frac)
    ensures var s := Numeral(neg, whole, frac);
            && Unsigned(s) == whole + (if frac != "" then "." + frac else "")
            && IntPart(s) == whole && FracPart(s) == frac && HasMinus(s) == neg
            && '.' !in frac && '.' !in whole && s[0] != '+'
  {
    PointOf(whole, frac);
    SignOf(neg, whole + (if frac != "" then "." + frac else ""));
  }

  /** Numerals built from trimmed parts are canonical. */
  lemma NumeralIsCanonical(neg: bool, whole: string, frac: string)
    requires whole != "" && AllDigits(whole) && |frac| <= 8 && PartsAccepted(whole, frac)
    requires whole[0] == '0' ==> |whole| == 1
    requires frac != "" ==> frac[|frac| - 1] != '0'
    requires neg ==> Combine(whole, frac) > 0
    ensures var s := Numeral(neg, whole, frac);
            Canonical(s) && ScaledValue(s) == if neg then 0 - Combine(whole, frac) else Combine(whole, frac)
  {
    PartsOf(neg, whole, frac);
  }

  lemma SplitAt(u: string, i: nat)
    requires i < |u| && u[i] == '.'
    ensures u == u[..i] + ("." + u[i + 1..])
    ensures '.' in u
  {
  }

  lemma SplitNumeral(s: string)
    requires s != "" && s[0] != '+'
    requires FracPart(s) == "" ==> '.' !in Unsigned(s)
    ensures s == Numeral(HasMinus(s), IntPart(s), FracPart(s))
  {
    var u := Unsigned(s);
    var i := IndexOf(u, '.');
    if i < |u| {
      SplitAt(u, i);
    }
    assert s == (if HasMinus(s) then "-" else "") + u;
  }

  /** The trimmed eight-digit print of a fraction. */
  function FracDigits(r: nat): string
    requires r < SCALE
  {
    Trimmed(r, 8)
  }

  lemma FracDigitsDenote(r: nat)
    requires r < SCALE
    ensures var frac := FracDigits(r);
            && AllDigits(frac) && |frac| <= 8 && DigitsValue(frac) * Pow10(8 - |frac|) == r
            && (frac != "" ==> frac[|frac| - 1] != '0')
            && (frac == "" <==> r == 0)
  {
    Pow10Below8(8);
    ZeroPadDenotes(r, 8);
    TrimZerosDenotes(ZeroPad(r, 8));
    var frac := FracDigits(r);
    if frac == "" {
      assert DigitsValue(frac) * Pow10(8) == 0;
    } else {
      ZeroTailOnly(frac);
      MulMonotone(1, DigitsValue(frac), Pow10(8 - |frac|));
    }
  }

  /** The shape of the print of every value but the most negative one. */
  lemma StringParts(f: Fixed)
    requires f != MIN_INT64
    ensures var m := Magnitude(f); String(f) == Numeral(f < 0, Itoa(m / SCALE), FracDigits(m % SCALE))
  {
    var m := Magnitude(f);
    assert Remainder(m, SCALE) == m % SCALE;
    FracDigitsDenote(m % SCALE);
    var sign, whole, frac := if f < 0 then "-" else "", Itoa(m / SCALE), FracDigits(m % SCALE);
    if m % SCALE != 0 {
      assert sign + whole + "." + frac == sign + (whole + ("." + frac));
    } else {
      assert sign + whole == sign + (whole + "");
    }
  }

  lemma ZeroTailOnly(s: string)
    requires s != "" && AllDigits(s) && s[|s| - 1] != '0'
    ensures DigitsValue(s) > 0
  {
  }

  lemma WholeLength(m: nat)
    requires m <= MAX_INT64
    ensures |Itoa(m / SCALE)| <= MAX_DIGITS
  {
    Pow10Below8(8);
    Pow10Add(8, 8);
    ItoaLength(m / SCALE, 16);
  }

  /** Parse undoes String: the print is accepted, canonical, and denotes the value. */
  lemma StringThenParse(f: Fixed)
    requires f != MIN_INT64
    ensures Canonical(String(f)) && ScaledValue(String(f)) == f
  {
    var m := Magnitude(f);
    StringParts(f);
    ItoaDenotes(m / SCALE);
    WholeLength(m);
    FracDigitsDenote(m % SCALE);
    var whole, frac := Itoa(m / SCALE), FracDigits(m % SCALE);
    assert Combine(whole, frac) == m;
    NumeralIsCanonical(f < 0, whole, frac);
  }

  /** The print of the most negative value starts with two signs and is refused. */
  lemma StringOfMinIsRefused()
    ensures !Acceptable(String(MIN_INT64))
  {
    MinHasTwoSigns();
    hide String;
    TwoSignsAreRefused(String(MIN_INT64));
  }

  lemma MinHasTwoSigns()
    ensures var s := String(MIN_INT64); |s| >= 2 && s[0] == '-' && s[1] == '-'
  {
    hide Itoa, TrimZeros, Format08;
    assert Quotient(MIN_INT64, SCALE) == -92_233_720_368;
    assert Remainder(MIN_INT64, SCALE) == -54_775_808;
  }

  lemma TwoSignsAreRefused(s: string)
    requires |s| >= 2 && s[0] == '-' && s[1] == '-'
    ensures !Acceptable(s)
  {
    hide DigitsValue, Pow10;
    var u := Unsigned(s);
    assert u[0] == '-';
    assert IntPart(s)[0] == '-';
  }

  /** The round trip holds for a value exactly when it is not the most negative one. */
  lemma RoundTripIff(f: Fixed)
    ensures (Acceptable(String(f)) && ScaledValue(String(f)) == f) <==> f != MIN_INT64
  {
    if f == MIN_INT64 {
      StringOfMinIsRefused();
    } else {
      StringThenParse(f);
    }
  }

  lemma CombineParts(whole: string, frac: string)
    requires AllDigits(whole) && AllDigits(frac) && |frac| <= 8
    ensures Combine(whole, frac) / SCALE == DigitsValue(whole)
    ensures Combine(whole, frac) % SCALE == DigitsValue(frac) * Pow10(8 - |frac|)
  {
    var j := 8 - |frac|;
    DigitsValueBound(frac);
    Pow10Add(|frac|, j);
    Pow10Below8(8);
    MulMonotone(DigitsValue(frac) + 1, Pow10(|frac|), Pow10(j));
    MulMonotone(0, DigitsValue(frac), Pow10(j));
    Pow10Monotone(0, j);
    assert (DigitsValue(frac) + 1) * Pow10(j) == DigitsValue(frac) * Pow10(j) + Pow10(j);
  }

  lemma PrintOfParts(f: Fixed, whole: string, frac: string)
    requires f != MIN_INT64
    requires whole != "" && AllDigits(whole) && AllDigits(frac) && |frac| <= 8
    requires whole[0] == '0' ==> |whole| == 1
    requires frac != "" ==> frac[|frac| - 1] != '0'
    requires Magnitude(f) == Combine(whole, frac)
    ensures String(f) == Numeral(f < 0, whole, frac)
  {
    StringParts(f);
    PrintedWhole(whole, frac);
    PrintedFraction(whole, frac);
  }

  lemma PrintedWhole(whole: string, frac: string)
    requires whole != "" && AllDigits(whole) && AllDigits(frac) && |frac| <= 8
    requires whole[0] == '0' ==> |whole| == 1
    ensures Itoa(Combine(whole, frac) / SCALE) == whole
  {
    CombineParts(whole, frac);
    ItoaInverse(whole);
  }

  lemma PrintedFraction(whole: string, frac: string)
    requires AllDigits(whole) && AllDigits(frac) && |frac| <= 8
    requires frac != "" ==> frac[|frac| - 1] != '0'
    ensures FracDigits(Combine(whole, frac) % SCALE) == frac
  {
    CombineParts(whole, frac);
    TrimmedInverse(frac, 8 - |frac|);
  }

  /** String undoes Parse on canonical numerals, so a value has one canonical numeral. */
  lemma ParseThenString(s: string)
    requires Canonical(s)
    ensures String(ScaledValue(s)) == s
  {
    PrintOfParts(ScaledValue(s), IntPart(s), FracPart(s));
    SplitNumeral(s);
  }

  // The notation, spelled out.

  /** A sign or none, then digits, then a point and digits or neither. */
  function Spelled(sign: string, whole: string, point: bool, frac: string): string {
    sign + (whole + if point then "." + frac else "")
  }

  lemma SpelledParts(sign: string, whole: string, point: bool, frac: string)
    requires sign in {"", "+", "-"} && AllDigits(whole) && AllDigits(frac) && (!point ==> frac == "")
    ensures var s := Spelled(sign, whole, point, frac);
            && Unsigned(s) == whole + (if point then "." + frac else "")
            && IntPart(s) == whole && FracPart(s) == frac && (HasMinus(s) <==> sign == "-")
  {
    var u := whole + if point then "." + frac else "";
    var s := sign + u;
    assert u != "" ==> u[0] != '-' && u[0] != '+';
    assert Unsigned(s) == u;
    if point {
      assert u[..|whole|] == whole && u[|whole|] == '.' && u[|whole| + 1..] == frac;
      IndexOfFirst(u, '.', |whole|);
    } else {
      assert u == whole;
      IndexOfAbsent(u, '.');
    }
  }

  /**
    Parse accepts a sign or none, up to 18 digits, and a point with up to 8 more digits or neither,
    some digit among them, exactly when the number is at most MAX_INT64 raw units; and that, with
    its sign, is its value.
   */
  lemma SpelledIsAccepted(sign: string, whole: string, point: bool, frac: string)
    requires sign in {"", "+", "-"} && AllDigits(whole) && AllDigits(frac) && (!point ==> frac == "")
    ensures var s := Spelled(sign, whole, point, frac);
            Acceptable(s) <==> && (whole != "" || frac != "") && |whole| <= 18 && |frac| <= 8
                               && DigitsValue(whole) * 100_000_000 + DigitsValue(frac) * Pow10(8 - |frac|)
                                  <= 0x7FFF_FFFF_FFFF_FFFF
    ensures var s := Spelled(sign, whole, point, frac);
            Acceptable(s) ==>
              var m := DigitsValue(whole) * 100_000_000 + DigitsValue(frac) * Pow10(8 - |frac|);
              ScaledValue(s) == if sign == "-" then 0 - m else m
  {
    hide DigitsValue, Pow10, Unsigned, IntPart, FracPart, HasMinus, Spelled;
    SpelledParts(sign, whole, point, frac);
    NoPointAmong(frac);
    SomethingSpelled(whole, point, frac);
  }

  lemma NoPointAmong(s: string)
    requires AllDigits(s)
    ensures '.' !in s
  {
  }

  lemma SomethingSpelled(whole: string, point: bool, frac: string)
    ensures whole != "" || point ==> whole + (if point then "." + frac else "") != ""
  {
  }
}
