/** Decimal texts and rounding, over exact reals instead of floats. */
module Numbers {
  import opened Text
  import opened Wrappers

  predicate IsDigit(c: char) {
    '0' <= c <= '9'
  }

  predicate AllDigits(s: string) {
    forall i :: 0 <= i < |s| ==> IsDigit(s[i])
  }

  function DigitValue(c: char): (d: nat)
    requires IsDigit(c)
    ensures d < 10
  {
    c as int - '0' as int
  }

  function DigitsValue(s: string): nat
    requires AllDigits(s)
  {
    if s == [] then 0 else DigitsValue(s[..|s| - 1]) * 10 + DigitValue(s[|s| - 1])
  }

  function Pow10(k: nat): (p: real)
    ensures p >= 1.0
  {
    if k == 0 then 1.0 else 10.0 * Pow10(k - 1)
  }

  function ParseParts(whole: string, part: string): Option<real> {
    if AllDigits(whole) && AllDigits(part) && |whole| + |part| > 0
    then Some((DigitsValue(whole) as real) + (DigitsValue(part) as real) / Pow10(|part|))
    else None
  }

  /** digits, optionally a point and more digits; at least one digit in all */
  function ParseUnsigned(s: string): Option<real> {
    var i := IndexOfChar(s, '.');
    if i < |s| then ParseParts(s[..i], s[i + 1..]) else ParseParts(s, "")
  }

  /** strconv.ParseFloat and Number(), without exponents, hexadecimals and names */
  function ParseDecimal(s: string): Option<real> {
    if s != [] && s[0] == '-' then
      match ParseUnsigned(s[1..])
      case None => None
      case Some(v) => Some(-v)
    else if s != [] && s[0] == '+' then ParseUnsigned(s[1..])
    else ParseUnsigned(s)
  }

  function Abs(x: real): real {
    if x < 0.0 then -x else x
  }

  /** math.Round: halves away from zero */
  function RoundHalfAway(x: real): int {
    if x >= 0.0 then (x + 0.5).Floor else -((-x + 0.5).Floor)
  }

  /** Math.round: halves up */
  function RoundHalfUp(x: real): int {
    (x + 0.5).Floor
  }

  lemma RoundedIsNear(x: real)
    ensures Abs(RoundHalfAway(x) as real - x) <= 0.5
    ensures Abs(RoundHalfUp(x) as real - x) <= 0.5
  {
  }

  /** Halves go away from zero. */
  lemma RoundHalfAwayIs(x: real, n: int)
    requires x >= 0.0 && n as real - 0.5 <= x < n as real + 0.5
    ensures RoundHalfAway(x) == n && RoundHalfAway(-x) == -n
  {
  }

  // --- numbers as text ------------------------------------------------------

  /** 10 to the k */
  function TenTo(k: nat): (p: nat)
    ensures p >= 1
  {
    if k == 0 then 1 else 10 * TenTo(k - 1)
  }

  lemma {:induction false} TenToIsPow10(k: nat)
    ensures Pow10(k) == TenTo(k) as real
  {
    if k > 0 { TenToIsPow10(k - 1); }
  }

  lemma {:induction false} DigitsBound(s: string)
    requires AllDigits(s)
    ensures DigitsValue(s) < TenTo(|s|)
  {
    if s != "" { DigitsBound(s[..|s| - 1]); }
  }

  /** The decimal digits of n, padded with zeros to the width. */
  function DigitsText(n: nat, width: nat): (s: string)
    ensures AllDigits(s)
  {
    if n == 0 && width == 0 then ""
    else DigitsText(n / 10, if width > 0 then width - 1 else 0) + [((n % 10) + '0' as int) as char]
  }

  lemma {:induction false} DigitsTextValue(n: nat, width: nat)
    ensures DigitsValue(DigitsText(n, width)) == n
    ensures |DigitsText(n, width)| >= width
    ensures n < TenTo(width) ==> |DigitsText(n, width)| == width
  {
    if n > 0 || width > 0 {
      DigitsTextValue(n / 10, if width > 0 then width - 1 else 0);
    }
  }

  /** A finite decimal: mantissa over ten to the scale, with no trailing zero after the point. */
  datatype Decimal = Decimal(mantissa: int, scale: nat) {
    predicate Canonical() {
      scale == 0 || mantissa % 10 != 0
    }

    function Digits(): string {
      DigitsText(if mantissa < 0 then -mantissa else mantissa, scale + 1)
    }

    function Value(): real {
      mantissa as real / Pow10(scale)
    }
  }

  /** The digits with the point before the last scale ones. */
  function Pointed(digits: string, scale: nat): string
    requires scale < |digits|
  {
    if scale == 0 then digits else digits[..|digits| - scale] + "." + digits[|digits| - scale..]
  }

  /** String(number), without exponents */
  function NumberText(d: Decimal): string {
    DigitsTextValue(if d.mantissa < 0 then -d.mantissa else d.mantissa, d.scale + 1);
    (if d.mantissa < 0 then "-" else "") + Pointed(d.Digits(), d.scale)
  }

  /** x with k zeros appended */
  function Shifted(x: nat, k: nat): nat {
    if k == 0 then x else 10 * Shifted(x, k - 1)
  }

  lemma {:induction false} ShiftedBack(x: nat, k: nat)
    ensures Shifted(x, k) as real / Pow10(k) == x as real
  {
    if k > 0 {
      ShiftedBack(x, k - 1);
      CancelTen(Shifted(x, k - 1) as real, Pow10(k - 1));
    }
  }

  lemma CancelTen(x: real, p: real)
    requires p > 0.0
    ensures (10.0 * x) / (10.0 * p) == x / p
  {
  }

  lemma {:induction false} DigitsSplit(a: string, b: string)
    requires AllDigits(a) && AllDigits(b)
    ensures AllDigits(a + b)
    ensures DigitsValue(a + b) == Shifted(DigitsValue(a), |b|) + DigitsValue(b)
  {
    hide DigitValue;
    if b == "" {
      assert a + b == a;
    } else {
      var c := b[..|b| - 1];
      DigitsSplit(a, c);
      assert (a + b)[..|a + b| - 1] == a + c;
    }
  }

  lemma DivideSum(x: real, y: real, p: real)
    requires p > 0.0
    ensures x / p + y / p == (x + y) / p
  {
  }

  lemma DivideNegated(x: real, p: real)
    requires p > 0.0
    ensures -(x / p) == (-x) / p
  {
  }

  lemma ParsePointed(a: string, b: string)
    requires AllDigits(a)
    ensures ParseUnsigned(a + "." + b) == ParseParts(a, b)
  {
    hide ParseParts;
    var text := a + "." + b;
    IndexOfCharFirst(a, '.', b);
    assert text[..|a|] == a && text[|a| + 1..] == b;
  }

  lemma ParseWhole(a: string)
    requires AllDigits(a)
    ensures ParseUnsigned(a) == ParseParts(a, "")
  {
  }

  lemma WholeValue(a: string)
    requires AllDigits(a) && a != ""
    ensures ParseParts(a, "") == Some(DigitsValue(a) as real / Pow10(0))
  {
  }

  lemma PartsValue(a: string, b: string)
    requires AllDigits(a) && AllDigits(b) && a + b != ""
    ensures ParseParts(a, b) == Some(DigitsValue(a + b) as real / Pow10(|b|))
  {
    hide DigitsValue;
    hide Pow10;
    DigitsSplit(a, b);
    ShiftedBack(DigitsValue(a), |b|);
    DivideSum(Shifted(DigitsValue(a), |b|) as real, DigitsValue(b) as real, Pow10(|b|));
  }

  lemma PointedValue(digits: string, scale: nat)
    requires AllDigits(digits) && scale < |digits|
    ensures ParseUnsigned(Pointed(digits, scale)) == Some(DigitsValue(digits) as real / Pow10(scale))
  {
    hide ParseUnsigned;
    hide ParseParts;
    hide DigitsValue;
    hide Pow10;
    if scale == 0 {
      ParseWhole(digits);
      WholeValue(digits);
    } else {
      var a, b := digits[..|digits| - scale], digits[|digits| - scale..];
      assert a + b == digits;
      ParsePointed(a, b);
      PartsValue(a, b);
    }
  }

  /** A number survives being written and read. */
  lemma NumberTextRoundTrip(d: Decimal)
    ensures ParseDecimal(NumberText(d)) == Some(d.Value())
  {
    hide ParseUnsigned;
    hide DigitsValue;
    hide DigitsText;
    hide Pow10;
    var m := if d.mantissa < 0 then -d.mantissa else d.mantissa;
    DigitsTextValue(m, d.scale + 1);
    var text := Pointed(d.Digits(), d.scale);
    PointedValue(d.Digits(), d.scale);
    assert text[0] == d.Digits()[0];
    if d.mantissa < 0 {
      assert NumberText(d)[1..] == text;
      DivideNegated(m as real, Pow10(d.scale));
    } else {
      assert NumberText(d) == text;
    }
  }
}
