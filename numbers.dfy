/** The weights of the record files: Python's `float(text)` on the plain decimal forms,
    and the text `f"{w}"` writes for a float read back from a file (its repr). */
module Numbers {
  import opened Wrappers
  import opened Text

  /** The exact number mantissa / 10^scale, as a decimal text denotes it. */
  datatype Decimal = Decimal(mantissa: int, scale: nat)

  function Pow10(n: nat): (r: nat)
    ensures r >= 1
  {
    if n == 0 then 1 else 10 * Pow10(n - 1)
  }

  /** The real number a decimal stands for; weights are summed and divided as reals. */
  function Value(d: Decimal): real {
    d.mantissa as real / Pow10(d.scale) as real
  }

  predicate IsDigit(c: char) {
    '0' <= c <= '9'
  }

  predicate AllDigits(s: string) {
    forall i :: 0 <= i < |s| ==> IsDigit(s[i])
  }

  function DigitChar(n: nat): (c: char)
    requires n < 10
    ensures IsDigit(c)
  {
    ('0' as int + n) as char
  }

  /** The number a string of decimal digits denotes (0 for no digits). */
  function DigitsValue(s: string): nat
    requires AllDigits(s)
  {
    if |s| == 0 then 0
    else DigitsValue(s[..|s| - 1]) * 10 + (s[|s| - 1] as int - '0' as int)
  }

  /** An unsigned decimal: digits, or digits with a point and more digits,
      with at least one digit on one side of the point ("12", "12.5", "12.", ".5"). */
  function ParseUnsigned(t: string): (r: Option<Decimal>)
    ensures r.Some? ==> r.value.mantissa >= 0
  {
    var parts := Split(t, '.');
    if |parts| == 1 then
      if |t| > 0 && AllDigits(t) then Some(Decimal(DigitsValue(t), 0)) else None
    else if |parts| == 2 then
      var whole, fraction := parts[0], parts[1];
      if |whole| + |fraction| > 0 && AllDigits(whole) && AllDigits(fraction) then
        Some(Decimal(DigitsValue(whole) * Pow10(|fraction|) + DigitsValue(fraction), |fraction|))
      else None
    else None
  }

  /** `float(s)` on the decimal forms: surrounding white space, an optional sign and an
      unsigned decimal; anything else is a failure (Python's ValueError). */
  function ParseNumber(s: string): Option<Decimal> {
    var t := Strip(s);
    if |t| > 0 && (t[0] == '+' || t[0] == '-') then
      match ParseUnsigned(t[1..])
      case None => None
      case Some(d) => Some(if t[0] == '-' then Decimal(-d.mantissa, d.scale) else d)
    else ParseUnsigned(t)
  }

  /** The shortest decimal digits of `n`. */
  function NatText(n: nat): (s: string)
    ensures |s| > 0 && AllDigits(s)
    ensures DigitsValue(s) == n
  {
    if n < 10 then [DigitChar(n)]
    else
      var s := NatText(n / 10) + [DigitChar(n % 10)];
      assert s[..|s| - 1] == NatText(n / 10);
      s
  }

  function Zeros(n: nat): (s: string)
    ensures |s| == n && AllDigits(s) && DigitsValue(s) == 0
  {
    if n == 0 then ""
    else
      var s := Zeros(n - 1) + "0";
      assert s[..|s| - 1] == Zeros(n - 1);
      s
  }

  /** `digits` with leading zeros up to `width` characters. */
  function PadDigits(digits: string, width: nat): (s: string)
    requires AllDigits(digits)
    ensures |s| >= width && |s| >= |digits| && AllDigits(s)
    ensures DigitsValue(s) == DigitsValue(digits)
  {
    if |digits| >= width then digits
    else
      var s := Zeros(width - |digits|) + digits;
      DigitsValueConcat(Zeros(width - |digits|), digits);
      s
  }

  function Abs(n: int): nat {
    if n < 0 then -n else n
  }

  /** The digits of `m / 10^scale`: at least one before the point and exactly `scale`
      after it (no point when the scale is 0). */
  function MagnitudeText(m: nat, scale: nat): (s: string)
    ensures forall i :: 0 <= i < |s| ==> IsDigit(s[i]) || s[i] == '.'
  {
    var digits := PadDigits(NatText(m), scale + 1);
    var k := |digits| - scale;
    digits[..k] + (if scale == 0 then "" else "." + digits[k..])
  }

  /** The decimal text of `d`, with a leading minus sign when it is negative;
      it holds nothing but digits, a point and a sign. */
  function DecimalText(d: Decimal): (s: string)
    ensures forall i :: 0 <= i < |s| ==> IsDigit(s[i]) || s[i] == '.' || s[i] == '-'
  {
    (if d.mantissa < 0 then "-" else "") + MagnitudeText(Abs(d.mantissa), d.scale)
  }

  lemma {:induction false} DigitsValueConcat(a: string, b: string)
    requires AllDigits(a) && AllDigits(b)
    ensures AllDigits(a + b)
    ensures DigitsValue(a + b) == DigitsValue(a) * Pow10(|b|) + DigitsValue(b)
  {
    if |b| == 0 {
      assert a + b == a;
    } else {
      var b' := b[..|b| - 1];
      DigitsValueConcat(a, b');
      assert (a + b)[..|a + b| - 1] == a + b';
      var c := b[|b| - 1] as int - '0' as int;
      assert DigitsValue(a + b) == DigitsValue(a + b') * 10 + c;
      assert DigitsValue(b) == DigitsValue(b') * 10 + c;
      assert Pow10(|b|) == Pow10(|b'|) * 10;
      Distribute(DigitsValue(a), Pow10(|b'|), DigitsValue(b'), c);
    }
  }

  lemma Distribute(x: int, p: int, y: int, c: int)
    ensures (x * p + y) * 10 + c == x * (p * 10) + (y * 10 + c)
  {
  }

  /** The form in which Python's repr writes a float: no trailing zeros in the fraction,
      but at least one fractional digit ("250.0", "12.5"). */
  predicate IsCanonical(c: Decimal) {
    c.scale >= 1 && (c.scale == 1 || c.mantissa % 10 != 0)
  }

  /** The float a decimal text stands for, as the canonical decimal of the same value
      ("250" and "250.00" both become 250.0). */
  function Canonical(d: Decimal): (c: Decimal)
    ensures IsCanonical(c)
    ensures Value(c) == Value(d)
    decreases d.scale
  {
    if d.scale == 0 then
      var c := Decimal(d.mantissa * 10, 1);
      assert Value(c) == (d.mantissa * 10) as real / 10.0;
      c
    else if d.scale > 1 && d.mantissa % 10 == 0 then
      var e := Decimal(d.mantissa / 10, d.scale - 1);
      ScaleDown(d.mantissa / 10, d.scale - 1);
      assert d.mantissa == d.mantissa / 10 * 10;
      Canonical(e)
    else d
  }

  lemma ScaleDown(m: int, s: nat)
    ensures Value(Decimal(m * 10, s + 1)) == Value(Decimal(m, s))
  {
    var p := Pow10(s) as real;
    assert Pow10(s + 1) as real == 10.0 * p;
    assert (m * 10) as real / (10.0 * p) == m as real / p;
  }

  /** A canonical decimal is its own canonical form. */
  lemma CanonicalOfCanonical(c: Decimal)
    requires IsCanonical(c)
    ensures Canonical(c) == c
  {
  }

  /** `float(s)`: the weight a text denotes, or `None` where Python raises ValueError. */
  function ParseFloat(s: string): (r: Option<Decimal>)
    ensures r.Some? <==> ParseNumber(s).Some?
    ensures r.Some? ==> IsCanonical(r.value) && Value(r.value) == Value(ParseNumber(s).value)
  {
    match ParseNumber(s)
    case None => None
    case Some(d) => Some(Canonical(d))
  }

  /** The text `f"{w}"` gives for a float weight `w`. */
  function FloatText(d: Decimal): string {
    DecimalText(Canonical(d))
  }

  lemma DigitsNotSeparators(s: string)
    requires AllDigits(s)
    ensures '.' !in s
    ensures |s| > 0 ==> !IsSpace(s[0]) && !IsSpace(s[|s| - 1]) && s[0] != '-' && s[0] != '+'
  {
    assert forall i :: 0 <= i < |s| ==> IsDigit(s[i]);
  }

  /** Digits, a point and `scale` more digits (no point when the scale is 0) are read as
      the number those digits denote scaled down by 10^scale. */
  lemma ParseDigitsWithPoint(whole: string, fraction: string)
    requires |whole| > 0 && AllDigits(whole) && AllDigits(fraction)
    ensures var body := whole + (if |fraction| == 0 then "" else "." + fraction);
            && ParseUnsigned(body) == Some(Decimal(DigitsValue(whole + fraction), |fraction|))
            && |body| > 0 && Trimmed(body) && body[0] != '-' && body[0] != '+'
  {
    DigitsValueConcat(whole, fraction);
    if |fraction| == 0 {
      ParseWhole(whole);
      assert whole + fraction == whole + "" == whole;
    } else {
      ParsePointed(whole, fraction);
    }
  }

  lemma ParseWhole(whole: string)
    requires |whole| > 0 && AllDigits(whole)
    ensures ParseUnsigned(whole) == Some(Decimal(DigitsValue(whole), 0))
    ensures Trimmed(whole) && whole[0] != '-' && whole[0] != '+'
  {
    DigitsNotSeparators(whole);
    SplitNoSep(whole, '.');
  }

  lemma ParsePointed(whole: string, fraction: string)
    requires |whole| > 0 && |fraction| > 0 && AllDigits(whole) && AllDigits(fraction)
    ensures var body := whole + ("." + fraction);
            && ParseUnsigned(body)
               == Some(Decimal(DigitsValue(whole) * Pow10(|fraction|) + DigitsValue(fraction), |fraction|))
            && Trimmed(body) && body[0] != '-' && body[0] != '+'
  {
    DigitsNotSeparators(whole);
    DigitsNotSeparators(fraction);
    var body := whole + ("." + fraction);
    assert body == whole + ['.'] + fraction;
    PointSplit(whole, fraction);
    ParseTwoParts(body, whole, fraction);
    assert body[0] == whole[0] && body[|body| - 1] == fraction[|fraction| - 1];
  }

  lemma ParseTwoParts(t: string, whole: string, fraction: string)
    requires Split(t, '.') == [whole, fraction]
    requires |whole| + |fraction| > 0 && AllDigits(whole) && AllDigits(fraction)
    ensures ParseUnsigned(t)
            == Some(Decimal(DigitsValue(whole) * Pow10(|fraction|) + DigitsValue(fraction), |fraction|))
  {
    ParseTwoPartsFields(t, whole, fraction);
  }

  lemma ParseTwoPartsFields(t: string, whole: string, fraction: string)
    requires Split(t, '.') == [whole, fraction]
    requires |whole| + |fraction| > 0 && AllDigits(whole) && AllDigits(fraction)
    ensures var r := ParseUnsigned(t);
            && r.Some? && r.value.scale == |fraction|
            && r.value.mantissa == DigitsValue(whole) * Pow10(|fraction|) + DigitsValue(fraction)
  {
  }

  lemma PointSplit(whole: string, fraction: string)
    requires '.' !in whole && '.' !in fraction
    ensures Split(whole + ['.'] + fraction, '.') == [whole, fraction]
  {
    SplitAround(whole, '.', fraction);
    SplitNoSep(whole, '.');
    SplitNoSep(fraction, '.');
  }

  /** An unsigned decimal text with nothing to strip is read as itself, and with a
      minus sign in front as its negation. */
  lemma ParseSigned(body: string, e: Decimal, negative: bool)
    requires |body| > 0 && Trimmed(body) && body[0] != '-' && body[0] != '+'
    requires ParseUnsigned(body) == Some(e)
    ensures ParseNumber((if negative then "-" else "") + body)
            == Some(Decimal(if negative then -e.mantissa else e.mantissa, e.scale))
  {
    if negative {
      ParseNegated(body, e);
    } else {
      assert "" + body == body;
    }
  }

  lemma ParseNegated(body: string, e: Decimal)
    requires |body| > 0 && Trimmed(body)
    requires ParseUnsigned(body) == Some(e)
    ensures ParseNumber("-" + body) == Some(Decimal(-e.mantissa, e.scale))
  {
    var t := "-" + body;
    assert t[0] == '-' && t[|t| - 1] == body[|body| - 1];
    assert Strip(t) == t;
    assert t[1..] == body;
  }

  /** The text of a magnitude is an unsigned decimal that reads back as that magnitude. */
  lemma ParseMagnitudeText(m: nat, scale: nat)
    ensures var body := MagnitudeText(m, scale);
            && |body| > 0 && Trimmed(body) && body[0] != '-' && body[0] != '+'
            && ParseUnsigned(body) == Some(Decimal(m, scale))
  {
    var whole, fraction := MagnitudeParts(m, scale);
    ParseDigitsWithPoint(whole, fraction);
  }

  /** The digits before and after the point of a magnitude's text. */
  lemma MagnitudeParts(m: nat, scale: nat) returns (whole: string, fraction: string)
    ensures |whole| > 0 && AllDigits(whole) && AllDigits(fraction)
    ensures DigitsValue(whole + fraction) == m && |fraction| == scale
    ensures MagnitudeText(m, scale) == whole + (if |fraction| == 0 then "" else "." + fraction)
  {
    var digits := PadDigits(NatText(m), scale + 1);
    var k := |digits| - scale;
    whole, fraction := digits[..k], digits[k..];
    DigitsSplit(digits, k);
    MagnitudeTextSplit(m, scale);
  }

  lemma MagnitudeTextSplit(m: nat, scale: nat)
    ensures var digits := PadDigits(NatText(m), scale + 1);
            var k := |digits| - scale;
            MagnitudeText(m, scale) == digits[..k] + (if scale == 0 then "" else "." + digits[k..])
  {
  }

  lemma DigitsSplit(s: string, k: nat)
    requires k <= |s| && AllDigits(s)
    ensures AllDigits(s[..k]) && AllDigits(s[k..]) && s[..k] + s[k..] == s
  {
    assert forall i :: 0 <= i < k ==> s[..k][i] == s[i];
    assert forall i :: 0 <= i < |s| - k ==> s[k..][i] == s[k + i];
  }

  /** Reading a written decimal gives the same decimal back. */
  lemma ParseDecimalText(d: Decimal)
    ensures ParseNumber(DecimalText(d)) == Some(d)
  {
    ParseMagnitudeText(Abs(d.mantissa), d.scale);
    ParseSigned(MagnitudeText(Abs(d.mantissa), d.scale), Decimal(Abs(d.mantissa), d.scale), d.mantissa < 0);
  }

  /** Writing a float weight and reading the text back gives the same float. */
  lemma ParseFloatText(w: Decimal)
    requires IsCanonical(w)
    ensures ParseFloat(FloatText(w)) == Some(w)
  {
    CanonicalOfCanonical(w);
    ParseDecimalText(w);
  }
}
