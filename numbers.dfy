/**
  The number conversions the record format relies on: Python's `int(text)`
  and `float(text)` for parsing, and `str(n)` / `str(x)` for rendering, on
  ASCII text. Rendering of floats is modelled for amounts that are a whole
  number of cents, which is every price the catalog holds.
 */
module Numbers {
  import opened Wrappers
  import opened Text

  function Pow10(n: nat): (p: nat)
    ensures p >= 1
  {
    if n == 0 then 1 else 10 * Pow10(n - 1)
  }

  predicate IsSign(c: char) {
    c == '-' || c == '+'
  }

  /** `int(s)`: an optional sign followed by at least one decimal digit; anything else fails. */
  function ParseInt(s: string): Option<int> {
    if |s| > 0 && IsSign(s[0]) then
      if IsDigits(s[1..]) then
        var n: int := DigitsValue(s[1..]);
        Some(if s[0] == '-' then -n else n)
      else None
    else if IsDigits(s) then Some(DigitsValue(s))
    else None
  }

  /** Text made only of digits, signs and decimal points. */
  predicate IsNumeral(s: string) {
    forall i :: 0 <= i < |s| ==> IsDigitChar(s[i]) || s[i] == '-' || s[i] == '.'
  }

  /** `str(i)` for an integer; `int` reads it back unchanged. */
  function IntText(i: int): (s: string)
    ensures ParseInt(s) == Some(i)
    ensures IsNumeral(s)
  {
    if i < 0 then
      var s := "-" + NatText(-i);
      assert s[1..] == NatText(-i);
      s
    else NatText(i)
  }

  /** Index of the first `c` in `s`, or `|s|` when there is none. */
  function IndexOf(s: string, c: char): (k: nat)
    ensures k <= |s|
    ensures k < |s| ==> s[k] == c
    ensures forall i :: 0 <= i < k ==> s[i] != c
  {
    if s == [] then 0 else if s[0] == c then 0 else 1 + IndexOf(s[1..], c)
  }

  /** The value of decimal text `whole.frac`. */
  function DecimalValue(whole: string, frac: string): real
    requires AllDigits(whole) && AllDigits(frac)
  {
    DigitsValue(whole) as real + DigitsValue(frac) as real / Pow10(|frac|) as real
  }

  /** `float(s)` without a sign: digits, optionally a point and more digits, at least one digit in all. */
  function ParseUnsignedFloat(s: string): Option<real> {
    var k := IndexOf(s, '.');
    var whole := s[..k];
    var frac := if k < |s| then s[k + 1..] else "";
    if AllDigits(whole) && AllDigits(frac) && |whole| + |frac| > 0 then Some(DecimalValue(whole, frac))
    else None
  }

  /** `float(s)`: an optional sign, then an unsigned decimal. */
  function ParseFloat(s: string): Option<real> {
    if |s| > 0 && IsSign(s[0]) then
      match ParseUnsignedFloat(s[1..])
      case Some(x) => Some(if s[0] == '-' then -x else x)
      case None => None
    else ParseUnsignedFloat(s)
  }

  /** Digits, a point and a non-empty digit string parse as the decimal they spell. */
  lemma ParseDecimalText(whole: string, frac: string)
    requires IsDigits(whole) && IsDigits(frac)
    ensures ParseFloat(whole + "." + frac) == Some(DecimalValue(whole, frac))
  {
    var s := whole + "." + frac;
    assert !IsSign(s[0]) by { assert s[0] == whole[0]; }
    assert IndexOf(s, '.') == |whole| by {
      assert forall i :: 0 <= i < |whole| ==> s[i] == whole[i] && s[i] != '.';
      assert s[|whole|] == '.';
    }
    assert s[..|whole|] == whole;
    assert s[|whole| + 1..] == frac;
  }

  /** An amount that is a whole number of cents. */
  predicate IsCents(x: real) {
    (x * 100.0).Floor as real == x * 100.0
  }

  /** The digits after the point that Python prints for `f` hundredths: at least one, no trailing zero after the first. */
  function FractionText(f: nat): (s: string)
    requires f < 100
    ensures IsDigits(s)
    ensures DigitsValue(s) as real / Pow10(|s|) as real == f as real / 100.0
  {
    if f == 0 then
      var s := [DigitChar(0)];
      assert DigitsValue(s) == DigitsValue(s[..0]) * 10 + 0;
      s
    else if f % 10 == 0 then
      var s := [DigitChar(f / 10)];
      assert DigitsValue(s) == DigitsValue(s[..0]) * 10 + f / 10;
      assert f == 10 * (f / 10);
      s
    else
      var s := TwoDigits(f);
      assert Pow10(|s|) == 100 by { assert Pow10(2) == 10 * Pow10(1) && Pow10(1) == 10 * Pow10(0); }
      s
  }

  /** Whole part and hundredths of `c` cents add up to `c / 100`. */
  lemma CentsSplit(c: nat)
    ensures (c / 100) as real + (c % 100) as real / 100.0 == c as real / 100.0
  {
    assert c == 100 * (c / 100) + c % 100;
    assert c as real == 100.0 * (c / 100) as real + (c % 100) as real;
  }

  /** Decimal text whose whole part spells `c / 100` and whose fraction is worth `c % 100` hundredths has the value `c / 100`. */
  lemma DecimalCents(whole: string, frac: string, c: nat)
    requires AllDigits(whole) && AllDigits(frac)
    requires DigitsValue(whole) == c / 100
    requires DigitsValue(frac) as real / Pow10(|frac|) as real == (c % 100) as real / 100.0
    ensures DecimalValue(whole, frac) == c as real / 100.0
  {
    CentsSplit(c);
  }

  /** `str(x)` for a non-negative whole number of cents `c`, e.g. "18.7", "43.0", "4.95". */
  function CentsText(c: nat): (s: string)
    ensures ParseFloat(s) == Some(c as real / 100.0)
    ensures IsDigitChar(s[0]) && IsNumeral(s)
  {
    var whole := NatText(c / 100);
    var frac := FractionText(c % 100);
    ParseDecimalText(whole, frac);
    DecimalCents(whole, frac, c);
    var s := whole + "." + frac;
    assert s[0] == whole[0];
    DecimalIsNumeral(whole, frac);
    s
  }

  /** `str(x)` for minus `n` hundredths: a minus sign before the text of `n` cents. */
  function NegativeCentsText(n: nat): (s: string)
    ensures ParseFloat(s) == Some(-(n as real / 100.0))
    ensures IsNumeral(s)
  {
    var t := CentsText(n);
    var s := "-" + t;
    assert s[1..] == t;
    assert !IsSign(t[0]);
    assert ParseUnsignedFloat(t) == Some(n as real / 100.0);
    s
  }

  /** An amount of whole cents is its number of cents over one hundred. */
  lemma CentsValue(x: real)
    requires IsCents(x)
    ensures x == (x * 100.0).Floor as real / 100.0
  {
  }

  /** `str(x)` for an amount of whole cents, read back unchanged by `float`. */
  function FloatText(x: real): (s: string)
    requires IsCents(x)
    ensures ParseFloat(s) == Some(x)
    ensures IsNumeral(s)
  {
    CentsValue(x);
    SignedCentsText((x * 100.0).Floor)
  }

  /** `str` of `c` hundredths for any whole number `c`, with a minus sign when negative. */
  function SignedCentsText(c: int): (s: string)
    ensures ParseFloat(s) == Some(c as real / 100.0)
    ensures IsNumeral(s)
  {
    if c < 0 then
      var n: nat := -c;
      assert -(n as real / 100.0) == c as real / 100.0;
      NegativeCentsText(n)
    else CentsText(c)
  }

  /** Two digits spelling a number below one hundred. */
  function TwoDigits(f: nat): (s: string)
    requires f < 100
    ensures IsDigits(s) && |s| == 2 && DigitsValue(s) == f
  {
    var s := [DigitChar(f / 10), DigitChar(f % 10)];
    assert s[..1] == [DigitChar(f / 10)];
    assert DigitsValue(s[..1]) == DigitsValue(s[..1][..0]) * 10 + f / 10;
    s
  }

  /** Digits, a point and digits make a numeral. */
  lemma DecimalIsNumeral(whole: string, frac: string)
    requires AllDigits(whole) && AllDigits(frac)
    ensures IsNumeral(whole + "." + frac)
  {
  }

  /** The two-decimal text the catalog writes a price of `c` cents in, e.g. "18.70". */
  function TwoDecimalText(c: nat): (s: string)
    ensures ParseFloat(s) == Some(c as real / 100.0)
    ensures IsNumeral(s)
  {
    var whole := NatText(c / 100);
    var frac := TwoDigits(c % 100);
    ParseDecimalText(whole, frac);
    DecimalIsNumeral(whole, frac);
    assert Pow10(|frac|) == 100 by { assert Pow10(2) == 10 * Pow10(1) && Pow10(1) == 10 * Pow10(0); }
    DecimalCents(whole, frac, c);
    whole + "." + frac
  }
}
