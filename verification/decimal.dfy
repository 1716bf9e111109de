/**
 * Decimal text to number, the part of `str::parse::<f64>` that a kline's
 * close price uses: an optional sign, decimal digits and at most one '.',
 * with at least one digit. The value is exact.
 */
module Decimal {
  import opened Wrappers

  predicate IsDigit(c: char) {
    '0' <= c <= '9'
  }

  predicate AllDigits(s: string) {
    forall i :: 0 <= i < |s| ==> IsDigit(s[i])
  }

  function DigitValue(c: char): nat
    requires IsDigit(c)
  {
    (c - '0') as nat
  }

  function DigitChar(d: nat): (c: char)
    requires d < 10
    ensures IsDigit(c) && DigitValue(c) == d
  {
    ('0' as int + d) as char
  }

  /** The number a digit string denotes, most significant digit first. */
  function DigitsValue(s: string): (v: nat)
    requires AllDigits(s)
  {
    if s == [] then 0 else 10 * DigitsValue(s[..|s| - 1]) + DigitValue(s[|s| - 1])
  }

  function Pow10(n: nat): (r: nat)
    ensures r >= 1
  {
    if n == 0 then 1 else 10 * Pow10(n - 1)
  }

  /** Index of the first '.', or |s| when there is none. */
  function DotIndex(s: string): (i: nat)
    ensures i <= |s|
    ensures i < |s| ==> s[i] == '.'
    ensures forall j :: 0 <= j < i ==> s[j] != '.'
  {
    if s == [] then 0 else if s[0] == '.' then 0 else 1 + DotIndex(s[1..])
  }

  /** The value of a whole part and a fraction part, when both are digit strings and not both empty. */
  function ParseParts(whole: string, frac: string): (r: Option<real>)
    ensures r.Some? ==> r.value >= 0.0
  {
    if AllDigits(whole) && AllDigits(frac) && |whole| + |frac| > 0 then
      Some(DigitsValue(whole) as real + DigitsValue(frac) as real / Pow10(|frac|) as real)
    else
      None
  }

  /** Unsigned part: `digits`, `digits.digits`, `digits.` or `.digits`. */
  function ParseUnsigned(s: string): (r: Option<real>)
    ensures r.Some? ==> r.value >= 0.0
  {
    var i := DotIndex(s);
    ParseParts(s[..i], if i < |s| then s[i + 1..] else [])
  }

  /** An optional '+' or '-' followed by an unsigned decimal. */
  function ParseDecimal(s: string): (r: Option<real>)
    ensures r.Some? ==> (r.value < 0.0 ==> |s| > 0 && s[0] == '-')
  {
    if |s| > 0 && s[0] == '-' then
      match ParseUnsigned(s[1..])
      case Some(v) => Some(-v)
      case None => None
    else if |s| > 0 && s[0] == '+' then
      ParseUnsigned(s[1..])
    else
      ParseUnsigned(s)
  }

  /** Decimal digits of `n`, no leading zeros (a single "0" for zero). */
  function NatToDigits(n: nat): (s: string)
    ensures AllDigits(s) && |s| > 0
    ensures forall j :: 0 <= j < |s| ==> s[j] != '.'
  {
    if n < 10 then [DigitChar(n)] else NatToDigits(n / 10) + [DigitChar(n % 10)]
  }

  lemma {:induction false} NatToDigitsValue(n: nat)
    ensures DigitsValue(NatToDigits(n)) == n
  {
    if n >= 10 {
      var s := NatToDigits(n);
      assert s[..|s| - 1] == NatToDigits(n / 10);
      NatToDigitsValue(n / 10);
    }
  }

  /** A price in cents written as decimal text with exactly two fraction digits ("67890.12"). */
  function CentsText(cents: nat): (s: string) {
    NatToDigits(cents / 100) + "." + [DigitChar(cents / 10 % 10), DigitChar(cents % 10)]
  }

  /** Two digits read as a number. */
  lemma TwoDigitsValue(hi: nat, lo: nat)
    requires hi < 10 && lo < 10
    ensures DigitsValue([DigitChar(hi), DigitChar(lo)]) == 10 * hi + lo
  {
    var f := [DigitChar(hi), DigitChar(lo)];
    assert f[..1] == [DigitChar(hi)];
    assert f[..1][..0] == [];
    assert DigitsValue(f[..1]) == hi;
    assert DigitsValue(f) == 10 * DigitsValue(f[..1]) + DigitValue(f[1]);
  }

  /** The first '.' after a non-empty digit string is the one right after it. */
  lemma DotAfterDigits(w: string, f: string)
    requires AllDigits(w)
    ensures DotIndex(w + "." + f) == |w|
  {
    var s := w + "." + f;
    assert s[|w|] == '.';
    assert forall j :: 0 <= j < |w| ==> s[j] == w[j] && IsDigit(w[j]);
  }

  lemma PointedSlices(w: string, f: string)
    ensures (w + "." + f)[..|w|] == w && (w + "." + f)[|w| + 1..] == f
  {
  }

  /** Text `w.f` with digits before the '.' splits into whole part `w` and fraction `f`. */
  lemma ParseAtPoint(w: string, f: string)
    requires AllDigits(w)
    ensures ParseUnsigned(w + "." + f) == ParseParts(w, f)
  {
    DotAfterDigits(w, f);
    PointedSlices(w, f);
  }

  /** Two fraction digits are hundredths. */
  lemma ParseHundredths(w: string, f: string)
    requires AllDigits(w) && AllDigits(f) && |w| > 0 && |f| == 2
    ensures ParseParts(w, f) == Some(DigitsValue(w) as real + DigitsValue(f) as real / 100.0)
  {
    assert Pow10(|f|) == 100;
  }

  lemma CentsArithmetic(cents: nat)
    ensures cents / 10 % 10 * 10 + cents % 10 == cents % 100
    ensures (cents / 100) as real + (cents % 100) as real / 100.0 == cents as real / 100.0
  {
    var k, a := cents / 100, cents % 100;
    assert cents == 100 * k + a;
    assert cents / 10 == 10 * k + a / 10;
    assert cents % 10 == a % 10;
  }

  /** Reading back a two-decimal price yields exactly the amount in currency units. */
  lemma CentsTextParses(cents: nat)
    ensures ParseDecimal(CentsText(cents)) == Some(cents as real / 100.0)
  {
    var w := NatToDigits(cents / 100);
    var f := [DigitChar(cents / 10 % 10), DigitChar(cents % 10)];
    ParseAtPoint(w, f);
    ParseHundredths(w, f);
    TwoDigitsValue(cents / 10 % 10, cents % 10);
    NatToDigitsValue(cents / 100);
    CentsArithmetic(cents);
    assert CentsText(cents)[0] == w[0];
  }
}
