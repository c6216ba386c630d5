/** The text form of an exact decimal, as Python's `str(Decimal)` writes it and
    `Decimal(text)` reads it back.

    A stored amount is a decimal with a signed integer coefficient and `scale`
    fractional digits (its exponent is `-scale`). Its text is plain positional
    notation unless the adjusted exponent (number of digits - 1 - scale) falls
    below -6, in which case it is scientific: "1E-8", "1.2E-7", "0E-8".
 */
module DecimalText {
  import opened Outcomes
  import opened Decimals

  /** A decimal with a non-positive exponent: value = coef / 10^scale. */
  datatype Dec = Dec(coef: int, scale: nat) {
    function Value(): real {
      coef as real / Scale(scale)
    }
  }

  // ---------------------------------------------------------------------------
  // Digits
  // ---------------------------------------------------------------------------

  predicate IsDigit(c: char) {
    '0' <= c <= '9'
  }

  predicate AllDigits(s: string) {
    forall i :: 0 <= i < |s| ==> IsDigit(s[i])
  }

  function DigitValue(c: char): (d: nat)
    requires IsDigit(c)
    ensures d < 10
  {
    c as int - '0' as int
  }

  function DigitChar(d: nat): (c: char)
    requires d < 10
    ensures IsDigit(c) && DigitValue(c) == d
  {
    ('0' as int + d) as char
  }

  /** The decimal digits of n, most significant first, without leading zeros. */
  function NatToDigits(n: nat): (s: string)
    ensures |s| >= 1 && AllDigits(s)
    ensures s[0] == '0' <==> n == 0
    ensures n == 0 ==> s == "0"
    decreases n
  {
    if n < 10 then [DigitChar(n)] else NatToDigits(n / 10) + [DigitChar(n % 10)]
  }

  /** The number a string of digits denotes. */
  function DigitsToNat(s: string): nat
    requires AllDigits(s)
  {
    if s == [] then 0 else DigitsToNat(s[..|s| - 1]) * 10 + DigitValue(s[|s| - 1])
  }

  /** Reading back the digits of n gives n. */
  lemma {:induction false} DigitsRoundTrip(n: nat)
    ensures DigitsToNat(NatToDigits(n)) == n
    decreases n
  {
    if n >= 10 {
      var s := NatToDigits(n);
      assert s[..|s| - 1] == NatToDigits(n / 10);
      DigitsRoundTrip(n / 10);
    }
  }

  /** Digits written after a prefix shift the prefix by 10^(their count). */
  lemma {:induction false} DigitsConcat(a: string, b: string)
    requires AllDigits(a) && AllDigits(b)
    ensures AllDigits(a + b)
    ensures DigitsToNat(a + b) == DigitsToNat(a) * Pow10(|b|) + DigitsToNat(b)
    decreases |b|
  {
    if b == [] {
      assert a + b == a;
    } else {
      var b' := b[..|b| - 1];
      assert (a + b)[..|a + b| - 1] == a + b';
      assert (a + b)[|a + b| - 1] == b[|b| - 1];
      DigitsConcat(a, b');
      assert Pow10(|b|) == 10 * Pow10(|b'|);
      ShiftStep(DigitsToNat(a), Pow10(|b'|), DigitsToNat(b'), DigitValue(b[|b| - 1]));
    }
  }

  lemma ShiftStep(x: nat, p: nat, y: nat, d: nat)
    ensures (x * p + y) * 10 + d == x * (10 * p) + (y * 10 + d)
  {
  }

  /** n zeros. */
  function Zeros(k: nat): (s: string)
    ensures |s| == k && AllDigits(s)
  {
    if k == 0 then [] else "0" + Zeros(k - 1)
  }

  // ---------------------------------------------------------------------------
  // Writing
  // ---------------------------------------------------------------------------

  function AbsInt(k: int): (r: nat)
    ensures r == k || r == -k
  {
    if k < 0 then -k else k
  }

  /** The adjusted exponent: the power of ten of the leading digit. */
  function Adjusted(d: Dec): int {
    |NatToDigits(AbsInt(d.coef))| - 1 - d.scale
  }

  /** Positional notation of a digit string with `scale` fractional digits. */
  function PlainText(digits: string, scale: nat): string
  {
    if scale == 0 then digits
    else if |digits| > scale then digits[..|digits| - scale] + "." + digits[|digits| - scale..]
    else "0." + Zeros(scale - |digits|) + digits
  }

  /** Scientific notation with a negative exponent: one digit before the point. */
  function SciText(digits: string, exponent: int): string
    requires |digits| >= 1 && exponent < 0
  {
    Mantissa(digits) + "E-" + NatToDigits(-exponent)
  }

  /** The leading digit, then the point and the other digits if there are any. */
  function Mantissa(digits: string): string
    requires |digits| >= 1
  {
    if |digits| > 1 then [digits[0]] + "." + digits[1..] else digits
  }

  /** The text of a non-negative coefficient with `scale` fractional digits. */
  function UnsignedText(n: nat, scale: nat): string
  {
    var digits := NatToDigits(n);
    var adjusted := |digits| - 1 - scale;
    if adjusted >= -6 then PlainText(digits, scale) else SciText(digits, adjusted)
  }

  /** `str(d)`: a minus sign for a negative coefficient, then the unsigned text. */
  function Format(d: Dec): (s: string)
    ensures |s| >= 1
    ensures s[0] == '-' <==> d.coef < 0
  {
    var body := UnsignedText(AbsInt(d.coef), d.scale);
    UnsignedTextStartsWithDigit(AbsInt(d.coef), d.scale);
    if d.coef < 0 then "-" + body else body
  }

  lemma UnsignedTextStartsWithDigit(n: nat, scale: nat)
    ensures |UnsignedText(n, scale)| >= 1 && IsDigit(UnsignedText(n, scale)[0])
  {
  }

  // ---------------------------------------------------------------------------
  // Reading
  // ---------------------------------------------------------------------------

  /** Position of the first c in s, or |s| when there is none. */
  function Find(s: string, c: char): (i: nat)
    ensures i <= |s|
    ensures i < |s| ==> s[i] == c
    ensures forall j :: 0 <= j < i ==> s[j] != c
  {
    if s == [] then 0 else if s[0] == c then 0 else 1 + Find(s[1..], c)
  }

  /** Digits with at most one point: "12", "1.5", "0.0001", ".5", "3.". */
  function ParsePlain(s: string): (r: Option<Dec>)
    ensures r.Some? && Find(s, '.') == |s| ==> r.value.scale == 0
    ensures r.Some? && Find(s, '.') < |s| ==> r.value.scale == |s| - Find(s, '.') - 1
    ensures r.Some? ==> r.value.coef >= 0
  {
    var i := Find(s, '.');
    if i == |s| then
      if s != [] && AllDigits(s) then Some(Dec(DigitsToNat(s), 0)) else None
    else
      var whole := s[..i];
      var frac := s[i + 1..];
      if whole + frac != [] && AllDigits(whole) && AllDigits(frac) then
        DigitsConcat(whole, frac);
        Some(Dec(DigitsToNat(whole + frac), |frac|))
      else None
  }

  /** An exponent: optional sign, then digits. */
  function ParseExponent(s: string): Option<int>
  {
    if s != [] && (s[0] == '-' || s[0] == '+') then
      var rest := s[1..];
      if rest != [] && AllDigits(rest) then
        Some(if s[0] == '-' then -(DigitsToNat(rest) as int) else DigitsToNat(rest) as int)
      else None
    else if s != [] && AllDigits(s) then Some(DigitsToNat(s) as int)
    else None
  }

  /** m * 10^e, kept with a non-positive exponent. */
  function ShiftExponent(m: Dec, e: int): Dec
  {
    if e <= m.scale then Dec(m.coef, m.scale - e) else Dec(m.coef * Pow10(e - m.scale), 0)
  }

  function ParseUnsigned(s: string): Option<Dec>
  {
    var k := Find(s, 'E');
    if k == |s| then ParsePlain(s)
    else
      match (ParsePlain(s[..k]), ParseExponent(s[k + 1..]))
      case (Some(m), Some(e)) => Some(ShiftExponent(m, e))
      case _ => None
  }

  /** `Decimal(s)` for the forms `str` writes (plus a leading '+'); None for anything else. */
  function Parse(s: string): Option<Dec>
  {
    if s != [] && s[0] == '-' then
      match ParseUnsigned(s[1..])
      case Some(d) => Some(Dec(-d.coef, d.scale))
      case None => None
    else if s != [] && s[0] == '+' then ParseUnsigned(s[1..])
    else ParseUnsigned(s)
  }

  // ---------------------------------------------------------------------------
  // Round trip
  // ---------------------------------------------------------------------------

  lemma FindAt(s: string, c: char, i: nat)
    requires i <= |s|
    requires i < |s| ==> s[i] == c
    requires forall j :: 0 <= j < i ==> s[j] != c
    ensures Find(s, c) == i
  {
  }

  /** Digits without a point read as an integer. */
  lemma ReadInteger(s: string)
    requires s != [] && AllDigits(s)
    ensures ParsePlain(s) == Some(Dec(DigitsToNat(s), 0))
  {
    FindAt(s, '.', |s|);
  }

  /** Digits, a point, digits: the digits after the point set the scale. */
  lemma ReadPointed(a: string, b: string)
    requires AllDigits(a) && AllDigits(b) && a + b != []
    ensures AllDigits(a + b)
    ensures ParsePlain(a + "." + b) == Some(Dec(DigitsToNat(a + b), |b|))
  {
    var s := a + "." + b;
    FindAt(s, '.', |a|);
    assert s[..|a|] == a;
    assert s[|a| + 1..] == b;
    DigitsConcat(a, b);
  }

  lemma ReadWithoutExponent(s: string)
    requires forall j :: 0 <= j < |s| ==> s[j] != 'E'
    ensures ParseUnsigned(s) == ParsePlain(s)
  {
    FindAt(s, 'E', |s|);
  }

  lemma ReadWithExponent(m: string, e: string, md: Dec, x: int)
    requires Find(m, 'E') == |m|
    requires ParsePlain(m) == Some(md) && ParseExponent(e) == Some(x)
    ensures ParseUnsigned(m + "E" + e) == Some(ShiftExponent(md, x))
  {
    var s := m + "E" + e;
    FindAt(s, 'E', |m|);
    assert s[..|m|] == m;
    assert s[|m| + 1..] == e;
  }

  lemma LeadingZero(x: string)
    requires AllDigits(x)
    ensures AllDigits("0" + x) && DigitsToNat("0" + x) == DigitsToNat(x)
  {
    DigitsConcat("0", x);
    assert DigitsToNat("0") == 0;
  }

  /** Leading zeros do not change the number. */
  lemma {:induction false} LeadingZeros(k: nat, x: string)
    requires AllDigits(x)
    ensures AllDigits(Zeros(k) + x) && DigitsToNat(Zeros(k) + x) == DigitsToNat(x)
  {
    if k == 0 {
      assert Zeros(k) + x == x;
    } else {
      LeadingZeros(k - 1, x);
      assert Zeros(k) + x == "0" + (Zeros(k - 1) + x);
      LeadingZero(Zeros(k - 1) + x);
    }
  }

  lemma PlainHasNoExponent(digits: string, scale: nat)
    requires AllDigits(digits)
    ensures forall j :: 0 <= j < |PlainText(digits, scale)| ==> PlainText(digits, scale)[j] != 'E'
  {
  }

  lemma PlainRoundTrip(digits: string, scale: nat)
    requires |digits| >= 1 && AllDigits(digits)
    ensures ParseUnsigned(PlainText(digits, scale)) == Some(Dec(DigitsToNat(digits), scale))
  {
    PlainHasNoExponent(digits, scale);
    ReadWithoutExponent(PlainText(digits, scale));
    PlainReads(digits, scale);
  }

  lemma PlainReads(digits: string, scale: nat)
    requires |digits| >= 1 && AllDigits(digits)
    ensures ParsePlain(PlainText(digits, scale)) == Some(Dec(DigitsToNat(digits), scale))
  {
    if scale == 0 {
      ReadInteger(digits);
    } else if |digits| > scale {
      SplitReads(digits, scale);
    } else {
      PaddedReads(digits, scale);
    }
  }

  lemma SplitReads(digits: string, scale: nat)
    requires |digits| > scale > 0 && AllDigits(digits)
    ensures ParsePlain(digits[..|digits| - scale] + "." + digits[|digits| - scale..]) == Some(Dec(DigitsToNat(digits), scale))
  {
    var a := digits[..|digits| - scale];
    var b := digits[|digits| - scale..];
    TakeDrop(digits, |digits| - scale);
    ReadPointed(a, b);
  }

  lemma TakeDrop(s: string, k: nat)
    requires k <= |s|
    ensures s[..k] + s[k..] == s
  {
  }

  lemma PaddedReads(digits: string, scale: nat)
    requires 1 <= |digits| <= scale && AllDigits(digits)
    ensures ParsePlain("0." + Zeros(scale - |digits|) + digits) == Some(Dec(DigitsToNat(digits), scale))
  {
    var b := Zeros(scale - |digits|) + digits;
    LeadingZeros(scale - |digits|, digits);
    ReadPointed("0", b);
    LeadingZero(b);
    PointPrefix(Zeros(scale - |digits|), digits);
  }

  lemma PointPrefix(z: string, d: string)
    ensures "0." + z + d == "0" + "." + (z + d)
  {
    assert "0." == "0" + ".";
  }

  lemma MantissaRoundTrip(digits: string)
    requires |digits| >= 1 && AllDigits(digits)
    ensures ParsePlain(Mantissa(digits)) == Some(Dec(DigitsToNat(digits), |digits| - 1))
  {
    if |digits| == 1 {
      ReadInteger(digits);
    } else {
      PointedMantissa(digits);
    }
  }

  lemma PointedMantissa(digits: string)
    requires |digits| > 1 && AllDigits(digits)
    ensures ParsePlain([digits[0]] + "." + digits[1..]) == Some(Dec(DigitsToNat(digits), |digits| - 1))
  {
    ReadPointed([digits[0]], digits[1..]);
    assert [digits[0]] + digits[1..] == digits;
  }

  lemma MantissaHasNoExponent(digits: string)
    requires |digits| >= 1 && AllDigits(digits)
    ensures Find(Mantissa(digits), 'E') == |Mantissa(digits)|
  {
    var m := Mantissa(digits);
    assert forall j :: 0 <= j < |m| ==> m[j] != 'E';
    FindAt(m, 'E', |m|);
  }

  lemma SciRoundTrip(digits: string, scale: nat)
    requires |digits| >= 1 && AllDigits(digits)
    requires |digits| - 1 - scale < -6
    ensures ParseUnsigned(SciText(digits, |digits| - 1 - scale)) == Some(Dec(DigitsToNat(digits), scale))
  {
    var k: nat := scale + 1 - |digits|;
    SciShape(digits, scale);
    ExponentFormReads(digits, k);
    assert ShiftExponent(Dec(DigitsToNat(digits), |digits| - 1), -(k as int)) == Dec(DigitsToNat(digits), scale);
  }

  lemma SciShape(digits: string, scale: nat)
    requires |digits| >= 1
    requires |digits| - 1 - scale < -6
    ensures SciText(digits, |digits| - 1 - scale) == Mantissa(digits) + "E" + ("-" + NatToDigits(scale + 1 - |digits|))
  {
  }

  lemma ExponentFormReads(digits: string, k: nat)
    requires |digits| >= 1 && AllDigits(digits)
    ensures ParseUnsigned(Mantissa(digits) + "E" + ("-" + NatToDigits(k)))
         == Some(ShiftExponent(Dec(DigitsToNat(digits), |digits| - 1), -(k as int)))
  {
    MantissaRoundTrip(digits);
    MantissaHasNoExponent(digits);
    NegativeExponentReads(k);
    ReadWithExponent(Mantissa(digits), "-" + NatToDigits(k), Dec(DigitsToNat(digits), |digits| - 1), -(k as int));
  }

  lemma NegativeExponentReads(k: nat)
    ensures ParseExponent("-" + NatToDigits(k)) == Some(-(k as int))
  {
    var e := NatToDigits(k);
    assert ("-" + e)[1..] == e;
    DigitsRoundTrip(k);
  }

  /** Reading back the written text of a non-negative coefficient recovers it, scale included. */
  lemma UnsignedRoundTrip(n: nat, scale: nat)
    ensures ParseUnsigned(UnsignedText(n, scale)) == Some(Dec(n, scale))
  {
    var digits := NatToDigits(n);
    DigitsRoundTrip(n);
    if |digits| - 1 - scale >= -6 {
      PlainRoundTrip(digits, scale);
    } else {
      SciRoundTrip(digits, scale);
    }
  }

  /** `Decimal(str(d))` is d: same coefficient and same exponent. */
  lemma ParseFormat(d: Dec)
    ensures Parse(Format(d)) == Some(d)
  {
    var n := AbsInt(d.coef);
    var body := UnsignedText(n, d.scale);
    UnsignedRoundTrip(n, d.scale);
    UnsignedTextStartsWithDigit(n, d.scale);
    if d.coef < 0 {
      assert Format(d)[1..] == body;
    }
  }

  /** Distinct decimals have distinct texts. */
  lemma FormatInjective(d1: Dec, d2: Dec)
    requires Format(d1) == Format(d2)
    ensures d1 == d2
  {
    ParseFormat(d1);
    ParseFormat(d2);
  }

  /** Positional notation down to an adjusted exponent of -6. */
  lemma PlainExamples()
    ensures Format(Dec(123456, 5)) == "1.23456"
    ensures Format(Dec(-150, 2)) == "-1.50"
    ensures Format(Dec(1, 6)) == "0.000001"
  {
    FiveDigitExample();
    NegativeExample();
    MicroExample();
  }

  lemma FiveDigitExample()
    ensures Format(Dec(123456, 5)) == "1.23456"
  {
    assert NatToDigits(123456) == "123456";
  }

  lemma NegativeExample()
    ensures Format(Dec(-150, 2)) == "-1.50"
  {
    assert NatToDigits(150) == "150";
  }

  lemma MicroExample()
    ensures Format(Dec(1, 6)) == "0.000001"
  {
    assert NatToDigits(1) == "1";
    assert Zeros(5) == "00000";
  }

  /** Scientific notation below an adjusted exponent of -6. */
  lemma SciExamples()
    ensures Format(Dec(1, 8)) == "1E-8"
    ensures Format(Dec(12, 8)) == "1.2E-7"
    ensures Format(Dec(0, 8)) == "0E-8"
  {
    assert NatToDigits(12) == "12";
    assert NatToDigits(8) == "8";
    assert NatToDigits(7) == "7";
  }
}
