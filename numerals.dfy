/** Decimal numerals read from text, as JavaScript and joi read them: the
    grammar joi's `number()` converts (which `Number(text)` reads to the same
    value), `parseInt(text)`, and the safe integer range. */
module Numerals {
  import opened Wrappers
  import opened Text

  /** `Number.MAX_SAFE_INTEGER`: joi refuses numbers beyond it (`number.unsafe`). */
  const MaxSafeInteger: int := 9007199254740991

  /** The number `mantissa * 10^scale`. */
  datatype Decimal = Decimal(mantissa: int, scale: int)

  function Pow10(k: nat): (p: nat)
    ensures p >= 1
  {
    if k == 0 then 1 else 10 * Pow10(k - 1)
  }

  /** The value of a string of decimal digits ("" reads as 0). */
  function DigitsValue(s: string): nat
    requires All(s, IsDigit)
  {
    if s == [] then 0
    else DigitsValue(s[..|s| - 1]) * 10 + (s[|s| - 1] as int - '0' as int)
  }

  /** The number of decimal digits `s` starts with. */
  function LeadingDigits(s: string): (n: nat)
    ensures n <= |s|
    ensures forall i :: 0 <= i < n ==> IsDigit(s[i])
    ensures n < |s| ==> !IsDigit(s[n])
  {
    if s != [] && IsDigit(s[0]) then
      var n := 1 + LeadingDigits(s[1..]);
      assert forall i :: 1 <= i < n ==> s[i] == s[1..][i - 1];
      n
    else 0
  }

  /** An optional `+` or `-` at the start: whether it is `-`, and the rest. */
  function SignOf(s: string): (r: (bool, string))
    ensures r.1 == s || (s != [] && r.1 == s[1..] && (s[0] == '+' || s[0] == '-'))
    ensures r.0 <==> s != [] && s[0] == '-'
  {
    if s != [] && (s[0] == '+' || s[0] == '-') then (s[0] == '-', s[1..]) else (false, s)
  }

  /** The exponent part `e[+-]?\d+` (in either case) that must end the
      numeral: its value, 0 when there is none, nothing when the text is
      not such a part. */
  function ExponentOf(s: string): Option<int> {
    if s == [] then Some(0)
    else if s[0] != 'e' && s[0] != 'E' then None
    else
      var sg := SignOf(s[1..]);
      if sg.1 != [] && All(sg.1, IsDigit) then
        var e: int := DigitsValue(sg.1);
        Some(if sg.0 then -e else e)
      else None
  }

  /** The value of a numeral without its sign, `(\d+(\.\d*)?|\.\d+)(e[+-]?\d+)?`
      in either case: the integer and fraction digits together make the
      mantissa, and the fraction digits lower the exponent. */
  function UnsignedNumeral(s: string): (r: Option<Decimal>)
    ensures r.Some? ==> r.value.mantissa >= 0
  {
    var w := LeadingDigits(s);
    var afterWhole := s[w..];
    var hasPoint := afterWhole != [] && afterWhole[0] == '.';
    var afterPoint := if hasPoint then afterWhole[1..] else afterWhole;
    var f := if hasPoint then LeadingDigits(afterPoint) else 0;
    var exponent := ExponentOf(afterPoint[f..]);
    if w + f == 0 || exponent.None? then None
    else Some(Decimal(DigitsValue(s[..w] + afterPoint[..f]), exponent.value - f))
  }

  /** The value of `text` when it is a decimal numeral,
      `/^\s*[+-]?(\d+(\.\d*)?|\.\d+)(e[+-]?\d+)?\s*$/i`: the strings joi's
      `number()` converts, and to the value `Number(text)` gives them. */
  function ParseNumeral(text: string): (r: Option<Decimal>)
    ensures r.Some? ==> Trim(text) != []
  {
    var sg := SignOf(Trim(text));
    match UnsignedNumeral(sg.1)
    case None => None
    case Some(d) => Some(if sg.0 then Decimal(-d.mantissa, d.scale) else d)
  }

  /** `parseInt(text)` (radix 10): leading whitespace skipped, an optional
      sign, then the longest run of digits; NaN, here nothing, without one. */
  function ParseIntPrefix(text: string): (r: Option<int>)
    ensures text != [] && All(text, IsDigit) ==> r == Some(DigitsValue(text))
  {
    DigitTextParts(text);
    var sg := SignOf(text[LeadingSpaces(text)..]);
    var n := LeadingDigits(sg.1);
    if n == 0 then None
    else
      var v: int := DigitsValue(sg.1[..n]);
      Some(if sg.0 then -v else v)
  }

  /** A decimal with a whole value (`Number.isInteger`). */
  predicate IsWhole(d: Decimal) {
    d.scale >= 0 || d.mantissa % Pow10(-d.scale) == 0
  }

  function WholeValue(d: Decimal): int
    requires IsWhole(d)
  {
    if d.scale >= 0 then d.mantissa * Pow10(d.scale) else d.mantissa / Pow10(-d.scale)
  }

  /** joi's `number().integer()` on text, with conversion: a numeral whose
      value is a whole number in the safe range. */
  function JoiInteger(text: string): (r: Option<int>)
    ensures r.Some? ==> -MaxSafeInteger <= r.value <= MaxSafeInteger
    ensures r.Some? <==>
      ParseNumeral(text).Some? && IsWhole(ParseNumeral(text).value)
      && -MaxSafeInteger <= WholeValue(ParseNumeral(text).value) <= MaxSafeInteger
    ensures r.Some? ==> r.value == WholeValue(ParseNumeral(text).value)
  {
    match ParseNumeral(text)
    case None => None
    case Some(d) =>
      if IsWhole(d) && -MaxSafeInteger <= WholeValue(d) <= MaxSafeInteger then Some(WholeValue(d)) else None
  }

  /** The value is above zero (joi's `positive()`), and not beyond the safe range. */
  predicate PositiveSafe(d: Decimal) {
    && d.mantissa > 0
    && if d.scale >= 0 then d.mantissa * Pow10(d.scale) <= MaxSafeInteger
       else d.mantissa <= MaxSafeInteger * Pow10(-d.scale)
  }

  // ---------------------------------------------------------------- properties

  lemma {:induction false} AllDigitsLead(s: string)
    requires All(s, IsDigit)
    ensures LeadingDigits(s) == |s|
  {
    if s != [] {
      AllDigitsLead(s[1..]);
    }
  }

  /** Text of digits has no whitespace to trim. */
  lemma DigitsTrimmed(s: string)
    requires s != [] && All(s, IsDigit)
    ensures LeadingSpaces(s) == 0 && Trim(s) == s
  {
    assert !IsSpace(s[0]);
    assert !IsSpace(s[|s| - 1]);
    assert s[0..] == s;
  }

  /** Text of plain digits has no whitespace, no sign, and is one run of digits. */
  lemma DigitTextParts(s: string)
    ensures s != [] && All(s, IsDigit) ==>
      && LeadingSpaces(s) == 0 && s[LeadingSpaces(s)..] == s
      && SignOf(s) == (false, s) && LeadingDigits(s) == |s| && s[..|s|] == s
  {
    if s != [] && All(s, IsDigit) {
      DigitsTrimmed(s);
      AllDigitsLead(s);
      assert s[0..] == s;
    }
  }

  /** Text of plain digits (as `String(n)` writes a whole number) reads as
      the same number under both joi's conversion and `parseInt`. */
  lemma DigitTextReads(s: string)
    requires s != [] && All(s, IsDigit)
    ensures ParseNumeral(s) == Some(Decimal(DigitsValue(s), 0))
    ensures ParseIntPrefix(s) == Some(DigitsValue(s))
  {
    DigitsTrimmed(s);
    assert SignOf(s) == (false, s);
    UnsignedDigits(s);
    assert s[LeadingSpaces(s)..] == s;
    assert s[..|s|] == s;
  }

  lemma UnsignedDigits(s: string)
    requires s != [] && All(s, IsDigit)
    ensures LeadingDigits(s) == |s|
    ensures UnsignedNumeral(s) == Some(Decimal(DigitsValue(s), 0))
  {
    AllDigitsLead(s);
    assert s[..|s|] + s[|s|..][..0] == s;
  }

  /** Text of plain digits within the safe range is a whole number to joi,
      with the value `parseInt` reads too. */
  lemma DigitTextIsInteger(s: string)
    requires s != [] && All(s, IsDigit) && DigitsValue(s) <= MaxSafeInteger
    ensures JoiInteger(s) == Some(DigitsValue(s)) && ParseIntPrefix(s) == Some(DigitsValue(s))
  {
    DigitTextReads(s);
    assert Pow10(0) == 1;
    assert WholeValue(Decimal(DigitsValue(s), 0)) == DigitsValue(s);
  }

  /** A negative sign leaves no whole value above zero. */
  lemma NonPositiveWhole(d: Decimal)
    requires IsWhole(d) && d.mantissa <= 0
    ensures WholeValue(d) <= 0
  {
    if d.scale < 0 {
      var p := Pow10(-d.scale);
      assert d.mantissa == (d.mantissa / p) * p;
    }
  }

  /** For text joi accepts as a whole number of at least 1, `parseInt`
      reads either nothing or a number that is not negative: both skip the
      same whitespace and see the same sign, which cannot be `-`. */
  lemma PositiveTextReadsNonNegative(s: string)
    requires JoiInteger(s).Some? && JoiInteger(s).value >= 1
    requires ParseIntPrefix(s).Some?
    ensures ParseIntPrefix(s).value >= 0
  {
    var k := LeadingSpaces(s);
    var t := Trim(s);
    assert t != [];
    assert t[0] == s[k];
    var d := ParseNumeral(s).value;
    if SignOf(s[k..]).0 {
      assert SignOf(t).0;
      NonPositiveWhole(d);
    }
  }

  // ---------------------------------------------------------------- examples

  lemma {:induction false} LeadingDigitsOf(a: string, b: string)
    requires All(a, IsDigit) && (b == [] || !IsDigit(b[0]))
    ensures LeadingDigits(a + b) == |a|
  {
    if a != [] {
      assert (a + b)[1..] == a[1..] + b;
      LeadingDigitsOf(a[1..], b);
    } else {
      assert a + b == b;
    }
  }

  lemma TrimUntouched(s: string)
    requires s != [] && !IsSpace(s[0]) && !IsSpace(s[|s| - 1])
    ensures LeadingSpaces(s) == 0 && TrailingSpaces(s) == 0 && Trim(s) == s
  {
    assert s[0..] == s;
  }

  /** Text without a sign or surrounding whitespace is read by its unsigned part. */
  lemma UnsignedText(t: string)
    requires t != [] && t[0] != '+' && t[0] != '-' && !IsSpace(t[0]) && !IsSpace(t[|t| - 1])
    ensures ParseNumeral(t) == UnsignedNumeral(t)
  {
    TrimUntouched(t);
  }

  lemma UnsignedExponent()
    ensures UnsignedNumeral("1e1") == Some(Decimal(1, 1))
  {
    LeadingDigitsOf("1", "e1");
    assert "1e1" == "1" + "e1" && "1e1"[..1] == "1" && "1e1"[1..] == "e1";
    assert "e1"[1..] == "1" && DigitsValue("1") == 1;
    assert "1"[..0] == [];
  }

  /** `"1e1"`: the digit 1 and the exponent 1. */
  lemma ReadsExponent()
    ensures JoiInteger("1e1") == Some(10)
  {
    UnsignedText("1e1");
    UnsignedExponent();
    assert Pow10(1) == 10;
  }

  /** `parseInt` stops at the exponent mark of `"1e1"`. */
  lemma ParseIntStopsAtExponent()
    ensures ParseIntPrefix("1e1") == Some(1)
  {
    TrimUntouched("1e1");
    LeadingDigitsOf("1", "e1");
    assert "1e1" == "1" + "e1" && "1e1"[..1] == "1" && "1e1"[0..] == "1e1";
  }

  /** A numeral with a point after `w` integer digits and `f` fraction
      digits: the digits on both sides make the mantissa, and the fraction
      digits lower the exponent. */
  lemma PointedNumeral(s: string, w: nat, f: nat, afterPoint: string)
    requires LeadingDigits(s) == w && s[w..] != [] && s[w..][0] == '.' && s[w..][1..] == afterPoint
    requires LeadingDigits(afterPoint) == f && w + f > 0 && ExponentOf(afterPoint[f..]).Some?
    ensures UnsignedNumeral(s) == Some(Decimal(DigitsValue(s[..w] + afterPoint[..f]), ExponentOf(afterPoint[f..]).value - f))
  {
  }

  lemma ExponentTwo()
    ensures ExponentOf("e2") == Some(2)
  {
    assert "e2"[1..] == "2" && DigitsValue("2") == 2;
  }

  lemma UnsignedFractionWithExponent()
    ensures UnsignedNumeral("0.5e2") == Some(Decimal(5, 1))
  {
    LeadingDigitsOf("0", ".5e2");
    LeadingDigitsOf("5", "e2");
    assert "0.5e2" == "0" + ".5e2" && "0.5e2"[1..] == ".5e2" && ".5e2"[1..] == "5e2" && "5e2" == "5" + "e2";
    assert "5e2"[1..] == "e2";
    ExponentTwo();
    PointedNumeral("0.5e2", 1, 1, "5e2");
    assert "0.5e2"[..1] + "5e2"[..1] == "05";
    assert DigitsValue("05") == 5 by { assert "05"[..1] == "0"; }
  }

  lemma UnsignedLeadingPoint()
    ensures UnsignedNumeral(".5e2") == Some(Decimal(5, 1))
  {
    LeadingDigitsOf("5", "e2");
    assert ".5e2"[0..] == ".5e2" && ".5e2"[1..] == "5e2" && "5e2" == "5" + "e2";
    assert "5e2"[1..] == "e2";
    ExponentTwo();
    PointedNumeral(".5e2", 0, 1, "5e2");
    assert ".5e2"[..0] + "5e2"[..1] == "5";
    assert DigitsValue("5") == 5;
  }

  /** `"0.5e2"`: digits 0 and 5 with one of them after the point, exponent 2. */
  lemma ReadsFractionWithExponent()
    ensures JoiInteger("0.5e2") == Some(50)
  {
    UnsignedText("0.5e2");
    UnsignedFractionWithExponent();
    assert Pow10(1) == 10;
  }

  /** `parseInt` reads only the 0 before the point of `"0.5e2"`. */
  lemma ParseIntStopsAtPoint()
    ensures ParseIntPrefix("0.5e2") == Some(0)
  {
    TrimUntouched("0.5e2");
    LeadingDigitsOf("0", ".5e2");
    assert "0.5e2" == "0" + ".5e2" && "0.5e2"[..1] == "0" && "0.5e2"[0..] == "0.5e2";
  }

  /** `".5e2"`: no digit before the point. */
  lemma ReadsLeadingPoint()
    ensures JoiInteger(".5e2") == Some(50)
  {
    UnsignedText(".5e2");
    UnsignedLeadingPoint();
    assert Pow10(1) == 10;
  }

  /** `parseInt` finds no digit at the start of `".5e2"`: NaN. */
  lemma ParseIntFindsNoDigit()
    ensures ParseIntPrefix(".5e2") == None
  {
    TrimUntouched(".5e2");
    assert ".5e2"[0..] == ".5e2";
  }

  lemma UnsignedZeroFraction()
    ensures UnsignedNumeral("2.0") == Some(Decimal(20, -1))
  {
    LeadingDigitsOf("2", ".0");
    LeadingDigitsOf("0", "");
    assert "2.0" == "2" + ".0" && "2.0"[1..] == ".0" && ".0"[1..] == "0" && "0" + "" == "0" && "0"[1..] == [];
    PointedNumeral("2.0", 1, 1, "0");
    assert "2.0"[..1] + "0"[..1] == "20";
    assert DigitsValue("20") == 20 by { assert "20"[..1] == "2"; }
  }

  /** `"2.0"`: a zero fraction leaves a whole number. */
  lemma ReadsZeroFraction()
    ensures JoiInteger("2.0") == Some(2)
  {
    UnsignedText("2.0");
    UnsignedZeroFraction();
    assert Pow10(1) == 10;
  }

  lemma UnsignedFraction()
    ensures UnsignedNumeral("2.5") == Some(Decimal(25, -1))
  {
    LeadingDigitsOf("2", ".5");
    LeadingDigitsOf("5", "");
    assert "2.5" == "2" + ".5" && "2.5"[1..] == ".5" && ".5"[1..] == "5" && "5" + "" == "5" && "5"[1..] == [];
    PointedNumeral("2.5", 1, 1, "5");
    assert "2.5"[..1] + "5"[..1] == "25";
    assert DigitsValue("25") == 25 by { assert "25"[..1] == "2"; }
  }

  /** `"2.5"`: a fraction that does not vanish is not a whole number. */
  lemma RefusesFraction()
    ensures JoiInteger("2.5") == None
  {
    UnsignedText("2.5");
    UnsignedFraction();
    assert Pow10(1) == 10;
    assert !IsWhole(Decimal(25, -1));
  }

  /** `"+2"`: a leading plus sign is allowed. */
  lemma ReadsPlusSign()
    ensures JoiInteger("+2") == Some(2)
  {
    TrimUntouched("+2");
    assert SignOf("+2") == (false, "2");
    UnsignedDigits("2");
    assert DigitsValue("2") == 2 && Pow10(0) == 1;
  }

  /** `parseInt` skips the plus sign of `"+2"`. */
  lemma ParseIntSkipsPlusSign()
    ensures ParseIntPrefix("+2") == Some(2)
  {
    TrimUntouched("+2");
    assert "+2"[0..] == "+2" && SignOf("+2") == (false, "2");
    UnsignedDigits("2");
    assert "2"[..1] == "2" && DigitsValue("2") == 2;
  }

  /** `" 2 "`: whitespace around the digits is trimmed. */
  lemma ReadsSpaced()
    ensures JoiInteger(" 2 ") == Some(2)
  {
    assert " 2 "[1..] == "2 ";
    assert LeadingSpaces(" 2 ") == 1 by { assert LeadingSpaces("2 ") == 0; }
    assert TrailingSpaces("2 ") == 1 by { assert "2 "[..1] == "2"; assert TrailingSpaces("2") == 0; }
    assert "2 "[..1] == "2";
    assert Trim(" 2 ") == "2";
    DigitTextIsInteger("2");
  }

  /** `parseInt` skips the leading whitespace of `" 2 "` and stops at the trailing one. */
  lemma ParseIntSkipsSpaces()
    ensures ParseIntPrefix(" 2 ") == Some(2)
  {
    assert " 2 "[1..] == "2 ";
    assert LeadingSpaces(" 2 ") == 1 by { assert LeadingSpaces("2 ") == 0; }
    LeadingDigitsOf("2", " ");
    assert "2 "[..1] == "2" && SignOf("2 ") == (false, "2 ");
    assert DigitsValue("2") == 2;
  }

  /** A bare exponent mark and empty text are not numerals. */
  lemma RefusesIncomplete()
    ensures JoiInteger("1e") == None && JoiInteger("") == None
  {
    TrimUntouched("1e");
    LeadingDigitsOf("1", "e");
    assert "1e"[1..] == "e" && "e"[1..] == [] && "1e"[0..] == "1e";
    assert Trim("") == "";
  }
}
