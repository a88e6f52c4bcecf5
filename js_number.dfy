/**
 * JavaScript number conversions the scraper performs on page text:
 * `parseInt` (radix 10), `parseFloat`, and `toString` of integers.
 * Numbers are exact: a finite value is a `real`, and the rounding of
 * IEEE-754 doubles is not modelled.
 */
module JsNumber {
  import opened JsString

  /** A JavaScript number as the scraper can obtain it. */
  datatype Number = Finite(value: real) | NaN | Infinity(negative: bool)

  function DigitValue(c: char): nat
    requires IsDigit(c)
  {
    c as int - '0' as int
  }

  function DigitChar(d: nat): (c: char)
    requires d < 10
    ensures IsDigit(c) && DigitValue(c) == d
  {
    ('0' as int + d) as char
  }

  /** Value of a decimal digit string, most significant digit first ("" is 0). */
  function DigitsValue(ds: string): nat
    requires AllDigits(ds)
    decreases |ds|
  {
    if |ds| == 0 then 0 else DigitsValue(ds[..|ds| - 1]) * 10 + DigitValue(ds[|ds| - 1])
  }

  /** Decimal representation of a natural number: no leading zero except "0" itself. */
  function NatToString(n: nat): (r: string)
    ensures |r| >= 1 && AllDigits(r)
    ensures r[0] == '0' ==> n == 0
    decreases n
  {
    if n < 10 then [DigitChar(n)] else NatToString(n / 10) + [DigitChar(n % 10)]
  }

  /** Reading back the decimal representation gives the number. */
  lemma {:induction false} NatToStringValue(n: nat)
    ensures DigitsValue(NatToString(n)) == n
    decreases n
  {
    if n >= 10 {
      NatToStringValue(n / 10);
      var r := NatToString(n);
      assert r[..|r| - 1] == NatToString(n / 10);
    }
  }

  /** `Number.prototype.toString` for an integer value, in plain decimal
      digits; the exponent form JavaScript writes from 10^21 up is not
      modelled. */
  function IntToString(i: int): string {
    if i < 0 then "-" + NatToString(-i) else NatToString(i)
  }

  /** The text of an integer is made of digits and at most a leading `-`. */
  lemma IntToStringChars(i: int)
    ensures forall k :: 0 <= k < |IntToString(i)| ==> IsDigit(IntToString(i)[k]) || (k == 0 && IntToString(i)[k] == '-')
  {
    if i < 0 {
      var s := IntToString(i);
      assert forall k :: 1 <= k < |s| ==> s[k] == NatToString(-i)[k - 1];
    }
  }

  /** The longest prefix of `s` made of digits. */
  function LeadingDigits(s: string): (r: string)
    ensures r <= s && AllDigits(r)
    ensures |r| < |s| ==> !IsDigit(s[|r|])
    decreases |s|
  {
    if |s| > 0 && IsDigit(s[0]) then [s[0]] + LeadingDigits(s[1..]) else ""
  }

  lemma {:induction false} LeadingDigitsOfDigits(s: string)
    requires AllDigits(s)
    ensures LeadingDigits(s) == s
    decreases |s|
  {
    if |s| > 0 {
      LeadingDigitsOfDigits(s[1..]);
    }
  }

  /** The text after an optional leading sign, and whether the sign was `-`. */
  function Unsigned(t: string): string {
    if |t| > 0 && (t[0] == '-' || t[0] == '+') then t[1..] else t
  }

  predicate IsNegative(t: string) {
    |t| > 0 && t[0] == '-'
  }

  /** `parseInt(s)` without a radix, for decimal text: leading white space
      is skipped, one sign is accepted, and the longest run of digits is read;
      `None` stands for NaN (no digit at all). */
  function ParseInt(s: string): Option<int> {
    var t := TrimStart(s);
    var ds := LeadingDigits(Unsigned(t));
    if ds == "" then None
    else
      var v: int := DigitsValue(ds);
      Some(if IsNegative(t) then -v else v)
  }

  /** `parseInt` reads back what `toString` writes. */
  lemma ParseIntOfIntToString(i: int)
    ensures ParseInt(IntToString(i)) == Some(i)
  {
    var s := IntToString(i);
    var m: nat := if i < 0 then -i else i;
    var digits := NatToString(m);
    assert s[0] == '-' || IsDigit(s[0]);
    TrimStartNoSpace(s);
    assert Unsigned(s) == digits by {
      if i < 0 {
        assert s == "-" + digits;
      } else {
        assert s == digits;
      }
    }
    LeadingDigitsOfDigits(digits);
    NatToStringValue(m);
  }

  /** `parseInt` of a digit string is its decimal value. */
  lemma ParseIntOfDigits(ds: string)
    requires AllDigits(ds) && ds != ""
    ensures ParseInt(ds) == Some(DigitsValue(ds))
  {
    assert IsDigit(ds[0]);
    TrimStartNoSpace(ds);
    LeadingDigitsOfDigits(ds);
  }

  /** `parseInt(s) || 0`: NaN gives 0, and so does 0 itself. */
  function ParseIntOrZero(s: string): int {
    match ParseInt(s)
    case None => 0
    case Some(v) => v
  }

  function Pow10(n: nat): (r: nat)
    ensures r >= 1
  {
    if n == 0 then 1 else 10 * Pow10(n - 1)
  }

  /** `10^e` as a real, for any integer exponent. */
  function Scale(e: int): real {
    if e >= 0 then Pow10(e) as real else 1.0 / Pow10(-e) as real
  }

  /** The exponent of a `parseFloat` literal, read from the text after its
      digits: `e` or `E`, an optional sign and at least one digit; 0 when the
      text does not start with such an exponent. */
  function Exponent(rest: string): int {
    if |rest| > 0 && (rest[0] == 'e' || rest[0] == 'E') then
      var t := rest[1..];
      var ds := LeadingDigits(Unsigned(t));
      var v: int := DigitsValue(ds);
      if IsNegative(t) then -v else v
    else 0
  }

  /** The value of the decimal literal `ip.fp` times `10^e`. */
  function Decimal(ip: string, fp: string, e: int): (r: real)
    requires AllDigits(ip) && AllDigits(fp)
    ensures fp == "" && e == 0 ==> r == DigitsValue(ip) as real
  {
    var whole := DigitsValue(ip) as real;
    var fraction := if fp == "" then 0.0 else DigitsValue(fp) as real / Pow10(|fp|) as real;
    if e == 0 then whole + fraction else (whole + fraction) * Scale(e)
  }

  /** `parseFloat(s)`: after leading white space and one optional sign, either
      `Infinity` or the longest prefix of the form digits [`.` digits]
      [exponent] with at least one digit before the exponent; NaN otherwise. */
  function ParseFloat(s: string): Number {
    var t := TrimStart(s);
    var body := Unsigned(t);
    if StartsWith(body, "Infinity") then Infinity(IsNegative(t))
    else
      var ip := LeadingDigits(body);
      var rest := body[|ip|..];
      var hasPoint := |rest| > 0 && rest[0] == '.';
      var fp := if hasPoint then LeadingDigits(rest[1..]) else "";
      if ip == "" && fp == "" then NaN
      else
        var tail := if hasPoint then rest[1 + |fp|..] else rest;
        var magnitude := Decimal(ip, fp, Exponent(tail));
        Finite(if IsNegative(t) then -magnitude else magnitude)
  }

  /** `parseFloat` of the empty string is NaN. */
  lemma ParseFloatOfEmpty()
    ensures ParseFloat("") == NaN
  {
    assert TrimStart("") == "";
    assert Unsigned("") == "";
    assert LeadingDigits("") == "";
  }

  /** `parseFloat` of a non-empty digit string is its decimal value. */
  lemma ParseFloatOfDigits(ds: string)
    requires AllDigits(ds) && ds != ""
    ensures ParseFloat(ds) == Finite(DigitsValue(ds) as real)
  {
    assert IsDigit(ds[0]);
    TrimStartNoSpace(ds);
    assert Unsigned(ds) == ds;
    assert !StartsWith(ds, "Infinity") by {
      assert ds[0] != 'I';
    }
    LeadingDigitsOfDigits(ds);
    assert ds[|ds|..] == "";
    assert Exponent("") == 0;
  }

  /** `parseFloat('0')` is zero. */
  lemma ParseFloatOfZero()
    ensures ParseFloat("0") == Finite(0.0)
  {
    ParseFloatOfDigits("0");
    assert "0"[..0] == "";
  }
}
