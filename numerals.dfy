/** Decimal numerals: Python's `str(n)` for natural numbers, the string
    forms Python's `float(s)` accepts, and the strings for which JavaScript's
    `Number(s)` is not `NaN`. Numbers are exact reals; binary floating point
    is not modelled. */
module Numerals {
  import opened Common

  predicate IsDigit(c: char) { '0' <= c <= '9' }

  predicate AllDigits(s: string)
  {
    forall i :: 0 <= i < |s| ==> IsDigit(s[i])
  }

  function DigitValue(c: char): nat
    requires IsDigit(c)
  {
    (c as int) - ('0' as int)
  }

  function DigitChar(d: nat): char
    requires d < 10
  {
    ('0' as int + d) as char
  }

  /** The number a string of decimal digits denotes (the empty string denotes 0). */
  function DigitsValue(s: string): nat
    requires AllDigits(s)
    decreases |s|
  {
    if s == [] then 0 else DigitsValue(s[..|s| - 1]) * 10 + DigitValue(s[|s| - 1])
  }

  /** Python's `str(n)` for a natural number `n`: its decimal numeral, without leading zeros. */
  function NatToString(n: nat): (s: string)
    ensures |s| > 0 && AllDigits(s)
    ensures |s| > 1 ==> s[0] != '0'
  {
    if n < 10 then [DigitChar(n)] else NatToString(n / 10) + [DigitChar(n % 10)]
  }

  /** Reading back the numeral `str(n)` gives `n`. */
  lemma {:induction false} NatToStringRoundTrip(n: nat)
    ensures DigitsValue(NatToString(n)) == n
  {
    if n >= 10 {
      NatToStringRoundTrip(n / 10);
      var s := NatToString(n);
      assert s[..|s| - 1] == NatToString(n / 10);
    }
  }

  function Pow10(e: nat): (r: nat)
    ensures r >= 1
  {
    if e == 0 then 1 else 10 * Pow10(e - 1)
  }

  /** The ASCII white space Python's `str.strip` and JavaScript's `String.prototype.trim` remove. */
  predicate IsSpace(c: char)
  {
    c == ' ' || c == '\t' || c == '\n' || c == '\r' || c == '\U{B}' || c == '\U{C}'
  }

  function TrimStart(s: string): string
  {
    if s != [] && IsSpace(s[0]) then TrimStart(s[1..]) else s
  }

  function TrimEnd(s: string): string
  {
    if s != [] && IsSpace(s[|s| - 1]) then TrimEnd(s[..|s| - 1]) else s
  }

  function Trim(s: string): string
  {
    TrimEnd(TrimStart(s))
  }

  /** `digits [ '.' digits ]`, at least one digit in all: "12", "12.", "12.5", ".5". */
  function ParseUnsignedMantissa(s: string): Option<real>
  {
    var k := LastIndexOf(s, '.');
    if k == -1 then
      if s != [] && AllDigits(s) then Some(DigitsValue(s) as real) else None
    else
      var whole, frac := s[..k], s[k + 1..];
      if AllDigits(whole) && AllDigits(frac) && |whole| + |frac| > 0
      then Some(DigitsValue(whole) as real + DigitsValue(frac) as real / Pow10(|frac|) as real)
      else None
  }

  /** An optional sign followed by at least one digit. */
  function ParseExponent(s: string): Option<int>
  {
    if s != [] && (s[0] == '+' || s[0] == '-') then
      var d := s[1..];
      if d != [] && AllDigits(d) then Some(if s[0] == '-' then -(DigitsValue(d) as int) else DigitsValue(d))
      else None
    else if s != [] && AllDigits(s) then Some(DigitsValue(s))
    else None
  }

  function Scale(m: real, e: int): real
  {
    if e >= 0 then m * Pow10(e) as real else m / Pow10(-e) as real
  }

  /** The position of the last 'e' or 'E' in `s`; -1 if there is none. */
  function ExponentMark(s: string): (k: int)
    ensures -1 <= k < |s|
    ensures k >= 0 ==> s[k] == 'e' || s[k] == 'E'
    ensures k == -1 <==> forall i :: 0 <= i < |s| ==> s[i] != 'e' && s[i] != 'E'
  {
    if s == [] then -1
    else if s[|s| - 1] == 'e' || s[|s| - 1] == 'E' then |s| - 1
    else ExponentMark(s[..|s| - 1])
  }

  /** `mantissa [ ('e' | 'E') [sign] digits ]`. */
  function ParseUnsignedDecimal(s: string): Option<real>
  {
    var k := ExponentMark(s);
    var mantissa := if k == -1 then ParseUnsignedMantissa(s) else ParseUnsignedMantissa(s[..k]);
    var exponent := if k == -1 then Some(0) else ParseExponent(s[k + 1..]);
    if mantissa.None? || exponent.None? then None
    else Some(Scale(mantissa.value, exponent.value))
  }

  /** `[sign] mantissa [ ('e' | 'E') [sign] digits ]`, the decimal literal both
      Python's `float` and JavaScript's `Number` read, with no surrounding space. */
  function ParseDecimal(s: string): Option<real>
  {
    if s != [] && (s[0] == '+' || s[0] == '-') then
      match ParseUnsignedDecimal(s[1..])
      case None => None
      case Some(v) => Some(if s[0] == '-' then -v else v)
    else ParseUnsignedDecimal(s)
  }

  /** Python's `float(s)` on a string; `None` where it raises `ValueError`. */
  function PyFloat(s: string): Option<real>
  {
    ParseDecimal(Trim(s))
  }

  lemma DigitsHaveNoLetters(s: string)
    requires AllDigits(s)
    ensures ExponentMark(s) == -1 && '.' !in s
  {
  }

  lemma DigitsAreTrimmed(s: string)
    requires |s| > 0 && AllDigits(s)
    ensures Trim(s) == s
  {
  }

  lemma MantissaOfDigits(s: string)
    requires |s| > 0 && AllDigits(s)
    ensures ParseUnsignedMantissa(s) == Some(DigitsValue(s) as real)
  {
    DigitsHaveNoLetters(s);
  }

  lemma UnsignedDecimalOfDigits(s: string)
    requires |s| > 0 && AllDigits(s)
    ensures ParseUnsignedDecimal(s) == Some(DigitsValue(s) as real)
  {
    DigitsHaveNoLetters(s);
    MantissaOfDigits(s);
    var m := DigitsValue(s) as real;
    assert Pow10(0) == 1;
    assert Scale(m, 0) == m;
  }

  lemma DecimalOfDigits(s: string)
    requires |s| > 0 && AllDigits(s)
    ensures ParseDecimal(s) == Some(DigitsValue(s) as real)
  {
    UnsignedDecimalOfDigits(s);
    assert IsDigit(s[0]);
  }

  /** Python's `float(str(n))` is `n`. */
  lemma PyFloatOfNumeral(n: nat)
    ensures PyFloat(NatToString(n)) == Some(n as real)
  {
    var s := NatToString(n);
    DigitsAreTrimmed(s);
    DecimalOfDigits(s);
    NatToStringRoundTrip(n);
  }

  predicate IsRadixDigit(c: char, radix: char)
  {
    if radix == 'x' then IsDigit(c) || 'a' <= c <= 'f' || 'A' <= c <= 'F'
    else if radix == 'o' then '0' <= c <= '7'
    else c == '0' || c == '1'
  }

  /** `0x…`, `0o…` or `0b…` (either letter case) with at least one digit of that radix. */
  predicate IsRadixLiteral(s: string)
  {
    |s| > 2 && s[0] == '0' && LowerChar(s[1]) in {'x', 'o', 'b'} &&
    forall i :: 2 <= i < |s| ==> IsRadixDigit(s[i], LowerChar(s[1]))
  }

  /** JavaScript's `isNaN(Number(s))` for a string `s`. */
  predicate JsNumberIsNaN(s: string)
  {
    var t := Trim(s);
    !(t == [] || ParseDecimal(t).Some? || t in {"Infinity", "+Infinity", "-Infinity"} || IsRadixLiteral(t))
  }

  /** The numeral of a natural number is a number for JavaScript's `Number`. */
  lemma NumeralIsNumber(n: nat)
    ensures !JsNumberIsNaN(NatToString(n))
  {
    var s := NatToString(n);
    DigitsAreTrimmed(s);
    DecimalOfDigits(s);
  }

  /** Text that is no numeral, such as "abc", is `NaN`. */
  lemma LettersAreNaN()
    ensures JsNumberIsNaN("abc")
  {
    var t := "abc";
    assert TrimStart(t) == t && TrimEnd(t) == t;
    assert ExponentMark(t) == -1 by {
      assert t[..2] == "ab" && t[..2][..1] == "a" && "a"[..0] == [];
    }
    assert LastIndexOf(t, '.') == -1;
    assert !AllDigits(t) by { assert !IsDigit(t[0]); }
    assert ParseUnsignedMantissa(t) == None;
    assert ParseDecimal(t) == None;
    assert !IsRadixLiteral(t);
  }
}
