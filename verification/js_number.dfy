/** The `Number(string)` conversion (StringToNumber, ECMA-262 section 7.1.4.1.1),
    as far as the scraper's numeric fields need it: which strings are numeric
    literals, and the exact value of the integral ones. */
module JsNumber {
  import opened Js

  /** The result of `Number(s)`. `Unevaluated` is a valid numeric literal whose
      double value this model does not compute (a fraction, an exponent,
      `Infinity`, a binary, octal or hexadecimal literal, or an integer beyond 2^53). */
  datatype NumberValue = NaN | IntegerValue(value: int) | Unevaluated

  /** 2^53: every integer up to this magnitude is an exact double. */
  const MaxExactInteger: nat := 0x20_0000_0000_0000

  predicate IsDigit(c: char) {
    '0' <= c <= '9'
  }

  predicate AllDigits(s: string) {
    forall i :: 0 <= i < |s| ==> IsDigit(s[i])
  }

  predicate IsHexDigit(c: char) {
    IsDigit(c) || 'a' <= c <= 'f' || 'A' <= c <= 'F'
  }

  /** The value of a run of decimal digits. */
  function DigitsValue(s: string): nat
    requires AllDigits(s)
  {
    if |s| == 0 then 0
    else 10 * DigitsValue(s[..|s| - 1]) + (s[|s| - 1] as int - '0' as int)
  }

  /** Length of the longest prefix of `s` made of decimal digits. */
  function LeadingDigits(s: string): (n: nat)
    ensures n <= |s| && AllDigits(s[..n])
    ensures n < |s| ==> !IsDigit(s[n])
  {
    if |s| > 0 && IsDigit(s[0]) then
      var n := 1 + LeadingDigits(s[1..]);
      assert forall i :: 1 <= i < n ==> s[..n][i] == s[1..][..n - 1][i - 1];
      n
    else 0
  }

  /** StrSignedInteger in an ExponentPart: an optional sign, then digits. */
  predicate IsSignedInteger(s: string) {
    var u := if |s| > 0 && (s[0] == '+' || s[0] == '-') then s[1..] else s;
    |u| > 0 && AllDigits(u)
  }

  predicate IsExponentPart(s: string) {
    |s| >= 2 && (s[0] == 'e' || s[0] == 'E') && IsSignedInteger(s[1..])
  }

  /** Empty, or an ExponentPart. */
  predicate IsOptionalExponent(s: string) {
    |s| == 0 || IsExponentPart(s)
  }

  /** StrUnsignedDecimalLiteral: `Infinity`, `D.`, `D.D`, `.D`, `D`, each digit form
      optionally followed by an exponent. */
  predicate IsUnsignedDecimal(s: string) {
    if s == "Infinity" then true
    else
      var k := LeadingDigits(s);
      var rest := s[k..];
      if k > 0 then
        IsOptionalExponent(rest)
        || (|rest| > 0 && rest[0] == '.' && IsOptionalExponent(rest[1..][LeadingDigits(rest[1..])..]))
      else
        |rest| > 0 && rest[0] == '.' && LeadingDigits(rest[1..]) > 0
        && IsOptionalExponent(rest[1..][LeadingDigits(rest[1..])..])
  }

  /** NonDecimalIntegerLiteral: `0b`/`0B` binary, `0o`/`0O` octal, `0x`/`0X` hexadecimal digits. */
  predicate IsNonDecimalInteger(s: string) {
    && |s| >= 3 && s[0] == '0'
    && (|| ((s[1] == 'b' || s[1] == 'B') && forall i :: 2 <= i < |s| ==> s[i] == '0' || s[i] == '1')
        || ((s[1] == 'o' || s[1] == 'O') && forall i :: 2 <= i < |s| ==> '0' <= s[i] <= '7')
        || ((s[1] == 'x' || s[1] == 'X') && forall i :: 2 <= i < |s| ==> IsHexDigit(s[i])))
  }

  /** StrNumericLiteral, the text `Number` accepts once surrounding whitespace is gone. */
  predicate IsNumericLiteral(s: string) {
    || IsNonDecimalInteger(s)
    || IsUnsignedDecimal(s)
    || (|s| > 0 && (s[0] == '+' || s[0] == '-') && IsUnsignedDecimal(s[1..]))
  }

  /** Every character that can appear in a numeric literal. */
  predicate InNumericAlphabet(c: char) {
    IsHexDigit(c) || c in NumericLetters
  }

  /** The non-hex-digit characters of numeric literals: point, signs, radix prefixes, `Infinity`. */
  const NumericLetters: set<char> := {'.', '+', '-', 'x', 'X', 'o', 'O', 'b', 'B', 'e', 'E', 'I', 'n', 'f', 'i', 't', 'y'}

  /** True when `t` is an optionally signed run of digits whose value is an exact double. */
  predicate IsExactInteger(t: string) {
    var u := if |t| > 0 && (t[0] == '+' || t[0] == '-') then t[1..] else t;
    |u| > 0 && AllDigits(u) && DigitsValue(u) <= MaxExactInteger
  }

  /** `Number(s)`: surrounding whitespace is ignored, empty text is 0, text that
      is not a numeric literal is NaN. */
  function ToNumber(s: string): (r: NumberValue)
    ensures Trim(s) == [] ==> r == IntegerValue(0)
    ensures r.NaN? <==> Trim(s) != [] && !IsNumericLiteral(Trim(s))
    ensures IsExactInteger(Trim(s)) ==> r == IntegerValue(SignedValue(Trim(s)))
  {
    ConvertTrimmed(Trim(s))
  }

  /** `Number` applied to already trimmed text. */
  function ConvertTrimmed(t: string): (r: NumberValue)
    ensures r.NaN? <==> |t| > 0 && !IsNumericLiteral(t)
    ensures |t| == 0 ==> r == IntegerValue(0)
    ensures IsExactInteger(t) ==> r == IntegerValue(SignedValue(t))
  {
    if |t| == 0 then IntegerValue(0)
    else if !IsNumericLiteral(t) then NaN
    else if IsExactInteger(t) then IntegerValue(SignedValue(t))
    else Unevaluated
  }

  /** The value of an optionally signed run of digits. */
  function SignedValue(t: string): int
    requires IsExactInteger(t)
  {
    if t[0] == '-' then -(DigitsValue(t[1..]) as int)
    else if t[0] == '+' then DigitsValue(t[1..])
    else DigitsValue(t)
  }

  /** A run of digits is a numeric literal. */
  lemma DigitsAreNumeric(t: string)
    requires |t| > 0 && AllDigits(t)
    ensures IsNumericLiteral(t)
  {
    assert LeadingDigits(t) == |t|;
    assert t[|t|..] == [];
  }

  /** A signed run of digits is a numeric literal. */
  lemma SignedDigitsAreNumeric(t: string)
    requires IsExactInteger(t)
    ensures IsNumericLiteral(t)
  {
    if t[0] == '+' || t[0] == '-' {
      DigitsAreNumeric(t[1..]);
      assert IsUnsignedDecimal(t[1..]);
    } else {
      DigitsAreNumeric(t);
    }
  }

  /** True when every character of `s` is in the numeric alphabet. */
  predicate NumericAlphabetOnly(s: string) {
    forall i :: 0 <= i < |s| ==> InNumericAlphabet(s[i])
  }

  lemma AlphabetConcat(a: string, b: string)
    requires NumericAlphabetOnly(a) && NumericAlphabetOnly(b)
    ensures NumericAlphabetOnly(a + b)
  {
    assert forall i :: |a| <= i < |a + b| ==> (a + b)[i] == b[i - |a|];
  }

  lemma ExponentAlphabet(e: string)
    requires IsOptionalExponent(e)
    ensures NumericAlphabetOnly(e)
  {
    if |e| > 0 {
      var u := e[1..];
      if u[0] == '+' || u[0] == '-' {
        assert u == [u[0]] + u[1..];
      }
      assert e == [e[0]] + u;
      AlphabetConcat([e[0]], u);
    }
  }

  lemma DigitsAlphabet(d: string)
    requires AllDigits(d)
    ensures NumericAlphabetOnly(d)
  {
  }

  /** A digit run, then an optional exponent. */
  lemma DigitsThenExponentAlphabet(s: string)
    requires IsOptionalExponent(s[LeadingDigits(s)..])
    ensures NumericAlphabetOnly(s)
  {
    var k := LeadingDigits(s);
    ExponentAlphabet(s[k..]);
    DigitsAlphabet(s[..k]);
    assert s == s[..k] + s[k..];
    AlphabetConcat(s[..k], s[k..]);
  }

  /** `.`, a digit run, then an optional exponent. */
  lemma FractionAlphabet(rest: string)
    requires |rest| > 0 && rest[0] == '.' && IsOptionalExponent(rest[1..][LeadingDigits(rest[1..])..])
    ensures NumericAlphabetOnly(rest)
  {
    var frac := rest[1..];
    DigitsThenExponentAlphabet(frac);
    assert rest == ['.'] + frac;
    AlphabetConcat(['.'], frac);
  }

  /** A digit run, then optionally a fraction, then an optional exponent. */
  lemma DigitsThenRestAlphabet(s: string)
    requires var rest := s[LeadingDigits(s)..];
      || IsOptionalExponent(rest)
      || (|rest| > 0 && rest[0] == '.' && IsOptionalExponent(rest[1..][LeadingDigits(rest[1..])..]))
    ensures NumericAlphabetOnly(s)
  {
    var k := LeadingDigits(s);
    if IsOptionalExponent(s[k..]) {
      DigitsThenExponentAlphabet(s);
    } else {
      FractionAlphabet(s[k..]);
      DigitsAlphabet(s[..k]);
      assert s == s[..k] + s[k..];
      AlphabetConcat(s[..k], s[k..]);
    }
  }

  /** Every character of an unsigned decimal literal is in the numeric alphabet. */
  lemma UnsignedDecimalAlphabet(s: string)
    requires IsUnsignedDecimal(s)
    ensures NumericAlphabetOnly(s)
  {
    if s != "Infinity" {
      DigitsThenRestAlphabet(s);
    }
  }

  /** Every character of a numeric literal is in the numeric alphabet. */
  lemma {:induction false} NumericLiteralAlphabet(s: string)
    requires IsNumericLiteral(s)
    ensures NumericAlphabetOnly(s)
  {
    if IsNonDecimalInteger(s) {
    } else if IsUnsignedDecimal(s) {
      UnsignedDecimalAlphabet(s);
    } else {
      UnsignedDecimalAlphabet(s[1..]);
      assert s == [s[0]] + s[1..];
      AlphabetConcat([s[0]], s[1..]);
    }
  }

  /** Text holding a character that no numeric literal uses converts to NaN,
      never to `null` and never to a number. */
  lemma ForeignCharacterIsNaN(s: string, i: nat)
    requires i < |Trim(s)| && !InNumericAlphabet(Trim(s)[i])
    ensures ToNumber(s) == NaN
  {
    if IsNumericLiteral(Trim(s)) {
      NumericLiteralAlphabet(Trim(s));
    }
  }

  /** Text that is, after trimming, a run of at most 15 digits converts to its decimal value. */
  lemma DigitsConvertExactly(s: string)
    requires var t := Trim(s); 0 < |t| <= 15 && AllDigits(t)
    ensures ToNumber(s) == IntegerValue(DigitsValue(Trim(s)))
  {
    var t := Trim(s);
    DigitsAreNumeric(t);
    DigitsValueBound(t);
  }

  /** A run of n digits is below 10^n. */
  lemma {:induction false} DigitsValueBound(t: string)
    requires AllDigits(t) && |t| <= 15
    ensures DigitsValue(t) < Pow10(|t|) <= 1_000_000_000_000_000
  {
    if |t| > 0 {
      DigitsValueBound(t[..|t| - 1]);
    }
    Pow10Monotone(|t|, 15);
    Pow10Fifteen();
  }

  lemma Pow10Fifteen()
    ensures Pow10(15) == 1_000_000_000_000_000
  {
    assert Pow10(3) == 1000;
    assert Pow10(6) == 1000_000;
    assert Pow10(9) == 1000_000_000;
    assert Pow10(12) == 1000_000_000_000;
  }

  function Pow10(n: nat): nat {
    if n == 0 then 1 else 10 * Pow10(n - 1)
  }

  lemma {:induction false} Pow10Monotone(m: nat, n: nat)
    requires m <= n
    ensures Pow10(m) <= Pow10(n)
    decreases n
  {
    if m < n {
      Pow10Monotone(m, n - 1);
    }
  }
}
