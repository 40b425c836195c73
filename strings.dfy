// Character classes and decimal text as .NET has them for the characters
// this interpreter meets: the lexer sees bytes widened to chars (0..255,
// Latin-1), and StringIO input is a sequence of Unicode scalar values.
module Strings {
  import opened Int32

  /** Char.IsDigit on 0..255: only the ASCII digits. */
  predicate IsDigit(c: char) {
    '0' <= c <= '9'
  }

  /** Char.IsLetter on 0..255 (exact for Latin-1; the lexer sees nothing above 255). */
  predicate IsLetter(c: char) {
    ('A' <= c <= 'Z') || ('a' <= c <= 'z')
    || c == 0xAA as char || c == 0xB5 as char || c == 0xBA as char
    || (0xC0 as char <= c <= 0xD6 as char)
    || (0xD8 as char <= c <= 0xF6 as char)
    || (0xF8 as char <= c <= 0xFF as char)
  }

  predicate IsLetterOrDigit(c: char) {
    IsLetter(c) || IsDigit(c)
  }

  /** Char.IsWhiteSpace: the separators of categories Zs, Zl and Zp, plus
    * U+0009..U+000D, U+0085 and U+00A0. */
  predicate IsWhiteSpace(c: char) {
    (0x09 as char <= c <= 0x0D as char) || c == ' ' || c == 0x85 as char || c == 0xA0 as char
    || c == 0x1680 as char || (0x2000 as char <= c <= 0x200A as char)
    || c == 0x2028 as char || c == 0x2029 as char || c == 0x202F as char
    || c == 0x205F as char || c == 0x3000 as char
  }

  predicate AllDigits(s: string) {
    forall k :: 0 <= k < |s| ==> IsDigit(s[k])
  }

  function DigitChar(d: nat): (c: char)
    requires d < 10
    ensures IsDigit(c)
  {
    ('0' as int + d) as char
  }

  function DigitValue(c: char): (d: nat)
    requires IsDigit(c)
    ensures d < 10
  {
    c as int - '0' as int
  }

  /** The number a string of decimal digits denotes. */
  function DigitsValue(s: string): nat
    requires AllDigits(s)
  {
    if s == [] then 0 else DigitsValue(s[..|s| - 1]) * 10 + DigitValue(s[|s| - 1])
  }

  /** Decimal rendering of a natural number, without leading zeros. */
  function NatToString(n: nat): (s: string)
    ensures |s| >= 1 && AllDigits(s)
    ensures s[0] == '0' ==> n == 0
  {
    if n < 10 then [DigitChar(n)] else NatToString(n / 10) + [DigitChar(n % 10)]
  }

  /** `int.ToString()`: a '-' sign, then the digits of the magnitude. */
  function IntToString(n: int): string {
    if n < 0 then "-" + NatToString(-n) else NatToString(n)
  }

  lemma {:induction false} NatToStringValue(n: nat)
    ensures DigitsValue(NatToString(n)) == n
  {
    if n >= 10 {
      NatToStringValue(n / 10);
      var s := NatToString(n);
      assert s[..|s| - 1] == NatToString(n / 10);
    }
  }

  datatype ParseOutcome = Parsed(value: int32) | FormatFailure | OverflowFailure

  /** `int.Parse` / `int.TryParse` on a string with no white space: an optional
    * sign, then one or more ASCII digits, then any number of '\0' characters,
    * which .NET's number parser ignores at the end; a value outside int32
    * overflows. */
  function ParseInt32(s: string): (r: ParseOutcome)
    ensures r.Parsed? && AllDigits(s) ==> r.value as int == DigitsValue(s)
    ensures r.FormatFailure? <==> ParseDigits(TrimNuls(s)) == [] || !AllDigits(ParseDigits(TrimNuls(s)))
  {
    var core := TrimNuls(s);
    var digits := ParseDigits(core);
    if digits == [] || !AllDigits(digits) then FormatFailure
    else
      var v: int := if |core| > 0 && core[0] == '-' then -(DigitsValue(digits) as int) else DigitsValue(digits);
      if Min <= v <= Max then Parsed(v as int32) else OverflowFailure
  }

  /** The string without its trailing '\0' characters. */
  function TrimNuls(s: string): (t: string)
    ensures |t| <= |s| && t == s[..|t|]
    ensures forall k :: |t| <= k < |s| ==> s[k] == '\0'
    ensures t == [] || t[|t| - 1] != '\0'
  {
    if |s| > 0 && s[|s| - 1] == '\0' then TrimNuls(s[..|s| - 1]) else s
  }

  /** A string that does not end in '\0' has nothing to trim. */
  lemma TrimNulsKeeps(s: string)
    requires s == [] || s[|s| - 1] != '\0'
    ensures TrimNuls(s) == s
  {
  }

  /** A '\0' after a token does not change what it parses to. */
  lemma NulSuffixIgnored(s: string)
    ensures ParseInt32(s + ['\0']) == ParseInt32(s)
  {
    assert (s + ['\0'])[..|s|] == s;
  }

  /** What follows the optional sign. */
  function ParseDigits(s: string): (d: string)
    ensures |d| <= |s| && d == s[|s| - |d|..]
  {
    if |s| > 0 && (s[0] == '-' || s[0] == '+') then s[1..] else s
  }

  /** Printing a number and parsing the text back gives the number again. */
  lemma IntToStringRoundTrip(v: int32)
    ensures ParseInt32(IntToString(v as int)) == Parsed(v)
  {
    var s := IntToString(v as int);
    TrimNulsKeeps(s);
    if v < 0 {
      assert ParseDigits(s) == NatToString(-(v as int));
      NatToStringValue(-(v as int));
    } else {
      NatToStringValue(v as int);
    }
  }

  /** A run of digits parses exactly when its value fits in an int32. */
  lemma DigitRunParses(s: string)
    requires s != [] && AllDigits(s)
    ensures ParseInt32(s).Parsed? <==> DigitsValue(s) <= Max
    ensures ParseInt32(s).Parsed? || ParseInt32(s).OverflowFailure?
  {
    assert IsDigit(s[|s| - 1]) && IsDigit(s[0]);
    TrimNulsKeeps(s);
    assert ParseDigits(s) == s;
  }
}
