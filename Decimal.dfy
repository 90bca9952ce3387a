/** The two number conversions the cache relies on for its expiry records:
    JavaScript's Number.prototype.toString on integers (decimal, with a
    leading '-' for negatives) and parseInt(s, 10), which skips leading
    white space, reads an optional sign and then the longest run of decimal
    digits, giving NaN (here None) when there are no digits. */
module Decimal {
  import opened Wrappers

  predicate IsDigit(c: char) {
    '0' <= c <= '9'
  }

  predicate AllDigits(s: string) {
    forall i :: 0 <= i < |s| ==> IsDigit(s[i])
  }

  /** The characters JavaScript's StrWhiteSpaceChar admits: white space and
      line terminators. */
  predicate IsJsWhitespace(c: char) {
    c == ' ' || c == '\t' || c == '\n' || c == '\r' || c == '\U{000B}' || c == '\U{000C}'
    || c == '\U{00A0}' || c == '\U{1680}' || ('\U{2000}' <= c <= '\U{200A}')
    || c == '\U{2028}' || c == '\U{2029}' || c == '\U{202F}' || c == '\U{205F}'
    || c == '\U{3000}' || c == '\U{FEFF}'
  }

  function DigitChar(d: nat): (c: char)
    requires d < 10
    ensures IsDigit(c) && c as int - '0' as int == d
  {
    ('0' as int + d) as char
  }

  function DigitValue(c: char): (d: nat)
    requires IsDigit(c)
    ensures d < 10 && DigitChar(d) == c
  {
    c as int - '0' as int
  }

  /** The number a string of decimal digits denotes, most significant first. */
  function DigitsValue(s: string): nat
    requires AllDigits(s)
  {
    if s == [] then 0 else 10 * DigitsValue(s[..|s| - 1]) + DigitValue(s[|s| - 1])
  }

  /** Number.prototype.toString for a natural number: canonical decimal,
      no leading zero except for zero itself. */
  function NatToDecimal(n: nat): (r: string)
    ensures |r| >= 1 && AllDigits(r) && DigitsValue(r) == n
    ensures r[0] == '0' <==> n == 0
    ensures n == 0 ==> r == "0"
  {
    if n < 10 then [DigitChar(n)]
    else
      var prefix := NatToDecimal(n / 10);
      var r := prefix + [DigitChar(n % 10)];
      assert r[..|r| - 1] == prefix;
      r
  }

  /** Number.prototype.toString for an integer. */
  function IntToDecimal(i: int): (r: string)
    ensures i >= 0 ==> |r| >= 1 && AllDigits(r) && DigitsValue(r) == i && (r[0] == '0' ==> r == "0")
    ensures i < 0 ==> |r| >= 2 && r[0] == '-' && AllDigits(r[1..]) && DigitsValue(r[1..]) == -i && r[1] != '0'
  {
    if i < 0 then "-" + NatToDecimal(-i) else NatToDecimal(i)
  }

  /** The string with its leading JavaScript white space removed. */
  function TrimStart(s: string): (r: string)
    ensures |r| <= |s| && r == s[|s| - |r|..]
    ensures r == [] || !IsJsWhitespace(r[0])
    ensures forall i :: 0 <= i < |s| - |r| ==> IsJsWhitespace(s[i])
  {
    if s != [] && IsJsWhitespace(s[0]) then TrimStart(s[1..]) else s
  }

  /** The longest prefix of s made of decimal digits. */
  function DigitPrefix(s: string): (r: string)
    ensures |r| <= |s| && r == s[..|r|] && AllDigits(r)
    ensures |r| < |s| ==> !IsDigit(s[|r|])
  {
    if s != [] && IsDigit(s[0]) then
      var rest := DigitPrefix(s[1..]);
      assert s[1..][..|rest|] == s[1..|rest| + 1];
      [s[0]] + rest
    else []
  }

  /** The number the leading digit run of u denotes, None when there is none. */
  function ReadDigits(u: string): Option<int> {
    var digits := DigitPrefix(u);
    if digits == [] then None else Some(DigitsValue(digits))
  }

  /** An optional sign, then the leading digit run. */
  function ReadSigned(t: string): Option<int> {
    if t != [] && t[0] == '-' then
      match ReadDigits(t[1..])
      case None => None
      case Some(n) => Some(-n)
    else if t != [] && t[0] == '+' then ReadDigits(t[1..])
    else ReadDigits(t)
  }

  /** parseInt(s, 10): None is NaN. A string without any digit, the empty
      string among them, is NaN. */
  function ParseInt(s: string): (r: Option<int>)
    ensures (forall i :: 0 <= i < |s| ==> !IsDigit(s[i])) ==> r == None
  {
    var t := TrimStart(s);
    assert forall i :: 0 <= i < |t| ==> t[i] == s[|s| - |t| + i];
    ReadSigned(t)
  }

  /** A string of digits followed by nothing or by a non-digit has that
      string as its digit prefix. */
  lemma {:induction false} DigitPrefixOfDigitsThen(d: string, rest: string)
    requires AllDigits(d)
    requires rest == [] || !IsDigit(rest[0])
    ensures DigitPrefix(d + rest) == d
  {
    if d != [] {
      assert (d + rest)[1..] == d[1..] + rest;
      DigitPrefixOfDigitsThen(d[1..], rest);
    }
  }

  /** A string that does not start with white space is its own trim. */
  lemma TrimStartUnchanged(s: string)
    requires s != [] && !IsJsWhitespace(s[0])
    ensures TrimStart(s) == s
  {
  }

  /** A run of digits followed by nothing or by a non-digit is read as
      exactly those digits. */
  lemma ReadDigitsThen(d: string, rest: string)
    requires d != [] && AllDigits(d)
    requires rest == [] || !IsDigit(rest[0])
    ensures ReadDigits(d + rest) == Some(DigitsValue(d))
  {
    DigitPrefixOfDigitsThen(d, rest);
  }

  /** parseInt of a run of digits followed by nothing or by a non-digit. */
  lemma ParseIntOfDigitsThen(d: string, rest: string)
    requires d != [] && AllDigits(d)
    requires rest == [] || !IsDigit(rest[0])
    ensures ParseInt(d + rest) == Some(DigitsValue(d))
  {
    assert (d + rest)[0] == d[0];
    TrimStartUnchanged(d + rest);
    ReadDigitsThen(d, rest);
  }

  /** parseInt of a string that starts with '-' negates the digit run after it. */
  lemma ParseIntMinus(s: string)
    requires s != [] && s[0] == '-'
    ensures ParseInt(s) == (match ReadDigits(s[1..]) case None => None case Some(n) => Some(-n))
  {
    TrimStartUnchanged(s);
  }

  /** parseInt of '-', a run of digits, then nothing or a non-digit, stated
      of any string of that shape. */
  lemma ParseIntOfNegated(s: string, d: string, rest: string)
    requires d != [] && AllDigits(d)
    requires rest == [] || !IsDigit(rest[0])
    requires s != [] && s[0] == '-' && s[1..] == d + rest
    ensures ParseInt(s) == Some(-(DigitsValue(d) as int))
  {
    ParseIntMinus(s);
    ReadDigitsThen(d, rest);
  }

  /** parseInt of '-', a run of digits, then nothing or a non-digit. */
  lemma ParseIntOfNegatedDigitsThen(d: string, rest: string)
    requires d != [] && AllDigits(d)
    requires rest == [] || !IsDigit(rest[0])
    ensures ParseInt("-" + d + rest) == Some(-(DigitsValue(d) as int))
  {
    var u := d + rest;
    assert ("-" + u)[0] == '-' && ("-" + u)[1..] == u;
    assert "-" + d + rest == "-" + u;
    ParseIntOfNegated("-" + u, d, rest);
  }

  /** parseInt reads back what toString writes, whatever non-digit text
      follows it. */
  lemma ParseIntOfDecimalThen(i: int, rest: string)
    requires rest == [] || !IsDigit(rest[0])
    ensures ParseInt(IntToDecimal(i) + rest) == Some(i)
  {
    if i < 0 {
      ParseIntOfNegatedDigitsThen(NatToDecimal(-i), rest);
    } else {
      ParseIntOfDigitsThen(NatToDecimal(i), rest);
    }
  }

  /** parseInt(n.toString(), 10) == n. */
  lemma ParseIntOfDecimal(i: int)
    ensures ParseInt(IntToDecimal(i)) == Some(i)
  {
    ParseIntOfDecimalThen(i, []);
    assert IntToDecimal(i) + [] == IntToDecimal(i);
  }
}
