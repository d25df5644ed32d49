/** Text helpers standing in for the JavaScript string built-ins the source relies on:
    `startsWith`, `trim`, `toLowerCase`, number-to-string in template literals and `parseInt`. */
module Strings {
  import opened Wrappers

  predicate StartsWith(s: string, prefix: string) {
    |prefix| <= |s| && s[..|prefix|] == prefix
  }

  /** The characters `String.prototype.trim` removes: the white space of section 12.2 of
      ECMA-262 (tab, vertical tab, form feed, space, no-break space, the byte order mark and
      every other space separator of Unicode category Zs) and the line terminators of
      section 12.3 (line feed, carriage return, line and paragraph separator). */
  predicate IsSpace(c: char) {
    c == ' ' || c == '\t' || c == '\n' || c == '\r' || c == '\U{B}' || c == '\U{C}'
    || c == '\U{A0}' || c == '\U{2028}' || c == '\U{2029}' || c == '\U{FEFF}'
    || c == '\U{1680}' || '\U{2000}' <= c <= '\U{200A}' || c == '\U{202F}'
    || c == '\U{205F}' || c == '\U{3000}'
  }

  function TrimStart(s: string): string {
    if s != [] && IsSpace(s[0]) then TrimStart(s[1..]) else s
  }

  function TrimEnd(s: string): string {
    if s != [] && IsSpace(s[|s| - 1]) then TrimEnd(s[..|s| - 1]) else s
  }

  /** Trimming the front leaves a suffix that starts with a visible character, having
      dropped only white space. */
  lemma {:induction false} TrimStartSuffix(s: string)
    ensures var r := TrimStart(s);
      && |r| <= |s| && r == s[|s| - |r|..]
      && (r != [] ==> !IsSpace(r[0]))
      && forall i :: 0 <= i < |s| - |r| ==> IsSpace(s[i])
  {
    if s != [] && IsSpace(s[0]) {
      var t := s[1..];
      TrimStartSuffix(t);
      var r := TrimStart(t);
      assert TrimStart(s) == r;
      assert t[|t| - |r|..] == s[|s| - |r|..];
      forall i | 0 <= i < |s| - |r| ensures IsSpace(s[i]) {
        if i > 0 {
          assert s[i] == t[i - 1];
        }
      }
    }
  }

  /** Trimming the end leaves a prefix that ends with a visible character, having dropped
      only white space. */
  lemma {:induction false} TrimEndPrefix(s: string)
    ensures var r := TrimEnd(s);
      && |r| <= |s| && r == s[..|r|]
      && (r != [] ==> !IsSpace(r[|r| - 1]))
      && forall i :: |r| <= i < |s| ==> IsSpace(s[i])
  {
    if s != [] && IsSpace(s[|s| - 1]) {
      var t := s[..|s| - 1];
      TrimEndPrefix(t);
      var r := TrimEnd(t);
      assert TrimEnd(s) == r;
      assert t[..|r|] == s[..|r|];
      forall i | |r| <= i < |s| ensures IsSpace(s[i]) {
        if i < |t| {
          assert s[i] == t[i];
        }
      }
    }
  }

  /** `s.trim()` */
  function Trim(s: string): string {
    TrimEnd(TrimStart(s))
  }

  predicate IsBlank(s: string) {
    forall i :: 0 <= i < |s| ==> IsSpace(s[i])
  }

  /** `s.trim() === ''` holds exactly for strings made only of white space, and a
      non-empty trimmed string starts and ends with a visible character. */
  lemma TrimEmptyIffBlank(s: string)
    ensures Trim(s) == "" <==> IsBlank(s)
    ensures Trim(s) != "" ==> !IsSpace(Trim(s)[0]) && !IsSpace(Trim(s)[|Trim(s)| - 1])
  {
    var t := TrimStart(s);
    TrimStartSuffix(s);
    TrimEndPrefix(t);
    if Trim(s) == "" {
      assert t == [];
    } else {
      var r := Trim(s);
      assert r == t[..|r|];
      assert !IsSpace(r[0]);
      var k := |s| - |t|;
      assert s[k] == t[0] == r[0];
    }
  }

  function ToLowerAscii(s: string): (r: string)
    ensures |r| == |s|
    ensures forall i :: 0 <= i < |s| ==> r[i] == LowerChar(s[i])
  {
    if s == [] then [] else [LowerChar(s[0])] + ToLowerAscii(s[1..])
  }

  function LowerChar(c: char): char {
    if 'A' <= c <= 'Z' then (c as int + 32) as char else c
  }

  predicate IsDigit(c: char) {
    '0' <= c <= '9'
  }

  predicate AllDigits(s: string) {
    forall i :: 0 <= i < |s| ==> IsDigit(s[i])
  }

  function DigitChar(d: nat): (c: char)
    requires d < 10
    ensures IsDigit(c) && c as int - '0' as int == d
  {
    ('0' as int + d) as char
  }

  /** The decimal text of a natural number, as a template literal prints it. */
  function NatToDecimal(n: nat): (r: string)
    ensures |r| > 0 && AllDigits(r)
    ensures n > 0 ==> r[0] != '0'
  {
    if n < 10 then [DigitChar(n)] else NatToDecimal(n / 10) + [DigitChar(n % 10)]
  }

  /** The decimal text of an integer, with a leading minus sign when negative. */
  function IntToDecimal(i: int): string {
    if i < 0 then "-" + NatToDecimal(-i) else NatToDecimal(i)
  }

  function DecimalValue(s: string): nat
    requires AllDigits(s)
  {
    if s == [] then 0 else 10 * DecimalValue(s[..|s| - 1]) + (s[|s| - 1] as int - '0' as int)
  }

  lemma {:induction false} DecimalRoundTrip(n: nat)
    ensures DecimalValue(NatToDecimal(n)) == n
  {
    if n >= 10 {
      DecimalRoundTrip(n / 10);
      var r := NatToDecimal(n);
      assert r[..|r| - 1] == NatToDecimal(n / 10);
    }
  }

  /** Different numbers are printed differently. */
  lemma IntToDecimalInjective(a: int, b: int)
    requires IntToDecimal(a) == IntToDecimal(b)
    ensures a == b
  {
    var sa, sb := IntToDecimal(a), IntToDecimal(b);
    if a < 0 {
      assert NatToDecimal(-a) == sa[1..] == sb[1..] == NatToDecimal(-b);
      DecimalRoundTrip(-a);
      DecimalRoundTrip(-b);
    } else {
      assert b >= 0;
      DecimalRoundTrip(a);
      DecimalRoundTrip(b);
    }
  }

  /** Length of the run of decimal digits at the front of `s`. */
  function DigitRun(s: string): (k: nat)
    ensures k <= |s| && AllDigits(s[..k])
    ensures k < |s| ==> !IsDigit(s[k])
  {
    if s != [] && IsDigit(s[0]) then
      var k := 1 + DigitRun(s[1..]);
      assert s[..k] == [s[0]] + s[1..][..k - 1];
      k
    else 0
  }

  /** `parseInt(s)` with no radix, on decimal text: leading white space is skipped, one
      optional sign is read, then the longest run of decimal digits; no digits gives NaN,
      written `None`. The hexadecimal reading `parseInt` gives a `0x` prefix is not
      modelled: its one caller reads a number input, whose value is decimal. */
  function ParseInt(s: string): Option<int> {
    var t := TrimStart(s);
    var negative := t != [] && t[0] == '-';
    var body := if t != [] && (t[0] == '-' || t[0] == '+') then t[1..] else t;
    var k := DigitRun(body);
    if k == 0 then None
    else if negative then Some(-(DecimalValue(body[..k]) as int))
    else Some(DecimalValue(body[..k]) as int)
  }

  lemma AllDigitsRun(s: string)
    requires AllDigits(s)
    ensures DigitRun(s) == |s|
  {
  }

  /** Printing a number and parsing it back gives the number. */
  lemma ParseIntOfDecimal(n: nat)
    ensures ParseInt(NatToDecimal(n)) == Some(n)
  {
    var s := NatToDecimal(n);
    assert !IsSpace(s[0]) && s[0] != '-' && s[0] != '+';
    assert TrimStart(s) == s;
    AllDigitsRun(s);
    assert s[..|s|] == s;
    DecimalRoundTrip(n);
  }

  /** The digit run of a text that starts with a string of digits covers exactly those
      digits when the next character is not one. */
  lemma {:induction false} DigitRunOfPrefix(d: string, rest: string)
    requires AllDigits(d)
    requires rest == [] || !IsDigit(rest[0])
    ensures DigitRun(d + rest) == |d|
  {
    if d != [] {
      assert (d + rest)[1..] == d[1..] + rest;
      DigitRunOfPrefix(d[1..], rest);
    }
  }

  lemma TrimStartOfVisible(s: string)
    requires s != [] && !IsSpace(s[0])
    ensures TrimStart(s) == s
  {
  }

  /** Digits followed by a non-digit: `parseInt` reads exactly the digits. */
  lemma ParseDigitsPrefix(d: string, rest: string)
    requires d != [] && AllDigits(d)
    requires rest == [] || !IsDigit(rest[0])
    ensures ParseInt(d + rest) == Some(DecimalValue(d) as int)
  {
    var s := d + rest;
    assert IsDigit(s[0]);
    TrimStartOfVisible(s);
    DigitRunOfPrefix(d, rest);
    assert s[..|d|] == d;
  }

  /** After a leading minus sign `parseInt` reads the digit run that follows, negated. */
  lemma ParseAfterMinus(m: string, k: nat)
    requires m != [] && m[0] == '-'
    requires k == DigitRun(m[1..]) && k > 0
    ensures ParseInt(m) == Some(-(DecimalValue(m[1..][..k]) as int))
  {
    TrimStartOfVisible(m);
  }

  /** A minus sign, digits, then a non-digit: `parseInt` reads the negated digits. */
  lemma ParseNegativeDigitsPrefix(d: string, rest: string)
    requires d != [] && AllDigits(d)
    requires rest == [] || !IsDigit(rest[0])
    ensures ParseInt("-" + d + rest) == Some(-(DecimalValue(d) as int))
  {
    var m := "-" + d + rest;
    assert m[1..] == d + rest;
    DigitRunOfPrefix(d, rest);
    assert m[1..][..|d|] == d;
    ParseAfterMinus(m, |d|);
  }

  /** `parseInt` stops at the first character that is not a digit, so an integer printed
      at the front of a text reads back from it, sign included. */
  lemma ParseIntOfDecimalPrefix(i: int, rest: string)
    requires rest == [] || !IsDigit(rest[0])
    ensures ParseInt(IntToDecimal(i) + rest) == Some(i)
  {
    if i < 0 {
      ParseNegativeDigitsPrefix(NatToDecimal(-i), rest);
      DecimalRoundTrip(-i);
    } else {
      ParseDigitsPrefix(NatToDecimal(i), rest);
      DecimalRoundTrip(i);
    }
  }

  /** Index of the last occurrence of `c` in `s`, or -1. */
  function LastIndexOf(s: string, c: char): (i: int)
    ensures -1 <= i < |s|
    ensures i >= 0 ==> s[i] == c
    ensures forall j :: i < j < |s| ==> s[j] != c
  {
    if s == [] then -1
    else if s[|s| - 1] == c then |s| - 1
    else LastIndexOf(s[..|s| - 1], c)
  }
}
