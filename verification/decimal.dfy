/**
 * Decimal text for natural numbers: the digit strings the model uses for
 * timestamps inside a serialised payload and for field lengths, and the
 * leading-integer reading that JavaScript's `parseInt` performs.
 */
module Decimal {
  import opened Wrappers

  predicate IsDigit(c: char) { '0' <= c <= '9' }

  predicate AllDigits(s: string) { forall i :: 0 <= i < |s| ==> IsDigit(s[i]) }

  function DigitValue(c: char): (d: nat)
    requires IsDigit(c)
    ensures d < 10
  {
    c as int - '0' as int
  }

  function DigitChar(d: nat): (c: char)
    requires d < 10
    ensures IsDigit(c) && DigitValue(c) == d
  {
    ('0' as int + d) as char
  }

  /** The shortest decimal numeral of `n` (no leading zeros). */
  function FromNat(n: nat): (s: string)
    ensures |s| > 0 && AllDigits(s)
    ensures |s| > 1 ==> s[0] != '0'
    decreases n
  {
    if n < 10 then [DigitChar(n)] else FromNat(n / 10) + [DigitChar(n % 10)]
  }

  /** The value of a string of decimal digits, most significant first. */
  function ValueOf(s: string): nat
    requires AllDigits(s)
  {
    if s == [] then 0 else ValueOf(s[..|s| - 1]) * 10 + DigitValue(s[|s| - 1])
  }

  /** Reads a whole string as a decimal natural number; fails on anything else. */
  function ParseNat(s: string): (r: Option<nat>)
    ensures r.Some? <==> |s| > 0 && AllDigits(s)
  {
    if |s| > 0 && AllDigits(s) then Some(ValueOf(s)) else None
  }

  lemma {:induction false} ValueOfFromNat(n: nat)
    ensures ValueOf(FromNat(n)) == n
    decreases n
  {
    if n >= 10 {
      var s := FromNat(n);
      assert s[..|s| - 1] == FromNat(n / 10);
      ValueOfFromNat(n / 10);
    }
  }

  /** Decimal printing and parsing are inverse. */
  lemma ParseFromNat(n: nat)
    ensures ParseNat(FromNat(n)) == Some(n)
  {
    ValueOfFromNat(n);
  }

  /** The longest prefix of `s` made of decimal digits. */
  function LeadingDigits(s: string): (p: string)
    ensures p <= s && AllDigits(p)
    ensures |p| < |s| ==> !IsDigit(s[|p|])
  {
    if s == [] || !IsDigit(s[0]) then [] else [s[0]] + LeadingDigits(s[1..])
  }

  /** The characters `parseInt` skips before a number. */
  predicate IsSpace(c: char) { c == ' ' || c == '\t' || c == '\n' || c == '\r' || c as int == 11 || c as int == 12 }

  function SkipSpaces(s: string): (t: string)
    ensures |t| <= |s|
    ensures t == [] || !IsSpace(t[0])
  {
    if s != [] && IsSpace(s[0]) then SkipSpaces(s[1..]) else s
  }

  /** The text `parseInt` reads its digits from: after leading white space and one optional sign. */
  function NumberBody(s: string): (body: string)
    ensures |body| <= |s|
  {
    var t := SkipSpaces(s);
    if t != [] && (t[0] == '-' || t[0] == '+') then t[1..] else t
  }

  /**
   * JavaScript `parseInt(s)` in base 10: skip leading white space, read an
   * optional sign, then the longest run of decimal digits; `None` stands for
   * `NaN`, the result when no digit follows.
   */
  function ParseInt(s: string): (r: Option<int>)
    ensures r.None? <==> LeadingDigits(NumberBody(s)) == []
    ensures var t := SkipSpaces(s); t == [] || (!IsDigit(t[0]) && t[0] != '-' && t[0] != '+') ==> r.None?
    ensures r.Some? && r.value < 0 ==> SkipSpaces(s)[0] == '-'
  {
    ParseSigned(SkipSpaces(s))
  }

  /** `parseInt` after the white space: an optional sign, then the leading digits. */
  function ParseSigned(t: string): Option<int>
  {
    var body := if t != [] && (t[0] == '-' || t[0] == '+') then t[1..] else t;
    var digits := LeadingDigits(body);
    if digits == [] then None
    else if t[0] == '-' then Some(-(ValueOf(digits) as int))
    else Some(ValueOf(digits))
  }

  /** White space in front of a number does not change what `parseInt` reads. */
  lemma ParseIntSkipsSpace(c: char, s: string)
    requires IsSpace(c)
    ensures ParseInt([c] + s) == ParseInt(s)
  {
    assert ([c] + s)[1..] == s;
    assert SkipSpaces([c] + s) == SkipSpaces(s);
  }

  /** `parseInt` of `-` and a numeral followed by a non-digit is the numeral's value negated. */
  lemma ParseIntOfNegativeNumeral(n: nat, rest: string)
    requires rest == [] || !IsDigit(rest[0])
    ensures ParseInt("-" + FromNat(n) + rest) == Some(-(n as int))
  {
    var d := FromNat(n);
    var s := "-" + d + rest;
    assert s[1..] == d + rest;
    LeadingDigitsOfPrefix(d, rest);
    assert LeadingDigits(s[1..]) == d;
    ValueOfFromNat(n);
    ParseIntOfSign(s);
  }

  /** After a leading `-`, `parseInt` negates the value of the digits that follow. */
  lemma ParseIntOfSign(s: string)
    requires s != [] && s[0] == '-' && LeadingDigits(s[1..]) != []
    ensures ParseInt(s) == Some(-(ValueOf(LeadingDigits(s[1..])) as int))
  {
    assert SkipSpaces(s) == s by { assert !IsSpace(s[0]); }
    ParseSignedNegative(s);
  }

  lemma ParseSignedNegative(t: string)
    requires t != [] && t[0] == '-' && LeadingDigits(t[1..]) != []
    ensures ParseSigned(t) == Some(-(ValueOf(LeadingDigits(t[1..])) as int))
  {
  }

  /** `parseInt` of a numeral followed by text that does not start with a digit gives the numeral's value. */
  lemma {:induction false} ParseIntOfNumeral(n: nat, rest: string)
    requires rest == [] || !IsDigit(rest[0])
    ensures ParseInt(FromNat(n) + rest) == Some(n)
  {
    var s := FromNat(n) + rest;
    assert !IsSpace(s[0]) && s[0] != '-' && s[0] != '+' by { assert IsDigit(s[0]); }
    assert SkipSpaces(s) == s;
    LeadingDigitsOfPrefix(FromNat(n), rest);
    ValueOfFromNat(n);
  }

  lemma {:induction false} LeadingDigitsOfPrefix(p: string, rest: string)
    requires AllDigits(p)
    requires rest == [] || !IsDigit(rest[0])
    ensures LeadingDigits(p + rest) == p
    decreases |p|
  {
    if p != [] {
      assert (p + rest)[1..] == p[1..] + rest;
      LeadingDigitsOfPrefix(p[1..], rest);
    } else {
      assert p + rest == rest;
    }
  }
}
