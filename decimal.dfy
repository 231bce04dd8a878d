/**
 * Decimal text of integers as the JavaScript runtime reads and writes it:
 * `parseInt(s, 10)` (section 18.2.5 of ECMAScript 2019) and the decimal form that
 * `Number.prototype.toString` and template literals give an integral Number.
 * Numbers are unbounded here; see README for the 2^53 precision limit.
 */
module Decimal {
  import opened Wrappers

  predicate IsDigit(c: char) {
    '0' <= c <= '9'
  }

  function DigitValue(c: char): (d: nat)
    requires IsDigit(c)
    ensures d < 10
  {
    (c as int) - ('0' as int)
  }

  function DigitChar(d: nat): (c: char)
    requires d < 10
    ensures IsDigit(c) && DigitValue(c) == d
  {
    (('0' as int) + d) as char
  }

  predicate AllDigits(s: string) {
    forall i :: 0 <= i < |s| ==> IsDigit(s[i])
  }

  /**
   * StrWhiteSpaceChar of section 7.1.3.1: the WhiteSpace code points of section 11.2
   * (TAB, VT, FF, SP, NBSP, ZWNBSP and the Unicode "Space_Separator" category) and the
   * LineTerminator code points of section 11.3 (LF, CR, LS, PS).
   */
  predicate IsStrWhiteSpace(c: char) {
    || c == '\t' || c == '\U{B}' || c == '\U{C}' || c == ' ' || c == '\U{A0}' || c == '\U{FEFF}'
    || c == '\U{1680}' || ('\U{2000}' <= c <= '\U{200A}') || c == '\U{202F}' || c == '\U{205F}'
    || c == '\U{3000}' || c == '\n' || c == '\r' || c == '\U{2028}' || c == '\U{2029}'
  }

  /** `s` without its leading white space (step 2 of parseInt). */
  function TrimStart(s: string): (r: string)
    ensures |r| <= |s| && r == s[|s| - |r|..]
    ensures |r| > 0 ==> !IsStrWhiteSpace(r[0])
    ensures forall i :: 0 <= i < |s| - |r| ==> IsStrWhiteSpace(s[i])
  {
    if |s| > 0 && IsStrWhiteSpace(s[0]) then TrimStart(s[1..]) else s
  }

  /** The longest prefix of `s` made of decimal digits (step 11 of parseInt). */
  function DigitPrefix(s: string): (r: string)
    ensures |r| <= |s| && r == s[..|r|]
    ensures AllDigits(r)
    ensures |r| < |s| ==> !IsDigit(s[|r|])
  {
    if |s| > 0 && IsDigit(s[0]) then [s[0]] + DigitPrefix(s[1..]) else []
  }

  /** The number a string of decimal digits denotes, most significant digit first. */
  function DigitsValue(s: string): nat
    requires AllDigits(s)
  {
    if |s| == 0 then 0 else DigitsValue(s[..|s| - 1]) * 10 + DigitValue(s[|s| - 1])
  }

  /**
   * `parseInt(s, 10)`: skip leading white space, take an optional sign, then the
   * longest run of decimal digits; no digit at all gives NaN, here `None`.
   */
  function ParseInt(s: string): (r: Option<int>)
    ensures TrimStart(s) == "" ==> r == None
    ensures |s| > 0 && AllDigits(s) ==> r == Some(DigitsValue(s))
    ensures |s| > 1 && s[0] == '-' && AllDigits(s[1..]) ==> r == Some(-(DigitsValue(s[1..]) as int))
  {
    if |s| > 0 && (IsDigit(s[0]) || s[0] == '-') then
      TrimStartStops(s);
      ParseSigned(TrimStart(s))
    else
      ParseSigned(TrimStart(s))
  }

  /** Steps 3 to 16 of parseInt, after the white space is gone. */
  function ParseSigned(t: string): (r: Option<int>)
    ensures |t| == 0 ==> r == None
    ensures |t| > 0 && AllDigits(t) ==> r == Some(DigitsValue(t))
    ensures |t| > 1 && t[0] == '-' && AllDigits(t[1..]) ==> r == Some(-(DigitsValue(t[1..]) as int))
  {
    if |t| > 0 && t[0] == '-' then
      match ParseDigits(t[1..])
      case None => None
      case Some(n) => Some(-n)
    else if |t| > 0 && t[0] == '+' then ParseDigits(t[1..])
    else ParseDigits(t)
  }

  /** The value of the leading run of digits of `u`, if it has one. */
  function ParseDigits(u: string): (r: Option<int>)
    ensures r.Some? <==> |u| > 0 && IsDigit(u[0])
    ensures r.Some? ==> r.value >= 0
    ensures |u| > 0 && AllDigits(u) ==> r == Some(DigitsValue(u))
  {
    var digits := DigitPrefix(u);
    if AllDigits(u) then
      DigitPrefixOfDigits(u, "");
      assert u + "" == u;
      if |digits| == 0 then None else Some(DigitsValue(digits))
    else
      if |digits| == 0 then None else Some(DigitsValue(digits))
  }

  /** Decimal form of a natural number: digits only, no leading zero. */
  function NatToString(n: nat): (r: string)
    ensures |r| > 0 && AllDigits(r)
    ensures r[0] == '0' ==> n == 0
  {
    if n < 10 then [DigitChar(n)] else NatToString(n / 10) + [DigitChar(n % 10)]
  }

  /** Decimal form of an integer, with a leading `-` when negative. */
  function IntToString(i: int): (r: string)
    ensures |r| > 0
    ensures i < 0 ==> |r| > 1 && r[0] == '-' && AllDigits(r[1..])
    ensures i >= 0 ==> AllDigits(r)
  {
    if i < 0 then "-" + NatToString(-i) else NatToString(i)
  }

  lemma {:induction false} NatToStringValue(n: nat)
    ensures DigitsValue(NatToString(n)) == n
  {
    if n >= 10 {
      NatToStringValue(n / 10);
      var s := NatToString(n);
      assert s[..|s| - 1] == NatToString(n / 10);
    }
  }

  lemma {:induction false} DigitPrefixOfDigits(d: string, rest: string)
    requires AllDigits(d)
    requires |rest| == 0 || !IsDigit(rest[0])
    ensures DigitPrefix(d + rest) == d
  {
    if |d| == 0 {
      assert d + rest == rest;
    } else {
      DigitPrefixOfDigits(d[1..], rest);
      assert (d + rest)[0] == d[0];
      assert (d + rest)[1..] == d[1..] + rest;
      assert d == [d[0]] + d[1..];
    }
  }

  /** A digit or a minus sign is not white space, so TrimStart keeps the text. */
  lemma TrimStartStops(s: string)
    requires |s| > 0 && (IsDigit(s[0]) || s[0] == '-')
    ensures TrimStart(s) == s
  {
    assert !IsStrWhiteSpace(s[0]);
  }

  /**
   * parseInt reads back what IntToString writes, and stops at the first character
   * after it that is not a digit.
   */
  lemma ParseIntOfIntToString(i: int, rest: string)
    requires |rest| == 0 || !IsDigit(rest[0])
    ensures ParseInt(IntToString(i) + rest) == Some(i)
  {
    if i < 0 {
      ParseNegative(-i, rest);
    } else {
      ParseNonNegative(i, rest);
    }
  }

  lemma ParseNonNegative(m: nat, rest: string)
    requires |rest| == 0 || !IsDigit(rest[0])
    ensures ParseInt(NatToString(m) + rest) == Some(m)
  {
    var d := NatToString(m);
    var s := d + rest;
    assert ParseDigits(s) == Some(m) by {
      NatToStringValue(m);
      DigitPrefixOfDigits(d, rest);
    }
    assert s[0] == d[0] && IsDigit(s[0]);
    TrimStartStops(s);
    assert ParseSigned(s) == ParseDigits(s);
  }

  lemma ParseNegative(m: nat, rest: string)
    requires m > 0
    requires |rest| == 0 || !IsDigit(rest[0])
    ensures ParseInt(IntToString(-(m as int)) + rest) == Some(-(m as int))
  {
    var d := NatToString(m);
    ParseDigitsOfNatToString(m, rest);
    assert IntToString(-(m as int)) + rest == "-" + (d + rest) by {
      assert IntToString(-(m as int)) == "-" + d;
    }
    ParseMinus(d + rest, m);
  }

  /** The digits of a count's decimal text, followed by a non-digit or nothing, read as the count. */
  lemma ParseDigitsOfNatToString(m: nat, rest: string)
    requires |rest| == 0 || !IsDigit(rest[0])
    ensures ParseDigits(NatToString(m) + rest) == Some(m)
  {
    NatToStringValue(m);
    DigitPrefixOfDigits(NatToString(m), rest);
  }

  /** A minus sign in front of digits that read as `m` reads as `-m`. */
  lemma ParseMinus(u: string, m: nat)
    requires ParseDigits(u) == Some(m)
    ensures ParseInt("-" + u) == Some(-(m as int))
  {
    var s := "-" + u;
    assert s[0] == '-' && s[1..] == u;
    TrimStartStops(s);
  }

  /** The decimal form determines the integer. */
  lemma IntToStringInjective(i: int, j: int)
    requires IntToString(i) == IntToString(j)
    ensures i == j
  {
    ParseIntOfIntToString(i, "");
    ParseIntOfIntToString(j, "");
    assert IntToString(i) + "" == IntToString(i);
    assert IntToString(j) + "" == IntToString(j);
  }

  /** A string with no digit after its white space and sign reads as NaN. */
  lemma ParseIntNoDigits(s: string)
    requires forall i :: 0 <= i < |s| ==> !IsDigit(s[i])
    ensures ParseInt(s) == None
  {
    var t := TrimStart(s);
    var u := if |t| > 0 && (t[0] == '-' || t[0] == '+') then t[1..] else t;
    if |u| > 0 {
      assert u[0] in s;
    }
    assert DigitPrefix(u) == [];
  }
}
