/**
 * The two number/string conversions of JavaScript that the client relies on:
 * rendering a non-negative integer in decimal (as a template literal does) and
 * the global `parseInt` with no radix argument.
 */
module JsNumbers {
  import opened Common

  predicate IsDecimalDigit(c: char) {
    '0' <= c <= '9'
  }

  predicate IsHexDigit(c: char) {
    IsDecimalDigit(c) || 'a' <= c <= 'f' || 'A' <= c <= 'F'
  }

  /** A digit of the given radix (parseInt only ever uses 10 or 16 here). */
  predicate IsRadixDigit(c: char, radix: nat) {
    if radix == 16 then IsHexDigit(c) else IsDecimalDigit(c)
  }

  function DigitValue(c: char): (v: nat)
    ensures IsDecimalDigit(c) ==> v < 10
    ensures IsHexDigit(c) ==> v < 16
  {
    if IsDecimalDigit(c) then c as int - '0' as int
    else if 'a' <= c <= 'f' then c as int - 'a' as int + 10
    else if 'A' <= c <= 'F' then c as int - 'A' as int + 10
    else 0
  }

  function DigitChar(d: nat): (c: char)
    requires d < 10
    ensures IsDecimalDigit(c) && DigitValue(c) == d
  {
    ('0' as int + d) as char
  }

  predicate AllDecimalDigits(s: string) {
    forall i :: 0 <= i < |s| ==> IsDecimalDigit(s[i])
  }

  /** The decimal text of `n`, without sign or leading zeros. */
  function NatToString(n: nat): (s: string)
    ensures |s| >= 1 && AllDecimalDigits(s)
    ensures s[0] == '0' ==> n == 0 && s == "0"
  {
    if n < 10 then [DigitChar(n)] else NatToString(n / 10) + [DigitChar(n % 10)]
  }

  /** The value of a digit string read most significant digit first. */
  function DigitsValue(z: string, radix: nat): nat {
    if z == [] then 0 else DigitsValue(z[..|z| - 1], radix) * radix + DigitValue(z[|z| - 1])
  }

  /** WhiteSpace and LineTerminator code points, which parseInt skips at the front. */
  predicate IsJsWhiteSpace(c: char) {
    c == '\t' || c == '\n' || c == '\U{000B}' || c == '\U{000C}' || c == '\r' || c == ' '
    || c == '\U{00A0}' || c == '\U{1680}' || ('\U{2000}' <= c <= '\U{200A}')
    || c == '\U{2028}' || c == '\U{2029}' || c == '\U{202F}' || c == '\U{205F}'
    || c == '\U{3000}' || c == '\U{FEFF}'
  }

  function TrimStart(s: string): (r: string)
    ensures |r| <= |s| && r == s[|s| - |r|..]
    ensures r == [] || !IsJsWhiteSpace(r[0])
    ensures forall i :: 0 <= i < |s| - |r| ==> IsJsWhiteSpace(s[i])
  {
    if s != [] && IsJsWhiteSpace(s[0]) then TrimStart(s[1..]) else s
  }

  /** The length of the longest prefix of `s` made of digits of `radix`. */
  function DigitPrefixLength(s: string, radix: nat): (n: nat)
    ensures n <= |s|
    ensures forall i :: 0 <= i < n ==> IsRadixDigit(s[i], radix)
    ensures n < |s| ==> !IsRadixDigit(s[n], radix)
  {
    if s != [] && IsRadixDigit(s[0], radix) then 1 + DigitPrefixLength(s[1..], radix) else 0
  }

  /** The longest run of `radix` digits at the front of `v`, read as a number; None when there is none. */
  function ParseDigits(v: string, radix: nat): (r: Option<nat>)
    ensures r == None <==> (v == [] || !IsRadixDigit(v[0], radix))
  {
    var n := DigitPrefixLength(v, radix);
    if n == 0 then None else Some(DigitsValue(v[..n], radix))
  }

  /** An unsigned numeral: "0x"/"0X" switches to radix 16, anything else is read in radix 10. */
  function ParseUnsigned(u: string): Option<nat> {
    if |u| >= 2 && u[0] == '0' && (u[1] == 'x' || u[1] == 'X') then ParseDigits(u[2..], 16)
    else ParseDigits(u, 10)
  }

  /**
   * `parseInt(s)` with no radix: skip leading white space, take one optional
   * sign, read "0x"/"0X" as a switch to radix 16, then read the longest run of
   * digits. No digit at all gives NaN, written None. The sign of a zero
   * result is lost, which is harmless because -0 and 0 are both falsy.
   */
  function ParseInt(s: string): (r: Option<int>)
    ensures TrimStart(s) == [] ==> r == None
  {
    var t := TrimStart(s);
    if t != [] && t[0] == '-' then
      match ParseUnsigned(t[1..])
      case None => None
      case Some(m) => Some(0 - m)
    else if t != [] && t[0] == '+' then
      match ParseUnsigned(t[1..])
      case None => None
      case Some(m) => Some(m)
    else
      match ParseUnsigned(t)
      case None => None
      case Some(m) => Some(m)
  }

  lemma {:induction false} DigitsValueOfNatToString(n: nat)
    ensures DigitsValue(NatToString(n), 10) == n
  {
    var s := NatToString(n);
    if n >= 10 {
      DigitsValueOfNatToString(n / 10);
      assert s[..|s| - 1] == NatToString(n / 10);
    }
  }

  /** The digit run of a digit string followed by a non-digit ends where the digit string ends. */
  lemma {:induction false} DigitPrefixOfDigits(d: string, rest: string)
    requires AllDecimalDigits(d)
    requires rest == [] || !IsDecimalDigit(rest[0])
    ensures DigitPrefixLength(d + rest, 10) == |d|
  {
    if d == [] {
      assert d + rest == rest;
    } else {
      assert (d + rest)[1..] == d[1..] + rest;
      DigitPrefixOfDigits(d[1..], rest);
    }
  }

  /** The decimal text of `n`, followed by a non-digit, reads back as `n` in radix 10. */
  lemma ParseDigitsOfNatToString(n: nat, rest: string)
    requires rest == [] || !IsDecimalDigit(rest[0])
    ensures ParseDigits(NatToString(n) + rest, 10) == Some(n)
  {
    var d := NatToString(n);
    DigitPrefixOfDigits(d, rest);
    assert (d + rest)[..|d|] == d;
    DigitsValueOfNatToString(n);
  }

  /** The decimal text of `n` is never read as a hexadecimal numeral. */
  lemma ParseUnsignedOfNatToString(n: nat, rest: string)
    requires rest == [] || (!IsDecimalDigit(rest[0]) && rest[0] != 'x' && rest[0] != 'X')
    ensures ParseUnsigned(NatToString(n) + rest) == Some(n)
  {
    var d := NatToString(n);
    var s := d + rest;
    assert s[0] == d[0];
    if |s| >= 2 && s[0] == '0' {
      assert |d| == 1;
      assert s[1] == rest[0];
    }
    ParseDigitsOfNatToString(n, rest);
  }

  /**
   * Reading back the decimal text of `n`, followed by anything that does not
   * extend the digit run or switch the radix, gives `n`.
   */
  lemma ParseIntOfNatToString(n: nat, rest: string)
    requires rest == [] || (!IsDecimalDigit(rest[0]) && rest[0] != 'x' && rest[0] != 'X')
    ensures ParseInt(NatToString(n) + rest) == Some(n)
  {
    var d := NatToString(n);
    var s := d + rest;
    assert s[0] == d[0];
    DigitIsNotSpaceOrSign(s[0]);
    assert TrimStart(s) == s;
    ParseUnsignedOfNatToString(n, rest);
  }

  lemma DigitIsNotSpaceOrSign(c: char)
    requires IsDecimalDigit(c)
    ensures !IsJsWhiteSpace(c) && c != '-' && c != '+'
  {
  }

  /** A minus sign in front of a decimal text negates the parsed value. */
  lemma ParseIntOfNegated(n: nat)
    ensures ParseInt("-" + NatToString(n)) == Some(-(n as int))
  {
    var d := NatToString(n);
    var s := "-" + d;
    assert s[0] == '-' && s[1..] == d + [];
    assert TrimStart(s) == s;
    ParseUnsignedOfNatToString(n, []);
  }
}
