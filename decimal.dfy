/** Number.prototype.toString() (radix 10) on safe integers (magnitude below
    2^53), where it writes the exact decimal digits; every 32-bit value is one.
    Larger numbers, which toString writes with the shortest round-tripping
    digits or in exponent form, are not modelled. Also a parser for the
    strings it produces, so that the rendering can be shown lossless. */
module Decimal {
  predicate IsDigit(c: char) {
    '0' <= c <= '9'
  }

  predicate AllDigits(s: string) {
    forall k :: 0 <= k < |s| ==> IsDigit(s[k])
  }

  /** The shape toString gives a non-negative integer: digits, no leading zero
      except for "0" itself. */
  predicate IsNatLiteral(s: string) {
    |s| > 0 && AllDigits(s) && (s[0] == '0' ==> s == "0")
  }

  /** The shape toString gives any integer: a minus sign before the digits of
      a negative value, and no "-0". */
  predicate IsIntLiteral(s: string) {
    IsNatLiteral(s) || (|s| > 1 && s[0] == '-' && IsNatLiteral(s[1..]) && s[1..] != "0")
  }

  function DigitChar(d: nat): (c: char)
    requires d < 10
    ensures IsDigit(c) && (c as int) - ('0' as int) == d
  {
    ('0' as int + d) as char
  }

  function DigitValue(c: char): nat
    requires IsDigit(c)
  {
    (c as int) - ('0' as int)
  }

  /** Decimal rendering of a non-negative integer, most significant digit first. */
  function NatToString(n: nat): (s: string)
    ensures IsNatLiteral(s)
    ensures n == 0 <==> s == "0"
    decreases n
  {
    if n < 10 then [DigitChar(n)] else NatToString(n / 10) + [DigitChar(n % 10)]
  }

  /** The safe integers, |i| < 2^53: every one is a Number exactly, and toString
      writes its exact decimal digits. */
  predicate IsSafeInteger(i: int) {
    -0x20_0000_0000_0000 < i < 0x20_0000_0000_0000
  }

  /** Decimal rendering of an integer, as JavaScript's toString gives it. */
  function IntToString(i: int): (s: string)
    requires IsSafeInteger(i)
    ensures IsIntLiteral(s)
    ensures i < 0 <==> s[0] == '-'
  {
    if i < 0 then "-" + NatToString(-i) else NatToString(i)
  }

  function ParseNat(s: string): nat
    requires AllDigits(s)
    decreases |s|
  {
    if s == [] then 0 else ParseNat(s[..|s| - 1]) * 10 + DigitValue(s[|s| - 1])
  }

  function ParseInt(s: string): int
    requires IsIntLiteral(s)
  {
    if s[0] == '-' then -(ParseNat(s[1..]) as int) else ParseNat(s)
  }

  lemma {:induction false} ParseNatToString(n: nat)
    ensures ParseNat(NatToString(n)) == n
    decreases n
  {
    var s := NatToString(n);
    if n >= 10 {
      ParseNatToString(n / 10);
      assert s[..|s| - 1] == NatToString(n / 10);
    }
  }

  /** Parsing undoes rendering: toString loses nothing. */
  lemma {:induction false} ParseIntToString(i: int)
    requires IsSafeInteger(i)
    ensures ParseInt(IntToString(i)) == i
  {
    var s := IntToString(i);
    if i < 0 {
      assert s[1..] == NatToString(-i);
      ParseNatToString(-i);
    } else {
      ParseNatToString(i);
    }
  }

  /** Distinct integers render as distinct strings. */
  lemma {:induction false} IntToStringInjective(i: int, j: int)
    requires IsSafeInteger(i) && IsSafeInteger(j)
    requires IntToString(i) == IntToString(j)
    ensures i == j
  {
    ParseIntToString(i);
    ParseIntToString(j);
  }
}
