/**
 * Decimal text of integers: how JavaScript renders an integer in a template
 * literal, and how `parseInt(s, 10)` reads a string of digits.
 */
module Decimal {

  predicate IsDigit(c: char) {
    '0' <= c <= '9'
  }

  predicate AllDigits(s: string) {
    forall i :: 0 <= i < |s| ==> IsDigit(s[i])
  }

  /** A non-empty run of digits: what `\d+` matches. */
  predicate IsDigits(s: string) {
    |s| > 0 && AllDigits(s)
  }

  function DigitValue(c: char): (d: nat)
    requires IsDigit(c)
    ensures d < 10
  {
    c as int - '0' as int
  }

  function DigitChar(d: nat): (c: char)
    requires d < 10
    ensures IsDigit(c) && DigitValue(c) == d
  {
    (d + '0' as int) as char
  }

  /** The value of a digit string, most significant digit first; leading zeros add nothing. */
  function Value(s: string): nat
    requires AllDigits(s)
    decreases |s|
  {
    if s == [] then 0 else Value(s[..|s| - 1]) * 10 + DigitValue(s[|s| - 1])
  }

  /** The canonical decimal text of a natural number. */
  function NatText(n: nat): (s: string)
    ensures IsDigits(s)
    ensures n > 0 ==> s[0] != '0'
    decreases n
  {
    if n < 10 then [DigitChar(n)] else NatText(n / 10) + [DigitChar(n % 10)]
  }

  /** The decimal text of an integer, with a leading '-' when it is negative. */
  function IntText(i: int): (s: string)
    ensures |s| > 0
    ensures forall k :: 0 <= k < |s| ==> IsDigit(s[k]) || s[k] == '-'
  {
    if i < 0 then "-" + NatText(-i) else NatText(i)
  }

  lemma {:induction false} ValueOfNatText(n: nat)
    ensures Value(NatText(n)) == n
    decreases n
  {
    var s := NatText(n);
    if n >= 10 {
      ValueOfNatText(n / 10);
      assert s[..|s| - 1] == NatText(n / 10);
    }
  }

  /** Different integers have different decimal texts. */
  lemma IntTextInjective(a: int, b: int)
    requires IntText(a) == IntText(b)
    ensures a == b
  {
    if a < 0 && b < 0 {
      assert NatText(-a) == IntText(a)[1..] == IntText(b)[1..] == NatText(-b);
      ValueOfNatText(-a);
      ValueOfNatText(-b);
    } else if a >= 0 && b >= 0 {
      ValueOfNatText(a);
      ValueOfNatText(b);
    }
  }

  lemma {:induction false} ZerosHaveNoValue(z: string)
    requires forall i :: 0 <= i < |z| ==> z[i] == '0'
    ensures AllDigits(z) && Value(z) == 0
    decreases |z|
  {
    if z != [] {
      ZerosHaveNoValue(z[..|z| - 1]);
    }
  }

  /** Leading zeros do not change the value read from a digit string. */
  lemma {:induction false} LeadingZerosIgnored(z: string, s: string)
    requires forall i :: 0 <= i < |z| ==> z[i] == '0'
    requires AllDigits(s)
    ensures AllDigits(z + s) && Value(z + s) == Value(s)
    decreases |s|
  {
    if s == [] {
      assert z + s == z;
      ZerosHaveNoValue(z);
    } else {
      LeadingZerosIgnored(z, s[..|s| - 1]);
      assert (z + s)[..|z + s| - 1] == z + s[..|s| - 1];
    }
  }
}
