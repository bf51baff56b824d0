/** Decimal rendering of a natural number, as a JavaScript template literal
    renders an integer-valued counter. */
module Decimal {

  predicate IsDigit(c: char) {
    '0' <= c <= '9'
  }

  function DigitChar(d: nat): (c: char)
    requires d < 10
    ensures IsDigit(c) && c as int - '0' as int == d
  {
    ('0' as int + d) as char
  }

  /** The shortest decimal numeral of `n`: only digits, never empty, no
      leading zero, and zero is the single digit "0". */
  function NatToString(n: nat): (s: string)
    ensures |s| >= 1
    ensures forall i :: 0 <= i < |s| ==> IsDigit(s[i])
    ensures s[0] == '0' <==> n == 0
    ensures n == 0 ==> s == "0"
    decreases n
  {
    if n < 10 then [DigitChar(n)] else NatToString(n / 10) + [DigitChar(n % 10)]
  }

  /** The number a string of decimal digits denotes, most significant digit first. */
  function DigitsValue(s: string): nat
    requires forall i :: 0 <= i < |s| ==> IsDigit(s[i])
    decreases |s|
  {
    if s == [] then 0
    else
      assert IsDigit(s[|s| - 1]);
      10 * DigitsValue(s[..|s| - 1]) + (s[|s| - 1] as int - '0' as int)
  }

  /** Reading the numeral back gives the number that was rendered. */
  lemma {:induction false} NatToStringRoundTrip(n: nat)
    ensures DigitsValue(NatToString(n)) == n
    decreases n
  {
    var s := NatToString(n);
    if n >= 10 {
      NatToStringRoundTrip(n / 10);
      assert s[..|s| - 1] == NatToString(n / 10);
    }
  }

  /** Distinct numbers render as distinct numerals. */
  lemma NatToStringInjective(a: nat, b: nat)
    ensures NatToString(a) == NatToString(b) ==> a == b
  {
    NatToStringRoundTrip(a);
    NatToStringRoundTrip(b);
  }

  /** A numeral followed by text that starts with a non-digit splits in only
      one way. */
  lemma NumeralPrefixUnique(d1: string, s1: string, d2: string, s2: string)
    requires forall i :: 0 <= i < |d1| ==> IsDigit(d1[i])
    requires forall i :: 0 <= i < |d2| ==> IsDigit(d2[i])
    requires |s1| > 0 && !IsDigit(s1[0])
    requires |s2| > 0 && !IsDigit(s2[0])
    requires d1 + s1 == d2 + s2
    ensures d1 == d2 && s1 == s2
  {
    var t := d1 + s1;
    assert forall i :: 0 <= i < |d1| ==> IsDigit(t[i]);
    assert forall i :: 0 <= i < |d2| ==> IsDigit(t[i]);
    assert !IsDigit(t[|d1|]) && !IsDigit(t[|d2|]);
    assert d1 == t[..|d1|] == d2;
    assert s1 == t[|d1|..] == s2;
  }

  /** Text made of fixed words around two numerals determines both numerals,
      when the words after each numeral start with a non-digit. */
  lemma TwoNumeralsUnique(before: string, between: string, after: string,
                          a1: string, b1: string, a2: string, b2: string)
    requires forall i :: 0 <= i < |a1| ==> IsDigit(a1[i])
    requires forall i :: 0 <= i < |b1| ==> IsDigit(b1[i])
    requires forall i :: 0 <= i < |a2| ==> IsDigit(a2[i])
    requires forall i :: 0 <= i < |b2| ==> IsDigit(b2[i])
    requires |between| > 0 && !IsDigit(between[0])
    requires |after| > 0 && !IsDigit(after[0])
    requires before + a1 + between + b1 + after == before + a2 + between + b2 + after
    ensures a1 == a2 && b1 == b2
  {
    var t1, t2 := before + a1 + between + b1 + after, before + a2 + between + b2 + after;
    var r1, r2 := between + b1 + after, between + b2 + after;
    assert t1[|before|..] == a1 + r1;
    assert t2[|before|..] == a2 + r2;
    NumeralPrefixUnique(a1, r1, a2, r2);
    assert r1[|between|..] == b1 + after;
    assert r2[|between|..] == b2 + after;
    NumeralPrefixUnique(b1, after, b2, after);
  }
}
