/** Decimal rendering of numbers, as JavaScript template literals and toFixed(2) print them. */
module Text {

  predicate IsDigit(c: char)
  {
    '0' <= c <= '9'
  }

  function DigitChar(d: nat): (c: char)
    requires d < 10
    ensures IsDigit(c)
    ensures DigitValue(c) == d
  {
    "0123456789"[d]
  }

  function DigitValue(c: char): nat
    requires IsDigit(c)
  {
    (c as int - '0' as int) as nat
  }

  /** The decimal digits of n, most significant first, without leading zeros. */
  function NatToString(n: nat): (s: string)
    ensures |s| >= 1
    ensures forall i :: 0 <= i < |s| ==> IsDigit(s[i])
    ensures n > 0 ==> s[0] != '0'
    decreases n
  {
    if n < 10 then [DigitChar(n)] else NatToString(n / 10) + [DigitChar(n % 10)]
  }

  /** The number a string of decimal digits denotes. */
  function ParseNat(s: string): nat
    requires forall i :: 0 <= i < |s| ==> IsDigit(s[i])
    decreases |s|
  {
    if |s| == 0 then 0 else 10 * ParseNat(s[..|s| - 1]) + DigitValue(s[|s| - 1])
  }

  /** Rendering a natural number loses nothing: parsing it back gives the number. */
  lemma {:induction false} NatToStringRoundTrip(n: nat)
    ensures ParseNat(NatToString(n)) == n
    decreases n
  {
    var s := NatToString(n);
    if n >= 10 {
      NatToStringRoundTrip(n / 10);
      assert s[..|s| - 1] == NatToString(n / 10);
    }
  }

  /** A JavaScript integer in a template literal: a minus sign, then the digits of its magnitude. */
  function IntToString(i: int): (s: string)
    ensures |s| >= 1
    ensures s[0] == '-' <==> i < 0
    ensures forall k :: 0 < k < |s| ==> IsDigit(s[k])
  {
    if i < 0 then "-" + NatToString(-i) else NatToString(i)
  }

  /** The digits after the optional minus sign denote the magnitude. */
  lemma IntToStringRoundTrip(i: int)
    ensures i >= 0 ==> ParseNat(IntToString(i)) == i
    ensures i < 0 ==> ParseNat(IntToString(i)[1..]) == -i
  {
    if i < 0 {
      assert IntToString(i)[1..] == NatToString(-i);
      NatToStringRoundTrip(-i);
    } else {
      NatToStringRoundTrip(i);
    }
  }

  /** toFixed(2) of a price held as a whole number of cents: units, a point, two digits. */
  function Fixed2(cents: nat): (s: string)
    ensures |s| >= 4
    ensures s[|s| - 3] == '.'
    ensures forall i :: 0 <= i < |s| && i != |s| - 3 ==> IsDigit(s[i])
  {
    NatToString(cents / 100) + "." + [DigitChar(cents / 10 % 10), DigitChar(cents % 10)]
  }

  /** The number of cents a two-decimal rendering denotes. */
  function ParseFixed2(s: string): nat
    requires |s| >= 4 && s[|s| - 3] == '.'
    requires forall i :: 0 <= i < |s| && i != |s| - 3 ==> IsDigit(s[i])
  {
    100 * ParseNat(s[..|s| - 3]) + 10 * DigitValue(s[|s| - 2]) + DigitValue(s[|s| - 1])
  }

  /** The two-decimal rendering of a whole number of cents is exact. */
  lemma Fixed2RoundTrip(cents: nat)
    ensures ParseFixed2(Fixed2(cents)) == cents
  {
    var s := Fixed2(cents);
    assert s[..|s| - 3] == NatToString(cents / 100);
    NatToStringRoundTrip(cents / 100);
  }

  /** Different prices never share a label. */
  lemma Fixed2Injective(a: nat, b: nat)
    requires Fixed2(a) == Fixed2(b)
    ensures a == b
  {
    Fixed2RoundTrip(a);
    Fixed2RoundTrip(b);
  }
}
