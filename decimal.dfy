/**
 * Decimal strings of integers, as JavaScript's Number-to-String conversion writes
 * them for the small integers a date is made of ('' + n, and the join of a year).
 * DecToNat is the inverse used to state that no information is lost.
 */
module Decimal {
  import opened Options

  predicate IsDigit(c: char) {
    '0' <= c <= '9'
  }

  predicate AllDigits(s: string) {
    forall i :: 0 <= i < |s| ==> IsDigit(s[i])
  }

  function DigitValue(c: char): (v: nat)
    requires IsDigit(c)
    ensures v < 10
  {
    c as int - '0' as int
  }

  function DigitChar(d: nat): (c: char)
    requires d < 10
    ensures IsDigit(c) && DigitValue(c) == d
  {
    ('0' as int + d) as char
  }

  /** The shortest decimal numeral of n: no leading zeros, "0" for zero. */
  function NatToDec(n: nat): (s: string)
    ensures |s| >= 1 && AllDigits(s)
    ensures |s| < 2 <==> n < 10
    ensures |s| == 1 || s[0] != '0'
    decreases n
  {
    if n < 10 then [DigitChar(n)] else NatToDec(n / 10) + [DigitChar(n % 10)]
  }

  /** A signed integer as JavaScript writes it: a '-' before the numeral of its magnitude. */
  function IntToDec(i: int): (s: string)
    ensures |s| >= 1
    ensures i < 0 <==> s[0] == '-'
    ensures i >= 0 ==> AllDigits(s) && s == NatToDec(i)
    ensures i < 0 ==> s[1..] == NatToDec(-i)
  {
    if i < 0 then "-" + NatToDec(-i) else NatToDec(i)
  }

  /** The value of a string of digits, read most significant digit first. */
  function DecToNat(s: string): (value: nat)
    requires AllDigits(s)
    decreases |s|
  {
    if s == [] then 0 else DecToNat(s[..|s| - 1]) * 10 + DigitValue(s[|s| - 1])
  }

  /** The value of a signed numeral; None when s is not one. */
  function DecToInt(s: string): (r: Option<int>)
  {
    if |s| >= 2 && s[0] == '-' && AllDigits(s[1..]) then Some(-(DecToNat(s[1..]) as int))
    else if |s| >= 1 && AllDigits(s) then Some(DecToNat(s) as int)
    else None
  }

  lemma {:induction false} NatToDecRoundTrip(n: nat)
    ensures DecToNat(NatToDec(n)) == n
    decreases n
  {
    if n >= 10 {
      var s := NatToDec(n / 10);
      NatToDecRoundTrip(n / 10);
      var t := s + [DigitChar(n % 10)];
      assert t[..|t| - 1] == s;
    }
  }

  lemma IntToDecRoundTrip(i: int)
    ensures DecToInt(IntToDec(i)) == Some(i)
  {
    if i < 0 {
      var s := IntToDec(i);
      assert s[1..] == NatToDec(-i);
      NatToDecRoundTrip(-i);
    } else {
      NatToDecRoundTrip(i);
    }
  }
}
