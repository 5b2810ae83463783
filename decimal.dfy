/** How a JavaScript template literal prints an integral number of moderate
    size (below 1e21 in magnitude, as every score the job computes is): plain
    decimal digits, with a leading minus sign when negative. */
module Decimal {

  predicate IsDigit(c: char)
  {
    '0' <= c <= '9'
  }

  function DigitChar(d: nat): (c: char)
    requires d < 10
    ensures IsDigit(c)
  {
    "0123456789"[d]
  }

  function DigitValue(c: char): (d: nat)
    requires IsDigit(c)
    ensures d < 10
  {
    (c as int - '0' as int) as nat
  }

  /** The shortest decimal numeral of `n`. */
  function NatToDecimal(n: nat): (s: string)
    ensures |s| >= 1
    ensures forall i :: 0 <= i < |s| ==> IsDigit(s[i])
    ensures |s| > 1 ==> s[0] != '0'
  {
    if n < 10 then [DigitChar(n)] else NatToDecimal(n / 10) + [DigitChar(n % 10)]
  }

  /** The value of a string of decimal digits. */
  function DecimalValue(s: string): (n: nat)
    requires forall i :: 0 <= i < |s| ==> IsDigit(s[i])
  {
    if s == [] then 0 else 10 * DecimalValue(s[..|s| - 1]) + DigitValue(s[|s| - 1])
  }

  function IntToDecimal(i: int): (s: string)
    ensures |s| >= 1
    ensures i < 0 <==> s[0] == '-'
    ensures '\n' !in s
  {
    var digits := if i < 0 then NatToDecimal(-i) else NatToDecimal(i);
    assert forall k :: 0 <= k < |digits| ==> digits[k] != '\n';
    if i < 0 then "-" + digits else digits
  }

  lemma DigitRoundTrip(d: nat)
    requires d < 10
    ensures DigitValue(DigitChar(d)) == d
  {
  }

  /** Reading back the numeral gives the number printed. */
  lemma {:induction false} DecimalRoundTrip(n: nat)
    ensures DecimalValue(NatToDecimal(n)) == n
  {
    var s := NatToDecimal(n);
    if n < 10 {
      DigitRoundTrip(n);
    } else {
      DecimalRoundTrip(n / 10);
      DigitRoundTrip(n % 10);
      assert s[..|s| - 1] == NatToDecimal(n / 10);
    }
  }

  /** The value of an optionally signed numeral. */
  function SignedValue(s: string): (i: int)
    requires |s| >= 1
    requires s[0] == '-' || IsDigit(s[0])
    requires forall k :: 1 <= k < |s| ==> IsDigit(s[k])
  {
    if s[0] == '-' then -(DecimalValue(s[1..]) as int) else DecimalValue(s)
  }

  /** A negative integer prints as a minus sign before the numeral of its
      magnitude. */
  lemma NegativeNumeral(i: int)
    requires i < 0
    ensures IntToDecimal(i) == "-" + NatToDecimal(-i)
    ensures IntToDecimal(i)[1..] == NatToDecimal(-i)
  {
  }

  /** A numeral with a minus sign in front reads back as the negated value. */
  lemma SignedNegative(d: string)
    requires forall k :: 0 <= k < |d| ==> IsDigit(d[k])
    ensures var s := "-" + d;
      (forall k :: 1 <= k < |s| ==> IsDigit(s[k])) && SignedValue(s) == -(DecimalValue(d) as int)
  {
    var s := "-" + d;
    assert s[1..] == d;
    forall k | 1 <= k < |s|
      ensures IsDigit(s[k])
    {
      assert s[k] == d[k - 1];
    }
  }

  lemma NegativeRoundTrip(i: int)
    requires i < 0
    ensures var s := IntToDecimal(i);
      s[0] == '-' && (forall k :: 1 <= k < |s| ==> IsDigit(s[k])) && SignedValue(s) == i
  {
    NegativeNumeral(i);
    DecimalRoundTrip(-i);
    SignedNegative(NatToDecimal(-i));
  }

  lemma NonNegativeRoundTrip(i: int)
    requires i >= 0
    ensures var s := IntToDecimal(i);
      IsDigit(s[0]) && (forall k :: 1 <= k < |s| ==> IsDigit(s[k])) && SignedValue(s) == i
  {
    var s := IntToDecimal(i);
    assert s == NatToDecimal(i);
    DecimalRoundTrip(i);
  }

  /** Reading back a printed integer gives the integer. */
  lemma IntRoundTrip(i: int)
    ensures var s := IntToDecimal(i);
      (s[0] == '-' || IsDigit(s[0])) && (forall k :: 1 <= k < |s| ==> IsDigit(s[k])) &&
      SignedValue(s) == i
  {
    if i < 0 {
      NegativeRoundTrip(i);
    } else {
      NonNegativeRoundTrip(i);
    }
  }
}
