// Decimal rendering of integers, as a JavaScript template literal prints an
// integral number below 1e21 in magnitude, together with the parsers that invert it.
module Text {

  predicate IsDigit(c: char) {
    '0' <= c <= '9'
  }

  predicate AllDigits(s: string) {
    forall k :: 0 <= k < |s| ==> IsDigit(s[k])
  }

  function DigitChar(d: nat): (c: char)
    requires d < 10
    ensures IsDigit(c) && c as int - '0' as int == d
  {
    ('0' as int + d) as char
  }

  function DigitValue(c: char): (d: nat)
    requires IsDigit(c)
    ensures d < 10
  {
    c as int - '0' as int
  }

  /** The decimal digits of n, most significant first. */
  function NatToDecimal(n: nat): string
    decreases n
  {
    if n < 10 then [DigitChar(n)] else NatToDecimal(n / 10) + [DigitChar(n % 10)]
  }

  /** The digits of n are never empty, and have no leading zero unless n is zero. */
  lemma {:induction false} NatToDecimalDigits(n: nat)
    ensures |NatToDecimal(n)| >= 1 && AllDigits(NatToDecimal(n))
    ensures NatToDecimal(n)[0] == '0' ==> n == 0
    decreases n
  {
    if n >= 10 {
      NatToDecimalDigits(n / 10);
      var s := NatToDecimal(n);
      assert s[0] == NatToDecimal(n / 10)[0];
    }
  }

  /** The value of a string of decimal digits, most significant first. */
  function DecimalValue(s: string): nat
    requires AllDigits(s)
    decreases |s|
  {
    if s == [] then 0 else DecimalValue(s[..|s| - 1]) * 10 + DigitValue(s[|s| - 1])
  }

  lemma {:induction false} DecimalRoundTrip(n: nat)
    ensures AllDigits(NatToDecimal(n)) && DecimalValue(NatToDecimal(n)) == n
    decreases n
  {
    NatToDecimalDigits(n);
    if n >= 10 {
      var s := NatToDecimal(n);
      assert s[..|s| - 1] == NatToDecimal(n / 10);
      DecimalRoundTrip(n / 10);
    }
  }

  lemma NatToDecimalInjective(m: nat, n: nat)
    requires m != n
    ensures NatToDecimal(m) != NatToDecimal(n)
  {
    DecimalRoundTrip(m);
    DecimalRoundTrip(n);
  }

  /** A signed integer: a minus sign before the digits of its magnitude when negative. */
  function IntToDecimal(i: int): string {
    if i < 0 then "-" + NatToDecimal(-i) else NatToDecimal(i)
  }

  /** The text of an integer is well formed and starts with a minus sign exactly when it is negative. */
  lemma IntToDecimalShape(i: int)
    ensures IsIntText(IntToDecimal(i))
    ensures IntToDecimal(i)[0] == '-' <==> i < 0
  {
    if i < 0 {
      NatToDecimalDigits(-i);
      assert IntToDecimal(i)[1..] == NatToDecimal(-i);
    } else {
      NatToDecimalDigits(i);
    }
  }

  predicate IsIntText(s: string) {
    (|s| >= 1 && AllDigits(s)) || (|s| >= 2 && s[0] == '-' && AllDigits(s[1..]))
  }

  function DecimalToInt(s: string): int
    requires IsIntText(s)
  {
    if |s| >= 1 && AllDigits(s) then DecimalValue(s) as int else -(DecimalValue(s[1..]) as int)
  }

  lemma IntRoundTrip(i: int)
    ensures IsIntText(IntToDecimal(i)) && DecimalToInt(IntToDecimal(i)) == i
  {
    IntToDecimalShape(i);
    if i < 0 {
      assert !IsDigit(IntToDecimal(i)[0]);
      assert IntToDecimal(i)[1..] == NatToDecimal(-i);
      DecimalRoundTrip(-i);
    } else {
      DecimalRoundTrip(i);
    }
  }

  /** The longest prefix of s made of decimal digits. */
  function LeadingDigits(s: string): (d: string)
    ensures d <= s && AllDigits(d)
    ensures |d| < |s| ==> !IsDigit(s[|d|])
    decreases |s|
  {
    if s == [] || !IsDigit(s[0]) then [] else [s[0]] + LeadingDigits(s[1..])
  }

  /** Digits followed by anything that does not start with a digit are read back whole. */
  lemma {:induction false} LeadingDigitsOfNumber(digits: string, rest: string)
    requires AllDigits(digits)
    requires rest == [] || !IsDigit(rest[0])
    ensures LeadingDigits(digits + rest) == digits
    decreases |digits|
  {
    if digits != [] {
      assert (digits + rest)[1..] == digits[1..] + rest;
      LeadingDigitsOfNumber(digits[1..], rest);
    }
  }

  /** The position of the first comma in s, or |s| when there is none. */
  function FirstComma(s: string): (k: nat)
    ensures k <= |s|
    ensures k < |s| ==> s[k] == ','
    ensures forall j :: 0 <= j < k ==> s[j] != ','
    decreases |s|
  {
    if s == [] then 0 else if s[0] == ',' then 0 else 1 + FirstComma(s[1..])
  }

  lemma {:induction false} FirstCommaAfter(a: string, b: string)
    requires forall j :: 0 <= j < |a| ==> a[j] != ','
    requires b != [] && b[0] == ','
    ensures FirstComma(a + b) == |a|
    decreases |a|
  {
    if a != [] {
      assert (a + b)[1..] == a[1..] + b;
      FirstCommaAfter(a[1..], b);
    }
  }
}
