/**
 Decimal rendering of non-negative integers, and the one-decimal rendering that
 `(n / 10).toFixed(1)` produces for a non-negative integer `n`.
 */
module Decimal {

  predicate IsDigit(c: char) {
    '0' <= c <= '9'
  }

  predicate AllDigits(s: string) {
    forall i :: 0 <= i < |s| ==> IsDigit(s[i])
  }

  function DigitChar(d: nat): (c: char)
    requires d < 10
    ensures IsDigit(c)
  {
    ('0' as int + d) as char
  }

  function DigitValue(c: char): (d: nat)
    requires IsDigit(c)
    ensures d < 10
  {
    c as int - '0' as int
  }

  /** Decimal digits of `n`, most significant first, without leading zeros. */
  function NatToString(n: nat): (r: string)
    ensures |r| >= 1 && AllDigits(r)
    ensures r[0] == '0' ==> r == "0"
    ensures r[|r| - 1] == DigitChar(n % 10)
    decreases n
  {
    if n < 10 then [DigitChar(n)] else NatToString(n / 10) + [DigitChar(n % 10)]
  }

  /** Reads a string of decimal digits back as a number. */
  function ParseNat(s: string): nat
    requires AllDigits(s)
  {
    if s == [] then 0 else ParseNat(s[..|s| - 1]) * 10 + DigitValue(s[|s| - 1])
  }

  lemma {:induction false} ParseNatToString(n: nat)
    ensures ParseNat(NatToString(n)) == n
    decreases n
  {
    var r := NatToString(n);
    if n < 10 {
      assert r[..|r| - 1] == [];
    } else {
      assert r[..|r| - 1] == NatToString(n / 10);
      ParseNatToString(n / 10);
    }
  }

  /** Two numbers render the same exactly when they are equal. */
  lemma NatToStringInjective(m: nat, n: nat)
    ensures NatToString(m) == NatToString(n) <==> m == n
  {
    if NatToString(m) == NatToString(n) {
      ParseNatToString(m);
      ParseNatToString(n);
    }
  }

  /** `(n / 10).toFixed(1)`: the integer part, a point, and the tenths digit. */
  function Tenths(n: nat): (r: string)
    ensures |r| >= 3 && r[|r| - 2] == '.'
    ensures AllDigits(r[..|r| - 2]) && IsDigit(r[|r| - 1])
    ensures DigitValue(r[|r| - 1]) == n % 10
  {
    NatToString(n / 10) + "." + [DigitChar(n % 10)]
  }

  predicate IsTenths(s: string) {
    |s| >= 3 && s[|s| - 2] == '.' && AllDigits(s[..|s| - 2]) && IsDigit(s[|s| - 1])
  }

  /** Reads a one-decimal rendering back as a count of tenths. */
  function ParseTenths(s: string): nat
    requires IsTenths(s)
  {
    ParseNat(s[..|s| - 2]) * 10 + DigitValue(s[|s| - 1])
  }

  /** The rendering loses nothing: reading it back gives the original count of tenths. */
  lemma TenthsRoundTrip(n: nat)
    ensures IsTenths(Tenths(n))
    ensures ParseTenths(Tenths(n)) == n
  {
    var r := Tenths(n);
    assert r[..|r| - 2] == NatToString(n / 10);
    ParseNatToString(n / 10);
  }

  /** The integer part of the rendering is `n div 10` and the fraction digit is `n mod 10`. */
  lemma TenthsParts(n: nat)
    ensures Tenths(n)[..|Tenths(n)| - 2] == NatToString(n / 10)
    ensures ParseNat(Tenths(n)[..|Tenths(n)| - 2]) == n / 10
  {
    var r := Tenths(n);
    assert r[..|r| - 2] == NatToString(n / 10);
    ParseNatToString(n / 10);
  }

  /** Bulbasaur's weight of 69 hectograms renders as 6.9; a height of 7 decimetres as 0.7. */
  lemma TenthsExamples()
    ensures Tenths(69) == "6.9"
    ensures Tenths(7) == "0.7"
    ensures Tenths(1000) == "100.0"
  {
  }
}
