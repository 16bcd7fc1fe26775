/**
 * Decimal text of integers, as Kotlin's `Int.toString()` and string
 * templates (`"$n"`) produce it, and the reading of a digit string back
 * into a number.
 */
module Decimal {

  /** A character '0'..'9'. */
  predicate IsDigit(c: char) {
    '0' <= c <= '9'
  }

  /** Every character of `s` is a decimal digit. */
  predicate AllDigits(s: string) {
    forall i :: 0 <= i < |s| ==> IsDigit(s[i])
  }

  /** The character of the decimal digit `d`. */
  function DigitChar(d: int): (c: char)
    requires 0 <= d < 10
    ensures IsDigit(c)
    ensures c as int - '0' as int == d
  {
    ('0' as int + d) as char
  }

  /** The value of a digit character. */
  function DigitValue(c: char): (d: nat)
    requires IsDigit(c)
    ensures d < 10
    ensures DigitChar(d) == c
  {
    c as int - '0' as int
  }

  /** The decimal digits of `n`, most significant first, with no leading zero. */
  function NatToString(n: nat): (s: string)
    ensures AllDigits(s)
    ensures |s| == 1 <==> n < 10
    ensures 1 <= |s|
    ensures s[0] == '0' <==> n == 0
    decreases n
  {
    if n < 10 then [DigitChar(n)] else NatToString(n / 10) + [DigitChar(n % 10)]
  }

  /** Kotlin's `Int.toString()`: a minus sign in front of a negative number's digits. */
  function IntToString(n: int): (s: string)
    ensures 1 <= |s|
    ensures s[0] == '-' <==> n < 0
    ensures n >= 0 ==> AllDigits(s) && ParseDigits(s) == n
    ensures n < 0 ==> AllDigits(s[1..]) && ParseDigits(s[1..]) == -n
    ensures |s| == 1 <==> 0 <= n < 10
    ensures n >= 0 ==> (s[0] == '0' <==> n == 0)
    ensures n < 0 ==> 2 <= |s| && s[1] != '0'
  {
    if n < 0 then
      ParseNatToString(-n);
      assert ("-" + NatToString(-n))[1..] == NatToString(-n);
      "-" + NatToString(-n)
    else
      ParseNatToString(n);
      NatToString(n)
  }

  /** The number a string of decimal digits denotes; leading zeros are allowed. */
  function ParseDigits(s: string): (n: nat)
    requires AllDigits(s)
    decreases |s|
  {
    if s == [] then 0 else 10 * ParseDigits(s[..|s| - 1]) + DigitValue(s[|s| - 1])
  }

  /** Reading the decimal text of `n` back gives `n`. */
  lemma {:induction false} ParseNatToString(n: nat)
    ensures ParseDigits(NatToString(n)) == n
    decreases n
  {
    if n >= 10 {
      var s := NatToString(n);
      assert s[..|s| - 1] == NatToString(n / 10);
      ParseNatToString(n / 10);
    }
  }

  /** A leading zero does not change the number a digit string denotes. */
  lemma {:induction false} ParseLeadingZero(s: string)
    requires AllDigits(s)
    ensures AllDigits("0" + s)
    ensures ParseDigits("0" + s) == ParseDigits(s)
    decreases |s|
  {
    var z := "0" + s;
    assert AllDigits(z) by {
      forall i | 0 <= i < |z| ensures IsDigit(z[i]) {
        if i > 0 { assert z[i] == s[i - 1]; }
      }
    }
    if s != [] {
      var init := s[..|s| - 1];
      assert z[..|z| - 1] == "0" + init;
      assert z[|z| - 1] == s[|s| - 1];
      ParseLeadingZero(init);
    }
  }

  /** A one- or two-digit number has text of the corresponding length. */
  lemma NatToStringBelowHundred(n: nat)
    requires n < 100
    ensures var s := NatToString(n);
      && (n < 10 ==> s == [DigitChar(n)])
      && (10 <= n ==> s == [DigitChar(n / 10), DigitChar(n % 10)])
  {
    if 10 <= n {
      assert NatToString(n / 10) == [DigitChar(n / 10)];
    }
  }
}
