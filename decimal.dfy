/**
 * Decimal text of integers, as produced by JavaScript's `String(n)` and
 * Python's `f"{n}"` for integral values, and its inverse for digit runs.
 */
module Decimal {

  predicate IsDigit(c: char) { '0' <= c <= '9' }

  predicate AllDigits(s: string) { forall i :: 0 <= i < |s| ==> IsDigit(s[i]) }

  function DigitChar(d: nat): (c: char)
    requires d < 10
    ensures IsDigit(c) && (c as int) - ('0' as int) == d
  {
    ('0' as int + d) as char
  }

  function DigitValue(c: char): nat
    requires IsDigit(c)
  {
    (c as int) - ('0' as int)
  }

  /** The decimal digits of a natural number, most significant first, without leading zeros. */
  function Digits(n: nat): (s: string)
    decreases n
  {
    if n < 10 then [DigitChar(n)] else Digits(n / 10) + [DigitChar(n % 10)]
  }

  /** The decimal text of an integer: a minus sign before the digits of a negative one. */
  function Show(n: int): string
  {
    if n < 0 then "-" + Digits(-n) else Digits(n)
  }

  /** The value of a run of decimal digits (`+m[1]` in JavaScript, `int(s)` in Python). */
  function ParseDigits(s: string): nat
    requires AllDigits(s)
    decreases |s|
  {
    if s == [] then 0 else 10 * ParseDigits(s[..|s| - 1]) + DigitValue(s[|s| - 1])
  }

  /** Digits gives a non-empty run of digits, and reading it back gives the number. */
  lemma {:induction false} DigitsRoundTrip(n: nat)
    ensures |Digits(n)| >= 1 && AllDigits(Digits(n))
    ensures ParseDigits(Digits(n)) == n
    decreases n
  {
    if n >= 10 {
      DigitsRoundTrip(n / 10);
      var s := Digits(n);
      assert s[..|s| - 1] == Digits(n / 10);
    }
  }

  /** Show writes only digits, after one leading minus sign for a negative number. */
  lemma ShowShape(n: int)
    ensures |Show(n)| >= 1
    ensures n >= 0 ==> Show(n) == Digits(n) && AllDigits(Show(n))
    ensures n < 0 ==> Show(n)[0] == '-' && AllDigits(Show(n)[1..]) && ParseDigits(Show(n)[1..]) == -n
  {
    if n < 0 {
      DigitsRoundTrip(-n);
      assert Show(n)[1..] == Digits(-n);
    } else {
      DigitsRoundTrip(n);
    }
  }

  /** Different numbers have different decimal texts. */
  lemma ShowInjective(m: int, n: int)
    requires Show(m) == Show(n)
    ensures m == n
  {
    ShowShape(m);
    ShowShape(n);
    assert (m >= 0) == IsDigit(Show(m)[0]);
    assert (n >= 0) == IsDigit(Show(n)[0]);
    if m < 0 {
      assert Show(m)[1..] == Show(n)[1..];
    } else {
      DigitsRoundTrip(m);
      DigitsRoundTrip(n);
    }
  }
}
