/**
 * Decimal numerals as they appear inside OSC addresses: the text Python's
 * f-string gives a non-negative integer, and the value of a run of digits
 * matched by the regular expression class `\d` and read back with `int()`.
 */
module Decimal {

  /** An ASCII decimal digit; the other Unicode decimal digits that `\d` and `int()` accept are not modelled. */
  predicate IsDigit(c: char) {
    '0' <= c <= '9'
  }

  predicate AllDigits(s: string) {
    forall i :: 0 <= i < |s| ==> IsDigit(s[i])
  }

  function DigitChar(d: nat): (c: char)
    requires d < 10
    ensures IsDigit(c)
  {
    ('0' as int + d) as char
  }

  function DigitValue(c: char): (d: nat)
    requires IsDigit(c)
    ensures d < 10
  {
    c as int - '0' as int
  }

  /** The decimal text of `n`, most significant digit first, without leading zeros. */
  function Show(n: nat): (s: string)
    decreases n
  {
    if n < 10 then [DigitChar(n)] else Show(n / 10) + [DigitChar(n % 10)]
  }

  /** The value of a string of digits, as `int()` reads it (leading zeros allowed). */
  function Value(s: string): nat
    requires AllDigits(s)
  {
    if s == [] then 0 else Value(s[..|s| - 1]) * 10 + DigitValue(s[|s| - 1])
  }

  /** Length of the longest run of digits at the front of `s` (what a greedy `\d*` consumes). */
  function DigitRun(s: string): (n: nat)
    ensures n <= |s|
    ensures AllDigits(s[..n])
    ensures n < |s| ==> !IsDigit(s[n])
  {
    if s == [] || !IsDigit(s[0]) then 0 else 1 + DigitRun(s[1..])
  }

  /** A string that does not start with a digit: nothing can extend a digit run into it. */
  predicate NoLeadingDigit(s: string) {
    s == [] || !IsDigit(s[0])
  }

  /** Showing a number gives a non-empty digit string whose value is that number. */
  lemma {:induction false} ShowIsNumeral(n: nat)
    ensures |Show(n)| > 0 && AllDigits(Show(n))
    ensures Value(Show(n)) == n
    decreases n
  {
    if n >= 10 {
      ShowIsNumeral(n / 10);
      var s := Show(n);
      assert s[..|s| - 1] == Show(n / 10);
    }
  }

  /** The digit run of a shown number, followed by anything not a digit, is exactly that number. */
  lemma {:induction false} DigitRunOfShow(n: nat, rest: string)
    requires NoLeadingDigit(rest)
    ensures DigitRun(Show(n) + rest) == |Show(n)|
  {
    ShowIsNumeral(n);
    DigitRunOfDigits(Show(n), rest);
  }

  lemma {:induction false} DigitRunOfDigits(d: string, rest: string)
    requires AllDigits(d)
    requires NoLeadingDigit(rest)
    ensures DigitRun(d + rest) == |d|
    decreases |d|
  {
    if d == [] {
      assert d + rest == rest;
    } else {
      assert (d + rest)[1..] == d[1..] + rest;
      DigitRunOfDigits(d[1..], rest);
    }
  }

  /** Different numbers are shown differently. */
  lemma ShowInjective(m: nat, n: nat)
    requires Show(m) == Show(n)
    ensures m == n
  {
    ShowIsNumeral(m);
    ShowIsNumeral(n);
  }
}
