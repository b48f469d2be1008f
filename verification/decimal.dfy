/**
 * Decimal digit strings: Python's `str(n)` for a non-negative integer and
 * `int(s)` for a string of digits.
 *
 * Only the ASCII digits '0'..'9' are digits here. Python's `\d` and `int`
 * also accept the other Unicode decimal digits (Arabic-Indic, fullwidth, ...),
 * which this model does not.
 */
module Decimal {

  predicate IsDigit(c: char) {
    '0' <= c <= '9'
  }

  predicate AllDigits(s: string) {
    forall i :: 0 <= i < |s| ==> IsDigit(s[i])
  }

  function DigitValue(c: char): (d: nat)
    requires IsDigit(c)
    ensures d < 10
  {
    c as int - '0' as int
  }

  function DigitChar(d: nat): (c: char)
    requires d < 10
    ensures IsDigit(c) && DigitValue(c) == d
  {
    ('0' as int + d) as char
  }

  /** `int(s)` for a string of digits; leading zeros are accepted. */
  function Value(s: string): (v: nat)
    requires AllDigits(s)
    ensures |s| == 1 ==> v == DigitValue(s[0])
    ensures s != [] && s[0] == '0' ==> v == Value(s[1..])
  {
    if s == [] then 0
    else
      var init := s[..|s| - 1];
      assert |s| >= 2 ==> init[1..] == s[1..][..|s| - 2];
      10 * Value(init) + DigitValue(s[|s| - 1])
  }

  /** `str(n)`: the canonical decimal spelling, with no leading zero. */
  function Show(n: nat): (s: string)
    ensures |s| >= 1 && AllDigits(s)
    ensures n == 0 ==> s == "0"
    ensures n > 0 ==> s[0] != '0'
  {
    if n < 10 then [DigitChar(n)] else Show(n / 10) + [DigitChar(n % 10)]
  }

  /** A digit string in the form `str` produces: non-empty, no leading zero. */
  predicate Canonical(s: string) {
    |s| >= 1 && AllDigits(s) && (|s| == 1 || s[0] != '0')
  }

  /** The length of the longest run of digits at the start of `s` (what a greedy `\d+` or `\d*` takes). */
  function LeadingDigits(s: string): (n: nat)
    ensures n <= |s| && AllDigits(s[..n])
    ensures n < |s| ==> !IsDigit(s[n])
  {
    if s != [] && IsDigit(s[0]) then 1 + LeadingDigits(s[1..]) else 0
  }

  /** `int(str(n)) == n`. */
  lemma {:induction false} ValueOfShow(n: nat)
    ensures Value(Show(n)) == n
  {
    if n >= 10 {
      var s := Show(n);
      ValueOfShow(n / 10);
      assert s[..|s| - 1] == Show(n / 10);
    }
  }

  /** A digit string with a non-zero first digit denotes a positive number. */
  lemma {:induction false} ValuePositive(s: string)
    requires |s| >= 1 && AllDigits(s) && s[0] != '0'
    ensures Value(s) > 0
  {
    if |s| > 1 {
      ValuePositive(s[..|s| - 1]);
    }
  }

  /** `str(int(s)) == s` for every canonical digit string. */
  lemma {:induction false} ShowOfValue(s: string)
    requires Canonical(s)
    ensures Show(Value(s)) == s
  {
    var last := s[|s| - 1];
    assert DigitChar(DigitValue(last)) == last;
    if |s| > 1 {
      var init := s[..|s| - 1];
      ValuePositive(init);
      ShowOfValue(init);
      assert Value(s) / 10 == Value(init);
      assert Value(s) % 10 == DigitValue(last);
      assert s == init + [last];
    }
  }

  /** A greedy digit run over `digits + rest` takes exactly `digits` when `rest` does not
      start with a digit. */
  lemma {:induction false} LeadingDigitsStop(digits: string, rest: string)
    requires AllDigits(digits)
    requires rest == [] || !IsDigit(rest[0])
    ensures LeadingDigits(digits + rest) == |digits|
  {
    if digits != [] {
      assert (digits + rest)[1..] == digits[1..] + rest;
      LeadingDigitsStop(digits[1..], rest);
    }
  }
}
