/** Digits, and decimal printing of natural numbers as both Rust's `{}` and Python's
    f-strings produce it, and its inverse on digit strings. */
module Decimal {

  predicate IsDigit(c: char) {
    '0' <= c <= '9'
  }

  function DigitChar(d: nat): (c: char)
    requires d < 10
    ensures IsDigit(c) && DigitValue(c) == d
  {
    ('0' as int + d) as char
  }

  function DigitValue(c: char): (d: nat)
    requires IsDigit(c)
    ensures d < 10
  {
    c as int - '0' as int
  }

  /** The decimal numeral of `n`, without leading zeros. */
  function Print(n: nat): (s: string)
    ensures |s| > 0
    ensures forall i :: 0 <= i < |s| ==> IsDigit(s[i])
    ensures |s| > 1 ==> s[0] != '0'
  {
    if n < 10 then [DigitChar(n)] else Print(n / 10) + [DigitChar(n % 10)]
  }

  /** The value of a digit string, most significant digit first. */
  function Value(s: string): nat
    requires forall i :: 0 <= i < |s| ==> IsDigit(s[i])
  {
    if s == "" then 0 else 10 * Value(s[..|s| - 1]) + DigitValue(s[|s| - 1])
  }

  lemma {:induction false} ValueOfPrint(n: nat)
    ensures Value(Print(n)) == n
  {
    if n < 10 {
      assert Print(n)[..0] == "";
    } else {
      var head := Print(n / 10);
      var s := head + [DigitChar(n % 10)];
      assert s[..|s| - 1] == head;
      ValueOfPrint(n / 10);
    }
  }

  /** The numeral of `n` has `k` digits exactly when 10^(k-1) <= n < 10^k;
      the three widths the elision marker depends on. */
  lemma PrintWidth(n: nat)
    ensures n < 10 <==> |Print(n)| == 1
    ensures 10 <= n < 100 <==> |Print(n)| == 2
    ensures n >= 100 ==> |Print(n)| >= 3
  {
    if n >= 10 {
      PrintWidth(n / 10);
    }
  }

  /** A lower-case hexadecimal digit. */
  function HexDigit(n: nat): (c: char)
    requires n < 16
    ensures c as int < 0x80
  {
    if n < 10 then ('0' as int + n) as char else ('a' as int + (n - 10)) as char
  }
}
