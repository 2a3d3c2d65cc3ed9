/**
 * `String(n)` for a non-negative integer, as JavaScript writes it: decimal digits, no
 * sign and no leading zero. Used for `Content-Length`, `Date.now()` file names and the
 * published frame count. `Value` reads such a string back.
 */
module Decimal {

  predicate IsDigit(c: char) {
    '0' <= c <= '9'
  }

  function DigitChar(d: nat): (c: char)
    requires d < 10
    ensures IsDigit(c)
  {
    ('0' as int + d) as char
  }

  function DigitValue(c: char): nat
    requires IsDigit(c)
  {
    c as int - '0' as int
  }

  function Format(n: nat): (r: string)
    ensures |r| >= 1
    ensures forall c | c in r :: IsDigit(c)
    ensures r[0] != '0' || n == 0
  {
    if n < 10 then [DigitChar(n)] else Format(n / 10) + [DigitChar(n % 10)]
  }

  function Value(s: string): nat
    requires forall c | c in s :: IsDigit(c)
  {
    if s == [] then 0
    else
      assert s[|s| - 1] in s;
      Value(s[..|s| - 1]) * 10 + DigitValue(s[|s| - 1])
  }

  /** Reading back what `Format` writes gives the number. */
  lemma {:induction false} ValueFormat(n: nat)
    ensures Value(Format(n)) == n
  {
    if n >= 10 {
      var s := Format(n);
      assert s[..|s| - 1] == Format(n / 10);
      ValueFormat(n / 10);
    }
  }

  /** Different numbers are written differently. */
  lemma FormatInjective(m: nat, n: nat)
    requires Format(m) == Format(n)
    ensures m == n
  {
    ValueFormat(m);
    ValueFormat(n);
  }
}
