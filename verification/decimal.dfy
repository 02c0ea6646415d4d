/** Decimal digit strings: Go's `fmt.Sprintf("%d", n)` for a non-negative `n`,
    and the value a digit string denotes. */
module Decimal {

  predicate IsDigit(ch: char) {
    '0' <= ch <= '9'
  }

  /** A non-empty run of ASCII decimal digits. */
  predicate IsDigits(s: string) {
    |s| > 0 && forall k :: 0 <= k < |s| ==> IsDigit(s[k])
  }

  function DigitValue(ch: char): (d: nat)
    requires IsDigit(ch)
    ensures d < 10
  {
    (ch as int - '0' as int) as nat
  }

  function DigitChar(d: nat): (ch: char)
    requires d < 10
    ensures IsDigit(ch) && DigitValue(ch) == d
  {
    ('0' as int + d) as char
  }

  /** The number a digit string denotes, read most significant digit first
      (leading zeros are allowed and ignored). */
  function Value(s: string): (n: nat)
    requires forall k :: 0 <= k < |s| ==> IsDigit(s[k])
  {
    if s == [] then 0 else Value(s[..|s| - 1]) * 10 + DigitValue(s[|s| - 1])
  }

  /** `fmt.Sprintf("%d", n)` for `n >= 0`: the shortest digit string of `n`. */
  function Digits(n: nat): (s: string)
    ensures IsDigits(s)
    ensures s[0] == '0' ==> n == 0 && s == "0"
    ensures Value(s) == n
  {
    if n < 10 then [DigitChar(n)]
    else
      var p := Digits(n / 10);
      var s := p + [DigitChar(n % 10)];
      assert s[..|s| - 1] == p;
      s
  }

  /** A longer digit string never denotes a smaller number than its prefix. */
  lemma {:induction false} ValuePrefix(s: string, i: nat)
    requires i <= |s|
    requires forall k :: 0 <= k < |s| ==> IsDigit(s[k])
    ensures Value(s[..i]) <= Value(s)
    decreases |s|
  {
    if i < |s| {
      assert s[..|s| - 1][..i] == s[..i];
      ValuePrefix(s[..|s| - 1], i);
    } else {
      assert s[..i] == s;
    }
  }
}
