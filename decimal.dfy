/**
  The decimal text of an integer page id, as JavaScript writes a number into a
  template string (`${page.id}`) for ids whose size keeps them out of
  exponent notation, and the value `parseInt(text, 10)` reads back from it.
 */
module Decimal {

  predicate IsDigit(c: char)
  {
    '0' <= c <= '9'
  }

  predicate AllDigits(s: string)
  {
    forall i | 0 <= i < |s| :: IsDigit(s[i])
  }

  function DigitChar(d: nat): (c: char)
    requires d < 10
    ensures IsDigit(c)
  {
    (48 + d) as char
  }

  function DigitValue(c: char): nat
    requires IsDigit(c)
  {
    c as int - 48
  }

  /** The number a string of decimal digits denotes, most significant digit
      first: the fold `parseInt(s, 10)` performs on such a string. */
  function DigitsValue(s: string): nat
    requires AllDigits(s)
    decreases |s|
  {
    if |s| == 0 then 0 else 10 * DigitsValue(s[..|s| - 1]) + DigitValue(s[|s| - 1])
  }

  /** The value of an optionally signed decimal text. */
  function SignedValue(s: string): int
    requires |s| >= 1 && (IsDigit(s[0]) || s[0] == '-') && AllDigits(s[1..])
  {
    if s[0] == '-' then -(DigitsValue(s[1..]) as int)
    else assert s == [s[0]] + s[1..]; DigitsValue(s)
  }

  /** The shortest decimal text of `n`: it reads back as `n` and has no
      leading zero. */
  function NatToString(n: nat): (r: string)
    ensures |r| >= 1 && AllDigits(r)
    ensures DigitsValue(r) == n
    ensures |r| > 1 ==> r[0] != '0'
    decreases n
  {
    if n < 10 then [DigitChar(n)]
    else
      var prefix := NatToString(n / 10);
      var r := prefix + [DigitChar(n % 10)];
      assert r[..|r| - 1] == prefix;
      r
  }

  /** The decimal text of an id: a minus sign exactly for a negative id,
      then the digits of its magnitude; it reads back as the id. */
  function IntToString(i: int): (r: string)
    ensures |r| >= 1
    ensures IsDigit(r[0]) || r[0] == '-'
    ensures AllDigits(r[1..])
    ensures r[0] == '-' <==> i < 0
    ensures SignedValue(r) == i
  {
    if i < 0 then
      var r := "-" + NatToString(-i);
      assert r[1..] == NatToString(-i);
      r
    else
      var r := NatToString(i);
      assert forall k | 0 <= k < |r[1..]| :: r[1..][k] == r[k + 1];
      r
  }

  /** Different numbers have different decimal texts. */
  lemma NatToStringInjective(a: nat, b: nat)
    requires NatToString(a) == NatToString(b)
    ensures a == b
  {
    assert a == DigitsValue(NatToString(a)) == DigitsValue(NatToString(b)) == b;
  }

  lemma IntToStringInjective(a: int, b: int)
    requires IntToString(a) == IntToString(b)
    ensures a == b
  {
    assert a == SignedValue(IntToString(a)) == SignedValue(IntToString(b)) == b;
  }
}
