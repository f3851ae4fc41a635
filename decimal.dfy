/**
 * Decimal text of integers as `printf("%d")` writes it, and a reader for
 * such text. The reader is the partner of the writer: every number reads
 * back from its text, and the text has as many digits as the number needs.
 */
module Decimal {
  import opened Common

  predicate IsDigit(c: char) {
    '0' <= c <= '9'
  }

  predicate AllDigits(s: string) {
    forall i :: 0 <= i < |s| ==> IsDigit(s[i])
  }

  function DigitChar(d: nat): (c: char)
    requires d < 10
    ensures IsDigit(c) && (c as int) - ('0' as int) == d
  {
    (('0' as int) + d) as char
  }

  function DigitValue(c: char): nat
    requires IsDigit(c)
  {
    (c as int) - ('0' as int)
  }

  /** The digits of `n`, most significant first, without leading zeros. */
  function NatText(n: nat): (s: string)
    ensures |s| > 0 && AllDigits(s)
    ensures |s| > 1 ==> s[0] != '0'
  {
    if n < 10 then [DigitChar(n)] else NatText(n / 10) + [DigitChar(n % 10)]
  }

  /** `printf("%d", i)`: a minus sign for negative values, then the digits. */
  function IntText(i: int): (s: string)
    ensures |s| > 0 && (s[0] == '-' <==> i < 0)
    ensures i >= 0 ==> AllDigits(s)
  {
    if i < 0 then "-" + NatText(-i) else NatText(i)
  }

  /** The value of a run of decimal digits. */
  function DigitsValue(s: string): nat
    requires AllDigits(s)
  {
    if s == [] then 0 else DigitsValue(s[..|s| - 1]) * 10 + DigitValue(s[|s| - 1])
  }

  function Pow10(k: nat): (p: nat)
    ensures p >= 1
  {
    if k == 0 then 1 else 10 * Pow10(k - 1)
  }

  /** Reading the text of `n` gives `n` back. */
  lemma {:induction false} NatTextRoundTrip(n: nat)
    ensures DigitsValue(NatText(n)) == n
  {
    var s := NatText(n);
    if n >= 10 {
      NatTextRoundTrip(n / 10);
      assert s[..|s| - 1] == NatText(n / 10);
    }
  }

  /** `n` needs at most `k` digits exactly when it is below 10^k. */
  lemma {:induction false} NatTextLength(n: nat, k: nat)
    requires k >= 1
    ensures |NatText(n)| <= k <==> n < Pow10(k)
  {
    if n >= 10 {
      if k == 1 {
        assert |NatText(n)| == |NatText(n / 10)| + 1;
      } else {
        NatTextLength(n / 10, k - 1);
        assert n / 10 < Pow10(k - 1) <==> n < Pow10(k);
      }
    } else {
      assert Pow10(k) == 10 * Pow10(k - 1);
    }
  }

  /** The length of the longest run of digits at the front of `s`. */
  function DigitRun(s: string): (k: nat)
    ensures k <= |s| && AllDigits(s[..k])
    ensures k < |s| ==> !IsDigit(s[k])
  {
    if s == [] || !IsDigit(s[0]) then 0 else 1 + DigitRun(s[1..])
  }

  /**
   * Reads an optional minus sign and a non-empty run of digits at the front
   * of `s`; gives the value and the number of characters consumed.
   */
  function ReadInt(s: string): Option<(int, nat)> {
    if |s| > 0 && s[0] == '-' then
      var k := DigitRun(s[1..]);
      var v: int := -(DigitsValue(s[1..][..k]) as int);
      if k == 0 then None else Some((v, 1 + k))
    else
      var k := DigitRun(s);
      if k == 0 then None else Some((DigitsValue(s[..k]), k))
  }

  lemma {:induction false} DigitRunOfDigits(d: string, rest: string)
    requires AllDigits(d)
    requires rest == [] || !IsDigit(rest[0])
    ensures DigitRun(d + rest) == |d|
  {
    if d != [] {
      assert (d + rest)[1..] == d[1..] + rest;
      DigitRunOfDigits(d[1..], rest);
    } else {
      assert d + rest == rest;
    }
  }

  /** The text of any `int`, followed by a non-digit or nothing, reads back. */
  lemma IntTextReadBack(i: int, rest: string)
    requires rest == [] || !IsDigit(rest[0])
    ensures ReadInt(IntText(i) + rest) == Some((i, |IntText(i)|))
  {
    var n: nat := if i < 0 then -i else i;
    var t := NatText(n);
    NatTextRoundTrip(n);
    DigitRunOfDigits(t, rest);
    assert (t + rest)[..|t|] == t;
    if i < 0 {
      assert ("-" + t + rest)[1..] == t + rest;
      assert IntText(i) + rest == "-" + t + rest;
    }
  }
}
