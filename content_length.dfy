/**
 * The Content-Length value `on_connect` formats with `sprintf("%d")` into a
 * buffer taken from the request's memory pool. The buffer is sized from
 * H2O_UINT32_LONGEST_STR, h2o's spelling of the longest 32-bit unsigned
 * number, "4294967295".
 */
module ContentLength {
  import opened Common
  import opened Decimal

  const Uint32LongestStr: string := "4294967295"

  /** `sizeof(H2O_UINT32_LONGEST_STR) - 1`: the buffer as the client allocates it. */
  const ClBufAsWritten: nat := (|Uint32LongestStr| + 1) - 1

  /** `sizeof(H2O_UINT32_LONGEST_STR)`: room for ten digits and the NUL. */
  const ClBufCapacity: nat := |Uint32LongestStr| + 1

  /** The bytes `sprintf("%d", n)` stores: the text and a terminating NUL. */
  function SprintfBytes(n: int): nat {
    |IntText(n)| + 1
  }

  /**
   * As written, the buffer holds the text exactly for body sizes of at most
   * nine digits; every ten-digit size overflows it by one byte, the NUL.
   */
  lemma {:induction false} ClBufOverflowAsWritten(n: int)
    requires 0 < n <= IntMax
    ensures SprintfBytes(n) <= ClBufAsWritten <==> n < 1000000000
    ensures n >= 1000000000 ==> SprintfBytes(n) == ClBufAsWritten + 1
  {
    assert Pow10(9) == 1000000000 && Pow10(10) == 10000000000;
    NatTextLength(n, 9);
    NatTextLength(n, 10);
  }

  /** With the NUL counted, every positive body size an `int` can hold fits. */
  lemma {:induction false} ClBufFits(n: int)
    requires 0 < n <= IntMax
    ensures SprintfBytes(n) <= ClBufCapacity
  {
    assert Pow10(10) == 10000000000;
    NatTextLength(n, 10);
  }

  /**
   * The Content-Length value for a body of `n` bytes, formatted into a
   * buffer of `ClBufCapacity` bytes; it reads back as `n`.
   */
  function ContentLengthValue(n: int): (v: string)
    requires 0 < n <= IntMax
    ensures |v| + 1 <= ClBufCapacity
    ensures AllDigits(v) && DigitsValue(v) == n
  {
    ClBufFits(n);
    NatTextRoundTrip(n);
    IntText(n)
  }
}
