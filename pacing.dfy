/**
 * The paced request-body producer, as a specification: the writes one
 * request issues when its remaining byte count starts at `remaining` and the
 * filler buffer is `filler`. Each write carries `Min(|filler|, remaining)`
 * bytes of the filler and is flagged end-of-stream exactly when nothing
 * remains after it.
 */
module Pacing {
  import opened Common

  /** The byte the filler buffer is set to: 'a'. */
  const FillByte: byte := 97

  /** A filler buffer of `n` bytes, each `FillByte`. */
  function Filler(n: nat): (f: seq<byte>)
    ensures |f| == n && forall i :: 0 <= i < n ==> f[i] == FillByte
  {
    seq(n, _ => FillByte)
  }

  /** One call of the stream's write callback: the bytes and the end-of-stream flag. */
  datatype Write = Write(data: seq<byte>, endStream: bool)

  /** The writes the producer issues from `remaining` bytes onwards. */
  function BodyWrites(remaining: int, filler: seq<byte>): seq<Write>
    requires remaining <= 0 || |filler| > 0
    decreases remaining
  {
    if remaining <= 0 then []
    else
      var n := Min(|filler|, remaining);
      [Write(filler[..n], remaining - n <= 0)] + BodyWrites(remaining - n, filler)
  }

  /** One step of the plan: the next write, then the plan for what remains after it. */
  lemma BodyWritesStep(remaining: int, filler: seq<byte>)
    requires remaining > 0 && |filler| > 0
    ensures var n := Min(|filler|, remaining);
      BodyWrites(remaining, filler) == [Write(filler[..n], remaining - n <= 0)] + BodyWrites(remaining - n, filler)
  {
  }

  /** The bytes of a log of writes, in order. */
  function Payload(ws: seq<Write>): seq<byte> {
    if ws == [] then [] else ws[0].data + Payload(ws[1..])
  }

  /** `ceil(b / c)` */
  function CeilDiv(b: nat, c: nat): nat
    requires c > 0
  {
    (b + c - 1) / c
  }

  /**
   * The server receives exactly `b` bytes, all of them filler bytes, when the
   * producer starts from `b` with a filler of `c` bytes.
   */
  lemma {:induction false} BodyPayload(b: nat, c: nat)
    requires c > 0
    ensures Payload(BodyWrites(b, Filler(c))) == Filler(b)
    decreases b
  {
    if b > 0 {
      var n := Min(c, b);
      var ws := BodyWrites(b, Filler(c));
      assert ws[1..] == BodyWrites(b - n, Filler(c));
      BodyPayload(b - n, c);
      assert Filler(c)[..n] + Filler(b - n) == Filler(b);
    }
  }

  /** There are `ceil(b / c)` writes. */
  lemma {:induction false} BodyWriteCount(b: nat, c: nat)
    requires c > 0
    ensures |BodyWrites(b, Filler(c))| == CeilDiv(b, c)
    decreases b
  {
    if b > c {
      BodyWriteCount(b - c, c);
      assert (b - c + c - 1) + c == b + c - 1;
      DivPlusDivisor(b - c + c - 1, c);
    } else if b > 0 {
      assert c <= b + c - 1 < 2 * c;
    }
  }

  lemma DivPlusDivisor(x: nat, c: nat)
    requires c > 0
    ensures (x + c) / c == x / c + 1
  {
    var q, r := x / c, x % c;
    assert x == q * c + r;
    assert x + c == (q + 1) * c + r;
    DivUnique(x + c, c, q + 1, r);
  }

  lemma DivUnique(a: int, c: int, q: int, r: int)
    requires c > 0 && 0 <= r < c && a == q * c + r
    ensures a / c == q
  {
    var q', r' := a / c, a % c;
    assert a == q' * c + r';
    if q' != q {
      var lo, hi := if q' < q then q' else q, if q' < q then q else q';
      MulGap(lo, hi, c);
    }
  }

  lemma MulGap(lo: int, hi: int, c: int)
    requires lo < hi && c > 0
    ensures hi * c >= lo * c + c
  {
    var k := hi - lo;
    Distribute(lo, k, c);
    MulAtLeast(k, c);
  }

  lemma Distribute(a: int, b: int, c: int)
    ensures (a + b) * c == a * c + b * c
  {
  }

  lemma {:induction false} MulAtLeast(k: int, c: int)
    requires k >= 1 && c > 0
    ensures k * c >= c
    decreases k
  {
    if k > 1 {
      MulAtLeast(k - 1, c);
      Distribute(k - 1, 1, c);
    }
  }

  /**
   * The shape of the write log: every write is non-empty, at most one filler
   * long and a prefix of the filler; all but the last are a full filler; and
   * only the last is flagged end-of-stream.
   */
  lemma {:induction false} BodyWriteShape(remaining: int, filler: seq<byte>)
    requires |filler| > 0
    ensures var ws := BodyWrites(remaining, filler);
      forall i :: 0 <= i < |ws| ==>
        && 0 < |ws[i].data| <= |filler|
        && ws[i].data == filler[..|ws[i].data|]
        && (i < |ws| - 1 ==> |ws[i].data| == |filler|)
        && (ws[i].endStream <==> i == |ws| - 1)
    decreases remaining
  {
    if remaining > 0 {
      var n := Min(|filler|, remaining);
      BodyWriteShape(remaining - n, filler);
      var ws := BodyWrites(remaining, filler);
      assert ws[1..] == BodyWrites(remaining - n, filler);
      assert remaining - n <= 0 <==> ws[1..] == [];
    }
  }

  /**
   * Once the remaining count is exhausted, a write log that followed the plan
   * is the whole plan: `ceil(b / c)` writes carrying the `b` filler bytes, and
   * only the last flagged end-of-stream.
   */
  lemma BodyComplete(sent: seq<Write>, remaining: int, b: nat, c: nat)
    requires c > 0
    requires sent + BodyWrites(remaining, Filler(c)) == BodyWrites(b, Filler(c))
    requires remaining <= 0
    ensures |sent| == CeilDiv(b, c)
    ensures Payload(sent) == Filler(b)
    ensures forall i :: 0 <= i < |sent| ==> (sent[i].endStream <==> i == |sent| - 1)
  {
    assert sent == BodyWrites(b, Filler(c));
    BodyWriteCount(b, c);
    BodyPayload(b, c);
    BodyWriteShape(b, Filler(c));
  }
}
