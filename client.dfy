/**
 * The example HTTP client's request lifecycle: the process-wide state the
 * callbacks share, the callbacks themselves (`on_connect`, `on_head`,
 * `on_body`, the body producer's timer and proceed callbacks, `on_error`),
 * and the events of the event loop and the transport that drive them.
 *
 * The event loop is not modelled as a loop: each event it may deliver is a
 * method of `Client` (`FireTimer`, `TransportProceed`, `Receive`, and the
 * three response callbacks), and any order of calls is a possible run.
 */
module HttpClient {
  import opened Common
  import opened Decimal
  import opened Pacing
  import opened Report
  import opened ContentLength

  /**
   * The `errstr` a callback receives: NULL, h2o's end-of-stream sentinel
   * (recognised by identity, never by its text), or any other error message.
   */
  datatype ErrStr = NoError | EndOfStream | Error(text: string)

  /** The text behind h2o's end-of-stream sentinel. */
  const EosText: string := "end of stream"

  /** The text `on_error` is given for a non-NULL `errstr`. */
  function ErrText(e: ErrStr): string
    requires !e.NoError?
  {
    if e.EndOfStream? then EosText else e.text
  }

  /** What a timer linked on the event loop calls back when it fires. */
  datatype TimerKind = BodyChunk | DeferredExit

  /** A timer linked on the event loop with a delay in milliseconds. */
  datatype Timer = Timer(delay: int, kind: TimerKind)

  /** The zero-delay timer `on_error` links instead of exiting on the spot. */
  const ExitTimer: Timer := Timer(0, DeferredExit)

  function BodyTimerCount(ts: seq<Timer>): nat {
    if ts == [] then 0
    else (if ts[0].kind == BodyChunk then 1 else 0) + BodyTimerCount(ts[1..])
  }

  /** Linking one more timer adds one body timer exactly when it is one. */
  lemma {:induction false} BodyTimerCountLink(ts: seq<Timer>, t: Timer)
    ensures BodyTimerCount(ts + [t]) == BodyTimerCount(ts) + (if t.kind == BodyChunk then 1 else 0)
    decreases |ts|
  {
    if ts == [] {
      assert ts + [t] == [t];
      assert [t][1..] == [];
    } else {
      assert (ts + [t])[1..] == ts[1..] + [t];
      BodyTimerCountLink(ts[1..], t);
    }
  }

  /** Unlinking the `k`-th timer removes one body timer exactly when that timer is one. */
  lemma {:induction false} BodyTimerCountRemove(ts: seq<Timer>, k: nat)
    requires k < |ts|
    ensures BodyTimerCount(ts[..k] + ts[k + 1..]) + (if ts[k].kind == BodyChunk then 1 else 0)
         == BodyTimerCount(ts)
    decreases k
  {
    if k == 0 {
      assert ts[..0] + ts[1..] == ts[1..];
    } else {
      var rest := ts[..k] + ts[k + 1..];
      assert rest[0] == ts[0];
      assert rest[1..] == ts[1..][..k - 1] + ts[1..][k..];
      BodyTimerCountRemove(ts[1..], k - 1);
    }
  }

  /**
   * The request `on_connect` hands back through its out-parameters: method,
   * URL, headers, the initial body, and whether a proceed callback is
   * installed, i.e. whether the body is streamed.
   */
  datatype Request = Request(requestMethod: string, url: string, headers: seq<Header>, body: seq<byte>, streaming: bool)

  /** The canonical name of the Content-Length header (section 8.6 of RFC 9110). */
  const ContentLengthName: string := "content-length"

  /** The message `start_request` reports for a URL that does not parse. */
  function UrlError(url: string): string {
    "unrecognized type of URL: " + url
  }

  /** The Content-Length a request announces is the number of bytes its producer sends. */
  lemma DeclaredLengthIsSent(n: int, c: int)
    requires 0 < n <= IntMax && c > 0
    ensures DigitsValue(ContentLengthValue(n)) == |Payload(BodyWrites(n, Filler(c)))|
  {
    BodyPayload(n, c);
  }

  /** The process-wide state of the client and the callbacks that update it. */
  class Client {
    // configuration, fixed once the command line has been read
    /** The request method, `GET` unless the command line names another. */
    const requestMethod: string
    const url: string
    /** Whether h2o's URL parser accepts `url`; the URL never changes, so neither does this. */
    const urlParses: bool
    const bodySize: int
    const chunkSize: int
    const delayMs: int
    /** `iov_filler`: `chunkSize` bytes of 'a' when a body is sent, else empty. */
    const filler: seq<byte>

    // the globals the callbacks update
    var cntLeft: int
    var curBodySize: int

    // what the callbacks do to their surroundings
    /** Timers linked on the event loop and not yet fired. */
    var timers: seq<Timer>
    /** Connections initiated so far. */
    var connects: nat
    /** The writes issued on the current request's stream. */
    var writes: seq<Write>
    /** The stream has taken a write and will call the proceed callback for it. */
    var awaitingProceed: bool
    /** The client's receive buffer. */
    var recvBuf: seq<byte>
    var stdout: seq<byte>
    var stderr: string
    /** Set once the process has exited. */
    var exitStatus: Option<int>

    ghost predicate Valid()
      reads this
    {
      && 0 < chunkSize <= IntMax
      && 0 <= bodySize <= IntMax
      && filler == (if bodySize != 0 then Filler(chunkSize) else [])
      && 0 <= curBodySize <= bodySize
    }

    /**
     * The body producer's invariant: at most one thing is pending for it, a
     * timer or a proceed callback; no timer is pending once nothing is left
     * to send; and the writes issued so far followed by those the remaining
     * count still calls for are the whole body's writes.
     */
    ghost predicate Pacing()
      reads this
    {
      && Valid()
      && BodyTimerCount(timers) + (if awaitingProceed then 1 else 0) <= 1
      && (curBodySize == 0 ==> BodyTimerCount(timers) == 0)
      && (connects == 0 ==> writes == [] && curBodySize == 0)
      && (connects > 0 ==> writes + BodyWrites(curBodySize, filler) == BodyWrites(bodySize, filler))
    }

    /** `on_error` reported `msg` and linked the deferred exit. */
    twostate predicate ErrorReported(msg: string)
      reads this
    {
      stderr == old(stderr) + ErrorLine(msg) && timers == old(timers) + [ExitTimer]
    }

    /** The effect of `start_request`. */
    twostate predicate RequestStarted()
      reads this
    {
      if urlParses then
        && curBodySize == bodySize && connects == old(connects) + 1
        && writes == [] && !awaitingProceed
        && stderr == old(stderr) && timers == old(timers)
      else
        && ErrorReported(UrlError(url))
        && curBodySize == old(curBodySize) && connects == old(connects)
        && writes == old(writes) && awaitingProceed == old(awaitingProceed)
    }

    /** The effect of the producer's timer callback: one chunk filled and written. */
    twostate predicate ChunkWritten()
      reads this
    {
      var n := if old(curBodySize) > 0 then Min(|filler|, old(curBodySize)) else 0;
      && curBodySize == old(curBodySize) - n
      && writes == old(writes) + [Write(filler[..n], curBodySize <= 0)]
      && awaitingProceed
    }

    /** The globals as the command line leaves them, before the first request. */
    constructor (requestMethod: string, url: string, urlParses: bool, count: int, bodySize: int, chunkSize: int, delayMs: int)
      requires 0 < chunkSize <= IntMax && 0 <= bodySize <= IntMax
      ensures Pacing()
      ensures this.requestMethod == requestMethod && this.url == url && this.urlParses == urlParses
      ensures this.bodySize == bodySize && this.chunkSize == chunkSize && this.delayMs == delayMs
      ensures cntLeft == count && curBodySize == 0
      ensures timers == [] && connects == 0 && writes == [] && !awaitingProceed
      ensures recvBuf == [] && stdout == [] && stderr == [] && exitStatus == None
    {
      this.requestMethod, this.url, this.urlParses := requestMethod, url, urlParses;
      this.bodySize, this.chunkSize, this.delayMs := bodySize, chunkSize, delayMs;
      filler := if bodySize != 0 then Filler(chunkSize) else [];
      cntLeft, curBodySize := count, 0;
      timers, connects, writes, awaitingProceed := [], 0, [], false;
      recvBuf, stdout, stderr, exitStatus := [], [], [], None;
    }

    /** `on_error`: print the message and defer the exit to a zero-delay timer; never exits here. */
    method OnError(msg: string)
      modifies this`stderr, this`timers
      ensures ErrorReported(msg)
      ensures BodyTimerCount(timers) == BodyTimerCount(old(timers))
      ensures old(Pacing()) ==> Pacing()
    {
      BodyTimerCountLink(timers, ExitTimer);
      stderr := stderr + ErrorLine(msg);
      timers := timers + [ExitTimer];
    }

    /**
     * `start_request`: reset the remaining body count and connect; when the
     * URL does not parse, report it and connect nothing.
     */
    method StartRequest()
      requires Valid()
      modifies this`curBodySize, this`connects, this`writes, this`awaitingProceed, this`stderr, this`timers
      ensures Valid() && RequestStarted()
      ensures old(Pacing() && BodyTimerCount(timers) == 0) ==> Pacing()
    {
      if !urlParses {
        OnError(UrlError(url));
        return;
      }
      curBodySize := bodySize;
      // the connection, and the stream on it, are new: no writes yet
      connects := connects + 1;
      writes, awaitingProceed := [], false;
    }

    /**
     * `on_connect`: on an error report it and install nothing. Otherwise
     * hand back the request; when body bytes remain it carries one
     * Content-Length header with their count, streams the body and arms the
     * producer's first timer.
     */
    method OnConnect(err: ErrStr) returns (head: Option<Request>)
      requires Valid() && exitStatus == None
      modifies this`stderr, this`timers
      ensures err != NoError ==> head == None && ErrorReported(ErrText(err))
      ensures err == NoError ==>
        && stderr == old(stderr)
        && head == Some(Request(requestMethod, url,
                                if curBodySize > 0
                                then [Header(ContentLengthName, None, ContentLengthValue(curBodySize))]
                                else [],
                                [], curBodySize > 0))
        && timers == old(timers) + (if curBodySize > 0 then [Timer(delayMs, BodyChunk)] else [])
      ensures old(Pacing() && BodyTimerCount(timers) == 0 && !awaitingProceed) ==> Pacing()
    {
      if err != NoError {
        OnError(ErrText(err));
        return None;
      }
      var headers: seq<Header> := [];
      var streaming := false;
      if curBodySize > 0 {
        headers := [Header(ContentLengthName, None, ContentLengthValue(curBodySize))];
        streaming := true;
        timers := timers + [Timer(delayMs, BodyChunk)];
        BodyTimerCountLink(old(timers), Timer(delayMs, BodyChunk));
      }
      head := Some(Request(requestMethod, url, headers, [], streaming));
    }

    /** `fill_body`: hand out the next chunk of the filler and count it off. */
    method FillBody() returns (rc: int, reqbuf: seq<byte>)
      requires Valid()
      modifies this`curBodySize
      ensures Valid()
      ensures old(curBodySize) > 0 ==>
        && rc == 0 && reqbuf == filler[..Min(|filler|, old(curBodySize))]
        && curBodySize == old(curBodySize) - |reqbuf|
      ensures old(curBodySize) <= 0 ==> rc == 1 && reqbuf == [] && curBodySize == old(curBodySize)
    {
      if curBodySize > 0 {
        reqbuf := filler[..Min(|filler|, curBodySize)];
        curBodySize := curBodySize - |reqbuf|;
        return 0, reqbuf;
      } else {
        return 1, [];
      }
    }

    /**
     * `timeout_cb`: write the next chunk, flagged end-of-stream when nothing
     * remains after it. The write follows the body's plan.
     */
    method Timeout()
      requires Valid()
      modifies this`curBodySize, this`writes, this`awaitingProceed
      ensures Valid() && ChunkWritten()
      ensures old(curBodySize) > 0 ==>
        old(writes) + BodyWrites(old(curBodySize), filler) == writes + BodyWrites(curBodySize, filler)
    {
      var _, reqbuf := FillBody();
      // write_req: the stream takes the chunk and calls proceed once it is written
      var w := Write(reqbuf, curBodySize <= 0);
      writes := writes + [w];
      awaitingProceed := true;
      if old(curBodySize) > 0 {
        BodyWritesStep(old(curBodySize), filler);
        assert BodyWrites(old(curBodySize), filler) == [w] + BodyWrites(curBodySize, filler);
        assert old(writes) + ([w] + BodyWrites(curBodySize, filler)) == writes + BodyWrites(curBodySize, filler);
      }
    }

    /** `proceed_request`: arm the next timer while body bytes remain; the count is left alone. */
    method ProceedRequest()
      modifies this`timers
      ensures timers == old(timers) + (if curBodySize > 0 then [Timer(delayMs, BodyChunk)] else [])
    {
      if curBodySize > 0 {
        timers := timers + [Timer(delayMs, BodyChunk)];
      }
    }

    /** The stream has written the last chunk and calls the proceed callback. */
    method TransportProceed()
      requires Valid() && exitStatus == None && awaitingProceed
      modifies this`awaitingProceed, this`timers
      ensures !awaitingProceed
      ensures timers == old(timers) + (if curBodySize > 0 then [Timer(delayMs, BodyChunk)] else [])
      ensures old(Pacing()) ==> Pacing()
    {
      ghost var wasPacing := Pacing();
      assert wasPacing ==> BodyTimerCount(timers) == 0;
      awaitingProceed := false;
      ProceedRequest();
      if curBodySize > 0 {
        BodyTimerCountLink(old(timers), Timer(delayMs, BodyChunk));
        assert BodyTimerCount(timers) == BodyTimerCount(old(timers)) + 1;
      } else {
        assert timers == old(timers);
      }
      assert wasPacing ==> BodyTimerCount(timers) <= 1;
    }

    /** The event loop fires the `k`-th pending timer; each callback unlinks its own timer. */
    method FireTimer(k: nat)
      requires Valid() && exitStatus == None && k < |timers|
      modifies this`timers, this`exitStatus, this`curBodySize, this`writes, this`awaitingProceed
      ensures Valid()
      ensures timers == old(timers[..k] + timers[k + 1..])
      ensures old(timers[k]).kind == DeferredExit ==>
        && exitStatus == Some(1)
        && curBodySize == old(curBodySize) && writes == old(writes) && awaitingProceed == old(awaitingProceed)
      ensures old(timers[k]).kind == BodyChunk ==> exitStatus == None && ChunkWritten()
      ensures old(Pacing()) ==> Pacing()
    {
      var t := timers[k];
      BodyTimerCountRemove(timers, k);
      timers := timers[..k] + timers[k + 1..];
      if t.kind == DeferredExit {
        // on_exit_deferred: exit(1)
        exitStatus := Some(1);
      } else {
        Timeout();
      }
    }

    /** Response bytes arrive in the receive buffer. */
    method Receive(data: seq<byte>)
      requires exitStatus == None
      modifies this`recvBuf
      ensures recvBuf == old(recvBuf) + data
      ensures old(Pacing()) ==> Pacing()
    {
      recvBuf := recvBuf + data;
    }

    /**
     * `on_head`: on an error report it. Otherwise write the status line, one
     * line per header and a blank line; then, if the stream already ended,
     * report that there is no body. The body callback is installed only when
     * there was no error at all.
     */
    method OnHead(err: ErrStr, version: int, status: int, reason: string, headers: seq<Header>) returns (body: bool)
      requires exitStatus == None
      modifies this`stderr, this`timers
      ensures body <==> err == NoError
      ensures err.Error? ==> ErrorReported(err.text)
      ensures err == NoError ==>
        stderr == old(stderr) + HeadReport(version, status, reason, headers) && timers == old(timers)
      ensures err == EndOfStream ==>
        && stderr == old(stderr) + HeadReport(version, status, reason, headers) + ErrorLine("no body")
        && timers == old(timers) + [ExitTimer]
      ensures old(Pacing()) ==> Pacing()
    {
      if err.Error? {
        OnError(err.text);
        return false;
      }
      WriteHead(version, status, reason, headers);
      if err == EndOfStream {
        OnError("no body");
        return false;
      }
      return true;
    }

    /** The status line, the header lines and the blank line `on_head` writes. */
    method WriteHead(version: int, status: int, reason: string, headers: seq<Header>)
      modifies this`stderr
      ensures stderr == old(stderr) + HeadReport(version, status, reason, headers)
    {
      stderr := stderr + StatusLine(version, status, reason);
      WriteHeaders(headers);
      stderr := stderr + "\n";
    }

    /** The header loop of `on_head`: one `name: value` line per header, in order. */
    method WriteHeaders(headers: seq<Header>)
      modifies this`stderr
      ensures stderr == old(stderr) + HeaderLines(headers)
    {
      var i := 0;
      while i != |headers|
        invariant 0 <= i <= |headers|
        invariant stderr == old(stderr) + HeaderLines(headers[..i])
      {
        ghost var done := headers[..i + 1];
        assert done[..i] == headers[..i] && done[i] == headers[i];
        assert HeaderLines(done) == HeaderLines(headers[..i]) + HeaderLine(headers[i]);
        stderr := stderr + HeaderLine(headers[i]);
        i := i + 1;
      }
      assert headers[..i] == headers;
    }

    /**
     * `on_body`: on an error report it and return -1. Otherwise copy the
     * whole receive buffer to standard output and empty it; at the end of
     * the stream count the request off and start the next one while the
     * count is not zero.
     */
    method OnBody(err: ErrStr) returns (rc: int)
      requires Valid() && exitStatus == None
      modifies this`stderr, this`timers, this`stdout, this`recvBuf, this`cntLeft
      modifies this`curBodySize, this`connects, this`writes, this`awaitingProceed
      ensures Valid()
      ensures err.Error? ==>
        && rc == -1 && ErrorReported(err.text)
        && stdout == old(stdout) && recvBuf == old(recvBuf) && cntLeft == old(cntLeft)
        && curBodySize == old(curBodySize) && connects == old(connects)
        && writes == old(writes) && awaitingProceed == old(awaitingProceed)
      ensures !err.Error? ==> rc == 0 && stdout == old(stdout) + old(recvBuf) && recvBuf == []
      ensures err == NoError ==>
        && cntLeft == old(cntLeft) && stderr == old(stderr) && timers == old(timers)
        && curBodySize == old(curBodySize) && connects == old(connects)
        && writes == old(writes) && awaitingProceed == old(awaitingProceed)
      ensures err == EndOfStream ==> cntLeft == old(cntLeft) - 1
      ensures err == EndOfStream && cntLeft == 0 ==>
        && stderr == old(stderr) && timers == old(timers)
        && curBodySize == old(curBodySize) && connects == old(connects)
        && writes == old(writes) && awaitingProceed == old(awaitingProceed)
      ensures err == EndOfStream && cntLeft != 0 ==> RequestStarted()
      ensures old(Pacing()) && (err != EndOfStream || cntLeft == 0 || old(BodyTimerCount(timers)) == 0) ==> Pacing()
    {
      if err.Error? {
        OnError(err.text);
        return -1;
      }
      stdout := stdout + recvBuf;
      recvBuf := [];
      if err == EndOfStream {
        cntLeft := cntLeft - 1;
        if cntLeft != 0 {
          StartRequest();
        }
      }
      return 0;
    }
  }

  /**
   * Once a started request's remaining count is exhausted, its stream has
   * carried `ceil(bodySize / chunkSize)` writes holding the `bodySize` filler
   * bytes, and only the last of them ended the stream.
   */
  lemma BodySent(c: Client)
    requires c.Pacing() && c.connects > 0 && c.curBodySize == 0
    ensures |c.writes| == CeilDiv(c.bodySize, c.chunkSize)
    ensures Payload(c.writes) == Filler(c.bodySize)
    ensures forall i :: 0 <= i < |c.writes| ==> (c.writes[i].endStream <==> i == |c.writes| - 1)
  {
    if c.bodySize == 0 {
      assert c.writes == [];
      assert CeilDiv(0, c.chunkSize) == 0;
    } else {
      BodyComplete(c.writes, 0, c.bodySize, c.chunkSize);
    }
  }

  /**
   * The first of two requests of 10 body bytes in chunks of 4: connected,
   * its head received, and its producer's first timer linked.
   */
  method FirstRequestUnanswered() returns (c: Client)
    ensures fresh(c)
    ensures c.Valid() && c.exitStatus == None && c.urlParses
    ensures c.bodySize == 10 && c.curBodySize == 10 && c.cntLeft == 2 && c.delayMs == 0
    ensures c.timers == [Timer(0, BodyChunk)]
  {
    c := new Client("POST", "https://example.com/upload", true, 2, 10, 4, 0);
    c.StartRequest();
    var _ := c.OnConnect(NoError);
    var _ := c.OnHead(NoError, 0x200, 200, "", []);
  }

  /**
   * A response that ends before the upload does leaves the producer's timer
   * linked across `start_request`: the second request's `on_connect` arms a
   * second producer timer next to the first, and the producer's invariant no
   * longer holds.
   */
  method EarlyResponseRun() returns (c: Client)
    ensures BodyTimerCount(c.timers) == 2 && !c.Pacing()
  {
    c := FirstRequestUnanswered();
    var chunk := Timer(0, BodyChunk);
    var _ := c.OnBody(EndOfStream);
    assert c.timers == [chunk] && c.curBodySize == 10;
    var _ := c.OnConnect(NoError);
    assert c.timers == [chunk] + [chunk];
    BodyTimerCountLink([chunk], chunk);
    BodyTimerCountLink([], chunk);
    assert [] + [chunk] == [chunk];
  }
}
