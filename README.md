# h2o example HTTP client: request lifecycle model

This project models the request lifecycle of h2o's example HTTP client
(`examples/libh2o/httpclient.c`) in Dafny. The model covers the following:

- **The paced body producer.** `on_connect` arms a first timer when a body is to be sent. Each
  firing of `timeout_cb` calls `fill_body` to take `min(chunk_size, remaining)` bytes of an
  `'a'`-filled filler buffer. It writes them on the stream with an end-of-stream flag that is set
  when nothing remains. `proceed_request` arms the next timer only when bytes remain.
- **Request setup in `on_connect`.** The method, the URL, an empty initial body, and, when a body
  is to be sent, one `content-length` header, the proceed callback and one timer.
- **The response callbacks.** `on_head` writes the status line, one line per header and a blank
  line. `on_body` copies the receive buffer to standard output. The error paths report through
  `on_error`, which defers the exit to a zero-delay timer.
- **Request chaining.** On end of stream, `on_body` decrements `cnt_left` and, while it is not
  zero, calls `start_request` again. `start_request` resets `cur_body_size` or reports a URL that
  does not parse.

Module layout:

- `Common`: `Option`, `byte`, `Min`, the largest `int`.
- `Decimal`: the text `printf("%d")` writes, a reader for it, and the round trip between them.
- `Pacing`: `BodyWrites`, the writes one request's producer issues, as a function. It carries the
  lemmas on sums, the number of writes and the end-of-stream flag.
- `Report`: what goes to standard error. It holds the status line exactly as `print_status_line`
  builds it, the header lines, and the `on_error` line. It also holds a reader for the status line
  with its round trip.
- `ContentLength`: the Content-Length value and the size of the buffer it is formatted into.
- `HttpClient`: class `Client`.
  - Its fields are the globals the callbacks share (`cnt_left`, `cur_body_size`, the filler
    buffer, the configuration).
  - Its other fields are what the callbacks do to their surroundings: the timers linked on the
    event loop, the connections made, the writes issued on the stream, the receive buffer,
    standard output and error, and the exit status.
  - Each callback is a method. The events the loop and the transport deliver are methods too
    (`FireTimer`, `TransportProceed`, `Receive`), so any order of calls is a possible run.

The invariant `Client.Pacing` ties the imperative state to the `Pacing` specification. It says:

- at most one timer or proceed callback is pending for the producer;
- no producer timer is pending once the remaining count is zero;
- the writes issued so far, followed by the writes the remaining count still calls for, are
  exactly the whole body's writes.

`TransportProceed`, `FireTimer`, `OnHead`, `OnError` and `Receive` preserve the invariant
unconditionally. `StartRequest`, `OnConnect` and `OnBody` preserve it for a request started with
no producer timer pending. The lemma `BodySent` then reads off what the server received once the
count is exhausted.

Two points of the model are easy to misread. In both, the model follows the code:

- **The reason phrase is never printed.** The phrase is evidently meant to follow the status code
  when the response has one. But `print_status_line` tests `msg.len == 0` the wrong way round. An
  empty reason phrase yields a trailing space, and a present one is dropped.
  `StatusLineReadBack` states this: the status line reads back with an empty reason, whatever
  reason the response had.
- **A producer timer is not cancelled on an early response.** When the response ends before the
  upload does, one would expect the pending producer timer to be unlinked. No code does that: the
  `tctx` timer of `on_connect` stays linked across `start_request`. In the model, `OnHead` and
  `OnBody` leave the timers alone, apart from the exit timer that `on_error` links.
  `EarlyResponseRun` shows where this leads when a second request follows the early response:
  the second `on_connect` arms a second producer timer beside the first, and the invariant no
  longer holds. Whether h2o delivers end of stream to `on_body` before the upload is finished
  depends on h2o's client library, which is not part of this model.

## Model

| member | source | states |
|---|---|---|
| HttpClient.Client.FillBody | examples/libh2o/httpclient.c:217-228 | With bytes remaining it returns 0, hands out the first `min(chunk_size, remaining)` filler bytes and lowers the count by exactly that length; with none remaining it returns 1, hands out nothing and leaves the count alone |
| HttpClient.Client.Timeout | examples/libh2o/httpclient.c:234-245 | One firing issues exactly one write of the filled chunk, flagged end-of-stream iff the count is `<= 0` after the fill, and afterwards awaits the proceed callback; the write follows the body's plan (log + remaining plan unchanged) |
| HttpClient.Client.ProceedRequest | examples/libh2o/httpclient.c:247-257 | Links one timer with delay `delay_interval_ms` iff bytes remain, and changes nothing else (in particular not the count) |
| HttpClient.Client.TransportProceed | examples/libh2o/httpclient.c:247-257 | The transport's proceed call runs `proceed_request` and preserves the producer invariant: at most one producer timer, none once the count is zero |
| HttpClient.Client.FireTimer | examples/libh2o/httpclient.c:78-82 | Firing a pending timer unlinks it; the deferred-exit timer exits with status 1 and touches nothing else, a producer timer runs `timeout_cb`; the producer invariant is preserved |
| HttpClient.Client.OnConnect | examples/libh2o/httpclient.c:264-294 | An error is reported, with no request and no timer. Otherwise the request has the configured method, the URL and an empty body. With bytes remaining it has exactly one `content-length` header holding their decimal count, is streamed, and links one timer. Otherwise it has no header, no proceed callback and no timer |
| HttpClient.DeclaredLengthIsSent | examples/libh2o/httpclient.c:276-291 | The Content-Length value reads back as the number of bytes the producer then sends |
| HttpClient.Client.OnBody | examples/libh2o/httpclient.c:152-172 | An error other than end of stream is reported and gives -1, changing nothing else. Otherwise the whole receive buffer is appended to standard output and emptied, and 0 is returned. End of stream decrements `cnt_left` once and starts the next request iff the new count is not zero |
| HttpClient.Client.StartRequest | examples/libh2o/httpclient.c:100-114 | A URL that does not parse is reported and nothing is connected; otherwise the count is reset to `body_size` and a fresh connection with an empty write log is made |
| HttpClient.Client.OnError | examples/libh2o/httpclient.c:85-98 | The message line goes to standard error and a zero-delay exit timer is linked; the process does not exit and the producer's timers are unaffected |
| HttpClient.Client.OnHead | examples/libh2o/httpclient.c:188-215 | The body callback is installed iff there was no error. An error other than end of stream is reported without any head output. Otherwise the head report is written, and end of stream at head time is then reported as "no body" |
| HttpClient.Client.WriteHead | examples/libh2o/httpclient.c:198-207 | Standard error gains exactly the status line, the header lines and a blank line |
| HttpClient.Client.WriteHeaders | examples/libh2o/httpclient.c:200-205 | The loop writes one header line per header, in order |
| HttpClient.Client.constructor | examples/libh2o/httpclient.c:435-439 | The filler is `chunk_size` bytes of 'a' when a body size is set, else empty; no request, timer or output yet, and the producer invariant holds |
| HttpClient.BodySent | examples/libh2o/httpclient.c:217-257 | Once a started request's count is exhausted, its stream carried `ceil(body_size / chunk_size)` writes whose bytes are exactly `body_size` filler bytes, and only the last ended the stream |
| HttpClient.EarlyResponseRun | examples/libh2o/httpclient.c:163-167 | Two requests of 10 bytes in 4-byte chunks, with the first response ending before its upload, leave two producer timers linked, since `on_connect` (lines 286-291) links a new one while the old one stays; the producer invariant is broken |
| HttpClient.BodyTimerCountRemove | examples/libh2o/httpclient.c:240 | Unlinking a timer removes one producer timer exactly when it was one |
| Pacing.BodyPayload | examples/libh2o/httpclient.c:217-228 | The chunks of one request concatenate to exactly `body_size` filler bytes |
| Pacing.BodyWriteCount | examples/libh2o/httpclient.c:217-245 | One request issues `ceil(body_size / chunk_size)` writes |
| Pacing.BodyWriteShape | examples/libh2o/httpclient.c:217-245 | Every write is a non-empty prefix of the filler, all but the last are a full chunk, and only the last carries end-of-stream |
| Pacing.BodyComplete | examples/libh2o/httpclient.c:234-257 | A write log that followed the plan until the count ran out is the whole plan, with the count, payload and end-of-stream facts above |
| Report.PrecisionTextPrefix | examples/libh2o/httpclient.c:92 | `%.*s` writes a NUL-free prefix of the string no longer than the precision, stopping early only at a NUL |
| Report.ErrorLine | examples/libh2o/httpclient.c:87-92 | The error line holds at most 2047 characters of the message then a newline, and is the whole message when it is NUL-free and shorter than the buffer |
| Report.StatusLineReadBack | examples/libh2o/httpclient.c:174-186 | The status line reads back as major `version >> 8`, minor `version & 0xff` (written only when non-zero) and the status; the reason phrase is always lost |
| Report.HeaderLineText | examples/libh2o/httpclient.c:201-204 | A header line shows the received name when there is one, else the canonical name, cut to the canonical name's length, then `: `, the value and a newline |
| Report.HeadReportLines | examples/libh2o/httpclient.c:198-206 | For headers without line breaks the head report has exactly one line per header plus the status line and the blank line |
| Decimal.NatTextRoundTrip | examples/libh2o/httpclient.c:278 | The decimal text of a count reads back as the count |
| Decimal.IntTextReadBack | examples/libh2o/httpclient.c:176-180 | `%d` text reads back as the same integer, signed, when not followed by a digit |
| Decimal.NatTextLength | examples/libh2o/httpclient.c:277-278 | The text has at most `k` digits iff the value is below `10^k` |
| ContentLength.ClBufOverflowAsWritten | examples/libh2o/httpclient.c:277-278 | The 10-byte buffer holds `sprintf`'s output only for body sizes below 1000000000; every larger `int` size overflows it by one byte |
| ContentLength.ClBufFits | examples/libh2o/httpclient.c:277-278 | A buffer of `sizeof(H2O_UINT32_LONGEST_STR)` bytes holds the text and the NUL for every positive `int` size |
| ContentLength.ContentLengthValue | examples/libh2o/httpclient.c:277-280 | The header value is all digits, fits the corrected buffer with its NUL and reads back as the body size |

## Left out

- Connecting is abstract. `StartRequest` counts a connection, and the connect's outcome arrives
  later as a call of `OnConnect`. The socket and connection pools, TLS context, CA bundle, verify
  mode, HTTP/3 and QUIC setup are library and OpenSSL calls that the model does not have.
- The event loop's driver loops and the HTTP/3 drain loop are not modelled as loops. Each timer
  firing and each transport callback is a method that may be called in any order allowed by its
  precondition.
- Command-line parsing (`getopt`, `atoi`, `usage`) is not modelled. The constructor takes its
  result and carries the checks that the chunk size is positive and the body size is not
  negative.
- Whether `h2o_url_parse` accepts the URL is the constant `urlParses`. The parser belongs to h2o
  and is not part of this model.
- Output is modelled as appended sequences. `fwrite`, `fprintf` and `fflush` themselves are not
  modelled, and neither is stdout buffering.
- Memory pools are not modelled (`h2o_mem_clear_pool`, `h2o_mem_alloc_pool`, the `malloc` and
  `free` of the timer context).
- HttpClient.Client.OnError: the message is the formatted text. `on_connect`, `on_head` and
  `on_body` pass `errstr` itself as the format, so a `%` in an error message would be expanded by `vsnprintf`.
  The model does not do that expansion.
- HttpClient.Client.OnError: linking the single static `exit_deferred` timer again, after a
  second error, is modelled as one more exit timer. It is not modelled as re-linking one
  object.
- HttpClient.Client.OnBody: `cnt_left` is an unbounded integer. The 32-bit wrap-around after
  about 2^31 decrements of a negative count is not modelled.
- HttpClient.Client.FireTimer: `exit(1)` is recorded in `exitStatus`, and every event requires
  that the process has not exited. Flushing the GOAWAY frame before the exit is not modelled.
- HttpClient.Client.StartRequest: the new request starts with no proceed callback pending. A
  stale `proceed_request` call that the previous request's stream may still make is dropped,
  together with the timer such a call would link.
- HttpClient.Client.FireTimer: the model has one write log, that of the current request. A
  producer timer left over from an earlier request writes through that request's old client
  in the source. In the model its chunk is taken from the current count and logged on the
  current request.
- HttpClient.Client.FillBody: the filler's `iovec` base pointer is modelled by its contents. The
  static `reqbuf` of `timeout_cb` is a local value.
- End of stream is recognised by identity. The text of h2o's sentinel, "end of stream", comes
  from h2o and is not part of this model. `ErrText` uses that text when the sentinel reaches
  `on_error` from `on_connect`.

## Findings

| source | as written | input that shows it | evidently intended | confidence | as-written member | corrected member |
|---|---|---|---|---|---|---|
| examples/libh2o/httpclient.c:277-278 | `clbuf` gets `sizeof(H2O_UINT32_LONGEST_STR) - 1` = 10 bytes, but `sprintf("%d")` stores the digits and a NUL | `-b 1000000000`: the ten digits and the NUL are 11 bytes, one past the buffer | a buffer of `sizeof(H2O_UINT32_LONGEST_STR)` = 11 bytes, so every positive `int` body size fits | high for the arithmetic; the value "4294967295" of the macro is taken from h2o's string header; not executed | ContentLength.ClBufOverflowAsWritten | ContentLength.ClBufFits |
