/**
 * What the client writes to standard error: the response status line, one
 * line per response header, a blank line, and error diagnostics.
 */
module Report {
  import opened Common
  import opened Decimal

  const Nul: char := 0 as char

  /**
   * `printf("%.*s", len, s)`: at most `len` characters of `s` (no limit when
   * `len` is negative), stopping early at a NUL, which ends a C string.
   */
  function PrecisionText(s: string, len: int): string {
    if s == [] || len == 0 || s[0] == Nul then [] else [s[0]] + PrecisionText(s[1..], len - 1)
  }

  /**
   * `%.*s` writes a prefix of the string, without NUL, of at most `len`
   * characters, and it stops early only at a NUL.
   */
  lemma {:induction false} PrecisionTextPrefix(s: string, len: int)
    ensures var r := PrecisionText(s, len);
      && |r| <= |s| && r == s[..|r|]
      && Nul !in r
      && (len >= 0 ==> |r| <= len)
      && (|r| == |s| || |r| == len || s[|r|] == Nul)
  {
    if !(s == [] || len == 0 || s[0] == Nul) {
      PrecisionTextPrefix(s[1..], len - 1);
    }
  }

  /**
   * The status line as `print_status_line` writes it: the major version is
   * `version >> 8`, the minor `version & 0xff` is written only when it is not
   * zero. On a 32-bit `int` with an arithmetic right shift these are Dafny's
   * Euclidean `/ 256` and `% 256`, for negative values too. The reason
   * phrase is never written: when it is empty the code writes a space and
   * nothing, and when it is present only the newline.
   */
  function StatusLine(version: int, status: int, reason: string): string {
    VersionText(version) + (" " + IntText(status) + StatusTail(reason))
  }

  /** What follows the status code: `" %.*s\n"` for an empty reason, else only the newline. */
  function StatusTail(reason: string): string {
    if |reason| == 0 then " " + PrecisionText(reason, |reason|) + "\n" else "\n"
  }

  /** `HTTP/<major>[.<minor>]`, the first part of the status line. */
  function VersionText(version: int): string {
    "HTTP/" + IntText(version / 256) + MinorText(version % 256)
  }

  function MinorText(minor: int): string {
    if minor != 0 then "." + IntText(minor) else ""
  }

  /** A response header as handed to the head callback. */
  datatype Header = Header(name: string, origName: Option<string>, value: string)

  /** The name the head callback writes: the name as received when there is one, else the canonical name. */
  function ShownName(h: Header): string {
    if h.origName.Some? then h.origName.value else h.name
  }

  /** `name: value`, the name written with the canonical name's length as its precision. */
  function HeaderLine(h: Header): string {
    PrecisionText(ShownName(h), |h.name|) + ": " + PrecisionText(h.value, |h.value|) + "\n"
  }

  /**
   * For NUL-free text a header line is the shown name, cut to the length of
   * the canonical name, then `: `, the whole value and a newline.
   */
  lemma HeaderLineText(h: Header)
    requires Nul !in ShownName(h) && Nul !in h.value
    ensures HeaderLine(h) == ShownName(h)[..Min(|ShownName(h)|, |h.name|)] + ": " + h.value + "\n"
    ensures h.origName == None ==> HeaderLine(h) == h.name + ": " + h.value + "\n"
  {
    var shown := ShownName(h);
    PrecisionTextPrefix(shown, |h.name|);
    PrecisionTextWhole(h.value, |h.value|);
    assert shown[..|shown|] == shown;
  }

  function HeaderLines(hs: seq<Header>): string {
    if hs == [] then [] else HeaderLines(hs[..|hs| - 1]) + HeaderLine(hs[|hs| - 1])
  }

  /** Everything the head callback writes for a response: status line, headers, blank line. */
  function HeadReport(version: int, status: int, reason: string, hs: seq<Header>): string {
    StatusLine(version, status, reason) + HeaderLines(hs) + "\n"
  }

  /** The size of the error buffer `vsnprintf` formats into. */
  const ErrBufSize: nat := 2048

  /**
   * The line `on_error` writes for a formatted message: `vsnprintf` keeps at
   * most 2047 characters and a NUL, and `%.*s` stops at that NUL.
   */
  function ErrorLine(msg: string): (r: string)
    ensures 0 < |r| <= ErrBufSize && |r| - 1 <= |msg| && r[|r| - 1] == '\n'
    ensures r[..|r| - 1] == msg[..|r| - 1]
    ensures Nul !in msg && |msg| < ErrBufSize ==> r == msg + "\n"
  {
    var kept := msg[..Min(|msg|, ErrBufSize - 1)];
    PrecisionTextPrefix(kept, |msg|);
    var r := PrecisionText(kept, |msg|) + "\n";
    assert r[..|r| - 1] == PrecisionText(kept, |msg|);
    PrecisionTextWhole(kept, |msg|);
    r
  }

  /** Without a NUL and with enough precision, `%.*s` writes the whole string. */
  lemma PrecisionTextWhole(s: string, len: int)
    ensures Nul !in s && len >= |s| ==> PrecisionText(s, len) == s
  {
    PrecisionTextPrefix(s, len);
  }

  /** The fields a status line carries. */
  datatype StatusFields = StatusFields(version: int, status: int, reason: string)

  /** Reads `HTTP/<major>[.<minor>]`; gives `major * 256 + minor` and the rest of the line. */
  function ReadVersion(line: string): Option<(int, string)> {
    if |line| < 5 || line[..5] != "HTTP/" then None
    else match ReadInt(line[5..])
      case None => None
      case Some((major, k)) =>
        match ReadMinor(line[5..][k..])
        case None => None
        case Some((minor, rest)) => Some((major * 256 + minor, rest))
  }

  /** Reads `[.<minor>]`; an absent minor version is 0. */
  function ReadMinor(r: string): Option<(int, string)> {
    if |r| > 0 && r[0] == '.' then
      match ReadInt(r[1..])
      case None => None
      case Some((minor, j)) => Some((minor, r[1..][j..]))
    else Some((0, r))
  }

  /** Reads ` <status>`; gives the status and the rest of the line. */
  function ReadStatus(r: string): Option<(int, string)> {
    if |r| == 0 || r[0] != ' ' then None
    else match ReadInt(r[1..])
      case None => None
      case Some((status, i)) => Some((status, r[1..][i..]))
  }

  /** Reads `[ <reason>]` and the newline that ends the line. */
  function ReadReason(tail: string): Option<string> {
    if tail == "\n" then Some("")
    else if |tail| >= 2 && tail[0] == ' ' && tail[|tail| - 1] == '\n' then Some(tail[1..|tail| - 1])
    else None
  }

  /** Reads a status line `HTTP/<major>[.<minor>] <status>[ <reason>]` and its newline. */
  function ParseStatusLine(line: string): Option<StatusFields> {
    match ReadVersion(line)
    case None => None
    case Some((version, r)) =>
      match ReadStatus(r)
      case None => None
      case Some((status, tail)) =>
        match ReadReason(tail)
        case None => None
        case Some(reason) => Some(StatusFields(version, status, reason))
  }

  lemma ReadVersionBack(version: int, rest: string)
    requires |rest| > 0 && rest[0] == ' '
    ensures ReadVersion(VersionText(version) + rest) == Some((version, rest))
  {
    var major, minor := version / 256, version % 256;
    var after := MinorText(minor) + rest;
    ReadMinorBack(minor, rest);
    ReadMajorBack(major, after);
    assert VersionText(version) + rest == "HTTP/" + IntText(major) + after;
    Euclid(version);
  }

  lemma Euclid(version: int)
    ensures (version / 256) * 256 + version % 256 == version
  {
  }

  lemma ReadMajorBack(major: int, after: string)
    requires |after| > 0 && !IsDigit(after[0])
    ensures var line := "HTTP/" + IntText(major) + after;
      |line| >= 5 && line[..5] == "HTTP/" && ReadInt(line[5..]) == Some((major, |IntText(major)|))
      && line[5..][|IntText(major)|..] == after
  {
    var line := "HTTP/" + IntText(major) + after;
    assert line[5..] == IntText(major) + after;
    IntTextReadBack(major, after);
  }

  lemma ReadMinorBack(minor: int, rest: string)
    requires minor >= 0
    requires |rest| > 0 && rest[0] == ' '
    ensures ReadMinor(MinorText(minor) + rest) == Some((minor, rest))
  {
    var r := MinorText(minor) + rest;
    if minor != 0 {
      assert r[1..] == IntText(minor) + rest;
      IntTextReadBack(minor, rest);
      assert r[1..][|IntText(minor)|..] == rest;
    } else {
      assert r == rest;
    }
  }

  lemma ReadStatusBack(status: int, tail: string)
    requires |tail| > 0 && tail[0] in " \n"
    ensures ReadStatus(" " + IntText(status) + tail) == Some((status, tail))
  {
    var r := " " + IntText(status) + tail;
    assert r[1..] == IntText(status) + tail;
    IntTextReadBack(status, tail);
    assert r[1..][|IntText(status)|..] == tail;
  }

  /**
   * The version and the status read back from every status line the client
   * writes, and the reason phrase reads back empty whatever the server sent.
   */
  lemma StatusLineReadBack(version: int, status: int, reason: string)
    ensures ParseStatusLine(StatusLine(version, status, reason)) == Some(StatusFields(version, status, ""))
  {
    var tail := StatusTail(reason);
    assert tail == " \n" || tail == "\n";
    ReadVersionBack(version, " " + IntText(status) + tail);
    ReadStatusBack(status, tail);
  }

  function NewlineCount(s: string): nat {
    if s == [] then 0 else NewlineCount(s[..|s| - 1]) + (if s[|s| - 1] == '\n' then 1 else 0)
  }

  lemma {:induction false} NewlineCountAppend(a: string, b: string)
    ensures NewlineCount(a + b) == NewlineCount(a) + NewlineCount(b)
    decreases |b|
  {
    if b == [] {
      assert a + b == a;
    } else {
      assert (a + b)[..|a + b| - 1] == a + b[..|b| - 1];
      NewlineCountAppend(a, b[..|b| - 1]);
    }
  }

  lemma {:induction false} NoNewlineCount(s: string)
    requires '\n' !in s
    ensures NewlineCount(s) == 0
    decreases |s|
  {
    if s != [] {
      assert s[..|s| - 1] <= s;
      NoNewlineCount(s[..|s| - 1]);
    }
  }

  predicate PlainHeader(h: Header) {
    && '\n' !in h.name && '\n' !in h.value
    && (h.origName.Some? ==> '\n' !in h.origName.value)
  }

  /**
   * The response head takes one line per header between the status line and
   * the blank line, when no header text holds a line break.
   */
  lemma {:induction false} HeadReportLines(version: int, status: int, reason: string, hs: seq<Header>)
    requires forall i :: 0 <= i < |hs| ==> PlainHeader(hs[i])
    ensures NewlineCount(HeadReport(version, status, reason, hs)) == |hs| + 2
  {
    StatusLineLines(version, status, reason);
    HeaderLinesLines(hs);
    NewlineCountAppend(StatusLine(version, status, reason), HeaderLines(hs));
    NewlineCountAppend(StatusLine(version, status, reason) + HeaderLines(hs), "\n");
  }

  lemma IntTextNoNewline(i: int)
    ensures '\n' !in IntText(i)
  {
  }

  lemma StatusLineLines(version: int, status: int, reason: string)
    ensures NewlineCount(StatusLine(version, status, reason)) == 1
  {
    var head := VersionText(version) + " " + IntText(status);
    assert StatusLine(version, status, reason) == head + StatusTail(reason);
    VersionNoNewline(version);
    IntTextNoNewline(status);
    assert '\n' !in head;
    NoNewlineCount(head);
    StatusTailLines(reason);
    NewlineCountAppend(head, StatusTail(reason));
  }

  lemma VersionNoNewline(version: int)
    ensures '\n' !in VersionText(version)
  {
    IntTextNoNewline(version / 256);
    IntTextNoNewline(version % 256);
    assert '\n' !in MinorText(version % 256);
  }

  lemma StatusTailLines(reason: string)
    ensures NewlineCount(StatusTail(reason)) == 1
  {
    var tail := StatusTail(reason);
    if |reason| == 0 {
      assert tail == " \n";
      assert tail[..1] == " " && " "[..0] == [];
    } else {
      assert tail[..0] == [];
    }
  }

  lemma {:induction false} HeaderLinesLines(hs: seq<Header>)
    requires forall i :: 0 <= i < |hs| ==> PlainHeader(hs[i])
    ensures NewlineCount(HeaderLines(hs)) == |hs|
    decreases |hs|
  {
    if hs != [] {
      var h := hs[|hs| - 1];
      HeaderLinesLines(hs[..|hs| - 1]);
      var body := PrecisionText(ShownName(h), |h.name|) + ": " + PrecisionText(h.value, |h.value|);
      assert '\n' !in PrecisionText(ShownName(h), |h.name|) by {
        PrecisionTextPrefix(ShownName(h), |h.name|);
        var p := PrecisionText(ShownName(h), |h.name|);
        assert p == ShownName(h)[..|p|];
      }
      assert '\n' !in PrecisionText(h.value, |h.value|) by {
        PrecisionTextPrefix(h.value, |h.value|);
        var p := PrecisionText(h.value, |h.value|);
        assert p == h.value[..|p|];
      }
      assert '\n' !in body;
      NoNewlineCount(body);
      NewlineCountAppend(body, "\n");
      assert HeaderLine(h) == body + "\n";
      NewlineCountAppend(HeaderLines(hs[..|hs| - 1]), HeaderLine(h));
    }
  }
}
