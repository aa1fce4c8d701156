/** Parsing a request head, finding where it goes, and writing it out again for the origin. */
module HttpHead {
  import opened Common
  import opened Text

  const CRLF: string := "\r\n"
  const BLANK: string := "\r\n\r\n"

  /** Header lines verbatim, without their CRLF. */
  datatype Request = Request(method_: string, target: string, version: string, headers: seq<string>)

  datatype ForwardTarget = ForwardTarget(host: string, port: nat, originForm: string, authority: string)

  datatype ParseError = NotUtf8 | MissingMethod | MissingTarget | MissingVersion | MalformedLine

  datatype TargetError = BadAuthority | NoHost | BadHost | Unsupported

  // ── Reading ─────────────────────────────────────────────────────────────────

  /** `trim_end_matches("\r\n")`. */
  function TrimCrlf(text: string): string {
    if |text| >= 2 && text[|text| - 2..] == CRLF then TrimCrlf(text[..|text| - 2]) else text
  }

  /** `split("\r\n")`. */
  function SplitCrlf(text: string): (lines: seq<string>)
    ensures |lines| > 0
    decreases |text|
  {
    var k := Find(text, CRLF);
    if k.None? then [text] else [text[..k.value]] + SplitCrlf(text[k.value + 2..])
  }

  /** `split(' ')` without the empty pieces. */
  function Tokens(line: string): seq<string>
    decreases |line|
  {
    var k := FindChar(line, ' ');
    if k.None? then NonEmpty(line)
    else NonEmpty(line[..k.value]) + Tokens(line[k.value + 1..])
  }

  function NonEmpty(s: string): seq<string> { if s == "" then [] else [s] }

  function ParseText(text: string): Result<Request, ParseError> {
    var lines := SplitCrlf(TrimCrlf(text));
    var parts := Tokens(lines[0]);
    if |parts| == 0 then Err(MissingMethod)
    else if |parts| == 1 then Err(MissingTarget)
    else if |parts| == 2 then Err(MissingVersion)
    else if |parts| > 3 then Err(MalformedLine)
    else Ok(Request(parts[0], parts[1], parts[2], lines[1..]))
  }

  function ParseRequest(head: seq<byte>): Result<Request, ParseError> {
    var text := FromUtf8(head);
    if text.None? then Err(NotUtf8) else ParseText(text.value)
  }

  // ── Header names and values ─────────────────────────────────────────────────

  /** `char::is_whitespace`: the Unicode White_Space property. */
  predicate White(c: char) {
    var n := c as int;
    9 <= n <= 13 || n == 0x20 || n == 0x85 || n == 0xA0 || n == 0x1680 || 0x2000 <= n <= 0x200A
    || n == 0x2028 || n == 0x2029 || n == 0x202F || n == 0x205F || n == 0x3000
  }

  function TrimStart(s: string): string {
    if s != "" && White(s[0]) then TrimStart(s[1..]) else s
  }

  function TrimEnd(s: string): string {
    if s != "" && White(s[|s| - 1]) then TrimEnd(s[..|s| - 1]) else s
  }

  function Trim(s: string): string { TrimEnd(TrimStart(s)) }

  function LowerChar(c: char): char {
    if 'A' <= c <= 'Z' then (c as int + 32) as char else c
  }

  function Lower(s: string): string { seq(|s|, i requires 0 <= i < |s| => LowerChar(s[i])) }

  function UpTo(s: string, c: char): string {
    var k := FindChar(s, c);
    if k.None? then s else s[..k.value]
  }

  /** The name a header line is known by: up to the first colon, or the whole line. */
  function HeaderName(h: string): string { Lower(Trim(UpTo(h, ':'))) }

  /** The value of the first header of this name that has a colon. */
  function FindHeader(headers: seq<string>, name: string): Option<string> {
    if headers == [] then None
    else
      var k := FindChar(headers[0], ':');
      if k.Some? && HeaderName(headers[0]) == Lower(name) then Some(Trim(headers[0][k.value + 1..]))
      else FindHeader(headers[1..], name)
  }

  // ── Where the request goes ──────────────────────────────────────────────────

  function PortOr(s: string, host: string): Option<(string, nat)> {
    var port := ParseU16(s);
    if port.None? then None else Some((host, port.value))
  }

  /** `host:port`, `[v6]:port` or `host`. What follows `]` without a colon is ignored. */
  function SplitAuthority(authority: string, defaultPort: nat): Option<(string, nat)> {
    if authority != "" && authority[0] == '[' then
      var rest := authority[1..];
      var end := FindChar(rest, ']');
      if end.None? then None
      else
        var host, after := rest[..end.value], rest[end.value + 1..];
        if after != "" && after[0] == ':' then PortOr(after[1..], host) else Some((host, defaultPort))
    else
      var colon := FindLastChar(authority, ':');
      if colon.None? then Some((authority, defaultPort))
      else PortOr(authority[colon.value + 1..], authority[..colon.value])
  }

  const SCHEME: string := "http://"

  function Resolve(authority: string, originForm: string, error: TargetError): Result<ForwardTarget, TargetError> {
    var hostPort := SplitAuthority(authority, 80);
    if hostPort.None? then Err(error)
    else Ok(ForwardTarget(hostPort.value.0, hostPort.value.1, originForm, authority))
  }

  function ForwardTo(req: Request): Result<ForwardTarget, TargetError> {
    if SCHEME <= req.target then
      var rest := req.target[|SCHEME|..];
      var slash := FindChar(rest, '/');
      if slash.Some? then Resolve(rest[..slash.value], rest[slash.value..], BadAuthority)
      else Resolve(rest, "/", BadAuthority)
    else if req.target != "" && req.target[0] == '/' then
      var host := FindHeader(req.headers, "Host");
      if host.None? then Err(NoHost) else Resolve(host.value, req.target, BadHost)
    else Err(Unsupported)
  }

  // ── Writing ─────────────────────────────────────────────────────────────────

  const DROPPED: set<string> := {"proxy-connection", "proxy-authorization", "proxy-authentication", "keep-alive"}
  const CONNECTION: string := "connection"
  const CLOSE: string := "Connection: close"

  /** Every line with its CRLF. */
  function Block(lines: seq<string>): string {
    if lines == [] then "" else lines[0] + CRLF + Block(lines[1..])
  }

  function HeadText(lines: seq<string>): string { Block(lines) + CRLF }

  /** What one header line becomes: dropped, `close` for the first Connection, or itself. */
  function Emitted(h: string, haveConnection: bool): seq<string> {
    var name := HeaderName(h);
    if name in DROPPED then []
    else if name == CONNECTION then (if haveConnection then [] else [CLOSE])
    else [h]
  }

  function Keep(headers: seq<string>, haveConnection: bool): seq<string> {
    if headers == [] then []
    else Emitted(headers[0], haveConnection) + Keep(headers[1..], haveConnection || HeaderName(headers[0]) == CONNECTION)
  }

  predicate Has(headers: seq<string>, name: string) {
    exists i :: 0 <= i < |headers| && HeaderName(headers[i]) == name
  }

  function RequestLine(method_: string, target: string, version: string): string {
    method_ + " " + target + " " + version
  }

  /** The lines a request without them gets. */
  function Added(headers: seq<string>, authority: string): seq<string> {
    (if Has(headers, CONNECTION) then [] else [CLOSE])
    + (if Has(headers, "host") then [] else ["Host: " + authority])
  }

  function NewHeaders(headers: seq<string>, authority: string): seq<string> {
    Keep(headers, false) + Added(headers, authority)
  }

  function Rewrite(req: Request, target: ForwardTarget): string {
    HeadText([RequestLine(req.method_, target.originForm, req.version)] + NewHeaders(req.headers, target.authority))
  }

  lemma {:induction false} BlockConcat(a: seq<string>, b: seq<string>)
    ensures Block(a + b) == Block(a) + Block(b)
  {
    if a == [] {
      assert a + b == b;
    } else {
      assert (a + b)[1..] == a[1..] + b;
      BlockConcat(a[1..], b);
    }
  }

  lemma {:induction false} BlockPush(lines: seq<string>, line: string)
    ensures Block(lines + [line]) == Block(lines) + line + CRLF
  {
    BlockConcat(lines, [line]);
    var one := [line];
    assert one[1..] == [];
  }

  lemma {:induction false} HasStep(headers: seq<string>, i: nat, name: string)
    requires i < |headers|
    ensures Has(headers[..i + 1], name) <==> Has(headers[..i], name) || HeaderName(headers[i]) == name
  {
    var longer, shorter := headers[..i + 1], headers[..i];
    if Has(shorter, name) {
      var j :| 0 <= j < i && HeaderName(shorter[j]) == name;
      assert longer[j] == shorter[j];
    }
    if HeaderName(headers[i]) == name { assert longer[i] == headers[i]; }
    if Has(longer, name) {
      var j :| 0 <= j <= i && HeaderName(longer[j]) == name;
      assert j < i ==> shorter[j] == longer[j];
    }
  }

  lemma {:induction false} KeepStep(headers: seq<string>, i: nat, done: seq<string>, have: bool)
    requires i < |headers|
    ensures done + Keep(headers[i..], have)
      == (done + Emitted(headers[i], have)) + Keep(headers[i + 1..], have || HeaderName(headers[i]) == CONNECTION)
  {
    var rest := headers[i..];
    assert rest[0] == headers[i] && rest[1..] == headers[i + 1..];
  }

  /** What each branch of the loop appends. */
  lemma {:induction false} EmittedPush(done: seq<string>, h: string, had: bool)
    ensures var name, more := HeaderName(h), Block(done + Emitted(h, had));
      if name in DROPPED || (name == CONNECTION && had) then more == Block(done)
      else if name == CONNECTION then more == Block(done) + CLOSE + CRLF
      else more == Block(done) + h + CRLF
  {
    assert done + [] == done;
    BlockPush(done, CLOSE);
    BlockPush(done, h);
  }

  /** One turn of the loop over the headers. */
  method PushHeader(before: string, h: string, had: bool, ghost done: seq<string>) returns (out: string, have: bool)
    requires before == Block(done)
    ensures out == Block(done + Emitted(h, had))
    ensures have == (had || HeaderName(h) == CONNECTION)
  {
    out, have := before, had;
    var lower := HeaderName(h);
    EmittedPush(done, h, had);
    if lower in DROPPED {
    } else if lower == CONNECTION {
      if !have {
        out := out + CLOSE + CRLF;
        have := true;
      }
    } else {
      out := out + h + CRLF;
    }
  }

  /** The loop over the headers. */
  method PushHeaders(before: string, headers: seq<string>, ghost lines: seq<string>)
    returns (out: string, haveConnection: bool, haveHost: bool)
    requires before == Block(lines)
    ensures out == Block(lines + Keep(headers, false))
    ensures haveConnection == Has(headers, CONNECTION) && haveHost == Has(headers, "host")
  {
    ghost var done := lines;
    out, haveConnection, haveHost := before, false, false;
    assert headers[0..] == headers;
    for i := 0 to |headers|
      invariant out == Block(done)
      invariant done + Keep(headers[i..], haveConnection) == lines + Keep(headers, false)
      invariant haveConnection == Has(headers[..i], CONNECTION)
      invariant haveHost == Has(headers[..i], "host")
    {
      HasStep(headers, i, CONNECTION);
      HasStep(headers, i, "host");
      KeepStep(headers, i, done, haveConnection);
      haveHost := haveHost || HeaderName(headers[i]) == "host";
      ghost var more := Emitted(headers[i], haveConnection);
      out, haveConnection := PushHeader(out, headers[i], haveConnection, done);
      done := done + more;
    }
    assert headers[..|headers|] == headers && headers[|headers|..] == [];
    assert done + [] == done;
  }

  method RewriteHead(req: Request, target: ForwardTarget) returns (out: string)
    ensures out == Rewrite(req, target)
  {
    ghost var first := RequestLine(req.method_, target.originForm, req.version);
    out := req.method_ + " " + target.originForm + " " + req.version + CRLF;
    BlockPush([], first);
    assert [] + [first] == [first];
    var haveConnection, haveHost;
    out, haveConnection, haveHost := PushHeaders(out, req.headers, [first]);
    ghost var kept, added := Keep(req.headers, false), Added(req.headers, target.authority);
    out := Finish(out, [first] + kept, req.headers, haveConnection, haveHost, target.authority);
    assert ([first] + kept) + added == [first] + (kept + added);
  }

  /** The lines the loop did not meet, and the blank line. */
  method Finish(before: string, ghost lines: seq<string>, ghost headers: seq<string>, haveConnection: bool, haveHost: bool, authority: string)
    returns (out: string)
    requires before == Block(lines) && haveConnection == Has(headers, CONNECTION) && haveHost == Has(headers, "host")
    ensures out == HeadText(lines + Added(headers, authority))
  {
    out := before;
    ghost var done := lines;
    if !haveConnection {
      BlockPush(done, CLOSE);
      done := done + [CLOSE];
      out := out + CLOSE + CRLF;
    }
    if !haveHost {
      var host := "Host: " + authority;
      BlockPush(done, host);
      done := done + [host];
      out := out + host + CRLF;
    }
    out := out + CRLF;
    assert done == lines + Added(headers, authority);
  }
}

/** Lines, tokens, header names and the rewritten head, piece by piece. */
module HttpProofs {
  import opened Common
  import opened Seqs
  import opened Text
  import opened HttpHead
  import HttpRead

  // ── Lines and their breaks ──────────────────────────────────────────────────

  ghost predicate Breaks(s: string, i: nat) {
    i + 1 < |s| && s[i] == '\r' && s[i + 1] == '\n'
  }

  ghost predicate OneLine(s: string) {
    forall i: nat :: !Breaks(s, i)
  }

  /** A line a head can hold without ending there. */
  ghost predicate Line(s: string) {
    s != "" && OneLine(s)
  }

  ghost predicate Lines(lines: seq<string>) {
    forall i :: 0 <= i < |lines| ==> Line(lines[i])
  }

  lemma {:induction false} AtIsBreak(s: string, i: nat)
    ensures At(s, i, CRLF) <==> Breaks(s, i)
  {
    if i + 2 <= |s| {
      assert s[i..i + 2] == [s[i], s[i + 1]];
      assert CRLF == ['\r', '\n'];
    }
  }

  lemma {:induction false} AtIsTwoBreaks(s: string, i: nat)
    ensures At(s, i, BLANK) <==> Breaks(s, i) && Breaks(s, i + 2)
  {
    if i + 4 <= |s| {
      assert s[i..i + 4] == [s[i], s[i + 1], s[i + 2], s[i + 3]];
      assert BLANK == ['\r', '\n', '\r', '\n'];
    }
  }

  lemma {:induction false} PartOfLine(s: string, i: nat, j: nat)
    requires OneLine(s) && i <= j <= |s|
    ensures OneLine(s[i..j])
  {
    forall k: nat ensures !Breaks(s[i..j], k) {
      assert !Breaks(s, i + k);
    }
  }

  /** A line's own CRLF is the first break of whatever starts with it. */
  lemma {:induction false} FirstBreak(line: string, rest: string)
    requires OneLine(line)
    ensures Find(line + CRLF + rest, CRLF) == Some(|line|)
  {
    var s := line + CRLF + rest;
    AtIsBreak(s, |line|);
    forall i: nat | i < |line| ensures !At(s, i, CRLF) {
      AtIsBreak(s, i);
      assert !Breaks(line, i);
    }
    FindIs(s, CRLF, |line|);
  }

  // ── Heads as lists of lines ─────────────────────────────────────────────────

  /** The head without its last two CRLFs. */
  ghost function Joined(lines: seq<string>): string
    requires |lines| > 0
  {
    if |lines| == 1 then lines[0] else lines[0] + CRLF + Joined(lines[1..])
  }

  lemma {:induction false} BlockIsJoined(lines: seq<string>)
    requires |lines| > 0
    ensures Block(lines) == Joined(lines) + CRLF
  {
    if |lines| > 1 {
      BlockIsJoined(lines[1..]);
      assert lines[0] + CRLF + (Joined(lines[1..]) + CRLF) == Joined(lines) + CRLF;
    } else {
      assert lines[1..] == [];
    }
  }

  lemma {:induction false} SplitJoined(lines: seq<string>)
    requires |lines| > 0 && Lines(lines)
    ensures SplitCrlf(Joined(lines)) == lines
  {
    var text := Joined(lines);
    if |lines| == 1 {
      forall i: nat ensures !At(text, i, CRLF) { AtIsBreak(text, i); }
    } else {
      var rest := Joined(lines[1..]);
      FirstBreak(lines[0], rest);
      assert text[..|lines[0]|] == lines[0] && text[|lines[0]| + 2..] == rest;
      SplitJoined(lines[1..]);
    }
  }

  /** The joined lines do not end in a break, so trimming stops there. */
  lemma {:induction false} JoinedEnds(lines: seq<string>)
    requires |lines| > 0 && Lines(lines)
    ensures var s := Joined(lines); |s| > 0 && !(|s| >= 2 && Breaks(s, |s| - 2))
  {
    var s := Joined(lines);
    if |lines| == 1 {
      assert |s| >= 2 ==> !Breaks(lines[0], |s| - 2);
    } else {
      var rest := Joined(lines[1..]);
      JoinedEnds(lines[1..]);
      if |rest| >= 2 {
        assert s[|s| - 2] == rest[|rest| - 2] && s[|s| - 1] == rest[|rest| - 1];
      } else {
        assert s[|s| - 2] == '\n';
      }
    }
  }

  lemma {:induction false} TrimNothing(s: string)
    requires !(|s| >= 2 && Breaks(s, |s| - 2))
    ensures TrimCrlf(s) == s
  {
    if |s| >= 2 {
      AtIsBreak(s, |s| - 2);
      assert s[|s| - 2..] == s[|s| - 2..|s| - 2 + 2];
    }
  }

  lemma {:induction false} TrimStops(s: string)
    requires !(|s| >= 2 && Breaks(s, |s| - 2))
    ensures TrimCrlf(s + CRLF + CRLF) == s
  {
    TrimNothing(s);
  }

  /** A head made of proper lines splits back into them. */
  lemma {:induction false} HeadSplits(lines: seq<string>)
    requires |lines| > 0 && Lines(lines)
    ensures SplitCrlf(TrimCrlf(HeadText(lines))) == lines
  {
    BlockIsJoined(lines);
    JoinedEnds(lines);
    TrimStops(Joined(lines));
    SplitJoined(lines);
  }

  /** No break of a head lies inside a line or across its end. */
  lemma {:induction false} BreakPlaces(line: string, rest: string, i: nat)
    requires OneLine(line) && Breaks(line + CRLF + rest, i)
    ensures i == |line| || (i >= |line| + 2 && Breaks(rest, i - |line| - 2))
  {
    assert !Breaks(line, i);
  }

  lemma {:induction false} HeadStart(lines: seq<string>)
    requires Lines(lines)
    ensures Breaks(HeadText(lines), 0) <==> lines == []
  {
    if lines != [] {
      var text := HeadText(lines);
      assert !Breaks(lines[0], 0);
      assert text == lines[0] + CRLF + (Block(lines[1..]) + CRLF);
    }
  }

  /** Its first blank line is exactly at its end. */
  lemma {:induction false} HeadBlank(lines: seq<string>, i: nat)
    requires |lines| > 0 && Lines(lines)
    ensures At(HeadText(lines), i, BLANK) <==> i + 4 == |HeadText(lines)|
  {
    var text, rest := HeadText(lines), HeadText(lines[1..]);
    var line := lines[0];
    assert text == line + CRLF + rest;
    AtIsTwoBreaks(text, i);
    HeadStart(lines[1..]);
    if Breaks(text, i) { BreakPlaces(line, rest, i); }
    if i == |line| {
      assert Breaks(text, i + 2) <==> Breaks(rest, 0);
      if lines[1..] != [] { BlockIsJoined(lines[1..]); }
    } else if i >= |line| + 2 && lines[1..] != [] {
      HeadBlank(lines[1..], i - |line| - 2);
      AtIsTwoBreaks(rest, i - |line| - 2);
    } else if lines[1..] != [] {
      BlockIsJoined(lines[1..]);
    }
  }

  // ── A head as it was read ───────────────────────────────────────────────────

  lemma {:induction false} SplitIsLines(text: string)
    ensures Joined(SplitCrlf(text)) == text
    ensures forall i :: 0 <= i < |SplitCrlf(text)| ==> OneLine(SplitCrlf(text)[i])
    decreases |text|
  {
    var k := Find(text, CRLF);
    if k.None? {
      forall i: nat ensures !Breaks(text, i) { AtIsBreak(text, i); }
    } else {
      var line, rest := text[..k.value], text[k.value + 2..];
      SplitIsLines(rest);
      forall i: nat ensures !Breaks(line, i) { AtIsBreak(text, i); }
      assert text == line + CRLF + rest;
      var lines := SplitCrlf(text);
      assert lines[1..] == SplitCrlf(rest);
    }
  }

  /** No blank line before the end, none at the start: no empty line. */
  lemma {:induction false} SplitHasNoEmpty(body: string)
    requires body != "" && !Breaks(body, 0)
    requires forall i: nat :: i < |body| ==> !At(body + BLANK, i, BLANK)
    ensures forall i :: 0 <= i < |SplitCrlf(body)| ==> SplitCrlf(body)[i] != ""
    decreases |body|
  {
    var k := Find(body, CRLF);
    if k.Some? {
      var at, rest := k.value, body[k.value + 2..];
      AtIsBreak(body, at);
      assert at > 0;
      NoBlankAt(body, rest, at);
      assert body == body[..at + 2] + rest;
      assert body + BLANK == body[..at + 2] + (rest + BLANK);
      forall i: nat | i < |rest| ensures !At(rest + BLANK, i, BLANK) {
        AtShift(body[..at + 2], rest + BLANK, i, BLANK);
        assert !At(body + BLANK, at + 2 + i, BLANK);
      }
      SplitHasNoEmpty(rest);
    }
  }

  lemma {:induction false} NoBlankAt(body: string, rest: string, at: nat)
    requires Breaks(body, at) && rest == body[at + 2..] && !At(body + BLANK, at, BLANK)
    ensures rest != "" && !Breaks(rest, 0)
  {
    var text := body + BLANK;
    AtIsTwoBreaks(text, at);
    assert Breaks(text, at);
    assert !Breaks(text, at + 2);
  }

  lemma {:induction false} BodyEnds(body: string)
    requires forall i: nat :: i < |body| ==> !At(body + BLANK, i, BLANK)
    ensures !(|body| >= 2 && Breaks(body, |body| - 2))
  {
    if |body| >= 2 {
      AtIsTwoBreaks(body + BLANK, |body| - 2);
      assert !At(body + BLANK, |body| - 2, BLANK);
    }
  }

  lemma {:induction false} BodyIsLines(body: string)
    requires body != "" && !Breaks(body, 0)
    requires forall i: nat :: i < |body| ==> !At(body + BLANK, i, BLANK)
    ensures Lines(SplitCrlf(TrimCrlf(body + CRLF + CRLF)))
    ensures HeadText(SplitCrlf(TrimCrlf(body + CRLF + CRLF))) == body + CRLF + CRLF
  {
    BodyEnds(body);
    TrimStops(body);
    SplitHasNoEmpty(body);
    SplitIsLines(body);
    BlockIsJoined(SplitCrlf(body));
  }

  lemma {:induction false} HeadIsBody(text: string) returns (body: string)
    requires |text| > 4 && At(text, |text| - 4, BLANK)
    ensures body != "" && text == body + BLANK && text == body + CRLF + CRLF
    ensures Breaks(body, 0) ==> Breaks(text, 0)
  {
    body := text[..|text| - 4];
    assert text[|text| - 4..|text| - 4 + 4] == text[|text| - 4..];
    assert text == body + text[|text| - 4..];
  }

  /** A head cut at its first blank line, not starting with a break, is a list of proper lines. */
  lemma {:induction false} ReadHeadIsLines(text: string)
    requires |text| > 4 && Find(text, BLANK) == Some(|text| - 4) && !Breaks(text, 0)
    ensures var lines := SplitCrlf(TrimCrlf(text)); Lines(lines) && HeadText(lines) == text
  {
    var body := HeadIsBody(text);
    BodyIsLines(body);
  }

  // ── The request line ────────────────────────────────────────────────────────

  /** A piece of a request line. */
  ghost predicate Token(s: string) {
    Line(s) && ' ' !in s
  }

  lemma {:induction false} TokensAreTokens(line: string)
    requires OneLine(line)
    ensures forall t :: t in Tokens(line) ==> Token(t)
    decreases |line|
  {
    var k := FindChar(line, ' ');
    if k.Some? {
      PartOfLine(line, 0, k.value);
      PartOfLine(line, k.value + 1, |line|);
      assert line[k.value + 1..|line|] == line[k.value + 1..];
      TokensAreTokens(line[k.value + 1..]);
    }
  }

  lemma {:induction false} TokensHead(before: string, rest: string, s: string)
    requires s == before + " " + rest && ' ' !in before
    ensures Tokens(s) == NonEmpty(before) + Tokens(rest)
  {
    FindCharIs(before, ' ', rest);
    assert s[..|before|] == before && s[|before| + 1..] == rest;
  }

  lemma {:induction false} Regroup(before: string, rest: string, b: string, a: string, tail: string)
    requires a == before + " " + rest && tail == rest + " " + b
    ensures a + " " + b == before + " " + tail
  {
  }

  lemma {:induction false} SameTail(first: seq<string>, rest: seq<string>, b: seq<string>, a: seq<string>, whole: seq<string>)
    requires a == first + rest && whole == first + (rest + b)
    ensures whole == a + b
  {
  }

  lemma {:induction false} CutAtSpace(a: string) returns (before: string, rest: string)
    requires ' ' in a
    ensures a == before + " " + rest && ' ' !in before && |rest| < |a|
  {
    var k := FindChar(a, ' ').value;
    before, rest := a[..k], a[k + 1..];
  }

  lemma {:induction false} OneToken(token: string)
    requires token != "" && ' ' !in token
    ensures Tokens(token) == [token]
  {
    assert FindChar(token, ' ').None?;
  }

  /** A space, or any sign but CR and LF, between two lines makes no break. */
  lemma {:induction false} OneLineJoins(a: string, c: char, b: string)
    requires OneLine(a) && OneLine(b) && c != '\r' && c != '\n'
    ensures OneLine(a + [c] + b)
  {
    var s := a + [c] + b;
    forall i: nat ensures !Breaks(s, i) {
      assert !Breaks(a, i);
      if i > |a| { assert !Breaks(b, i - |a| - 1); }
    }
  }

  // ── What a read request is made of ──────────────────────────────────────────

  ghost predicate Sound(req: Request) {
    Token(req.method_) && Token(req.target) && Token(req.version) && Lines(req.headers)
  }

  ghost predicate EndsBlank(text: string) {
    |text| >= 4 && Find(text, BLANK) == Some(|text| - 4)
  }

  lemma {:induction false} TrimKeepsBreak(text: string)
    requires Breaks(text, 0)
    ensures TrimCrlf(text) == "" || Breaks(TrimCrlf(text), 0)
    decreases |text|
  {
    if text[|text| - 2..] == CRLF {
      var less := text[..|text| - 2];
      assert text[|text| - 2] == '\r';
      if less != "" {
        assert Breaks(less, 0);
        TrimKeepsBreak(less);
      }
    }
  }

  /** A head that starts with a break has no request line. */
  lemma {:induction false} LeadingBreakIsRefused(text: string)
    requires Breaks(text, 0)
    ensures ParseText(text).Err?
  {
    TrimKeepsBreak(text);
    var s := TrimCrlf(text);
    if s != "" {
      AtIsBreak(s, 0);
      FindIs(s, CRLF, 0);
    }
    assert SplitCrlf(s)[0] == "";
  }

  // ── Header names ────────────────────────────────────────────────────────────

  lemma {:induction false} NameBeforeColon(name: string, value: string)
    requires name != "" && ':' !in name && !White(name[0]) && !White(name[|name| - 1])
    ensures HeaderName(name + ":" + value) == Lower(name)
  {
    FindCharIs(name, ':', value);
    var h := name + ":" + value;
    assert h[..|name|] == name;
  }

  lemma {:induction false} CloseIsLine()
    ensures Line(CLOSE)
  {
    forall i: nat ensures !Breaks(CLOSE, i) {}
  }

  lemma {:induction false} LowerConnection()
    ensures Lower("Connection") == CONNECTION
  {
    var s := Lower("Connection");
    assert s[0] == 'c' && s[1] == 'o' && s[2] == 'n' && s[3] == 'n' && s[4] == 'e';
    assert s[5] == 'c' && s[6] == 't' && s[7] == 'i' && s[8] == 'o' && s[9] == 'n';
  }

  lemma {:induction false} LowerHost()
    ensures Lower("Host") == "host"
  {
    var s := Lower("Host");
    assert s[0] == 'h' && s[1] == 'o' && s[2] == 's' && s[3] == 't';
  }

  lemma {:induction false} CloseIsConnection()
    ensures HeaderName(CLOSE) == CONNECTION
  {
    NameBeforeColon("Connection", " close");
    assert CLOSE == "Connection" + ":" + " close";
    LowerConnection();
  }

  lemma {:induction false} HostIsHost(authority: string)
    requires OneLine(authority)
    ensures HeaderName("Host: " + authority) == "host" && Line("Host: " + authority)
  {
    NameBeforeColon("Host", " " + authority);
    assert "Host: " + authority == "Host" + ":" + (" " + authority);
    LowerHost();
    OneLineJoins("Host:", ' ', authority);
    assert "Host: " + authority == "Host:" + " " + authority;
  }

  lemma {:induction false} NamesApart()
    ensures CONNECTION !in DROPPED && "host" !in DROPPED && CONNECTION != "host"
  {
    assert CONNECTION[0] == 'c' && "keep-alive"[0] == 'k';
  }

  // ── Which headers survive ───────────────────────────────────────────────────

  function NameRule(names: set<string>, inside: bool): string -> seq<string> {
    h => if (HeaderName(h) in names) == inside then [h] else []
  }

  /** The headers whose name is (or is not) one of these, in order. */
  function Named(headers: seq<string>, names: set<string>, inside: bool): seq<string> {
    Collect(NameRule(names, inside), headers)
  }

  lemma {:induction false} NamedConcat(a: seq<string>, b: seq<string>, names: set<string>, inside: bool)
    ensures Named(a + b, names, inside) == Named(a, names, inside) + Named(b, names, inside)
  {
    CollectConcat(NameRule(names, inside), a, b);
  }

  /** Names about the connection to the proxy itself. */
  ghost const HOP: set<string> := {"connection", "proxy-connection", "proxy-authorization", "proxy-authentication", "keep-alive"}

  /** Those that no rewritten head holds. */
  ghost const PROXY: set<string> := {"proxy-connection", "proxy-authorization", "proxy-authentication", "keep-alive"}

  lemma {:induction false} NamedOne(h: string, names: set<string>, inside: bool)
    ensures Named([h], names, inside) == if (HeaderName(h) in names) == inside then [h] else []
  {
    CollectOne(NameRule(names, inside), h);
  }

  lemma {:induction false} EmittedNamed(h: string, have: bool)
    ensures Named(Emitted(h, have), HOP, false) == Named([h], HOP, false)
    ensures Named(Emitted(h, have), PROXY, true) == []
    ensures Named(Emitted(h, have), {CONNECTION}, true) == if HeaderName(h) == CONNECTION && !have then [CLOSE] else []
  {
    CloseIsConnection();
    NamesApart();
    NamedOne(h, HOP, false);
    NamedOne(h, PROXY, true);
    NamedOne(h, {CONNECTION}, true);
    NamedOne(CLOSE, HOP, false);
    NamedOne(CLOSE, PROXY, true);
    NamedOne(CLOSE, {CONNECTION}, true);
  }

  lemma {:induction false} HasTail(headers: seq<string>, name: string)
    requires headers != []
    ensures Has(headers, name) <==> HeaderName(headers[0]) == name || Has(headers[1..], name)
  {
    if Has(headers[1..], name) {
      var i :| 0 <= i < |headers| - 1 && HeaderName(headers[1..][i]) == name;
      assert headers[i + 1] == headers[1..][i];
    }
    if Has(headers, name) {
      var i :| 0 <= i < |headers| && HeaderName(headers[i]) == name;
      assert i > 0 ==> headers[1..][i - 1] == headers[i];
    }
  }

  lemma {:induction false} KeepNamed(headers: seq<string>, have: bool)
    ensures Named(Keep(headers, have), HOP, false) == Named(headers, HOP, false)
    ensures Named(Keep(headers, have), PROXY, true) == []
    ensures Named(Keep(headers, have), {CONNECTION}, true) == if Has(headers, CONNECTION) && !have then [CLOSE] else []
  {
    if headers != [] {
      var h, rest := headers[0], headers[1..];
      var now := have || HeaderName(h) == CONNECTION;
      KeepNamed(rest, now);
      EmittedNamed(h, have);
      HasTail(headers, CONNECTION);
      NamedOne(h, HOP, false);
      NamedConcat(Emitted(h, have), Keep(rest, now), HOP, false);
      NamedConcat(Emitted(h, have), Keep(rest, now), PROXY, true);
      NamedConcat(Emitted(h, have), Keep(rest, now), {CONNECTION}, true);
    }
  }

  lemma {:induction false} AddedNamed(headers: seq<string>, authority: string)
    requires OneLine(authority)
    ensures var added := Added(headers, authority);
      && Named(added, HOP, false) == (if Has(headers, "host") then [] else ["Host: " + authority])
      && Named(added, PROXY, true) == []
      && Named(added, {CONNECTION}, true) == if Has(headers, CONNECTION) then [] else [CLOSE]
  {
    var close: seq<string> := if Has(headers, CONNECTION) then [] else [CLOSE];
    var host := "Host: " + authority;
    var hosts: seq<string> := if Has(headers, "host") then [] else [host];
    CloseIsConnection();
    HostIsHost(authority);
    NamesApart();
    NamedOne(CLOSE, HOP, false);
    NamedOne(CLOSE, PROXY, true);
    NamedOne(CLOSE, {CONNECTION}, true);
    NamedOne(host, HOP, false);
    NamedOne(host, PROXY, true);
    NamedOne(host, {CONNECTION}, true);
    NamedConcat(close, hosts, HOP, false);
    NamedConcat(close, hosts, PROXY, true);
    NamedConcat(close, hosts, {CONNECTION}, true);
  }

  // ── Rewriting twice ─────────────────────────────────────────────────────────

  lemma {:induction false} SomethingNamed(headers: seq<string>, name: string)
    requires !Has(headers, name)
    ensures Named(headers, {name}, true) == []
  {
    if headers != [] {
      HasTail(headers, name);
      SomethingNamed(headers[1..], name);
    }
  }

  lemma {:induction false} NamedTail(headers: seq<string>, names: set<string>)
    requires headers != []
    ensures Named(headers, names, true) == [] ==> HeaderName(headers[0]) !in names && Named(headers[1..], names, true) == []
    ensures HeaderName(headers[0]) !in names ==> Named(headers[1..], names, true) == Named(headers, names, true)
    ensures HeaderName(headers[0]) in names ==> Named(headers, names, true) == [headers[0]] + Named(headers[1..], names, true)
  {
  }

  lemma {:induction false} OneLeft(h: string, rest: seq<string>, s: seq<string>, one: string)
    requires [h] + rest == s && (s == [] || s == [one])
    ensures s == [one] && h == one && rest == []
  {
    assert s[0] == h && |s| == 1 + |rest|;
  }

  /** Nothing to drop, and no Connection but one `close` unless that has gone out. */
  ghost predicate Final(headers: seq<string>, have: bool) {
    Named(headers, PROXY, true) == [] && Named(headers, {CONNECTION}, true) == if have then [] else [CLOSE]
  }

  lemma {:induction false} FinalStep(headers: seq<string>, have: bool)
    requires headers != [] && Final(headers, have)
    ensures Emitted(headers[0], have) == [headers[0]]
    ensures Final(headers[1..], have || HeaderName(headers[0]) == CONNECTION)
  {
    var h, rest := headers[0], headers[1..];
    NamedTail(headers, PROXY);
    NamedTail(headers, {CONNECTION});
    if HeaderName(h) == CONNECTION {
      OneLeft(h, Named(rest, {CONNECTION}, true), Named(headers, {CONNECTION}, true), CLOSE);
    }
  }

  /** Then every line stays. */
  lemma {:induction false} KeepAll(headers: seq<string>, have: bool)
    requires Final(headers, have)
    ensures Keep(headers, have) == headers
  {
    if headers != [] {
      FinalStep(headers, have);
      var now := have || HeaderName(headers[0]) == CONNECTION;
      KeepAll(headers[1..], now);
      Prepend(headers, Emitted(headers[0], have), Keep(headers[1..], now));
    }
  }

  lemma {:induction false} Prepend(s: seq<string>, first: seq<string>, rest: seq<string>)
    requires s != [] && first == [s[0]] && rest == s[1..]
    ensures first + rest == s
  {
  }

  lemma {:induction false} KeepsHost(headers: seq<string>, have: bool)
    ensures Has(headers, "host") ==> Has(Keep(headers, have), "host")
  {
    if headers != [] {
      HasTail(headers, "host");
      NamesApart();
      var now := have || HeaderName(headers[0]) == CONNECTION;
      KeepsHost(headers[1..], now);
      HasConcat(Emitted(headers[0], have), Keep(headers[1..], now), "host");
      var one := [headers[0]];
      assert one[0] == headers[0];
    }
  }

  lemma {:induction false} HasConcat(a: seq<string>, b: seq<string>, name: string)
    ensures Has(a, name) || Has(b, name) ==> Has(a + b, name)
  {
    if Has(a, name) {
      var i :| 0 <= i < |a| && HeaderName(a[i]) == name;
      assert (a + b)[i] == a[i];
    } else if Has(b, name) {
      var i :| 0 <= i < |b| && HeaderName(b[i]) == name;
      assert (a + b)[|a| + i] == b[i];
    }
  }

  lemma {:induction false} HostIsThere(headers: seq<string>, authority: string)
    requires OneLine(authority)
    ensures Has(NewHeaders(headers, authority), "host")
  {
    var keep, added := Keep(headers, false), Added(headers, authority);
    KeepsHost(headers, false);
    HostIsHost(authority);
    HasConcat(keep, added, "host");
    if !Has(headers, "host") { assert added[|added| - 1] == "Host: " + authority; }
  }

  // ── The target ──────────────────────────────────────────────────────────────

  lemma {:induction false} TrimStartPart(s: string)
    requires OneLine(s)
    ensures OneLine(TrimStart(s))
  {
    if s != "" && White(s[0]) {
      PartOfLine(s, 1, |s|);
      assert s[1..|s|] == s[1..];
      TrimStartPart(s[1..]);
    }
  }

  lemma {:induction false} TrimEndPart(s: string)
    requires OneLine(s)
    ensures OneLine(TrimEnd(s))
  {
    if s != "" && White(s[|s| - 1]) {
      PartOfLine(s, 0, |s| - 1);
      TrimEndPart(s[..|s| - 1]);
    }
  }

  lemma {:induction false} FoundHeaderIsLine(headers: seq<string>, name: string)
    requires Lines(headers) && FindHeader(headers, name).Some?
    ensures OneLine(FindHeader(headers, name).value)
  {
    var h := headers[0];
    var k := FindChar(h, ':');
    if k.Some? && HeaderName(h) == Lower(name) {
      assert h[k.value + 1..|h|] == h[k.value + 1..];
      PartOfLine(h, k.value + 1, |h|);
      TrimStartPart(h[k.value + 1..]);
      TrimEndPart(TrimStart(h[k.value + 1..]));
    } else {
      FoundHeaderIsLine(headers[1..], name);
    }
  }

  lemma {:induction false} PartOfToken(s: string, i: nat, j: nat)
    requires Token(s) && i < j <= |s|
    ensures Token(s[i..j])
  {
    PartOfLine(s, i, j);
  }

  // ── The rewritten head ──────────────────────────────────────────────────────

  lemma {:induction false} KeepIsLines(headers: seq<string>, have: bool)
    requires Lines(headers)
    ensures Lines(Keep(headers, have))
  {
    if headers != [] {
      CloseIsLine();
      assert Line(headers[0]);
      KeepIsLines(headers[1..], have || HeaderName(headers[0]) == CONNECTION);
    }
  }

  lemma {:induction false} NewHeadersAreLines(headers: seq<string>, authority: string)
    requires Lines(headers) && OneLine(authority)
    ensures Lines(NewHeaders(headers, authority))
  {
    KeepIsLines(headers, false);
    CloseIsLine();
    HostIsHost(authority);
  }

  lemma {:induction false} HeadEndsBlank(lines: seq<string>)
    requires |lines| > 0 && Lines(lines)
    ensures EndsBlank(HeadText(lines))
  {
    var out := HeadText(lines);
    BlockIsJoined(lines);
    assert |lines[0]| > 0 && |out| >= 4;
    forall i: nat ensures At(out, i, BLANK) <==> i + 4 == |out| { HeadBlank(lines, i); }
    FindIs(out, BLANK, |out| - 4);
  }

  // ── On the wire ─────────────────────────────────────────────────────────────

  lemma {:induction false} BlankBytes()
    ensures Utf8(BLANK) == HttpRead.CRLFCRLF && Ascii(BLANK)
  {
    assert BLANK == "\r" + ("\n" + ("\r" + "\n"));
    Utf8Concat("\r", "\n" + ("\r" + "\n"));
    Utf8Concat("\n", "\r" + "\n");
    Utf8Concat("\r", "\n");
  }

  lemma {:induction false} BytesAroundBlank(text: string, k: nat)
    requires At(text, k, BLANK)
    ensures |Utf8(text)| == |Utf8(text[..k])| + 4 + |Utf8(text[k + 4..])|
  {
    var before, after := text[..k], text[k + 4..];
    BlankBytes();
    assert text == before + (BLANK + after);
    Utf8Concat(before, BLANK + after);
    Utf8Concat(BLANK, after);
  }

  lemma {:induction false} FindHeadEndInText(text: string)
    ensures var k := Find(text, BLANK);
      HttpRead.FindHeadEnd(Utf8(text)) == if k.Some? then Some(|Utf8(text[..k.value])|) else None
  {
    BlankBytes();
    FindUtf8(text, BLANK);
  }

  /** A head that ends at its first blank line does so whatever follows it. */
  lemma {:induction false} FramedBefore(out: seq<byte>, body: seq<byte>)
    requires HttpRead.EndsBlank(out)
    ensures HttpRead.FindHeadEnd(out + body) == Some(|out| - 4)
  {
    HttpRead.FindInPrefix(out, body);
  }
}
