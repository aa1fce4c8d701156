/** What rewriting promises: the request survives, its framing survives, and rewriting again changes nothing. */
module HttpTheorems {
  import opened Common
  import opened Text
  import opened Seqs
  import opened HttpHead
  import opened HttpProofs
  import HttpRead

  // ── The request line ────────────────────────────────────────────────────────

  /** Splitting at one space splits the tokens, however many spaces stand around it. */
  lemma {:induction false} TokensConcat(a: string, b: string)
    ensures Tokens(a + " " + b) == Tokens(a) + Tokens(b)
    decreases |a|
  {
    var whole := a + " " + b;
    if ' ' !in a {
      TokensHead(a, b, whole);
    } else {
      var before, rest := CutAtSpace(a);
      TokensConcat(rest, b);
      Regroup(before, rest, b, a, rest + " " + b);
      TokensHead(before, rest, a);
      TokensHead(before, rest + " " + b, whole);
      SameTail(NonEmpty(before), Tokens(rest), Tokens(b), Tokens(a), Tokens(whole));
    }
  }

  lemma {:induction false} RequestLineTokens(a: string, b: string, c: string)
    requires Token(a) && Token(b) && Token(c)
    ensures Tokens(RequestLine(a, b, c)) == [a, b, c] && Line(RequestLine(a, b, c))
  {
    assert RequestLine(a, b, c) == a + " " + (b + " " + c);
    TokensConcat(a, b + " " + c);
    TokensConcat(b, c);
    OneToken(a);
    OneToken(b);
    OneToken(c);
    OneLineJoins(b, ' ', c);
    OneLineJoins(a, ' ', b + " " + c);
  }

  // ── What a read request is made of ──────────────────────────────────────────

  lemma {:induction false} ReadRequestIsSound(text: string)
    requires EndsBlank(text) && ParseText(text).Ok?
    ensures Sound(ParseText(text).value)
  {
    if Breaks(text, 0) { LeadingBreakIsRefused(text); }
    AtIsTwoBreaks(text, |text| - 4);
    ReadHeadIsLines(text);
    var lines := SplitCrlf(TrimCrlf(text));
    TokensAreTokens(lines[0]);
    var parts := Tokens(lines[0]);
    assert parts[0] in parts && parts[1] in parts && parts[2] in parts;
  }

  // ── Which headers survive ───────────────────────────────────────────────────

  /**
   The surviving headers keep their order and text, a missing Host is added last, exactly one
   Connection header goes out and it says `close`, and no dropped header does.
   */
  lemma {:induction false} RewrittenHeaders(headers: seq<string>, authority: string)
    requires OneLine(authority)
    ensures var new_ := NewHeaders(headers, authority);
      && Named(new_, HOP, false) == Named(headers, HOP, false) + (if Has(headers, "host") then [] else ["Host: " + authority])
      && Named(new_, PROXY, true) == []
      && Named(new_, {"connection"}, true) == ["Connection: close"]
  {
    KeepNamed(headers, false);
    AddedNamed(headers, authority);
    var keep, added := Keep(headers, false), Added(headers, authority);
    NamedConcat(keep, added, HOP, false);
    NamedConcat(keep, added, PROXY, true);
    NamedConcat(keep, added, {CONNECTION}, true);
  }

  // ── Rewriting twice ─────────────────────────────────────────────────────────

  /** Rewriting the rewritten headers changes nothing. */
  lemma {:induction false} NewHeadersIdempotent(headers: seq<string>, authority: string)
    requires OneLine(authority)
    ensures NewHeaders(NewHeaders(headers, authority), authority) == NewHeaders(headers, authority)
  {
    var new_ := NewHeaders(headers, authority);
    RewrittenHeaders(headers, authority);
    KeepAll(new_, false);
    if !Has(new_, CONNECTION) { SomethingNamed(new_, CONNECTION); }
    HostIsThere(headers, authority);
  }

  // ── The target ──────────────────────────────────────────────────────────────

  /** Whatever the request, its target goes out as one token in origin form. */
  lemma {:induction false} TargetIsSound(req: Request)
    requires Sound(req) && ForwardTo(req).Ok?
    ensures var t := ForwardTo(req).value; Token(t.originForm) && t.originForm[0] == '/' && OneLine(t.authority)
  {
    var target := req.target;
    if SCHEME <= target {
      var rest := target[|SCHEME|..];
      assert target[|SCHEME|..|target|] == rest;
      PartOfLine(target, |SCHEME|, |target|);
      var slash := FindChar(rest, '/');
      if slash.Some? {
        PartOfLine(rest, 0, slash.value);
        assert target[|SCHEME| + slash.value..|target|] == rest[slash.value..];
        PartOfToken(target, |SCHEME| + slash.value, |target|);
      } else {
        forall i: nat ensures !Breaks("/", i) {}
      }
    } else {
      FoundHeaderIsLine(req.headers, "Host");
    }
  }

  // ── The rewritten head ──────────────────────────────────────────────────────

  lemma {:induction false} RewrittenIsLines(req: Request, target: ForwardTarget) returns (lines: seq<string>)
    requires Sound(req) && Token(target.originForm) && OneLine(target.authority)
    ensures Lines(lines) && |lines| > 0 && Rewrite(req, target) == HeadText(lines)
    ensures Tokens(lines[0]) == [req.method_, target.originForm, req.version]
    ensures lines[1..] == NewHeaders(req.headers, target.authority)
  {
    NewHeadersAreLines(req.headers, target.authority);
    RequestLineTokens(req.method_, target.originForm, req.version);
    lines := [RequestLine(req.method_, target.originForm, req.version)] + NewHeaders(req.headers, target.authority);
  }

  /** Parsing the rewritten head gives the same method and version, the origin-form target and the new headers. */
  lemma {:induction false} RewriteReparses(req: Request, target: ForwardTarget)
    requires Sound(req) && Token(target.originForm) && OneLine(target.authority)
    ensures ParseText(Rewrite(req, target))
      == Ok(Request(req.method_, target.originForm, req.version, NewHeaders(req.headers, target.authority)))
  {
    var lines := RewrittenIsLines(req, target);
    HeadSplits(lines);
  }

  lemma {:induction false} RewriteEndsBlank(req: Request, target: ForwardTarget)
    requires Sound(req) && Token(target.originForm) && OneLine(target.authority)
    ensures EndsBlank(Rewrite(req, target))
  {
    var lines := RewrittenIsLines(req, target);
    HeadEndsBlank(lines);
  }

  // ── On the wire ─────────────────────────────────────────────────────────────

  /** The bytes of a head end at their first blank line exactly when its text does. */
  lemma {:induction false} BytesEndWhereTextEnds(text: string)
    ensures HttpRead.EndsBlank(Utf8(text)) <==> EndsBlank(text)
  {
    FindHeadEndInText(text);
    var k := Find(text, BLANK);
    if k.Some? {
      BytesAroundBlank(text, k.value);
      var after := text[k.value + 4..];
      assert |Utf8(after)| == 0 <==> after == "";
    }
  }

  /** What `read_head` returns ends at its own first blank line. */
  lemma {:induction false} ReadHeadEndsBlank(buf: seq<byte>, chunks: seq<seq<byte>>, ending: HttpRead.Ending)
    requires HttpRead.ReadFrom(buf, chunks, ending).Ok?
    ensures var head := HttpRead.ReadFrom(buf, chunks, ending).value.head;
      HttpRead.EndsBlank(head)
    decreases |chunks|
  {
    var pos := HttpRead.FindHeadEnd(buf);
    if pos.Some? {
      var head, extra := buf[..pos.value + 4], buf[pos.value + 4..];
      assert head + extra == buf;
      HttpRead.AtPrefix(head, extra, pos.value);
      HttpRead.FindInPrefix(head, extra);
    } else {
      ReadHeadEndsBlank(buf + chunks[0], chunks[1..], ending);
    }
  }

  /** The bytes are one whole head, and it reads as this request. */
  ghost predicate ReadsAs(head: seq<byte>, req: Request) {
    HttpRead.EndsBlank(head) && ParseRequest(head) == Ok(req)
  }

  /**
   Any head that ends at its first blank line, as every head that is read does, parsed and given
   a target: the head sent on ends at its first blank line whatever body follows; it parses to
   the same method and version with the origin-form target; surviving headers stay in order, one
   Connection header says `close`, no dropped header is left; and rewriting what was parsed
   changes nothing.
   */
  lemma {:induction false} RewritePreservesRequest(head: seq<byte>, req: Request, target: ForwardTarget, body: seq<byte>)
    requires ReadsAs(head, req) && ForwardTo(req) == Ok(target)
    ensures var out := Utf8(Rewrite(req, target)); var new_ := NewHeaders(req.headers, target.authority);
      var again := Request(req.method_, target.originForm, req.version, new_);
      && HttpRead.EndsBlank(out) && HttpRead.FindHeadEnd(out + body) == Some(|out| - 4)
      && ParseRequest(out) == Ok(again)
      && target.originForm != "" && target.originForm[0] == '/'
      && Named(new_, HOP, false) == Named(req.headers, HOP, false) + (if Has(req.headers, "host") then [] else ["Host: " + target.authority])
      && Named(new_, {"connection"}, true) == ["Connection: close"] && Named(new_, PROXY, true) == []
      && Rewrite(again, target) == Rewrite(req, target)
  {
    AcceptedIsSound(head, req);
    TargetIsSound(req);
    RewriteOnWire(req, target, body);
    RewrittenHeaders(req.headers, target.authority);
    NewHeadersIdempotent(req.headers, target.authority);
  }

  lemma {:induction false} AcceptedIsSound(head: seq<byte>, req: Request)
    requires ReadsAs(head, req)
    ensures Sound(req)
  {
    var text := FromUtf8(head).value;
    BytesEndWhereTextEnds(text);
    ReadRequestIsSound(text);
  }

  lemma {:induction false} RewriteOnWire(req: Request, target: ForwardTarget, body: seq<byte>)
    requires Sound(req) && Token(target.originForm) && OneLine(target.authority)
    ensures var out := Utf8(Rewrite(req, target));
      && HttpRead.EndsBlank(out) && HttpRead.FindHeadEnd(out + body) == Some(|out| - 4)
      && ParseRequest(out) == Ok(Request(req.method_, target.originForm, req.version, NewHeaders(req.headers, target.authority)))
  {
    var text := Rewrite(req, target);
    RewriteReparses(req, target);
    RewriteEndsBlank(req, target);
    BytesEndWhereTextEnds(text);
    Utf8RoundTrip(text);
    FramedBefore(Utf8(text), body);
  }
}
