/** The rewritten headers line by line, what counts as one header name, and which heads are accepted. */
module HttpLaws {
  import opened Common
  import opened Seqs
  import opened Text
  import opened HttpHead
  import opened HttpProofs
  import opened HttpTheorems

  // ── Which line goes where ───────────────────────────────────────────────────

  lemma {:induction false} NamedTailIs(headers: seq<string>, names: set<string>, inside: bool)
    requires headers != []
    ensures Named(headers, names, inside)
      == (if (HeaderName(headers[0]) in names) == inside then [headers[0]] else []) + Named(headers[1..], names, inside)
  {
  }

  /** With no Connection among them, headers lose only what is about the proxy. */
  lemma {:induction false} KeepPlain(headers: seq<string>)
    requires !Has(headers, "connection")
    ensures Keep(headers, false) == Named(headers, PROXY, false)
  {
    if headers != [] {
      HasTail(headers, "connection");
      KeepPlain(headers[1..]);
      NamedTailIs(headers, PROXY, false);
    }
  }

  /** After a Connection, later ones go too. */
  lemma {:induction false} KeepAfter(headers: seq<string>)
    ensures Keep(headers, true) == Named(headers, HOP, false)
  {
    if headers != [] {
      KeepAfter(headers[1..]);
      NamedTailIs(headers, HOP, false);
    }
  }

  lemma {:induction false} KeepStep(headers: seq<string>, have: bool) returns (first: seq<string>, after: bool)
    requires headers != []
    ensures Keep(headers, have) == first + Keep(headers[1..], after)
    ensures first == Emitted(headers[0], have) && after == (have || HeaderName(headers[0]) == "connection")
  {
    first, after := Emitted(headers[0], have), have || HeaderName(headers[0]) == "connection";
  }

  lemma {:induction false} KeepConcat(a: seq<string>, b: seq<string>, have: bool, seen: bool, all: seq<string>)
    requires all == a + b && seen == (have || Has(a, "connection"))
    ensures Keep(all, have) == Keep(a, have) + Keep(b, seen)
    decreases |a|
  {
    if a == [] {
      assert all == b;
    } else {
      var first, after := KeepStep(a, have);
      var same, _ := KeepStep(all, have);
      HasTail(a, "connection");
      var a', all' := a[1..], all[1..];
      assert all' == a' + b;
      KeepConcat(a', b, after, seen, all');
      Concat3(first, Keep(a', after), Keep(b, seen));
    }
  }

  lemma {:induction false} Concat3(a: seq<string>, b: seq<string>, c: seq<string>)
    ensures a + (b + c) == a + b + c
  {
    assert a + (b + c) == a + b + c;
  }

  lemma {:induction false} KeepConnection(c: string)
    requires HeaderName(c) == "connection"
    ensures Keep([c], false) == ["Connection: close"] && Has([c], "connection")
  {
    var one := [c];
    NamesApart();
    assert one[1..] == [] && HeaderName(one[0]) == "connection";
  }

  /** The Host line a request without one gets. */
  function HostLine(headers: seq<string>, authority: string): seq<string> {
    if Has(headers, "host") then [] else ["Host: " + authority]
  }

  /**
   The first Connection becomes `close` where it stands; before it only proxy headers go, after it
   later Connections too; a missing Host comes last.
   */
  lemma {:induction false} NewHeadersExactly(a: seq<string>, c: string, b: seq<string>, authority: string)
    requires !Has(a, "connection") && HeaderName(c) == "connection"
    ensures var headers := a + [c] + b;
      NewHeaders(headers, authority)
      == Named(a, PROXY, false) + ["Connection: close"] + Named(b, HOP, false) + HostLine(headers, authority)
  {
    var one := [c];
    var upTo := a + one;
    var headers := upTo + b;
    KeepConnection(c);
    KeepParts(a, one, b, headers);
    KeepPlain(a);
    KeepAfter(b);
    assert headers[|a|] == c;
  }

  lemma {:induction false} KeepParts(a: seq<string>, one: seq<string>, b: seq<string>, all: seq<string>)
    requires !Has(a, "connection") && Has(one, "connection") && all == a + one + b
    ensures Keep(all, false) == Keep(a, false) + Keep(one, false) + Keep(b, true)
  {
    var upTo := a + one;
    KeepConcat(a, one, false, false, upTo);
    HasConcat(a, one, "connection", upTo);
    KeepConcat(upTo, b, false, true, all);
  }

  lemma {:induction false} HasConcat(a: seq<string>, b: seq<string>, name: string, all: seq<string>)
    requires all == a + b && Has(b, name)
    ensures Has(all, name)
  {
    var i :| 0 <= i < |b| && HeaderName(b[i]) == name;
    assert all[|a| + i] == b[i];
  }

  /** Without any Connection, `close` comes after the surviving headers. */
  lemma {:induction false} NewHeadersWithoutConnection(headers: seq<string>, authority: string)
    requires !Has(headers, "connection")
    ensures NewHeaders(headers, authority) == Named(headers, PROXY, false) + ["Connection: close"] + HostLine(headers, authority)
  {
    KeepPlain(headers);
  }

  // ── Header names ────────────────────────────────────────────────────────────

  ghost predicate Blanks(s: string) {
    forall i :: 0 <= i < |s| ==> s[i] == ' ' || s[i] == '\t'
  }

  lemma {:induction false} TrimsBlanksBefore(pad: string, s: string)
    requires Blanks(pad) && s != "" && !White(s[0])
    ensures TrimStart(pad + s) == s
  {
    if pad == "" {
      assert pad + s == s;
    } else {
      assert (pad + s)[1..] == pad[1..] + s;
      TrimsBlanksBefore(pad[1..], s);
    }
  }

  lemma {:induction false} TrimsBlanksAfter(s: string, pad: string)
    requires Blanks(pad) && s != "" && !White(s[|s| - 1])
    ensures TrimEnd(s + pad) == s
  {
    if pad == "" {
      assert s + pad == s;
    } else {
      var whole := s + pad;
      assert whole[..|whole| - 1] == s + pad[..|pad| - 1];
      TrimsBlanksAfter(s, pad[..|pad| - 1]);
    }
  }

  lemma {:induction false} TrimsBlanks(before: string, name: string, after: string)
    requires Blanks(before) && Blanks(after) && name != "" && !White(name[0]) && !White(name[|name| - 1])
    ensures Trim(before + name + after) == name
  {
    assert before + name + after == before + (name + after);
    TrimsBlanksBefore(before, name + after);
    TrimsBlanksAfter(name, after);
  }

  /** Blanks around a name do not count, nor does what follows the first colon. */
  lemma {:induction false} NameIgnoresBlanks(before: string, name: string, after: string, value: string)
    requires Blanks(before) && Blanks(after) && ':' !in name && name != "" && !White(name[0]) && !White(name[|name| - 1])
    ensures HeaderName(before + name + after + ":" + value) == Lower(name)
  {
    var field := before + name + after;
    FindCharIs(field, ':', value);
    var h := field + ":" + value;
    assert h[..|field|] == field;
    TrimsBlanks(before, name, after);
  }

  /** The same character, or the same ASCII letter in the other case. */
  predicate SameLetter(a: char, b: char) {
    a == b || ('A' <= a <= 'Z' && b as int == a as int + 32) || ('A' <= b <= 'Z' && a as int == b as int + 32)
  }

  /** Names are one if they differ in the case of ASCII letters only. */
  lemma {:induction false} CaseIgnoredExactly(x: string, y: string)
    ensures Lower(x) == Lower(y) <==> |x| == |y| && forall i :: 0 <= i < |x| ==> SameLetter(x[i], y[i])
  {
    if Lower(x) == Lower(y) {
      assert |Lower(x)| == |x| && |Lower(y)| == |y|;
      forall i | 0 <= i < |x| ensures SameLetter(x[i], y[i]) { assert Lower(x)[i] == Lower(y)[i]; }
    }
  }

  // ── Which heads are accepted ────────────────────────────────────────────────

  /** A head of proper lines is accepted exactly when its first has three pieces, and is those and the other lines. */
  lemma {:induction false} AcceptsExactly(lines: seq<string>)
    requires |lines| > 0 && Lines(lines)
    ensures var parts, r := Tokens(lines[0]), ParseText(HeadText(lines));
      && (r.Ok? <==> |parts| == 3)
      && (r.Ok? ==> r.value == Request(parts[0], parts[1], parts[2], lines[1..]))
      && (r.Err? ==> r.error == (if |parts| == 0 then MissingMethod else if |parts| == 1 then MissingTarget
                                 else if |parts| == 2 then MissingVersion else MalformedLine))
  {
    HeadSplits(lines);
  }
}
