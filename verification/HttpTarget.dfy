/** Authorities and absolute targets, read back from how they are written. */
module HttpTarget {
  import opened Common
  import opened Text
  import opened HttpHead
  import opened HttpProofs
  import opened HttpTheorems

  /** How an authority is written: a bare or bracketed host, with or without a port. */
  datatype Authority = Authority(host: string, bracketed: bool, port: Option<nat>)

  function Show(a: Authority): string {
    (if a.bracketed then "[" + a.host + "]" else a.host) + (if a.port.Some? then ":" + ShowNat(a.port.value) else "")
  }

  /** A bare host does not start like a bracketed one, and without a port has no colon. */
  ghost predicate Plain(a: Authority) {
    && (a.port.Some? ==> a.port.value < 0x1_0000)
    && if a.bracketed then ']' !in a.host
       else (a.host == "" || a.host[0] != '[') && (a.port.None? ==> ':' !in a.host)
  }

  lemma {:induction false} BareAuthority(host: string, port: nat, defaultPort: nat)
    requires (host == "" || host[0] != '[') && port < 0x1_0000
    ensures SplitAuthority(host + ":" + ShowNat(port), defaultPort) == Some((host, port))
    ensures ':' !in host ==> SplitAuthority(host, defaultPort) == Some((host, defaultPort))
  {
    var digits := ShowNat(port);
    var s := host + ":" + digits;
    FindLastCharIs(host, ':', digits);
    assert s[|host| + 1..] == digits && s[..|host|] == host;
    PortRoundTrip(port);
  }

  /** What follows the bracket is the port after a colon, or is ignored. */
  lemma {:induction false} BracketedAuthority(host: string, after: string, defaultPort: nat)
    requires ']' !in host
    ensures var port := if after != "" && after[0] == ':' then ParseU16(after[1..]) else Some(defaultPort);
      SplitAuthority("[" + host + "]" + after, defaultPort) == if port.Some? then Some((host, port.value)) else None
  {
    var s := "[" + host + "]" + after;
    assert s[1..] == host + "]" + after;
    FindCharIs(host, ']', after);
    assert s[1..][..|host|] == host && s[1..][|host| + 1..] == after;
  }

  lemma {:induction false} BracketedRoundTrip(host: string, port: nat, defaultPort: nat)
    requires ']' !in host && port < 0x1_0000
    ensures SplitAuthority("[" + host + "]" + (":" + ShowNat(port)), defaultPort) == Some((host, port))
    ensures SplitAuthority("[" + host + "]" + "", defaultPort) == Some((host, defaultPort))
  {
    var after := ":" + ShowNat(port);
    assert after[1..] == ShowNat(port);
    PortRoundTrip(port);
    BracketedAuthority(host, after, defaultPort);
    BracketedAuthority(host, "", defaultPort);
  }

  lemma {:induction false} ShowIs(a: Authority)
    ensures a.bracketed && a.port.Some? ==> Show(a) == "[" + a.host + "]" + (":" + ShowNat(a.port.value))
    ensures a.bracketed && a.port.None? ==> Show(a) == "[" + a.host + "]" + ""
    ensures !a.bracketed && a.port.Some? ==> Show(a) == a.host + ":" + ShowNat(a.port.value)
    ensures !a.bracketed && a.port.None? ==> Show(a) == a.host
  {
    if !a.bracketed && a.port.Some? {
      assert a.host + (":" + ShowNat(a.port.value)) == a.host + ":" + ShowNat(a.port.value);
    }
    assert a.host + "" == a.host;
  }

  lemma {:induction false} BracketedReads(a: Authority, defaultPort: nat)
    requires Plain(a) && a.bracketed
    ensures SplitAuthority(Show(a), defaultPort) == Some((a.host, if a.port.Some? then a.port.value else defaultPort))
  {
    ShowIs(a);
    BracketedRoundTrip(a.host, if a.port.Some? then a.port.value else 0, defaultPort);
  }

  lemma {:induction false} BareReads(a: Authority, defaultPort: nat)
    requires Plain(a) && !a.bracketed
    ensures SplitAuthority(Show(a), defaultPort) == Some((a.host, if a.port.Some? then a.port.value else defaultPort))
  {
    ShowIs(a);
    BareAuthority(a.host, if a.port.Some? then a.port.value else 0, defaultPort);
  }

  /** Every plain authority is read back as its host and its port, or the default port. */
  lemma {:induction false} AuthorityRoundTrip(a: Authority, defaultPort: nat)
    requires Plain(a)
    ensures SplitAuthority(Show(a), defaultPort) == Some((a.host, if a.port.Some? then a.port.value else defaultPort))
  {
    if a.bracketed { BracketedReads(a, defaultPort); } else { BareReads(a, defaultPort); }
  }

  /** An absolute target goes to its own authority, with its path or `/`, whatever the headers say. */
  lemma {:induction false} AbsoluteTarget(req: Request, authority: string, path: string)
    requires req.target == "http://" + authority + path && '/' !in authority && (path == "" || path[0] == '/')
    ensures ForwardTo(req) == Resolve(authority, if path == "" then "/" else path, BadAuthority)
  {
    var rest := req.target[|SCHEME|..];
    assert SCHEME <= req.target;
    assert rest == authority + path;
    if path != "" {
      assert authority + path == authority + "/" + path[1..];
      FindCharIs(authority, '/', path[1..]);
      assert rest[..|authority|] == authority && rest[|authority|..] == path;
    } else {
      assert rest == authority;
    }
  }

  /** So a written-out absolute URI is resolved to the parts it was written from. */
  lemma {:induction false} AbsoluteRoundTrip(req: Request, a: Authority, path: string)
    requires Plain(a) && '/' !in Show(a) && (path == "" || path[0] == '/') && req.target == "http://" + Show(a) + path
    ensures ForwardTo(req) == Ok(ForwardTarget(a.host, if a.port.Some? then a.port.value else 80,
                                               if path == "" then "/" else path, Show(a)))
  {
    AbsoluteTarget(req, Show(a), path);
    AuthorityRoundTrip(a, 80);
  }

  // ── Targets in origin form ──────────────────────────────────────────────────

  /** The line is a header of this name and has a value. */
  predicate Carries(h: string, name: string) {
    ':' in h && HeaderName(h) == Lower(name)
  }

  /** The first header carrying the name, and nothing else, gives the value. */
  lemma {:induction false} FindHeaderFirst(headers: seq<string>, name: string, i: nat)
    requires i < |headers| && Carries(headers[i], name) && forall j :: 0 <= j < i ==> !Carries(headers[j], name)
    ensures FindHeader(headers, name) == Some(Trim(headers[i][FindChar(headers[i], ':').value + 1..]))
  {
    if i > 0 {
      assert !Carries(headers[0], name);
      FindHeaderFirst(headers[1..], name, i - 1);
    }
  }

  lemma {:induction false} FindHeaderNone(headers: seq<string>, name: string)
    requires forall j :: 0 <= j < |headers| ==> !Carries(headers[j], name)
    ensures FindHeader(headers, name).None?
  {
    if headers != [] {
      assert !Carries(headers[0], name);
      FindHeaderNone(headers[1..], name);
    }
  }

  /** A target in origin form goes to the first Host header with a value; a bare `Host` line is none. */
  lemma {:induction false} OriginRoundTrip(req: Request, a: Authority, i: nat)
    requires req.target != "" && req.target[0] == '/' && Plain(a)
    requires Show(a) != "" && !White(Show(a)[0]) && !White(Show(a)[|Show(a)| - 1])
    requires i < |req.headers| && req.headers[i] == "Host: " + Show(a)
    requires forall j :: 0 <= j < i ==> !Carries(req.headers[j], "Host")
    ensures ForwardTo(req) == Ok(ForwardTarget(a.host, if a.port.Some? then a.port.value else 80, req.target, Show(a)))
  {
    HostCarries(Show(a));
    FindHeaderFirst(req.headers, "Host", i);
    AuthorityRoundTrip(a, 80);
  }

  /** With no such header the request is refused. */
  lemma {:induction false} OriginNeedsHost(req: Request)
    requires req.target != "" && req.target[0] == '/' && forall j :: 0 <= j < |req.headers| ==> !Carries(req.headers[j], "Host")
    ensures ForwardTo(req) == Err(NoHost)
  {
    FindHeaderNone(req.headers, "Host");
  }

  lemma {:induction false} HostCarries(value: string)
    requires value != "" && !White(value[0]) && !White(value[|value| - 1])
    ensures var h := "Host: " + value; Carries(h, "Host") && Trim(h[FindChar(h, ':').value + 1..]) == value
  {
    var h := "Host: " + value;
    assert h == "Host" + ":" + (" " + value);
    FindCharIs("Host", ':', " " + value);
    assert h[4] == ':' && h[5..] == " " + value;
    NameBeforeColon("Host", " " + value);
    var padded := " " + value;
    assert padded[0] == ' ' && padded[1..] == value;
    assert TrimStart(padded) == TrimStart(value);
  }
}
