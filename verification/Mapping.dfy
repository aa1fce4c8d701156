/**
 Port-forwarding specs, read from right to left. The standard library's reading and printing
 of addresses is a parameter; what is needed of it is `Lawful`.
 */
module Mapping {
  import opened Common
  import opened Text

  type Bits32 = n: nat | n < 0x1_0000_0000
  type Bits128 = n: nat | n < 0x1_0000_0000_0000_0000_0000_0000_0000_0000

  /** An address, as the number of its 32 or 128 bits. */
  datatype Ip = V4(v4: Bits32) | V6(v6: Bits128)

  datatype Sock = Sock(ip: Ip, port: nat)

  /** TCP and UDP mappings are alike. */
  datatype Mapping = Mapping(listen: Sock, target: Sock)

  const UNSPECIFIED: Ip := V4(0)
  const LOCALHOST: Ip := V4(0x7F00_0001)

  datatype Std = Std(showIp: Ip -> string, parseIp: string -> Option<Ip>, parseIp6: string -> Option<Ip>,
                     parseSock: string -> Option<Sock>)

  /** `SocketAddr`'s text: IPv6 addresses stand in brackets. */
  function ShowSock(std: Std, s: Sock): string {
    (if s.ip.V4? then std.showIp(s.ip) else "[" + std.showIp(s.ip) + "]") + ":" + ShowNat(s.port)
  }

  /** Addresses read back as printed; IPv6 text has a colon, IPv4 text none, neither has brackets. */
  ghost predicate Lawful(std: Std) {
    && (forall ip: Ip :: std.parseIp(std.showIp(ip)) == Some(ip))
    && (forall ip: Ip :: ip.V6? ==> std.parseIp6(std.showIp(ip)) == Some(ip))
    && (forall ip: Ip :: std.showIp(ip) != "" && '[' !in std.showIp(ip) && ']' !in std.showIp(ip))
    && (forall ip: Ip :: ':' in std.showIp(ip) <==> ip.V6?)
    && (forall s: Sock :: s.port < 0x1_0000 ==> std.parseSock(ShowSock(std, s)) == Some(s))
    && (forall t: string :: std.parseSock(t).Some? ==> ':' in t)
  }

  datatype MappingError = Malformed | InvalidPort | Unmatched | MissingRemote | NotIpv6 | InvalidLocal | InvalidAddress

  // ── Pieces ──────────────────────────────────────────────────────────────────

  predicate Bracket(c: char) { c == '[' || c == ']' }

  function TrimBrackets(s: string): string {
    if s != "" && Bracket(s[0]) then TrimBrackets(s[1..])
    else if s != "" && Bracket(s[|s| - 1]) then TrimBrackets(s[..|s| - 1])
    else s
  }

  function TrimColons(s: string): string {
    if s != "" && s[|s| - 1] == ':' then TrimColons(s[..|s| - 1]) else s
  }

  function ParseHostPort(std: Std, s: string): Option<(string, nat)> {
    var sock := std.parseSock(s);
    if sock.Some? then Some((std.showIp(sock.value.ip), sock.value.port))
    else
      var colon := FindLastChar(s, ':');
      if colon.None? then None
      else
        var port := ParseU16(s[colon.value + 1..]);
        if port.None? then None else Some((TrimBrackets(s[..colon.value]), port.value))
  }

  // ── local-tcp and local-udp ─────────────────────────────────────────────────

  datatype Local = Local(addr: Option<string>, port: nat, remote: string, remotePort: nat)

  /** The remote address and what stands before it. */
  function SplitRemote(rest: string): Result<(string, string), MappingError> {
    if rest != "" && rest[|rest| - 1] == ']' then
      var open := FindLastChar(rest, '[');
      if open.None? then Err(Unmatched)
      else Ok((rest[open.value + 1..|rest| - 1], TrimColons(rest[..open.value])))
    else
      var colon := FindLastChar(rest, ':');
      if colon.None? then Ok((rest, ""))
      else Ok((rest[colon.value + 1..], TrimColons(rest[..colon.value])))
  }

  function ParseLocalSide(std: Std, rest: string, remotePort: nat): Result<(Option<string>, nat), MappingError> {
    if rest == "" then Ok((None, remotePort))
    else
      var hostPort := ParseHostPort(std, rest);
      if hostPort.Some? then
        Ok((if hostPort.value.0 == "" then None else Some(hostPort.value.0), hostPort.value.1))
      else
        var port := ParseU16(rest);
        if port.None? then Err(InvalidLocal) else Ok((None, port.value))
  }

  function ParseMapping(std: Std, s: string): Result<Local, MappingError> {
    var colon := FindLastChar(s, ':');
    if colon.None? then Err(Malformed)
    else
      var remotePort := ParseU16(s[colon.value + 1..]);
      if remotePort.None? then Err(InvalidPort)
      else
        var split := SplitRemote(s[..colon.value]);
        if split.Err? then Err(split.error)
        else if split.value.0 == "" then Err(MissingRemote)
        else if ':' !in split.value.0 then Err(NotIpv6)
        else
          var side := ParseLocalSide(std, split.value.1, remotePort.value);
          if side.Err? then Err(side.error)
          else Ok(Local(side.value.0, side.value.1, split.value.0, remotePort.value))
  }

  function IpOr(std: Std, addr: Option<string>, default_: Ip): Option<Ip> {
    if addr.None? then Some(default_) else std.parseIp(addr.value)
  }

  function ParseLocal(std: Std, s: string): Result<Mapping, MappingError> {
    var l := ParseMapping(std, s);
    if l.Err? then Err(l.error)
    else
      var listen, remote := IpOr(std, l.value.addr, UNSPECIFIED), std.parseIp6(l.value.remote);
      if listen.None? || remote.None? then Err(InvalidAddress)
      else Ok(Mapping(Sock(listen.value, l.value.port), Sock(remote.value, l.value.remotePort)))
  }

  // ── remote-tcp and remote-udp ───────────────────────────────────────────────

  datatype Remote = Remote(port: nat, addr: Option<string>, localPort: nat)

  function ParseRemoteMapping(std: Std, s: string): Result<Remote, MappingError> {
    var first := FindChar(s, ':');
    if first.None? then
      var port := ParseU16(s);
      if port.None? then Err(InvalidPort) else Ok(Remote(port.value, None, port.value))
    else
      var port, rest := ParseU16(s[..first.value]), s[first.value + 1..];
      if port.None? then Err(InvalidPort)
      else if ':' !in rest then
        var localPort := ParseU16(rest);
        if localPort.None? then Err(InvalidPort) else Ok(Remote(port.value, None, localPort.value))
      else
        var hostPort := ParseHostPort(std, rest);
        if hostPort.None? then Err(InvalidLocal) else Ok(Remote(port.value, Some(hostPort.value.0), hostPort.value.1))
  }

  function ParseRemote(std: Std, s: string): Result<Mapping, MappingError> {
    var r := ParseRemoteMapping(std, s);
    if r.Err? then Err(r.error)
    else
      var local := IpOr(std, r.value.addr, LOCALHOST);
      if local.None? then Err(InvalidAddress)
      else Ok(Mapping(Sock(UNSPECIFIED, r.value.port), Sock(local.value, r.value.localPort)))
  }

  // ── The documented forms ────────────────────────────────────────────────────

  /** `[addr:]port:[remote]:port`. */
  datatype LocalSpec = LocalSpec(listen: Option<Ip>, port: nat, remote: Ip, remotePort: nat)

  function ShowListen(std: Std, spec: LocalSpec): string {
    if spec.listen.Some? then ShowSock(std, Sock(spec.listen.value, spec.port)) else ShowNat(spec.port)
  }

  function ShowLocal(std: Std, spec: LocalSpec): string {
    ShowListen(std, spec) + ":[" + std.showIp(spec.remote) + "]" + ":" + ShowNat(spec.remotePort)
  }

  ghost predicate GoodSpec(spec: LocalSpec) {
    spec.remote.V6? && spec.port < 0x1_0000 && spec.remotePort < 0x1_0000
  }

  /** `port`, `remote-port:local-port` or `remote-port:local-addr:local-port`. */
  datatype RemoteSpec = Same(port: nat) | Ports(port: nat, localPort: nat) | To(port: nat, local: Sock)

  function ShowRemote(std: Std, spec: RemoteSpec): string {
    match spec
    case Same(port) => ShowNat(port)
    case Ports(port, localPort) => ShowNat(port) + ":" + ShowNat(localPort)
    case To(port, local) => ShowNat(port) + ":" + ShowSock(std, local)
  }

  /** Remote mappings listen on every address; unless told otherwise they go to 127.0.0.1. */
  function Meant(spec: RemoteSpec): Mapping {
    match spec
    case Same(port) => Mapping(Sock(V4(0), port), Sock(V4(0x7F00_0001), port))
    case Ports(port, localPort) => Mapping(Sock(V4(0), port), Sock(V4(0x7F00_0001), localPort))
    case To(port, local) => Mapping(Sock(V4(0), port), local)
  }

  // ── Port numbers ────────────────────────────────────────────────────────────

  function Zeros(z: nat): (s: string)
    ensures |s| == z && forall i :: 0 <= i < z ==> s[i] == '0'
  {
    if z == 0 then "" else Zeros(z - 1) + ['0']
  }

  /** A number with or without a plus sign and leading zeros. */
  function PortText(plus: bool, z: nat, n: nat): string {
    (if plus then "+" else "") + (Zeros(z) + ShowNat(n))
  }

  lemma {:induction false} PushDigit(front: string, d: nat, all: string)
    requires AllDigits(front) && d < 10 && all == front + [('0' as int + d) as char]
    ensures AllDigits(all) && DigitsValue(all) == 10 * DigitsValue(front) + d
  {
    assert all[..|all| - 1] == front && IsDigit(all[|all| - 1]);
  }

  lemma {:induction false} ZerosValue(z: nat, n: nat)
    ensures AllDigits(Zeros(z) + ShowNat(n)) && DigitsValue(Zeros(z) + ShowNat(n)) == n
    decreases n, z
  {
    var s := Zeros(z) + ShowNat(n);
    if n >= 10 {
      ZerosValue(z, n / 10);
      PushDigit(Zeros(z) + ShowNat(n / 10), n % 10, s);
    } else if z > 0 {
      ZerosValue(z - 1, 0);
      PushDigit(Zeros(z - 1) + ShowNat(0), n, s);
    } else {
      PushDigit("", n, s);
    }
  }

  /** Appending a digit to a number, or to its leading zeros. */
  lemma {:induction false} AppendDigit(z: nat, v: nat, d: nat)
    requires d < 10
    ensures Zeros(z) + ShowNat(v) + [('0' as int + d) as char]
      == if v == 0 then Zeros(z + 1) + ShowNat(d) else Zeros(z) + ShowNat(10 * v + d)
  {
    var c := ('0' as int + d) as char;
    if v == 0 {
      assert ShowNat(0) == ['0'] && ShowNat(d) == [c];
    } else {
      assert (10 * v + d) / 10 == v && (10 * v + d) % 10 == d;
      assert ShowNat(10 * v + d) == ShowNat(v) + [c];
      assert Zeros(z) + (ShowNat(v) + [c]) == Zeros(z) + ShowNat(v) + [c];
    }
  }

  lemma {:induction false} DigitsAreNumber(s: string) returns (z: nat)
    requires s != "" && AllDigits(s)
    ensures s == Zeros(z) + ShowNat(DigitsValue(s))
  {
    var front, c := s[..|s| - 1], s[|s| - 1];
    var d := c as int - '0' as int;
    assert s == front + [c] && d < 10;
    if front == "" {
      z := 0;
      assert Zeros(0) + ShowNat(d) == [c];
    } else {
      var v := DigitsValue(front);
      var y := DigitsAreNumber(front);
      AppendDigit(y, v, d);
      z := if v == 0 then y + 1 else y;
    }
  }

  /** A port is any number below 65536, with or without plus sign and leading zeros, and nothing else. */
  lemma {:induction false} PortTextExactly(s: string)
    ensures forall n: nat :: ParseU16(s) == Some(n) <==> n < 0x1_0000 && exists plus, z: nat :: s == PortText(plus, z, n)
  {
    forall n: nat, plus, z: nat | n < 0x1_0000 && s == PortText(plus, z, n) ensures ParseU16(s) == Some(n) {
      PortTextReads(plus, z, n);
    }
    if ParseU16(s).Some? {
      var plus := s[0] == '+';
      var digits := if plus then s[1..] else s;
      var z := DigitsAreNumber(digits);
      assert s == PortText(plus, z, ParseU16(s).value);
    }
  }

  lemma {:induction false} PortTextReads(plus: bool, z: nat, n: nat)
    requires n < 0x1_0000
    ensures ParseU16(PortText(plus, z, n)) == Some(n)
  {
    var digits := Zeros(z) + ShowNat(n);
    ZerosValue(z, n);
    DigitsReadExactly(plus, digits, PortText(plus, z, n));
  }

  lemma {:induction false} PortDigits(s: string) returns (plus: bool, digits: string)
    requires ParseU16(s).Some?
    ensures s == (if plus then "+" else "") + digits && digits != "" && AllDigits(digits) && ParseU16(s).value == DigitsValue(digits)
  {
    plus := s[0] == '+';
    digits := if plus then s[1..] else s;
  }

  /** The numbers are decimal, most significant digit first, and at most 65535. */
  lemma {:induction false} DigitAppended(s: string, d: nat)
    requires d < 10 && ParseU16(s).Some?
    ensures var v := 10 * ParseU16(s).value + d; ParseU16(s + ["0123456789"[d]]) == if v <= 65535 then Some(v) else None
  {
    var c := "0123456789"[d];
    var plus, digits := PortDigits(s);
    var longer := digits + [c];
    PushDigit(digits, d, longer);
    DigitsReadExactly(plus, longer, s + [c]);
  }

  lemma {:induction false} DigitsReadExactly(plus: bool, digits: string, s: string)
    requires digits != "" && AllDigits(digits) && s == (if plus then "+" else "") + digits
    ensures ParseU16(s) == if DigitsValue(digits) <= 65535 then Some(DigitsValue(digits)) else None
  {
    assert IsDigit(digits[0]);
    assert digits == if plus then s[1..] else s;
  }

  /** The shortest ports, and what is none. */
  lemma {:induction false} OneDigitPort(d: nat)
    requires d < 10
    ensures ParseU16(["0123456789"[d]]) == Some(d) && ParseU16("").None? && ParseU16("+").None?
  {
    var one := ["0123456789"[d]];
    PushDigit("", d, one);
    DigitsReadExactly(false, one, one);
  }

  // ── Reading back what was printed ───────────────────────────────────────────

  /** Cutting off the port and the bracketed address leaves the local side. */
  lemma {:induction false} SplitBracketed(listen: string, addr: string)
    requires '[' !in addr
    ensures SplitRemote(listen + ":[" + addr + "]") == Ok((addr, TrimColons(listen)))
  {
    var rest := listen + ":[" + addr + "]";
    var before := listen + ":";
    assert rest == before + "[" + (addr + "]");
    FindLastCharIs(before, '[', addr + "]");
    assert rest[|before| + 1..|rest| - 1] == addr && rest[..|before|] == before;
    assert before[..|before| - 1] == listen;
  }

  lemma {:induction false} ListenReadsBack(std: Std, spec: LocalSpec)
    requires Lawful(std) && GoodSpec(spec)
    ensures var t := ShowListen(std, spec);
      && TrimColons(t) == t && t != ""
      && ParseLocalSide(std, t, spec.remotePort) == Ok((if spec.listen.Some? then Some(std.showIp(spec.listen.value)) else None, spec.port))
  {
    if spec.listen.Some? {
    } else {
      PortRoundTrip(spec.port);
      assert std.parseSock(ShowNat(spec.port)).None?;
    }
  }

  /** The text after the last colon is the remote port. */
  lemma {:induction false} PortTail(rest: string, port: nat)
    requires port < 0x1_0000
    ensures var s := rest + ":" + ShowNat(port);
      FindLastChar(s, ':') == Some(|rest|) && ParseU16(s[|rest| + 1..]) == Some(port) && s[..|rest|] == rest
  {
    var digits := ShowNat(port);
    var s := rest + ":" + digits;
    FindLastCharIs(rest, ':', digits);
    assert s[|rest| + 1..] == digits;
    PortRoundTrip(port);
  }

  lemma {:induction false} Assemble(std: Std, rest: string, port: nat, remote: string, before: string, addr: Option<string>, localPort: nat)
    requires port < 0x1_0000 && SplitRemote(rest) == Ok((remote, before)) && ':' in remote
    requires ParseLocalSide(std, before, port) == Ok((addr, localPort))
    ensures ParseMapping(std, rest + ":" + ShowNat(port)) == Ok(Local(addr, localPort, remote, port))
  {
    PortTail(rest, port);
  }

  lemma {:induction false} MappingReadsBack(std: Std, spec: LocalSpec)
    requires Lawful(std) && GoodSpec(spec)
    ensures ParseMapping(std, ShowLocal(std, spec))
      == Ok(Local(if spec.listen.Some? then Some(std.showIp(spec.listen.value)) else None, spec.port, std.showIp(spec.remote), spec.remotePort))
  {
    var listen, addr := ShowListen(std, spec), std.showIp(spec.remote);
    SplitBracketed(listen, addr);
    ListenReadsBack(std, spec);
    Assemble(std, listen + ":[" + addr + "]", spec.remotePort, addr, listen,
             if spec.listen.Some? then Some(std.showIp(spec.listen.value)) else None, spec.port);
  }

  /** Any listen address or none, any ports, any IPv6 remote: the spec reads back as written. */
  lemma {:induction false} LocalRoundTrip(std: Std, spec: LocalSpec)
    requires Lawful(std) && GoodSpec(spec)
    ensures ParseLocal(std, ShowLocal(std, spec))
      == Ok(Mapping(Sock(if spec.listen.Some? then spec.listen.value else V4(0), spec.port), Sock(spec.remote, spec.remotePort)))
  {
    MappingReadsBack(std, spec);
  }

  lemma {:induction false} SplitBare(addr: string)
    requires '[' !in addr
    ensures SplitRemote("[" + addr + "]") == Ok((addr, ""))
  {
    var rest := "[" + addr + "]";
    assert rest == "" + "[" + (addr + "]");
    FindLastCharIs("", '[', addr + "]");
    assert rest[1..|rest| - 1] == addr && rest[..0] == "";
  }

  /** With no local side the remote port is used on both. */
  lemma {:induction false} BareRemoteUsesOnePort(std: Std, remote: Ip, port: nat)
    requires Lawful(std) && remote.V6? && port < 0x1_0000
    ensures ParseLocal(std, "[" + std.showIp(remote) + "]" + ":" + ShowNat(port)) == Ok(Mapping(Sock(V4(0), port), Sock(remote, port)))
  {
    SplitBare(std.showIp(remote));
    PortTail("[" + std.showIp(remote) + "]", port);
  }

  /** A colon before the local port alone: an empty host, which is no listen address. */
  lemma {:induction false} EmptyHostListensEverywhere(std: Std, spec: LocalSpec)
    requires Lawful(std) && GoodSpec(spec) && spec.listen.None? && std.parseSock(":" + ShowNat(spec.port)).None?
    ensures ParseLocal(std, ":" + ShowLocal(std, spec)) == Ok(Mapping(Sock(V4(0), spec.port), Sock(spec.remote, spec.remotePort)))
  {
    var digits, addr := ShowNat(spec.port), std.showIp(spec.remote);
    var side := ":" + digits;
    SplitBracketed(side, addr);
    EmptyHostReads(std, spec.port, spec.remotePort);
    var text := side + ":[" + addr + "]";
    Assemble(std, text, spec.remotePort, addr, side, None, spec.port);
    Shifted(digits, addr, ShowNat(spec.remotePort));
  }

  lemma {:induction false} Shifted(digits: string, addr: string, port: string)
    ensures ":" + (digits + ":[" + addr + "]" + ":" + port) == ":" + digits + ":[" + addr + "]" + ":" + port
  {
    var tail := ":[" + addr + "]" + ":" + port;
    assert digits + ":[" + addr + "]" + ":" + port == digits + tail;
  }

  lemma {:induction false} EmptyHostReads(std: Std, port: nat, remotePort: nat)
    requires port < 0x1_0000 && std.parseSock(":" + ShowNat(port)).None?
    ensures var side := ":" + ShowNat(port); TrimColons(side) == side && ParseLocalSide(std, side, remotePort) == Ok((None, port))
  {
    var side := ":" + ShowNat(port);
    PortTail("", port);
    assert "" + ":" + ShowNat(port) == side;
    assert TrimBrackets(side[..0]) == "";
  }

  lemma {:induction false} RemotePartsRead(std: Std, port: nat, rest: string)
    requires port < 0x1_0000
    ensures var s := ShowNat(port) + ":" + rest;
      FindChar(s, ':') == Some(|ShowNat(port)|) && ParseU16(s[..|ShowNat(port)|]) == Some(port) && s[|ShowNat(port)| + 1..] == rest
  {
    var digits := ShowNat(port);
    var s := digits + ":" + rest;
    FindCharIs(digits, ':', rest);
    PortRoundTrip(port);
    assert s[..|digits|] == digits;
  }

  /** All three remote forms read back as what they mean. */
  lemma {:induction false} RemoteRoundTrip(std: Std, spec: RemoteSpec)
    requires Lawful(std) && spec.port < 0x1_0000
    requires spec.Ports? ==> spec.localPort < 0x1_0000
    requires spec.To? ==> spec.local.port < 0x1_0000
    ensures ParseRemote(std, ShowRemote(std, spec)) == Ok(Meant(spec))
  {
    match spec
    case Same(port) =>
      PortRoundTrip(port);
    case Ports(port, localPort) =>
      RemotePartsRead(std, port, ShowNat(localPort));
      PortRoundTrip(localPort);
    case To(port, local) =>
      RemotePartsRead(std, port, ShowSock(std, local));
  }

  lemma {:induction false} RemoteIsBracketed(rest: string) returns (before: string)
    requires SplitRemote(rest).Ok? && ':' in SplitRemote(rest).value.0
    ensures var remote := SplitRemote(rest).value.0; rest == before + "[" + remote + "]" && '[' !in remote
  {
    var remote, last := SplitRemote(rest).value.0, FindLastChar(rest, ':');
    var open := FindLastChar(rest, '[').value;
    before := rest[..open];
    assert rest[open + 1..] == remote + "]";
  }

  /** No spec is accepted unless its remote address stands in brackets before the last port. */
  lemma {:induction false} AcceptedIsBracketed(std: Std, s: string) returns (before: string, port: string)
    ensures ParseMapping(std, s).Ok? ==>
      var l := ParseMapping(std, s).value;
      && s == before + "[" + l.remote + "]" + ":" + port && ParseU16(port) == Some(l.remotePort)
      && ':' in l.remote && '[' !in l.remote
  {
    before, port := "", "";
    if ParseMapping(std, s).Ok? {
      var colon := FindLastChar(s, ':').value;
      port := s[colon + 1..];
      before := RemoteIsBracketed(s[..colon]);
      Rejoin(s, colon, before, SplitRemote(s[..colon]).value.0);
    }
  }

  /** Text that is no socket address still reads as host and port, brackets around the host or not. */
  lemma {:induction false} LenientHostPort(std: Std, host: string, bracketed: bool, port: nat)
    requires port < 0x1_0000 && (host == "" || (!Bracket(host[0]) && !Bracket(host[|host| - 1])))
    ensures var s := (if bracketed then "[" + host + "]" else host) + ":" + ShowNat(port);
      std.parseSock(s).None? ==> ParseHostPort(std, s) == Some((host, port))
  {
    PortTail(if bracketed then "[" + host + "]" else host, port);
    TrimsBrackets(host);
  }

  lemma {:induction false} TrimsBrackets(host: string)
    requires host == "" || (!Bracket(host[0]) && !Bracket(host[|host| - 1]))
    ensures TrimBrackets(host) == host && TrimBrackets("[" + host + "]") == host
  {
    var closed := host + "]";
    assert ("[" + host + "]")[1..] == closed && closed[..|closed| - 1] == host;
    assert TrimBrackets(closed) == host by {
      if host == "" { assert closed[1..] == ""; }
    }
  }

  lemma {:induction false} Rejoin(s: string, colon: nat, before: string, remote: string)
    requires colon < |s| && s[colon] == ':' && s[..colon] == before + "[" + remote + "]"
    ensures s == before + "[" + remote + "]" + ":" + s[colon + 1..]
  {
    assert s == s[..colon] + ":" + s[colon + 1..];
  }

  // ── The assumptions hold together ───────────────────────────────────────────

  /** A plain notation that meets them: the number, after a colon for IPv6. */
  function PlainShow(ip: Ip): string {
    if ip.V4? then ShowNat(ip.v4) else ":" + ShowNat(ip.v6)
  }

  /** The value of decimal text, if it is below a bound. */
  function Below(s: string, bound: nat): Option<nat> {
    if AllDigits(s) && DigitsValue(s) < bound then Some(DigitsValue(s)) else None
  }

  function PlainParse(s: string): Option<Ip> {
    if s != "" && s[0] == ':' then
      var n := Below(s[1..], 0x1_0000_0000_0000_0000_0000_0000_0000_0000);
      if n.Some? then Some(V6(n.value)) else None
    else
      var n := if s == "" then None else Below(s, 0x1_0000_0000);
      if n.Some? then Some(V4(n.value)) else None
  }

  function Inner(host: string): string {
    if |host| >= 2 && host[0] == '[' then host[1..|host| - 1] else host
  }

  function PlainSock(s: string): Option<Sock> {
    var colon := FindLastChar(s, ':');
    if colon.None? then None
    else
      var host, port := s[..colon.value], ParseU16(s[colon.value + 1..]);
      var ip := PlainParse(Inner(host));
      if ip.None? || port.None? then None else Some(Sock(ip.value, port.value))
  }

  lemma {:induction false} PlainParses(ip: Ip)
    ensures PlainParse(PlainShow(ip)) == Some(ip) && PlainShow(ip) != "" && '[' !in PlainShow(ip) && ']' !in PlainShow(ip)
    ensures ':' in PlainShow(ip) <==> ip.V6?
    ensures PlainShow(ip)[0] != '['
  {
    var n := if ip.V4? then ip.v4 else ip.v6;
    ShowNatValue(n);
    var digits := ShowNat(n);
    assert IsDigit(digits[0]);
    assert (":" + digits)[1..] == digits && (":" + digits)[0] == ':';
    assert !IsDigit('[') && !IsDigit(']');
  }

  lemma {:induction false} PlainSockAt(host: string, ip: Ip, port: nat)
    requires PlainParse(Inner(host)) == Some(ip) && port < 0x1_0000
    ensures PlainSock(host + ":" + ShowNat(port)) == Some(Sock(ip, port))
  {
    PortTail(host, port);
  }

  lemma {:induction false} PlainSocks(std: Std, s: Sock)
    requires std.showIp == PlainShow && s.port < 0x1_0000
    ensures PlainSock(ShowSock(std, s)) == Some(s)
  {
    var text := PlainShow(s.ip);
    PlainParses(s.ip);
    PlainSockAt(if s.ip.V4? then text else "[" + text + "]", s.ip, s.port);
  }

  lemma {:induction false} LawfulIsPossible()
    ensures Lawful(Std(PlainShow, PlainParse, PlainParse, PlainSock))
  {
    var std := Std(PlainShow, PlainParse, PlainParse, PlainSock);
    forall ip: Ip ensures PlainParse(PlainShow(ip)) == Some(ip) && PlainShow(ip) != "" && '[' !in PlainShow(ip)
        && ']' !in PlainShow(ip) && (':' in PlainShow(ip) <==> ip.V6?) {
      PlainParses(ip);
    }
    forall s: Sock | s.port < 0x1_0000 ensures PlainSock(ShowSock(std, s)) == Some(s) { PlainSocks(std, s); }
    forall t: string ensures PlainSock(t).Some? ==> ':' in t {}
  }
}
