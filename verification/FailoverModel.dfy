/**
 Nameserver failover: the sticky cursor, the cool-down of the preferred server, and the
 walk over the list. Times are milliseconds.
 */
module FailoverModel {
  import opened Common

  type Addr = seq<byte>

  /** One server's answer to one lookup; a time-out is a failure. */
  datatype Answer = Ip(ip: Addr) | NoRecord | Failed(error: string)

  /** What a lookup returns: an address, an authoritative "no record", or all servers failed. */
  datatype Outcome = Resolved(ip: Addr) | NoSuchRecord | AllFailed

  predicate Responsive(a: Answer) { !a.Failed? }

  function Verdict(a: Answer): Outcome
    requires Responsive(a)
  {
    match a
    case Ip(ip) => Resolved(ip)
    case NoRecord => NoSuchRecord
  }

  /** The i-th server in cyclic order from `start`. */
  function Nth(n: nat, start: nat, i: nat): (s: nat)
    requires start < n && i <= n
    ensures i < n ==> s < n
    ensures i == n ==> s == start
  {
    if start + i < n then start + i else start + i - n
  }

  /** The first responsive server in cyclic order from `start`. */
  ghost predicate FirstResponsive(answers: seq<Answer>, start: nat, i: nat) {
    && start < |answers| && i < |answers| && Responsive(answers[Nth(|answers|, start, i)])
    && forall j :: 0 <= j < i ==> !Responsive(answers[Nth(|answers|, start, j)])
  }

  ghost predicate AllSilent(answers: seq<Answer>) {
    forall s :: 0 <= s < |answers| ==> !Responsive(answers[s])
  }

  /** The cursor and the time the preferred server was first seen down. */
  datatype State = State(cursor: nat, down: Option<Time>)

  function StartAt(s: State, now: Time, retry: nat): nat {
    if s.cursor != 0 && s.down.Some? && Since(now, s.down.value) >= retry then 0 else s.cursor
  }

  function AfterStart(s: State, now: Time, retry: nat): State {
    s.(cursor := StartAt(s, now, retry))
  }

  function AfterSuccess(s: State, idx: nat): State {
    State(idx, if idx == 0 then None else s.down)
  }

  function AfterFailure(s: State, idx: nat, n: nat, now: Time): State
    requires n > 0
  {
    State(if s.cursor == idx then (idx + 1) % n else s.cursor,
          if idx == 0 && s.down.None? then Some(now) else s.down)
  }

  // ── One lookup that overlaps no other ───────────────────────────────────────

  /** What a lookup sees of server 0: it answered, or it failed at a time. */
  datatype Sighting = Up | Down(at: Time)

  datatype Walked = Walked(state: State, out: Outcome, seen: seq<Sighting>)

  /** The walk from its i-th attempt on; `times[i]` is when that attempt ends. */
  function Walk(s: State, answers: seq<Answer>, times: seq<Time>, start: nat, i: nat): Walked
    requires start < |answers| == |times| && i <= |answers|
    decreases |answers| - i
  {
    var n := |answers|;
    if i == n then Walked(s, AllFailed, [])
    else
      var idx := (start + i) % n;
      if Responsive(answers[idx]) then
        Walked(AfterSuccess(s, idx), Verdict(answers[idx]), if idx == 0 then [Up] else [])
      else
        var rest := Walk(AfterFailure(s, idx, n, times[i]), answers, times, start, i + 1);
        rest.(seen := (if idx == 0 then [Down(times[i])] else []) + rest.seen)
  }

  datatype Lookup = Lookup(answers: seq<Answer>, now: Time, times: seq<Time>)

  predicate Asks(l: Lookup, n: nat) {
    |l.answers| == |l.times| == n
  }

  function Resolve(s: State, l: Lookup, retry: nat): Walked
    requires s.cursor < |l.answers| == |l.times|
  {
    Walk(AfterStart(s, l.now, retry), l.answers, l.times, StartAt(s, l.now, retry), 0)
  }
}
