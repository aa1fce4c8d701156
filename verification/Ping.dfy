/** An ICMPv6 echo session, for every schedule of what its awaits bring. */
module Ping {
  import opened Common

  // What the socket, the clock and the caller's stop do at each await is given as a schedule, one
  // script per probe; a schedule that ends leaves the session waiting.

  const SEQS: nat := 0x1_0000
  const U32: nat := 0x1_0000_0000

  type u16 = x: int | 0 <= x < 0x1_0000

  datatype Reason = Completed | Stopped | Failed

  datatype PingEvent =
    | Probe(seq_: u16, rtt: Option<Time>, error: Option<string>)
    | Done(reason: Reason)

  /** How one wait for a reply ends. */
  datatype Wait = Reply(seq_: u16, elapsed: Time) | RecvFails | TimesOut | StopFires

  /** One probe: its send, its waits, and whether the pause after it is slept through or stopped. */
  datatype Script = Script(sendOk: bool, waits: seq<Wait>, pauseStopped: bool)

  /** How a probe's window closes; `Open` while the schedule has it waiting. */
  datatype Window = Answered(rtt: Time) | Lost | Cancelled | Broken | Open

  // ── The window of one probe ─────────────────────────────────────────────────

  function Close(waits: seq<Wait>, own: u16): Window {
    if waits == [] then Open
    else
      match waits[0]
      case Reply(r, elapsed) => if r == own then Answered(elapsed) else Close(waits[1..], own)
      case RecvFails => Broken
      case TimesOut => Lost
      case StopFires => Cancelled
  }

  method AwaitReply(waits: seq<Wait>, own: u16) returns (w: Window)
    ensures w == Close(waits, own)
  {
    var i := 0;
    while i < |waits|
      invariant i <= |waits| && Close(waits[i..], own) == Close(waits, own)
    {
      var next := waits[i];
      assert waits[i..][0] == next && waits[i..][1..] == waits[i + 1..];
      i := i + 1;
      match next
      case RecvFails => return Broken;
      case StopFires => return Cancelled;
      case TimesOut => return Lost;
      case Reply(r, elapsed) =>
        if r == own {
          return Answered(elapsed);
        }
    }
    return Open;
  }

  /** A wait that goes on: a late reply to another probe. */
  ghost predicate LateReplies(waits: seq<Wait>, n: nat, own: u16) {
    n <= |waits| && forall i :: 0 <= i < n ==> waits[i].Reply? && waits[i].seq_ != own
  }

  /** Something other than a late reply comes first at place n. */
  ghost predicate ClosedBy(waits: seq<Wait>, n: nat, own: u16, cause: Wait) {
    n < |waits| && LateReplies(waits, n, own) && waits[n] == cause
  }

  ghost predicate Closes(waits: seq<Wait>, own: u16, cause: Wait) {
    exists n: nat :: ClosedBy(waits, n, own, cause)
  }

  /** Only a reply with the probe's own number, after nothing but late replies, gives it a round-trip time. */
  lemma {:induction false} CloseExactly(waits: seq<Wait>, own: u16)
    ensures forall t :: Close(waits, own) == Answered(t) <==> Closes(waits, own, Reply(own, t))
    ensures Close(waits, own) == Lost <==> Closes(waits, own, TimesOut)
    ensures Close(waits, own) == Cancelled <==> Closes(waits, own, StopFires)
    ensures Close(waits, own) == Broken <==> Closes(waits, own, RecvFails)
    ensures Close(waits, own) == Open <==> LateReplies(waits, |waits|, own)
  {
    if waits != [] {
      if waits[0].Reply? && waits[0].seq_ != own {
        CloseExactly(waits[1..], own);
        forall cause | cause != waits[0] ensures Closes(waits, own, cause) <==> Closes(waits[1..], own, cause) {
          ClosedLater(waits, own, cause);
        }
        if LateReplies(waits[1..], |waits| - 1, own) {
          forall i | 0 < i < |waits| ensures waits[i].Reply? && waits[i].seq_ != own { assert waits[i] == waits[1..][i - 1]; }
        }
        if LateReplies(waits, |waits|, own) {
          forall i | 0 <= i < |waits| - 1 ensures waits[1..][i].Reply? && waits[1..][i].seq_ != own { assert waits[i + 1] == waits[1..][i]; }
        }
      } else {
        assert ClosedBy(waits, 0, own, waits[0]);
        forall n: nat, cause | ClosedBy(waits, n, own, cause) ensures n == 0 {}
      }
    }
  }

  lemma {:induction false} ClosedLater(waits: seq<Wait>, own: u16, cause: Wait)
    requires waits != [] && waits[0].Reply? && waits[0].seq_ != own && cause != waits[0]
    ensures Closes(waits, own, cause) <==> Closes(waits[1..], own, cause)
  {
    if n: nat :| ClosedBy(waits, n, own, cause) {
      forall i | 0 <= i < n - 1 ensures waits[1..][i].Reply? && waits[1..][i].seq_ != own { assert waits[1..][i] == waits[i + 1]; }
      assert ClosedBy(waits[1..], n - 1, own, cause);
    }
    if n: nat :| ClosedBy(waits[1..], n, own, cause) {
      forall i | 0 < i < n + 1 ensures waits[i].Reply? && waits[i].seq_ != own { assert waits[i] == waits[1..][i - 1]; }
      assert ClosedBy(waits, n + 1, own, cause);
    }
  }

  // ── The session ─────────────────────────────────────────────────────────────

  /** The number of the probe with this index: the first is 1, and they wrap. */
  function SeqOf(i: nat): u16 { (i + 1) % SEQS }

  ghost predicate Reports(s: Script, i: nat, e: PingEvent) {
    && s.sendOk
    && match Close(s.waits, SeqOf(i))
       case Answered(t) => e == Probe(SeqOf(i), Some(t), None)
       case Lost => e == Probe(SeqOf(i), None, Some("timeout"))
       case _ => false
  }

  /** The first k probes were reported, each for its own script, and the pauses between them slept. */
  ghost predicate Reported(schedule: seq<Script>, events: seq<PingEvent>) {
    && |events| <= |schedule|
    && (forall i :: 0 <= i < |events| ==> Reports(schedule[i], i, events[i]))
    && (forall i :: 0 <= i < |events| - 1 ==> !schedule[i].pauseStopped)
  }

  /** After k reports the next probe is begun. */
  ghost predicate Begun(count: nat, schedule: seq<Script>, k: nat) {
    (count == 0 || k < count) && (0 < k <= |schedule| ==> !schedule[k - 1].pauseStopped)
  }

  /** How a session stands that has reported k probes: ended for a reason, or waiting. */
  ghost predicate Stands(count: nat, schedule: seq<Script>, k: nat, end: Option<Reason>) {
    var failedSend := k < |schedule| && !schedule[k].sendOk;
    var window := if k < |schedule| then Close(schedule[k].waits, SeqOf(k)) else Open;
    match end
    case None => Begun(count, schedule, k) && !failedSend && window.Open?
    case Some(Completed) => count != 0 && k == count
    case Some(Failed) => Begun(count, schedule, k) && (failedSend || window.Broken?)
    case Some(Stopped) =>
      || (Begun(count, schedule, k) && !failedSend && window.Cancelled?)
      || (0 < k <= |schedule| && (count == 0 || k < count) && schedule[k - 1].pauseStopped)
  }

  /** The trace: k reports, then exactly one Done if the session has ended. */
  ghost predicate IsTrace(count: nat, schedule: seq<Script>, events: seq<PingEvent>, end: Option<Reason>, trace: seq<PingEvent>) {
    && Reported(schedule, events)
    && (count != 0 ==> |events| <= count)
    && Stands(count, schedule, |events|, end)
    && trace == events + if end.Some? then [Done(end.value)] else []
  }

  lemma {:induction false} WrapNext(k: nat)
    ensures (k % SEQS + 1) % SEQS == (k + 1) % SEQS && (k % U32 + 1) % U32 == (k + 1) % U32
  {
  }

  /** One more report keeps what was reported. */
  lemma {:induction false} ReportedMore(schedule: seq<Script>, events: seq<PingEvent>, e: PingEvent)
    requires Reported(schedule, events) && |events| < |schedule| && Reports(schedule[|events|], |events|, e)
    requires |events| > 0 ==> !schedule[|events| - 1].pauseStopped
    ensures Reported(schedule, events + [e])
  {
  }

  /** One probe: its send and its window; a report, or how the session stands without one. */
  method RunProbe(script: Script, own: u16, ghost k: nat) returns (sent: bool, report: Option<PingEvent>, end: Option<Reason>)
    requires own == SeqOf(k)
    ensures sent == script.sendOk
    ensures report.Some? ==> Reports(script, k, report.value) && end.None?
    ensures report.None? && end.None? ==> sent && Close(script.waits, own).Open?
    ensures report.None? && end.Some? ==>
      if end.value.Failed? then !sent || Close(script.waits, own).Broken?
      else end.value.Stopped? && sent && Close(script.waits, own).Cancelled?
  {
    sent, report, end := script.sendOk, None, None;
    if !sent {
      end := Some(Failed);
      return;
    }
    var window := AwaitReply(script.waits, own);
    match window
    case Open =>
    case Broken => end := Some(Failed);
    case Cancelled => end := Some(Stopped);
    case Answered(rtt) => report := Some(Probe(own, Some(rtt), None));
    case Lost => report := Some(Probe(own, None, Some("timeout")));
  }

  /** The loop: what was reported, how many probes went out, and how the session stands. */
  method RunProbes(count: nat, schedule: seq<Script>) returns (events: seq<PingEvent>, sends: nat, end: Option<Reason>)
    requires count < U32
    ensures Reported(schedule, events) && (count != 0 ==> |events| <= count) && Stands(count, schedule, |events|, end)
    ensures |events| <= sends <= |events| + 1
    ensures end == Some(Completed) ==> sends == |events| == count
  {
    events, sends, end := [], 0, None;
    var seq_: u16 := 0;
    var sent := 0;
    while true
      invariant |events| == sends && Reported(schedule, events)
      invariant count != 0 ==> |events| <= count
      invariant |events| > 0 && (count == 0 || |events| < count) ==> !schedule[|events| - 1].pauseStopped
      invariant seq_ == |events| % SEQS && sent == |events| % U32
      decreases |schedule| - |events|
    {
      if count != 0 && sent >= count {
        return events, sends, Some(Completed);
      }
      var k := |events|;
      if k == |schedule| {
        return events, sends, None;
      }
      WrapNext(k);
      seq_ := (seq_ + 1) % SEQS;
      var out, report, stop := RunProbe(schedule[k], seq_, k);
      if out {
        sent := (sent + 1) % U32;
        sends := sends + 1;
      }
      if report.None? {
        return events, sends, stop;
      }
      ReportedMore(schedule, events, report.value);
      events := events + [report.value];
      if (count == 0 || sent < count) && schedule[k].pauseStopped {
        return events, sends, Some(Stopped);
      }
    }
  }

  method RunPing(opens: bool, count: nat, schedule: seq<Script>)
    returns (trace: seq<PingEvent>, sends: nat, end: Option<Reason>, k: nat)
    requires count < U32
    ensures !opens ==> trace == [Done(Failed)] && sends == 0 && end == Some(Failed)
    ensures opens ==> k <= |trace| && IsTrace(count, schedule, trace[..k], end, trace)
    ensures opens ==> k <= sends <= k + 1
    ensures opens && end == Some(Completed) ==> sends == k == count
  {
    trace, sends, end, k := [], 0, None, 0;
    if !opens {
      trace, end := [Done(Failed)], Some(Failed);
      return;
    }
    trace, sends, end := RunProbes(count, schedule);
    k := |trace|;
    ghost var events := trace;
    if end.Some? {
      trace := trace + [Done(end.value)];
    }
    assert trace[..k] == events;
  }

  // ── What every trace looks like ─────────────────────────────────────────────

  /**
   Probes 1, 2, … modulo 65536 in order, then at most one Done, at the very end; never more
   than `count` probes, exactly that many when completed; and a round-trip time only where a
   reply with the probe's own number ended its window.
   */
  lemma {:induction false} TraceGrammar(count: nat, schedule: seq<Script>, events: seq<PingEvent>, end: Option<Reason>, trace: seq<PingEvent>)
    requires IsTrace(count, schedule, events, end, trace)
    ensures forall i :: 0 <= i < |trace| && trace[i].Done? ==> i == |trace| - 1
    ensures end.Some? <==> |trace| > 0 && trace[|trace| - 1].Done?
    ensures forall i :: 0 <= i < |trace| && trace[i].Probe? ==> trace[i].seq_ == (i + 1) % 0x1_0000
    ensures count != 0 ==> |trace| <= count + 1
    ensures Done(Completed) in trace ==> count != 0 && |trace| == count + 1
    ensures forall i :: 0 <= i < |trace| && trace[i].Probe? && trace[i].rtt.Some? ==>
      trace[i].error.None? && i < |schedule| && Closes(schedule[i].waits, SeqOf(i), Reply(SeqOf(i), trace[i].rtt.value))
    ensures forall i :: 0 <= i < |trace| && trace[i].Probe? && trace[i].rtt.None? ==>
      trace[i].error == Some("timeout") && i < |schedule| && Closes(schedule[i].waits, SeqOf(i), TimesOut)
  {
    forall i | 0 <= i < |events|
      ensures events[i].Probe? && events[i].seq_ == SeqOf(i) && trace[i] == events[i]
      ensures events[i].rtt.Some? ==> events[i].error.None? && Closes(schedule[i].waits, SeqOf(i), Reply(SeqOf(i), events[i].rtt.value))
      ensures events[i].rtt.None? ==> events[i].error == Some("timeout") && Closes(schedule[i].waits, SeqOf(i), TimesOut)
    {
      assert Reports(schedule[i], i, events[i]);
      CloseExactly(schedule[i].waits, SeqOf(i));
    }
  }

  ghost predicate Complete(count: nat, k: nat) { count != 0 && k == count }

  ghost predicate SendOrWaitFails(schedule: seq<Script>, k: nat) {
    k < |schedule| && (!schedule[k].sendOk || Closes(schedule[k].waits, (k + 1) % 0x1_0000, RecvFails))
  }

  ghost predicate WaitIsStopped(schedule: seq<Script>, k: nat) {
    k < |schedule| && schedule[k].sendOk && Closes(schedule[k].waits, (k + 1) % 0x1_0000, StopFires)
  }

  ghost predicate StillWaits(schedule: seq<Script>, k: nat) {
    k < |schedule| ==> schedule[k].sendOk && LateReplies(schedule[k].waits, |schedule[k].waits|, (k + 1) % 0x1_0000)
  }

  /** The pause before the next probe was stopped. */
  ghost predicate Interrupted(schedule: seq<Script>, k: nat) {
    0 < k <= |schedule| && schedule[k - 1].pauseStopped
  }

  /**
   After k reports: completed exactly when k is the count; failed or stopped exactly when that is
   what the next send, its window or the pause before it brings; waiting otherwise.
   */
  lemma {:induction false} EndExactly(count: nat, schedule: seq<Script>, events: seq<PingEvent>, end: Option<Reason>, trace: seq<PingEvent>)
    requires IsTrace(count, schedule, events, end, trace)
    ensures end == Some(Completed) <==> Complete(count, |events|)
    ensures end == Some(Failed) <==> !Complete(count, |events|) && !Interrupted(schedule, |events|) && SendOrWaitFails(schedule, |events|)
    ensures end == Some(Stopped) <==> !Complete(count, |events|) && (Interrupted(schedule, |events|) || WaitIsStopped(schedule, |events|))
    ensures end == None <==> !Complete(count, |events|) && !Interrupted(schedule, |events|) && StillWaits(schedule, |events|)
  {
    if |events| < |schedule| { CloseExactly(schedule[|events|].waits, SeqOf(|events|)); }
  }

  /** The probe goes out and its window is answered or times out. */
  ghost predicate GoesThrough(script: Script, own: u16) {
    script.sendOk && (Closes(script.waits, own, TimesOut) || exists t :: Closes(script.waits, own, Reply(own, t)))
  }

  /** If nothing fails and nobody stops it, a session of `count` probes reports them all and completes. */
  lemma {:induction false} UndisturbedCompletes(count: nat, schedule: seq<Script>, events: seq<PingEvent>, end: Option<Reason>, trace: seq<PingEvent>)
    requires IsTrace(count, schedule, events, end, trace) && 0 < count <= |schedule|
    requires forall i :: 0 <= i < count ==> GoesThrough(schedule[i], (i + 1) % 0x1_0000)
    requires forall i :: 0 <= i < count - 1 ==> !schedule[i].pauseStopped
    ensures end == Some(Completed) && |trace| == count + 1 && trace[count] == Done(Completed)
  {
    var k := |events|;
    if k < count {
      assert GoesThrough(schedule[k], SeqOf(k));
      CloseExactly(schedule[k].waits, SeqOf(k));
    }
  }

  lemma {:induction false} NotShorter(count: nat, schedule: seq<Script>, a: seq<PingEvent>, aEnd: Option<Reason>, b: seq<PingEvent>)
    requires Reported(schedule, a) && Reported(schedule, b) && Stands(count, schedule, |a|, aEnd)
    requires count != 0 ==> |b| <= count
    ensures |b| <= |a|
  {
  }

  /** The schedule settles the session: no two traces answer to it. */
  lemma {:induction false} TraceIsUnique(count: nat, schedule: seq<Script>, a: seq<PingEvent>, aEnd: Option<Reason>, aTrace: seq<PingEvent>,
                      b: seq<PingEvent>, bEnd: Option<Reason>, bTrace: seq<PingEvent>)
    requires IsTrace(count, schedule, a, aEnd, aTrace) && IsTrace(count, schedule, b, bEnd, bTrace)
    ensures a == b && aEnd == bEnd && aTrace == bTrace
  {
    NotShorter(count, schedule, a, aEnd, b);
    NotShorter(count, schedule, b, bEnd, a);
    forall i | 0 <= i < |a| ensures a[i] == b[i] {
      assert Reports(schedule[i], i, a[i]) && Reports(schedule[i], i, b[i]);
    }
  }
}
