/** The shared cursor itself, and one lookup that overlaps no other. */
module Failover {
  import opened Common
  import opened FailoverModel

  class FailoverState {
    var current: nat
    var preferredDown: Option<Time>
    const retryAfter: nat

    ghost function View(): State
      reads this
    {
      State(current, preferredDown)
    }

    constructor (retryAfter: nat)
      ensures View() == State(0, None) && this.retryAfter == retryAfter
    {
      current, preferredDown, this.retryAfter := 0, None, retryAfter;
    }

    method StartIndex(now: Time) returns (start: nat)
      modifies this
      ensures start == StartAt(old(View()), now, retryAfter) && current == start && preferredDown == old(preferredDown)
      ensures start == if old(current) != 0 && preferredDown.Some? && (now >= preferredDown.value + retryAfter || retryAfter == 0)
                       then 0 else old(current)
      ensures View() == AfterStart(old(View()), now, retryAfter)
    {
      start := current;
      if start != 0 {
        var down := preferredDown;
        if down.Some? && Since(now, down.value) >= retryAfter {
          current := 0;
          return 0;
        }
      }
    }

    method NoteSuccess(idx: nat)
      modifies this
      ensures View() == AfterSuccess(old(View()), idx)
    {
      current := idx;
      if idx == 0 {
        preferredDown := None;
      }
    }

    method NoteFailure(idx: nat, len: nat, now: Time)
      requires len > 0
      modifies this
      ensures View() == AfterFailure(old(View()), idx, len, now)
    {
      if idx == 0 && preferredDown.None? {
        preferredDown := Some(now);
      }
      if current == idx {
        current := (idx + 1) % len;
      }
    }

    /** resolve_with_failover: `answers[s]` is what server s says if this lookup asks it. */
    method ResolveWithFailover(answers: seq<Answer>, now: Time, times: seq<Time>) returns (out: Outcome)
      requires current < |answers| == |times|
      modifies this
      ensures View() == Resolve(old(View()), Lookup(answers, now, times), retryAfter).state
      ensures out == Resolve(old(View()), Lookup(answers, now, times), retryAfter).out
    {
      ghost var s := AfterStart(View(), now, retryAfter);
      var start := StartIndex(now);
      var i := 0;
      while i < |answers|
        invariant 0 <= i <= |answers| && start < |answers|
        invariant Walk(View(), answers, times, start, i).state == Walk(s, answers, times, start, 0).state
        invariant Walk(View(), answers, times, start, i).out == Walk(s, answers, times, start, 0).out
      {
        var idx := (start + i) % |answers|;
        match answers[idx] {
          case Ip(ip) =>
            NoteSuccess(idx);
            return Resolved(ip);
          case NoRecord =>
            NoteSuccess(idx);
            return NoSuchRecord;
          case Failed(_) =>
            NoteFailure(idx, |answers|, times[i]);
        }
        i := i + 1;
      }
      out := AllFailed;
    }
  }
}
