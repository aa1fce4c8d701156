/** What sequences of lookups, one after the other, keep. */
module FailoverProofs {
  import opened Common
  import opened FailoverModel

  lemma {:induction false} FirstIsUnique(answers: seq<Answer>, start: nat, i: nat, j: nat)
    requires FirstResponsive(answers, start, i) && FirstResponsive(answers, start, j)
    ensures i == j
  {
  }

  lemma {:induction false} ModOnce(x: nat, n: nat)
    requires n > 0 && x < 2 * n
    ensures x % n == if x < n then x else x - n
  {
    var q := x / n;
    assert x == q * n + x % n;
    assert q <= 0 ==> q * n <= 0;
    assert q >= 2 ==> q * n >= 2 * n;
  }

  lemma {:induction false} NthIsMod(n: nat, start: nat, i: nat)
    requires start < n && i < n
    ensures (start + i) % n == Nth(n, start, i)
    ensures (Nth(n, start, i) + 1) % n == Nth(n, start, i + 1)
  {
    ModOnce(start + i, n);
    ModOnce(Nth(n, start, i) + 1, n);
  }

  /** Walking n steps from anywhere asks every server. */
  lemma {:induction false} WalkCovers(answers: seq<Answer>, start: nat)
    requires start < |answers| && forall j :: 0 <= j < |answers| ==> !Responsive(answers[Nth(|answers|, start, j)])
    ensures AllSilent(answers)
  {
    forall s | 0 <= s < |answers| ensures !Responsive(answers[s]) {
      var j := if s >= start then s - start else s + |answers| - start;
      assert Nth(|answers|, start, j) == s;
    }
  }

  lemma {:induction false} WalkResult(s: State, answers: seq<Answer>, times: seq<Time>, start: nat, i: nat)
    requires start < |answers| == |times| && i <= |answers| && s.cursor == Nth(|answers|, start, i)
    requires forall j :: 0 <= j < i ==> !Responsive(answers[Nth(|answers|, start, j)])
    ensures var w := Walk(s, answers, times, start, i);
      && (w.out.AllFailed? <==> AllSilent(answers))
      && (AllSilent(answers) ==> w.state.cursor == start)
      && (forall k :: FirstResponsive(answers, start, k) ==>
            w.out == Verdict(answers[Nth(|answers|, start, k)]) && w.state.cursor == Nth(|answers|, start, k))
    decreases |answers| - i
  {
    var n := |answers|;
    if i == n {
      WalkCovers(answers, start);
    } else {
      NthIsMod(n, start, i);
      var idx := Nth(n, start, i);
      if Responsive(answers[idx]) {
        assert FirstResponsive(answers, start, i);
        forall k | FirstResponsive(answers, start, k) ensures k == i { FirstIsUnique(answers, start, i, k); }
      } else {
        WalkResult(AfterFailure(s, idx, n, times[i]), answers, times, start, i + 1);
      }
    }
  }

  /**
   A lookup alone returns the verdict of the first responsive server in cyclic order from its
   start and leaves the cursor on it; when none responds the cursor is back at the start.
   */
  lemma {:induction false} LookupResult(s: State, l: Lookup, retry: nat)
    requires s.cursor < |l.answers| == |l.times|
    ensures var w := Resolve(s, l, retry); var start := StartAt(s, l.now, retry); var n := |l.answers|;
      && (w.out.AllFailed? <==> AllSilent(l.answers))
      && (AllSilent(l.answers) ==> w.state.cursor == start)
      && (forall k :: FirstResponsive(l.answers, start, k) ==>
            w.out == Verdict(l.answers[Nth(n, start, k)]) && w.state.cursor == Nth(n, start, k))
      && w.state.cursor < n
  {
    var start := StartAt(s, l.now, retry);
    WalkResult(AfterStart(s, l.now, retry), l.answers, l.times, start, 0);
    if !AllSilent(l.answers) {
      SomeFirst(l.answers, start);
    }
  }

  lemma {:induction false} SomeFirst(answers: seq<Answer>, start: nat)
    requires start < |answers| && !AllSilent(answers)
    ensures exists k :: FirstResponsive(answers, start, k)
  {
    if forall k :: 0 <= k < |answers| ==> !Responsive(answers[Nth(|answers|, start, k)]) {
      WalkCovers(answers, start);
    } else {
      var k :| 0 <= k < |answers| && Responsive(answers[Nth(|answers|, start, k)]);
      Least(answers, start, k);
    }
  }

  lemma {:induction false} Least(answers: seq<Answer>, start: nat, k: nat)
    requires start < |answers| && k < |answers| && Responsive(answers[Nth(|answers|, start, k)])
    ensures exists m :: FirstResponsive(answers, start, m)
    decreases k
  {
    if j :| 0 <= j < k && Responsive(answers[Nth(|answers|, start, j)]) {
      Least(answers, start, j);
    } else {
      assert FirstResponsive(answers, start, k);
    }
  }

  // ── The recorded down time ──────────────────────────────────────────────────

  /** Server 0 fails from sighting `i` to the last one, and was up just before. */
  ghost predicate OutageFrom(seen: seq<Sighting>, i: nat, t: Time) {
    && i < |seen| && seen[i] == Down(t) && (i == 0 || seen[i - 1].Up?)
    && forall j :: i <= j < |seen| ==> seen[j].Down?
  }

  /** `t` is when server 0 first failed after it was last seen up (or ever). */
  ghost predicate FirstDownAt(seen: seq<Sighting>, t: Time) {
    exists i :: OutageFrom(seen, i, t)
  }

  /** The recorded down time is exactly that moment; there is none while server 0 counts as up. */
  ghost predicate Records(down: Option<Time>, seen: seq<Sighting>) {
    if down.Some? then FirstDownAt(seen, down.value) else seen == [] || seen[|seen| - 1].Up?
  }

  lemma {:induction false} RecordsNext(down: Option<Time>, seen: seq<Sighting>, x: Sighting)
    requires Records(down, seen)
    ensures Records(if x.Up? then None else if down.Some? then down else Some(x.at), seen + [x])
  {
    var all := seen + [x];
    if x.Down? {
      if down.Some? {
        var i: nat :| OutageFrom(seen, i, down.value);
        assert OutageFrom(all, i, down.value);
      } else {
        assert OutageFrom(all, |seen|, x.at);
      }
    }
  }

  lemma {:induction false} WalkRecords(s: State, answers: seq<Answer>, times: seq<Time>, start: nat, i: nat, seen: seq<Sighting>)
    requires start < |answers| == |times| && i <= |answers| && Records(s.down, seen)
    ensures var w := Walk(s, answers, times, start, i); Records(w.state.down, seen + w.seen)
    decreases |answers| - i
  {
    var n := |answers|;
    assert seen + [] == seen;
    if i < n {
      NthIsMod(n, start, i);
      var idx := Nth(n, start, i);
      if Responsive(answers[idx]) {
        RecordsNext(s.down, seen, Up);
      } else {
        var s' := AfterFailure(s, idx, n, times[i]);
        var add := if idx == 0 then [Down(times[i])] else [];
        FailureRecords(s, answers, times[i], idx, seen, add);
        WalkRecords(s', answers, times, start, i + 1, seen + add);
        var rest := Walk(s', answers, times, start, i + 1);
        assert (seen + add) + rest.seen == seen + (add + rest.seen);
      }
    }
  }

  lemma {:induction false} FailureRecords(s: State, answers: seq<Answer>, at: Time, idx: nat, seen: seq<Sighting>, add: seq<Sighting>)
    requires Records(s.down, seen) && idx < |answers| && add == if idx == 0 then [Down(at)] else []
    ensures Records(AfterFailure(s, idx, |answers|, at).down, seen + add)
  {
    if idx == 0 { RecordsNext(s.down, seen, Down(at)); } else { assert seen + add == seen; }
  }

  /** Off server 0 means its failure is on record. */
  lemma {:induction false} WalkOffZero(s: State, answers: seq<Answer>, times: seq<Time>, start: nat, i: nat)
    requires start < |answers| == |times| && i <= |answers| && s.cursor == Nth(|answers|, start, i)
    requires s.cursor != 0 ==> s.down.Some?
    ensures var w := Walk(s, answers, times, start, i); w.state.cursor != 0 ==> w.state.down.Some?
    decreases |answers| - i
  {
    var n := |answers|;
    if i < n {
      NthIsMod(n, start, i);
      var idx := Nth(n, start, i);
      if !Responsive(answers[idx]) {
        WalkOffZero(AfterFailure(s, idx, n, times[i]), answers, times, start, i + 1);
      }
    }
  }

  // ── Every sequence of lookups ───────────────────────────────────────────────

  /** The state before each lookup and after the last, with all sightings of server 0 so far. */
  datatype Moment = Moment(state: State, seen: seq<Sighting>)

  ghost predicate IsHistory(h: seq<Moment>, lookups: seq<Lookup>, n: nat, retry: nat) {
    && |h| == |lookups| + 1 && h[0] == Moment(State(0, None), [])
    && forall k :: 0 <= k < |lookups| ==>
         && Asks(lookups[k], n) && h[k].state.cursor < n
         && var w := Resolve(h[k].state, lookups[k], retry);
            h[k + 1] == Moment(w.state, h[k].seen + w.seen)
  }

  ghost predicate Sound(m: Moment, n: nat) {
    && m.state.cursor < n && Records(m.state.down, m.seen)
    && (m.state.cursor != 0 ==> m.state.down.Some?)
  }

  /** A cursor off server 0 always has a down time: server 0's earliest failure since it last answered. */
  lemma {:induction false} EveryMomentSound(h: seq<Moment>, lookups: seq<Lookup>, n: nat, retry: nat, k: nat)
    requires n >= 2 && IsHistory(h, lookups, n, retry) && k < |h|
    ensures Sound(h[k], n)
  {
    if k > 0 {
      EveryMomentSound(h, lookups, n, retry, k - 1);
      var s, l := h[k - 1].state, lookups[k - 1];
      assert Asks(l, n);
      var w := Resolve(s, l, retry);
      assert h[k - 1 + 1] == Moment(w.state, h[k - 1].seen + w.seen);
      LookupResult(s, l, retry);
      var s' := AfterStart(s, l.now, retry);
      WalkRecords(s', l.answers, l.times, s'.cursor, 0, h[k - 1].seen);
      WalkOffZero(s', l.answers, l.times, s'.cursor, 0);
    }
  }

  /** Server 0 has been down for at least the retry interval. */
  ghost predicate CooledDown(seen: seq<Sighting>, now: Time, retry: nat) {
    exists since :: FirstDownAt(seen, since) && Since(now, since) >= retry
  }

  /** A lookup starts at server 0 exactly when the cursor is there or the cool-down is over. */
  lemma {:induction false} StartsAtZero(h: seq<Moment>, lookups: seq<Lookup>, n: nat, retry: nat, k: nat)
    requires n >= 2 && IsHistory(h, lookups, n, retry) && k < |lookups|
    ensures var s := h[k].state;
      StartAt(s, lookups[k].now, retry) == 0
      <==> s.cursor == 0 || CooledDown(h[k].seen, lookups[k].now, retry)
  {
    EveryMomentSound(h, lookups, n, retry, k);
    var s, seen := h[k].state, h[k].seen;
    if s.cursor != 0 {
      assert FirstDownAt(seen, s.down.value);
      forall t | FirstDownAt(seen, t) ensures t == s.down.value {
        FirstDownUnique(seen, t, s.down.value);
      }
    }
  }

  lemma {:induction false} FirstDownUnique(seen: seq<Sighting>, t: Time, u: Time)
    requires FirstDownAt(seen, t) && FirstDownAt(seen, u)
    ensures t == u
  {
    var i: nat :| OutageFrom(seen, i, t);
    var k: nat :| OutageFrom(seen, k, u);
    assert (k == 0 || seen[k - 1].Up?) && (i == 0 || seen[i - 1].Up?);
  }
}
