/** Where a lookup starts and what it returns, and that its atomic steps, taken alone, are the lookup. */
module FailoverLaws {
  import opened Common
  import opened FailoverModel
  import opened FailoverProofs
  import opened FailoverConcurrent

  // ── Stickiness ──────────────────────────────────────────────────────────────

  /** The cursor stands off server 0 and the record is at least the retry interval old. */
  ghost predicate CoolDownOver(s: State, now: Time, retry: nat) {
    s.cursor != 0 && s.down.Some? && (now >= s.down.value + retry || retry == 0)
  }

  /** The answer that ends a walk, as it is returned. */
  ghost predicate Returns(a: Answer, out: Outcome) {
    match a
    case Ip(ip) => out == Resolved(ip)
    case NoRecord => out == NoSuchRecord
    case Failed(_) => false
  }

  /** What the k-th server from `start` on says, in cyclic order. */
  function Says(answers: seq<Answer>, start: nat, k: nat): Answer
    requires |answers| > 0
  {
    answers[(start + k) % |answers|]
  }

  /** The k-th server from `start` on answers, and every one before it fails. */
  ghost predicate AnswersFirst(answers: seq<Answer>, start: nat, k: nat) {
    && start < |answers| && k < |answers| && !Says(answers, start, k).Failed?
    && forall j: nat :: j < k ==> Says(answers, start, j).Failed?
  }

  lemma {:induction false} FirstIsFirst(answers: seq<Answer>, start: nat, k: nat)
    requires AnswersFirst(answers, start, k)
    ensures FirstResponsive(answers, start, k) && Nth(|answers|, start, k) == (start + k) % |answers|
  {
    NthIsMod(|answers|, start, k);
    forall j: nat | j < k ensures Nth(|answers|, start, j) == (start + j) % |answers| && !Responsive(answers[Nth(|answers|, start, j)]) {
      NthIsMod(|answers|, start, j);
      assert Says(answers, start, j).Failed?;
    }
  }

  /**
   A lookup walks from the cursor where it stands, or from server 0 once the cool-down is over,
   returns the first answer it gets and leaves the cursor on the server that gave it; if every
   server fails the cursor is back where the walk began.
   */
  lemma {:induction false} LookupExactly(s: State, l: Lookup, retry: nat)
    requires s.cursor < |l.answers| == |l.times|
    ensures var w, n := Resolve(s, l, retry), |l.answers|;
      var start := if CoolDownOver(s, l.now, retry) then 0 else s.cursor;
      && (forall k: nat :: AnswersFirst(l.answers, start, k) ==>
            Returns(Says(l.answers, start, k), w.out) && w.state.cursor == (start + k) % n)
      && ((forall c :: 0 <= c < n ==> l.answers[c].Failed?) ==> w.out == AllFailed && w.state.cursor == start)
  {
    LookupResult(s, l, retry);
    var start := if CoolDownOver(s, l.now, retry) then 0 else s.cursor;
    forall k: nat | AnswersFirst(l.answers, start, k)
      ensures Returns(Says(l.answers, start, k), Resolve(s, l, retry).out)
      ensures Resolve(s, l, retry).state.cursor == (start + k) % |l.answers|
    {
      FirstIsFirst(l.answers, start, k);
    }
  }

  /** Sticky: while no cool-down is over, the server at the cursor is asked first, and its answer returned. */
  lemma {:induction false} CursorIsAskedFirst(s: State, l: Lookup, retry: nat)
    requires s.cursor < |l.answers| == |l.times| && !l.answers[s.cursor].Failed?
    requires s.cursor == 0 || s.down.None? || (retry > 0 && l.now < s.down.value + retry)
    ensures var w := Resolve(s, l, retry); Returns(l.answers[s.cursor], w.out) && w.state.cursor == s.cursor
  {
    NthIsMod(|l.answers|, s.cursor, 0);
    assert AnswersFirst(l.answers, s.cursor, 0);
    LookupExactly(s, l, retry);
  }

  /**
   Over every sequence of lookups: if any server answered the previous one, the cursor is on a
   server that did, and the next one asks that server first unless server 0's outage has lasted
   the retry interval.
   */
  lemma {:induction false} HistorySticks(h: seq<Moment>, lookups: seq<Lookup>, n: nat, retry: nat, k: nat)
    requires n >= 2 && IsHistory(h, lookups, n, retry) && k + 1 < |lookups|
    ensures var c := h[k + 1].state.cursor; var next := lookups[k + 1];
      && c < n == |next.answers| == |lookups[k].answers|
      && ((exists s :: 0 <= s < n && !lookups[k].answers[s].Failed?) ==> !lookups[k].answers[c].Failed?)
      && ((c == 0 || !CooledDown(h[k + 1].seen, next.now, retry)) && !next.answers[c].Failed? ==>
            Returns(next.answers[c], Resolve(h[k + 1].state, next, retry).out) && h[k + 2].state.cursor == c)
  {
    EveryMomentSound(h, lookups, n, retry, k);
    EveryMomentSound(h, lookups, n, retry, k + 1);
    StartsAtZero(h, lookups, n, retry, k + 1);
    var s, l := h[k].state, lookups[k];
    LookupResult(s, l, retry);
    if x :| 0 <= x < n && !l.answers[x].Failed? {
      assert Responsive(l.answers[x]);
      SomeFirst(l.answers, StartAt(s, l.now, retry));
      var j: nat :| FirstResponsive(l.answers, StartAt(s, l.now, retry), j);
    }
    var c, next := h[k + 1].state.cursor, lookups[k + 1];
    if (c == 0 || !CooledDown(h[k + 1].seen, next.now, retry)) && !next.answers[c].Failed? {
      CursorIsAskedFirst(h[k + 1].state, next, retry);
    }
  }

  // ── The atomic steps are the lookup ─────────────────────────────────────────

  /** When a lookup on its own makes its next access. */
  function TimeOf(t: Task, l: Lookup): Time {
    if t.phase.Marking? && t.phase.i < |l.times| then l.times[t.phase.i] else l.now
  }

  /** A task stepping on its own to its end. */
  ghost function Solo(s: State, t: Task, n: nat, l: Lookup, retry: nat): (State, Task)
    requires Wellformed(t, n) && s.cursor < n
    decreases Remaining(t, n)
  {
    if t.phase.Finished? then (s, t)
    else
      TaskStepKeeps(s, t, n, TimeOf(t, l), retry);
      var (s', t') := TaskStep(s, t, n, TimeOf(t, l), retry);
      Solo(s', t', n, l, retry)
  }

  lemma {:induction false} SoloStep(s: State, t: Task, n: nat, l: Lookup, retry: nat)
    requires Wellformed(t, n) && s.cursor < n && !t.phase.Finished?
    ensures var (s', t') := TaskStep(s, t, n, TimeOf(t, l), retry);
      && Wellformed(t', n) && s'.cursor < n && t'.answers == t.answers && Solo(s, t, n, l, retry) == Solo(s', t', n, l, retry)
  {
    TaskStepKeeps(s, t, n, TimeOf(t, l), retry);
  }

  /** The task has ended with this state and this outcome. */
  ghost predicate Ends(end: (State, Task), w: Walked) {
    end.0 == w.state && end.1.phase == Finished(w.out)
  }

  lemma {:induction false} SoloAnswered(s: State, t: Task, n: nat, l: Lookup, retry: nat)
    requires Wellformed(t, n) && s.cursor < n && t.phase.Answered?
    ensures var idx := Server(t, t.phase.i);
      var end := Solo(s, t, n, l, retry);
      end.0 == AfterSuccess(s, idx) && end.1.phase == Finished(Verdict(t.answers[idx]))
  {
    SoloStep(s, t, n, l, retry);
    var (s1, t1) := TaskStep(s, t, n, TimeOf(t, l), retry);
    if t1.phase.Clearing? { SoloStep(s1, t1, n, l, retry); }
  }

  lemma {:induction false} SoloAdvances(s: State, t: Task, n: nat, l: Lookup, retry: nat, i: nat)
    requires Wellformed(t, n) && s.cursor < n && t.phase == Advancing(i) && i < n
    ensures var idx, t' := Nth(n, t.start, i), t.(phase := Asking(i + 1));
      var s' := s.(cursor := if s.cursor == idx then (idx + 1) % n else s.cursor);
      s'.cursor < n && Wellformed(t', n) && Solo(s, t, n, l, retry) == Solo(s', t', n, l, retry)
  {
    SoloStep(s, t, n, l, retry);
  }

  lemma {:induction false} SoloMarks(s: State, t: Task, n: nat, l: Lookup, retry: nat, i: nat)
    requires Wellformed(t, n) && s.cursor < n && t.phase == Marking(i) && i < |l.times|
    ensures var s', t' := s.(down := if s.down.None? then Some(l.times[i]) else s.down), t.(phase := Advancing(i));
      Wellformed(t', n) && Solo(s, t, n, l, retry) == Solo(s', t', n, l, retry)
  {
    SoloStep(s, t, n, l, retry);
  }

  lemma {:induction false} SoloAsks(s: State, t: Task, n: nat, l: Lookup, retry: nat, i: nat)
    requires Wellformed(t, n) && s.cursor < n && t.phase == Asking(i) && i < n && !Responsive(t.answers[Nth(n, t.start, i)])
    ensures var idx := Nth(n, t.start, i);
      var t' := t.(tried := t.tried + [idx], phase := if idx == 0 then Marking(i) else Advancing(i));
      Wellformed(t', n) && Solo(s, t, n, l, retry) == Solo(s, t', n, l, retry)
  {
    NthIsMod(n, t.start, i);
    SoloStep(s, t, n, l, retry);
  }

  /** From a failed server to the next question. */
  lemma {:induction false} SoloFailed(s: State, t: Task, n: nat, l: Lookup, retry: nat, i: nat) returns (t': Task)
    requires Wellformed(t, n) && s.cursor < n && t.phase == Asking(i) && i < n == |l.times|
    requires !Responsive(t.answers[Nth(n, t.start, i)])
    ensures var s' := AfterFailure(s, Nth(n, t.start, i), n, l.times[i]);
      && s'.cursor < n && Wellformed(t', n) && t'.phase == Asking(i + 1) && t'.start == t.start && t'.answers == t.answers
      && Solo(s, t, n, l, retry) == Solo(s', t', n, l, retry)
  {
    var idx := Nth(n, t.start, i);
    SoloAsks(s, t, n, l, retry, i);
    var t1 := t.(tried := t.tried + [idx], phase := if idx == 0 then Marking(i) else Advancing(i));
    var s1, t2 := s, t1;
    if idx == 0 {
      SoloMarks(s, t1, n, l, retry, i);
      s1, t2 := s.(down := if s.down.None? then Some(l.times[i]) else s.down), t1.(phase := Advancing(i));
    }
    SoloAdvances(s1, t2, n, l, retry, i);
    t' := t2.(phase := Asking(i + 1));
  }

  lemma {:induction false} SoloWalks(s: State, t: Task, n: nat, l: Lookup, retry: nat, i: nat)
    requires Wellformed(t, n) && s.cursor < n && t.phase == Asking(i) && i <= n
    requires Asks(l, n) && t.answers == l.answers
    ensures Ends(Solo(s, t, n, l, retry), Walk(s, l.answers, l.times, t.start, i))
    decreases n - i
  {
    if i == n {
      SoloStep(s, t, n, l, retry);
    } else {
      NthIsMod(n, t.start, i);
      var idx := Nth(n, t.start, i);
      if Responsive(t.answers[idx]) {
        SoloStep(s, t, n, l, retry);
        var (s1, t1) := TaskStep(s, t, n, TimeOf(t, l), retry);
        SoloAnswered(s1, t1, n, l, retry);
      } else {
        var t' := SoloFailed(s, t, n, l, retry, i);
        SoloWalks(AfterFailure(s, idx, n, l.times[i]), t', n, l, retry, i + 1);
      }
    }
  }

  /** The first accesses of a lookup settle its start: the cursor it loads, or 0 after a cool-down. */
  lemma {:induction false} SoloStarts(s: State, t: Task, n: nat, l: Lookup, retry: nat) returns (s': State, t': Task)
    requires t == Task(l.answers, 0, [], Init) && n > 0 && Asks(l, n) && s.cursor < n
    ensures s' == s.(cursor := t'.start) && s'.cursor < n
    ensures t'.start == if CoolDownOver(s, l.now, retry) then 0 else s.cursor
    ensures t'.phase == Asking(0) && t'.answers == l.answers && Wellformed(t', n)
    ensures Solo(s, t, n, l, retry) == Solo(s', t', n, l, retry)
  {
    SoloStep(s, t, n, l, retry);
    s', t' := TaskStep(s, t, n, TimeOf(t, l), retry).0, TaskStep(s, t, n, TimeOf(t, l), retry).1;
    if t'.phase.Loaded? {
      SoloStep(s', t', n, l, retry);
      var (s2, t2) := TaskStep(s', t', n, TimeOf(t', l), retry);
      s', t' := s2, t2;
    }
    if t'.phase.Resetting? {
      SoloStep(s', t', n, l, retry);
      var (s3, t3) := TaskStep(s', t', n, TimeOf(t', l), retry);
      s', t' := s3, t3;
    }
  }

  /** Every lookup's atomic accesses, when no other lookup comes between, do what the lookup as a whole does. */
  lemma {:induction false} SoloIsResolve(s: State, l: Lookup, n: nat, retry: nat)
    requires n > 0 && Asks(l, n) && s.cursor < n
    ensures Ends(Solo(s, Task(l.answers, 0, [], Init), n, l, retry), Resolve(s, l, retry))
  {
    var s', t' := SoloStarts(s, Task(l.answers, 0, [], Init), n, l, retry);
    SoloWalks(s', t', n, l, retry, 0);
  }

  /** Among any other lookups too: a task that loaded a cursor starts there, unless the cool-down is over when it looks. */
  lemma {:induction false} LoadedStartsThere(s: State, t: Task, n: nat, now: Time, retry: nat)
    requires Wellformed(t, n) && s.cursor < n
    ensures t.phase.Init? ==>
      var (s', t') := TaskStep(s, t, n, now, retry);
      s' == s && if s.cursor == 0 then t'.phase == Asking(0) && t'.start == 0 else t'.phase == Loaded(s.cursor)
    ensures t.phase.Loaded? ==>
      var (s', t') := TaskStep(s, t, n, now, retry);
      s' == s && if s.down.Some? && (now >= s.down.value + retry || retry == 0) then t'.phase == Resetting
                 else t'.phase == Asking(0) && t'.start == t.phase.cursor
    ensures t.phase == Asking(0) ==> TaskStep(s, t, n, now, retry).1.tried == [t.start]
  {
    if t.phase == Asking(0) { NthIsMod(n, t.start, 0); }
  }
}
