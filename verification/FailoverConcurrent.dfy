/**
 Any number of lookups sharing one cursor, interleaved at every single atomic access: the
 loads, stores and compare-and-exchange of the cursor and the locked down time.
 */
module FailoverConcurrent {
  import opened Common
  import opened FailoverModel
  import opened FailoverProofs

  /** Where a lookup stands. `Asking(i)`: about to ask the i-th server of its walk. */
  datatype Phase =
    | Init                      // about to load the cursor
    | Loaded(cursor: nat)       // loaded a cursor off server 0, about to read the down time
    | Resetting                 // cool-down over, about to store 0
    | Asking(i: nat)
    | Answered(i: nat)          // got an answer, about to store the cursor
    | Clearing(i: nat)          // server 0 answered, about to clear the down time
    | Marking(i: nat)           // server 0 failed, about to record the down time
    | Advancing(i: nat)         // about to compare-and-exchange the cursor
    | Finished(out: Outcome)

  /** One lookup: what each server would answer it, where it started and whom it asked. */
  datatype Task = Task(answers: seq<Answer>, start: nat, tried: seq<nat>, phase: Phase)

  datatype Sys = Sys(shared: State, tasks: seq<Task>)

  /** The server a task is dealing with. */
  function Server(t: Task, i: nat): (s: nat)
    requires t.start < |t.answers| && i < |t.answers|
    ensures s < |t.answers|
  {
    Nth(|t.answers|, t.start, i)
  }

  /** What must hold for a task to be able to step at all. */
  ghost predicate Wellformed(t: Task, n: nat) {
    && n > 0 && |t.answers| == n && t.start < n && |t.tried| <= n
    && (forall j :: 0 <= j < |t.tried| ==> t.tried[j] == Nth(n, t.start, j))
    && match t.phase
       case Init => t.tried == []
       case Loaded(c) => 0 < c < n && t.tried == []
       case Resetting => t.tried == []
       case Asking(i) => |t.tried| == i && Silent(t, i)
       case Answered(i) => |t.tried| == i + 1 && FirstResponsive(t.answers, t.start, i)
       case Clearing(i) => |t.tried| == i + 1 && FirstResponsive(t.answers, t.start, i) && Nth(n, t.start, i) == 0
       case Marking(i) => |t.tried| == i + 1 && Silent(t, i + 1) && Nth(n, t.start, i) == 0
       case Advancing(i) => |t.tried| == i + 1 && Silent(t, i + 1)
       case Finished(out) => IsVerdict(t, out)
  }

  ghost predicate Silent(t: Task, k: nat) {
    && t.start < |t.answers| && k <= |t.answers|
    && forall j :: 0 <= j < k ==> !Responsive(t.answers[Nth(|t.answers|, t.start, j)])
  }

  /** The result that a start and the servers' own answers determine. */
  ghost predicate IsVerdict(t: Task, out: Outcome) {
    && t.start < |t.answers|
    && (out.AllFailed? <==> AllSilent(t.answers))
    && forall i :: FirstResponsive(t.answers, t.start, i) ==> out == Verdict(t.answers[Nth(|t.answers|, t.start, i)])
  }

  /** One atomic access by one task, at time `now`. */
  function TaskStep(s: State, t: Task, n: nat, now: Time, retry: nat): (State, Task)
    requires Wellformed(t, n) && s.cursor < n
  {
    match t.phase
    case Init =>
      if s.cursor == 0 then (s, t.(start := 0, phase := Asking(0)))
      else (s, t.(phase := Loaded(s.cursor)))
    case Loaded(c) =>
      if s.down.Some? && Since(now, s.down.value) >= retry then (s, t.(phase := Resetting))
      else (s, t.(start := c, phase := Asking(0)))
    case Resetting => (s.(cursor := 0), t.(start := 0, phase := Asking(0)))
    case Asking(i) =>
      if i == n then (s, t.(phase := Finished(AllFailed)))
      else
        var idx := (t.start + i) % n;
        var t' := t.(tried := t.tried + [idx]);
        if Responsive(t.answers[idx]) then (s, t'.(phase := Answered(i)))
        else if idx == 0 then (s, t'.(phase := Marking(i)))
        else (s, t'.(phase := Advancing(i)))
    case Answered(i) =>
      var idx := Server(t, i);
      (s.(cursor := idx), t.(phase := if idx == 0 then Clearing(i) else Finished(Verdict(t.answers[idx]))))
    case Clearing(i) =>
      (s.(down := None), t.(phase := Finished(Verdict(t.answers[Server(t, i)]))))
    case Marking(i) =>
      (s.(down := if s.down.None? then Some(now) else s.down), t.(phase := Advancing(i)))
    case Advancing(i) =>
      var idx := Server(t, i);
      (s.(cursor := if s.cursor == idx then (idx + 1) % n else s.cursor), t.(phase := Asking(i + 1)))
    case Finished(_) => (s, t)
  }

  /** Accesses a task still has to make, at most. */
  function Remaining(t: Task, n: nat): nat
    requires Wellformed(t, n)
  {
    match t.phase
    case Init => 3 * n + 4
    case Loaded(_) => 3 * n + 3
    case Resetting => 3 * n + 2
    case Asking(i) => 3 * (n - i) + 1
    case Marking(i) => 3 * (n - i)
    case Advancing(i) => 3 * (n - i) - 1
    case Answered(i) => 2
    case Clearing(i) => 1
    case Finished(_) => 0
  }

  lemma {:induction false} VerdictIs(t: Task, i: nat)
    requires FirstResponsive(t.answers, t.start, i)
    ensures IsVerdict(t, Verdict(t.answers[Nth(|t.answers|, t.start, i)]))
  {
    assert Responsive(t.answers[Nth(|t.answers|, t.start, i)]);
    forall j | FirstResponsive(t.answers, t.start, j) ensures j == i { FirstIsUnique(t.answers, t.start, i, j); }
  }

  /** A reached server is asked for the first time, and its answer noted. */
  lemma {:induction false} AskingKeeps(s: State, t: Task, n: nat, now: Time, retry: nat)
    requires Wellformed(t, n) && s.cursor < n && t.phase.Asking? && t.phase.i < n
    ensures Wellformed(TaskStep(s, t, n, now, retry).1, n)
  {
    var i := t.phase.i;
    NthIsMod(n, t.start, i);
    var idx := Nth(n, t.start, i);
    var (s', t') := TaskStep(s, t, n, now, retry);
    assert t'.tried == t.tried + [idx];
    assert !Responsive(t.answers[idx]) ==> Silent(t', i + 1);
    assert Responsive(t.answers[idx]) ==> FirstResponsive(t'.answers, t'.start, i);
  }

  /** Each access keeps a task well formed and the cursor in range, and brings the task closer to its end. */
  lemma {:induction false} TaskStepKeeps(s: State, t: Task, n: nat, now: Time, retry: nat)
    requires Wellformed(t, n) && s.cursor < n
    ensures var (s', t') := TaskStep(s, t, n, now, retry);
      && Wellformed(t', n) && s'.cursor < n && t'.answers == t.answers
      && (t.phase.Finished? || Remaining(t', n) < Remaining(t, n))
      && (!t.phase.Init? && !t.phase.Loaded? && !t.phase.Resetting? ==> t'.start == t.start)
  {
    match t.phase
    case Asking(i) => if i == n { WalkCovers(t.answers, t.start); } else { AskingKeeps(s, t, n, now, retry); }
    case Answered(i) => VerdictIs(t, i);
    case Clearing(i) => VerdictIs(t, i);
    case Advancing(i) => NthIsMod(n, t.start, i);
    case _ =>
  }

  // ── Whole systems ───────────────────────────────────────────────────────────

  ghost predicate Starts(s: Sys, answers: seq<Answer>, n: nat, s': Sys) {
    |answers| == n && s' == s.(tasks := s.tasks + [Task(answers, 0, [], Init)])
  }

  ghost predicate Moves(s: Sys, k: nat, now: Time, n: nat, retry: nat, s': Sys) {
    && k < |s.tasks| && Wellformed(s.tasks[k], n) && s.shared.cursor < n
    && var (shared, t) := TaskStep(s.shared, s.tasks[k], n, now, retry);
       s' == Sys(shared, s.tasks[k := t])
  }

  ghost predicate SysStep(s: Sys, n: nat, retry: nat, s': Sys) {
    || (exists answers :: Starts(s, answers, n, s'))
    || (exists k, now :: Moves(s, k, now, n, retry, s'))
  }

  ghost predicate IsSysRun(run: seq<Sys>, n: nat, retry: nat) {
    && |run| > 0 && run[0] == Sys(State(0, None), [])
    && forall i :: 0 <= i < |run| - 1 ==> SysStep(run[i], n, retry, run[i + 1])
  }

  ghost predicate SysGood(s: Sys, n: nat) {
    s.shared.cursor < n && forall k :: 0 <= k < |s.tasks| ==> Wellformed(s.tasks[k], n)
  }

  lemma {:induction false} SysStepKeeps(s: Sys, n: nat, retry: nat, s': Sys)
    requires n > 0 && SysGood(s, n) && SysStep(s, n, retry, s')
    ensures SysGood(s', n)
  {
    if answers :| Starts(s, answers, n, s') {
    } else {
      var k: nat, now: Time :| Moves(s, k, now, n, retry, s');
      TaskStepKeeps(s.shared, s.tasks[k], n, now, retry);
    }
  }

  lemma {:induction false} EveryRunGood(run: seq<Sys>, n: nat, retry: nat, i: nat)
    requires n > 0 && IsSysRun(run, n, retry) && i < |run|
    ensures SysGood(run[i], n)
  {
    if i > 0 {
      EveryRunGood(run, n, retry, i - 1);
      assert SysStep(run[i - 1], n, retry, run[i - 1 + 1]);
      SysStepKeeps(run[i - 1], n, retry, run[i]);
    }
  }

  /**
   Whatever overlaps: the cursor stays in range, each lookup asks distinct servers, at most n,
   and a finished lookup has the verdict of its own start and the answers it got.
   */
  lemma {:induction false} ConcurrentLookups(run: seq<Sys>, n: nat, retry: nat, i: nat, k: nat)
    requires n > 0 && IsSysRun(run, n, retry) && i < |run| && k < |run[i].tasks|
    ensures run[i].shared.cursor < n
    ensures var t := run[i].tasks[k];
      && |t.tried| <= n
      && (forall a, b :: 0 <= a < b < |t.tried| ==> t.tried[a] != t.tried[b])
      && (t.phase.Finished? ==> IsVerdict(t, t.phase.out))
  {
    EveryRunGood(run, n, retry, i);
    var t := run[i].tasks[k];
    forall a, b | 0 <= a < b < |t.tried| ensures t.tried[a] != t.tried[b] {
      assert Nth(n, t.start, a) != Nth(n, t.start, b);
    }
  }

  // ── The cool-down invariant does not survive overlap ────────────────────────

  /** "A cursor off server 0 has a recorded down time." */
  predicate Recorded(s: State) {
    s.cursor != 0 ==> s.down.Some?
  }

  /**
   A task about to undo the record: it stores a fallback although server 0 counts as up, or
   clears the record although the cursor has moved on, or advances past server 0 after the
   record it made was cleared.
   */
  predicate Overtaken(s: State, t: Task, n: nat)
    requires t.start < |t.answers| == n
  {
    match t.phase
    case Answered(i) => i < n && Server(t, i) != 0 && s.down.None?
    case Clearing(_) => s.cursor != 0
    case Advancing(i) => i < n && Server(t, i) == 0 && s.cursor == 0 && s.down.None?
    case _ => false
  }

  /** Exactly these accesses break the invariant. */
  lemma {:induction false} BrokenExactlyWhenOvertaken(s: State, t: Task, n: nat, now: Time, retry: nat)
    requires n >= 2 && Wellformed(t, n) && s.cursor < n && Recorded(s)
    ensures !Recorded(TaskStep(s, t, n, now, retry).0) <==> Overtaken(s, t, n)
  {
    if t.phase.Advancing? {
      NthIsMod(n, t.start, t.phase.i);
    }
  }

  // ── Lookups that do not overlap keep it, at every access ────────────────────

  /** How many lookups are under way. */
  function InFlight(tasks: seq<Task>): nat {
    if tasks == [] then 0
    else InFlight(tasks[..|tasks| - 1]) + (if tasks[|tasks| - 1].phase.Finished? then 0 else 1)
  }

  lemma {:induction false} NoneInFlight(tasks: seq<Task>, k: nat)
    requires k < |tasks| && !tasks[k].phase.Finished?
    ensures InFlight(tasks) >= 1
    decreases |tasks|
  {
    if k < |tasks| - 1 { NoneInFlight(tasks[..|tasks| - 1], k); }
  }

  /** With at most one under way there are no two. */
  lemma {:induction false} OneInFlight(tasks: seq<Task>, j: nat, k: nat)
    requires j < k < |tasks| && InFlight(tasks) <= 1
    ensures tasks[j].phase.Finished? || tasks[k].phase.Finished?
    decreases |tasks|
  {
    if !tasks[j].phase.Finished? && !tasks[k].phase.Finished? {
      if k < |tasks| - 1 { OneInFlight(tasks[..|tasks| - 1], j, k); } else { NoneInFlight(tasks[..|tasks| - 1], j); }
    }
  }

  /** What a lookup under way may rely on when no other is. */
  ghost predicate Alone(s: State, t: Task, n: nat) {
    && t.start < n
    && match t.phase
       case Init => true
       case Loaded(c) => s.cursor == c
       case Resetting => true
       case Asking(i) => i <= n && s.cursor == Nth(n, t.start, i)
       case Answered(i) => i < n && s.cursor == Nth(n, t.start, i)
       case Clearing(_) => s.cursor == 0
       case Marking(_) => s.cursor == 0
       case Advancing(i) => i < n && s.cursor == Nth(n, t.start, i) && (s.cursor == 0 ==> s.down.Some?)
       case Finished(_) => true
  }

  lemma {:induction false} AloneKeeps(s: State, t: Task, n: nat, now: Time, retry: nat)
    requires n >= 2 && Wellformed(t, n) && s.cursor < n && Recorded(s) && Alone(s, t, n)
    ensures var (s', t') := TaskStep(s, t, n, now, retry); Recorded(s') && Alone(s', t', n)
  {
    match t.phase
    case Asking(i) => if i < n { NthIsMod(n, t.start, i); }
    case Advancing(i) => NthIsMod(n, t.start, i);
    case _ =>
  }

  ghost predicate SysAlone(s: Sys, n: nat) {
    Recorded(s.shared) && forall k :: 0 <= k < |s.tasks| && !s.tasks[k].phase.Finished? ==> Alone(s.shared, s.tasks[k], n)
  }

  lemma {:induction false} SysStepAlone(s: Sys, n: nat, retry: nat, s': Sys)
    requires n >= 2 && SysGood(s, n) && SysStep(s, n, retry, s')
    requires SysAlone(s, n) && InFlight(s.tasks) <= 1
    ensures SysAlone(s', n)
  {
    if k: nat, now: Time :| Moves(s, k, now, n, retry, s') {
      if s.tasks[k].phase.Finished? {
        assert s'.shared == s.shared && s'.tasks == s.tasks;
      } else {
        AloneKeeps(s.shared, s.tasks[k], n, now, retry);
        forall j | 0 <= j < |s.tasks| && j != k ensures s'.tasks[j].phase.Finished? {
          OneInFlight(s.tasks, if j < k then j else k, if j < k then k else j);
        }
      }
    }
  }

  ghost predicate AtMost(run: seq<Sys>, m: nat) {
    forall i :: 0 <= i < |run| ==> InFlight(run[i].tasks) <= m
  }

  ghost predicate AlwaysRecorded(run: seq<Sys>) {
    forall i :: 0 <= i < |run| ==> Recorded(run[i].shared)
  }

  lemma {:induction false} NoOverlapAlone(run: seq<Sys>, n: nat, retry: nat, i: nat)
    requires n >= 2 && IsSysRun(run, n, retry) && AtMost(run, 1) && i < |run|
    ensures SysAlone(run[i], n)
  {
    if i > 0 {
      NoOverlapAlone(run, n, retry, i - 1);
      EveryRunGood(run, n, retry, i - 1);
      assert SysStep(run[i - 1], n, retry, run[i - 1 + 1]);
      SysStepAlone(run[i - 1], n, retry, run[i]);
    }
  }

  /** In every run whose lookups do not overlap, a cursor off server 0 has a down time after every single access. */
  lemma {:induction false} NoOverlapKeepsRecord(run: seq<Sys>, n: nat, retry: nat)
    requires n >= 2 && IsSysRun(run, n, retry) && AtMost(run, 1)
    ensures AlwaysRecorded(run)
  {
    forall i | 0 <= i < |run| ensures Recorded(run[i].shared) { NoOverlapAlone(run, n, retry, i); }
  }

  // ── Two that overlap can lose it ────────────────────────────────────────────

  /** Every server answers. */
  function AllUp(n: nat, ip: Addr): seq<Answer> { seq(n, _ => Ip(ip)) }

  /** Only server 0 fails. */
  function FirstDown(n: nat, ip: Addr): seq<Answer>
    requires n > 0
  {
    AllUp(n, ip)[0 := Failed("timeout")]
  }

  function OverlapRun(n: nat, ip: Addr, now: Time): seq<Sys>
    requires n >= 2
  {
    var A, B := AllUp(n, ip), FirstDown(n, ip);
    var up, moved := State(0, None), State(1, Some(now));
    var b2 := Task(B, 0, [0, 1], Answered(1));
    [ Sys(up, []),
      Sys(up, [Task(A, 0, [], Init)]),
      Sys(up, [Task(A, 0, [], Init), Task(B, 0, [], Init)]),
      Sys(up, [Task(A, 0, [], Asking(0)), Task(B, 0, [], Init)]),
      Sys(up, [Task(A, 0, [], Asking(0)), Task(B, 0, [], Asking(0))]),
      Sys(up, [Task(A, 0, [], Asking(0)), Task(B, 0, [0], Marking(0))]),
      Sys(State(0, Some(now)), [Task(A, 0, [], Asking(0)), Task(B, 0, [0], Advancing(0))]),
      Sys(moved, [Task(A, 0, [], Asking(0)), Task(B, 0, [0], Asking(1))]),
      Sys(moved, [Task(A, 0, [], Asking(0)), b2]),
      Sys(moved, [Task(A, 0, [0], Answered(0)), b2]),
      Sys(State(0, Some(now)), [Task(A, 0, [0], Clearing(0)), b2]),
      Sys(up, [Task(A, 0, [0], Finished(Resolved(ip))), b2]),
      Sys(State(1, None), [Task(A, 0, [0], Finished(Resolved(ip))), b2.(phase := Finished(Resolved(ip)))]) ]
  }

  lemma {:induction false} SecondServer(n: nat)
    requires n >= 2
    ensures (0 + 0) % n == 0 && (0 + 1) % n == 1
  {
    NthIsMod(n, 0, 0);
    NthIsMod(n, 0, 1);
  }

  /** The first half: B fails on server 0 and gets its answer from server 1. */
  lemma {:induction false} OverlapBegins(run: seq<Sys>, n: nat, ip: Addr, now: Time, retry: nat)
    requires n >= 2 && run == OverlapRun(n, ip, now)
    ensures forall i :: 0 <= i < 6 ==> SysStep(run[i], n, retry, run[i + 1])
  {
    SecondServer(n);
    assert Starts(run[0], AllUp(n, ip), n, run[1]);
    assert Starts(run[1], FirstDown(n, ip), n, run[2]);
    assert Moves(run[2], 0, now, n, retry, run[3]);
    assert Moves(run[3], 1, now, n, retry, run[4]);
    assert Moves(run[4], 1, now, n, retry, run[5]) by {
      var none: seq<nat> := [];
      assert none + [0] == [0];
    }
    assert Moves(run[5], 1, now, n, retry, run[6]);
  }

  lemma {:induction false} OverlapAnswers(run: seq<Sys>, n: nat, ip: Addr, now: Time, retry: nat)
    requires n >= 2 && run == OverlapRun(n, ip, now)
    ensures SysStep(run[6], n, retry, run[7]) && SysStep(run[7], n, retry, run[8]) && SysStep(run[8], n, retry, run[9])
  {
    SecondServer(n);
    assert Moves(run[6], 1, now, n, retry, run[7]);
    assert Moves(run[7], 1, now, n, retry, run[8]) by {
      assert [0] + [1] == [0, 1];
    }
    assert Moves(run[8], 0, now, n, retry, run[9]) by {
      var none: seq<nat> := [];
      assert none + [0] == [0];
    }
  }

  /** The second half: A's answer from server 0 clears the record before B stores its fallback. */
  lemma {:induction false} OverlapEnds(run: seq<Sys>, n: nat, ip: Addr, now: Time, retry: nat)
    requires n >= 2 && run == OverlapRun(n, ip, now)
    ensures SysStep(run[9], n, retry, run[10]) && SysStep(run[10], n, retry, run[11]) && SysStep(run[11], n, retry, run[12])
  {
    assert Moves(run[9], 0, now, n, retry, run[10]);
    assert Moves(run[10], 0, now, n, retry, run[11]);
    assert Moves(run[11], 1, now, n, retry, run[12]);
  }

  lemma {:induction false} InFlightUpTo(tasks: seq<Task>)
    ensures InFlight(tasks) <= |tasks|
  {
    if tasks != [] { InFlightUpTo(tasks[..|tasks| - 1]); }
  }

  lemma {:induction false} OverlapIsRun(n: nat, ip: Addr, now: Time, retry: nat)
    requires n >= 2
    ensures IsSysRun(OverlapRun(n, ip, now), n, retry)
  {
    var run := OverlapRun(n, ip, now);
    OverlapBegins(run, n, ip, now, retry);
    OverlapAnswers(run, n, ip, now, retry);
    OverlapEnds(run, n, ip, now, retry);
    forall i | 0 <= i < 12 ensures SysStep(run[i], n, retry, run[i + 1]) {
      if i == 6 {} else if i == 7 {} else if i == 8 {} else if i == 9 {} else if i == 10 {} else if i == 11 {}
    }
  }

  /** Two overlapping lookups leave the cursor on server 1 with no down time: no cool-down brings it back. */
  lemma {:induction false} OverlapLosesDownTime(n: nat, ip: Addr, now: Time, retry: nat)
    requires n >= 2
    ensures var run := OverlapRun(n, ip, now);
      IsSysRun(run, n, retry) && AtMost(run, 2) && run[12].shared == State(1, None)
  {
    var run := OverlapRun(n, ip, now);
    OverlapIsRun(n, ip, now, retry);
    forall i | 0 <= i < 13 ensures InFlight(run[i].tasks) <= 2 { InFlightUpTo(run[i].tasks); }
  }

  /** All runs with at most m lookups at a time keep the record if and only if m is at most one. */
  lemma {:induction false} RecordKeptExactlyWithoutOverlap(n: nat, retry: nat, m: nat)
    requires n >= 2
    ensures (forall run :: IsSysRun(run, n, retry) && AtMost(run, m) ==> AlwaysRecorded(run)) <==> m <= 1
  {
    if m <= 1 {
      forall run | IsSysRun(run, n, retry) && AtMost(run, m) ensures AlwaysRecorded(run) {
        NoOverlapKeepsRecord(run, n, retry);
      }
    } else {
      var run := OverlapRun(n, [], 0);
      OverlapLosesDownTime(n, [], 0, retry);
      assert !Recorded(run[12].shared);
      assert IsSysRun(run, n, retry) && AtMost(run, m) && !AlwaysRecorded(run);
    }
  }
}
