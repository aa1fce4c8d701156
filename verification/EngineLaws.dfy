/** The engine seen by mappings instead of keys: when two share a key, and what each call does to one of them. */
module EngineLaws {
  import opened Common
  import opened Text
  import opened EngineModel
  import opened EngineProofs
  import opened EngineTheorems

  /** Printed addresses have no hyphen, so the arrow in a key is where the listen side ends. */
  ghost predicate Printed(m: Mapping) {
    '-' !in m.listen
  }

  /** The same target, and the same listen address (local) or listen port (remote). */
  ghost predicate Same(kind: Kind, m: Mapping, n: Mapping) {
    m.target == n.target && if kind.LocalTcp? || kind.LocalUdp? then m.listen == n.listen else m.listenPort == n.listenPort
  }

  lemma {:induction false} SplitsAtHyphen(a: string, b: string, c: string, d: string)
    requires '-' !in a && '-' !in c && a + "->" + b == c + "->" + d
    ensures a == c && b == d
  {
    var s := a + "->" + b;
    assert s == a + ['-'] + (">" + b) && s == c + ['-'] + (">" + d);
    FindCharIs(a, '-', ">" + b);
    FindCharIs(c, '-', ">" + d);
    assert s[..|a|] == a && s[..|c|] == c;
    assert s[|a| + 2..] == b && s[|c| + 2..] == d;
  }

  lemma {:induction false} ShowNatApart(m: nat, n: nat)
    ensures ShowNat(m) == ShowNat(n) <==> m == n
    ensures '-' !in ShowNat(n)
  {
    ShowNatValue(m);
    ShowNatValue(n);
    assert !IsDigit('-');
  }

  /** What stands between a key's prefix and its arrow. */
  function ListenSide(kind: Kind, m: Mapping): string {
    if kind.LocalTcp? || kind.LocalUdp? then m.listen else ShowNat(m.listenPort)
  }

  lemma {:induction false} KeyBody(kind: Kind, m: Mapping)
    ensures |Prefix(kind)| == 5 && |Key(kind, m)| >= 5 && Key(kind, m)[5..] == ListenSide(kind, m) + "->" + m.target
  {
  }

  /** Two mappings share a key exactly when they are of one kind and the same mapping. */
  lemma {:induction false} KeysEqualExactly(k: Kind, m: Mapping, l: Kind, n: Mapping)
    requires Printed(m) && Printed(n)
    ensures Key(k, m) == Key(l, n) <==> k == l && Same(k, m, n)
  {
    ShowNatApart(m.listenPort, n.listenPort);
    ShowNatApart(n.listenPort, m.listenPort);
    if Key(k, m) == Key(l, n) {
      KeysApart(k, m, l, n);
      KeyBody(k, m);
      KeyBody(l, n);
      SplitsAtHyphen(ListenSide(k, m), m.target, ListenSide(l, n), n.target);
    }
  }

  // ── Lists of mappings ───────────────────────────────────────────────────────

  ghost predicate AllPrinted(lists: Lists) {
    forall kind, m :: m in lists.Get(kind) ==> Printed(m)
  }

  /** No list holds the same mapping twice. */
  ghost predicate DistinctMappings(lists: Lists) {
    forall kind, i, j :: 0 <= i < j < |lists.Get(kind)| ==> !Same(kind, lists.Get(kind)[i], lists.Get(kind)[j])
  }

  lemma {:induction false} DistinctIsUnique(lists: Lists)
    requires AllPrinted(lists)
    ensures UniqueLists(lists) <==> DistinctMappings(lists)
  {
    forall kind, i, j | 0 <= i < j < |lists.Get(kind)|
      ensures Key(kind, lists.Get(kind)[i]) == Key(kind, lists.Get(kind)[j]) <==> Same(kind, lists.Get(kind)[i], lists.Get(kind)[j])
    {
      KeysEqualExactly(kind, lists.Get(kind)[i], kind, lists.Get(kind)[j]);
    }
    if DistinctMappings(lists) {
      forall kind ensures UniqueIn(kind, lists.Get(kind)) {}
    }
    if UniqueLists(lists) {
      forall kind, i, j | 0 <= i < j < |lists.Get(kind)| ensures !Same(kind, lists.Get(kind)[i], lists.Get(kind)[j]) {
        assert UniqueIn(kind, lists.Get(kind));
      }
    }
  }

  /** The live task that serves a mapping. */
  ghost predicate Serves(e: Engine, kind: Kind, m: Mapping, id: TaskId) {
    && Key(kind, m) in e.listeners && e.listeners[Key(kind, m)] == id
    && id < |e.tasks| && e.tasks[id] == Task(Key(kind, m), true)
  }

  lemma {:induction false} SpawnAllServes(e: Engine, keys: seq<string>)
    requires WellKeyed(e)
    ensures var s := SpawnAll(e, keys);
      && WellKeyed(s) && |s.tasks| == |e.tasks| + |keys|
      && (forall key :: key in keys ==> key in s.listeners && s.listeners[key] >= |e.tasks| && s.tasks[s.listeners[key]].alive)
      && (forall key :: key in e.listeners && key !in keys ==> key in s.listeners && s.listeners[key] == e.listeners[key])
      && e.tasks <= s.tasks
    decreases |keys|
  {
    if keys != [] {
      var t := Spawn(e, keys[0]);
      SpawnAllServes(t, keys[1..]);
      assert keys == [keys[0]] + keys[1..];
    }
  }

  /** A mapping's key is met by a start. */
  lemma {:induction false} ListedIsMet(lists: Lists, kind: Kind, m: Mapping)
    requires m in lists.Get(kind)
    ensures Key(kind, m) in ListedKeys(lists)
  {
    assert ListedAs(lists.Get(kind), kind, Key(kind, m));
    InListedKeys(lists, Key(kind, m));
  }

  ghost predicate Served(e: Engine, kind: Kind, m: Mapping) {
    exists id: TaskId :: Serves(e, kind, m, id)
  }

  /** A start gives every listed mapping a live task. */
  lemma {:induction false} StartServes(e: Engine, kind: Kind, m: Mapping)
    requires Tracks(e) && WellKeyed(e) && !e.running && m in e.lists.Get(kind)
    ensures Served(Apply(e, Start(Usable)), kind, m)
  {
    var s := Apply(e, Start(Usable));
    SpawnAllServes(e, ListedKeys(e.lists));
    ListedIsMet(e.lists, kind, m);
    assert Serves(s, kind, m, s.listeners[Key(kind, m)]);
  }

  lemma {:induction false} StartSpawns(e: Engine)
    requires WellKeyed(e) && !e.running
    ensures |Apply(e, Start(Usable)).tasks|
      == |e.tasks| + |e.lists.localTcp| + |e.lists.localUdp| + |e.lists.remoteTcp| + |e.lists.remoteUdp|
  {
    SpawnAllServes(e, ListedKeys(e.lists));
  }

  /** One task serves one mapping. */
  lemma {:induction false} ServesOne(e: Engine, k: Kind, m: Mapping, l: Kind, n: Mapping, id: TaskId)
    requires Printed(m) && Printed(n) && Serves(e, k, m, id) && Serves(e, l, n, id)
    ensures k == l && Same(k, m, n)
  {
    KeysEqualExactly(k, m, l, n);
  }

  /** No task serves two different mappings. */
  ghost predicate NoneShares(e: Engine, lists: Lists) {
    forall k, m, l, n, id: TaskId ::
      m in lists.Get(k) && n in lists.Get(l) && Serves(e, k, m, id) && Serves(e, l, n, id) ==> k == l && Same(k, m, n)
  }

  lemma {:induction false} NoTaskShared(e: Engine, lists: Lists)
    requires AllPrinted(lists)
    ensures NoneShares(e, lists)
  {
    forall k, m, l, n, id: TaskId | m in lists.Get(k) && n in lists.Get(l) && Serves(e, k, m, id) && Serves(e, l, n, id)
      ensures k == l && Same(k, m, n)
    {
      ServesOne(e, k, m, l, n, id);
    }
  }

  /**
   A start of lists without a repeated mapping loses no task, spawns one for each mapping, gives
   every mapping a live one, and no two mappings the same.
   */
  lemma {:induction false} StartServesEach(e: Engine)
    requires Tracks(e) && WellKeyed(e) && Owned(e) && !e.running && AllPrinted(e.lists) && DistinctMappings(e.lists)
    ensures var s := Apply(e, Start(Usable));
      && Owned(s)
      && |s.tasks| == |e.tasks| + |e.lists.localTcp| + |e.lists.localUdp| + |e.lists.remoteTcp| + |e.lists.remoteUdp|
      && (forall k, m :: m in e.lists.Get(k) ==> Served(s, k, m))
      && NoneShares(s, e.lists)
  {
    StartLosesExactly(e);
    StartSpawns(e);
    forall k, m | m in e.lists.Get(k) ensures Served(Apply(e, Start(Usable)), k, m) { StartServes(e, k, m); }
    NoTaskShared(Apply(e, Start(Usable)), e.lists);
  }

  /** Without the hypothesis on repeats a start still loses a task exactly when there is one. */
  lemma {:induction false} StartLosesExactly(e: Engine)
    requires Tracks(e) && WellKeyed(e) && Owned(e) && !e.running && AllPrinted(e.lists)
    ensures Owned(Apply(e, Start(Usable))) <==> DistinctMappings(e.lists)
  {
    StartOwnsExactly(e);
    DistinctIsUnique(e.lists);
  }

  /** A removal takes exactly its own mapping off the lists. */
  lemma {:induction false} RemovesOnlyItself(e: Engine, kind: Kind, m: Mapping, k: Kind, x: Mapping)
    requires Printed(m) && Printed(x)
    ensures x in Apply(e, Remove(kind, Some(m))).lists.Get(k) <==> x in e.lists.Get(k) && !(k == kind && Same(kind, x, m))
  {
    KeysEqualExactly(k, x, kind, m);
    RemovesOnlyItsKey(e, kind, m, k, x);
  }

  lemma {:induction false} RemovesOnlyItsKey(e: Engine, kind: Kind, m: Mapping, k: Kind, x: Mapping)
    ensures x in Apply(e, Remove(kind, Some(m))).lists.Get(k) <==> x in e.lists.Get(k) && !(k == kind && Key(k, x) == Key(kind, m))
  {
    var less := Without(kind, e.lists.Get(kind), Key(kind, m));
    GetSet(e.lists, kind, less, k);
    InWithout(kind, e.lists.Get(kind), Key(kind, m), x);
    assert Apply(e, Remove(kind, Some(m))).lists == e.lists.Set(kind, less);
  }

  lemma {:induction false} EndingSpares(e: Engine, kind: Kind, m: Mapping, k: Kind, x: Mapping, id: TaskId)
    requires WellKeyed(e) && Key(k, x) != Key(kind, m)
    ensures Serves(e, k, x, id) <==> Serves(Apply(e, Remove(kind, Some(m))), k, x, id)
  {
  }

  lemma {:induction false} EndingEnds(e: Engine, kind: Kind, m: Mapping, id: TaskId)
    requires WellKeyed(e)
    ensures var s := Apply(e, Remove(kind, Some(m)));
      Key(kind, m) !in s.listeners && (Serves(e, kind, m, id) ==> id < |s.tasks| && !s.tasks[id].alive)
  {
  }

  /** It ends that mapping's task, and every other mapping keeps its own. */
  lemma {:induction false} RemovalEndsOnlyItsTask(e: Engine, kind: Kind, m: Mapping, k: Kind, x: Mapping, id: TaskId)
    requires WellKeyed(e) && Printed(m) && Printed(x)
    ensures var s := Apply(e, Remove(kind, Some(m)));
      if k == kind && Same(kind, x, m) then !Serves(s, k, x, id) && (Serves(e, k, x, id) ==> id < |s.tasks| && !s.tasks[id].alive)
      else Serves(e, k, x, id) <==> Serves(s, k, x, id)
  {
    KeysEqualExactly(k, x, kind, m);
    EndingEnds(e, kind, m, id);
    if Key(k, x) != Key(kind, m) { EndingSpares(e, kind, m, k, x, id); }
  }

  /** Mappings outlive a stop: the next start serves each of them again. */
  lemma {:induction false} RestartServes(e: Engine, kind: Kind, m: Mapping)
    requires Tracks(e) && WellKeyed(e) && m in e.lists.Get(kind)
    ensures var s := Apply(Apply(e, Stop), Start(Usable)); s.running && s.lists == e.lists && Served(s, kind, m)
  {
    var stopped := Apply(e, Stop);
    CallTracks(e, Stop);
    StartServes(stopped, kind, m);
    SpawnAllLists(stopped, ListedKeys(e.lists));
  }

  /** An added mapping is listed last and, on a running engine, served by a new task; other mappings keep theirs. */
  lemma {:induction false} AddServesIt(e: Engine, kind: Kind, m: Mapping, k: Kind, x: Mapping, id: TaskId)
    requires WellKeyed(e) && Printed(m) && Printed(x)
    ensures var s := Apply(e, Add(kind, Some(m)));
      && s.lists.Get(k) == e.lists.Get(k) + (if k == kind then [m] else [])
      && (if e.running then Serves(s, kind, m, |e.tasks|) && |s.tasks| == |e.tasks| + 1 else s.tasks == e.tasks)
      && (Serves(e, k, x, id) && (e.running ==> !(k == kind && Same(kind, x, m))) ==> Serves(s, k, x, id))
  {
    GetSet(e.lists, kind, e.lists.Get(kind) + [m], k);
    KeysEqualExactly(k, x, kind, m);
  }

  /** A clear forgets every mapping and only signals its tasks: it ends none, and neither does the next stop. */
  lemma {:induction false} ClearEndsNone(e: Engine, kind: Kind)
    ensures var s := Apply(e, Clear);
      s.lists.Get(kind) == [] && s.listeners == map[] && s.running == e.running && s.tasks == e.tasks == Apply(s, Stop).tasks
  {
    assert Apply(Apply(e, Clear), Stop).tasks == e.tasks;
  }

  // ── Runs that list no mapping twice ─────────────────────────────────────────

  /** The call adds no mapping that is in its list already; what it adds is printed. */
  ghost predicate Fresh(e: Engine, call: Call) {
    call.Add? && call.spec.Some? ==>
      Printed(call.spec.value) && forall x :: x in e.lists.Get(call.kind) ==> !Same(call.kind, x, call.spec.value)
  }

  ghost predicate FreshRun(e: Engine, calls: seq<Call>)
    decreases |calls|
  {
    calls != [] ==> Fresh(e, calls[0]) && FreshRun(Apply(e, calls[0]), calls[1..])
  }

  lemma {:induction false} FreshIsCareful(e: Engine, call: Call)
    requires AllPrinted(e.lists) && Fresh(e, call)
    ensures Careful(e, call)
  {
    if call.Add? && call.spec.Some? {
      var m := call.spec.value;
      if k: Kind :| ListedAs(e.lists.Get(k), k, Key(call.kind, m)) {
        var x :| x in e.lists.Get(k) && Key(k, x) == Key(call.kind, m);
        KeysEqualExactly(k, x, call.kind, m);
      }
    }
  }

  lemma {:induction false} SpawnAllLists(e: Engine, keys: seq<string>)
    ensures SpawnAll(e, keys).lists == e.lists
    decreases |keys|
  {
    if keys != [] { SpawnAllLists(Spawn(e, keys[0]), keys[1..]); }
  }

  lemma {:induction false} CallKeepsPrinted(e: Engine, call: Call)
    requires AllPrinted(e.lists) && Fresh(e, call)
    ensures AllPrinted(Apply(e, call).lists)
  {
    forall k, x | x in Apply(e, call).lists.Get(k) ensures Printed(x) {
      match call
      case Start(_) => SpawnAllLists(e, ListedKeys(e.lists));
      case Add(kind, spec) => if spec.Some? { GetSet(e.lists, kind, e.lists.Get(kind) + [spec.value], k); }
      case Remove(kind, spec) =>
        if spec.Some? {
          var key := Key(kind, spec.value);
          GetSet(e.lists, kind, Without(kind, e.lists.Get(kind), key), k);
          InWithout(kind, e.lists.Get(kind), key, x);
        }
      case Clear => GetSet(NO_LISTS, k, [], k);
      case Stop =>
      case TaskEnds(_) =>
    }
  }

  lemma {:induction false} FreshRunIsCareful(e: Engine, calls: seq<Call>)
    requires AllPrinted(e.lists) && FreshRun(e, calls)
    ensures CarefulRun(e, calls) && AllPrinted(After(e, calls).lists)
    decreases |calls|
  {
    if calls != [] {
      FreshIsCareful(e, calls[0]);
      CallKeepsPrinted(e, calls[0]);
      FreshRunIsCareful(Apply(e, calls[0]), calls[1..]);
    }
  }

  lemma {:induction false} NothingListedYet()
    ensures AllPrinted(FRESH.lists)
  {
    forall k ensures FRESH.lists.Get(k) == [] { match k { case LocalTcp => case LocalUdp => case RemoteTcp => case RemoteUdp => } }
  }

  /** In every run that never adds a listed mapping again, a stop leaves no task alive that was spawned since the last clear. */
  lemma {:induction false} StopEndsEveryMapping(calls: seq<Call>)
    requires FreshRun(FRESH, calls)
    ensures var s := Apply(After(FRESH, calls), Stop);
      !s.running && s.listeners == map[] && forall i :: s.mark <= i < |s.tasks| ==> !s.tasks[i].alive
  {
    NothingListedYet();
    FreshRunIsCareful(FRESH, calls);
    StopEndsEveryTask(calls);
  }
}
