/** Whole runs of the engine: what is tracked, and which tasks outlive `stop`. */
module EngineTheorems {
  import opened Common
  import opened EngineModel
  import opened EngineProofs

  /** A stopped engine tracks no listener; a running one exactly the keys of its lists. */
  ghost predicate Tracks(e: Engine) {
    if e.running then forall key :: key in e.listeners <==> Listed(e.lists, key) else e.listeners == map[]
  }

  /** What is tracked under a key is a task spawned for that key since the last clear. */
  ghost predicate WellKeyed(e: Engine) {
    && e.mark <= |e.tasks|
    && forall key :: key in e.listeners ==> e.mark <= e.listeners[key] < |e.tasks| && e.tasks[e.listeners[key]].key == key
  }

  /** Task i is tracked, if it is alive and not older than the last clear. */
  ghost predicate OwnedAt(e: Engine, i: TaskId) {
    e.mark <= i < |e.tasks| && e.tasks[i].alive ==> e.tasks[i].key in e.listeners && e.listeners[e.tasks[i].key] == i
  }

  ghost predicate Owned(e: Engine) {
    forall i: TaskId :: OwnedAt(e, i)
  }

  ghost predicate UniqueIn(kind: Kind, ms: seq<Mapping>) {
    forall i, j :: 0 <= i < j < |ms| ==> Key(kind, ms[i]) != Key(kind, ms[j])
  }

  ghost predicate UniqueLists(lists: Lists) {
    forall kind :: UniqueIn(kind, lists.Get(kind))
  }

  ghost predicate Unique(keys: seq<string>) {
    forall i, j :: 0 <= i < j < |keys| ==> keys[i] != keys[j]
  }

  // ── Starting: one task per listed mapping ───────────────────────────────────

  lemma {:induction false} SpawnAllKeeps(e: Engine, keys: seq<string>)
    requires WellKeyed(e)
    ensures var s := SpawnAll(e, keys);
      WellKeyed(s) && s.(listeners := e.listeners, tasks := e.tasks) == e && e.tasks <= s.tasks
      && forall key :: key in s.listeners <==> key in e.listeners || key in keys
    decreases |keys|
  {
    if keys != [] {
      SpawnAllKeeps(Spawn(e, keys[0]), keys[1..]);
      assert keys == [keys[0]] + keys[1..];
    }
  }

  lemma {:induction false} SpawnOwns(e: Engine, key: string)
    requires WellKeyed(e) && Owned(e) && key !in e.listeners
    ensures Owned(Spawn(e, key))
  {
    forall i: TaskId ensures OwnedAt(Spawn(e, key), i) { assert OwnedAt(e, i); }
  }

  /** A task once lost stays lost while more are spawned. */
  lemma {:induction false} SpawnAllKeepsOrphan(e: Engine, keys: seq<string>, i: TaskId)
    requires WellKeyed(e) && !OwnedAt(e, i)
    ensures !OwnedAt(SpawnAll(e, keys), i)
    decreases |keys|
  {
    if keys != [] {
      var s := Spawn(e, keys[0]);
      assert s.tasks[i] == e.tasks[i];
      SpawnAllKeepsOrphan(s, keys[1..], i);
    }
  }

  ghost predicate Apart(e: Engine, keys: seq<string>) {
    Unique(keys) && forall i :: 0 <= i < |keys| ==> keys[i] !in e.listeners
  }

  /** Spawning live tasks for all keys loses none exactly when no key comes twice or is taken. */
  lemma {:induction false} SpawnAllOwns(e: Engine, keys: seq<string>)
    requires WellKeyed(e) && Owned(e) && forall key :: key in e.listeners ==> e.tasks[e.listeners[key]].alive
    ensures Owned(SpawnAll(e, keys)) <==> Apart(e, keys)
    decreases |keys|
  {
    if keys != [] {
      var key, rest := keys[0], keys[1..];
      var s := Spawn(e, key);
      if key in e.listeners {
        SpawnAllKeepsOrphan(s, rest, e.listeners[key]);
        assert !OwnedAt(SpawnAll(e, keys), e.listeners[key]);
      } else {
        SpawnOwns(e, key);
        SpawnAllOwns(s, rest);
        ApartTail(e, keys);
      }
    }
  }

  lemma {:induction false} ApartTail(e: Engine, keys: seq<string>)
    requires keys != [] && keys[0] !in e.listeners
    ensures Apart(e, keys) <==> Apart(Spawn(e, keys[0]), keys[1..])
  {
    var rest, s := keys[1..], Spawn(e, keys[0]);
    if Apart(e, keys) {
      forall i | 0 <= i < |rest| ensures rest[i] !in s.listeners { assert rest[i] == keys[i + 1]; }
    }
    if Apart(s, rest) {
      forall i | 0 < i < |keys| ensures keys[i] !in s.listeners { assert keys[i] == rest[i - 1]; }
      forall i, j | 0 < i < j < |keys| ensures keys[i] != keys[j] { assert rest[i - 1] != rest[j - 1]; }
    }
  }

  // ── Unique keys, list by list ───────────────────────────────────────────────

  ghost predicate Disjoint(a: seq<string>, b: seq<string>) {
    forall key :: key in a ==> key !in b
  }

  lemma {:induction false} UniqueConcat(a: seq<string>, b: seq<string>)
    ensures Unique(a + b) <==> Unique(a) && Unique(b) && Disjoint(a, b)
  {
    var s := a + b;
    if Unique(s) {
      forall i, j | 0 <= i < j < |b| ensures b[i] != b[j] { assert s[|a| + i] == b[i] && s[|a| + j] == b[j]; }
      forall i, j | 0 <= i < j < |a| ensures a[i] != a[j] { assert s[i] == a[i] && s[j] == a[j]; }
      forall i, j | 0 <= i < |a| && 0 <= j < |b| ensures a[i] != b[j] { assert s[i] == a[i] && s[|a| + j] == b[j]; }
    }
    if Unique(a) && Unique(b) && Disjoint(a, b) {
      forall i, j | 0 <= i < j < |s| ensures s[i] != s[j] {
        if i < |a| <= j { assert a[i] in a && b[j - |a|] in b; }
      }
    }
  }

  lemma {:induction false} KindsDisjoint(k: Kind, ms: seq<Mapping>, l: Kind, ns: seq<Mapping>)
    requires k != l
    ensures Disjoint(KeysOf(k, ms), KeysOf(l, ns))
  {
    forall i, j | 0 <= i < |ms| && 0 <= j < |ns| ensures KeysOf(k, ms)[i] != KeysOf(l, ns)[j] {
      if Key(k, ms[i]) == Key(l, ns[j]) { KeysApart(k, ms[i], l, ns[j]); }
    }
  }

  lemma {:induction false} UniqueKeysOf(kind: Kind, ms: seq<Mapping>)
    ensures Unique(KeysOf(kind, ms)) <==> UniqueIn(kind, ms)
  {
    var keys := KeysOf(kind, ms);
    forall i | 0 <= i < |ms| ensures keys[i] == Key(kind, ms[i]) {}
  }

  /** Keys carry their kind, so the four lists can be looked at one by one. */
  lemma {:induction false} UniqueListedKeys(lists: Lists)
    ensures Unique(ListedKeys(lists)) <==> UniqueLists(lists)
  {
    var a, b := KeysOf(LocalTcp, lists.localTcp), KeysOf(LocalUdp, lists.localUdp);
    var c, d := KeysOf(RemoteTcp, lists.remoteTcp), KeysOf(RemoteUdp, lists.remoteUdp);
    UniqueKeysOf(LocalTcp, lists.localTcp);
    UniqueKeysOf(LocalUdp, lists.localUdp);
    UniqueKeysOf(RemoteTcp, lists.remoteTcp);
    UniqueKeysOf(RemoteUdp, lists.remoteUdp);
    KindsDisjoint(LocalTcp, lists.localTcp, LocalUdp, lists.localUdp);
    KindsDisjoint(LocalTcp, lists.localTcp, RemoteTcp, lists.remoteTcp);
    KindsDisjoint(LocalTcp, lists.localTcp, RemoteUdp, lists.remoteUdp);
    KindsDisjoint(LocalUdp, lists.localUdp, RemoteTcp, lists.remoteTcp);
    KindsDisjoint(LocalUdp, lists.localUdp, RemoteUdp, lists.remoteUdp);
    KindsDisjoint(RemoteTcp, lists.remoteTcp, RemoteUdp, lists.remoteUdp);
    UniqueFour(a, b, c, d);
    FourKinds(lists);
  }

  lemma {:induction false} FourKinds(lists: Lists)
    ensures UniqueLists(lists) <==> (
        && UniqueIn(LocalTcp, lists.localTcp) && UniqueIn(LocalUdp, lists.localUdp)
        && UniqueIn(RemoteTcp, lists.remoteTcp) && UniqueIn(RemoteUdp, lists.remoteUdp))
  {
    if UniqueLists(lists) {
      assert UniqueIn(LocalTcp, lists.Get(LocalTcp)) && UniqueIn(LocalUdp, lists.Get(LocalUdp));
      assert UniqueIn(RemoteTcp, lists.Get(RemoteTcp)) && UniqueIn(RemoteUdp, lists.Get(RemoteUdp));
    }
  }

  lemma {:induction false} UniqueFour(a: seq<string>, b: seq<string>, c: seq<string>, d: seq<string>)
    requires Disjoint(a, b) && Disjoint(a, c) && Disjoint(a, d) && Disjoint(b, c) && Disjoint(b, d) && Disjoint(c, d)
    ensures Unique(a + b + c + d) <==> Unique(a) && Unique(b) && Unique(c) && Unique(d)
  {
    UniqueConcat(a + b + c, d);
    UniqueConcat(a + b, c);
    UniqueConcat(a, b);
  }

  // ── Every call keeps what is tracked ────────────────────────────────────────

  lemma {:induction false} StartTracks(e: Engine, config: Config)
    requires Tracks(e) && WellKeyed(e)
    ensures var s := Apply(e, Start(config)); Tracks(s) && WellKeyed(s)
  {
    if StartError(e, config).None? {
      SpawnAllKeeps(e, ListedKeys(e.lists));
      forall key ensures key in ListedKeys(e.lists) <==> Listed(e.lists, key) { InListedKeys(e.lists, key); }
    }
  }

  lemma {:induction false} AddTracks(e: Engine, kind: Kind, m: Mapping)
    requires Tracks(e) && WellKeyed(e)
    ensures var s := Apply(e, Add(kind, Some(m))); Tracks(s) && WellKeyed(s)
  {
    var lists := e.lists.Set(kind, e.lists.Get(kind) + [m]);
    forall key ensures Listed(lists, key) <==> Listed(e.lists, key) || key == Key(kind, m) {
      AddLists(e.lists, kind, m, key);
    }
  }

  lemma {:induction false} RemoveTracks(e: Engine, kind: Kind, m: Mapping)
    requires Tracks(e)
    ensures Tracks(Apply(e, Remove(kind, Some(m))))
  {
    var lists := e.lists.Set(kind, Without(kind, e.lists.Get(kind), Key(kind, m)));
    var s := Apply(e, Remove(kind, Some(m)));
    assert s.lists == lists && s.running == e.running;
    forall key ensures Listed(lists, key) <==> Listed(e.lists, key) && key != Key(kind, m) {
      RemoveLists(e.lists, kind, m, key);
    }
    assert forall key :: key in s.listeners <==> key in e.listeners && key != Key(kind, m);
  }

  lemma {:induction false} RemoveKeyed(e: Engine, kind: Kind, m: Mapping)
    requires WellKeyed(e)
    ensures WellKeyed(Apply(e, Remove(kind, Some(m))))
  {
  }

  lemma {:induction false} NothingListed(key: string)
    ensures !Listed(NO_LISTS, key)
  {
    forall kind ensures !ListedAs(NO_LISTS.Get(kind), kind, key) {
      match kind { case LocalTcp => case LocalUdp => case RemoteTcp => case RemoteUdp => }
    }
  }

  lemma {:induction false} CallTracks(e: Engine, call: Call)
    requires Tracks(e) && WellKeyed(e)
    ensures Tracks(Apply(e, call)) && WellKeyed(Apply(e, call))
  {
    match call
    case Start(config) => StartTracks(e, config);
    case Add(kind, spec) => if spec.Some? { AddTracks(e, kind, spec.value); }
    case Remove(kind, spec) => if spec.Some? { RemoveTracks(e, kind, spec.value); RemoveKeyed(e, kind, spec.value); }
    case Clear => forall key ensures !Listed(NO_LISTS, key) { NothingListed(key); }
    case Stop =>
    case TaskEnds(id) =>
  }

  lemma {:induction false} AfterTracks(e: Engine, calls: seq<Call>)
    requires Tracks(e) && WellKeyed(e)
    ensures Tracks(After(e, calls)) && WellKeyed(After(e, calls))
    decreases |calls|
  {
    if calls != [] {
      CallTracks(e, calls[0]);
      AfterTracks(Apply(e, calls[0]), calls[1..]);
    }
  }

  /** In every run of calls: stopped means nothing tracked, running means exactly the listed keys are. */
  lemma {:induction false} EveryRunTracks(calls: seq<Call>)
    ensures Tracks(After(FRESH, calls)) && WellKeyed(After(FRESH, calls))
  {
    AfterTracks(FRESH, calls);
  }

  // ── Runs that list no key twice ─────────────────────────────────────────────

  /** The call adds no key that is in the lists already. */
  ghost predicate Careful(e: Engine, call: Call) {
    call.Add? && call.spec.Some? ==> !Listed(e.lists, Key(call.kind, call.spec.value))
  }

  ghost predicate CarefulRun(e: Engine, calls: seq<Call>)
    decreases |calls|
  {
    calls != [] ==> Careful(e, calls[0]) && CarefulRun(Apply(e, calls[0]), calls[1..])
  }

  lemma {:induction false} AddUnique(lists: Lists, kind: Kind, m: Mapping)
    requires UniqueLists(lists) && !Listed(lists, Key(kind, m))
    ensures UniqueLists(lists.Set(kind, lists.Get(kind) + [m]))
  {
    var ms := lists.Get(kind) + [m];
    forall k ensures UniqueIn(k, lists.Set(kind, ms).Get(k)) {
      GetSet(lists, kind, ms, k);
      assert UniqueIn(k, lists.Get(k));
      assert !ListedAs(lists.Get(kind), kind, Key(kind, m));
      forall i | 0 <= i < |lists.Get(kind)| ensures Key(kind, ms[i]) != Key(kind, m) { assert ms[i] in lists.Get(kind); }
    }
  }

  ghost predicate NoneKeyed(kind: Kind, ms: seq<Mapping>, key: string) {
    forall m :: m in ms ==> Key(kind, m) != key
  }

  lemma {:induction false} WithoutNoneKeyed(kind: Kind, ms: seq<Mapping>, key: string, other: string)
    requires NoneKeyed(kind, ms, other)
    ensures NoneKeyed(kind, Without(kind, ms, key), other)
  {
    forall m | m in Without(kind, ms, key) ensures Key(kind, m) != other { InWithout(kind, ms, key, m); }
  }

  lemma {:induction false} WithoutUnique(kind: Kind, ms: seq<Mapping>, key: string)
    requires UniqueIn(kind, ms)
    ensures UniqueIn(kind, Without(kind, ms, key))
  {
    if ms != [] {
      WithoutUnique(kind, ms[1..], key);
      WithoutNoneKeyed(kind, ms[1..], key, Key(kind, ms[0]));
    }
  }

  lemma {:induction false} RemoveUnique(lists: Lists, kind: Kind, key: string)
    requires UniqueLists(lists)
    ensures UniqueLists(lists.Set(kind, Without(kind, lists.Get(kind), key)))
  {
    var less := Without(kind, lists.Get(kind), key);
    forall k ensures UniqueIn(k, lists.Set(kind, less).Get(k)) {
      GetSet(lists, kind, less, k);
      assert UniqueIn(k, lists.Get(k));
      if k == kind { WithoutUnique(kind, lists.Get(kind), key); }
    }
  }

  /** A start loses no task exactly when no list holds a key twice. */
  lemma {:induction false} StartOwnsExactly(e: Engine)
    requires Tracks(e) && WellKeyed(e) && Owned(e) && !e.running
    ensures Owned(Apply(e, Start(Usable))) <==> UniqueLists(e.lists)
  {
    var keys := ListedKeys(e.lists);
    SpawnAllOwns(e, keys);
    UniqueListedKeys(e.lists);
    SameOwned(SpawnAll(e, keys), Apply(e, Start(Usable)));
  }

  lemma {:induction false} SameOwned(e: Engine, s: Engine)
    requires s == e.(running := s.running)
    ensures Owned(e) <==> Owned(s)
  {
    forall i: TaskId ensures OwnedAt(e, i) <==> OwnedAt(s, i) {}
  }

  /** An add on a running engine loses a task exactly when a live one is tracked under its key. */
  lemma {:induction false} AddOwnsExactly(e: Engine, kind: Kind, m: Mapping)
    requires WellKeyed(e) && Owned(e) && e.running
    ensures var key := Key(kind, m);
      Owned(Apply(e, Add(kind, Some(m)))) <==> !(key in e.listeners && e.tasks[e.listeners[key]].alive)
  {
    var key := Key(kind, m);
    var s := Apply(e, Add(kind, Some(m)));
    if key in e.listeners && e.tasks[e.listeners[key]].alive {
      assert !OwnedAt(s, e.listeners[key]);
    } else {
      forall i: TaskId ensures OwnedAt(s, i) { assert OwnedAt(e, i); }
    }
  }

  lemma {:induction false} EndingOwns(e: Engine, s: Engine, ids: set<TaskId>)
    requires Owned(e) && WellKeyed(e) && s.tasks == Ended(e.tasks, ids) && s.mark == e.mark
    requires forall key :: key in e.listeners && e.listeners[key] !in ids ==> key in s.listeners && s.listeners[key] == e.listeners[key]
    ensures Owned(s)
  {
    forall i: TaskId ensures OwnedAt(s, i) { assert OwnedAt(e, i); }
  }

  lemma {:induction false} CarefulCallOwns(e: Engine, call: Call)
    requires Tracks(e) && WellKeyed(e) && Owned(e) && UniqueLists(e.lists) && Careful(e, call)
    ensures Owned(Apply(e, call)) && UniqueLists(Apply(e, call).lists)
  {
    var s := Apply(e, call);
    match call
    case Start(config) =>
      if StartError(e, config).None? {
        StartOwnsExactly(e);
        SpawnAllKeeps(e, ListedKeys(e.lists));
      }
    case Add(kind, spec) =>
      if spec.Some? {
        AddUnique(e.lists, kind, spec.value);
        if e.running { AddOwnsExactly(e, kind, spec.value); }
        else { EndingOwns(e, s, {}); }
      }
    case Remove(kind, spec) =>
      if spec.Some? {
        var key := Key(kind, spec.value);
        RemoveUnique(e.lists, kind, key);
        EndingOwns(e, s, if key in e.listeners then {e.listeners[key]} else {});
      }
    case Clear =>
    case Stop => EndingOwns(e, s, e.listeners.Values);
    case TaskEnds(id) => EndingOwns(e, s, {id});
  }

  lemma {:induction false} CarefulAfterOwns(e: Engine, calls: seq<Call>)
    requires Tracks(e) && WellKeyed(e) && Owned(e) && UniqueLists(e.lists) && CarefulRun(e, calls)
    ensures Owned(After(e, calls)) && UniqueLists(After(e, calls).lists)
    decreases |calls|
  {
    if calls != [] {
      CarefulCallOwns(e, calls[0]);
      CallTracks(e, calls[0]);
      CarefulAfterOwns(Apply(e, calls[0]), calls[1..]);
    }
  }

  /** If no key is ever added while listed, every task alive and spawned since the last clear is tracked. */
  lemma {:induction false} CarefulRunsOwn(calls: seq<Call>)
    requires CarefulRun(FRESH, calls)
    ensures Owned(After(FRESH, calls))
  {
    CarefulAfterOwns(FRESH, calls);
  }

  /** Then a stop leaves none of those tasks alive. */
  lemma {:induction false} StopEndsEveryTask(calls: seq<Call>)
    requires CarefulRun(FRESH, calls)
    ensures var s := Apply(After(FRESH, calls), Stop); forall i :: s.mark <= i < |s.tasks| ==> !s.tasks[i].alive
  {
    var e := After(FRESH, calls);
    CarefulRunsOwn(calls);
    forall i: TaskId | e.mark <= i < |e.tasks| && e.tasks[i].alive ensures i in e.listeners.Values { assert OwnedAt(e, i); }
  }

  /** A task lost to a second one of its key is out of reach of the stop. */
  lemma {:induction false} StopMissesOrphans(e: Engine, i: TaskId)
    requires WellKeyed(e) && !OwnedAt(e, i)
    ensures Apply(e, Stop).tasks[i].alive
  {
    assert i !in e.listeners.Values;
  }

  /** The same mapping added twice before a start leaves its first task alive after the stop. */
  lemma {:induction false} DuplicateOutlivesStop(kind: Kind, m: Mapping)
    ensures var calls := [Add(kind, Some(m)), Add(kind, Some(m)), Start(Usable), Stop];
      exists i :: 0 <= i < |After(FRESH, calls).tasks| && After(FRESH, calls).tasks[i].alive
  {
    var add := Add(kind, Some(m));
    var e1 := Apply(FRESH, add);
    var e2 := Apply(e1, add);
    var e3 := Apply(e2, Start(Usable));
    assert After(FRESH, [add, add, Start(Usable), Stop]) == Apply(e3, Stop) by {
      UnfoldFour(add, add, Start(Usable), Stop);
    }
    EveryRunTracks([]);
    CallTracks(FRESH, add);
    CallTracks(e1, add);
    assert e2.tasks == [];
    GetSet(NO_LISTS, kind, [m], kind);
    GetSet(e1.lists, kind, [m, m], kind);
    assert e2.lists.Get(kind) == [m, m];
    assert Key(kind, e2.lists.Get(kind)[0]) == Key(kind, e2.lists.Get(kind)[1]);
    assert !UniqueIn(kind, e2.lists.Get(kind));
    StartOwnsExactly(e2);
    CallTracks(e2, Start(Usable));
    var i: TaskId :| !OwnedAt(e3, i);
    StopMissesOrphans(e3, i);
  }

  lemma {:induction false} AfterFirst(e: Engine, call: Call, calls: seq<Call>)
    ensures After(e, [call] + calls) == After(Apply(e, call), calls)
  {
  }

  lemma {:induction false} UnfoldFour(a: Call, b: Call, c: Call, d: Call)
    ensures After(FRESH, [a, b, c, d]) == Apply(Apply(Apply(Apply(FRESH, a), b), c), d)
  {
    assert [a, b, c, d] == [a] + ([b] + ([c] + ([d] + [])));
    AfterFirst(FRESH, a, [b] + ([c] + ([d] + [])));
    AfterFirst(Apply(FRESH, a), b, [c] + ([d] + []));
    AfterFirst(Apply(Apply(FRESH, a), b), c, [d] + []);
    AfterFirst(Apply(Apply(Apply(FRESH, a), b), c), d, []);
  }

  /** No two live tasks since the last clear share a key. */
  lemma {:induction false} OneTaskPerKey(calls: seq<Call>, i: TaskId, j: TaskId)
    requires CarefulRun(FRESH, calls)
    ensures var e := After(FRESH, calls);
      e.mark <= i < j < |e.tasks| && e.tasks[i].alive && e.tasks[j].alive ==> e.tasks[i].key != e.tasks[j].key
  {
    CarefulRunsOwn(calls);
    var e := After(FRESH, calls);
    assert OwnedAt(e, i) && OwnedAt(e, j);
  }
}
