/** The engine itself: each API call changes the lists, the listener map and the tasks in place. */
module Engine {
  import opened Common
  import opened EngineModel
  import opened EngineProofs
  import opened EngineTheorems

  lemma {:induction false} EndedOneMore(tasks: seq<Task>, ids: set<TaskId>, id: TaskId)
    requires id < |tasks|
    ensures Ended(tasks, ids + {id}) == Ended(tasks, ids)[id := Ended(tasks, ids)[id].(alive := false)]
  {
  }

  lemma {:induction false} SpawnAllConcat(e: EngineModel.Engine, a: seq<string>, b: seq<string>)
    ensures SpawnAll(e, a + b) == SpawnAll(SpawnAll(e, a), b)
    decreases |a|
  {
    if a == [] {
      assert a + b == b;
    } else {
      assert (a + b)[1..] == a[1..] + b;
      SpawnAllConcat(Spawn(e, a[0]), a[1..], b);
    }
  }

  class YggstackMobile {
    var running: bool
    var lists: Lists
    var listeners: map<string, TaskId>
    var tasks: seq<Task>
    ghost var mark: nat

    ghost function Snapshot(): EngineModel.Engine
      reads this
    {
      EngineModel.Engine(running, lists, listeners, tasks, mark)
    }

    constructor ()
      ensures Snapshot() == FRESH
    {
      running, lists, listeners, tasks := false, NO_LISTS, map[], [];
      mark := 0;
    }

    /** Spawn the task and track it; whatever was tracked under the key is dropped, not stopped. */
    method SpawnListener(key: string) returns (id: TaskId)
      modifies this`listeners, this`tasks
      ensures Snapshot() == Spawn(old(Snapshot()), key)
      ensures id == |old(tasks)|
    {
      id := |tasks|;
      tasks := tasks + [Task(key, true)];
      listeners := listeners[key := id];
    }

    method SpawnMappings(kind: Kind, ms: seq<Mapping>)
      modifies this`listeners, this`tasks
      ensures Snapshot() == SpawnAll(old(Snapshot()), KeysOf(kind, ms))
    {
      ghost var keys := KeysOf(kind, ms);
      assert keys[0..] == keys;
      for i := 0 to |ms|
        invariant running == old(running) && lists == old(lists)
        invariant SpawnAll(Snapshot(), keys[i..]) == SpawnAll(old(Snapshot()), keys)
      {
        var id := SpawnListener(Key(kind, ms[i]));
        assert keys[i..][0] == keys[i] && keys[i..][1..] == keys[i + 1..];
      }
      assert keys[|ms|..] == [];
    }

    method StartEngine(config: Config) returns (r: Result<(), EngineError>)
      requires Tracks(Snapshot()) && WellKeyed(Snapshot())
      modifies this`running, this`listeners, this`tasks
      ensures Snapshot() == Apply(old(Snapshot()), Start(config))
      ensures r.Ok? <==> !old(running) && config.Usable?
      ensures r.Err? ==> r.error == (if old(running) then AlreadyRunning else ConfigError)
      ensures r.Err? ==> Snapshot() == old(Snapshot())
      ensures Tracks(Snapshot()) && WellKeyed(Snapshot())
    {
      CallTracks(Snapshot(), Start(config));
      if running {
        return Err(AlreadyRunning);
      }
      if !config.Usable? {
        return Err(ConfigError);
      }
      ghost var e := Snapshot();
      ghost var a, b := KeysOf(LocalTcp, lists.localTcp), KeysOf(LocalUdp, lists.localUdp);
      ghost var c, d := KeysOf(RemoteTcp, lists.remoteTcp), KeysOf(RemoteUdp, lists.remoteUdp);
      SpawnAllConcat(e, a + b + c, d);
      SpawnAllConcat(e, a + b, c);
      SpawnAllConcat(e, a, b);
      SpawnMappings(LocalTcp, lists.localTcp);
      SpawnMappings(LocalUdp, lists.localUdp);
      SpawnMappings(RemoteTcp, lists.remoteTcp);
      SpawnMappings(RemoteUdp, lists.remoteUdp);
      running := true;
      return Ok(());
    }

    /** Wait for the task, aborting it after the grace period: it has ended either way. */
    method JoinListener(id: TaskId)
      requires id < |tasks|
      modifies this`tasks
      ensures tasks == old(tasks)[id := old(tasks)[id].(alive := false)]
    {
      tasks := tasks[id := tasks[id].(alive := false)];
    }

    method StopEngine()
      requires Tracks(Snapshot()) && WellKeyed(Snapshot())
      modifies this`running, this`listeners, this`tasks
      ensures Snapshot() == Apply(old(Snapshot()), Stop)
      ensures !running && listeners == map[] && Tracks(Snapshot()) && WellKeyed(Snapshot())
      ensures Owned(old(Snapshot())) ==> forall i :: mark <= i < |tasks| ==> !tasks[i].alive
    {
      ghost var e := Snapshot();
      CallTracks(e, Stop);
      running := false;
      var handles := listeners.Values;
      listeners := map[];
      ghost var joined: set<TaskId> := {};
      while handles != {}
        invariant !running && listeners == map[]
        invariant handles + joined == e.listeners.Values && handles !! joined
        invariant tasks == Ended(e.tasks, joined)
        decreases handles
      {
        var id :| id in handles;
        EndedOneMore(e.tasks, joined, id);
        JoinListener(id);
        joined, handles := joined + {id}, handles - {id};
      }
      assert joined == e.listeners.Values;
      if Owned(e) {
        forall i: TaskId | e.mark <= i < |e.tasks| && e.tasks[i].alive ensures i in joined { assert OwnedAt(e, i); }
      }
    }

    method AddMapping(kind: Kind, spec: Option<Mapping>) returns (ok: bool)
      requires Tracks(Snapshot()) && WellKeyed(Snapshot())
      modifies this`lists, this`listeners, this`tasks
      ensures ok == spec.Some? && Snapshot() == Apply(old(Snapshot()), Add(kind, spec))
      ensures Tracks(Snapshot()) && WellKeyed(Snapshot())
    {
      CallTracks(Snapshot(), Add(kind, spec));
      if spec.None? {
        return false;
      }
      lists := lists.Set(kind, lists.Get(kind) + [spec.value]);
      if running {
        var id := SpawnListener(Key(kind, spec.value));
      }
      return true;
    }

    method StopListener(key: string)
      requires key in listeners ==> listeners[key] < |tasks|
      modifies this`listeners, this`tasks
      ensures key in old(listeners) ==> listeners == old(listeners) - {key} && tasks == Ended(old(tasks), {old(listeners)[key]})
      ensures key !in old(listeners) ==> listeners == old(listeners) && tasks == old(tasks)
    {
      if key in listeners {
        var id := listeners[key];
        EndedOneMore(tasks, {}, id);
        assert {} + {id} == {id};
        listeners := listeners - {key};
        JoinListener(id);
      }
    }

    method RemoveMapping(kind: Kind, spec: Option<Mapping>) returns (ok: bool)
      requires Tracks(Snapshot()) && WellKeyed(Snapshot())
      modifies this`lists, this`listeners, this`tasks
      ensures ok == spec.Some? && Snapshot() == Apply(old(Snapshot()), Remove(kind, spec))
      ensures Tracks(Snapshot()) && WellKeyed(Snapshot())
    {
      ghost var e := Snapshot();
      ok := spec.Some?;
      if ok {
        var key := Key(kind, spec.value);
        lists := lists.Set(kind, Without(kind, lists.Get(kind), key));
        StopListener(key);
      }
      assert Snapshot() == Apply(e, Remove(kind, spec));
      CallTracks(e, Remove(kind, spec));
    }

    /** Forget every mapping; the listeners are told to stop but not waited for. */
    method ClearMappings()
      requires Tracks(Snapshot()) && WellKeyed(Snapshot())
      modifies this`lists, this`listeners, this`mark
      ensures Snapshot() == Apply(old(Snapshot()), Clear)
      ensures Tracks(Snapshot()) && WellKeyed(Snapshot())
    {
      CallTracks(Snapshot(), Clear);
      lists, listeners := NO_LISTS, map[];
      mark := |tasks|;
    }
  }
}
