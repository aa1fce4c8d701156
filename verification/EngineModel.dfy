/**
 The engine's lifecycle: start, stop, adding, removing and clearing mappings, and the listener
 tasks these spawn, join or only signal.
 */
module EngineModel {
  import opened Common
  import opened Text

  datatype Kind = LocalTcp | LocalUdp | RemoteTcp | RemoteUdp

  /** A parsed mapping, with its addresses as they print. */
  datatype Mapping = Mapping(listen: string, listenPort: nat, target: string)

  type TaskId = nat

  datatype Task = Task(key: string, alive: bool)

  datatype Lists = Lists(localTcp: seq<Mapping>, localUdp: seq<Mapping>, remoteTcp: seq<Mapping>, remoteUdp: seq<Mapping>) {
    function Get(kind: Kind): seq<Mapping> {
      match kind
      case LocalTcp => localTcp
      case LocalUdp => localUdp
      case RemoteTcp => remoteTcp
      case RemoteUdp => remoteUdp
    }

    function Set(kind: Kind, ms: seq<Mapping>): Lists {
      match kind
      case LocalTcp => this.(localTcp := ms)
      case LocalUdp => this.(localUdp := ms)
      case RemoteTcp => this.(remoteTcp := ms)
      case RemoteUdp => this.(remoteUdp := ms)
    }
  }

  const NO_LISTS: Lists := Lists([], [], [], [])

  /** `mark`: how many tasks had been spawned when the mappings were last cleared. */
  datatype Engine = Engine(running: bool, lists: Lists, listeners: map<string, TaskId>, tasks: seq<Task>, mark: nat)

  const FRESH: Engine := Engine(false, NO_LISTS, map[], [], 0)

  datatype Config = Missing | BadKey | Usable

  datatype EngineError = AlreadyRunning | ConfigError

  /** What an API call, or a task ending by itself, does. A spec may fail to parse. */
  datatype Call =
    | Start(config: Config)
    | Stop
    | Add(kind: Kind, spec: Option<Mapping>)
    | Remove(kind: Kind, spec: Option<Mapping>)
    | Clear
    | TaskEnds(id: TaskId)

  // ── Keys ────────────────────────────────────────────────────────────────────

  function Prefix(kind: Kind): string {
    match kind
    case LocalTcp => "ltcp:"
    case LocalUdp => "ludp:"
    case RemoteTcp => "rtcp:"
    case RemoteUdp => "rudp:"
  }

  function Key(kind: Kind, m: Mapping): string {
    Prefix(kind) + (if kind.LocalTcp? || kind.LocalUdp? then m.listen else ShowNat(m.listenPort)) + "->" + m.target
  }

  function KeysOf(kind: Kind, ms: seq<Mapping>): (r: seq<string>)
    ensures |r| == |ms|
  {
    seq(|ms|, i requires 0 <= i < |ms| => Key(kind, ms[i]))
  }

  /** The keys in the order `start` meets them. */
  function ListedKeys(lists: Lists): seq<string> {
    KeysOf(LocalTcp, lists.localTcp) + KeysOf(LocalUdp, lists.localUdp)
    + KeysOf(RemoteTcp, lists.remoteTcp) + KeysOf(RemoteUdp, lists.remoteUdp)
  }

  /** `retain`: the mappings with another key. */
  function Without(kind: Kind, ms: seq<Mapping>, key: string): seq<Mapping> {
    if ms == [] then []
    else (if Key(kind, ms[0]) != key then [ms[0]] else []) + Without(kind, ms[1..], key)
  }

  // ── Calls ───────────────────────────────────────────────────────────────────

  /** A new task under this key; one tracked there before is forgotten, not stopped. */
  function Spawn(e: Engine, key: string): Engine {
    e.(listeners := e.listeners[key := |e.tasks|], tasks := e.tasks + [Task(key, true)])
  }

  function SpawnAll(e: Engine, keys: seq<string>): Engine
    decreases |keys|
  {
    if keys == [] then e else SpawnAll(Spawn(e, keys[0]), keys[1..])
  }

  /** Joined or aborted: either way the tasks in `ids` have ended. */
  function Ended(tasks: seq<Task>, ids: set<TaskId>): (r: seq<Task>)
    ensures |r| == |tasks|
  {
    seq(|tasks|, i requires 0 <= i < |tasks| => if i in ids then tasks[i].(alive := false) else tasks[i])
  }

  function StartError(e: Engine, config: Config): Option<EngineError> {
    if e.running then Some(AlreadyRunning) else if config.Usable? then None else Some(ConfigError)
  }

  function Apply(e: Engine, call: Call): Engine {
    match call
    case Start(config) =>
      if StartError(e, config).Some? then e else SpawnAll(e, ListedKeys(e.lists)).(running := true)
    case Stop =>
      e.(running := false, listeners := map[], tasks := Ended(e.tasks, e.listeners.Values))
    case Add(kind, spec) =>
      if spec.None? then e
      else
        var e1 := e.(lists := e.lists.Set(kind, e.lists.Get(kind) + [spec.value]));
        if e.running then Spawn(e1, Key(kind, spec.value)) else e1
    case Remove(kind, spec) =>
      if spec.None? then e
      else
        var key := Key(kind, spec.value);
        var e1 := e.(lists := e.lists.Set(kind, Without(kind, e.lists.Get(kind), key)));
        if key in e.listeners then e1.(listeners := e.listeners - {key}, tasks := Ended(e.tasks, {e.listeners[key]})) else e1
    case Clear =>
      e.(lists := NO_LISTS, listeners := map[], mark := |e.tasks|)
    case TaskEnds(id) =>
      e.(tasks := Ended(e.tasks, {id}))
  }

  function After(e: Engine, calls: seq<Call>): Engine
    decreases |calls|
  {
    if calls == [] then e else After(Apply(e, calls[0]), calls[1..])
  }
}
