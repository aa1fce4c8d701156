/**
 The UDP session table and the tasks around it: the receive loop, the eviction timer and one
 listener task per session socket. Times are milliseconds.
 */
module UdpModel {
  import opened Common

  type Addr = nat
  type SocketId = nat
  type ListenerId = nat

  const SESSION_TTL: nat := 30_000

  /** local-udp gives up on a failed send; remote-udp goes on. */
  datatype Variant = Local | Remote

  /** A listener task relays what its socket receives to its one client. */
  datatype Listener = Listener(socket: SocketId, client: Addr, finished: bool)

  datatype Session = Session(socket: SocketId, lastActive: Time, listener: Option<ListenerId>)

  /** Where the receive loop stands between its awaits. */
  datatype Phase =
    | Ready
    | Sending(from: Addr, socket: SocketId, need: bool, since: Time)   // datagram on its way out
    | Storing(from: Addr, listener: ListenerId, since: Time)           // listener spawned, not in the table yet
    | Draining                                                         // stop received
    | Stopped

  datatype Reply = Reply(socket: SocketId, client: Addr)

  /** `owner[s]`: the client the socket s was opened for. */
  datatype World = World(sessions: map<Addr, Session>, listeners: seq<Listener>, owner: seq<Addr>,
                         phase: Phase, clock: Time, replies: seq<Reply>)

  predicate NeedsListener(w: World, s: Session) {
    s.listener.None? || (s.listener.value < |w.listeners| && w.listeners[s.listener.value].finished)
  }

  predicate Stale(s: Session, now: Time) {
    Since(now, s.lastActive) / 1000 >= SESSION_TTL / 1000
  }

  /** Listeners after the sessions in `gone` are dropped: theirs are aborted. */
  ghost function Aborted(listeners: seq<Listener>, gone: map<Addr, Session>): (r: seq<Listener>)
    ensures |r| == |listeners|
  {
    seq(|listeners|, i requires 0 <= i < |listeners| => listeners[i].(finished := listeners[i].finished || Lists(gone, i)))
  }

  ghost predicate Lists(gone: map<Addr, Session>, l: ListenerId) {
    exists a :: a in gone && gone[a].listener == Some(l)
  }

  /** The session of a client, opened on a new socket if there is none, and marked active. */
  function Touch(w: World, from: Addr, now: Time): World {
    if from in w.sessions then w.(sessions := w.sessions[from := w.sessions[from].(lastActive := now)])
    else w.(sessions := w.sessions[from := Session(|w.owner|, now, None)], owner := w.owner + [from])
  }

  function Receive(w: World, from: Addr, now: Time): World {
    var t := Touch(w, from, now);
    var s := t.sessions[from];
    t.(phase := Sending(from, s.socket, NeedsListener(t, s), now), clock := now)
  }

  /** The send ends; a needed listener is spawned. */
  function FinishSend(w: World, variant: Variant, ok: bool, now: Time): World
    requires w.phase.Sending?
  {
    if (variant.Local? && !ok) || !w.phase.need then w.(phase := Ready, clock := now)
    else w.(listeners := w.listeners + [Listener(w.phase.socket, w.phase.from, false)],
            phase := Storing(w.phase.from, |w.listeners|, w.phase.since), clock := now)
  }

  /** The spawned listener goes into the table, if its session is still there. */
  function StoreListener(w: World, now: Time): World
    requires w.phase.Storing?
  {
    var a := w.phase.from;
    w.(sessions := if a in w.sessions then w.sessions[a := w.sessions[a].(listener := Some(w.phase.listener))] else w.sessions,
       phase := Ready, clock := now)
  }

  function StaleSessions(sessions: map<Addr, Session>, now: Time): map<Addr, Session> {
    map a | a in sessions && Stale(sessions[a], now) :: sessions[a]
  }

  ghost function Evict(w: World, now: Time): World {
    var gone := StaleSessions(w.sessions, now);
    w.(sessions := w.sessions - gone.Keys, listeners := Aborted(w.listeners, gone), clock := now)
  }

  ghost function Drain(w: World, now: Time): World {
    w.(sessions := map[], listeners := Aborted(w.listeners, w.sessions), phase := Stopped, clock := now)
  }

  // ── Steps of any task ───────────────────────────────────────────────────────

  ghost predicate Receives(w: World, from: Addr, now: Time, w': World) {
    w.phase.Ready? && w.clock <= now && w' == Receive(w, from, now)
  }

  /** remote-udp: no socket could be bound for a new client, the datagram is dropped. */
  ghost predicate Rejects(w: World, variant: Variant, from: Addr, now: Time, w': World) {
    w.phase.Ready? && variant.Remote? && from !in w.sessions && w.clock <= now && w' == w.(clock := now)
  }

  ghost predicate Sends(w: World, variant: Variant, ok: bool, now: Time, w': World) {
    w.phase.Sending? && w.clock <= now && w' == FinishSend(w, variant, ok, now)
  }

  ghost predicate Stores(w: World, now: Time, w': World) {
    w.phase.Storing? && w.clock <= now && w' == StoreListener(w, now)
  }

  ghost predicate Evicts(w: World, now: Time, w': World) {
    w.clock <= now && w' == Evict(w, now)
  }

  /** A listener task ends by itself when its socket fails. */
  ghost predicate Exits(w: World, l: ListenerId, w': World) {
    l < |w.listeners| && w' == w.(listeners := w.listeners[l := w.listeners[l].(finished := true)])
  }

  /** A listener relays one datagram; one being aborted may still be at it. */
  ghost predicate Relays(w: World, l: ListenerId, w': World) {
    l < |w.listeners| && w' == w.(replies := w.replies + [Reply(w.listeners[l].socket, w.listeners[l].client)])
  }

  ghost predicate Stops(w: World, w': World) {
    w.phase.Ready? && w' == w.(phase := Draining)
  }

  ghost predicate Drains(w: World, now: Time, w': World) {
    w.phase.Draining? && w.clock <= now && w' == Drain(w, now)
  }

  ghost predicate Step(w: World, variant: Variant, w': World) {
    || (exists from, now :: Receives(w, from, now, w'))
    || (exists from, now :: Rejects(w, variant, from, now, w'))
    || (exists ok, now :: Sends(w, variant, ok, now, w'))
    || (exists now :: Stores(w, now, w'))
    || (exists now :: Evicts(w, now, w'))
    || (exists l :: Exits(w, l, w'))
    || (exists l :: Relays(w, l, w'))
    || Stops(w, w')
    || (exists now :: Drains(w, now, w'))
  }

  const BEGIN: World := World(map[], [], [], Ready, 0, [])

  ghost predicate StepAt(run: seq<World>, variant: Variant, i: nat) {
    i + 1 < |run| && Step(run[i], variant, run[i + 1])
  }

  ghost predicate IsRun(run: seq<World>, variant: Variant) {
    && |run| > 0 && run[0] == BEGIN
    && forall i: nat {:trigger StepAt(run, variant, i)} :: i + 1 < |run| ==> StepAt(run, variant, i)
  }
}

/** What each step of the session table keeps, and what makes a listener an orphan. */
module UdpSteps {
  import opened Common
  import opened UdpModel

  /** Sockets, sessions and listeners agree about clients, and no socket has two unfinished listeners. */
  ghost predicate Consistent(w: World) {
    && (forall a :: a in w.sessions ==>
          && w.sessions[a].socket < |w.owner| && w.owner[w.sessions[a].socket] == a
          && (w.sessions[a].listener.Some? ==>
                && w.sessions[a].listener.value < |w.listeners|
                && w.listeners[w.sessions[a].listener.value].socket == w.sessions[a].socket))
    && (forall l :: 0 <= l < |w.listeners| ==>
          w.listeners[l].socket < |w.owner| && w.listeners[l].client == w.owner[w.listeners[l].socket])
    && (forall r :: r in w.replies ==> r.socket < |w.owner| && r.client == w.owner[r.socket])
  }

  ghost predicate Running(w: World, l: ListenerId) {
    l < |w.listeners| && !w.listeners[l].finished
  }

  ghost predicate OneListenerPerSocket(w: World) {
    forall l: ListenerId, m: ListenerId :: Running(w, l) && Running(w, m) && w.listeners[l].socket == w.listeners[m].socket ==> l == m
  }

  /** An unfinished listener on a session's socket is the one in the table, or about to be put there. */
  ghost predicate Tracked(w: World) {
    forall l: ListenerId, a :: Running(w, l) && a in w.sessions && w.sessions[a].socket == w.listeners[l].socket ==>
      w.sessions[a].listener == Some(l) || (w.phase.Storing? && w.phase.listener == l)
  }

  /** What the receive loop remembers across its awaits is still right. */
  ghost predicate LoopConsistent(w: World) {
    match w.phase
    case Sending(from, socket, need, since) =>
      && socket < |w.owner| && w.owner[socket] == from
      && (from in w.sessions ==> w.sessions[from].socket == socket)
      && (need ==> forall l: ListenerId :: Running(w, l) ==> w.listeners[l].socket != socket)
    case Storing(from, l, since) =>
      && l < |w.listeners| && w.listeners[l].socket < |w.owner| && w.owner[w.listeners[l].socket] == from
      && (from in w.sessions ==> w.sessions[from].socket == w.listeners[l].socket)
      && (forall m: ListenerId :: Running(w, m) && w.listeners[m].socket == w.listeners[l].socket ==> m == l)
    case _ => true
  }

  ghost predicate Good(w: World) {
    Consistent(w) && OneListenerPerSocket(w) && Tracked(w) && LoopConsistent(w)
  }

  /** A receive changes the sender's session only, and listeners not at all. */
  lemma {:induction false} TouchesOnlySender(w: World, from: Addr, now: Time, w': World)
    requires Consistent(w) && Receives(w, from, now, w')
    ensures w'.listeners == w.listeners && w.owner <= w'.owner && w'.replies == w.replies
    ensures from in w'.sessions && forall a :: a in w'.sessions && a != from ==> a in w.sessions && w'.sessions[a] == w.sessions[a]
    ensures from in w.sessions ==>
      w'.owner == w.owner && w'.sessions[from].(lastActive := 0) == w.sessions[from].(lastActive := 0)
    ensures from !in w.sessions ==> w'.sessions[from].socket == |w.owner| && w'.sessions[from].listener.None? && w'.owner == w.owner + [from]
  {
  }

  lemma {:induction false} ReceivesConsistent(w: World, from: Addr, now: Time, w': World)
    requires Consistent(w) && Receives(w, from, now, w')
    ensures Consistent(w')
  {
    TouchesOnlySender(w, from, now, w');
  }

  lemma {:induction false} ReceivesTracks(w: World, from: Addr, now: Time, w': World)
    requires Good(w) && Receives(w, from, now, w')
    ensures OneListenerPerSocket(w') && Tracked(w')
  {
    TouchesOnlySender(w, from, now, w');
    forall l: ListenerId ensures Running(w', l) <==> Running(w, l) {}
  }

  lemma {:induction false} ReceivesRemembers(w: World, from: Addr, now: Time, w': World)
    requires Good(w) && Receives(w, from, now, w')
    ensures LoopConsistent(w')
  {
    TouchesOnlySender(w, from, now, w');
    forall l: ListenerId ensures Running(w', l) <==> Running(w, l) {}
  }

  lemma {:induction false} ReceivesKeeps(w: World, from: Addr, now: Time, w': World)
    requires Good(w) && Receives(w, from, now, w')
    ensures Good(w') && w.owner <= w'.owner
  {
    ReceivesConsistent(w, from, now, w');
    ReceivesTracks(w, from, now, w');
    ReceivesRemembers(w, from, now, w');
  }

  lemma {:induction false} SendsKeeps(w: World, variant: Variant, ok: bool, now: Time, w': World)
    requires Good(w) && Sends(w, variant, ok, now, w')
    ensures Good(w') && w.owner <= w'.owner
  {
    forall l: ListenerId | Running(w', l) && l < |w.listeners| ensures Running(w, l) && w'.listeners[l] == w.listeners[l] {}
  }

  lemma {:induction false} StoresKeeps(w: World, now: Time, w': World)
    requires Good(w) && Stores(w, now, w')
    ensures Good(w') && w.owner <= w'.owner
  {
    forall l: ListenerId | Running(w', l) ensures Running(w, l) {}
  }

  lemma {:induction false} ShrinkKeeps(w: World, w': World)
    requires Good(w) && w'.owner == w.owner && w'.replies == w.replies
    requires w'.phase == w.phase || w'.phase.Stopped? || w'.phase.Draining?
    requires w.phase == w'.phase || w.phase.Draining? || w.phase.Ready?
    requires w'.sessions.Keys <= w.sessions.Keys && forall a :: a in w'.sessions ==> w'.sessions[a] == w.sessions[a]
    requires |w'.listeners| == |w.listeners|
    requires forall l :: 0 <= l < |w.listeners| ==>
      w'.listeners[l].(finished := w.listeners[l].finished) == w.listeners[l] && (w.listeners[l].finished ==> w'.listeners[l].finished)
    ensures Good(w')
  {
    forall l: ListenerId | Running(w', l) ensures Running(w, l) && w'.listeners[l].socket == w.listeners[l].socket {}
  }

  lemma {:induction false} EvictsKeeps(w: World, now: Time, w': World)
    requires Good(w) && Evicts(w, now, w')
    ensures Good(w')
  {
    ShrinkKeeps(w, w');
  }

  lemma {:induction false} RelaysKeeps(w: World, l: ListenerId, w': World)
    requires Good(w) && Relays(w, l, w')
    ensures Good(w') && w.owner <= w'.owner
  {
    forall m: ListenerId | Running(w', m) ensures Running(w, m) {}
  }

  lemma {:induction false} StepKeeps(w: World, variant: Variant, w': World)
    requires Good(w) && Step(w, variant, w')
    ensures Good(w') && w.owner <= w'.owner && w.replies <= w'.replies
  {
    if from, now: Time :| Receives(w, from, now, w') { ReceivesKeeps(w, from, now, w'); }
    else if ok, now: Time :| Sends(w, variant, ok, now, w') { SendsKeeps(w, variant, ok, now, w'); }
    else if now: Time :| Stores(w, now, w') { StoresKeeps(w, now, w'); }
    else if now: Time :| Evicts(w, now, w') { EvictsKeeps(w, now, w'); }
    else if l: ListenerId :| Exits(w, l, w') { ShrinkKeeps(w, w'); }
    else if l: ListenerId :| Relays(w, l, w') { RelaysKeeps(w, l, w'); }
    else { ShrinkKeeps(w, w'); }
  }

  lemma {:induction false} RunGood(run: seq<World>, variant: Variant, i: nat)
    requires IsRun(run, variant) && i < |run|
    ensures Good(run[i])
  {
    if i > 0 {
      RunGood(run, variant, i - 1);
      assert StepAt(run, variant, i - 1);
      StepKeeps(run[i - 1], variant, run[i]);
    }
  }

  // ── Every unfinished listener can be stopped ────────────────────────────────

  /** The current send, and the storing after it, have taken less than the session time-out. */
  ghost predicate Prompt(w: World) {
    (w.phase.Sending? || w.phase.Storing?) ==> Since(w.clock, w.phase.since) < SESSION_TTL
  }

  ghost predicate InTable(w: World, l: ListenerId) {
    exists a :: a in w.sessions && w.sessions[a].listener == Some(l)
  }

  ghost predicate Reachable(w: World) {
    && (forall l: ListenerId :: Running(w, l) ==> InTable(w, l) || (w.phase.Storing? && w.phase.listener == l))
    && (w.phase.Sending? || w.phase.Storing? ==>
          w.phase.from in w.sessions && w.sessions[w.phase.from].lastActive == w.phase.since && w.phase.since <= w.clock)
    && (w.phase.Sending? && w.phase.need ==> NeedsListener(w, w.sessions[w.phase.from]))
    && (w.phase.Storing? ==> NeedsListener(w, w.sessions[w.phase.from]))
    && (w.phase.Stopped? ==> forall l: ListenerId :: !Running(w, l))
  }

  lemma {:induction false} Resurvives(w: World, w': World, l: ListenerId, a: Addr)
    requires a in w'.sessions && w'.sessions[a].listener == Some(l)
    ensures InTable(w', l)
  {
  }

  lemma {:induction false} ReceivesReachable(w: World, from: Addr, now: Time, w': World)
    requires Good(w) && Reachable(w) && Receives(w, from, now, w')
    ensures Reachable(w')
  {
    forall l: ListenerId | Running(w', l) ensures InTable(w', l) {
      assert Running(w, l);
      var a :| a in w.sessions && w.sessions[a].listener == Some(l);
      Resurvives(w, w', l, a);
    }
  }

  lemma {:induction false} SendsReachable(w: World, variant: Variant, ok: bool, now: Time, w': World)
    requires Good(w) && Reachable(w) && Sends(w, variant, ok, now, w')
    ensures Reachable(w')
  {
    forall l: ListenerId | Running(w', l) && l < |w.listeners| ensures InTable(w', l) {
      assert Running(w, l);
      var a :| a in w.sessions && w.sessions[a].listener == Some(l);
      Resurvives(w, w', l, a);
    }
  }

  /** Storing keeps every listener reachable exactly when the session is still in the table. */
  lemma {:induction false} StoresReachable(w: World, now: Time, w': World)
    requires Good(w) && Reachable(w) && Stores(w, now, w')
    ensures Reachable(w')
  {
    var from, id := w.phase.from, w.phase.listener;
    Resurvives(w, w', id, from);
    forall l: ListenerId | Running(w', l) && l != id ensures InTable(w', l) {
      assert Running(w, l);
      var a :| a in w.sessions && w.sessions[a].listener == Some(l);
      assert a != from;
      Resurvives(w, w', l, a);
    }
  }

  lemma {:induction false} EvictsReachable(w: World, now: Time, w': World)
    requires Good(w) && Reachable(w) && Evicts(w, now, w') && Prompt(w')
    ensures Reachable(w')
  {
    if w.phase.Sending? || w.phase.Storing? {
      assert !Stale(w.sessions[w.phase.from], now);
      assert w'.sessions[w.phase.from] == w.sessions[w.phase.from];
    }
    forall l: ListenerId ensures Running(w', l) ==> Running(w, l) {}
    forall l: ListenerId | Running(w', l) && !(w.phase.Storing? && w.phase.listener == l) ensures InTable(w', l) {
      assert Running(w, l) && !Lists(StaleSessions(w.sessions, now), l);
      var a :| a in w.sessions && w.sessions[a].listener == Some(l);
      assert a !in StaleSessions(w.sessions, now);
      Resurvives(w, w', l, a);
    }
  }

  lemma {:induction false} ExitsReachable(w: World, l: ListenerId, w': World)
    requires Good(w) && Reachable(w) && Exits(w, l, w')
    ensures Reachable(w')
  {
    forall m: ListenerId | Running(w', m) && !(w.phase.Storing? && w.phase.listener == m) ensures InTable(w', m) {
      assert Running(w, m);
      var a :| a in w.sessions && w.sessions[a].listener == Some(m);
      Resurvives(w, w', m, a);
    }
    forall m: ListenerId | Running(w', m) ensures Running(w, m) {}
  }

  lemma {:induction false} DrainsReachable(w: World, now: Time, w': World)
    requires Good(w) && Reachable(w) && Drains(w, now, w')
    ensures Reachable(w')
  {
    forall l: ListenerId | Running(w, l) ensures Lists(w.sessions, l) {
      assert InTable(w, l);
    }
    forall l: ListenerId ensures Running(w', l) ==> Running(w, l) {}
  }

  lemma {:induction false} SameTableReachable(w: World, w': World)
    requires Reachable(w) && w'.sessions == w.sessions && w'.listeners == w.listeners && w.clock <= w'.clock
    requires w'.phase == w.phase || (w.phase.Ready? && w'.phase.Draining?)
    ensures Reachable(w')
  {
    forall l: ListenerId | Running(w', l) ensures InTable(w', l) || (w'.phase.Storing? && w'.phase.listener == l) {
      assert Running(w, l);
      if a :| a in w.sessions && w.sessions[a].listener == Some(l) { Resurvives(w, w', l, a); }
    }
    forall l: ListenerId | Running(w', l) ensures Running(w, l) {}
  }

  lemma {:induction false} StepReachable(w: World, variant: Variant, w': World)
    requires Good(w) && Reachable(w) && Step(w, variant, w') && Prompt(w')
    ensures Reachable(w')
  {
    if from, now: Time :| Receives(w, from, now, w') { ReceivesReachable(w, from, now, w'); }
    else if ok, now: Time :| Sends(w, variant, ok, now, w') { SendsReachable(w, variant, ok, now, w'); }
    else if now: Time :| Stores(w, now, w') { StoresReachable(w, now, w'); }
    else if now: Time :| Evicts(w, now, w') { EvictsReachable(w, now, w'); }
    else if l: ListenerId :| Exits(w, l, w') { ExitsReachable(w, l, w'); }
    else if now: Time :| Drains(w, now, w') { DrainsReachable(w, now, w'); }
    else { SameTableReachable(w, w'); }
  }

  // ── Exactly which listeners survive the stop ────────────────────────────────

  /** Unfinished, but neither in the table nor about to be put there. */
  ghost predicate Orphan(w: World, l: ListenerId) {
    Running(w, l) && !InTable(w, l) && !(w.phase.Storing? && w.phase.listener == l)
  }

  /** The storing step of a running listener whose session is gone. */
  ghost predicate Loses(w: World, l: ListenerId, w': World) {
    && w.phase.Storing? && w.phase.listener == l && Running(w, l) && w.phase.from !in w.sessions
    && exists now :: Stores(w, now, w')
  }

  lemma {:induction false} ReceivesKeepsTable(w: World, from: Addr, now: Time, w': World, l: ListenerId)
    requires Receives(w, from, now, w')
    ensures InTable(w, l) <==> InTable(w', l)
  {
    if a :| a in w.sessions && w.sessions[a].listener == Some(l) { assert w'.sessions[a].listener == Some(l); }
    if a :| a in w'.sessions && w'.sessions[a].listener == Some(l) { assert w.sessions[a].listener == Some(l); }
  }

  lemma {:induction false} SendsNoOrphan(w: World, variant: Variant, ok: bool, now: Time, w': World, l: ListenerId)
    requires Sends(w, variant, ok, now, w')
    ensures Orphan(w', l) <==> Orphan(w, l)
  {
    assert InTable(w, l) <==> InTable(w', l);
    assert l < |w.listeners| ==> w'.listeners[l] == w.listeners[l];
  }

  /** Storing makes an orphan of the listener it loses, and of no other. */
  lemma {:induction false} StoresOrphan(w: World, now: Time, w': World, l: ListenerId)
    requires Good(w) && Stores(w, now, w')
    ensures Orphan(w', l) <==> Orphan(w, l) || Loses(w, l, w')
  {
    var from, id := w.phase.from, w.phase.listener;
    if from in w.sessions { Resurvives(w, w', id, from); }
    if a :| a in w.sessions && w.sessions[a].listener == Some(l) {
      if a != from { Resurvives(w, w', l, a); }
    }
    if a :| a in w'.sessions && w'.sessions[a].listener == Some(l) {
      if a != from { assert w.sessions[a].listener == Some(l); }
    }
  }

  lemma {:induction false} EvictsOrphan(w: World, now: Time, w': World, l: ListenerId)
    requires Evicts(w, now, w')
    ensures Orphan(w', l) <==> Orphan(w, l)
  {
    var gone := StaleSessions(w.sessions, now);
    if a :| a in w.sessions && w.sessions[a].listener == Some(l) {
      if a in gone { assert Lists(gone, l); } else { Resurvives(w, w', l, a); }
    }
    if a :| a in w'.sessions && w'.sessions[a].listener == Some(l) { assert w.sessions[a].listener == Some(l); }
    if Lists(gone, l) {
      var a :| a in gone && gone[a].listener == Some(l);
      assert w.sessions[a].listener == Some(l);
    }
  }

  lemma {:induction false} ExitsOrphan(w: World, m: ListenerId, w': World, l: ListenerId)
    requires Exits(w, m, w')
    ensures Orphan(w', l) <==> Orphan(w, l) && m != l
  {
    assert InTable(w, l) <==> InTable(w', l);
  }

  lemma {:induction false} RunStep(run: seq<World>, variant: Variant, i: nat)
    requires IsRun(run, variant) && i + 1 < |run|
    ensures Good(run[i]) && Step(run[i], variant, run[i + 1])
  {
    RunGood(run, variant, i);
    assert StepAt(run, variant, i);
  }

  ghost predicate ExitsAt(run: seq<World>, l: ListenerId, k: nat) {
    k + 1 < |run| && Exits(run[k], l, run[k + 1])
  }

  /** No exit of `l` from state i to state e. */
  ghost predicate Left(run: seq<World>, l: ListenerId, i: nat, e: nat) {
    e < |run| && forall k: nat {:trigger ExitsAt(run, l, k)} :: i <= k < e ==> !ExitsAt(run, l, k)
  }

  /** The listener was lost at step i and has not ended by itself up to state e. */
  ghost predicate LostAndLeft(run: seq<World>, l: ListenerId, i: nat, e: nat) {
    i < e < |run| && Loses(run[i], l, run[i + 1]) && Left(run, l, i + 1, e)
  }

  lemma {:induction false} LeftOnce(run: seq<World>, l: ListenerId, i: nat, e: nat)
    requires e + 1 < |run| && LostAndLeft(run, l, i, e) && !ExitsAt(run, l, e)
    ensures LostAndLeft(run, l, i, e + 1)
  {
  }

  lemma {:induction false} StoppedIsEmpty(run: seq<World>, variant: Variant, e: nat)
    requires IsRun(run, variant) && e < |run| && run[e].phase.Stopped?
    ensures run[e].sessions == map[]
    decreases e
  {
    if e > 0 {
      RunStep(run, variant, e - 1);
      if run[e - 1].phase.Stopped? { StoppedIsEmpty(run, variant, e - 1); }
      StaysEmpty(run[e - 1], variant, run[e]);
    }
  }

  lemma {:induction false} StaysEmpty(w: World, variant: Variant, w': World)
    requires Step(w, variant, w') && w'.phase.Stopped? && (w.phase.Stopped? ==> w.sessions == map[])
    ensures w'.sessions == map[]
  {
    if now: Time :| Evicts(w, now, w') {
    } else if now: Time :| Drains(w, now, w') {
    } else {
      assert w'.sessions == w.sessions && w.phase.Stopped?;
    }
  }

  function SlowRun(from: Addr): seq<World> {
    var lost := [Listener(0, from, false)];
    [ BEGIN,
      World(map[from := Session(0, 0, None)], [], [from], Sending(from, 0, true, 0), 0, []),
      World(map[], [], [from], Sending(from, 0, true, 0), 30_000, []),
      World(map[], lost, [from], Storing(from, 0, 0), 30_000, []),
      World(map[], lost, [from], Ready, 30_000, []),
      World(map[], lost, [from], Draining, 30_000, []),
      World(map[], lost, [from], Stopped, 30_000, []) ]
  }

  function SlowStoreRun(from: Addr): seq<World> {
    var lost := [Listener(0, from, false)];
    var open := map[from := Session(0, 0, None)];
    [ BEGIN,
      World(open, [], [from], Sending(from, 0, true, 0), 0, []),
      World(open, lost, [from], Storing(from, 0, 0), 29_999, []),
      World(map[], lost, [from], Storing(from, 0, 0), 30_000, []),
      World(map[], lost, [from], Ready, 30_000, []),
      World(map[], lost, [from], Draining, 30_000, []),
      World(map[], lost, [from], Stopped, 30_000, []) ]
  }
}
