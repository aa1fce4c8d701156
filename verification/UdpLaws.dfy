/** What becomes of one datagram: whether a listener is needed, spawned and stored, and what a tick evicts. */
module UdpLaws {
  import opened Common
  import opened UdpModel
  import opened UdpSteps
  import opened UdpProofs

  /** The client's session has an unfinished listener on its own socket, relaying to that client. */
  ghost predicate Served(w: World, from: Addr) {
    exists l: ListenerId :: ServedBy(w, from, l)
  }

  ghost predicate ServedBy(w: World, from: Addr, l: ListenerId) {
    && from in w.sessions && w.sessions[from].listener == Some(l) && l < |w.listeners|
    && w.listeners[l] == Listener(w.sessions[from].socket, from, false)
  }

  /** No listener on this socket is unfinished. */
  ghost predicate Deaf(w: World, socket: SocketId) {
    forall l: ListenerId :: Running(w, l) ==> w.listeners[l].socket != socket
  }

  /** A listener is needed exactly when the session's socket has no unfinished one. */
  lemma {:induction false} ReceiveBegins(w: World, from: Addr, now: Time, w': World)
    requires Good(w) && Receives(w, from, now, w')
    ensures w'.phase.Sending? && w'.phase.from == from && from in w'.sessions
    ensures w'.sessions[from].socket == w'.phase.socket && w'.sessions[from].lastActive == now
    ensures w'.phase.need <==> Deaf(w', w'.phase.socket)
    ensures InProgress(w', from)
  {
    ReceivesKeeps(w, from, now, w');
    var s := w'.sessions[from];
    if s.listener.Some? && !w'.listeners[s.listener.value].finished {
      assert Running(w', s.listener.value);
      assert ServedBy(w', from, s.listener.value);
    }
  }

  /** A client's session is reused, as active now; only a new client gets a new socket, which is its own. */
  lemma {:induction false} ReceiveReuses(w: World, from: Addr, now: Time, w': World)
    requires Receives(w, from, now, w')
    ensures from in w.sessions ==> w'.sessions[from] == w.sessions[from].(lastActive := now) && w'.owner == w.owner
    ensures from !in w.sessions ==> w'.sessions[from] == Session(|w.owner|, now, None) && w'.owner == w.owner + [from]
    ensures forall a :: a != from ==> (a in w'.sessions <==> a in w.sessions) && (a in w.sessions ==> w'.sessions[a] == w.sessions[a])
    ensures w'.listeners == w.listeners && w'.replies == w.replies
  {
  }

  /** Storing changes no session but the client's, and that one in its listener only. */
  lemma {:induction false} StoreTouchesOnly(w: World, now: Time, w': World, a: Addr)
    requires Stores(w, now, w')
    ensures a in w'.sessions <==> a in w.sessions
    ensures a in w.sessions && a != w.phase.from ==> w'.sessions[a] == w.sessions[a]
    ensures a in w.sessions && a == w.phase.from ==> w'.sessions[a] == w.sessions[a].(listener := Some(w.phase.listener))
    ensures w'.listeners == w.listeners && w'.owner == w.owner && w'.phase == Ready
  {
  }

  /** The datagram of this client is on its way, and nothing its reply needs has been lost. */
  ghost predicate InProgress(w: World, from: Addr) {
    && from in w.sessions
    && match w.phase
       case Sending(f, socket, need, since) => f == from && socket == w.sessions[from].socket && (need || Served(w, from))
       case Storing(f, l, since) => f == from && l < |w.listeners| && w.listeners[l] == Listener(w.sessions[from].socket, from, false)
       case _ => false
  }

  /** The send ends: a listener is spawned exactly when one is needed and the send succeeded or is remote-udp's. */
  lemma {:induction false} SendSpawnsExactly(w: World, variant: Variant, ok: bool, now: Time, w': World)
    requires Sends(w, variant, ok, now, w')
    ensures w.phase.need && (ok || variant.Remote?) ==>
      && w'.listeners == w.listeners + [Listener(w.phase.socket, w.phase.from, false)]
      && w'.phase.Storing? && w'.phase.from == w.phase.from && w'.phase.listener == |w.listeners|
    ensures !(w.phase.need && (ok || variant.Remote?)) ==> w'.listeners == w.listeners && w'.phase.Ready?
    ensures w'.sessions == w.sessions && w'.owner == w.owner && w'.replies == w.replies
  {
  }

  /** local-udp gives up on a client that needs a listener, because the send failed. */
  ghost predicate GivesUp(w: World, variant: Variant, w': World) {
    variant.Local? && w.phase.Sending? && w.phase.need && exists now :: Sends(w, variant, false, now, w')
  }

  /** A listener of the client ends by itself at this step. */
  ghost predicate LosesListener(w: World, from: Addr, w': World) {
    exists l: ListenerId :: Running(w, l) && w.listeners[l].client == from && Exits(w, l, w')
  }

  ghost predicate Through(w: World, variant: Variant, from: Addr, w': World) {
    InProgress(w', from) || (w'.phase.Ready? && (Served(w', from) || GivesUp(w, variant, w')))
  }

  lemma {:induction false} SendGoesOn(w: World, variant: Variant, ok: bool, now: Time, from: Addr, w': World)
    requires Good(w) && InProgress(w, from) && Sends(w, variant, ok, now, w')
    ensures Through(w, variant, from, w')
  {
    SendSpawnsExactly(w, variant, ok, now, w');
    if !w.phase.need {
      var l: ListenerId :| ServedBy(w, from, l);
      assert ServedBy(w', from, l);
    } else if variant.Local? && !ok {
      assert Sends(w, variant, false, now, w');
    }
  }

  lemma {:induction false} StoreGoesOn(w: World, now: Time, variant: Variant, from: Addr, w': World)
    requires InProgress(w, from) && Stores(w, now, w')
    ensures Through(w, variant, from, w')
  {
    assert ServedBy(w', from, w.phase.listener);
  }

  /** Who listens on the client's socket is aborted only with the client's own session. */
  lemma {:induction false} EvictSpares(w: World, now: Time, from: Addr, w': World, l: ListenerId)
    requires Good(w) && Evicts(w, now, w') && from in w.sessions && from in w'.sessions
    requires l < |w.listeners| && w.listeners[l] == Listener(w.sessions[from].socket, from, false)
    ensures w'.sessions[from] == w.sessions[from] && w'.listeners[l] == w.listeners[l]
  {
    forall a | a in w.sessions && w.sessions[a].listener == Some(l) ensures w.owner[w.sessions[a].socket] == a && a == from {}
  }

  lemma {:induction false} EvictGoesOn(w: World, now: Time, variant: Variant, from: Addr, w': World)
    requires Good(w) && InProgress(w, from) && Evicts(w, now, w') && from in w'.sessions
    ensures Through(w, variant, from, w')
  {
    assert w'.sessions[from] == w.sessions[from];
    if w.phase.Storing? {
      EvictSpares(w, now, from, w', w.phase.listener);
    } else if l: ListenerId :| ServedBy(w, from, l) {
      EvictSpares(w, now, from, w', l);
      assert ServedBy(w', from, l);
    }
  }

  lemma {:induction false} ExitGoesOn(w: World, m: ListenerId, variant: Variant, from: Addr, w': World)
    requires InProgress(w, from) && Exits(w, m, w') && !LosesListener(w, from, w')
    ensures Through(w, variant, from, w')
  {
    if w.phase.Storing? {
      assert Running(w, w.phase.listener);
    } else if l: ListenerId :| ServedBy(w, from, l) {
      assert Running(w, l);
      assert ServedBy(w', from, l);
    }
  }

  /** Whatever any task does next, short of evicting the client or ending its listener. */
  lemma {:induction false} StepGoesOn(w: World, variant: Variant, from: Addr, w': World)
    requires Good(w) && InProgress(w, from) && Step(w, variant, w')
    requires from in w'.sessions && !LosesListener(w, from, w')
    ensures Through(w, variant, from, w')
  {
    if ok, now: Time :| Sends(w, variant, ok, now, w') { SendGoesOn(w, variant, ok, now, from, w'); }
    else if now: Time :| Stores(w, now, w') { StoreGoesOn(w, now, variant, from, w'); }
    else if now: Time :| Evicts(w, now, w') { EvictGoesOn(w, now, variant, from, w'); }
    else if m: ListenerId :| Exits(w, m, w') { ExitGoesOn(w, m, variant, from, w'); }
    else {
      assert w'.sessions == w.sessions && w'.listeners == w.listeners && w'.phase == w.phase;
      if l: ListenerId :| ServedBy(w, from, l) { assert ServedBy(w', from, l); }
    }
  }

  /** From state i to state j one datagram is handled, its client is not evicted and keeps its listeners. */
  ghost predicate Handles(run: seq<World>, from: Addr, i: nat, j: nat) {
    && i < j < |run|
    && (forall k :: i < k <= j ==> from in run[k].sessions)
    && (forall k :: i < k < j ==> run[k].phase.Sending? || run[k].phase.Storing?)
    && forall k: nat {:trigger LosesAt(run, from, k)} :: i < k < j ==> !LosesAt(run, from, k)
  }

  ghost predicate LosesAt(run: seq<World>, from: Addr, k: nat) {
    k + 1 < |run| && LosesListener(run[k], from, run[k + 1])
  }

  ghost predicate GivesUpAt(run: seq<World>, variant: Variant, k: nat) {
    k + 1 < |run| && GivesUp(run[k], variant, run[k + 1])
  }

  lemma {:induction false} HandledSoFar(run: seq<World>, variant: Variant, from: Addr, now: Time, i: nat, j: nat)
    requires IsRun(run, variant) && Handles(run, from, i, j) && Receives(run[i], from, now, run[i + 1])
    ensures InProgress(run[j], from) || (run[j].phase.Ready? && (Served(run[j], from) || exists k :: i < k < j && GivesUpAt(run, variant, k)))
    decreases j
  {
    if j == i + 1 {
      RunGood(run, variant, i);
      ReceiveBegins(run[i], from, now, run[i + 1]);
    } else {
      var k := j - 1;
      HandledSoFar(run, variant, from, now, i, k);
      RunGood(run, variant, k);
      assert StepAt(run, variant, k) && !LosesAt(run, from, k);
      StepGoesOn(run[k], variant, from, run[j]);
      if GivesUp(run[k], variant, run[j]) { assert GivesUpAt(run, variant, k); }
    }
  }

  /**
   In every run: once the loop is done with a client's datagram, the client's session has an
   unfinished listener on its own socket, unless its session was evicted or its listener ended
   meanwhile, or local-udp gave up on a failed send.
   */
  lemma {:induction false} RepliesAreHeard(run: seq<World>, variant: Variant, from: Addr, now: Time, i: nat, j: nat)
    requires IsRun(run, variant) && Handles(run, from, i, j) && Receives(run[i], from, now, run[i + 1]) && run[j].phase.Ready?
    ensures Served(run[j], from) || exists k :: i < k < j && GivesUpAt(run, variant, k)
    ensures variant.Remote? ==> Served(run[j], from)
  {
    HandledSoFar(run, variant, from, now, i, j);
  }

  /** A tick evicts exactly the sessions idle for 30 seconds, in milliseconds, and aborts exactly their listeners. */
  lemma {:induction false} EvictsExactly(w: World, now: Time, w': World, a: Addr, l: ListenerId)
    requires Evicts(w, now, w')
    ensures a in w'.sessions <==> a in w.sessions && now < w.sessions[a].lastActive + 30_000
    ensures a in w'.sessions ==> w'.sessions[a] == w.sessions[a]
    ensures |w'.listeners| == |w.listeners|
    ensures l < |w.listeners| ==> (Running(w', l) <==> (
      && Running(w, l)
      && !(exists b :: b in w.sessions && now >= w.sessions[b].lastActive + 30_000 && w.sessions[b].listener == Some(l))))
  {
    forall b | b in w.sessions ensures Stale(w.sessions[b], now) <==> now >= w.sessions[b].lastActive + 30_000 {
      WholeSeconds(Since(now, w.sessions[b].lastActive));
    }
    var gone := StaleSessions(w.sessions, now);
    if b :| b in w.sessions && now >= w.sessions[b].lastActive + 30_000 && w.sessions[b].listener == Some(l) {
      assert b in gone && gone[b].listener == Some(l);
    }
    if Lists(gone, l) {
      var b :| b in gone && gone[b].listener == Some(l);
      assert w.sessions[b].listener == Some(l);
    }
  }

  lemma {:induction false} WholeSeconds(idle: nat)
    ensures idle / 1000 >= 30_000 / 1000 <==> idle >= 30_000
  {
  }
}
