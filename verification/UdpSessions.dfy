/** The session table itself, changed in place by the sections that hold its lock. */
module UdpSessions {
  import opened Common
  import opened UdpModel
  import opened UdpSteps
  import opened UdpProofs
  import opened UdpLaws

  class UdpForwarder {
    var sessions: map<Addr, Session>
    var listeners: seq<Listener>
    var owner: seq<Addr>
    var clock: Time
    ghost var phase: Phase
    ghost var replies: seq<Reply>

    ghost function Snapshot(): World
      reads this
    {
      World(sessions, listeners, owner, phase, clock, replies)
    }

    constructor ()
      ensures Snapshot() == BEGIN
    {
      sessions, listeners, owner, clock := map[], [], [], 0;
      phase, replies := Ready, [];
    }

    /**
     A datagram from a client: find or open its session, mark it active, see if it needs a
     listener. `opens` is the answer to opening a socket; on a new one only remote-udp can be refused.
     */
    method ReceiveFrom(variant: Variant, from: Addr, opens: bool, now: Time) returns (taken: Option<(SocketId, bool)>)
      requires Good(Snapshot()) && phase.Ready? && clock <= now && (variant.Local? ==> opens)
      modifies this
      ensures Good(Snapshot())
      ensures taken.Some? <==> opens || from in old(sessions)
      ensures taken.Some? ==> Snapshot() == Receive(old(Snapshot()), from, now) && phase == Sending(from, taken.value.0, taken.value.1, now)
      ensures taken.Some? ==> from in sessions && sessions[from].socket == taken.value.0 && sessions[from].lastActive == now
      ensures taken.Some? ==> (taken.value.1 <==> forall l: ListenerId :: Running(Snapshot(), l) ==> listeners[l].socket != taken.value.0)
      ensures taken.None? ==> Rejects(old(Snapshot()), variant, from, now, Snapshot())
    {
      ghost var w := Snapshot();
      if from !in sessions {
        if !opens {
          clock := now;
          ShrinkKeeps(w, Snapshot());
          return None;
        }
        sessions := sessions[from := Session(|owner|, now, None)];
        owner := owner + [from];
      } else {
        sessions := sessions[from := sessions[from].(lastActive := now)];
      }
      var session := sessions[from];
      var need := session.listener.None? || listeners[session.listener.value].finished;
      phase, clock := Sending(from, session.socket, need, now), now;
      assert Receives(w, from, now, Snapshot());
      ReceivesKeeps(w, from, now, Snapshot());
      ReceiveBegins(w, from, now, Snapshot());
      return Some((session.socket, need));
    }

    /** The send has ended; spawn the listener if one is needed (a failed local send gives up first). */
    method SendEnded(variant: Variant, from: Addr, socket: SocketId, need: bool, ok: bool, now: Time)
      returns (spawned: Option<ListenerId>)
      requires Good(Snapshot()) && phase.Sending? && clock <= now
      requires phase.from == from && phase.socket == socket && phase.need == need
      modifies this
      ensures Snapshot() == FinishSend(old(Snapshot()), variant, ok, now) && Good(Snapshot())
      ensures spawned.Some? <==> need && (ok || variant.Remote?)
      ensures spawned.Some? ==> spawned.value == |old(listeners)| && listeners == old(listeners) + [Listener(socket, from, false)]
      ensures spawned.None? ==> listeners == old(listeners) && phase.Ready?
      ensures spawned.Some? ==> phase.Storing? && phase.from == from && phase.listener == spawned.value
    {
      ghost var w := Snapshot();
      clock := now;
      if (variant.Local? && !ok) || !need {
        spawned := None;
        phase := Ready;
      } else {
        spawned := Some(|listeners|);
        listeners := listeners + [Listener(socket, from, false)];
        phase := Storing(from, spawned.value, phase.since);
      }
      assert Sends(w, variant, ok, now, Snapshot());
      SendsKeeps(w, variant, ok, now, Snapshot());
    }

    /** Put the spawned listener into its session, if that is still there. */
    method StoreHandle(from: Addr, handle: ListenerId, now: Time)
      requires Good(Snapshot()) && phase.Storing? && phase.from == from && phase.listener == handle && clock <= now
      modifies this
      ensures Snapshot() == StoreListener(old(Snapshot()), now) && Good(Snapshot())
    {
      ghost var w := Snapshot();
      if from in sessions {
        sessions := sessions[from := sessions[from].(listener := Some(handle))];
      }
      phase, clock := Ready, now;
      assert Stores(w, now, Snapshot());
      StoresKeeps(w, now, Snapshot());
    }

    /** Remove the given sessions one by one, aborting the listener of each. */
    method RemoveAll(keys: set<Addr>, ghost dropped: map<Addr, Session>)
      requires keys <= sessions.Keys && dropped.Keys == keys && forall a :: a in dropped ==> dropped[a] == sessions[a]
      requires forall a :: a in sessions && sessions[a].listener.Some? ==> sessions[a].listener.value < |listeners|
      modifies this`sessions, this`listeners
      ensures sessions == old(sessions) - keys
      ensures listeners == Aborted(old(listeners), dropped)
    {
      var left := keys;
      ghost var gone: map<Addr, Session> := map[];
      ghost var all, before := sessions, listeners;
      assert Aborted(before, gone) == before;
      while left != {}
        invariant left <= keys && gone.Keys == keys - left
        invariant forall a :: a in gone ==> gone[a] == all[a]
        invariant sessions == all - gone.Keys
        invariant listeners == Aborted(before, gone)
        decreases left
      {
        var addr :| addr in left;
        var session := sessions[addr];
        sessions := sessions - {addr};
        if session.listener.Some? {
          var handle := session.listener.value;
          listeners := listeners[handle := listeners[handle].(finished := true)];
        }
        AbortOne(before, gone, addr, session);
        gone := gone[addr := session];
        left := left - {addr};
      }
      assert gone == dropped;
    }

    /** The timer tick: collect the stale keys, then remove them. */
    method EvictStale(now: Time)
      requires Good(Snapshot()) && clock <= now
      modifies this`sessions, this`listeners, this`clock
      ensures Snapshot() == Evict(old(Snapshot()), now) && Good(Snapshot())
    {
      ghost var w := Snapshot();
      var stale := set a | a in sessions && Since(now, sessions[a].lastActive) / 1000 >= SESSION_TTL / 1000;
      ghost var gone := StaleSessions(w.sessions, now);
      assert gone.Keys == stale;
      RemoveAll(stale, gone);
      clock := now;
      assert Snapshot() == Evict(w, now);
      EvictsKeeps(w, now, Snapshot());
    }

    /** Stop: abort every session's listener and empty the table. */
    method AbortAllSessions(now: Time)
      requires Good(Snapshot()) && phase.Draining? && clock <= now
      modifies this
      ensures Snapshot() == Drain(old(Snapshot()), now) && Good(Snapshot())
    {
      ghost var w := Snapshot();
      RemoveAll(sessions.Keys, sessions);
      phase, clock := Stopped, now;
      assert sessions == map[];
      ShrinkKeeps(w, Snapshot());
    }
  }

  lemma {:induction false} AbortOne(before: seq<Listener>, gone: map<Addr, Session>, addr: Addr, session: Session)
    requires addr !in gone && (session.listener.Some? ==> session.listener.value < |before|)
    ensures var now := Aborted(before, gone); var h := session.listener;
      Aborted(before, gone[addr := session]) == if h.Some? then now[h.value := now[h.value].(finished := true)] else now
  {
    var more := gone[addr := session];
    forall i: nat ensures Lists(more, i) <==> Lists(gone, i) || session.listener == Some(i) {
      if a :| a in gone && gone[a].listener == Some(i) { assert more[a] == gone[a]; }
      if session.listener == Some(i) { assert more[addr].listener == Some(i); }
    }
  }
}
