/** The shared netstack state itself, changed in place by the sections that hold its lock. */
module Netstack {
  import opened Common
  import opened Seqs
  import opened NetModel
  import opened NetProofs
  import opened NetTheorems
  import opened NetLoops

  class NetstackState {
    var sockets: Table
    var wakers: seq<Waker>
    var pendingConnects: seq<Pending>
    var listeners: seq<Listener>
    var closing: seq<Lingering>
    var closed: bool

    // Handles held by dialing tasks and by live stream, UDP and ping objects.
    ghost var dialing: set<Handle>
    ghost var granted: set<Handle>
    ghost var streams: set<Handle>
    ghost var udps: set<Handle>
    ghost var pings: set<Handle>
    // What has gone through each accept queue.
    ghost var entered: seq<seq<Handle>>
    ghost var accepted: seq<seq<Handle>>

    ghost function Snapshot(): Net
      reads this
    {
      Net(sockets, listeners, pendingConnects, closing, wakers, closed, dialing, granted, streams, udps, pings, entered, accepted)
    }

    ghost predicate Valid()
      reads this
    {
      Ownership(Snapshot()) && Queues(Snapshot())
    }

    constructor ()
      ensures Snapshot() == START && Valid()
    {
      sockets, wakers, pendingConnects, listeners, closing, closed := map[], [], [], [], [], false;
      dialing, granted, streams, udps, pings := {}, {}, {}, {}, {};
      entered, accepted := [], [];
      new;
    }

    /** `SocketSet::add`: the lowest free index, so a freed one is reused. */
    method AddSocket(s: Socket) returns (h: Handle)
      modifies this`sockets
      ensures h !in old(sockets) && forall k :: 0 <= k < h ==> k in old(sockets)
      ensures sockets == old(sockets)[h := s]
    {
      h := 0;
      ghost var rest := sockets.Keys;
      while h in sockets
        invariant forall k :: 0 <= k < h ==> k in sockets
        invariant forall k :: k in rest <==> k in sockets && k >= h
        decreases rest
      {
        rest := rest - {h};
        h := h + 1;
      }
      sockets := sockets[h := s];
    }

    // ── Dialing ───────────────────────────────────────────────────────────────

    /** dial_tcp: allocate the socket. */
    method DialAllocate() returns (h: Handle)
      requires Valid()
      modifies this
      ensures Valid() && DialOpens(old(Snapshot()), h, Snapshot())
    {
      ghost var n := Snapshot();
      h := AddSocket(Tcp(Closed, false));
      dialing := dialing + {h};
      DialOpensKeeps(n, h, Snapshot());
    }

    /** dial_tcp: queue the connect command, in a second locked section. */
    method DialQueue(h: Handle)
      requires Valid() && h in dialing
      modifies this
      ensures Valid() && DialQueues(old(Snapshot()), h, Snapshot())
    {
      ghost var n := Snapshot();
      pendingConnects := pendingConnects + [Pending(h, true)];
      dialing := dialing - {h};
      DialQueuesKeeps(n, h, Snapshot());
    }

    /** dial_tcp: the answer was positive, build the stream. */
    method DialBuild(h: Handle)
      requires Valid() && h in granted
      modifies this
      ensures Valid() && DialBuilds(old(Snapshot()), h, Snapshot())
    {
      ghost var n := Snapshot();
      granted, streams := granted - {h}, streams + {h};
      SimpleStepKeeps(n, h, Snapshot());
    }

    /** One command; `rest` is still to come. The lookup finds a live TCP socket. */
    method CarryOut(cmd: Pending, ok: bool, ghost rest: seq<Pending>)
      requires Ownership(Snapshot().(pending := [cmd] + rest))
      modifies this`sockets, this`granted
      ensures Connects(old(Snapshot()).(pending := [cmd] + rest), ok, Snapshot().(pending := rest))
      ensures Ownership(Snapshot().(pending := rest))
    {
      ghost var n := Snapshot().(pending := [cmd] + rest);
      PendingHolds(n, cmd.handle);
      assert n.pending[1..] == rest;
      if ok {
        sockets := sockets[cmd.handle := sockets[cmd.handle].(state := SynSent)];
        if cmd.waiting {
          granted := granted + {cmd.handle};
        }
      }
      ConnectsKeeps(n, ok, Snapshot().(pending := rest));
    }

    /** Take the whole queue and carry out every command. */
    method ProcessConnects(oks: seq<bool>) returns (ghost run: seq<Net>)
      requires Valid() && |oks| == |pendingConnects|
      modifies this
      ensures Valid() && pendingConnects == []
      ensures ConnectRun(run, oks) && run[0] == old(Snapshot()) && run[|oks|] == Snapshot()
    {
      var connects := pendingConnects;
      run := [Snapshot()];
      pendingConnects := [];
      assert connects[0..] == connects;
      for i := 0 to |connects|
        invariant pendingConnects == [] && ConnectRun(run, oks[..i]) && run[0] == old(Snapshot())
        invariant run[i] == Snapshot().(pending := connects[i..])
        invariant Ownership(run[i]) && Queues(Snapshot())
      {
        assert connects[i..] == [connects[i]] + connects[i + 1..];
        CarryOut(connects[i], oks[i], connects[i + 1..]);
        ghost var next := Snapshot().(pending := connects[i + 1..]);
        ConnectSnoc(run, oks[..i], oks[i], next);
        assert oks[..i + 1] == oks[..i] + [oks[i]];
        run := run + [next];
      }
      assert oks[..|connects|] == oks;
    }

    // ── Listening and accepting ───────────────────────────────────────────────

    /** `new_listen_socket`, `count` times. */
    method AddListenSockets(count: nat) returns (handles: seq<Handle>)
      modifies this`sockets
      ensures |handles| == count && Distinct(handles)
      ensures forall h :: h in handles ==> h !in old(sockets)
      ensures sockets == NewListeners(old(sockets), handles)
    {
      handles := [];
      while |handles| < count
        invariant |handles| <= count && Distinct(handles)
        invariant forall h :: h in handles ==> h !in old(sockets)
        invariant sockets == NewListeners(old(sockets), handles)
      {
        var h := AddSocket(Tcp(Listen, false));
        handles := handles + [h];
      }
    }

    /** listen_tcp: false means the endpoint was refused, which leaves one socket behind. */
    method ListenTcp(port: nat) returns (ok: bool, ghost pool: seq<Handle>)
      requires Valid()
      modifies this
      ensures Valid() && (ok <==> port != 0)
      ensures ok ==> Listens(old(Snapshot()), port, pool, Snapshot())
      ensures !ok ==> |pool| == 1 && ListenFails(old(Snapshot()), pool[0], Snapshot())
    {
      ghost var n := Snapshot();
      if port == 0 {
        var h := AddSocket(Tcp(Closed, false));
        SimpleStepKeeps(n, h, Snapshot());
        return false, [h];
      }
      var handles := AddListenSockets(LISTEN_POOL);
      listeners := listeners + [Listener(port, Slots(handles), [], [])];
      entered, accepted := entered + [[]], accepted + [[]];
      ListensKeeps(n, port, handles, Snapshot());
      return true, handles;
    }

    /** `position`: the first listener on a port. */
    method FindListener(port: nat) returns (found: Option<nat>)
      ensures found.Some? ==> FirstOn(Snapshot(), port, found.value)
      ensures found.None? ==> forall j :: 0 <= j < |listeners| ==> listeners[j].port != port
    {
      var i := 0;
      while i < |listeners|
        invariant 0 <= i <= |listeners|
        invariant forall j :: 0 <= j < i ==> listeners[j].port != port
      {
        if listeners[i].port == port {
          return Some(i);
        }
        i := i + 1;
      }
      found := None;
    }

    /** One poll of accept() by a task with waker `w`. */
    method Accept(port: nat, w: Waker) returns (taken: Option<Handle>)
      requires Valid()
      modifies this
      ensures Valid()
      ensures taken.Some? ==>
        exists i: nat :: Accepts(old(Snapshot()), port, i, Snapshot()) && old(listeners)[i].queue[0] == taken.value
      ensures taken.None? && (exists i: nat :: FirstOn(old(Snapshot()), port, i)) ==>
        exists i: nat :: Awaits(old(Snapshot()), port, i, w, Snapshot())
      ensures (forall i: nat :: !FirstOn(old(Snapshot()), port, i)) ==> taken.None? && Snapshot() == old(Snapshot())
    {
      ghost var n := Snapshot();
      var found := FindListener(port);
      if found.None? {
        return None;
      }
      var i := found.value;
      var l := listeners[i];
      if l.queue != [] {
        listeners := listeners[i := l.(queue := l.queue[1..])];
        accepted := accepted[i := accepted[i] + [l.queue[0]]];
        streams := streams + {l.queue[0]};
        taken := Some(l.queue[0]);
        assert Accepts(n, port, i, Snapshot());
        AcceptsKeeps(n, port, i, Snapshot());
        AcceptsExtends(n, port, i, Snapshot());
      } else {
        listeners := listeners[i := l.(wakers := l.wakers + [w])];
        taken := None;
        assert Awaits(n, port, i, w, Snapshot());
        AwaitsKeeps(n, port, i, w, Snapshot());
      }
    }

    // ── Streams, UDP and ping sockets ─────────────────────────────────────────

    /** Any poll of a live stream: the lookup hits, and only its own socket changes. */
    method UseStream(h: Handle, after: Socket, ws: seq<Waker>)
      requires Valid() && h in streams && after.Tcp?
      modifies this
      ensures Valid() && StreamUses(old(Snapshot()), h, after, ws, Snapshot())
    {
      ghost var n := Snapshot();
      OwnedBy(n, InStream, h);
      assert sockets[h].Tcp?;
      sockets := sockets[h := after];
      wakers := wakers + ws;
      StreamUsesKeeps(n, h, after, ws, Snapshot());
    }

    method DropStream(h: Handle, now: Time)
      requires Valid() && h in streams
      modifies this
      ensures Valid() && StreamDrops(old(Snapshot()), h, now, Snapshot())
    {
      ghost var n := Snapshot();
      OwnedBy(n, InStream, h);
      sockets := sockets[h := CloseTcp(sockets[h])];
      closing := closing + [Lingering(h, now)];
      streams := streams - {h};
      StreamDropsKeeps(n, h, now, Snapshot());
    }

    /** bind_udp and open_udp; `bound` is smoltcp's answer to bind(). */
    method OpenUdp(bound: bool) returns (h: Handle)
      requires Valid()
      modifies this
      ensures Valid() && UdpOpens(old(Snapshot()), h, bound, Snapshot())
    {
      ghost var n := Snapshot();
      h := AddSocket(Udp);
      if bound {
        udps := udps + {h};
      }
      SimpleStepKeeps(n, h, Snapshot());
    }

    /** A locked poll of recv_from or send_to: the lookup hits; a poll that must wait leaves its waker. */
    method PollUdp(h: Handle, ready: bool, w: Waker)
      requires Valid() && h in udps
      modifies this
      ensures Valid() && UdpPolls(old(Snapshot()), h, if ready then [] else [w], Snapshot())
    {
      ghost var n := Snapshot();
      OwnedBy(n, InUdp, h);
      var socket := sockets[h];
      assert socket.Udp?;
      if !ready {
        wakers := wakers + [w];
      }
      OnlyWakersKeeps(n, Snapshot());
    }

    method DropUdp(h: Handle)
      requires Valid() && h in udps
      modifies this
      ensures Valid() && h in old(sockets) && UdpDrops(old(Snapshot()), h, Snapshot())
    {
      ghost var n := Snapshot();
      OwnedBy(n, InUdp, h);
      sockets := sockets - {h};
      udps := udps - {h};
      SimpleStepKeeps(n, h, Snapshot());
    }

    method OpenIcmp(bound: bool) returns (h: Handle)
      requires Valid()
      modifies this
      ensures Valid() && PingOpens(old(Snapshot()), h, bound, Snapshot())
    {
      ghost var n := Snapshot();
      h := AddSocket(Icmp);
      if bound {
        pings := pings + {h};
      }
      SimpleStepKeeps(n, h, Snapshot());
    }

    /** A locked poll of send_echo or recv_reply; it fails once the netstack is closed. */
    method PollPing(h: Handle, ready: bool, w: Waker) returns (open: bool)
      requires Valid() && h in pings
      modifies this
      ensures Valid() && open == !old(closed)
      ensures PingPolls(old(Snapshot()), h, if open && !ready then [w] else [], Snapshot())
    {
      ghost var n := Snapshot();
      OwnedBy(n, InPing, h);
      open := !closed;
      if open {
        var socket := sockets[h];
        assert socket.Icmp?;
        if !ready {
          wakers := wakers + [w];
        }
      }
      OnlyWakersKeeps(n, Snapshot());
    }

    method DropPing(h: Handle)
      requires Valid() && h in pings
      modifies this
      ensures Valid() && h in old(sockets) && PingDrops(old(Snapshot()), h, Snapshot())
    {
      ghost var n := Snapshot();
      OwnedBy(n, InPing, h);
      sockets := sockets - {h};
      pings := pings - {h};
      SimpleStepKeeps(n, h, Snapshot());
    }

    // ── Servicing listeners ───────────────────────────────────────────────────

    /** The second loop: mark what left LISTEN, and `swap_remove` and free what is stuck. */
    method MarkAndReap(pool0: seq<PoolSlot>, now: Time) returns (pool: seq<PoolSlot>, ghost reaped: seq<Handle>)
      requires Pristine(sockets, pool0, 0, [])
      modifies this`sockets
      ensures (pool, reaped) == ReapLoop(old(sockets), now, pool0, 0, [])
      ensures sockets == old(sockets) - ToSet(reaped)
    {
      pool, reaped := pool0, [];
      var i := 0;
      ghost var t0 := sockets;
      while i < |pool|
        invariant 0 <= i <= |pool| && Pristine(t0, pool, i, reaped)
        invariant ReapLoop(t0, now, pool, i, reaped) == ReapLoop(t0, now, pool0, 0, [])
        invariant sockets == t0 - ToSet(reaped)
        decreases |pool| - i
      {
        var p := pool[i];
        if sockets[p.handle].state.Listen? {
          pool := pool[i := p.(since := None)];
          i := i + 1;
        } else if p.since.None? {
          pool := pool[i := p.(since := Some(now))];
          i := i + 1;
        } else if Since(now, p.since.value) > SYN_HANDSHAKE_TIMEOUT {
          PristineFreed(t0, pool, i, reaped);
          sockets := sockets - {p.handle};
          pool := SwapRemove(pool, i);
          reaped := reaped + [p.handle];
        } else {
          assert pool[i := p] == pool;
          i := i + 1;
        }
      }
    }

    /** Both loops over one pool. */
    method SiftPool(pool0: seq<PoolSlot>, now: Time)
      returns (pool: seq<PoolSlot>, ready: seq<Handle>, ghost waiting: seq<PoolSlot>, ghost reaped: seq<Handle>)
      requires forall q :: q in pool0 ==>
        q.handle in sockets && sockets[q.handle].Tcp? && multiset(Handles(pool0))[q.handle] <= 1
      modifies this`sockets
      ensures Split(old(sockets), now, pool0, waiting, ready)
      ensures (pool, reaped) == ReapLoop(old(sockets), now, waiting, 0, [])
      ensures sockets == old(sockets) - ToSet(reaped)
    {
      var rest;
      rest, ready := MoveReady(sockets, pool0, now);
      waiting := rest;
      WaitingPristine(sockets, pool0, rest);
      pool, reaped := MarkAndReap(rest, now);
    }

    /** Both loops, and the topping up. */
    method ServePool(l: Listener, now: Time) returns (serviced: Listener, ready: seq<Handle>, ghost top: seq<Handle>)
      requires forall q :: q in l.pool ==>
        q.handle in sockets && sockets[q.handle].Tcp? && multiset(Handles(l.pool))[q.handle] <= 1
      modifies this`sockets
      ensures Serviced(old(sockets), l, now, sockets, serviced, ready, top)
    {
      ghost var t := sockets;
      var pool;
      ghost var waiting, reaped;
      pool, ready, waiting, reaped := SiftPool(l.pool, now);
      var idle := CountIdle(pool);
      var handles := AddListenSockets(if idle < LISTEN_POOL then LISTEN_POOL - idle else 0);
      top := handles;
      serviced := Listener(l.port, pool + Slots(handles), l.queue + ready, if ready != [] then [] else l.wakers);
      TurnIsServiced(t, l, now, waiting, ready, pool, reaped, handles, sockets, serviced);
    }

    /** The serviced listener goes back into the list, and the log takes what was queued. */
    method PutBack(i: nat, serviced: Listener, ghost n: Net, ghost now: Time, ghost ready: seq<Handle>, ghost top: seq<Handle>)
      requires Ownership(n) && Queues(n) && i < |n.listeners| && Snapshot() == n.(table := sockets)
      requires Serviced(n.table, n.listeners[i], now, sockets, serviced, ready, top)
      modifies this`listeners, this`entered
      ensures Valid() && Services(n, i, now, ready, top, Snapshot())
    {
      listeners := listeners[i := serviced];
      entered := entered[i := entered[i] + ready];
      ServicesGood(n, i, now, serviced, ready, top, Snapshot());
    }

    /** One listener's turn; `woken` are the accept tasks to wake. */
    method ServiceEntry(i: nat, now: Time) returns (woken: seq<Waker>, ghost moved: seq<Handle>, ghost top: seq<Handle>)
      requires Valid() && i < |listeners|
      modifies this
      ensures Valid() && Services(old(Snapshot()), i, now, moved, top, Snapshot())
      ensures woken == if moved == [] then [] else old(listeners)[i].wakers
    {
      ghost var n := Snapshot();
      var l := listeners[i];
      PoolOwned(n, i);
      var serviced, ready;
      serviced, ready, top := ServePool(l, now);
      moved := ready;
      woken := if ready != [] then l.wakers else [];
      PutBack(i, serviced, n, now, ready, top);
    }

    /** service_listeners: every listener's turn, in order; afterwards all are well serviced. */
    method ServiceListeners(now: Time)
      returns (woken: seq<Waker>, ghost run: seq<Net>, ghost moved: seq<seq<Handle>>, ghost tops: seq<seq<Handle>>)
      requires Valid()
      modifies this
      ensures Valid() && ServiceRun(run, now, moved, tops)
      ensures run[0] == old(Snapshot()) && run[|run| - 1] == Snapshot()
      ensures forall j :: 0 <= j < |listeners| ==> WellServiced(sockets, listeners[j])
      ensures woken == Fired(run, moved)
    {
      woken, moved, tops := [], [], [];
      run := [Snapshot()];
      var i := 0;
      while i < |listeners|
        invariant ServicePrefix(run, now, moved, tops) && |moved| == i
        invariant 0 <= i <= |listeners| == |run[0].listeners| && Valid()
        invariant run[0] == old(Snapshot()) && run[|run| - 1] == Snapshot()
        invariant woken == Fired(run, moved)
      {
        var ws, m, t := ServiceEntry(i, now);
        ServiceSnoc(run, now, moved, tops, m, t, Snapshot());
        woken := woken + ws;
        run, moved, tops := run + [Snapshot()], moved + [m], tops + [t];
        i := i + 1;
      }
      ServiceLeavesAllWell(run, now, moved, tops);
    }

    // ── Reaping, polling and shutting down ────────────────────────────────────

    /** reap_closing_sockets' loop: `swap_remove` and free what is closed or out of time. */
    method FreeDone(now: Time) returns (ghost gone: seq<Handle>)
      requires Untouched(sockets, closing, [])
      modifies this`sockets, this`closing
      ensures (closing, gone) == CloseLoop(old(sockets), now, old(closing), 0, [])
      ensures sockets == old(sockets) - ToSet(gone)
    {
      ghost var t0, closing0 := sockets, closing;
      gone := [];
      var i := 0;
      while i < |closing|
        invariant 0 <= i <= |closing| && Untouched(t0, closing, gone)
        invariant CloseLoop(t0, now, closing, i, gone) == CloseLoop(t0, now, closing0, 0, [])
        invariant sockets == t0 - ToSet(gone)
        decreases |closing| - i
      {
        var c := closing[i];
        var isClosed := sockets[c.handle].state.Closed?;
        var expired := Since(now, c.since) > CLOSE_GRACE;
        if isClosed || expired {
          UntouchedReap(t0, closing, i, gone);
          sockets := sockets - {c.handle};
          closing := SwapRemove(closing, i);
          gone := gone + [c.handle];
        } else {
          i := i + 1;
        }
      }
    }

    method ReapClosing(now: Time)
      requires Valid()
      modifies this`sockets, this`closing
      ensures Valid() && Reaps(old(Snapshot()), now, Snapshot())
    {
      ghost var n := Snapshot();
      UntouchedStarts(n);
      var gone := FreeDone(now);
      CloseLoopReaps(n, now, Snapshot());
      ReapsKeeps(n, now, Snapshot());
    }

    /** run_poll: smoltcp's poll leaves `polled`; then every listener's turn, reaping, and the wakers to fire. */
    method RunPoll(polled: Table, now: Time)
      returns (woken: seq<Waker>, ghost run: seq<Net>, ghost moved: seq<seq<Handle>>, ghost tops: seq<seq<Handle>>, ghost reaped: Net)
      requires Valid() && SameKinds(sockets, polled)
      modifies this
      ensures Valid() && wakers == []
      ensures ServiceRun(run, now, moved, tops) && run[0] == old(Snapshot()).(table := polled)
      ensures Reaps(run[|run| - 1], now, reaped) && Wakes(reaped, Snapshot())
      ensures woken == old(wakers) + Fired(run, moved)
    {
      ghost var n := Snapshot();
      sockets := polled;
      PollsKeeps(n, Snapshot());
      var ws;
      ws, run, moved, tops := ServiceListeners(now);
      ServiceKeepsRest(run, now, moved, tops, |run| - 1);
      ReapClosing(now);
      woken := wakers + ws;
      reaped := Snapshot();
      wakers := [];
      OnlyWakersKeeps(reaped, Snapshot());
    }

    /** shutdown's locked section. */
    method Shutdown() returns (woken: seq<Waker>)
      requires Valid()
      modifies this
      ensures Valid() && ShutsDown(old(Snapshot()), Snapshot())
      ensures woken == old(wakers) + Collect(AcceptWakers(), old(listeners))
    {
      ghost var n := Snapshot();
      woken := AllWakers();
      Reset();
      ShutsDownKeeps(n, Snapshot());
    }

    /** Everything queued is dropped and every TCP socket aborted. */
    method Reset()
      modifies this`closed, this`pendingConnects, this`wakers, this`sockets, this`listeners, this`closing, this`entered, this`accepted
      ensures closed && pendingConnects == [] && wakers == [] && sockets == AbortAll(old(sockets))
      ensures listeners == [] && closing == [] && entered == [] && accepted == []
    {
      closed := true;
      pendingConnects, wakers := [], [];
      sockets := AbortAll(sockets);
      listeners, closing := [], [];
      entered, accepted := [], [];
    }

    /** The general wakers, then those of every accept queue. */
    method AllWakers() returns (woken: seq<Waker>)
      ensures woken == wakers + Collect(AcceptWakers(), listeners)
    {
      woken := wakers;
      assert listeners[0..] == listeners;
      for i := 0 to |listeners|
        invariant woken + Collect(AcceptWakers(), listeners[i..]) == wakers + Collect(AcceptWakers(), listeners)
      {
        assert listeners[i..][0] == listeners[i] && listeners[i..][1..] == listeners[i + 1..];
        woken := woken + listeners[i].wakers;
      }
    }
  }

  function AcceptWakers(): Listener -> seq<Waker> {
    (l: Listener) => l.wakers
  }
}
