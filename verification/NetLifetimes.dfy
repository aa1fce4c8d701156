/** How long sockets live: on the closing list, in a listening pool, on the connect queue, and at a shutdown. */
module NetLifetimes {
  import opened Common
  import opened Seqs
  import opened NetModel
  import opened NetProofs
  import opened NetTheorems
  import opened NetLoops

  // ── The closing list ────────────────────────────────────────────────────────

  ghost predicate InState(n: Net, h: Handle, s: TcpState) {
    h in n.table && n.table[h].Tcp? && n.table[h].state == s
  }

  lemma {:induction false} ClosingIsTcp(n: Net, c: Lingering)
    requires Ownership(n) && c in n.closing
    ensures c.handle in n.table && n.table[c.handle].Tcp?
    ensures forall d :: d in n.closing && d.handle == c.handle ==> d == c
  {
    OwnershipIsLinear(n);
    var i :| 0 <= i < |n.closing| && n.closing[i] == c;
    assert HeldIn(n, InClosing(i), c.handle);
    forall d | d in n.closing && d.handle == c.handle ensures d == c {
      var j :| 0 <= j < |n.closing| && n.closing[j] == d;
      assert HeldIn(n, InClosing(j), c.handle);
    }
  }

  lemma {:induction false} DueExactly(n: Net, c: Lingering, now: Time)
    requires c.handle in n.table
    ensures Done(n.table, c, now) <==> InState(n, c.handle, Closed) || now > c.since + 60_000_000
  {
  }

  lemma {:induction false} LingersExactly(t: Table, closing: seq<Lingering>, now: Time, left: seq<Lingering>, c: Lingering)
    requires c in closing && multiset(left) == multiset(Collect(LingerRule(t, now), closing))
    ensures c in left <==> !Done(t, c, now)
  {
    var keep := LingerRule(t, now);
    CollectMember(keep, closing, c);
    assert c in left <==> c in multiset(left);
    assert c in Collect(keep, closing) <==> c in multiset(Collect(keep, closing));
  }

  lemma {:induction false} FreedExactly(t: Table, closing: seq<Lingering>, now: Time, c: Lingering)
    requires c in closing && forall d :: d in closing && d.handle == c.handle ==> d == c
    ensures c.handle in ToSet(Collect(DoneRule(t, now), closing)) <==> Done(t, c, now)
  {
    CollectMember(DoneRule(t, now), closing, c.handle);
  }

  /**
   Reaping frees exactly the listed sockets that are Closed or were dropped more than 60 seconds
   ago; it keeps every other listed socket listed and every other socket as it is.
   */
  lemma {:induction false} ReapingExactly(n: Net, now: Time, n': Net, c: Lingering)
    requires Ownership(n) && Reaps(n, now, n') && c in n.closing
    ensures !InState(n, c.handle, Closed) && now <= c.since + 60_000_000 ==>
      c in n'.closing && c.handle in n'.table && n'.table[c.handle] == n.table[c.handle]
    ensures InState(n, c.handle, Closed) || now > c.since + 60_000_000 ==>
      c !in n'.closing && c.handle !in n'.table
  {
    ClosingIsTcp(n, c);
    DueExactly(n, c, now);
    LingersExactly(n.table, n.closing, now, n'.closing, c);
    FreedExactly(n.table, n.closing, now, c);
  }

  lemma {:induction false} ReapingSparesOthers(n: Net, now: Time, n': Net, h: Handle)
    requires Reaps(n, now, n') && h in n.table && forall c :: c in n.closing ==> c.handle != h
    ensures h in n'.table && n'.table[h] == n.table[h]
  {
    CollectMember(DoneRule(n.table, now), n.closing, h);
  }

  /** The states of section 3.10.4 of RFC 9293: a drop sends FIN where there is a connection and never aborts one. */
  lemma {:induction false} DropClosesGracefully(n: Net, h: Handle, now: Time, n': Net)
    requires StreamDrops(n, h, now, n')
    ensures Lingering(h, now) in n'.closing && h !in n'.streams && h in n'.table
    ensures InState(n, h, Established) || InState(n, h, SynReceived) ==> InState(n', h, FinWait1)
    ensures InState(n, h, CloseWait) ==> InState(n', h, LastAck)
    ensures InState(n, h, Listen) || InState(n, h, SynSent) ==> InState(n', h, Closed)
    ensures forall s :: s in {FinWait1, FinWait2, Closing, LastAck, TimeWait, Closed} && InState(n, h, s) ==> InState(n', h, s)
    ensures n'.table[h].unread == n.table[h].unread
    ensures forall g :: g in n.table && g != h ==> g in n'.table && n'.table[g] == n.table[g]
  {
    assert n'.closing[|n.closing|] == Lingering(h, now);
  }

  /** At this step the entry is due: reaping finds its socket Closed, or dropped more than 60 seconds ago. */
  ghost predicate DueAt(n: Net, n': Net, c: Lingering) {
    exists now :: DueAtTime(n, now, n', c)
  }

  ghost predicate DueAtTime(n: Net, now: Time, n': Net, c: Lingering) {
    Reaps(n, now, n') && (InState(n, c.handle, Closed) || now > c.since + 60_000_000)
  }

  lemma {:induction false} QuietKeepsClosing(n: Net, n': Net, c: Lingering)
    requires Ownership(n) && QuietStep(n, n') && c in n.closing && !DueAt(n, n', c)
    ensures c in n'.closing
  {
    if now: Time :| Reaps(n, now, n') {
      assert !DueAtTime(n, now, n', c);
      ReapingExactly(n, now, n', c);
    } else if h: Handle, now: Time :| StreamDrops(n, h, now, n') {
      assert n'.closing == n.closing + [Lingering(h, now)];
    } else {
      SameClosing(n, n');
    }
  }

  lemma {:induction false} SameClosing(n: Net, n': Net)
    requires QuietStep(n, n') && !(exists now :: Reaps(n, now, n')) && !(exists h, now :: StreamDrops(n, h, now, n'))
    ensures n'.closing == n.closing
  {
  }

  /** Only a shutdown, or a reaping at which it is due, takes an entry off the closing list. */
  lemma {:induction false} StepKeepsClosing(n: Net, n': Net, c: Lingering)
    requires Ownership(n) && Step(n, n') && c in n.closing
    ensures c in n'.closing || ShutsDown(n, n') || DueAt(n, n', c)
  {
    if QuietStep(n, n') {
      if !DueAt(n, n', c) { QuietKeepsClosing(n, n', c); }
    }
  }

  ghost predicate LeavesAt(run: seq<Net>, k: nat, c: Lingering) {
    && k + 1 < |run| && c in run[k].closing
    && (ShutsDown(run[k], run[k + 1]) || DueAt(run[k], run[k + 1], c))
  }

  lemma {:induction false} StaysOrLeaves(run: seq<Net>, k: nat, c: Lingering)
    requires IsRun(run) && k + 1 < |run| && c in run[k].closing
    ensures c in run[k + 1].closing || LeavesAt(run, k, c)
  {
    RunInvariant(run, k);
    assert StepAt(run, k);
    StepKeepsClosing(run[k], run[k + 1], c);
  }

  lemma {:induction false} StaysUntilDue(run: seq<Net>, i: nat, j: nat, c: Lingering)
    requires IsRun(run) && i <= j < |run| && c in run[i].closing
    ensures c in run[j].closing || exists k :: i <= k < j && LeavesAt(run, k, c)
    decreases j
  {
    if i < j {
      StaysUntilDue(run, i, j - 1, c);
      if c in run[j - 1].closing { StaysOrLeaves(run, j - 1, c); }
    }
  }

  /**
   In every run a dropped stream's socket stays, listed and in the table, through every step of
   every task, until there is a shutdown or a poll that finds it Closed or 60 seconds old.
   */
  lemma {:induction false} DroppedStreamLingers(run: seq<Net>, i: nat, j: nat, h: Handle, now: Time)
    requires IsRun(run) && i < j < |run| && StreamDrops(run[i], h, now, run[i + 1])
    ensures || (Lingering(h, now) in run[j].closing && h in run[j].table && run[j].table[h].Tcp?)
            || (exists k :: i < k < j && LeavesAt(run, k, Lingering(h, now)))
  {
    var c := Lingering(h, now);
    DropClosesGracefully(run[i], h, now, run[i + 1]);
    StaysUntilDue(run, i + 1, j, c);
    RunInvariant(run, j);
    if c in run[j].closing { ClosingIsTcp(run[j], c); }
  }

  // ── A listener's pool ───────────────────────────────────────────────────────

  /** Receivable and sendable: established, or half closed by the peer with data still to be read. */
  ghost predicate Handshaken(n: Net, h: Handle) {
    InState(n, h, Established) || (InState(n, h, CloseWait) && n.table[h].unread)
  }

  lemma {:induction false} InPoolIs(l0: Listener, l1: Listener, now: Time, t0: Table, t1: Table, moved: seq<Handle>, top: seq<Handle>, p: PoolSlot)
    requires Serviced(t0, l0, now, t1, l1, moved, top)
    ensures p in l1.pool <==> p in Collect(KeepRule(t0, now), l0.pool) || p in Slots(top)
  {
    assert p in l1.pool <==> p in multiset(l1.pool);
    assert p in multiset(l1.pool) <==> p in multiset(Collect(KeepRule(t0, now), l0.pool)) + multiset(Slots(top));
  }

  lemma {:induction false} MovedIs(l0: Listener, l1: Listener, now: Time, t0: Table, t1: Table, moved: seq<Handle>, top: seq<Handle>, h: Handle)
    requires Serviced(t0, l0, now, t1, l1, moved, top)
    ensures h in moved <==> h in Collect(MoveRule(t0), l0.pool)
  {
    assert h in moved <==> h in multiset(moved);
    assert h in multiset(moved) <==> h in multiset(Collect(MoveRule(t0), l0.pool));
  }

  /** What one turn does to a slot, by its socket's state and its mark; times in microseconds. */
  lemma {:induction false} SlotFateExactly(n: Net, i: nat, now: Time, moved: seq<Handle>, top: seq<Handle>, n': Net, p: PoolSlot)
    requires Ownership(n) && Services(n, i, now, moved, top, n') && p in n.listeners[i].pool
    ensures var h, pool, queue := p.handle, n'.listeners[i].pool, n'.listeners[i].queue;
      if Handshaken(n, h) then h in queue && h in n'.table
      else if InState(n, h, Listen) then PoolSlot(h, None) in pool && h in n'.table
      else if p.since.None? then PoolSlot(h, Some(now)) in pool && h in n'.table
      else if now <= p.since.value + 10_000_000 then p in pool && h in n'.table
      else h !in n'.table || h in top
  {
    PoolOwned(n, i);
    SlotReaped(n, i, now, p);
    SlotMovedOrKept(n, i, now, moved, top, n', p);
  }

  lemma {:induction false} SlotMovedOrKept(n: Net, i: nat, now: Time, moved: seq<Handle>, top: seq<Handle>, n': Net, p: PoolSlot)
    requires Services(n, i, now, moved, top, n') && p in n.listeners[i].pool
    ensures SlotReady(n.table, p) ==> p.handle in moved
    ensures !SlotReady(n.table, p) && !Stuck(n.table, p, now) ==> Mark(n.table, p, now) in n'.listeners[i].pool
  {
    var t0, l0, l1 := n.table, n.listeners[i], n'.listeners[i];
    var m := Mark(t0, p, now);
    CollectMember(MoveRule(t0), l0.pool, p.handle);
    MovedIs(l0, l1, now, t0, n'.table, moved, top, p.handle);
    CollectMember(KeepRule(t0, now), l0.pool, m);
    InPoolIs(l0, l1, now, t0, n'.table, moved, top, m);
    assert SlotReady(t0, p) ==> p.handle in MoveRule(t0)(p);
    assert !SlotReady(t0, p) && !Stuck(t0, p, now) ==> m in KeepRule(t0, now)(p);
  }

  /** Only a slot whose handshake is stuck has its socket removed. */
  lemma {:induction false} SlotReaped(n: Net, i: nat, now: Time, p: PoolSlot)
    requires Ownership(n) && i < |n.listeners| && p in n.listeners[i].pool
    ensures p.handle in Collect(ReapRule(n.table, now), n.listeners[i].pool) <==> !SlotReady(n.table, p) && Stuck(n.table, p, now)
  {
    var pool := n.listeners[i].pool;
    PoolOwned(n, i);
    if p.handle in Collect(ReapRule(n.table, now), pool) {
      var q := ReapedFrom(n.table, pool, now, p.handle);
      PoolSlotUnique(pool, p, q);
    }
    if !SlotReady(n.table, p) && Stuck(n.table, p, now) {
      assert p.handle in ReapRule(n.table, now)(p);
      CollectMember(ReapRule(n.table, now), pool, p.handle);
    }
  }

  /** At least eight sockets listen after every turn, and new ones are added only up to eight. */
  lemma {:induction false} EightListen(n: Net, i: nat, now: Time, moved: seq<Handle>, top: seq<Handle>, n': Net)
    requires Ownership(n) && Services(n, i, now, moved, top, n')
    ensures Listening(n'.table, n'.listeners[i].pool) >= 8
    ensures top != [] ==> Listening(n'.table, n'.listeners[i].pool) == 8
  {
    PoolOwned(n, i);
    var t0, l0, l1 := n.table, n.listeners[i], n'.listeners[i];
    ServicedIsWell(t0, l0, now, n'.table, l1, moved, top);
    WellMarkedCount(n'.table, l1.pool);
    var kept := Collect(KeepRule(t0, now), l0.pool);
    IdlePermute(l1.pool, kept + Slots(top));
    CollectConcat(IdleRule(), kept, Slots(top));
    AllIdle(Slots(top));
  }

  /** A new listener starts with its pool of listening sockets. */
  lemma {:induction false} NewListenerIsWell(n: Net, port: nat, pool: seq<Handle>, n': Net)
    requires Listens(n, port, pool, n')
    ensures |n'.listeners| == |n.listeners| + 1
    ensures var l := n'.listeners[|n.listeners|]; l.port == port && WellServiced(n'.table, l) && Listening(n'.table, l.pool) == 8
  {
    var l := n'.listeners[|n.listeners|];
    forall p | p in l.pool ensures WellMarked(n'.table, p) {}
    WellMarkedCount(n'.table, l.pool);
    AllIdle(Slots(pool));
  }

  // ── The connect queue, and the shutdown ─────────────────────────────────────

  /** The shutdown closes every TCP socket, leaves the others, and empties every queue. */
  lemma {:induction false} ShutdownClosesAll(n: Net, n': Net)
    requires ShutsDown(n, n')
    ensures n'.closed && n'.table.Keys == n.table.Keys && n'.pending == [] && n'.wakers == [] && n'.listeners == [] && n'.closing == []
    ensures forall h :: h in n.table && n.table[h].Tcp? ==> InState(n', h, Closed)
    ensures forall h :: h in n.table && !n.table[h].Tcp? ==> n'.table[h] == n.table[h]
  {
  }

  /**
   Carrying out the queue: every accepted command leaves its own socket in SYN-SENT and grants a
   dialer that still waits; a refused one changes nothing.
   */
  lemma {:induction false} ConnectsExactly(run: seq<Net>, oks: seq<bool>, k: nat)
    requires ConnectRun(run, oks) && Ownership(run[0]) && |oks| == |run[0].pending| && k <= |oks|
    ensures Ownership(run[k]) && run[k].pending == run[0].pending[k..] && run[k].table.Keys == run[0].table.Keys
    ensures forall j :: 0 <= j < k && oks[j] ==> InState(run[k], run[0].pending[j].handle, SynSent)
    ensures forall h :: h in run[0].table && (forall j :: 0 <= j < k && oks[j] ==> run[0].pending[j].handle != h) ==>
      run[k].table[h] == run[0].table[h]
    ensures forall h :: h in run[k].granted <==>
      h in run[0].granted || exists j :: 0 <= j < k && oks[j] && run[0].pending[j] == Pending(h, true)
  {
    if k > 0 {
      ConnectsExactly(run, oks, k - 1);
      assert ConnectAt(run, oks, k - 1);
      ConnectsKeeps(run[k - 1], oks[k - 1], run[k]);
      assert run[k - 1].pending[0] == run[0].pending[k - 1];
      var c := run[0].pending[k - 1];
      forall h ensures h in run[k].granted <==> h in run[0].granted || exists j :: 0 <= j < k && oks[j] && run[0].pending[j] == Pending(h, true) {
        if j :| 0 <= j < k && oks[j] && run[0].pending[j] == Pending(h, true) { assert j < k - 1 || c == Pending(h, true); }
        if oks[k - 1] && c == Pending(h, true) { assert run[0].pending[k - 1] == Pending(h, true); }
      }
    }
  }
}
