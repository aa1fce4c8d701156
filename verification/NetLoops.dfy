/**
 The in-place loops of the netstack. Each loop has a function that says what it does from a
 position on, and lemmas that give its result as a multiset: which ready sockets are moved to the
 accept queue, which half-open ones are freed, and which closing ones are. The methods in Netstack
 keep these functions as their invariants.
 */
module NetLoops {
  import opened Common
  import opened Seqs
  import opened NetModel
  import opened NetProofs
  import opened NetTheorems

  lemma {:induction false} PendingHolds(n: Net, h: Handle)
    requires Ownership(n) && n.pending != [] && n.pending[0].handle == h
    ensures h in n.table && n.table[h].Tcp?
  {
    OwnershipIsLinear(n);
    assert HeldIn(n, InPending(0), h);
  }

  lemma {:induction false} OwnedBy(n: Net, r: Role, h: Handle)
    requires Ownership(n) && HeldIn(n, r, h)
    ensures h in n.table && RightKind(r, n.table[h])
  {
    OwnershipIsLinear(n);
  }

  /** The connect commands carried out in order, with smoltcp's answers. */
  ghost predicate ConnectRun(run: seq<Net>, oks: seq<bool>) {
    |run| == |oks| + 1 && forall i: nat {:trigger ConnectAt(run, oks, i)} :: i < |oks| ==> ConnectAt(run, oks, i)
  }

  ghost predicate ConnectAt(run: seq<Net>, oks: seq<bool>, i: nat) {
    i < |oks| && i + 1 < |run| && Connects(run[i], oks[i], run[i + 1])
  }

  lemma {:induction false} ConnectSnoc(run: seq<Net>, oks: seq<bool>, ok: bool, n: Net)
    requires ConnectRun(run, oks) && Connects(run[|oks|], ok, n)
    ensures ConnectRun(run + [n], oks + [ok])
  {
    forall i: nat | i < |oks| + 1 ensures ConnectAt(run + [n], oks + [ok], i) {
      if i < |oks| { assert ConnectAt(run, oks, i); }
    }
  }

  // ── Moving ready sockets ────────────────────────────────────────────────────

  /** The first loop from position `i` on: `swap_remove` every ready socket into `moved`. */
  function MoveLoop(t: Table, pool: seq<PoolSlot>, i: nat, moved: seq<Handle>): (seq<PoolSlot>, seq<Handle>)
    requires i <= |pool|
    decreases |pool| - i
  {
    if i == |pool| then (pool, moved)
    else if SlotReady(t, pool[i]) then MoveLoop(t, SwapRemove(pool, i), i, moved + [pool[i].handle])
    else MoveLoop(t, pool, i + 1, moved)
  }

  lemma {:induction false} Exchange(done: seq<Handle>, h: Handle, rest: seq<Handle>, all: seq<Handle>)
    requires multiset(rest) + multiset([h]) == multiset(all)
    ensures multiset(done + [h]) + multiset(rest) == multiset(done) + multiset(all)
  {
    assert multiset(done + [h]) == multiset(done) + multiset([h]);
  }

  lemma {:induction false} MoveLoopMoves(t: Table, pool: seq<PoolSlot>, i: nat, moved: seq<Handle>)
    requires i <= |pool| && forall k :: 0 <= k < i ==> !SlotReady(t, pool[k])
    ensures multiset(MoveLoop(t, pool, i, moved).1) == multiset(moved) + multiset(Collect(MoveRule(t), pool))
    decreases |pool| - i
  {
    if i == |pool| {
      NoneMoved(t, pool);
    } else if SlotReady(t, pool[i]) {
      var h := pool[i].handle;
      assert SwapRemove(pool, i)[..i] == pool[..i];
      assert forall k :: 0 <= k < i ==> SwapRemove(pool, i)[k] == SwapRemove(pool, i)[..i][k] == pool[..i][k];
      MoveLoopMoves(t, SwapRemove(pool, i), i, moved + [h]);
      CollectSwapRemove(MoveRule(t), pool, i);
      assert MoveRule(t)(pool[i]) == [h];
      Exchange(moved, h, Collect(MoveRule(t), SwapRemove(pool, i)), Collect(MoveRule(t), pool));
    } else {
      MoveLoopMoves(t, pool, i + 1, moved);
    }
  }

  /** A rule that collects nothing from ready slots collects the same afterwards. */
  lemma {:induction false} MoveLoopSpares<U>(t: Table, pool: seq<PoolSlot>, i: nat, moved: seq<Handle>, f: PoolSlot -> seq<U>)
    requires i <= |pool| && forall p :: SlotReady(t, p) ==> f(p) == []
    ensures multiset(Collect(f, MoveLoop(t, pool, i, moved).0)) == multiset(Collect(f, pool))
    decreases |pool| - i
  {
    if i < |pool| && SlotReady(t, pool[i]) {
      MoveLoopSpares(t, SwapRemove(pool, i), i, moved + [pool[i].handle], f);
      CollectSwapRemove(f, pool, i);
      assert f(pool[i]) == [];
    } else if i < |pool| {
      MoveLoopSpares(t, pool, i + 1, moved, f);
    }
  }

  lemma {:induction false} MoveLoopRest(t: Table, pool: seq<PoolSlot>, i: nat, moved: seq<Handle>)
    requires i <= |pool| && forall k :: 0 <= k < i ==> !SlotReady(t, pool[k])
    ensures var r := MoveLoop(t, pool, i, moved).0;
      multiset(r) <= multiset(pool) && forall k :: 0 <= k < |r| ==> !SlotReady(t, r[k])
    decreases |pool| - i
  {
    if i < |pool| && SlotReady(t, pool[i]) {
      assert forall k :: 0 <= k < i ==> SwapRemove(pool, i)[k] == SwapRemove(pool, i)[..i][k] == pool[..i][k];
      MoveLoopRest(t, SwapRemove(pool, i), i, moved + [pool[i].handle]);
    } else if i < |pool| {
      MoveLoopRest(t, pool, i + 1, moved);
    }
  }

  lemma {:induction false} NoneMoved(t: Table, pool: seq<PoolSlot>)
    requires forall k :: 0 <= k < |pool| ==> !SlotReady(t, pool[k])
    ensures Collect(MoveRule(t), pool) == []
  {
    if pool != [] { NoneMoved(t, pool[1..]); }
  }

  /** What is left of a pool and what was moved make up the pool it started as. */
  ghost predicate Split(t: Table, now: Time, pool0: seq<PoolSlot>, pool: seq<PoolSlot>, moved: seq<Handle>) {
    && multiset(pool) <= multiset(pool0)
    && multiset(moved) == multiset(Collect(MoveRule(t), pool0))
    && multiset(Collect(KeepRule(t, now), pool)) == multiset(Collect(KeepRule(t, now), pool0))
    && multiset(Collect(ReapRule(t, now), pool)) == multiset(Collect(ReapRule(t, now), pool0))
    && forall k :: 0 <= k < |pool| ==> !SlotReady(t, pool[k])
  }

  lemma {:induction false} MoveLoopSplits(t: Table, now: Time, pool: seq<PoolSlot>)
    ensures var r := MoveLoop(t, pool, 0, []); Split(t, now, pool, r.0, r.1)
  {
    MoveLoopMoves(t, pool, 0, []);
    MoveLoopSpares(t, pool, 0, [], KeepRule(t, now));
    MoveLoopSpares(t, pool, 0, [], ReapRule(t, now));
    MoveLoopRest(t, pool, 0, []);
  }

  /** The first loop of service_listeners. */
  method MoveReady(t: Table, pool0: seq<PoolSlot>, ghost now: Time) returns (pool: seq<PoolSlot>, moved: seq<Handle>)
    requires forall k :: 0 <= k < |pool0| ==> pool0[k].handle in t && t[pool0[k].handle].Tcp?
    ensures Split(t, now, pool0, pool, moved)
  {
    pool, moved := pool0, [];
    var i := 0;
    while i < |pool|
      invariant 0 <= i <= |pool|
      invariant forall k :: 0 <= k < |pool| ==> pool[k].handle in t && t[pool[k].handle].Tcp?
      invariant MoveLoop(t, pool, i, moved) == MoveLoop(t, pool0, 0, [])
      decreases |pool| - i
    {
      var h := pool[i].handle;
      if MayRecv(t[h]) && MaySend(t[h]) {
        SwapRemoveAt(pool, i);
        pool := SwapRemove(pool, i);
        moved := moved + [h];
      } else {
        i := i + 1;
      }
    }
    MoveLoopSplits(t, now, pool0);
  }

  /** Where the elements of a sequence are after `swap_remove`. */
  lemma {:induction false} SwapRemoveAt<T>(s: seq<T>, i: nat)
    requires i < |s|
    ensures var r := SwapRemove(s, i);
      forall k :: 0 <= k < |r| ==> r[k] == s[if k == i then |s| - 1 else k]
  {
  }

  // ── Marking and reaping half-open handshakes ────────────────────────────────

  /** The second loop from position `i` on; `reaped` is what was freed. */
  function ReapLoop(t: Table, now: Time, pool: seq<PoolSlot>, i: nat, reaped: seq<Handle>): (seq<PoolSlot>, seq<Handle>)
    requires i <= |pool|
    decreases |pool| - i
  {
    if i == |pool| then (pool, reaped)
    else if Stuck(t, pool[i], now) then ReapLoop(t, now, SwapRemove(pool, i), i, reaped + [pool[i].handle])
    else ReapLoop(t, now, pool[i := Mark(t, pool[i], now)], i + 1, reaped)
  }

  lemma {:induction false} Unready(t: Table, now: Time, p: PoolSlot, rest: seq<PoolSlot>)
    requires !SlotReady(t, p)
    ensures Collect(KeepRule(t, now), [p] + rest)
         == (if Stuck(t, p, now) then [] else [Mark(t, p, now)]) + Collect(KeepRule(t, now), rest)
    ensures Collect(ReapRule(t, now), [p] + rest)
         == (if Stuck(t, p, now) then [p.handle] else []) + Collect(ReapRule(t, now), rest)
  {
    assert ([p] + rest)[1..] == rest;
  }

  lemma {:induction false} Shift(pool: seq<PoolSlot>, i: nat, m: PoolSlot, later: seq<PoolSlot>)
    requires i < |pool|
    ensures pool[i := m][i + 1..] == pool[i + 1..]
    ensures multiset(pool[i := m][..i + 1]) + multiset(later) == multiset(pool[..i]) + multiset([m] + later)
  {
    assert pool[i := m][..i + 1] == pool[..i] + [m];
  }

  lemma {:induction false} DropStuck(t: Table, now: Time, pool: seq<PoolSlot>, i: nat)
    requires i < |pool| && Stuck(t, pool[i], now) && forall k :: i <= k < |pool| ==> !SlotReady(t, pool[k])
    ensures var less := SwapRemove(pool, i);
      && less[..i] == pool[..i] && (forall k :: i <= k < |less| ==> !SlotReady(t, less[k]))
      && multiset(Collect(KeepRule(t, now), less[i..])) == multiset(Collect(KeepRule(t, now), pool[i..]))
  {
    SwapRemoveAt(pool, i);
    CollectSuffix(KeepRule(t, now), pool, i);
    assert KeepRule(t, now)(pool[i]) == [];
  }

  lemma {:induction false} ReapLoopKeeps(t: Table, now: Time, pool: seq<PoolSlot>, i: nat, reaped: seq<Handle>)
    requires i <= |pool| && forall k :: i <= k < |pool| ==> !SlotReady(t, pool[k])
    ensures multiset(ReapLoop(t, now, pool, i, reaped).0)
         == multiset(pool[..i]) + multiset(Collect(KeepRule(t, now), pool[i..]))
    decreases |pool| - i
  {
    if i == |pool| {
      assert pool[..i] == pool && pool[i..] == [];
    } else {
      assert pool[i..] == [pool[i]] + pool[i + 1..];
      Unready(t, now, pool[i], pool[i + 1..]);
      if Stuck(t, pool[i], now) {
        DropStuck(t, now, pool, i);
        ReapLoopKeeps(t, now, SwapRemove(pool, i), i, reaped + [pool[i].handle]);
      } else {
        var m := Mark(t, pool[i], now);
        ReapLoopKeeps(t, now, pool[i := m], i + 1, reaped);
        Shift(pool, i, m, Collect(KeepRule(t, now), pool[i + 1..]));
      }
    }
  }

  lemma {:induction false} FreeStuck(t: Table, now: Time, pool: seq<PoolSlot>, i: nat, reaped: seq<Handle>)
    requires i < |pool| && Stuck(t, pool[i], now) && NoneReady(t, pool, i)
    ensures NoneReady(t, SwapRemove(pool, i), i)
    ensures multiset(reaped + [pool[i].handle]) + multiset(Collect(ReapRule(t, now), SwapRemove(pool, i)[i..]))
         == multiset(reaped) + multiset(Collect(ReapRule(t, now), pool[i..]))
  {
    var h := pool[i].handle;
    SwapRemoveAt(pool, i);
    CollectSuffix(ReapRule(t, now), pool, i);
    assert ReapRule(t, now)(pool[i]) == [h];
    assert multiset(reaped + [h]) == multiset(reaped) + multiset([h]);
  }

  lemma {:induction false} PassUnstuck(t: Table, now: Time, pool: seq<PoolSlot>, i: nat, marked: seq<PoolSlot>)
    requires i < |pool| && !Stuck(t, pool[i], now) && NoneReady(t, pool, i) && marked == pool[i := Mark(t, pool[i], now)]
    ensures NoneReady(t, marked, i + 1)
    ensures Collect(ReapRule(t, now), marked[i + 1..]) == Collect(ReapRule(t, now), pool[i..])
  {
    assert pool[i..] == [pool[i]] + pool[i + 1..] && marked[i + 1..] == pool[i + 1..];
    Unready(t, now, pool[i], pool[i + 1..]);
  }

  ghost predicate NoneReady(t: Table, pool: seq<PoolSlot>, i: nat) {
    forall k :: i <= k < |pool| ==> !SlotReady(t, pool[k])
  }

  lemma {:induction false} ReapStep(t: Table, now: Time, pool: seq<PoolSlot>, i: nat, reaped: seq<Handle>)
    returns (pool': seq<PoolSlot>, i': nat, reaped': seq<Handle>)
    requires i < |pool| && NoneReady(t, pool, i)
    ensures i' <= |pool'| && |pool'| - i' < |pool| - i && NoneReady(t, pool', i')
    ensures ReapLoop(t, now, pool, i, reaped) == ReapLoop(t, now, pool', i', reaped')
    ensures multiset(reaped') + multiset(Collect(ReapRule(t, now), pool'[i'..]))
         == multiset(reaped) + multiset(Collect(ReapRule(t, now), pool[i..]))
  {
    if Stuck(t, pool[i], now) {
      pool', i', reaped' := SwapRemove(pool, i), i, reaped + [pool[i].handle];
      FreeStuck(t, now, pool, i, reaped);
    } else {
      pool', i', reaped' := pool[i := Mark(t, pool[i], now)], i + 1, reaped;
      PassUnstuck(t, now, pool, i, pool');
    }
  }

  lemma {:induction false} ReapLoopReaps(t: Table, now: Time, pool: seq<PoolSlot>, i: nat, reaped: seq<Handle>)
    requires i <= |pool| && NoneReady(t, pool, i)
    ensures multiset(ReapLoop(t, now, pool, i, reaped).1)
         == multiset(reaped) + multiset(Collect(ReapRule(t, now), pool[i..]))
    decreases |pool| - i
  {
    if i == |pool| {
      assert pool[i..] == [];
    } else {
      var pool', i', reaped' := ReapStep(t, now, pool, i, reaped);
      ReapLoopReaps(t, now, pool', i', reaped');
    }
  }

  /** No two positions from `i` on share a handle, and none was freed yet. */
  ghost predicate Pristine(t: Table, pool: seq<PoolSlot>, i: nat, reaped: seq<Handle>) {
    && (forall k :: i <= k < |pool| ==>
          pool[k].handle in t && pool[k].handle !in reaped && t[pool[k].handle].Tcp?)
    && (forall a, b :: i <= a < b < |pool| ==> pool[a].handle != pool[b].handle)
  }

  lemma {:induction false} PristineFreed(t: Table, pool: seq<PoolSlot>, i: nat, reaped: seq<Handle>)
    requires i < |pool| && Pristine(t, pool, i, reaped)
    ensures Pristine(t, SwapRemove(pool, i), i, reaped + [pool[i].handle])
    ensures t - ToSet(reaped) - {pool[i].handle} == t - ToSet(reaped + [pool[i].handle])
  {
    SwapRemoveAt(pool, i);
  }

  lemma {:induction false} SameSet(a: seq<Handle>, b: seq<Handle>)
    requires multiset(a) == multiset(b)
    ensures ToSet(a) == ToSet(b)
  {
    forall h ensures h in a <==> h in b {
      assert h in a <==> h in multiset(a);
      assert h in b <==> h in multiset(b);
    }
  }

  lemma {:induction false} WaitingPristine(t: Table, pool: seq<PoolSlot>, waiting: seq<PoolSlot>)
    requires multiset(waiting) <= multiset(pool)
    requires forall q :: q in pool ==> multiset(Handles(pool))[q.handle] <= 1
    requires forall q :: q in pool ==> q.handle in t && t[q.handle].Tcp?
    ensures Pristine(t, waiting, 0, [])
  {
    forall k | 0 <= k < |waiting| ensures waiting[k] in pool { assert waiting[k] in multiset(pool); }
    forall a, b | 0 <= a < b < |waiting| ensures waiting[a].handle != waiting[b].handle {
      if waiting[a].handle == waiting[b].handle {
        assert waiting[a] in multiset(pool) && waiting[b] in multiset(pool);
        PoolSlotUnique(pool, waiting[a], waiting[b]);
        RepeatCounts(waiting, a, b);
        SlotCounts(pool, waiting[a]);
        assert false;
      }
    }
  }

  lemma {:induction false} SlotCounts(pool: seq<PoolSlot>, p: PoolSlot)
    ensures multiset(Handles(pool))[p.handle] >= multiset(pool)[p]
  {
    if pool != [] {
      assert pool == [pool[0]] + pool[1..];
      assert Handles(pool) == [pool[0].handle] + Handles(pool[1..]);
      SlotCounts(pool[1..], p);
    }
  }

  method CountIdle(pool: seq<PoolSlot>) returns (count: nat)
    ensures count == Idle(pool)
  {
    count := 0;
    var i := 0;
    while i < |pool|
      invariant 0 <= i <= |pool| && count == Idle(pool[..i])
    {
      assert pool[..i + 1] == pool[..i] + [pool[i]];
      CollectConcat(IdleRule(), pool[..i], [pool[i]]);
      CollectOne(IdleRule(), pool[i]);
      if pool[i].since.None? {
        count := count + 1;
      }
      i := i + 1;
    }
    assert pool[..i] == pool;
  }

  /** What the second loop makes of what the first one left. */
  lemma {:induction false} ReapSplits(t: Table, now: Time, pool0: seq<PoolSlot>, waiting: seq<PoolSlot>, ready: seq<Handle>,
                                      pool: seq<PoolSlot>, reaped: seq<Handle>)
    requires Split(t, now, pool0, waiting, ready)
    requires (pool, reaped) == ReapLoop(t, now, waiting, 0, [])
    ensures multiset(ready) == multiset(Collect(MoveRule(t), pool0))
    ensures multiset(pool) == multiset(Collect(KeepRule(t, now), pool0))
    ensures multiset(reaped) == multiset(Collect(ReapRule(t, now), pool0))
  {
    ReapLoopKeeps(t, now, waiting, 0, []);
    ReapLoopReaps(t, now, waiting, 0, []);
    assert waiting[0..] == waiting && waiting[..0] == [];
  }

  /** The pieces of one listener's turn put together. */
  lemma {:induction false} AssembleServiced(t0: Table, l: Listener, now: Time, ready: seq<Handle>,
                         pool: seq<PoolSlot>, reaped: seq<Handle>, top: seq<Handle>, t1: Table)
    requires multiset(ready) == multiset(Collect(MoveRule(t0), l.pool))
    requires multiset(pool) == multiset(Collect(KeepRule(t0, now), l.pool))
    requires multiset(reaped) == multiset(Collect(ReapRule(t0, now), l.pool))
    requires Distinct(top) && |top| == (if Idle(pool) < LISTEN_POOL then LISTEN_POOL - Idle(pool) else 0)
    requires forall h :: h in top ==> h !in t0 - ToSet(reaped)
    requires t1 == NewListeners(t0 - ToSet(reaped), top)
    ensures Serviced(t0, l, now, t1,
      Listener(l.port, pool + Slots(top), l.queue + ready, if ready != [] then [] else l.wakers), ready, top)
  {
    IdlePermute(pool, Collect(KeepRule(t0, now), l.pool));
    SameSet(reaped, Collect(ReapRule(t0, now), l.pool));
  }

  lemma {:induction false} TurnIsServiced(t0: Table, l: Listener, now: Time, waiting: seq<PoolSlot>, ready: seq<Handle>,
                         pool: seq<PoolSlot>, reaped: seq<Handle>, top: seq<Handle>, t1: Table, serviced: Listener)
    requires Split(t0, now, l.pool, waiting, ready)
    requires (pool, reaped) == ReapLoop(t0, now, waiting, 0, [])
    requires Distinct(top) && |top| == (if Idle(pool) < LISTEN_POOL then LISTEN_POOL - Idle(pool) else 0)
    requires forall h :: h in top ==> h !in t0 - ToSet(reaped)
    requires t1 == NewListeners(t0 - ToSet(reaped), top)
    requires serviced == Listener(l.port, pool + Slots(top), l.queue + ready, if ready != [] then [] else l.wakers)
    ensures Serviced(t0, l, now, t1, serviced, ready, top)
  {
    ReapSplits(t0, now, l.pool, waiting, ready, pool, reaped);
    AssembleServiced(t0, l, now, ready, pool, reaped, top, t1);
  }

  // ── Reaping closing sockets ─────────────────────────────────────────────────

  /** reap_closing_sockets from position `i` on; `gone` is what was freed. */
  function CloseLoop(t: Table, now: Time, closing: seq<Lingering>, i: nat, gone: seq<Handle>): (seq<Lingering>, seq<Handle>)
    requires i <= |closing|
    decreases |closing| - i
  {
    if i == |closing| then (closing, gone)
    else if Done(t, closing[i], now) then CloseLoop(t, now, SwapRemove(closing, i), i, gone + [closing[i].handle])
    else CloseLoop(t, now, closing, i + 1, gone)
  }

  lemma {:induction false} CloseLoopKeeps(t: Table, now: Time, closing: seq<Lingering>, i: nat, gone: seq<Handle>)
    requires i <= |closing| && forall k :: 0 <= k < i ==> !Done(t, closing[k], now)
    ensures multiset(CloseLoop(t, now, closing, i, gone).0) == multiset(Collect(LingerRule(t, now), closing))
    decreases |closing| - i
  {
    if i == |closing| {
      NoneDone(t, now, closing);
    } else if Done(t, closing[i], now) {
      SwapRemoveAt(closing, i);
      CloseLoopKeeps(t, now, SwapRemove(closing, i), i, gone + [closing[i].handle]);
      CollectSwapRemove(LingerRule(t, now), closing, i);
      assert LingerRule(t, now)(closing[i]) == [];
    } else {
      CloseLoopKeeps(t, now, closing, i + 1, gone);
    }
  }

  lemma {:induction false} CloseLoopFrees(t: Table, now: Time, closing: seq<Lingering>, i: nat, gone: seq<Handle>)
    requires i <= |closing| && forall k :: 0 <= k < i ==> !Done(t, closing[k], now)
    ensures multiset(CloseLoop(t, now, closing, i, gone).1) == multiset(gone) + multiset(Collect(DoneRule(t, now), closing))
    decreases |closing| - i
  {
    if i == |closing| {
      NoneDone(t, now, closing);
    } else if Done(t, closing[i], now) {
      var h := closing[i].handle;
      SwapRemoveAt(closing, i);
      CloseLoopFrees(t, now, SwapRemove(closing, i), i, gone + [h]);
      CollectSwapRemove(DoneRule(t, now), closing, i);
      assert DoneRule(t, now)(closing[i]) == [h];
      Exchange(gone, h, Collect(DoneRule(t, now), SwapRemove(closing, i)), Collect(DoneRule(t, now), closing));
    } else {
      CloseLoopFrees(t, now, closing, i + 1, gone);
    }
  }

  lemma {:induction false} NoneDone(t: Table, now: Time, s: seq<Lingering>)
    requires forall k :: 0 <= k < |s| ==> !Done(t, s[k], now)
    ensures Collect(DoneRule(t, now), s) == [] && Collect(LingerRule(t, now), s) == s
  {
    if s != [] { NoneDone(t, now, s[1..]); }
  }

  lemma {:induction false} CloseLoopReaps(n: Net, now: Time, n': Net)
    requires var r := CloseLoop(n.table, now, n.closing, 0, []);
      n' == n.(closing := r.0, table := n.table - ToSet(r.1))
    ensures Reaps(n, now, n')
  {
    CloseLoopKeeps(n.table, now, n.closing, 0, []);
    CloseLoopFrees(n.table, now, n.closing, 0, []);
    SameSet(CloseLoop(n.table, now, n.closing, 0, []).1, Collect(DoneRule(n.table, now), n.closing));
  }

  ghost predicate Untouched(t: Table, closing: seq<Lingering>, gone: seq<Handle>) {
    && (forall k :: 0 <= k < |closing| ==>
          closing[k].handle in t && closing[k].handle !in gone && t[closing[k].handle].Tcp?)
    && (forall a, b :: 0 <= a < b < |closing| ==> closing[a].handle != closing[b].handle)
  }

  lemma {:induction false} UntouchedStarts(n: Net)
    requires Ownership(n)
    ensures Untouched(n.table, n.closing, [])
  {
    OwnershipIsLinear(n);
    forall k | 0 <= k < |n.closing| ensures n.closing[k].handle in n.table && n.table[n.closing[k].handle].Tcp? {
      assert HeldIn(n, InClosing(k), n.closing[k].handle);
    }
    forall a, b | 0 <= a < b < |n.closing| ensures n.closing[a].handle != n.closing[b].handle {
      assert HeldIn(n, InClosing(a), n.closing[a].handle) && HeldIn(n, InClosing(b), n.closing[b].handle);
    }
  }

  lemma {:induction false} UntouchedReap(t: Table, closing: seq<Lingering>, i: nat, gone: seq<Handle>)
    requires i < |closing| && Untouched(t, closing, gone)
    ensures Untouched(t, SwapRemove(closing, i), gone + [closing[i].handle])
  {
    SwapRemoveAt(closing, i);
  }

  /** Sockets and listeners aside, nothing differs. */
  ghost predicate SameElse(a: Net, b: Net) {
    && a.pending == b.pending && a.closing == b.closing && a.wakers == b.wakers && a.closed == b.closed
    && a.dialing == b.dialing && a.granted == b.granted && a.streams == b.streams && a.udps == b.udps
    && a.pings == b.pings && a.accepted == b.accepted
  }

  lemma {:induction false} TurnRest(run: seq<Net>, now: Time, moved: seq<seq<Handle>>, tops: seq<seq<Handle>>, i: nat)
    requires ServicePrefix(run, now, moved, tops) && i < |moved|
    ensures SameElse(run[i], run[i + 1])
  {
    assert TurnAt(run, now, moved, tops, i);
  }

  lemma {:induction false} ServiceKeepsRest(run: seq<Net>, now: Time, moved: seq<seq<Handle>>, tops: seq<seq<Handle>>, i: nat)
    requires ServicePrefix(run, now, moved, tops) && i < |run|
    ensures SameElse(run[0], run[i])
  {
    if i > 0 {
      ServiceKeepsRest(run, now, moved, tops, i - 1);
      TurnRest(run, now, moved, tops, i - 1);
    }
  }

  /** A listener's accept wakers fire when it got a connection. */
  ghost function FiredAt(n: Net, i: nat, moved: seq<Handle>): seq<Waker> {
    if moved == [] || i >= |n.listeners| then [] else n.listeners[i].wakers
  }

  /** All that fire in these turns, in order. */
  ghost function Fired(run: seq<Net>, moved: seq<seq<Handle>>): seq<Waker>
    requires |run| == |moved| + 1
    decreases |moved|
  {
    if moved == [] then []
    else
      var k := |moved| - 1;
      Fired(run[..k + 1], moved[..k]) + FiredAt(run[k], k, moved[k])
  }

  lemma {:induction false} ServicesGood(n: Net, i: nat, now: Time, l: Listener, moved: seq<Handle>, top: seq<Handle>, n': Net)
    requires Ownership(n) && Queues(n) && i < |n.listeners|
    requires Serviced(n.table, n.listeners[i], now, n'.table, l, moved, top)
    requires n' == n.(table := n'.table, listeners := n.listeners[i := l], entered := n.entered[i := n.entered[i] + moved])
    ensures Services(n, i, now, moved, top, n') && Ownership(n') && Queues(n')
  {
    ServicesKeeps(n, i, now, moved, top, n');
    ServicesExtends(n, i, now, moved, top, n');
  }
}
