/**
 The netstack's socket bookkeeping on values: who holds which handle, and what each
 locked section does. Freed handles are handed out again. Times are microseconds.
 */
module NetModel {
  import opened Common
  import opened Seqs

  type Handle = nat
  type Waker = nat

  const LISTEN_POOL: nat := 8
  const SYN_HANDSHAKE_TIMEOUT: nat := 10_000_000
  const CLOSE_GRACE: nat := 60_000_000

  /** The states of section 3.3.2 of RFC 9293. */
  datatype TcpState = Closed | Listen | SynSent | SynReceived | Established
                    | FinWait1 | FinWait2 | CloseWait | Closing | LastAck | TimeWait

  /** A slot of the socket set. `unread`: the receive buffer is not empty. */
  datatype Socket = Tcp(state: TcpState, unread: bool) | Udp | Icmp

  type Table = map<Handle, Socket>

  predicate MayRecv(s: Socket) {
    s.Tcp? && (s.state.Established? || s.state.FinWait1? || s.state.FinWait2? || s.unread)
  }

  predicate MaySend(s: Socket) {
    s.Tcp? && (s.state.Established? || s.state.CloseWait?)
  }

  predicate Ready(s: Socket) {
    MayRecv(s) && MaySend(s)
  }

  /** `close()`: FIN after the queued data. */
  function CloseTcp(s: Socket): Socket
    requires s.Tcp?
  {
    match s.state
    case Listen => s.(state := Closed)
    case SynSent => s.(state := Closed)
    case SynReceived => s.(state := FinWait1)
    case Established => s.(state := FinWait1)
    case CloseWait => s.(state := LastAck)
    case _ => s
  }

  datatype PoolSlot = PoolSlot(handle: Handle, since: Option<Time>)

  datatype Listener = Listener(port: nat, pool: seq<PoolSlot>, queue: seq<Handle>, wakers: seq<Waker>)

  /** `waiting`: the dialing task still waits for the answer. */
  datatype Pending = Pending(handle: Handle, waiting: bool)

  datatype Lingering = Lingering(handle: Handle, since: Time)

  /**
   The shared state, the handles its users hold, and what has gone through each accept queue.
   `dialing`: allocated, not queued yet; `granted`: connect answered, stream not built yet.
   */
  datatype Net = Net(
    table: Table, listeners: seq<Listener>, pending: seq<Pending>, closing: seq<Lingering>,
    wakers: seq<Waker>, closed: bool,
    dialing: set<Handle>, granted: set<Handle>,
    streams: set<Handle>, udps: set<Handle>, pings: set<Handle>,
    entered: seq<seq<Handle>>, accepted: seq<seq<Handle>>)

  // ── What service_listeners does to one pool slot ────────────────────────────

  function HandleRule(): PoolSlot -> seq<Handle> {
    (p: PoolSlot) => [p.handle]
  }

  function Handles(pool: seq<PoolSlot>): seq<Handle> {
    Collect(HandleRule(), pool)
  }

  predicate SlotReady(t: Table, p: PoolSlot) {
    p.handle in t && Ready(t[p.handle])
  }

  predicate SlotListens(t: Table, p: PoolSlot) {
    p.handle in t && t[p.handle].Tcp? && t[p.handle].state.Listen?
  }

  predicate Stuck(t: Table, p: PoolSlot, now: Time) {
    !SlotListens(t, p) && p.since.Some? && Since(now, p.since.value) > SYN_HANDSHAKE_TIMEOUT
  }

  function Mark(t: Table, p: PoolSlot, now: Time): PoolSlot {
    if SlotListens(t, p) then p.(since := None)
    else if p.since.None? then p.(since := Some(now))
    else p
  }

  function MoveRule(t: Table): PoolSlot -> seq<Handle> {
    (p: PoolSlot) => if SlotReady(t, p) then [p.handle] else []
  }

  function KeepRule(t: Table, now: Time): PoolSlot -> seq<PoolSlot> {
    (p: PoolSlot) => if SlotReady(t, p) || Stuck(t, p, now) then [] else [Mark(t, p, now)]
  }

  function ReapRule(t: Table, now: Time): PoolSlot -> seq<Handle> {
    (p: PoolSlot) => if !SlotReady(t, p) && Stuck(t, p, now) then [p.handle] else []
  }

  function IdleRule(): PoolSlot -> seq<PoolSlot> {
    (p: PoolSlot) => if p.since.None? then [p] else []
  }

  function Idle(pool: seq<PoolSlot>): nat {
    |Collect(IdleRule(), pool)|
  }

  function Slots(handles: seq<Handle>): (r: seq<PoolSlot>)
    ensures |r| == |handles| && forall i :: 0 <= i < |r| ==> r[i] == PoolSlot(handles[i], None)
  {
    seq(|handles|, i requires 0 <= i < |handles| => PoolSlot(handles[i], None))
  }

  function ToSet(s: seq<Handle>): (r: set<Handle>)
    ensures forall x :: x in r <==> x in s
  {
    set x | x in s
  }

  function NewListeners(t: Table, top: seq<Handle>): (r: Table)
    ensures r.Keys == t.Keys + ToSet(top)
    ensures forall h :: h in r ==> r[h] == if h in top then Tcp(Listen, false) else t[h]
  {
    map h | h in t.Keys + ToSet(top) :: if h in top then Tcp(Listen, false) else t[h]
  }

  ghost predicate Distinct(s: seq<Handle>) {
    forall i, j :: 0 <= i < j < |s| ==> s[i] != s[j]
  }

  /**
   One listener serviced: ready sockets moved to the queue (waking every waiter), stuck
   handshakes removed, the rest kept and marked, the pool topped up with new listening sockets.
   The pools are compared as multisets.
   */
  ghost predicate Serviced(t0: Table, l0: Listener, now: Time, t1: Table, l1: Listener,
                           moved: seq<Handle>, top: seq<Handle>)
  {
    var kept := Collect(KeepRule(t0, now), l0.pool);
    var live := t0 - ToSet(Collect(ReapRule(t0, now), l0.pool));
    && l1.port == l0.port
    && multiset(moved) == multiset(Collect(MoveRule(t0), l0.pool))
    && l1.queue == l0.queue + moved
    && l1.wakers == (if moved == [] then l0.wakers else [])
    && multiset(l1.pool) == multiset(kept) + multiset(Slots(top))
    && Distinct(top) && (forall h :: h in top ==> h !in live)
    && |top| == (if Idle(kept) < LISTEN_POOL then LISTEN_POOL - Idle(kept) else 0)
    && t1 == NewListeners(live, top)
  }

  // ── What reap_closing_sockets does ──────────────────────────────────────────

  predicate Done(t: Table, c: Lingering, now: Time) {
    (c.handle in t && t[c.handle].Tcp? && t[c.handle].state.Closed?) || Since(now, c.since) > CLOSE_GRACE
  }

  function LingerRule(t: Table, now: Time): Lingering -> seq<Lingering> {
    (c: Lingering) => if Done(t, c, now) then [] else [c]
  }

  function DoneRule(t: Table, now: Time): Lingering -> seq<Handle> {
    (c: Lingering) => if Done(t, c, now) then [c.handle] else []
  }

  function LingerHandleRule(): Lingering -> seq<Handle> {
    (c: Lingering) => [c.handle]
  }

  function LingerHandles(closing: seq<Lingering>): seq<Handle> {
    Collect(LingerHandleRule(), closing)
  }

  function PendingHandles(pending: seq<Pending>): seq<Handle> {
    Collect((p: Pending) => [p.handle], pending)
  }

  // ── The steps ───────────────────────────────────────────────────────────────

  /** A handle the socket set may hand out: any that is not in use, reused or new. */
  predicate Free(n: Net, h: Handle) {
    h !in n.table
  }

  /** dial_tcp allocates its socket. */
  ghost predicate DialOpens(n: Net, h: Handle, n': Net) {
    Free(n, h) && n' == n.(table := n.table[h := Tcp(Closed, false)], dialing := n.dialing + {h})
  }

  /** dial_tcp queues the connect command. */
  ghost predicate DialQueues(n: Net, h: Handle, n': Net) {
    h in n.dialing && n' == n.(dialing := n.dialing - {h}, pending := n.pending + [Pending(h, true)])
  }

  /** The dialing task is dropped while its command is queued: the command stays. */
  ghost predicate DialCancelsQueued(n: Net, i: nat, n': Net) {
    i < |n.pending| && n' == n.(pending := n.pending[i := n.pending[i].(waiting := false)])
  }

  /** The dialing task is dropped after the answer: nobody holds the socket any more. */
  ghost predicate DialCancelsGranted(n: Net, h: Handle, n': Net) {
    h in n.granted && n' == n.(granted := n.granted - {h})
  }

  /** The dialing task wakes with a positive answer and builds its stream. */
  ghost predicate DialBuilds(n: Net, h: Handle, n': Net) {
    h in n.granted && n' == n.(granted := n.granted - {h}, streams := n.streams + {h})
  }

  /** One queued connect is carried out; `ok` is smoltcp's answer. */
  ghost predicate Connects(n: Net, ok: bool, n': Net) {
    && n.pending != [] && n.pending[0].handle in n.table && n.table[n.pending[0].handle].Tcp?
    && var h := n.pending[0].handle;
       n' == n.(pending := n.pending[1..],
                table := if ok then n.table[h := n.table[h].(state := SynSent)] else n.table,
                granted := if ok && n.pending[0].waiting then n.granted + {h} else n.granted)
  }

  /** listen_tcp on port zero fails and leaves its first socket behind. */
  ghost predicate ListenFails(n: Net, h: Handle, n': Net) {
    Free(n, h) && n' == n.(table := n.table[h := Tcp(Closed, false)])
  }

  ghost predicate Listens(n: Net, port: nat, pool: seq<Handle>, n': Net) {
    && port != 0 && |pool| == LISTEN_POOL && Distinct(pool) && (forall h :: h in pool ==> Free(n, h))
    && n' == n.(table := NewListeners(n.table, pool),
                listeners := n.listeners + [Listener(port, Slots(pool), [], [])],
                entered := n.entered + [[]], accepted := n.accepted + [[]])
  }

  /** The first listener on a port, as `position` finds it. */
  predicate FirstOn(n: Net, port: nat, i: nat) {
    i < |n.listeners| && n.listeners[i].port == port && forall j :: 0 <= j < i ==> n.listeners[j].port != port
  }

  /** accept() on a non-empty queue takes its front. */
  ghost predicate Accepts(n: Net, port: nat, i: nat, n': Net) {
    && FirstOn(n, port, i) && n.listeners[i].queue != [] && i < |n.accepted|
    && var l := n.listeners[i];
       n' == n.(listeners := n.listeners[i := l.(queue := l.queue[1..])],
                accepted := n.accepted[i := n.accepted[i] + [l.queue[0]]],
                streams := n.streams + {l.queue[0]})
  }

  /** accept() on an empty queue registers its waker. */
  ghost predicate Awaits(n: Net, port: nat, i: nat, w: Waker, n': Net) {
    && FirstOn(n, port, i) && n.listeners[i].queue == []
    && var l := n.listeners[i];
       n' == n.(listeners := n.listeners[i := l.(wakers := l.wakers + [w])])
  }

  /** A stream reads, writes or shuts down: only its own socket changes. */
  ghost predicate StreamUses(n: Net, h: Handle, s: Socket, ws: seq<Waker>, n': Net) {
    h in n.streams && h in n.table && s.Tcp? && n' == n.(table := n.table[h := s], wakers := n.wakers + ws)
  }

  ghost predicate StreamDrops(n: Net, h: Handle, now: Time, n': Net) {
    && h in n.streams && h in n.table && n.table[h].Tcp?
    && n' == n.(table := n.table[h := CloseTcp(n.table[h])],
                closing := n.closing + [Lingering(h, now)], streams := n.streams - {h})
  }

  /** bind_udp and open_udp; a failed bind leaves the socket behind. */
  ghost predicate UdpOpens(n: Net, h: Handle, bound: bool, n': Net) {
    Free(n, h) && n' == n.(table := n.table[h := Udp], udps := if bound then n.udps + {h} else n.udps)
  }

  ghost predicate UdpDrops(n: Net, h: Handle, n': Net) {
    h in n.udps && n' == n.(table := n.table - {h}, udps := n.udps - {h})
  }

  ghost predicate PingOpens(n: Net, h: Handle, bound: bool, n': Net) {
    Free(n, h) && n' == n.(table := n.table[h := Icmp], pings := if bound then n.pings + {h} else n.pings)
  }

  ghost predicate PingDrops(n: Net, h: Handle, n': Net) {
    h in n.pings && n' == n.(table := n.table - {h}, pings := n.pings - {h})
  }

  /** A locked poll of a UDP socket: the lookup hits, and a poll that has to wait leaves its waker. */
  ghost predicate UdpPolls(n: Net, h: Handle, waiting: seq<Waker>, n': Net) {
    h in n.udps && h in n.table && n.table[h].Udp? && n' == n.(wakers := n.wakers + waiting)
  }

  /** The same for a ping socket; after shutdown it fails before any lookup. */
  ghost predicate PingPolls(n: Net, h: Handle, waiting: seq<Waker>, n': Net) {
    && h in n.pings && h in n.table && n.table[h].Icmp? && n' == n.(wakers := n.wakers + waiting)
    && (n.closed ==> waiting == [])
  }

  /** smoltcp's own poll: any TCP socket may change state; none appears, disappears or changes kind. */
  ghost predicate SameKinds(t: Table, t': Table) {
    t'.Keys == t.Keys && forall h :: h in t ==>
      (t[h].Tcp? <==> t'[h].Tcp?) && (t[h].Udp? <==> t'[h].Udp?) && (t[h].Icmp? <==> t'[h].Icmp?)
  }

  ghost predicate Polls(n: Net, n': Net) {
    SameKinds(n.table, n'.table) && n' == n.(table := n'.table)
  }

  /** One listener's turn inside service_listeners. */
  ghost predicate Services(n: Net, i: nat, now: Time, moved: seq<Handle>, top: seq<Handle>, n': Net) {
    && i < |n.listeners| && i < |n'.listeners| && i < |n.entered|
    && Serviced(n.table, n.listeners[i], now, n'.table, n'.listeners[i], moved, top)
    && n' == n.(table := n'.table, listeners := n.listeners[i := n'.listeners[i]],
                entered := n.entered[i := n.entered[i] + moved])
  }

  ghost predicate Reaps(n: Net, now: Time, n': Net) {
    && multiset(n'.closing) == multiset(Collect(LingerRule(n.table, now), n.closing))
    && n' == n.(closing := n'.closing, table := n.table - ToSet(Collect(DoneRule(n.table, now), n.closing)))
  }

  /** The end of a poll cycle takes all general wakers. */
  ghost predicate Wakes(n: Net, n': Net) {
    n' == n.(wakers := [])
  }

  function AbortAll(t: Table): (r: Table)
    ensures SameKinds(t, r)
  {
    map h | h in t :: if t[h].Tcp? then t[h].(state := Closed) else t[h]
  }

  ghost predicate ShutsDown(n: Net, n': Net) {
    n' == n.(table := AbortAll(n.table), listeners := [], closing := [], pending := [], wakers := [],
             closed := true, entered := [], accepted := [])
  }

  /** A locked section of a dialing task, or the connect of one. */
  ghost predicate DialStep(n: Net, n': Net) {
    || (exists h :: DialOpens(n, h, n'))
    || (exists h :: DialQueues(n, h, n'))
    || (exists i :: DialCancelsQueued(n, i, n'))
    || (exists h :: DialCancelsGranted(n, h, n'))
    || (exists h :: DialBuilds(n, h, n'))
    || (exists ok :: Connects(n, ok, n'))
    || (exists h :: ListenFails(n, h, n'))
  }

  /** A locked section of a stream, UDP or ping object. */
  ghost predicate ObjectStep(n: Net, n': Net) {
    || (exists h, s, ws :: StreamUses(n, h, s, ws, n'))
    || (exists h, now :: StreamDrops(n, h, now, n'))
    || (exists h, bound :: UdpOpens(n, h, bound, n'))
    || (exists h, ws :: UdpPolls(n, h, ws, n'))
    || (exists h :: UdpDrops(n, h, n'))
    || (exists h, bound :: PingOpens(n, h, bound, n'))
    || (exists h, ws :: PingPolls(n, h, ws, n'))
    || (exists h :: PingDrops(n, h, n'))
  }

  /** A locked section that leaves the listeners alone. */
  ghost predicate QuietStep(n: Net, n': Net) {
    DialStep(n, n') || ObjectStep(n, n') || Polls(n, n') || (exists now :: Reaps(n, now, n')) || Wakes(n, n')
  }

  /** Any one locked section, by any task. */
  ghost predicate Step(n: Net, n': Net) {
    || QuietStep(n, n')
    || (exists port, pool :: Listens(n, port, pool, n'))
    || (exists port, i :: Accepts(n, port, i, n'))
    || (exists port, i, w :: Awaits(n, port, i, w, n'))
    || (exists i, now, moved, top :: Services(n, i, now, moved, top, n'))
    || ShutsDown(n, n')
  }

  const START: Net := Net(map[], [], [], [], [], false, {}, {}, {}, {}, {}, [], [])

  ghost predicate StepAt(run: seq<Net>, i: nat) {
    i + 1 < |run| && Step(run[i], run[i + 1])
  }

  ghost predicate IsRun(run: seq<Net>) {
    |run| > 0 && run[0] == START && forall i: nat {:trigger StepAt(run, i)} :: i + 1 < |run| ==> StepAt(run, i)
  }

  // ── Ownership ───────────────────────────────────────────────────────────────

  /** Every place a handle can be held. */
  datatype Role = InPool(listener: nat, at: nat) | InQueue(listener: nat, at: nat) | InClosing(at: nat)
                | InPending(at: nat) | InDial | InGrant | InStream | InUdp | InPing

  ghost predicate HeldIn(n: Net, r: Role, h: Handle) {
    match r
    case InPool(l, i) => l < |n.listeners| && i < |n.listeners[l].pool| && n.listeners[l].pool[i].handle == h
    case InQueue(l, i) => l < |n.listeners| && i < |n.listeners[l].queue| && n.listeners[l].queue[i] == h
    case InClosing(i) => i < |n.closing| && n.closing[i].handle == h
    case InPending(i) => i < |n.pending| && n.pending[i].handle == h
    case InDial => h in n.dialing
    case InGrant => h in n.granted
    case InStream => h in n.streams
    case InUdp => h in n.udps
    case InPing => h in n.pings
  }

  ghost predicate RightKind(r: Role, s: Socket) {
    match r
    case InUdp => s.Udp?
    case InPing => s.Icmp?
    case _ => s.Tcp?
  }

  /** No handle dangles, none is of the wrong kind, and no two roles hold the same one. */
  ghost predicate Linear(n: Net) {
    && (forall r, h :: HeldIn(n, r, h) ==> h in n.table && RightKind(r, n.table[h]))
    && (forall r, q, h :: HeldIn(n, r, h) && HeldIn(n, q, h) ==> r == q)
  }
}

/** What each step keeps, how held handles are counted, and what a turn makes of a pool. */
module NetProofs {
  import opened Common
  import opened Seqs
  import opened NetModel

  // ── Counting holders ────────────────────────────────────────────────────────

  function ListenerRule(): Listener -> seq<Handle> {
    (l: Listener) => Handles(l.pool) + l.queue
  }

  function Own(l: Listener): multiset<Handle> {
    multiset(Handles(l.pool)) + multiset(l.queue)
  }

  function InListeners(ls: seq<Listener>): multiset<Handle> {
    multiset(Collect(ListenerRule(), ls))
  }

  function One(b: bool): nat {
    if b then 1 else 0
  }

  /** How many roles for TCP sockets hold a handle. */
  function TcpHolders(n: Net, h: Handle): nat {
    InListeners(n.listeners)[h] + multiset(LingerHandles(n.closing))[h] + multiset(PendingHandles(n.pending))[h]
    + One(h in n.dialing) + One(h in n.granted) + One(h in n.streams)
  }

  function Holders(n: Net, h: Handle): nat {
    TcpHolders(n, h) + One(h in n.udps) + One(h in n.pings)
  }

  ghost predicate Owned(n: Net, h: Handle) {
    && Holders(n, h) <= 1
    && (TcpHolders(n, h) > 0 ==> h in n.table && n.table[h].Tcp?)
    && (h in n.udps ==> h in n.table && n.table[h].Udp?)
    && (h in n.pings ==> h in n.table && n.table[h].Icmp?)
  }

  ghost predicate Ownership(n: Net) {
    forall h :: Owned(n, h)
  }

  lemma {:induction false} InListenersUpdate(ls: seq<Listener>, i: nat, l: Listener)
    requires i < |ls|
    ensures InListeners(ls[i := l]) + Own(ls[i]) == InListeners(ls) + Own(l)
    ensures Own(ls[i]) <= InListeners(ls)
  {
    CollectUpdate(ListenerRule(), ls, i, l);
  }

  lemma {:induction false} CountAt(a: multiset<Handle>, b: multiset<Handle>, c: multiset<Handle>, d: multiset<Handle>, g: Handle)
    requires a + b == c + d
    ensures a[g] + b[g] == c[g] + d[g]
  {
    assert (a + b)[g] == (c + d)[g];
  }

  lemma {:induction false} InListenersSnoc(ls: seq<Listener>, l: Listener)
    ensures InListeners(ls + [l]) == InListeners(ls) + Own(l)
  {
    CollectConcat(ListenerRule(), ls, [l]);
    CollectOne(ListenerRule(), l);
  }

  lemma {:induction false} HandlesAre(pool: seq<PoolSlot>)
    ensures |Handles(pool)| == |pool| && forall i :: 0 <= i < |pool| ==> Handles(pool)[i] == pool[i].handle
  {
    if pool != [] { HandlesAre(pool[1..]); }
  }

  lemma {:induction false} LingerHandlesAre(s: seq<Lingering>)
    ensures |LingerHandles(s)| == |s| && forall i :: 0 <= i < |s| ==> LingerHandles(s)[i] == s[i].handle
  {
    if s != [] { LingerHandlesAre(s[1..]); }
  }

  lemma {:induction false} PendingHandlesAre(s: seq<Pending>)
    ensures |PendingHandles(s)| == |s| && forall i :: 0 <= i < |s| ==> PendingHandles(s)[i] == s[i].handle
  {
    if s != [] { PendingHandlesAre(s[1..]); }
  }

  // ── Each step keeps ownership ───────────────────────────────────────────────

  lemma {:induction false} DialOpensKeeps(n: Net, h: Handle, n': Net)
    requires Ownership(n) && DialOpens(n, h, n')
    ensures Ownership(n')
  {
    forall g ensures Owned(n', g) { assert Owned(n, g) && Owned(n, h); }
  }

  lemma {:induction false} DialQueuesKeeps(n: Net, h: Handle, n': Net)
    requires Ownership(n) && DialQueues(n, h, n')
    ensures Ownership(n')
  {
    PendingHandlesAre(n.pending);
    PendingHandlesAre(n'.pending);
    assert PendingHandles(n'.pending) == PendingHandles(n.pending) + [h];
    forall g ensures Owned(n', g) { assert Owned(n, g); }
  }

  lemma {:induction false} DialCancelsQueuedKeeps(n: Net, i: nat, n': Net)
    requires Ownership(n) && DialCancelsQueued(n, i, n')
    ensures Ownership(n')
  {
    PendingHandlesAre(n.pending);
    PendingHandlesAre(n'.pending);
    assert PendingHandles(n'.pending) == PendingHandles(n.pending);
    forall g ensures Owned(n', g) { assert Owned(n, g); }
  }

  lemma {:induction false} ConnectsKeeps(n: Net, ok: bool, n': Net)
    requires Ownership(n) && Connects(n, ok, n')
    ensures Ownership(n')
  {
    PendingHandlesAre(n.pending);
    PendingHandlesAre(n'.pending);
    assert PendingHandles(n.pending) == [n.pending[0].handle] + PendingHandles(n'.pending);
    forall g ensures Owned(n', g) { assert Owned(n, g); }
  }

  lemma {:induction false} SimpleStepKeeps(n: Net, h: Handle, n': Net)
    requires Ownership(n)
    requires DialCancelsGranted(n, h, n') || DialBuilds(n, h, n') || ListenFails(n, h, n')
          || UdpOpens(n, h, true, n') || UdpOpens(n, h, false, n') || UdpDrops(n, h, n')
          || PingOpens(n, h, true, n') || PingOpens(n, h, false, n') || PingDrops(n, h, n')
    ensures Ownership(n')
  {
    forall g ensures Owned(n', g) { assert Owned(n, g) && Owned(n, h); }
  }

  lemma {:induction false} StreamUsesKeeps(n: Net, h: Handle, s: Socket, ws: seq<Waker>, n': Net)
    requires Ownership(n) && StreamUses(n, h, s, ws, n')
    ensures Ownership(n')
  {
    forall g ensures Owned(n', g) { assert Owned(n, g) && Owned(n, h); }
  }

  lemma {:induction false} StreamDropsKeeps(n: Net, h: Handle, now: Time, n': Net)
    requires Ownership(n) && StreamDrops(n, h, now, n')
    ensures Ownership(n')
  {
    LingerHandlesAre(n.closing);
    LingerHandlesAre(n'.closing);
    assert LingerHandles(n'.closing) == LingerHandles(n.closing) + [h];
    forall g ensures Owned(n', g) { assert Owned(n, g) && Owned(n, h); }
  }

  lemma {:induction false} PollsKeeps(n: Net, n': Net)
    requires Ownership(n) && Polls(n, n')
    ensures Ownership(n')
  {
    forall g ensures Owned(n', g) { assert Owned(n, g); }
  }

  lemma {:induction false} DistinctCounts(s: seq<Handle>, h: Handle)
    requires Distinct(s)
    ensures multiset(s)[h] == One(h in s)
  {
    if h in s {
      var i :| 0 <= i < |s| && s[i] == h;
      assert s == s[..i] + [h] + s[i + 1..];
      assert h !in s[..i] && h !in s[i + 1..];
    }
  }

  lemma {:induction false} SlotHandles(handles: seq<Handle>)
    ensures Handles(Slots(handles)) == handles
  {
    HandlesAre(Slots(handles));
  }

  lemma {:induction false} ListensKeeps(n: Net, port: nat, pool: seq<Handle>, n': Net)
    requires Ownership(n) && Listens(n, port, pool, n')
    ensures Ownership(n')
  {
    InListenersSnoc(n.listeners, Listener(port, Slots(pool), [], []));
    SlotHandles(pool);
    forall g ensures Owned(n', g) { assert Owned(n, g); DistinctCounts(pool, g); }
  }

  lemma {:induction false} AcceptsOwn(l: Listener, g: Handle)
    requires l.queue != []
    ensures Own(l)[g] == Own(l.(queue := l.queue[1..]))[g] + One(g == l.queue[0])
  {
    assert l.queue == [l.queue[0]] + l.queue[1..];
    assert multiset(l.queue) == multiset{l.queue[0]} + multiset(l.queue[1..]);
  }

  lemma {:induction false} AcceptsKeeps(n: Net, port: nat, i: nat, n': Net)
    requires Ownership(n) && Accepts(n, port, i, n')
    ensures Ownership(n')
  {
    var l := n.listeners[i];
    var l' := l.(queue := l.queue[1..]);
    InListenersUpdate(n.listeners, i, l');
    forall g ensures Owned(n', g) {
      assert Owned(n, g);
      CountAt(InListeners(n'.listeners), Own(l), InListeners(n.listeners), Own(l'), g);
      AcceptsOwn(l, g);
    }
  }

  lemma {:induction false} AwaitsKeeps(n: Net, port: nat, i: nat, w: Waker, n': Net)
    requires Ownership(n) && Awaits(n, port, i, w, n')
    ensures Ownership(n')
  {
    var l := n.listeners[i];
    var l' := l.(wakers := l.wakers + [w]);
    InListenersUpdate(n.listeners, i, l');
    forall g ensures Owned(n', g) {
      assert Owned(n, g);
      CountAt(InListeners(n'.listeners), Own(l), InListeners(n.listeners), Own(l'), g);
    }
  }

  lemma {:induction false} ShutsDownKeeps(n: Net, n': Net)
    requires Ownership(n) && ShutsDown(n, n')
    ensures Ownership(n')
  {
    forall g ensures Owned(n', g) { assert Owned(n, g); }
  }

  // ── Service: every prior handle is moved, kept or reaped, exactly once ──────

  lemma {:induction false} SlotFate(t: Table, p: PoolSlot, now: Time)
    ensures multiset(MoveRule(t)(p)) + multiset(Handles(KeepRule(t, now)(p))) + multiset(ReapRule(t, now)(p)) == multiset{p.handle}
  {
    HandlesAre(KeepRule(t, now)(p));
    if KeepRule(t, now)(p) != [] {
      assert Handles(KeepRule(t, now)(p)) == [p.handle];
    } else {
      assert Handles(KeepRule(t, now)(p)) == [];
    }
  }

  lemma {:induction false} FatePartition(t: Table, pool: seq<PoolSlot>, now: Time)
    ensures multiset(Handles(pool)) == multiset(Collect(MoveRule(t), pool))
                                     + multiset(Handles(Collect(KeepRule(t, now), pool)))
                                     + multiset(Collect(ReapRule(t, now), pool))
  {
    if pool != [] {
      FatePartition(t, pool[1..], now);
      SlotFate(t, pool[0], now);
      CollectConcat(HandleRule(), KeepRule(t, now)(pool[0]), Collect(KeepRule(t, now), pool[1..]));
      assert Handles(pool) == [pool[0].handle] + Handles(pool[1..]);
      assert Collect(MoveRule(t), pool) == MoveRule(t)(pool[0]) + Collect(MoveRule(t), pool[1..]);
      assert Collect(ReapRule(t, now), pool) == ReapRule(t, now)(pool[0]) + Collect(ReapRule(t, now), pool[1..]);
      assert Handles(Collect(KeepRule(t, now), pool))
          == Handles(KeepRule(t, now)(pool[0])) + Handles(Collect(KeepRule(t, now), pool[1..]));
    }
  }

  /** The handles of a listener after service. */
  lemma {:induction false} ServicedHandles(t0: Table, l0: Listener, now: Time, t1: Table, l1: Listener, moved: seq<Handle>, top: seq<Handle>)
    requires Serviced(t0, l0, now, t1, l1, moved, top)
    ensures Own(l1) + multiset(Collect(ReapRule(t0, now), l0.pool)) == Own(l0) + multiset(top)
  {
    var kept := Collect(KeepRule(t0, now), l0.pool);
    FatePartition(t0, l0.pool, now);
    assert multiset(l1.pool) == multiset(kept + Slots(top));
    CollectPermute(HandleRule(), l1.pool, kept + Slots(top));
    CollectConcat(HandleRule(), kept, Slots(top));
    SlotHandles(top);
  }

  /** How service changes the number of pool and queue roles of each handle. */
  lemma {:induction false} ServicesCount(n: Net, i: nat, now: Time, moved: seq<Handle>, top: seq<Handle>, n': Net, reaped: seq<Handle>, g: Handle)
    requires Services(n, i, now, moved, top, n')
    requires reaped == Collect(ReapRule(n.table, now), n.listeners[i].pool)
    ensures InListeners(n'.listeners)[g] + multiset(reaped)[g] == InListeners(n.listeners)[g] + multiset(top)[g]
    ensures multiset(reaped)[g] <= InListeners(n.listeners)[g]
  {
    var l0, l1 := n.listeners[i], n'.listeners[i];
    InListenersUpdate(n.listeners, i, l1);
    ServicedHandles(n.table, l0, now, n'.table, l1, moved, top);
    FatePartition(n.table, l0.pool, now);
    CountAt(InListeners(n'.listeners), Own(l0), InListeners(n.listeners), Own(l1), g);
    CountAt(Own(l1), multiset(reaped), Own(l0), multiset(top), g);
    assert multiset(Handles(l0.pool))[g] >= multiset(reaped)[g];
    assert Own(l0)[g] == multiset(Handles(l0.pool))[g] + multiset(l0.queue)[g];
  }

  lemma {:induction false} ServicesKeeps(n: Net, i: nat, now: Time, moved: seq<Handle>, top: seq<Handle>, n': Net)
    requires Ownership(n) && Services(n, i, now, moved, top, n')
    ensures Ownership(n')
  {
    var reaped := Collect(ReapRule(n.table, now), n.listeners[i].pool);
    forall g ensures Owned(n', g) {
      ServicesCount(n, i, now, moved, top, n', reaped, g);
      assert Owned(n, g);
      ServicesOwned(n.table, n, i, now, moved, top, n', reaped, g);
    }
  }

  lemma {:induction false} ServicesOwned(t: Table, n: Net, i: nat, now: Time, moved: seq<Handle>, top: seq<Handle>, n': Net, reaped: seq<Handle>, g: Handle)
    requires Owned(n, g) && n' == n.(table := n'.table, listeners := n'.listeners, entered := n'.entered)
    requires InListeners(n'.listeners)[g] + multiset(reaped)[g] == InListeners(n.listeners)[g] + multiset(top)[g]
    requires multiset(reaped)[g] <= InListeners(n.listeners)[g]
    requires Distinct(top) && (forall h :: h in top ==> h !in n.table - ToSet(reaped))
    requires n'.table == NewListeners(n.table - ToSet(reaped), top)
    ensures Owned(n', g)
  {
    DistinctCounts(top, g);
    assert g in reaped <==> multiset(reaped)[g] > 0;
  }

  lemma {:induction false} LingerFate(t: Table, c: Lingering, now: Time)
    ensures multiset(LingerHandles(LingerRule(t, now)(c))) + multiset(DoneRule(t, now)(c)) == multiset{c.handle}
  {
    LingerHandlesAre(LingerRule(t, now)(c));
    if Done(t, c, now) {
      assert LingerHandles(LingerRule(t, now)(c)) == [];
    } else {
      assert LingerHandles(LingerRule(t, now)(c)) == [c.handle];
    }
  }

  lemma {:induction false} LingerPartition(t: Table, s: seq<Lingering>, now: Time)
    ensures multiset(LingerHandles(s)) == multiset(LingerHandles(Collect(LingerRule(t, now), s)))
                                        + multiset(Collect(DoneRule(t, now), s))
  {
    if s != [] {
      LingerPartition(t, s[1..], now);
      LingerFate(t, s[0], now);
      CollectConcat(LingerHandleRule(), LingerRule(t, now)(s[0]), Collect(LingerRule(t, now), s[1..]));
      assert LingerHandles(s) == [s[0].handle] + LingerHandles(s[1..]);
      assert LingerHandles(Collect(LingerRule(t, now), s))
          == LingerHandles(LingerRule(t, now)(s[0])) + LingerHandles(Collect(LingerRule(t, now), s[1..]));
      assert Collect(DoneRule(t, now), s) == DoneRule(t, now)(s[0]) + Collect(DoneRule(t, now), s[1..]);
    }
  }

  lemma {:induction false} ReapsKeeps(n: Net, now: Time, n': Net)
    requires Ownership(n) && Reaps(n, now, n')
    ensures Ownership(n')
  {
    LingerPartition(n.table, n.closing, now);
    CollectPermute(LingerHandleRule(), n'.closing, Collect(LingerRule(n.table, now), n.closing));
    var gone := Collect(DoneRule(n.table, now), n.closing);
    forall g ensures Owned(n', g) {
      assert Owned(n, g);
      assert g in gone <==> multiset(gone)[g] > 0;
    }
  }

  lemma {:induction false} DialStepKeeps(n: Net, n': Net)
    requires Ownership(n) && DialStep(n, n')
    ensures Ownership(n')
  {
    if h :| DialOpens(n, h, n') { DialOpensKeeps(n, h, n'); }
    else if h :| DialQueues(n, h, n') { DialQueuesKeeps(n, h, n'); }
    else if i :| DialCancelsQueued(n, i, n') { DialCancelsQueuedKeeps(n, i, n'); }
    else if h :| DialCancelsGranted(n, h, n') { SimpleStepKeeps(n, h, n'); }
    else if h :| DialBuilds(n, h, n') { SimpleStepKeeps(n, h, n'); }
    else if ok :| Connects(n, ok, n') { ConnectsKeeps(n, ok, n'); }
    else if h :| ListenFails(n, h, n') { SimpleStepKeeps(n, h, n'); }
  }

  /** General wakers are no part of ownership. */
  lemma {:induction false} OnlyWakersKeeps(n: Net, n': Net)
    requires Ownership(n) && n' == n.(wakers := n'.wakers)
    ensures Ownership(n')
  {
    forall g ensures Owned(n', g) { assert Owned(n, g); }
  }

  lemma {:induction false} ObjectStepKeeps(n: Net, n': Net)
    requires Ownership(n) && ObjectStep(n, n')
    ensures Ownership(n')
  {
    if h, s, ws :| StreamUses(n, h, s, ws, n') { StreamUsesKeeps(n, h, s, ws, n'); }
    else if h, now :| StreamDrops(n, h, now, n') { StreamDropsKeeps(n, h, now, n'); }
    else if h, bound :| UdpOpens(n, h, bound, n') { SimpleStepKeeps(n, h, n'); }
    else if h :| UdpDrops(n, h, n') { SimpleStepKeeps(n, h, n'); }
    else if h, bound :| PingOpens(n, h, bound, n') { SimpleStepKeeps(n, h, n'); }
    else if h :| PingDrops(n, h, n') { SimpleStepKeeps(n, h, n'); }
    else { OnlyWakersKeeps(n, n'); }
  }

  lemma {:induction false} QuietStepKeeps(n: Net, n': Net)
    requires Ownership(n) && QuietStep(n, n')
    ensures Ownership(n')
  {
    if DialStep(n, n') { DialStepKeeps(n, n'); }
    else if ObjectStep(n, n') { ObjectStepKeeps(n, n'); }
    else if Polls(n, n') { PollsKeeps(n, n'); }
    else if now :| Reaps(n, now, n') { ReapsKeeps(n, now, n'); }
    else { OnlyWakersKeeps(n, n'); }
  }

  /** Every step of every task keeps ownership linear. */
  lemma {:induction false} StepKeepsOwnership(n: Net, n': Net)
    requires Ownership(n) && Step(n, n')
    ensures Ownership(n')
  {
    if QuietStep(n, n') { QuietStepKeeps(n, n'); }
    else if port, pool :| Listens(n, port, pool, n') { ListensKeeps(n, port, pool, n'); }
    else if port, i :| Accepts(n, port, i, n') { AcceptsKeeps(n, port, i, n'); }
    else if port, i, w :| Awaits(n, port, i, w, n') { AwaitsKeeps(n, port, i, w, n'); }
    else if i, now, moved, top :| Services(n, i, now, moved, top, n') { ServicesKeeps(n, i, now, moved, top, n'); }
    else { ShutsDownKeeps(n, n'); }
  }

  // ── Linear ownership in every run ───────────────────────────────────────────

  lemma {:induction false} TwoListeners(ls: seq<Listener>, i: nat, j: nat, h: Handle)
    requires i < j < |ls|
    ensures InListeners(ls)[h] >= Own(ls[i])[h] + Own(ls[j])[h]
  {
    var f := ListenerRule();
    CollectAround(f, ls, j);
    CollectAround(f, ls[..j], i);
    assert multiset(f(ls[i])) == Own(ls[i]) && multiset(f(ls[j])) == Own(ls[j]);
    assert multiset(Collect(f, ls)) >= multiset(Collect(f, ls[..j])) + multiset(f(ls[j]));
    assert multiset(Collect(f, ls[..j])) >= multiset(f(ls[i]));
    assert (Own(ls[i]) + Own(ls[j]))[h] <= InListeners(ls)[h];
  }

  /** The listener a role belongs to, or the counter of its own kind. */
  function Kind(r: Role): nat {
    match r
    case InPool(_, _) => 0
    case InQueue(_, _) => 0
    case InClosing(_) => 1
    case InPending(_) => 2
    case InDial => 3
    case InGrant => 4
    case InStream => 5
    case InUdp => 6
    case InPing => 7
  }

  function KindCount(n: Net, k: nat, h: Handle): nat {
    if k == 0 then InListeners(n.listeners)[h]
    else if k == 1 then multiset(LingerHandles(n.closing))[h]
    else if k == 2 then multiset(PendingHandles(n.pending))[h]
    else if k == 3 then One(h in n.dialing)
    else if k == 4 then One(h in n.granted)
    else if k == 5 then One(h in n.streams)
    else if k == 6 then One(h in n.udps)
    else One(h in n.pings)
  }

  lemma {:induction false} HeldCounts(n: Net, r: Role, h: Handle)
    requires HeldIn(n, r, h)
    ensures KindCount(n, Kind(r), h) >= 1
    ensures r.InPool? || r.InQueue? ==> Own(n.listeners[r.listener])[h] >= 1
  {
    match r
    case InPool(l, i) =>
      HandlesAre(n.listeners[l].pool);
      assert Handles(n.listeners[l].pool)[i] == h;
      OwnBelow(n.listeners, l, h);
    case InQueue(l, i) =>
      assert n.listeners[l].queue[i] == h;
      OwnBelow(n.listeners, l, h);
    case InClosing(i) => LingerHandlesAre(n.closing); assert LingerHandles(n.closing)[i] == h;
    case InPending(i) => PendingHandlesAre(n.pending); assert PendingHandles(n.pending)[i] == h;
    case _ =>
  }

  lemma {:induction false} OwnBelow(ls: seq<Listener>, l: nat, h: Handle)
    requires l < |ls|
    ensures Own(ls[l])[h] <= InListeners(ls)[h]
    ensures Own(ls[l])[h] == multiset(Handles(ls[l].pool))[h] + multiset(ls[l].queue)[h]
  {
    InListenersUpdate(ls, l, ls[l]);
  }

  /** Two places of the same listener cannot hold a handle counted once. */
  lemma {:induction false} SameListener(l: Listener, r: Role, q: Role, h: Handle)
    requires (r.InPool? && r.at < |l.pool| && l.pool[r.at].handle == h) || (r.InQueue? && r.at < |l.queue| && l.queue[r.at] == h)
    requires (q.InPool? && q.at < |l.pool| && l.pool[q.at].handle == h) || (q.InQueue? && q.at < |l.queue| && l.queue[q.at] == h)
    requires r.listener == q.listener && Own(l)[h] <= 1
    ensures r == q
  {
    HandlesAre(l.pool);
    assert Own(l)[h] == multiset(Handles(l.pool))[h] + multiset(l.queue)[h];
    assert (r.InPool? ==> Handles(l.pool)[r.at] == h) && (r.InQueue? ==> l.queue[r.at] == h);
    assert (q.InPool? ==> Handles(l.pool)[q.at] == h) && (q.InQueue? ==> l.queue[q.at] == h);
    if r.InPool? && q.InPool? {
      if r.at < q.at { RepeatCounts(Handles(l.pool), r.at, q.at); }
      else if q.at < r.at { RepeatCounts(Handles(l.pool), q.at, r.at); }
    } else if r.InQueue? && q.InQueue? {
      if r.at < q.at { RepeatCounts(l.queue, r.at, q.at); }
      else if q.at < r.at { RepeatCounts(l.queue, q.at, r.at); }
    }
  }

  lemma {:induction false} OneRole(n: Net, r: Role, q: Role, h: Handle)
    requires Owned(n, h) && HeldIn(n, r, h) && HeldIn(n, q, h)
    ensures r == q
  {
    HeldCounts(n, r, h);
    HeldCounts(n, q, h);
    assert Kind(r) == Kind(q);
    if Kind(r) == 0 {
      if r.listener < q.listener { TwoListeners(n.listeners, r.listener, q.listener, h); }
      else if q.listener < r.listener { TwoListeners(n.listeners, q.listener, r.listener, h); }
      else {
        InListenersUpdate(n.listeners, r.listener, n.listeners[r.listener]);
        SameListener(n.listeners[r.listener], r, q, h);
      }
    } else if r.InClosing? {
      LingerHandlesAre(n.closing);
      if r.at < q.at { RepeatCounts(LingerHandles(n.closing), r.at, q.at); }
      else if q.at < r.at { RepeatCounts(LingerHandles(n.closing), q.at, r.at); }
    } else if r.InPending? {
      PendingHandlesAre(n.pending);
      if r.at < q.at { RepeatCounts(PendingHandles(n.pending), r.at, q.at); }
      else if q.at < r.at { RepeatCounts(PendingHandles(n.pending), q.at, r.at); }
    }
  }

  lemma {:induction false} OwnershipIsLinear(n: Net)
    requires Ownership(n)
    ensures Linear(n)
  {
    forall r, h | HeldIn(n, r, h) ensures h in n.table && RightKind(r, n.table[h]) {
      assert Owned(n, h);
      HeldCounts(n, r, h);
    }
    forall r, q, h | HeldIn(n, r, h) && HeldIn(n, q, h) ensures r == q {
      assert Owned(n, h);
      OneRole(n, r, q, h);
    }
  }

  // ── Accept queues ───────────────────────────────────────────────────────────

  /**
   Per listener: a waiting handle means no task sleeps, and what entered the queue is what
   was accepted, in order, followed by what still waits.
   */
  ghost predicate Queues(n: Net) {
    && |n.entered| == |n.listeners| && |n.accepted| == |n.listeners|
    && forall i :: 0 <= i < |n.listeners| ==>
         && n.listeners[i].port != 0
         && (n.listeners[i].queue != [] ==> n.listeners[i].wakers == [])
         && n.entered[i] == n.accepted[i] + n.listeners[i].queue
  }

  ghost predicate SameListeners(n: Net, n': Net) {
    n'.listeners == n.listeners && n'.entered == n.entered && n'.accepted == n.accepted
  }

  lemma {:induction false} QuietKeepsListeners(n: Net, n': Net)
    requires QuietStep(n, n')
    ensures SameListeners(n, n')
  {
    if DialStep(n, n') { } else if ObjectStep(n, n') { }
  }

  ghost predicate Extends(n: Net, n': Net) {
    && |n.listeners| <= |n'.listeners| && Queues(n) && Queues(n')
    && forall i :: 0 <= i < |n.listeners| ==>
         && n.entered[i] <= n'.entered[i]
         && (n'.accepted[i] == n.accepted[i]
             || (&& |n.accepted[i]| < |n.entered[i]|
                 && n'.accepted[i] == n.accepted[i] + [n.entered[i][|n.accepted[i]|]]
                 && n'.streams == n.streams + {n.entered[i][|n.accepted[i]|]}))
  }

  lemma {:induction false} ServicesExtends(n: Net, i: nat, now: Time, moved: seq<Handle>, top: seq<Handle>, n': Net)
    requires Queues(n) && Services(n, i, now, moved, top, n')
    ensures Extends(n, n')
  {
    var l, l' := n.listeners[i], n'.listeners[i];
    assert l'.queue == l.queue + moved && l'.port == l.port;
    assert n'.entered[i] == n.accepted[i] + (l.queue + moved);
    assert l'.queue != [] ==> l'.wakers == [];
    forall j | 0 <= j < |n.listeners| && j != i
      ensures n'.listeners[j] == n.listeners[j] && n'.entered[j] == n.entered[j] {}
    assert n.entered[i] <= n'.entered[i];
  }

  lemma {:induction false} AcceptsExtends(n: Net, port: nat, i: nat, n': Net)
    requires Queues(n) && Accepts(n, port, i, n')
    ensures Extends(n, n')
  {
    var q := n.listeners[i].queue;
    assert q == [q[0]] + q[1..];
    assert n.entered[i] == n.accepted[i] + q;
    assert n'.accepted[i] + n'.listeners[i].queue == n.accepted[i] + ([q[0]] + q[1..]);
  }

  lemma {:induction false} AppendsExtend(n: Net, n': Net)
    requires Queues(n)
    requires (exists port, i, w :: Awaits(n, port, i, w, n')) || (exists port, pool :: Listens(n, port, pool, n'))
    ensures Extends(n, n')
  {
  }

  // ── Every run ───────────────────────────────────────────────────────────────

  lemma {:induction false} QueuedIsNoStream(n: Net, l: nat)
    requires Linear(n) && l < |n.listeners| && n.listeners[l].queue != []
    ensures n.listeners[l].queue[0] !in n.streams
  {
    var h := n.listeners[l].queue[0];
    assert HeldIn(n, InQueue(l, 0), h);
    if h in n.streams { assert HeldIn(n, InStream, h); }
  }

  // ── What service leaves behind ──────────────────────────────────────────────

  function ListenRule(t: Table): PoolSlot -> seq<PoolSlot> {
    (p: PoolSlot) => if SlotListens(t, p) then [p] else []
  }

  /** How many pool sockets are in LISTEN. */
  function Listening(t: Table, pool: seq<PoolSlot>): nat {
    |Collect(ListenRule(t), pool)|
  }

  ghost predicate WellServiced(t: Table, l: Listener) {
    && Listening(t, l.pool) >= LISTEN_POOL
    && forall p :: p in l.pool ==> WellMarked(t, p)
  }

  lemma {:induction false} IdlePermute(a: seq<PoolSlot>, b: seq<PoolSlot>)
    requires multiset(a) == multiset(b)
    ensures Idle(a) == Idle(b)
  {
    CollectPermute(IdleRule(), a, b);
    assert |multiset(Collect(IdleRule(), a))| == |multiset(Collect(IdleRule(), b))|;
  }

  lemma {:induction false} AllIdle(top: seq<PoolSlot>)
    requires forall p :: p in top ==> p.since.None?
    ensures Idle(top) == |top|
  {
    if top != [] {
      AllIdle(top[1..]);
      assert top[0] in top;
    }
  }

  /** A slot that was kept comes from a slot that was neither ready nor stuck. */
  lemma {:induction false} KeptFrom(t: Table, pool: seq<PoolSlot>, now: Time, p: PoolSlot) returns (q: PoolSlot)
    requires p in Collect(KeepRule(t, now), pool)
    ensures q in pool && !SlotReady(t, q) && !Stuck(t, q, now) && p == Mark(t, q, now)
  {
    CollectMember(KeepRule(t, now), pool, p);
    q :| q in pool && p in KeepRule(t, now)(q);
  }

  lemma {:induction false} ReapedFrom(t: Table, pool: seq<PoolSlot>, now: Time, h: Handle) returns (q: PoolSlot)
    requires h in Collect(ReapRule(t, now), pool)
    ensures q in pool && q.handle == h && !SlotReady(t, q) && Stuck(t, q, now)
  {
    CollectMember(ReapRule(t, now), pool, h);
    q :| q in pool && h in ReapRule(t, now)(q);
  }

  /** Slots of one pool with the same handle are the same slot. */
  lemma {:induction false} PoolSlotUnique(pool: seq<PoolSlot>, p: PoolSlot, q: PoolSlot)
    requires p in pool && q in pool && p.handle == q.handle
    requires multiset(Handles(pool))[p.handle] <= 1
    ensures p == q
  {
    HandlesAre(pool);
    var i :| 0 <= i < |pool| && pool[i] == p;
    var j :| 0 <= j < |pool| && pool[j] == q;
    if i < j { RepeatCounts(Handles(pool), i, j); }
    else if j < i { RepeatCounts(Handles(pool), j, i); }
  }

  /** The socket of a kept slot is still the one it was. */
  lemma {:induction false} KeptStays(t0: Table, pool: seq<PoolSlot>, now: Time, p: PoolSlot, q: PoolSlot)
    requires q in pool && !SlotReady(t0, q) && !Stuck(t0, q, now) && p == Mark(t0, q, now)
    requires multiset(Handles(pool))[q.handle] <= 1
    ensures p.handle !in Collect(ReapRule(t0, now), pool)
  {
    if p.handle in Collect(ReapRule(t0, now), pool) {
      var r := ReapedFrom(t0, pool, now, p.handle);
      PoolSlotUnique(pool, q, r);
    }
  }

  ghost predicate WellMarked(t: Table, p: PoolSlot) {
    p.handle in t && t[p.handle].Tcp? && !Ready(t[p.handle]) && (p.since.None? <==> t[p.handle].state.Listen?)
  }

  lemma {:induction false} InParts<T>(whole: seq<T>, a: seq<T>, b: seq<T>, x: T)
    requires multiset(whole) == multiset(a) + multiset(b) && x in whole
    ensures x in a || x in b
  {
    assert x in multiset(a) + multiset(b);
  }

  lemma {:induction false} KeptSlot(t0: Table, pool: seq<PoolSlot>, now: Time, p: PoolSlot)
    requires p in Collect(KeepRule(t0, now), pool)
    requires forall q :: q in pool ==> q.handle in t0 && t0[q.handle].Tcp? && multiset(Handles(pool))[q.handle] <= 1
    ensures WellMarked(t0, p) && p.handle !in Collect(ReapRule(t0, now), pool)
  {
    var q := KeptFrom(t0, pool, now, p);
    KeptStays(t0, pool, now, p, q);
  }

  lemma {:induction false} ServicedSlot(t0: Table, l0: Listener, now: Time, t1: Table, l1: Listener, moved: seq<Handle>, top: seq<Handle>, p: PoolSlot)
    requires Serviced(t0, l0, now, t1, l1, moved, top) && p in l1.pool
    requires forall q :: q in l0.pool ==> q.handle in t0 && t0[q.handle].Tcp? && multiset(Handles(l0.pool))[q.handle] <= 1
    ensures WellMarked(t1, p)
  {
    var kept := Collect(KeepRule(t0, now), l0.pool);
    InParts(l1.pool, kept, Slots(top), p);
    if p in kept {
      KeptSlot(t0, l0.pool, now, p);
    }
  }

  /** Topping up fills the pool: marks aside, at least LISTEN_POOL slots are idle. */
  lemma {:induction false} ToppedUp(kept: seq<PoolSlot>, top: seq<Handle>, pool: seq<PoolSlot>)
    requires multiset(pool) == multiset(kept) + multiset(Slots(top))
    requires |top| == if Idle(kept) < LISTEN_POOL then LISTEN_POOL - Idle(kept) else 0
    ensures Idle(pool) >= LISTEN_POOL
  {
    IdlePermute(pool, kept + Slots(top));
    CollectConcat(IdleRule(), kept, Slots(top));
    AllIdle(Slots(top));
  }

  lemma {:induction false} WellMarkedCount(t: Table, pool: seq<PoolSlot>)
    requires forall p :: p in pool ==> WellMarked(t, p)
    ensures Listening(t, pool) == Idle(pool)
  {
    CollectSame(IdleRule(), ListenRule(t), pool);
  }

  ghost predicate TurnAt(run: seq<Net>, now: Time, moved: seq<seq<Handle>>, tops: seq<seq<Handle>>, i: nat) {
    i + 1 < |run| && i < |moved| && i < |tops| && Services(run[i], i, now, moved[i], tops[i], run[i + 1])
  }

  /** The first |moved| turns of service_listeners, one listener after the other. */
  ghost predicate ServicePrefix(run: seq<Net>, now: Time, moved: seq<seq<Handle>>, tops: seq<seq<Handle>>) {
    && |run| == |moved| + 1 == |tops| + 1
    && forall i: nat {:trigger TurnAt(run, now, moved, tops, i)} :: i < |moved| ==> TurnAt(run, now, moved, tops, i)
  }

  /** All turns, in one locked section. */
  ghost predicate ServiceRun(run: seq<Net>, now: Time, moved: seq<seq<Handle>>, tops: seq<seq<Handle>>) {
    ServicePrefix(run, now, moved, tops) && |moved| == |run[0].listeners|
  }

  lemma {:induction false} ServiceSnoc(run: seq<Net>, now: Time, moved: seq<seq<Handle>>, tops: seq<seq<Handle>>, m: seq<Handle>, t: seq<Handle>, n: Net)
    requires ServicePrefix(run, now, moved, tops) && Services(run[|run| - 1], |moved|, now, m, t, n)
    ensures ServicePrefix(run + [n], now, moved + [m], tops + [t])
  {
    forall i: nat | i < |moved| + 1 ensures TurnAt(run + [n], now, moved + [m], tops + [t], i) {
      if i < |moved| { assert TurnAt(run, now, moved, tops, i); }
    }
  }

  lemma {:induction false} PoolOwned(n: Net, i: nat)
    requires Ownership(n) && i < |n.listeners|
    ensures forall q :: q in n.listeners[i].pool ==>
      q.handle in n.table && n.table[q.handle].Tcp? && multiset(Handles(n.listeners[i].pool))[q.handle] <= 1
  {
    var l := n.listeners[i];
    HandlesAre(l.pool);
    InListenersUpdate(n.listeners, i, l);
    forall q | q in l.pool
      ensures q.handle in n.table && n.table[q.handle].Tcp? && multiset(Handles(l.pool))[q.handle] <= 1
    {
      var k :| 0 <= k < |l.pool| && l.pool[k] == q;
      assert Handles(l.pool)[k] == q.handle && Owned(n, q.handle);
      assert Own(l)[q.handle] == multiset(Handles(l.pool))[q.handle] + multiset(l.queue)[q.handle];
    }
  }

  /** No handle of one pool is reaped with another. */
  lemma {:induction false} PoolsApart(n: Net, i: nat, now: Time, j: nat, p: PoolSlot)
    requires Ownership(n) && i < |n.listeners| && j < |n.listeners| && j != i && p in n.listeners[j].pool
    ensures p.handle in n.table && p.handle !in Collect(ReapRule(n.table, now), n.listeners[i].pool)
  {
    var pool := n.listeners[j].pool;
    PoolOwned(n, j);
    var a :| 0 <= a < |pool| && pool[a] == p;
    assert HeldIn(n, InPool(j, a), p.handle);
    if p.handle in Collect(ReapRule(n.table, now), n.listeners[i].pool) {
      var q := ReapedFrom(n.table, n.listeners[i].pool, now, p.handle);
      var b :| 0 <= b < |n.listeners[i].pool| && n.listeners[i].pool[b] == q;
      assert HeldIn(n, InPool(i, b), p.handle) && Owned(n, p.handle);
      OneRole(n, InPool(j, a), InPool(i, b), p.handle);
      assert false;
    }
  }

  /** Servicing one listener leaves the sockets of every other pool alone. */
  lemma {:induction false} ServicesFrames(n: Net, i: nat, now: Time, moved: seq<Handle>, top: seq<Handle>, n': Net, j: nat)
    requires Ownership(n) && Services(n, i, now, moved, top, n') && j < |n.listeners| && j != i
    requires WellServiced(n.table, n.listeners[j])
    ensures WellServiced(n'.table, n'.listeners[j]) && n'.listeners[j] == n.listeners[j]
  {
    var pool := n.listeners[j].pool;
    forall p | p in pool ensures p.handle in n'.table && n'.table[p.handle] == n.table[p.handle] {
      PoolsApart(n, i, now, j, p);
    }
    CollectSame(ListenRule(n.table), ListenRule(n'.table), pool);
  }

  ghost predicate FirstWell(n: Net, k: nat) {
    k <= |n.listeners| && forall j :: 0 <= j < k ==> WellServiced(n.table, n.listeners[j])
  }
}
