/** The results about every run: linear ownership, accept queues and serviced pools. */
module NetTheorems {
  import opened Common
  import opened Seqs
  import opened NetModel
  import opened NetProofs

  // ── Accept queues ───────────────────────────────────────────────────────────

  /**
   Short of a shutdown the logs only grow, and accept hands out exactly the oldest
   handle still waiting, to one new stream.
   */
  lemma {:induction false} StepExtendsLogs(n: Net, n': Net)
    requires Queues(n) && Step(n, n')
    ensures Extends(n, n') || (ShutsDown(n, n') && Queues(n'))
  {
    if QuietStep(n, n') {
      QuietKeepsListeners(n, n');
    } else if i: nat, now: Time, moved, top :| Services(n, i, now, moved, top, n') {
      ServicesExtends(n, i, now, moved, top, n');
    } else if port: nat, i: nat :| Accepts(n, port, i, n') {
      AcceptsExtends(n, port, i, n');
    } else if (exists port, i, w :: Awaits(n, port, i, w, n')) || (exists port, pool :: Listens(n, port, pool, n')) {
      AppendsExtend(n, n');
    }
  }

  // ── Every run ───────────────────────────────────────────────────────────────

  lemma {:induction false} RunInvariant(run: seq<Net>, i: nat)
    requires IsRun(run) && i < |run|
    ensures Ownership(run[i]) && Queues(run[i])
  {
    if i == 0 {
    } else {
      RunInvariant(run, i - 1);
      assert StepAt(run, i - 1);
      StepKeepsOwnership(run[i - 1], run[i]);
      StepExtendsLogs(run[i - 1], run[i]);
    }
  }

  /** In every state of every run no handle dangles and none has two owners. */
  lemma {:induction false} EveryRunLinear(run: seq<Net>, i: nat)
    requires IsRun(run) && i < |run|
    ensures Linear(run[i])
  {
    RunInvariant(run, i);
    OwnershipIsLinear(run[i]);
  }

  /** No accept wake-up is lost in any run, and each queue is first in, first out. */
  lemma {:induction false} EveryRunQueues(run: seq<Net>, i: nat, l: nat)
    requires IsRun(run) && i < |run| && l < |run[i].listeners|
    ensures run[i].listeners[l].queue != [] ==> run[i].listeners[l].wakers == []
    ensures |run[i].entered| == |run[i].accepted| == |run[i].listeners|
    ensures run[i].entered[l] == run[i].accepted[l] + run[i].listeners[l].queue
  {
    RunInvariant(run, i);
  }

  /** In every run an accept takes the oldest waiting handle, which no stream held before. */
  lemma {:induction false} EveryAcceptIsNew(run: seq<Net>, i: nat, l: nat)
    requires IsRun(run) && i + 1 < |run| && l < |run[i].listeners| && !ShutsDown(run[i], run[i + 1])
    ensures var n, n' := run[i], run[i + 1];
      && l < |n.accepted| == |n.listeners| <= |n'.accepted|
      && (n'.accepted[l] == n.accepted[l]
          || (n.listeners[l].queue != []
              && var h := n.listeners[l].queue[0];
                 n'.accepted[l] == n.accepted[l] + [h] && h !in n.streams && h in n'.streams))
  {
    RunInvariant(run, i);
    assert StepAt(run, i);
    StepExtendsLogs(run[i], run[i + 1]);
    OwnershipIsLinear(run[i]);
    if run[i].listeners[l].queue != [] { QueuedIsNoStream(run[i], l); }
  }

  // ── What service leaves behind ──────────────────────────────────────────────

  /** A serviced listener has its full pool of listening sockets, correctly marked, none ready. */
  lemma {:induction false} ServicedIsWell(t0: Table, l0: Listener, now: Time, t1: Table, l1: Listener, moved: seq<Handle>, top: seq<Handle>)
    requires Serviced(t0, l0, now, t1, l1, moved, top)
    requires forall q :: q in l0.pool ==> q.handle in t0 && t0[q.handle].Tcp? && multiset(Handles(l0.pool))[q.handle] <= 1
    ensures WellServiced(t1, l1)
  {
    forall p | p in l1.pool ensures WellMarked(t1, p) {
      ServicedSlot(t0, l0, now, t1, l1, moved, top, p);
    }
    ToppedUp(Collect(KeepRule(t0, now), l0.pool), top, l1.pool);
    WellMarkedCount(t1, l1.pool);
  }

  /** One turn adds its listener to those that are well serviced. */
  lemma {:induction false} TurnWell(n: Net, k: nat, now: Time, moved: seq<Handle>, top: seq<Handle>, n': Net)
    requires Ownership(n) && FirstWell(n, k) && Services(n, k, now, moved, top, n')
    ensures Ownership(n') && |n'.listeners| == |n.listeners| && FirstWell(n', k + 1)
  {
    ServicesKeeps(n, k, now, moved, top, n');
    forall j | 0 <= j <= k ensures WellServiced(n'.table, n'.listeners[j]) {
      if j < k {
        ServicesFrames(n, k, now, moved, top, n', j);
      } else {
        PoolOwned(n, k);
        ServicedIsWell(n.table, n.listeners[k], now, n'.table, n'.listeners[k], moved, top);
      }
    }
  }

  lemma {:induction false} TurnWellAt(run: seq<Net>, now: Time, moved: seq<seq<Handle>>, tops: seq<seq<Handle>>, i: nat)
    requires ServicePrefix(run, now, moved, tops) && i < |moved| && Ownership(run[i]) && FirstWell(run[i], i)
    ensures Ownership(run[i + 1]) && |run[i + 1].listeners| == |run[i].listeners| && FirstWell(run[i + 1], i + 1)
  {
    assert TurnAt(run, now, moved, tops, i);
    TurnWell(run[i], i, now, moved[i], tops[i], run[i + 1]);
  }

  lemma {:induction false} ServiceRunPrefix(run: seq<Net>, now: Time, moved: seq<seq<Handle>>, tops: seq<seq<Handle>>, i: nat)
    requires ServicePrefix(run, now, moved, tops) && Ownership(run[0]) && i < |run|
    ensures Ownership(run[i]) && |run[i].listeners| == |run[0].listeners| && FirstWell(run[i], i)
  {
    if i > 0 {
      ServiceRunPrefix(run, now, moved, tops, i - 1);
      TurnWellAt(run, now, moved, tops, i - 1);
    }
  }

  /** After every call of service_listeners every listener is well serviced. */
  lemma {:induction false} ServiceLeavesAllWell(run: seq<Net>, now: Time, moved: seq<seq<Handle>>, tops: seq<seq<Handle>>)
    requires ServiceRun(run, now, moved, tops) && Ownership(run[0])
    ensures var n := run[|run| - 1];
      Ownership(n) && |n.listeners| == |run[0].listeners|
      && forall j :: 0 <= j < |n.listeners| ==> WellServiced(n.table, n.listeners[j])
  {
    ServiceRunPrefix(run, now, moved, tops, |run| - 1);
  }

  /** Service never aborts or removes a socket that is in ESTABLISHED. */
  lemma {:induction false} ServiceSparesEstablished(n: Net, i: nat, now: Time, moved: seq<Handle>, top: seq<Handle>, n': Net, h: Handle)
    requires Services(n, i, now, moved, top, n')
    requires h in n.table && n.table[h].Tcp? && n.table[h].state.Established?
    ensures h in n'.table && n'.table[h] == n.table[h]
  {
    if h in Collect(ReapRule(n.table, now), n.listeners[i].pool) {
      var q := ReapedFrom(n.table, n.listeners[i].pool, now, h);
      assert false;
    }
  }
}
