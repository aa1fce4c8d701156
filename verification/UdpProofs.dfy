/** Whole runs of the session table: isolation, reachability, and which listeners survive a stop. */
module UdpProofs {
  import opened Common
  import opened UdpModel
  import opened UdpSteps

  /**
   In every run: a session's socket is its client's, replies on a socket go to that client
   only, and no socket has two unfinished listeners.
   */
  lemma {:induction false} EveryRunIsolates(run: seq<World>, variant: Variant, i: nat)
    requires IsRun(run, variant) && i < |run|
    ensures var w := run[i];
      && (forall a :: a in w.sessions ==> w.sessions[a].socket < |w.owner| && w.owner[w.sessions[a].socket] == a)
      && (forall r :: r in w.replies ==> r.socket < |w.owner| && r.client == w.owner[r.socket])
      && OneListenerPerSocket(w)
  {
    RunGood(run, variant, i);
  }

  /** A socket's client never changes, and sent replies stay as they were sent. */
  lemma {:induction false} OwnersAreForEver(run: seq<World>, variant: Variant, i: nat, j: nat)
    requires IsRun(run, variant) && i <= j < |run|
    ensures run[i].owner <= run[j].owner && run[i].replies <= run[j].replies
    decreases j
  {
    if i < j {
      OwnersAreForEver(run, variant, i, j - 1);
      RunGood(run, variant, j - 1);
      assert StepAt(run, variant, j - 1);
      StepKeeps(run[j - 1], variant, run[j]);
    }
  }

  // ── Every unfinished listener can be stopped ────────────────────────────────

  /**
   If no send takes as long as the session time-out, every unfinished listener can be reached
   from the table at every moment, and none is left once the stop drain is done.
   */
  lemma {:induction false} PromptSendsLeaveNoOrphan(run: seq<World>, variant: Variant, i: nat)
    requires IsRun(run, variant) && i < |run|
    requires forall j :: 0 <= j <= i ==> Prompt(run[j])
    ensures Reachable(run[i])
    ensures run[i].phase.Stopped? ==> forall l: ListenerId :: !Running(run[i], l)
  {
    if i > 0 {
      PromptSendsLeaveNoOrphan(run, variant, i - 1);
      RunGood(run, variant, i - 1);
      assert StepAt(run, variant, i - 1);
      StepReachable(run[i - 1], variant, run[i]);
    }
  }

  // ── Exactly which listeners survive the stop ────────────────────────────────

  /** Storing loses the listener exactly when its session was evicted meanwhile. */
  lemma {:induction false} StoreLosesExactlyWhenEvicted(w: World, now: Time, w': World)
    requires Good(w) && Stores(w, now, w') && Running(w, w.phase.listener) && !InTable(w, w.phase.listener)
    ensures Orphan(w', w.phase.listener) <==> w.phase.from !in w.sessions
    ensures InTable(w', w.phase.listener) <==> w.phase.from in w.sessions
  {
    var from, id := w.phase.from, w.phase.listener;
    if from in w.sessions { Resurvives(w, w', id, from); }
  }

  /** The drain ends every listener but the orphans. */
  lemma {:induction false} DrainLeavesExactlyOrphans(w: World, now: Time, w': World, l: ListenerId)
    requires Drains(w, now, w')
    ensures Running(w', l) <==> Orphan(w, l)
    ensures Orphan(w', l) <==> Orphan(w, l)
  {
    assert InTable(w, l) <==> Lists(w.sessions, l);
  }

  /** No step but a losing store makes an orphan, and none but its own exit ends one. */
  lemma {:induction false} StepOrphan(w: World, variant: Variant, w': World, l: ListenerId)
    requires Good(w) && Step(w, variant, w')
    ensures Orphan(w', l) ==> Orphan(w, l) || Loses(w, l, w')
    ensures Loses(w, l, w') ==> Orphan(w', l)
    ensures Orphan(w, l) ==> Orphan(w', l) || Exits(w, l, w')
  {
    if Loses(w, l, w') {
      var now: Time :| Stores(w, now, w');
      StoresOrphan(w, now, w', l);
    } else if from, now: Time :| Receives(w, from, now, w') {
      ReceivesKeepsTable(w, from, now, w', l);
    } else if ok, now: Time :| Sends(w, variant, ok, now, w') {
      SendsNoOrphan(w, variant, ok, now, w', l);
    } else if now: Time :| Stores(w, now, w') {
      StoresOrphan(w, now, w', l);
    } else if now: Time :| Evicts(w, now, w') {
      EvictsOrphan(w, now, w', l);
    } else if m: ListenerId :| Exits(w, m, w') {
      ExitsOrphan(w, m, w', l);
    } else if now: Time :| Drains(w, now, w') {
      DrainLeavesExactlyOrphans(w, now, w', l);
    } else {
      assert w'.sessions == w.sessions && w'.listeners == w.listeners;
      assert InTable(w, l) <==> InTable(w', l);
    }
  }

  lemma {:induction false} RunOrphan(run: seq<World>, variant: Variant, l: ListenerId, i: nat)
    requires IsRun(run, variant) && i + 1 < |run|
    ensures Orphan(run[i + 1], l) ==> Orphan(run[i], l) || Loses(run[i], l, run[i + 1])
    ensures Loses(run[i], l, run[i + 1]) ==> Orphan(run[i + 1], l)
    ensures Orphan(run[i], l) && !ExitsAt(run, l, i) ==> Orphan(run[i + 1], l)
  {
    RunStep(run, variant, i);
    StepOrphan(run[i], variant, run[i + 1], l);
  }

  lemma {:induction false} OrphanStays(run: seq<World>, variant: Variant, l: ListenerId, i: nat, e: nat)
    requires IsRun(run, variant) && i <= e && Left(run, l, i, e) && Orphan(run[i], l)
    ensures Orphan(run[e], l)
    decreases e
  {
    if i < e {
      var k := e - 1;
      OrphanStays(run, variant, l, i, k);
      assert !ExitsAt(run, l, k);
      RunOrphan(run, variant, l, k);
    }
  }

  lemma {:induction false} LostStaysOrphan(run: seq<World>, variant: Variant, l: ListenerId, i: nat, e: nat)
    requires IsRun(run, variant) && LostAndLeft(run, l, i, e)
    ensures Orphan(run[e], l)
  {
    RunOrphan(run, variant, l, i);
    OrphanStays(run, variant, l, i + 1, e);
  }

  lemma {:induction false} OrphanWasLost(run: seq<World>, variant: Variant, l: ListenerId, e: nat) returns (i: nat)
    requires IsRun(run, variant) && e < |run| && Orphan(run[e], l)
    ensures LostAndLeft(run, l, i, e)
    decreases e
  {
    i := 0;
    if e > 0 {
      var k := e - 1;
      RunOrphan(run, variant, l, k);
      if Loses(run[k], l, run[k + 1]) {
        i := k;
      } else {
        i := OrphanWasLost(run, variant, l, k);
        LeftOnce(run, l, i, k);
      }
    }
  }

  /** In every run a listener is an orphan exactly when it was lost at some store and has not exited since. */
  lemma {:induction false} OrphanExactly(run: seq<World>, variant: Variant, l: ListenerId, e: nat)
    requires IsRun(run, variant) && e < |run|
    ensures Orphan(run[e], l) <==> exists i :: LostAndLeft(run, l, i, e)
  {
    if Orphan(run[e], l) {
      var i := OrphanWasLost(run, variant, l, e);
    }
    if i: nat :| LostAndLeft(run, l, i, e) { LostStaysOrphan(run, variant, l, i, e); }
  }

  /**
   In every run, once the stop drain is done: a listener is still running if and only if it was
   stored with its session evicted, and has not ended by itself since.
   */
  lemma {:induction false} SurvivesStopExactly(run: seq<World>, variant: Variant, l: ListenerId, e: nat)
    requires IsRun(run, variant) && e < |run| && run[e].phase.Stopped?
    ensures Running(run[e], l) <==> exists i :: LostAndLeft(run, l, i, e)
  {
    StoppedIsEmpty(run, variant, e);
    OrphanExactly(run, variant, l, e);
  }

  /** A send of 30 seconds with an eviction tick in it leaves a listener that stop does not reach. */
  lemma {:induction false} SlowSendLeavesOrphan(from: Addr)
    ensures var run := SlowRun(from); IsRun(run, Local) && run[6].phase.Stopped? && Running(run[6], 0)
  {
    var run := SlowRun(from);
    assert Receives(run[0], from, 0, run[1]);
    assert Evicts(run[1], 30_000, run[2]) by {
      assert StaleSessions(run[1].sessions, 30_000) == run[1].sessions;
      assert Evict(run[1], 30_000).sessions == map[];
    }
    assert Sends(run[2], Local, true, 30_000, run[3]);
    assert Stores(run[3], 30_000, run[4]);
    assert Stops(run[4], run[5]);
    assert Drains(run[5], 30_000, run[6]) by {
      assert Aborted(run[5].listeners, map[]) == run[5].listeners;
    }
    forall i: nat | i < 6 ensures StepAt(run, Local, i) {
      if i == 0 {} else if i == 1 {} else if i == 2 {} else if i == 3 {} else if i == 4 {} else {}
    }
  }

  /** The storing counts too: a send of under 30 seconds, with the eviction tick just before its listener is stored. */
  lemma {:induction false} SlowStoreLeavesOrphan(from: Addr)
    ensures var run := SlowStoreRun(from); IsRun(run, Local) && run[6].phase.Stopped? && Running(run[6], 0)
    ensures SlowStoreRun(from)[2].clock < SESSION_TTL
  {
    var run := SlowStoreRun(from);
    assert Receives(run[0], from, 0, run[1]);
    assert Sends(run[1], Local, true, 29_999, run[2]);
    assert Evicts(run[2], 30_000, run[3]) by {
      var gone := StaleSessions(run[2].sessions, 30_000);
      assert gone == run[2].sessions && !Lists(gone, 0);
      assert Evict(run[2], 30_000).sessions == map[];
      assert Aborted(run[2].listeners, gone) == run[2].listeners;
    }
    assert Stores(run[3], 30_000, run[4]);
    assert Stops(run[4], run[5]);
    assert Drains(run[5], 30_000, run[6]) by {
      assert Aborted(run[5].listeners, map[]) == run[5].listeners;
    }
    forall i: nat | i < 6 ensures StepAt(run, Local, i) {
      if i == 0 {} else if i == 1 {} else if i == 2 {} else if i == 3 {} else if i == 4 {} else {}
    }
  }
}
