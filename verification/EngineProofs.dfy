/** Keys, and what each call does to what is listed. */
module EngineProofs {
  import opened Common
  import opened Text
  import opened EngineModel

  // ── Keys of different kinds differ ──────────────────────────────────────────

  lemma {:induction false} KeyPrefix(kind: Kind, m: Mapping)
    ensures |Key(kind, m)| > 1 && Key(kind, m)[0] == Prefix(kind)[0] && Key(kind, m)[1] == Prefix(kind)[1]
  {
  }

  lemma {:induction false} KeysApart(k: Kind, m: Mapping, l: Kind, n: Mapping)
    requires Key(k, m) == Key(l, n)
    ensures k == l
  {
    KeyPrefix(k, m);
    KeyPrefix(l, n);
  }

  // ── What is listed ──────────────────────────────────────────────────────────

  ghost predicate ListedAs(ms: seq<Mapping>, kind: Kind, key: string) {
    exists m :: m in ms && Key(kind, m) == key
  }

  ghost predicate Listed(lists: Lists, key: string) {
    exists kind :: ListedAs(lists.Get(kind), kind, key)
  }

  lemma {:induction false} InKeysOf(kind: Kind, ms: seq<Mapping>, key: string)
    ensures key in KeysOf(kind, ms) <==> ListedAs(ms, kind, key)
  {
    var keys := KeysOf(kind, ms);
    if key in keys {
      var i :| 0 <= i < |keys| && keys[i] == key;
      assert ms[i] in ms && Key(kind, ms[i]) == key;
    }
    if m :| m in ms && Key(kind, m) == key {
      var i :| 0 <= i < |ms| && ms[i] == m;
      assert keys[i] == key;
    }
  }

  lemma {:induction false} InListedKeys(lists: Lists, key: string)
    ensures key in ListedKeys(lists) <==> Listed(lists, key)
  {
    InKeysOf(LocalTcp, lists.localTcp, key);
    InKeysOf(LocalUdp, lists.localUdp, key);
    InKeysOf(RemoteTcp, lists.remoteTcp, key);
    InKeysOf(RemoteUdp, lists.remoteUdp, key);
    forall kind: Kind ensures ListedAs(lists.Get(kind), kind, key) ==> key in ListedKeys(lists) {
      match kind { case LocalTcp => case LocalUdp => case RemoteTcp => case RemoteUdp => }
    }
    if key in KeysOf(LocalTcp, lists.localTcp) { assert ListedAs(lists.Get(LocalTcp), LocalTcp, key); }
    if key in KeysOf(LocalUdp, lists.localUdp) { assert ListedAs(lists.Get(LocalUdp), LocalUdp, key); }
    if key in KeysOf(RemoteTcp, lists.remoteTcp) { assert ListedAs(lists.Get(RemoteTcp), RemoteTcp, key); }
    if key in KeysOf(RemoteUdp, lists.remoteUdp) { assert ListedAs(lists.Get(RemoteUdp), RemoteUdp, key); }
  }

  lemma {:induction false} GetSet(lists: Lists, kind: Kind, ms: seq<Mapping>, other: Kind)
    ensures lists.Set(kind, ms).Get(other) == if other == kind then ms else lists.Get(other)
  {
  }

  lemma {:induction false} InWithout(kind: Kind, ms: seq<Mapping>, key: string, m: Mapping)
    ensures m in Without(kind, ms, key) <==> m in ms && Key(kind, m) != key
  {
    if ms != [] {
      InWithout(kind, ms[1..], key, m);
      assert ms == [ms[0]] + ms[1..];
    }
  }

  lemma {:induction false} AddLists(lists: Lists, kind: Kind, m: Mapping, key: string)
    ensures Listed(lists.Set(kind, lists.Get(kind) + [m]), key) <==> Listed(lists, key) || key == Key(kind, m)
  {
    var new_ := lists.Set(kind, lists.Get(kind) + [m]);
    forall k ensures ListedAs(new_.Get(k), k, key) <==> ListedAs(lists.Get(k), k, key) || (k == kind && key == Key(kind, m)) {
      GetSet(lists, kind, lists.Get(kind) + [m], k);
      if k == kind {
        if ListedAs(lists.Get(k), k, key) {
          var x :| x in lists.Get(k) && Key(k, x) == key;
          assert x in new_.Get(k);
        }
        assert m in new_.Get(kind);
      }
    }
    if Listed(lists, key) {
      var k :| ListedAs(lists.Get(k), k, key);
      assert ListedAs(new_.Get(k), k, key);
    }
    if key == Key(kind, m) { assert ListedAs(new_.Get(kind), kind, key); }
  }

  /** Removing takes the key out of the lists, all of it and nothing else. */
  lemma {:induction false} RemoveLists(lists: Lists, kind: Kind, m: Mapping, key: string)
    ensures Listed(lists.Set(kind, Without(kind, lists.Get(kind), Key(kind, m))), key)
      <==> Listed(lists, key) && key != Key(kind, m)
  {
    var less := Without(kind, lists.Get(kind), Key(kind, m));
    var new_ := lists.Set(kind, less);
    forall k ensures ListedAs(new_.Get(k), k, key) <==> ListedAs(lists.Get(k), k, key) && key != Key(kind, m) {
      GetSet(lists, kind, less, k);
      if k == kind {
        forall x ensures x in less <==> x in lists.Get(kind) && Key(kind, x) != Key(kind, m) {
          InWithout(kind, lists.Get(kind), Key(kind, m), x);
        }
        if ListedAs(lists.Get(k), k, key) && key != Key(kind, m) {
          var x :| x in lists.Get(k) && Key(k, x) == key;
          assert x in new_.Get(k);
        }
      } else if ListedAs(lists.Get(k), k, key) {
        var x :| x in lists.Get(k) && Key(k, x) == key;
        if key == Key(kind, m) { KeysApart(k, x, kind, m); }
      }
    }
    if Listed(lists, key) && key != Key(kind, m) {
      var k :| ListedAs(lists.Get(k), k, key);
      assert ListedAs(new_.Get(k), k, key);
    }
    if Listed(new_, key) {
      var k :| ListedAs(new_.Get(k), k, key);
      assert ListedAs(lists.Get(k), k, key);
    }
  }
}
