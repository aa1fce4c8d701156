/** Theorems about reassembly: coverage, arrival order and non-interference. */
module FragProofs {
  import opened Common
  import opened FragModel
  import opened Seqs

  // ── Non-interference between keys ───────────────────────────────────────────

  /**
   The run that sees every packet (`a`) and the run that sees only `k`'s packets
   (`b`) agree on `k`, except that `a` may have timed `k` out already.
   */
  ghost predicate Agree(a: Slots, b: Slots, k: Key, t: Time) {
    && (k in a ==> k in b && a[k] == b[k])
    && (k in b && k !in a ==> Expired(b[k], t))
  }

  /** Any other packet leaves them agreeing on the key. */
  lemma {:induction false} OtherPacketAgrees(a: Slots, b: Slots, k: Key, t: Time, pkt: seq<byte>, now: Time)
    requires AllSized(a) && AllSized(b) && Agree(a, b, k, t) && t <= now && !IsOf(k, Arrival(pkt, now))
    ensures Agree(Feed(a, pkt, now).0, b, k, now)
  {
  }

  lemma {:induction false} SameAgrees(a: Slots, b: Slots, k: Key, t: Time)
    requires Lookup(a, k) == Lookup(b, k)
    ensures Agree(a, b, k, t)
  {
  }

  lemma {:induction false} OutputsHead(slots: Slots, h: seq<Arrival>, k: Key)
    requires AllSized(slots) && h != []
    ensures var (next, out) := Feed(slots, h[0].pkt, h[0].at); var rest := OutputsOf(h[1..], Outputs(next, h[1..]), k);
      && OutputsOf(h, Outputs(slots, h), k) == (if IsOf(k, h[0]) then [out] + rest else rest)
      && (IsOf(k, h[0]) ==> Outputs(slots, Only(h, k)) == [out] + Outputs(next, Only(h[1..], k)))
      && (!IsOf(k, h[0]) ==> Only(h, k) == Only(h[1..], k))
  {
    var (next, out) := Feed(slots, h[0].pkt, h[0].at);
    assert Outputs(slots, h)[1..] == Outputs(next, h[1..]);
    if IsOf(k, h[0]) { assert Only(h, k)[1..] == Only(h[1..], k); }
  }

  lemma {:induction false} NonInterferenceFrom(a: Slots, b: Slots, h: seq<Arrival>, k: Key, t: Time)
    requires AllSized(a) && AllSized(b) && Agree(a, b, k, t)
    requires NonDecreasing(h) && (h != [] ==> t <= h[0].at)
    ensures OutputsOf(h, Outputs(a, h), k) == Outputs(b, Only(h, k))
    decreases |h|
  {
    if h != [] {
      var x := h[0];
      var a' := Feed(a, x.pkt, x.at).0;
      OutputsHead(a, h, k);
      if IsOf(k, x) {
        var b' := Feed(b, x.pkt, x.at).0;
        OutputsHead(b, h, k);
        SameAgrees(a', b', k, x.at);
        NonInterferenceFrom(a', b', h[1..], k, x.at);
      } else {
        OtherPacketAgrees(a, b, k, t, x.pkt, x.at);
        NonInterferenceFrom(a', b, h[1..], k, x.at);
      }
    }
  }

  /** Whatever else arrives, a key's outputs are those of its own packets fed alone. */
  lemma {:induction false} NonInterference(h: seq<Arrival>, k: Key)
    requires NonDecreasing(h)
    ensures OutputsOf(h, Outputs(map[], h), k) == Outputs(map[], Only(h, k))
  {
    NonInterferenceFrom(map[], map[], h, k, 0);
  }

  // ── The byte counter against the covered set ────────────────────────────────

  function Interval(lo: nat, hi: nat): (r: set<nat>)
    ensures forall p :: p in r <==> lo <= p < hi
    ensures |r| == if lo <= hi then hi - lo else 0
  {
    if lo >= hi then {} else Interval(lo, hi - 1) + {hi - 1}
  }

  /** Bytes received, as the counter sees them. */
  function SumLen(frags: seq<Fragment>): nat {
    if frags == [] then 0 else SumLen(frags[..|frags| - 1]) + |frags[|frags| - 1].payload|
  }

  /** Byte positions really covered by some fragment. */
  function Covered(frags: seq<Fragment>): set<nat> {
    if frags == [] then {}
    else Covered(frags[..|frags| - 1]) + Interval(frags[|frags| - 1].offset, frags[|frags| - 1].End())
  }

  ghost predicate Disjoint(f: Fragment, g: Fragment) {
    f.End() <= g.offset || g.End() <= f.offset || f.payload == [] || g.payload == []
  }

  ghost predicate PairwiseDisjoint(frags: seq<Fragment>) {
    forall i, j :: 0 <= i < j < |frags| ==> Disjoint(frags[i], frags[j])
  }

  ghost predicate Within(frags: seq<Fragment>, total: nat) {
    forall i :: 0 <= i < |frags| ==> frags[i].End() <= total
  }

  lemma {:induction false} CoveredIff(frags: seq<Fragment>, p: nat)
    ensures p in Covered(frags) <==> exists i :: 0 <= i < |frags| && frags[i].offset <= p < frags[i].End()
  {
    if frags != [] {
      var init, last := frags[..|frags| - 1], frags[|frags| - 1];
      CoveredIff(init, p);
      if p in Covered(init) {
        var i :| 0 <= i < |init| && init[i].offset <= p < init[i].End();
        assert frags[i] == init[i];
      }
      if i :| 0 <= i < |frags| && frags[i].offset <= p < frags[i].End() {
        assert i == |frags| - 1 || init[i] == frags[i];
      }
    }
  }

  /** For every history the counter is at least the covered size; disjointness makes it equal. */
  lemma {:induction false} CoveredSize(frags: seq<Fragment>)
    ensures |Covered(frags)| <= SumLen(frags)
    ensures PairwiseDisjoint(frags) ==> |Covered(frags)| == SumLen(frags)
  {
    if frags != [] {
      var init, last := frags[..|frags| - 1], frags[|frags| - 1];
      var add := Interval(last.offset, last.End());
      CoveredSize(init);
      assert |Covered(init) + add| == |Covered(init)| + |add| - |Covered(init) * add|;
      if PairwiseDisjoint(frags) {
        forall p | p in Covered(init) ensures p !in add {
          CoveredIff(init, p);
          var i :| 0 <= i < |init| && init[i].offset <= p < init[i].End();
          assert Disjoint(frags[i], last);
        }
        assert Covered(init) * add == {};
      }
    }
  }

  lemma {:induction false} SubsetOfEqualSize(a: set<nat>, b: set<nat>)
    requires a <= b && |a| >= |b|
    ensures a == b
  {
    assert b == a + (b - a);
    assert |b| == |a| + |b - a|;
  }

  lemma {:induction false} SubsetSize(a: set<nat>, b: set<nat>)
    requires a <= b
    ensures |a| <= |b|
  {
    assert b == a + (b - a);
    assert |b| == |a| + |b - a|;
  }

  /** The counter is never late: full coverage always satisfies it, whatever overlaps. */
  lemma {:induction false} CounterNeverLate(frags: seq<Fragment>, total: nat)
    requires Interval(0, total) <= Covered(frags)
    ensures SumLen(frags) >= total
  {
    CoveredSize(frags);
    SubsetSize(Interval(0, total), Covered(frags));
  }

  /** On disjoint fragments inside [0,total) the counter test is exactly coverage. */
  lemma {:induction false} CounterIsCoverage(frags: seq<Fragment>, total: nat)
    requires PairwiseDisjoint(frags) && Within(frags, total)
    ensures SumLen(frags) >= total <==> Interval(0, total) <= Covered(frags)
  {
    CoveredSize(frags);
    if SumLen(frags) >= total {
      forall p | p in Covered(frags) ensures p in Interval(0, total) { CoveredIff(frags, p); }
      SubsetOfEqualSize(Covered(frags), Interval(0, total));
    } else if Interval(0, total) <= Covered(frags) {
      CounterNeverLate(frags, total);
    }
  }

  /** Bytes that arrived for a place already covered. */
  function Repeated(frags: seq<Fragment>): nat {
    if frags == [] then 0
    else
      var init, last := frags[..|frags| - 1], frags[|frags| - 1];
      Repeated(init) + |Covered(init) * Interval(last.offset, last.End())|
  }

  lemma {:induction false} CountsRepeats(frags: seq<Fragment>)
    ensures SumLen(frags) == |Covered(frags)| + Repeated(frags)
  {
    if frags != [] {
      var init, last := frags[..|frags| - 1], frags[|frags| - 1];
      var add := Interval(last.offset, last.End());
      CountsRepeats(init);
      assert |Covered(init) + add| == |Covered(init)| + |add| - |Covered(init) * add|;
    }
  }

  /**
   Any history at all: the counter test holds exactly when the bytes still missing are no more
   than those that came twice or lie past the end. So it is coverage whenever there are none
   of these, and wrong exactly when there are holes and enough of these to fill them.
   */
  lemma {:induction false} CounterExactly(frags: seq<Fragment>, total: nat)
    ensures var holes, past := Interval(0, total) - Covered(frags), Covered(frags) - Interval(0, total);
      SumLen(frags) >= total <==> |holes| <= Repeated(frags) + |past|
  {
    var all, want := Covered(frags), Interval(0, total);
    CountsRepeats(frags);
    assert all + (want - all) == want + (all - want);
    assert |all + (want - all)| == |all| + |want - all|;
    assert |want + (all - want)| == |want| + |all - want|;
  }

  // ── One slot over its whole history ─────────────────────────────────────────

  ghost predicate Fits(frags: seq<Fragment>) {
    Within(frags, BUF_LEN)
  }

  function Accumulate(s: Slot, frags: seq<Fragment>): (r: Slot)
    requires |s.buf| == BUF_LEN && Fits(frags)
    ensures |r.buf| == BUF_LEN && r.created == s.created
    ensures r.src == s.src && r.dst == s.dst && r.nextHeader == s.nextHeader
  {
    if frags == [] then s
    else Absorb(Accumulate(s, frags[..|frags| - 1]), frags[|frags| - 1])
  }

  /** Index `last` is the one fragment with a clear M flag. */
  ghost predicate OneFinal(frags: seq<Fragment>, last: nat) {
    && last < |frags| && !frags[last].more
    && forall i :: 0 <= i < |frags| && i != last ==> frags[i].more
  }

  lemma {:induction false} AccumulateCounts(s: Slot, frags: seq<Fragment>)
    requires |s.buf| == BUF_LEN && Fits(frags)
    ensures Accumulate(s, frags).received == s.received + SumLen(frags)
    ensures (forall i :: 0 <= i < |frags| ==> frags[i].more) ==> Accumulate(s, frags).total == s.total
    ensures forall last: nat :: OneFinal(frags, last) ==> Accumulate(s, frags).total == Some(frags[last].End())
  {
    if frags != [] {
      var init := frags[..|frags| - 1];
      AccumulateCounts(s, init);
      forall last: nat | OneFinal(frags, last)
        ensures Accumulate(s, frags).total == Some(frags[last].End())
      {
        if last < |init| { assert OneFinal(init, last); }
      }
    }
  }

  /** Each covered byte is the byte of the one fragment that covers it. */
  lemma {:induction false} AccumulateByte(s: Slot, frags: seq<Fragment>, i: nat, p: nat)
    requires |s.buf| == BUF_LEN && Fits(frags) && PairwiseDisjoint(frags)
    requires i < |frags| && frags[i].offset <= p < frags[i].End()
    ensures Accumulate(s, frags).buf[p] == frags[i].payload[p - frags[i].offset]
    decreases |frags|
  {
    var init, last := frags[..|frags| - 1], frags[|frags| - 1];
    if i < |init| {
      AccumulateByte(s, init, i, p);
      assert Disjoint(frags[i], last);
    }
  }

  /**
   A slot fed disjoint ranges, one of them final and none past it: it completes
   exactly when [0,total) is covered, and then every byte is in its place.
   */
  lemma {:induction false} SlotCompletesExactly(s: Slot, frags: seq<Fragment>, last: nat)
    requires |s.buf| == BUF_LEN && s.received == 0
    requires Fits(frags) && PairwiseDisjoint(frags) && OneFinal(frags, last)
    requires Within(frags, frags[last].End())
    ensures var r := Accumulate(s, frags); var total := frags[last].End();
      && r.total == Some(total)
      && (Complete(r) <==> Interval(0, total) <= Covered(frags))
      && forall i, p | 0 <= i < |frags| && frags[i].offset <= p < frags[i].End() ::
           r.buf[p] == frags[i].payload[p - frags[i].offset]
  {
    AccumulateCounts(s, frags);
    CounterIsCoverage(frags, frags[last].End());
    forall i, p | 0 <= i < |frags| && frags[i].offset <= p < frags[i].End()
      ensures Accumulate(s, frags).buf[p] == frags[i].payload[p - frags[i].offset]
    {
      AccumulateByte(s, frags, i, p);
    }
  }

  // ── Any arrival order ───────────────────────────────────────────────────────

  /** `cut` is `payload` cut at 8-byte boundaries into non-empty fragments, in offset order. */
  ghost predicate IsCut(cut: seq<Fragment>, key: Key, nextHeader: byte, payload: seq<byte>) {
    && cut != [] && 1 <= |payload| <= 65535
    && cut[0].offset == 0 && cut[|cut| - 1].End() == |payload|
    && (forall i :: 0 <= i < |cut| ==>
          && cut[i].key == key && cut[i].nextHeader == nextHeader && cut[i].payload != []
          && (cut[i].more <==> i < |cut| - 1)
          && cut[i].offset % 8 == 0
          && cut[i].End() <= |payload| && cut[i].payload == payload[cut[i].offset..cut[i].End()])
    && (forall i :: 0 <= i < |cut| - 1 ==> cut[i].End() == cut[i + 1].offset)
  }

  lemma {:induction false} CutOrdered(cut: seq<Fragment>, key: Key, nextHeader: byte, payload: seq<byte>, i: nat, j: nat)
    requires IsCut(cut, key, nextHeader, payload) && i < j < |cut|
    ensures cut[i].End() <= cut[j].offset
    decreases j
  {
    if i < j - 1 {
      CutOrdered(cut, key, nextHeader, payload, i, j - 1);
    }
    assert cut[j - 1].End() == cut[j].offset;
  }

  lemma {:induction false} CutCovers(cut: seq<Fragment>, key: Key, nextHeader: byte, payload: seq<byte>, n: nat, p: nat)
    returns (i: nat)
    requires IsCut(cut, key, nextHeader, payload) && n < |cut| && p < cut[n].End()
    ensures i < |cut| && cut[i].offset <= p < cut[i].End()
    ensures cut[i].payload[p - cut[i].offset] == payload[p]
    decreases n
  {
    if cut[n].offset <= p {
      i := n;
    } else {
      assert n > 0 && cut[n - 1].End() == cut[n].offset;
      i := CutCovers(cut, key, nextHeader, payload, n - 1, p);
    }
  }

  /** An arrival order of a cut: the same fragments, each once. */
  ghost predicate IsOrder(order: seq<Fragment>, cut: seq<Fragment>) {
    multiset(order) == multiset(cut)
  }

  lemma {:induction false} CountsRepeat<T>(s: seq<T>, x: T) returns (i: nat, j: nat)
    requires multiset(s)[x] >= 2
    ensures i < j < |s| && s[i] == x && s[j] == x
  {
    i :| 0 <= i < |s| && s[i] == x;
    assert s == s[..i] + [x] + s[i + 1..];
    if x in s[..i] {
      j := i;
      i :| 0 <= i < j && s[..j][i] == x;
    } else {
      assert x in multiset(s[i + 1..]);
      var k :| 0 <= k < |s[i + 1..]| && s[i + 1..][k] == x;
      j := i + 1 + k;
    }
  }

  lemma {:induction false} OrderDistinct(order: seq<Fragment>, cut: seq<Fragment>, key: Key, nextHeader: byte, payload: seq<byte>, i: nat, j: nat)
    requires IsCut(cut, key, nextHeader, payload) && IsOrder(order, cut) && i < j < |order|
    ensures order[i] != order[j]
  {
    if order[i] == order[j] {
      RepeatCounts(order, i, j);
      var a, b := CountsRepeat(cut, order[i]);
      CutOrdered(cut, key, nextHeader, payload, a, b);
      assert false;
    }
  }

  lemma {:induction false} OrderFrom(order: seq<Fragment>, cut: seq<Fragment>, i: nat) returns (a: nat)
    requires IsOrder(order, cut) && i < |order|
    ensures a < |cut| && cut[a] == order[i]
  {
    assert order[i] in multiset(order);
    a :| 0 <= a < |cut| && cut[a] == order[i];
  }

  lemma {:induction false} OrderDisjoint(order: seq<Fragment>, cut: seq<Fragment>, key: Key, nextHeader: byte, payload: seq<byte>, i: nat, j: nat)
    requires IsCut(cut, key, nextHeader, payload) && IsOrder(order, cut) && i < j < |order|
    ensures Disjoint(order[i], order[j])
  {
    OrderDistinct(order, cut, key, nextHeader, payload, i, j);
    var a := OrderFrom(order, cut, i);
    var b := OrderFrom(order, cut, j);
    if a < b { CutOrdered(cut, key, nextHeader, payload, a, b); }
    else if b < a { CutOrdered(cut, key, nextHeader, payload, b, a); }
  }

  lemma {:induction false} OrderFacts(order: seq<Fragment>, cut: seq<Fragment>, key: Key, nextHeader: byte, payload: seq<byte>)
    requires IsCut(cut, key, nextHeader, payload) && IsOrder(order, cut)
    ensures |order| == |cut|
    ensures PairwiseDisjoint(order) && Within(order, |payload|)
    ensures forall i :: 0 <= i < |order| ==>
      order[i].payload != [] && order[i].key == key && order[i].nextHeader == nextHeader
    ensures exists last: nat :: OneFinal(order, last) && order[last].End() == |payload|
  {
    assert |multiset(order)| == |multiset(cut)|;
    forall i | 0 <= i < |order|
      ensures order[i].payload != [] && order[i].key == key && order[i].nextHeader == nextHeader && order[i].End() <= |payload|
    {
      var a := OrderFrom(order, cut, i);
    }
    forall i, j | 0 <= i < j < |order| ensures Disjoint(order[i], order[j]) {
      OrderDisjoint(order, cut, key, nextHeader, payload, i, j);
    }
    var f := cut[|cut| - 1];
    var last :| 0 <= last < |order| && order[last] == f by { assert f in multiset(order); }
    forall i | 0 <= i < |order| && i != last ensures order[i].more {
      OrderDistinct(order, cut, key, nextHeader, payload, if i < last then i else last, if i < last then last else i);
      var a := OrderFrom(order, cut, i);
    }
    assert OneFinal(order, last);
  }

  /** Before its last fragment a slot is never complete. */
  lemma {:induction false} PrefixIncomplete(s: Slot, order: seq<Fragment>, last: nat, total: nat, n: nat)
    requires |s.buf| == BUF_LEN && s.received == 0 && s.total == None
    requires total <= BUF_LEN && PairwiseDisjoint(order) && Within(order, total)
    requires OneFinal(order, last) && order[last].End() == total
    requires n < |order| && order[n].payload != []
    ensures !Complete(Accumulate(s, order[..n]))
  {
    var pre := order[..n];
    AccumulateCounts(s, pre);
    if last < n {
      assert OneFinal(pre, last) && pre[last].End() == total;
      CounterIsCoverage(pre, total);
      var p := order[n].offset;
      assert p in Interval(0, total) by { assert order[n].End() <= total; }
      CoveredIff(pre, p);
      assert p !in Covered(pre) by {
        forall i | 0 <= i < |pre| ensures !(pre[i].offset <= p < pre[i].End()) {
          assert Disjoint(order[i], order[n]);
        }
      }
    }
  }

  lemma {:induction false} OrderCovers(order: seq<Fragment>, cut: seq<Fragment>, key: Key, nextHeader: byte, payload: seq<byte>, p: nat)
    returns (i: nat)
    requires IsCut(cut, key, nextHeader, payload) && IsOrder(order, cut) && p < |payload|
    ensures i < |order| && order[i].offset <= p < order[i].End()
    ensures order[i].payload[p - order[i].offset] == payload[p]
    ensures p in Covered(order)
  {
    var c := CutCovers(cut, key, nextHeader, payload, |cut| - 1, p);
    i := OrderFrom(cut, order, c);
    CoveredIff(order, p);
  }

  /** Every byte of the payload is covered, and in its place. */
  lemma {:induction false} OrderByte(s: Slot, order: seq<Fragment>, cut: seq<Fragment>, key: Key, nextHeader: byte, payload: seq<byte>, p: nat)
    requires |s.buf| == BUF_LEN && p < |payload|
    requires IsCut(cut, key, nextHeader, payload) && IsOrder(order, cut)
    requires PairwiseDisjoint(order) && Within(order, |payload|)
    ensures p in Covered(order) && Accumulate(s, order).buf[p] == payload[p]
  {
    var i := OrderCovers(order, cut, key, nextHeader, payload, p);
    AccumulateByte(s, order, i, p);
  }

  lemma {:induction false} FullSlot(s: Slot, frags: seq<Fragment>, last: nat, payload: seq<byte>)
    requires |s.buf| == BUF_LEN && s.received == 0 && |payload| <= BUF_LEN
    requires PairwiseDisjoint(frags) && Within(frags, |payload|)
    requires OneFinal(frags, last) && frags[last].End() == |payload|
    requires forall p :: 0 <= p < |payload| ==> p in Covered(frags) && Accumulate(s, frags).buf[p] == payload[p]
    ensures var r := Accumulate(s, frags); Complete(r) && r.total == Some(|payload|) && r.buf[..|payload|] == payload
  {
    AccumulateCounts(s, frags);
    CounterNeverLate(frags, |payload|);
  }

  /** Once all fragments are in, the slot is complete and holds the payload. */
  lemma {:induction false} FullComplete(s: Slot, order: seq<Fragment>, cut: seq<Fragment>, key: Key, nextHeader: byte, payload: seq<byte>, last: nat)
    requires |s.buf| == BUF_LEN && s.received == 0
    requires IsCut(cut, key, nextHeader, payload) && IsOrder(order, cut)
    requires PairwiseDisjoint(order) && Within(order, |payload|)
    requires OneFinal(order, last) && order[last].End() == |payload|
    ensures var r := Accumulate(s, order);
      Complete(r) && r.total == Some(|payload|) && r.buf[..|payload|] == payload
  {
    forall p | 0 <= p < |payload| ensures p in Covered(order) && Accumulate(s, order).buf[p] == payload[p] {
      OrderByte(s, order, cut, key, nextHeader, payload, p);
    }
    FullSlot(s, order, last, payload);
  }

  // ── Running one key's packets ───────────────────────────────────────────────

  function FragsOf(arr: seq<Arrival>): (r: seq<Fragment>)
    requires forall a :: a in arr ==> Classify(a.pkt).Piece?
    ensures |r| == |arr| && forall i :: 0 <= i < |arr| ==> r[i] == Classify(arr[i].pkt).frag
  {
    seq(|arr|, i requires 0 <= i < |arr| => Classify(arr[i].pkt).frag)
  }

  /** One key on its own: its slot, timed out first, then the fragment. */
  function KeyStep(cur: Option<Slot>, f: Fragment, now: Time): (r: (Option<Slot>, Option<seq<byte>>))
    requires cur.Some? ==> WellSized(cur.value)
    requires |f.key.src| == 16 && |f.key.dst| == 16
    ensures r.0.Some? ==> WellSized(r.0.value)
  {
    FeedSlot(if cur.Some? && Expired(cur.value, now) then None else cur, f, now)
  }

  lemma {:induction false} FeedIsKeyStep(slots: Slots, pkt: seq<byte>, f: Fragment, now: Time)
    requires AllSized(slots) && Classify(pkt) == Piece(f)
    ensures |f.key.src| == 16 && |f.key.dst| == 16
    ensures var (next, out) := Feed(slots, pkt, now);
      KeyStep(Lookup(slots, f.key), f, now) == (Lookup(next, f.key), out)
  {
  }

  datatype Timed = Timed(frag: Fragment, at: Time)

  function Pieces(arr: seq<Arrival>): (r: seq<Timed>)
    requires forall a :: a in arr ==> Classify(a.pkt).Piece?
    ensures |r| == |arr|
    ensures forall i :: 0 <= i < |arr| ==> r[i].frag == Classify(arr[i].pkt).frag && r[i].at == arr[i].at
  {
    seq(|arr|, i requires 0 <= i < |arr| => Timed(Classify(arr[i].pkt).frag, arr[i].at))
  }

  ghost predicate Addressed(pieces: seq<Timed>) {
    forall p :: p in pieces ==> |p.frag.key.src| == 16 && |p.frag.key.dst| == 16
  }

  function KeyRun(cur: Option<Slot>, pieces: seq<Timed>): seq<Option<seq<byte>>>
    requires (cur.Some? ==> WellSized(cur.value)) && Addressed(pieces)
    decreases |pieces|
  {
    if pieces == [] then []
    else
      assert pieces[0] in pieces;
      var (next, out) := KeyStep(cur, pieces[0].frag, pieces[0].at);
      [out] + KeyRun(next, pieces[1..])
  }

  lemma {:induction false} OutputsAreKeyRun(slots: Slots, arr: seq<Arrival>, k: Key)
    requires AllSized(slots)
    requires forall a :: a in arr ==> Classify(a.pkt).Piece? && Classify(a.pkt).frag.key == k
    requires |k.src| == 16 && |k.dst| == 16
    ensures Addressed(Pieces(arr))
    ensures Outputs(slots, arr) == KeyRun(Lookup(slots, k), Pieces(arr))
    decreases |arr|
  {
    if arr != [] {
      assert arr[0] in arr;
      FeedIsKeyStep(slots, arr[0].pkt, Classify(arr[0].pkt).frag, arr[0].at);
      OutputsAreKeyRun(Feed(slots, arr[0].pkt, arr[0].at).0, arr[1..], k);
      assert Pieces(arr)[1..] == Pieces(arr[1..]);
    }
  }

  function Silent(n: nat): seq<Option<seq<byte>>> {
    seq(n, i => None)
  }

  ghost predicate Delivery(arr: seq<Arrival>, key: Key, cut: seq<Fragment>) {
    && NonDecreasing(arr)
    && (forall a :: a in arr ==> IsOf(key, a))
    && IsOrder(FragsOf(arr), cut)
    && forall i :: 0 <= i < |arr| ==> Since(arr[i].at, arr[0].at) < FRAG_TIMEOUT
  }

  lemma {:induction false} AccumulateSized(s: Slot, frags: seq<Fragment>)
    requires WellSized(s) && Fits(frags)
    ensures WellSized(Accumulate(s, frags))
  {
    if frags != [] { AccumulateSized(s, frags[..|frags| - 1]); }
  }

  /** The slot of the first n fragments takes the next one, and completes only on the last. */
  lemma {:induction false} DeliveryStep(s0: Slot, order: seq<Fragment>, last: nat, total: nat, n: nat, now: Time)
    requires WellSized(s0) && s0.received == 0 && s0.total == None && !Expired(s0, now)
    requires total <= BUF_LEN && PairwiseDisjoint(order) && Within(order, total)
    requires OneFinal(order, last) && order[last].End() == total
    requires n < |order| && |order[n].key.src| == 16 && |order[n].key.dst| == 16
    requires n + 1 < |order| ==> order[n + 1].payload != []
    ensures WellSized(Accumulate(s0, order[..n])) && WellSized(Accumulate(s0, order[..n + 1]))
    ensures n + 1 < |order| ==>
      KeyStep(Some(Accumulate(s0, order[..n])), order[n], now) == (Some(Accumulate(s0, order[..n + 1])), None)
  {
    AccumulateSized(s0, order[..n]);
    AccumulateSized(s0, order[..n + 1]);
    assert order[..n + 1][..n] == order[..n];
    if n + 1 < |order| { PrefixIncomplete(s0, order, last, total, n + 1); }
  }

  lemma {:induction false} FinalStep(s0: Slot, order: seq<Fragment>, cut: seq<Fragment>, key: Key, nextHeader: byte, payload: seq<byte>, last: nat, now: Time)
    requires WellSized(s0) && s0.received == 0 && s0.total == None && !Expired(s0, now)
    requires s0.src == key.src && s0.dst == key.dst && s0.nextHeader == nextHeader
    requires IsCut(cut, key, nextHeader, payload) && IsOrder(order, cut) && |order| > 0
    requires PairwiseDisjoint(order) && Within(order, |payload|)
    requires OneFinal(order, last) && order[last].End() == |payload|
    requires |order[|order| - 1].key.src| == 16 && |order[|order| - 1].key.dst| == 16
    ensures WellSized(Accumulate(s0, order[..|order| - 1]))
    ensures KeyStep(Some(Accumulate(s0, order[..|order| - 1])), order[|order| - 1], now)
         == (None, Some(Reassembled(key.src, key.dst, nextHeader, payload)))
  {
    var n := |order| - 1;
    DeliveryStep(s0, order, last, |payload|, n, now);
    FullComplete(s0, order, cut, key, nextHeader, payload, last);
    assert Accumulate(s0, order) == Absorb(Accumulate(s0, order[..n]), order[n]);
  }

  ghost predicate Quiet(s: Slot, p: Timed, next: Slot) {
    && |p.frag.key.src| == 16 && |p.frag.key.dst| == 16
    && WellSized(s) && KeyStep(Some(s), p.frag, p.at) == (Some(next), None)
  }

  ghost predicate Delivers(s: Slot, p: Timed, packet: seq<byte>) {
    && |p.frag.key.src| == 16 && |p.frag.key.dst| == 16
    && WellSized(s) && KeyStep(Some(s), p.frag, p.at) == (None, Some(packet))
  }

  /** A chain of quiet steps ending in a delivery outputs silence, then the packet. */
  lemma {:induction false} ChainOutputs(states: seq<Slot>, pieces: seq<Timed>, packet: seq<byte>)
    requires |states| == |pieces| > 0 && Addressed(pieces) && WellSized(states[0])
    requires forall i :: 0 <= i < |pieces| - 1 ==> Quiet(states[i], pieces[i], states[i + 1])
    requires Delivers(states[|pieces| - 1], pieces[|pieces| - 1], packet)
    ensures KeyRun(Some(states[0]), pieces) == Silent(|pieces| - 1) + [Some(packet)]
    decreases |pieces|
  {
    if |pieces| == 1 {
      assert pieces[1..] == [];
    } else {
      assert Quiet(states[0], pieces[0], states[1]);
      forall i | 0 <= i < |pieces| - 2 ensures Quiet(states[1..][i], pieces[1..][i], states[1..][i + 1]) {
        assert Quiet(states[i + 1], pieces[i + 1], states[i + 1 + 1]);
      }
      ChainOutputs(states[1..], pieces[1..], packet);
      assert [None] + Silent(|pieces| - 2) == Silent(|pieces| - 1);
    }
  }

  lemma {:induction false} FirstIsFresh(pieces: seq<Timed>, s0: Slot)
    requires pieces != [] && Addressed(pieces) && s0 == Fresh(pieces[0].frag, pieces[0].at)
    ensures WellSized(s0)
    ensures KeyRun(None, pieces) == KeyRun(Some(s0), pieces)
  {
    assert pieces[0] in pieces;
  }

  function States(s0: Slot, order: seq<Fragment>): (r: seq<Slot>)
    requires |s0.buf| == BUF_LEN && Fits(order)
    ensures |r| == |order| && forall i :: 0 <= i < |order| ==> r[i] == Accumulate(s0, order[..i])
  {
    seq(|order|, i requires 0 <= i < |order| => Accumulate(s0, order[..i]))
  }

  lemma {:induction false} QuietChain(s0: Slot, pieces: seq<Timed>, order: seq<Fragment>, last: nat, total: nat, i: nat)
    requires WellSized(s0) && s0.received == 0 && s0.total == None
    requires total <= BUF_LEN && PairwiseDisjoint(order) && Within(order, total)
    requires OneFinal(order, last) && order[last].End() == total
    requires |pieces| == |order| && Addressed(pieces) && i < |order| - 1
    requires pieces[i].frag == order[i] && order[i + 1].payload != [] && !Expired(s0, pieces[i].at)
    ensures Quiet(States(s0, order)[i], pieces[i], States(s0, order)[i + 1])
  {
    assert pieces[i] in pieces;
    DeliveryStep(s0, order, last, total, i, pieces[i].at);
  }

  /** The same at the level of fragments and times. */
  lemma {:induction false} DeliveryOfPieces(pieces: seq<Timed>, order: seq<Fragment>, key: Key, nextHeader: byte, payload: seq<byte>, cut: seq<Fragment>)
    requires IsCut(cut, key, nextHeader, payload) && IsOrder(order, cut)
    requires |key.src| == 16 && |key.dst| == 16
    requires |pieces| == |order| > 0 && Addressed(pieces)
    requires forall i :: 0 <= i < |pieces| ==> pieces[i].frag == order[i]
    requires forall i :: 0 <= i < |pieces| ==> Since(pieces[i].at, pieces[0].at) < FRAG_TIMEOUT
    ensures KeyRun(None, pieces)
         == Silent(|order| - 1) + [Some(Reassembled(key.src, key.dst, nextHeader, payload))]
  {
    OrderFacts(order, cut, key, nextHeader, payload);
    var last: nat :| OneFinal(order, last) && order[last].End() == |payload|;
    var s0, m := Fresh(order[0], pieces[0].at), |order| - 1;
    FirstIsFresh(pieces, s0);
    var states := States(s0, order);
    forall i | 0 <= i < m ensures Quiet(states[i], pieces[i], states[i + 1]) {
      QuietChain(s0, pieces, order, last, |payload|, i);
    }
    var packet := Reassembled(key.src, key.dst, nextHeader, payload);
    FinalStep(s0, order, cut, key, nextHeader, payload, last, pieces[m].at);
    assert Delivers(states[m], pieces[m], packet);
    assert order[..0] == [];
    ChainOutputs(states, pieces, packet);
  }

  lemma {:induction false} DeliveryAlone(arr: seq<Arrival>, key: Key, nextHeader: byte, payload: seq<byte>, cut: seq<Fragment>)
    requires IsCut(cut, key, nextHeader, payload) && Delivery(arr, key, cut)
    ensures Outputs(map[], arr)
         == Silent(|cut| - 1) + [Some(Reassembled(key.src, key.dst, nextHeader, payload))]
  {
    assert |multiset(FragsOf(arr))| == |multiset(cut)|;
    FeedIsKeyStep(map[], arr[0].pkt, Classify(arr[0].pkt).frag, arr[0].at) by { assert arr[0] in arr; }
    assert IsOf(key, arr[0]) by { assert arr[0] in arr; }
    OutputsAreKeyRun(map[], arr, key);
    DeliveryOfPieces(Pieces(arr), FragsOf(arr), key, nextHeader, payload, cut);
  }

  lemma {:induction false} OnlyNonDecreasing(h: seq<Arrival>, k: Key)
    requires NonDecreasing(h)
    ensures NonDecreasing(Only(h, k))
  {
    if h != [] {
      OnlyNonDecreasing(h[1..], k);
      forall i, j | 0 <= i < j < |Only(h, k)| ensures Only(h, k)[i].at <= Only(h, k)[j].at {
        if IsOf(k, h[0]) && i == 0 {
          assert Only(h, k)[j] == Only(h[1..], k)[j - 1];
          assert Only(h[1..], k)[j - 1] in h[1..];
        }
      }
    }
  }

  /**
   Fragments of a payload, each delivered once in any order within the time-out and
   mixed with any other traffic: nothing comes out until the last one, then the packet.
   */
  lemma {:induction false} AnyOrderReassembly(h: seq<Arrival>, key: Key, nextHeader: byte, payload: seq<byte>, cut: seq<Fragment>)
    requires IsCut(cut, key, nextHeader, payload)
    requires NonDecreasing(h)
    requires IsOrder(FragsOf(Only(h, key)), cut)
    requires forall a :: a in Only(h, key) ==> Since(a.at, Only(h, key)[0].at) < FRAG_TIMEOUT
    ensures OutputsOf(h, Outputs(map[], h), key)
         == Silent(|cut| - 1) + [Some(Reassembled(key.src, key.dst, nextHeader, payload))]
  {
    NonInterference(h, key);
    OnlyNonDecreasing(h, key);
    DeliveryAlone(Only(h, key), key, nextHeader, payload, cut);
  }

  lemma {:induction false} WordParts(offset: nat, res: nat, more: bool)
    requires offset < 65536 && offset % 8 == 0 && res < 4
    ensures var word := offset / 8 * 8 + res * 2 + (if more then 1 else 0);
      && word < 65536 && word / 8 * 8 == offset && (word % 2 != 0 <==> more)
  {
    var k, m: nat := offset / 8, if more then 1 else 0;
    Packed(k, res, m);
  }

  lemma {:induction false} Packed(k: nat, res: nat, m: nat)
    requires res < 4 && m < 2
    ensures (k * 8 + res * 2 + m) / 8 == k && (k * 8 + res * 2 + m) % 2 == m
  {
  }

  function Bytes16(w: nat): (r: seq<byte>)
    requires w < 65536
    ensures |r| == 2 && Word16(r[0], r[1]) == w
  {
    [w / 256, w % 256]
  }

  function Bytes32(id: nat): (r: seq<byte>)
    requires id < 0x1_0000_0000
    ensures |r| == 4 && Word32(r[0], r[1], r[2], r[3]) == id
  {
    Bytes16(id / 0x1_0000) + Bytes16(id % 0x1_0000)
  }

  /** The offset-and-M word; `res` is its reserved field. */
  function FragWord(offset: nat, res: nat, more: bool): (w: nat)
    requires offset < 65536 && offset % 8 == 0 && res < 4
    ensures w < 65536 && w / 8 * 8 == offset && (w % 2 != 0 <==> more)
  {
    WordParts(offset, res, more);
    offset / 8 * 8 + res * 2 + (if more then 1 else 0)
  }

  /** A packet carrying a fragment; `lead` is the first eight bytes of its IPv6 header. */
  function EncodeFragment(f: Fragment, reserved: byte, res: nat, lead: seq<byte>): seq<byte>
    requires |lead| == 8 && lead[6] == 44 && res < 4
    requires f.offset < 65536 && f.offset % 8 == 0
    requires |f.key.src| == 16 && |f.key.dst| == 16 && f.key.id < 0x1_0000_0000
  {
    lead + f.key.src + f.key.dst + [f.nextHeader, reserved]
    + Bytes16(FragWord(f.offset, res, f.more)) + Bytes32(f.key.id) + f.payload
  }

  lemma {:induction false} Layout(lead: seq<byte>, src: seq<byte>, dst: seq<byte>, two: seq<byte>, word: seq<byte>, id: seq<byte>, payload: seq<byte>)
    requires |lead| == 8 && |src| == 16 && |dst| == 16 && |two| == |word| == 2 && |id| == 4
    ensures var pkt := lead + src + dst + two + word + id + payload;
      && |pkt| >= 48 && pkt[6] == lead[6] && pkt[8..24] == src && pkt[24..40] == dst && pkt[40] == two[0]
      && pkt[42] == word[0] && pkt[43] == word[1]
      && pkt[44] == id[0] && pkt[45] == id[1] && pkt[46] == id[2] && pkt[47] == id[3] && pkt[48..] == payload
  {
  }

  /** Every fragment the header can express has packets that `feed` reads back as that fragment. */
  lemma {:induction false} EncodeClassify(f: Fragment, reserved: byte, res: nat, lead: seq<byte>)
    requires |lead| == 8 && lead[6] == 44 && res < 4
    requires f.offset < 65536 && f.offset % 8 == 0
    requires |f.key.src| == 16 && |f.key.dst| == 16 && f.key.id < 0x1_0000_0000
    ensures Classify(EncodeFragment(f, reserved, res, lead)) == Piece(f)
  {
    var w := FragWord(f.offset, res, f.more);
    Layout(lead, f.key.src, f.key.dst, [f.nextHeader, reserved], Bytes16(w), Bytes32(f.key.id), f.payload);
  }

  // ── A repeated fragment in place of a missing one ───────────────────────────

  function FirstThird(key: Key, p: seq<byte>): Fragment { Fragment(key, 17, 0, true, p) }

  function LastThird(key: Key, q: seq<byte>): Fragment { Fragment(key, 17, 2 * |q|, false, q) }

  ghost predicate Thirds(p: seq<byte>, q: seq<byte>) {
    |p| == |q| && 0 < 3 * |p| <= BUF_LEN && |p| % 4 == 0
  }

  lemma {:induction false} HoleBytes(p: seq<byte>, q: seq<byte>)
    requires Thirds(p, q)
    ensures var once := Overwrite(Zeros(BUF_LEN), 0, p); var n := |p|;
      && Overwrite(once, 0, p) == once
      && Overwrite(once, 2 * n, q)[..3 * n] == p + Zeros(n) + q
  {
    var once := Overwrite(Zeros(BUF_LEN), 0, p);
    assert Overwrite(once, 0, p) == once;
  }

  lemma {:induction false} LastFillsHole(key: Key, now: Time, p: seq<byte>, q: seq<byte>, s: Slot)
    requires Thirds(p, q) && |key.src| == 16 && |key.dst| == 16
    requires s == Slot(17, key.src, key.dst, None, 2 * |p|, Overwrite(Zeros(BUF_LEN), 0, p), now)
    ensures Delivers(s, Timed(LastThird(key, q), now), Reassembled(key.src, key.dst, 17, p + Zeros(|p|) + q))
  {
    HoleBytes(p, q);
  }

  lemma {:induction false} HoleRun(key: Key, now: Time, p: seq<byte>, q: seq<byte>)
    requires Thirds(p, q) && |key.src| == 16 && |key.dst| == 16
    ensures var a, c := Timed(FirstThird(key, p), now), Timed(LastThird(key, q), now);
      Addressed([a, a, c]) && KeyRun(None, [a, a, c]) == [None, None, Some(Reassembled(key.src, key.dst, 17, p + Zeros(|p|) + q))]
  {
    var a, c := FirstThird(key, p), LastThird(key, q);
    var pieces := [Timed(a, now), Timed(a, now), Timed(c, now)];
    var s0 := Fresh(a, now);
    var s1 := Absorb(s0, a);
    var states := [s0, s1, Absorb(s1, a)];
    LastFillsHole(key, now, p, q, states[2]);
    forall i | 0 <= i < 2 ensures Quiet(states[i], pieces[i], states[i + 1]) { if i == 0 {} else {} }
    FirstIsFresh(pieces, s0);
    ChainOutputs(states, pieces, Reassembled(key.src, key.dst, 17, p + Zeros(|p|) + q));
    assert Silent(2) == [None, None];
  }

  lemma {:induction false} HolePackets(first: seq<byte>, last: seq<byte>, key: Key, now: Time, p: seq<byte>, q: seq<byte>)
    requires Thirds(p, q) && |key.src| == 16 && |key.dst| == 16
    requires Classify(first) == Piece(FirstThird(key, p)) && Classify(last) == Piece(LastThird(key, q))
    ensures Outputs(map[], [Arrival(first, now), Arrival(first, now), Arrival(last, now)])
      == [None, None, Some(Reassembled(key.src, key.dst, 17, p + Zeros(|p|) + q))]
  {
    var arr := [Arrival(first, now), Arrival(first, now), Arrival(last, now)];
    OutputsAreKeyRun(map[], arr, key);
    var a, c := Timed(FirstThird(key, p), now), Timed(LastThird(key, q), now);
    assert Pieces(arr) == [a, a, c];
    HoleRun(key, now, p, q);
  }

  ghost predicate NeverSent(key: Key, p: seq<byte>, q: seq<byte>, i: nat) {
    i !in Covered([FirstThird(key, p), FirstThird(key, p), LastThird(key, q)])
  }

  lemma {:induction false} HoleIsHole(key: Key, p: seq<byte>, q: seq<byte>)
    requires Thirds(p, q)
    ensures forall i :: |p| <= i < 2 * |p| ==> NeverSent(key, p, q, i)
  {
    forall i | |p| <= i < 2 * |p| ensures NeverSent(key, p, q, i) {
      CoveredIff([FirstThird(key, p), FirstThird(key, p), LastThird(key, q)], i);
    }
  }

  /** Some packet carries the fragment. */
  lemma {:induction false} PacketOf(f: Fragment) returns (pkt: seq<byte>)
    requires f.offset < 65536 && f.offset % 8 == 0
    requires |f.key.src| == 16 && |f.key.dst| == 16 && f.key.id < 0x1_0000_0000
    ensures Classify(pkt) == Piece(f)
  {
    var lead := [0x60, 0, 0, 0, 0, 0, 44, 64];
    EncodeClassify(f, 0, 0, lead);
    pkt := EncodeFragment(f, 0, 0, lead);
  }

  /**
   Three packets, of which the second repeats the first: the packet that comes out has zeros in
   the middle third, which no fragment ever carried.
   */
  lemma {:induction false} DuplicateFillsHole(key: Key, now: Time, p: seq<byte>, q: seq<byte>) returns (first: seq<byte>, last: seq<byte>)
    requires Thirds(p, q) && |key.src| == 16 && |key.dst| == 16 && key.id < 0x1_0000_0000
    ensures Classify(first) == Piece(FirstThird(key, p)) && Classify(last) == Piece(LastThird(key, q))
    ensures Outputs(map[], [Arrival(first, now), Arrival(first, now), Arrival(last, now)])
      == [None, None, Some(Reassembled(key.src, key.dst, 17, p + Zeros(|p|) + q))]
    ensures forall i :: |p| <= i < 2 * |p| ==> NeverSent(key, p, q, i)
  {
    Doubled(|q|);
    first := PacketOf(FirstThird(key, p));
    last := PacketOf(LastThird(key, q));
    HolePackets(first, last, key, now, p, q);
    HoleIsHole(key, p, q);
  }

  lemma {:induction false} Doubled(n: nat)
    requires n % 4 == 0
    ensures 2 * n % 8 == 0
  {
    var m := n / 4;
    assert n == 4 * m;
    assert 2 * n == 8 * m;
  }
}
