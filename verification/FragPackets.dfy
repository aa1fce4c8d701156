/** Reassembly byte by byte: what comes out, what passes through, and what is dropped. */
module FragPackets {
  import opened Common
  import opened Seqs
  import opened FragModel
  import opened FragProofs

  ghost predicate Continues(f: seq<byte>, out: seq<byte>) {
    |f| >= 48 && |out| >= 40 && out[8..40] == f[8..40] && out[6] == f[40]
  }

  lemma {:induction false} RebuiltBytes(src: seq<byte>, dst: seq<byte>, nextHeader: byte, payload: seq<byte>)
    requires |src| == |dst| == 16 && |payload| <= 65535
    ensures var out := Reassembled(src, dst, nextHeader, payload);
      && |out| == 40 + |payload| && out[0..4] == [0x60, 0, 0, 0] && out[4] as int * 256 + out[5] as int == |payload|
      && out[6] == nextHeader && out[7] == 64 && out[8..24] == src && out[24..40] == dst && out[40..] == payload
  {
  }

  lemma {:induction false} PieceBytes(pkt: seq<byte>, key: Key)
    requires Classify(pkt).Piece? && Classify(pkt).frag.key == key
    ensures |pkt| >= 48 && pkt[6] == 44 && pkt[8..24] == key.src && pkt[24..40] == key.dst
    ensures Classify(pkt).frag.nextHeader == pkt[40]
  {
  }

  lemma {:induction false} ContinuesFrom(pkt: seq<byte>, key: Key, nextHeader: byte, payload: seq<byte>)
    requires Classify(pkt).Piece? && Classify(pkt).frag.key == key && Classify(pkt).frag.nextHeader == nextHeader && |payload| <= 65535
    ensures Continues(pkt, Reassembled(key.src, key.dst, nextHeader, payload))
  {
    PieceBytes(pkt, key);
    var out := Reassembled(key.src, key.dst, nextHeader, payload);
    RebuiltBytes(key.src, key.dst, nextHeader, payload);
    assert out[8..40] == out[8..24] + out[24..40] && pkt[8..40] == pkt[8..24] + pkt[24..40];
  }

  lemma {:induction false} OrderedPiece(h: seq<Arrival>, key: Key, nextHeader: byte, payload: seq<byte>, cut: seq<Fragment>, a: Arrival)
    requires IsCut(cut, key, nextHeader, payload) && IsOrder(FragsOf(Only(h, key)), cut) && a in Only(h, key)
    ensures Classify(a.pkt).Piece? && Classify(a.pkt).frag.key == key && Classify(a.pkt).frag.nextHeader == nextHeader
  {
    var only := Only(h, key);
    var i :| 0 <= i < |only| && only[i] == a;
    assert IsOf(key, a);
    OrderFacts(FragsOf(only), cut, key, nextHeader, payload);
    assert FragsOf(only)[i] == Classify(a.pkt).frag;
  }

  /**
   The packet that any arrival order delivers: an IPv6 header of version 6 with the payload's
   length, the addresses of every fragment that was fed, and their next header, then the payload;
   unless that next header says fragment again, feeding it back passes it through.
   */
  lemma {:induction false} DeliveredPacket(h: seq<Arrival>, key: Key, nextHeader: byte, payload: seq<byte>, cut: seq<Fragment>)
    returns (out: seq<byte>)
    requires IsCut(cut, key, nextHeader, payload)
    requires NonDecreasing(h)
    requires IsOrder(FragsOf(Only(h, key)), cut)
    requires forall a :: a in Only(h, key) ==> Since(a.at, Only(h, key)[0].at) < 60_000_000_000
    ensures OutputsOf(h, Outputs(map[], h), key) == Silent(|cut| - 1) + [Some(out)]
    ensures |out| == 40 + |payload| && out[40..] == payload && out[4] as int * 256 + out[5] as int == |payload|
    ensures out[0] / 16 == 6 && out[0..4] == [0x60, 0, 0, 0] && out[6] == nextHeader && out[7] == 64
    ensures forall a :: a in Only(h, key) ==> Continues(a.pkt, out)
    ensures nextHeader != 44 ==> forall slots, now :: AllSized(slots) ==> Feed(slots, out, now).1 == Some(out)
  {
    out := Reassembled(key.src, key.dst, nextHeader, payload);
    AnyOrderReassembly(h, key, nextHeader, payload, cut);
    assert |multiset(FragsOf(Only(h, key)))| == |multiset(cut)|;
    OrderedPiece(h, key, nextHeader, payload, cut, Only(h, key)[0]);
    PieceBytes(Only(h, key)[0].pkt, key);
    RebuiltBytes(key.src, key.dst, nextHeader, payload);
    forall a | a in Only(h, key) ensures Continues(a.pkt, out) {
      OrderedPiece(h, key, nextHeader, payload, cut, a);
      ContinuesFrom(a.pkt, key, nextHeader, payload);
    }
  }

  // ── The other branches of feed ──────────────────────────────────────────────

  /** The slots of less than 60 seconds, in nanoseconds, and no others. */
  ghost predicate OnlyFresh(slots: Slots, now: Time, slots': Slots, k: Key) {
    if k in slots && now < slots[k].created + 60_000_000_000 then k in slots' && slots'[k] == slots[k] else k !in slots'
  }

  /** Anything but a fragment passes through; it only times slots out. */
  lemma {:induction false} PassesThrough(slots: Slots, pkt: seq<byte>, now: Time, k: Key)
    requires AllSized(slots) && (|pkt| < 40 || pkt[6] != 44)
    ensures var (next, out) := Feed(slots, pkt, now); out == Some(pkt) && OnlyFresh(slots, now, next, k)
  {
  }

  /** A fragment cut off inside its extension header is dropped. */
  lemma {:induction false} DropsRunt(slots: Slots, pkt: seq<byte>, now: Time, k: Key)
    requires AllSized(slots) && 40 <= |pkt| < 48 && pkt[6] == 44
    ensures var (next, out) := Feed(slots, pkt, now); out == None && OnlyFresh(slots, now, next, k)
  {
  }

  /** The offset in bytes that a fragment's extension header carries. */
  function OffsetOf(pkt: seq<byte>): nat
    requires |pkt| >= 48
  {
    (pkt[42] as int * 256 + pkt[43] as int) / 8 * 8
  }

  /** A fragment that would end past byte 65535 is dropped with everything its key had. */
  lemma {:induction false} DropsOversize(slots: Slots, pkt: seq<byte>, now: Time, k: Key)
    requires AllSized(slots) && |pkt| >= 48 && pkt[6] == 44 && OffsetOf(pkt) + |pkt| - 48 > 65535
    ensures var (next, out) := Feed(slots, pkt, now);
      && out == None
      && if IsOf(k, Arrival(pkt, now)) then k !in next else OnlyFresh(slots, now, next, k)
  {
  }

  /** A fragment never touches another key's slot. */
  lemma {:induction false} SparesOtherKeys(slots: Slots, pkt: seq<byte>, now: Time, k: Key)
    requires AllSized(slots) && !IsOf(k, Arrival(pkt, now))
    ensures OnlyFresh(slots, now, Feed(slots, pkt, now).0, k)
  {
  }
}
