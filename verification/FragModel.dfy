/**
 IPv6 fragment reassembly on values: what one fed packet does to the slot table.
 Times are nanoseconds.
 */
module FragModel {
  import opened Common

  const FRAG_TIMEOUT: nat := 60_000_000_000
  const BUF_LEN: nat := 65535

  datatype Key = Key(src: seq<byte>, dst: seq<byte>, id: nat)

  datatype Fragment = Fragment(key: Key, nextHeader: byte, offset: nat, more: bool, payload: seq<byte>) {
    function End(): nat { offset + |payload| }
  }

  /** How `feed` sorts an incoming packet. */
  datatype Kind = Plain | Runt | Piece(frag: Fragment)

  datatype Slot = Slot(nextHeader: byte, src: seq<byte>, dst: seq<byte>,
                       total: Option<nat>, received: nat, buf: seq<byte>, created: Time)

  type Slots = map<Key, Slot>

  function Word16(a: byte, b: byte): (w: nat)
    ensures w < 65536
  {
    a as int * 256 + b as int
  }

  function Word32(a: byte, b: byte, c: byte, d: byte): nat {
    Word16(a, b) * 65536 + Word16(c, d)
  }

  function Classify(pkt: seq<byte>): Kind {
    if |pkt| < 40 || pkt[6] != 44 then Plain
    else if |pkt| < 48 then Runt
    else
      var word := Word16(pkt[42], pkt[43]);
      Piece(Fragment(Key(pkt[8..24], pkt[24..40], Word32(pkt[44], pkt[45], pkt[46], pkt[47])),
                     pkt[40], word / 8 * 8, word % 2 != 0, pkt[48..]))
  }

  function Zeros(n: nat): (s: seq<byte>)
    ensures |s| == n && forall i :: 0 <= i < n ==> s[i] == 0
  {
    seq(n, i => 0)
  }

  function Fresh(f: Fragment, now: Time): Slot {
    Slot(f.nextHeader, f.key.src, f.key.dst, None, 0, Zeros(BUF_LEN), now)
  }

  function Overwrite(buf: seq<byte>, at: nat, data: seq<byte>): (r: seq<byte>)
    requires at + |data| <= |buf|
    ensures |r| == |buf|
    ensures forall i :: 0 <= i < |buf| ==>
      r[i] == if at <= i < at + |data| then data[i - at] else buf[i]
  {
    buf[..at] + data + buf[at + |data|..]
  }

  /** Write one fitting fragment into its slot. */
  function Absorb(s: Slot, f: Fragment): Slot
    requires f.End() <= |s.buf|
  {
    s.(buf := Overwrite(s.buf, f.offset, f.payload),
       received := s.received + |f.payload|,
       total := if f.more then s.total else Some(f.End()))
  }

  /** The rebuilt packet: a fresh IPv6 header, then the payload. */
  function Reassembled(src: seq<byte>, dst: seq<byte>, nextHeader: byte, payload: seq<byte>): seq<byte>
    requires |payload| <= BUF_LEN
  {
    [0x60, 0, 0, 0, |payload| / 256, |payload| % 256, nextHeader, 64] + src + dst + payload
  }

  predicate Complete(s: Slot) {
    s.total.Some? && s.received >= s.total.value
  }

  ghost predicate WellSized(s: Slot) {
    |s.buf| == BUF_LEN && |s.src| == 16 && |s.dst| == 16 && (s.total.Some? ==> s.total.value <= BUF_LEN)
  }

  /** What the slot of one key becomes when a fragment of that key arrives. */
  function FeedSlot(cur: Option<Slot>, f: Fragment, now: Time): (Option<Slot>, Option<seq<byte>>)
    requires cur.Some? ==> WellSized(cur.value)
  {
    var s := if cur.Some? then cur.value else Fresh(f, now);
    if f.End() > |s.buf| then (None, None)
    else
      var s' := Absorb(s, f);
      if Complete(s') then (None, Some(Reassembled(s'.src, s'.dst, s'.nextHeader, s'.buf[..s'.total.value])))
      else (Some(s'), None)
  }

  predicate Expired(s: Slot, now: Time) {
    Since(now, s.created) >= FRAG_TIMEOUT
  }

  function Evict(slots: Slots, now: Time): Slots {
    map k | k in slots && !Expired(slots[k], now) :: slots[k]
  }

  function Lookup(slots: Slots, k: Key): Option<Slot> {
    if k in slots then Some(slots[k]) else None
  }

  function Store(slots: Slots, k: Key, s: Option<Slot>): Slots {
    if s.Some? then slots[k := s.value] else slots - {k}
  }

  ghost predicate AllSized(slots: Slots) {
    forall k :: k in slots ==> WellSized(slots[k])
  }

  /** One call of `feed`: eviction first, then the packet. */
  function Feed(slots: Slots, pkt: seq<byte>, now: Time): (r: (Slots, Option<seq<byte>>))
    requires AllSized(slots)
    ensures AllSized(r.0)
  {
    var live := Evict(slots, now);
    match Classify(pkt)
    case Plain => (live, Some(pkt))
    case Runt => (live, None)
    case Piece(f) =>
      var (s, out) := FeedSlot(Lookup(live, f.key), f, now);
      (Store(live, f.key, s), out)
  }

  // ── Whole histories ─────────────────────────────────────────────────────────

  datatype Arrival = Arrival(pkt: seq<byte>, at: Time)

  ghost predicate NonDecreasing(h: seq<Arrival>) {
    forall i, j :: 0 <= i < j < |h| ==> h[i].at <= h[j].at
  }

  function After(slots: Slots, h: seq<Arrival>): (r: Slots)
    requires AllSized(slots)
    ensures AllSized(r)
    decreases |h|
  {
    if h == [] then slots else After(Feed(slots, h[0].pkt, h[0].at).0, h[1..])
  }

  /** The outputs of feeding a history, one per packet. */
  function Outputs(slots: Slots, h: seq<Arrival>): (r: seq<Option<seq<byte>>>)
    requires AllSized(slots)
    ensures |r| == |h|
    decreases |h|
  {
    if h == [] then []
    else
      var (next, out) := Feed(slots, h[0].pkt, h[0].at);
      [out] + Outputs(next, h[1..])
  }

  predicate IsOf(k: Key, a: Arrival) {
    Classify(a.pkt).Piece? && Classify(a.pkt).frag.key == k
  }

  /** The arrivals of one key, in order. */
  function Only(h: seq<Arrival>, k: Key): (r: seq<Arrival>)
    ensures forall a :: a in r ==> a in h && IsOf(k, a)
  {
    if h == [] then [] else (if IsOf(k, h[0]) then [h[0]] else []) + Only(h[1..], k)
  }

  /** The outputs at the positions of one key's arrivals. */
  function OutputsOf<T>(h: seq<Arrival>, outs: seq<T>, k: Key): seq<T>
    requires |outs| == |h|
  {
    if h == [] then []
    else (if IsOf(k, h[0]) then [outs[0]] else []) + OutputsOf(h[1..], outs[1..], k)
  }
}
