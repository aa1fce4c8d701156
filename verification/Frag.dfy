/** The reassembler itself: a table of slots, each with its own fixed buffer, updated in place. */
module Frag {
  import opened Common
  import Model = FragModel

  class FragSlot {
    const nextHeader: byte
    const src: seq<byte>
    const dst: seq<byte>
    var total: Option<nat>
    var received: nat
    const buf: array<byte>
    const created: Time

    ghost function View(): Model.Slot
      reads this, buf
    {
      Model.Slot(nextHeader, src, dst, total, received, buf[..], created)
    }

    constructor (f: Model.Fragment, now: Time)
      ensures View() == Model.Fresh(f, now)
      ensures fresh(buf)
    {
      nextHeader, src, dst, created := f.nextHeader, f.key.src, f.key.dst, now;
      total, received := None, 0;
      buf := new byte[Model.BUF_LEN](i => 0);
      new;
      assert buf[..] == Model.Zeros(Model.BUF_LEN);
    }

    /** Copy a payload in, count it, and note the total when M is clear. */
    method Write(f: Model.Fragment)
      requires f.End() <= buf.Length
      modifies this, buf
      ensures View() == Model.Absorb(old(View()), f)
    {
      CopyInto(buf, f.offset, f.payload);
      received := received + |f.payload|;
      if !f.more {
        total := Some(f.End());
      }
    }
  }

  /** `copy_from_slice`. */
  method CopyInto(a: array<byte>, at: nat, data: seq<byte>)
    requires at + |data| <= a.Length
    modifies a
    ensures a[..] == Model.Overwrite(old(a[..]), at, data)
  {
    var i := 0;
    while i < |data|
      invariant 0 <= i <= |data|
      invariant forall j :: 0 <= j < a.Length ==>
        a[j] == if at <= j < at + i then data[j - at] else old(a[j])
    {
      a[at + i] := data[i];
      i := i + 1;
    }
  }

  method BuildReassembled(src: seq<byte>, dst: seq<byte>, nextHeader: byte, payload: seq<byte>) returns (pkt: array<byte>)
    requires |src| == 16 && |dst| == 16 && |payload| <= Model.BUF_LEN
    ensures fresh(pkt)
    ensures pkt[..] == Model.Reassembled(src, dst, nextHeader, payload)
  {
    pkt := new byte[40 + |payload|](i => 0);
    pkt[0] := 0x60;
    pkt[4] := |payload| / 256;
    pkt[5] := |payload| % 256;
    pkt[6] := nextHeader;
    pkt[7] := 64;
    assert pkt[..8] == [0x60, 0, 0, 0, |payload| / 256, |payload| % 256, nextHeader, 64];
    CopyInto(pkt, 8, src);
    CopyInto(pkt, 24, dst);
    CopyInto(pkt, 40, payload);
    assert pkt[..] == Model.Reassembled(src, dst, nextHeader, payload);
  }

  /** Inserting a fresh slot first changes nothing in what feeding a fragment leaves behind. */
  lemma {:induction false} EntryIsTransparent(was: Model.Slots, f: Model.Fragment, now: Time)
    requires Model.AllSized(was) && |f.key.src| == 16 && |f.key.dst| == 16
    ensures var entered := if f.key in was then was else was[f.key := Model.Fresh(f, now)];
      var r := Model.FeedSlot(Some(entered[f.key]), f, now);
      && Model.WellSized(entered[f.key])
      && r == Model.FeedSlot(Model.Lookup(was, f.key), f, now)
      && Model.Store(entered, f.key, r.0) == Model.Store(was, f.key, r.0)
  {
  }

  class FragReassembler {
    var slots: map<Model.Key, FragSlot>
    ghost var View: Model.Slots
    ghost var Repr: set<object>

    /** `View` is the table on values; no two keys share a slot or a buffer. */
    ghost predicate Valid()
      reads this, Repr
    {
      && this in Repr && slots.Keys == View.Keys && Model.AllSized(View)
      && (forall k :: k in slots ==> slots[k] in Repr && slots[k].buf in Repr && slots[k].View() == View[k])
      && (forall k, l :: k in slots && l in slots && k != l ==> slots[k] != slots[l] && slots[k].buf != slots[l].buf)
    }

    constructor ()
      ensures Valid() && View == map[]
      ensures fresh(Repr)
    {
      slots, View, Repr := map[], map[], {this};
    }

    method EvictExpired(now: Time)
      requires Valid()
      modifies this
      ensures Valid() && Repr == old(Repr)
      ensures View == Model.Evict(old(View), now)
    {
      slots := map k | k in slots && Since(now, slots[k].created) < Model.FRAG_TIMEOUT :: slots[k];
      View := Model.Evict(View, now);
    }

    /** `entry(key).or_insert_with(..)`. */
    method Entry(f: Model.Fragment, now: Time)
      requires Valid() && |f.key.src| == 16 && |f.key.dst| == 16
      modifies this
      ensures Valid() && fresh(Repr - old(Repr)) && f.key in slots
      ensures View == if f.key in old(View) then old(View) else old(View)[f.key := Model.Fresh(f, now)]
    {
      if f.key !in slots {
        var created := new FragSlot(f, now);
        slots := slots[f.key := created];
        View := View[f.key := Model.Fresh(f, now)];
        Repr := Repr + {created, created.buf};
      }
    }

    method Remove(key: Model.Key)
      requires Valid()
      modifies this
      ensures Valid() && Repr == old(Repr)
      ensures View == old(View) - {key}
    {
      slots := slots - {key};
      View := View - {key};
    }

    /** Write into the slot of one key: no other slot changes. */
    method WriteAt(key: Model.Key, f: Model.Fragment)
      requires Valid() && key in slots && f.End() <= Model.BUF_LEN
      modifies this`View, slots[key], slots[key].buf
      ensures Valid() && Repr == old(Repr)
      ensures View == old(View)[key := Model.Absorb(old(View)[key], f)]
    {
      slots[key].Write(f);
      View := View[key := Model.Absorb(View[key], f)];
    }

    /** The slot of one key is complete: rebuild its packet and free the slot. */
    method Finish(key: Model.Key) returns (out: Option<seq<byte>>)
      requires Valid() && key in View
      modifies this
      ensures Valid() && Repr == old(Repr)
      ensures var s := old(View)[key];
        if Model.Complete(s)
        then View == old(View) - {key} && out == Some(Model.Reassembled(s.src, s.dst, s.nextHeader, s.buf[..s.total.value]))
        else View == old(View) && out == None
    {
      var slot := slots[key];
      ghost var s := View[key];
      assert slot.View() == s;
      if slot.total.Some? && slot.received >= slot.total.value {
        var payload := slot.buf[..slot.total.value];
        assert payload == s.buf[..s.total.value];
        var rebuilt := BuildReassembled(slot.src, slot.dst, slot.nextHeader, payload);
        Remove(key);
        out := Some(rebuilt[..]);
      } else {
        out := None;
      }
    }

    /** Write a fragment into the slot its key already has. */
    method FeedOpen(f: Model.Fragment, ghost now: Time) returns (out: Option<seq<byte>>)
      requires Valid() && f.key in View
      modifies Repr
      ensures Valid() && Repr == old(Repr)
      ensures var r := Model.FeedSlot(Some(old(View)[f.key]), f, now);
        View == Model.Store(old(View), f.key, r.0) && out == r.1
    {
      ghost var was := View;
      if f.End() > slots[f.key].buf.Length {
        Remove(f.key);
        out := None;
      } else {
        WriteAt(f.key, f);
        ghost var s := Model.Absorb(was[f.key], f);
        assert View == was[f.key := s];
        assert was[f.key := s] - {f.key} == was - {f.key};
        out := Finish(f.key);
      }
    }

    /** One fragment of an unexpired table. */
    method FeedFragment(f: Model.Fragment, now: Time) returns (out: Option<seq<byte>>)
      requires Valid() && |f.key.src| == 16 && |f.key.dst| == 16
      modifies Repr
      ensures Valid() && fresh(Repr - old(Repr))
      ensures var r := Model.FeedSlot(Model.Lookup(old(View), f.key), f, now);
        View == Model.Store(old(View), f.key, r.0) && out == r.1
    {
      EntryIsTransparent(View, f, now);
      Entry(f, now);
      out := FeedOpen(f, now);
    }

    /** Feed one packet at time `now`; the packet that comes out, if any, is ready for the stack. */
    method Feed(pkt: seq<byte>, now: Time) returns (out: Option<seq<byte>>)
      requires Valid()
      modifies Repr
      ensures Valid() && fresh(Repr - old(Repr))
      ensures (View, out) == Model.Feed(old(View), pkt, now)
    {
      EvictExpired(now);
      match Model.Classify(pkt)
      case Plain => out := Some(pkt);
      case Runt => out := None;
      case Piece(f) => out := FeedFragment(f, now);
    }
  }
}
