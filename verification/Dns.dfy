/** The hand-written DNS encoder and decoder (sections 3.1 and 4.1 of RFC 1035, section 2.2 of RFC 3596). */
module Dns {
  import opened Common

  const AAAA: nat := 28

  // ── What the decoder reads ──────────────────────────────────────────────────

  function U16At(buf: seq<byte>, pos: nat): nat
    requires pos + 2 <= |buf|
  {
    buf[pos] as int * 256 + buf[pos + 1] as int
  }

  /** The position just after the name at `pos`: past a zero byte or a two-byte pointer. */
  function SkipName(buf: seq<byte>, pos: nat): (r: Option<nat>)
    ensures r.Some? ==> r.value > pos
    decreases |buf| - pos
  {
    if pos >= |buf| then None
    else if buf[pos] == 0 then Some(pos + 1)
    else if buf[pos] >= 0xC0 then Some(pos + 2)
    else SkipName(buf, pos + 1 + buf[pos])
  }

  /** The address in the first AAAA record among `count` answers from `pos` on. */
  function ScanAnswers(buf: seq<byte>, pos: nat, count: nat): Option<seq<byte>>
    decreases count
  {
    if count == 0 then None
    else
      var at := SkipName(buf, pos);
      if at.None? || at.value + 10 > |buf| then None
      else
        var rtype, rdlength, data := U16At(buf, at.value), U16At(buf, at.value + 8), at.value + 10;
        if rtype == AAAA && rdlength == 16 && data + 16 <= |buf| then Some(buf[data..data + 16])
        else ScanAnswers(buf, data + rdlength, count - 1)
  }

  function ParseResponse(buf: seq<byte>): Option<seq<byte>> {
    if |buf| < 12 || U16At(buf, 6) == 0 then None
    else
      var q := SkipName(buf, 12);
      if q.None? then None else ScanAnswers(buf, q.value + 4, U16At(buf, 6))
  }

  // ── The methods ─────────────────────────────────────────────────────────────

  /** Total on every buffer and position: the loop ends and never reads past the end. */
  method SkipDnsName(buf: seq<byte>, start: nat) returns (r: Option<nat>)
    ensures r == SkipName(buf, start)
  {
    var pos: nat := start;
    while true
      invariant SkipName(buf, pos) == SkipName(buf, start)
      decreases |buf| - pos
    {
      if pos >= |buf| {
        return None;
      }
      var len := buf[pos];
      if len == 0 {
        return Some(pos + 1);
      }
      if len >= 0xC0 {
        return Some(pos + 2);
      }
      pos := pos + 1 + len;
    }
  }

  method ParseDnsAaaaResponse(buf: seq<byte>) returns (r: Option<seq<byte>>)
    ensures r == ParseResponse(buf)
    ensures r.Some? ==> |r.value| == 16
  {
    if |buf| < 12 {
      return None;
    }
    var ancount := U16At(buf, 6);
    if ancount == 0 {
      return None;
    }
    var skipped := SkipDnsName(buf, 12);
    if skipped.None? {
      return None;
    }
    r := ScanFrom(buf, skipped.value + 4, ancount);
  }

  /** The loop over the answers. */
  method ScanFrom(buf: seq<byte>, start: nat, ancount: nat) returns (r: Option<seq<byte>>)
    ensures r == ScanAnswers(buf, start, ancount)
    ensures r.Some? ==> |r.value| == 16
  {
    var pos: nat := start;
    for i := 0 to ancount
      invariant ScanAnswers(buf, pos, ancount - i) == ScanAnswers(buf, start, ancount)
    {
      var skipped := SkipDnsName(buf, pos);
      if skipped.None? {
        return None;
      }
      pos := skipped.value;
      if pos + 10 > |buf| {
        return None;
      }
      var rtype := U16At(buf, pos);
      var rdlength := U16At(buf, pos + 8);
      pos := pos + 10;
      if rtype == AAAA && rdlength == 16 && pos + 16 <= |buf| {
        return Some(buf[pos..pos + 16]);
      }
      pos := pos + rdlength;
    }
    r := None;
  }

  /** Whatever the bytes, an answer is 16 bytes of the buffer that follow an AAAA record header. */
  lemma {:induction false} ScanSound(buf: seq<byte>, pos: nat, count: nat)
    ensures ScanAnswers(buf, pos, count).Some? ==> exists at: nat :: IsAaaaAt(buf, at, ScanAnswers(buf, pos, count).value)
    decreases count
  {
    if count > 0 {
      var at := SkipName(buf, pos);
      if at.Some? && at.value + 10 <= |buf| {
        var rtype: nat, rdlength: nat, data: nat := U16At(buf, at.value), U16At(buf, at.value + 8), at.value + 10;
        if rtype == AAAA && rdlength == 16 && data + 16 <= |buf| {
          assert IsAaaaAt(buf, at.value, buf[data..data + 16]);
        } else {
          ScanSound(buf, data + rdlength, count - 1);
        }
      }
    }
  }

  ghost predicate IsAaaaAt(buf: seq<byte>, at: nat, ip: seq<byte>) {
    && at + 26 <= |buf| && U16At(buf, at) == 28 && U16At(buf, at + 8) == 16
    && ip == buf[at + 10..at + 26]
  }

  // ── Well-formed messages ────────────────────────────────────────────────────

  function U16(v: nat): (r: seq<byte>)
    requires v < 65536
    ensures |r| == 2 && r[0] as int * 256 + r[1] as int == v
  {
    [v / 256, v % 256]
  }

  /** A name as labels, labels ending in a pointer, or a pointer alone. */
  datatype Name = Name(labels: seq<seq<byte>>, pointer: Option<nat>)

  ghost predicate IsName(n: Name) {
    && (forall i :: 0 <= i < |n.labels| ==> 1 <= |n.labels[i]| <= 63)
    && (n.pointer.Some? ==> n.pointer.value < 0x4000)
  }

  function EncodeLabels(labels: seq<seq<byte>>): seq<byte> {
    if labels == [] then [] else [|labels[0]| % 256] + labels[0] + EncodeLabels(labels[1..])
  }

  function EncodeName(n: Name): seq<byte>
    requires n.pointer.Some? ==> n.pointer.value < 0x4000
  {
    EncodeLabels(n.labels) + if n.pointer.Some? then U16(0xC000 + n.pointer.value) else [0]
  }

  datatype Record = Record(owner: Name, rtype: nat, rclass: nat, ttl: seq<byte>, rdata: seq<byte>)

  ghost predicate IsRecord(r: Record) {
    IsName(r.owner) && r.rtype < 65536 && r.rclass < 65536 && |r.ttl| == 4 && |r.rdata| < 65536
  }

  ghost predicate AllRecords(rs: seq<Record>) {
    rs == [] || (IsRecord(rs[0]) && AllRecords(rs[1..]))
  }

  /** The type, class, life time and length between a record's name and its data. */
  function Fixed(r: Record): (f: seq<byte>)
    requires IsRecord(r)
    ensures |f| == 10
  {
    U16(r.rtype) + U16(r.rclass) + r.ttl + U16(|r.rdata|)
  }

  function EncodeRecord(r: Record): seq<byte>
    requires IsRecord(r)
  {
    EncodeName(r.owner) + Fixed(r) + r.rdata
  }

  function EncodeRecords(rs: seq<Record>): seq<byte>
    requires AllRecords(rs)
  {
    if rs == [] then [] else EncodeRecord(rs[0]) + EncodeRecords(rs[1..])
  }

  /** `lead`: the six bytes up to the answer count; `counts`: the other two counts; `more`: later sections. */
  function EncodeResponse(lead: seq<byte>, counts: seq<byte>, question: Name, qtail: seq<byte>,
                          answers: seq<Record>, more: seq<byte>): seq<byte>
    requires IsName(question) && |answers| < 65536
    requires AllRecords(answers)
  {
    lead + U16(|answers|) + counts + EncodeName(question) + qtail + EncodeRecords(answers) + more
  }

  predicate IsAaaa(r: Record) {
    r.rtype == 28 && |r.rdata| == 16
  }

  /** The data of the first AAAA record, if there is one. */
  ghost predicate FirstAaaa(rs: seq<Record>, r: Option<seq<byte>>) {
    match r
    case None => forall i :: 0 <= i < |rs| ==> !IsAaaa(rs[i])
    case Some(ip) => exists i :: IsFirstAaaa(rs, i, ip)
  }

  ghost predicate IsFirstAaaa(rs: seq<Record>, i: nat, ip: seq<byte>) {
    i < |rs| && IsAaaa(rs[i]) && rs[i].rdata == ip && forall j :: 0 <= j < i ==> !IsAaaa(rs[j])
  }

  // ── Skipping names ──────────────────────────────────────────────────────────

  /** Labels of up to 191 bytes are stepped over one by one. */
  lemma {:induction false} SkipLabels(pre: seq<byte>, labels: seq<seq<byte>>, post: seq<byte>)
    requires forall i :: 0 <= i < |labels| ==> 1 <= |labels[i]| < 0xC0
    ensures SkipName(pre + EncodeLabels(labels) + post, |pre|)
         == SkipName(pre + EncodeLabels(labels) + post, |pre| + |EncodeLabels(labels)|)
    decreases |labels|
  {
    var buf := pre + EncodeLabels(labels) + post;
    if labels != [] {
      var here := [|labels[0]| % 256] + labels[0];
      var pre' := pre + here;
      assert EncodeLabels(labels) == here + EncodeLabels(labels[1..]);
      assert buf == pre' + EncodeLabels(labels[1..]) + post;
      assert buf[|pre|] == |labels[0]|;
      SkipLabels(pre', labels[1..], post);
    }
  }

  lemma {:induction false} SkipEncodedName(pre: seq<byte>, n: Name, post: seq<byte>)
    requires IsName(n)
    ensures SkipName(pre + EncodeName(n) + post, |pre|) == Some(|pre| + |EncodeName(n)|)
  {
    var last := if n.pointer.Some? then U16(0xC000 + n.pointer.value) else [0];
    var buf := pre + EncodeName(n) + post;
    assert buf == pre + EncodeLabels(n.labels) + (last + post);
    SkipLabels(pre, n.labels, last + post);
    assert buf[|pre| + |EncodeLabels(n.labels)|] == last[0];
  }

  // ── Round trip ──────────────────────────────────────────────────────────────

  lemma {:induction false} ReadFixed(buf: seq<byte>, before: seq<byte>, r: Record, post: seq<byte>)
    requires IsRecord(r) && buf == before + Fixed(r) + r.rdata + post
    ensures var at := |before|;
      && at + 10 + |r.rdata| <= |buf| && U16At(buf, at) == r.rtype && U16At(buf, at + 8) == |r.rdata|
      && buf[at + 10..at + 10 + |r.rdata|] == r.rdata
  {
    var at, f := |before|, Fixed(r);
    assert buf[at] == f[0] && buf[at + 1] == f[1] && buf[at + 8] == f[8] && buf[at + 9] == f[9];
    assert f[0] == U16(r.rtype)[0] && f[1] == U16(r.rtype)[1] && f[8] == U16(|r.rdata|)[0] && f[9] == U16(|r.rdata|)[1];
  }

  /** The decoder reads this record at `pos`; its fixed part starts at `at`. */
  ghost predicate HeadAt(buf: seq<byte>, pos: nat, at: nat, r: Record) {
    && SkipName(buf, pos) == Some(at) && at + 10 + |r.rdata| <= |buf|
    && U16At(buf, at) == r.rtype && U16At(buf, at + 8) == |r.rdata| && buf[at + 10..at + 10 + |r.rdata|] == r.rdata
  }

  ghost predicate RecordsAt(buf: seq<byte>, pos: nat, rs: seq<Record>)
    decreases |rs|
  {
    rs == [] || exists at: nat :: HeadAt(buf, pos, at, rs[0]) && RecordsAt(buf, at + 10 + |rs[0].rdata|, rs[1..])
  }

  lemma {:induction false} RecordHead(buf: seq<byte>, pre: seq<byte>, r: Record, post: seq<byte>) returns (at: nat)
    requires IsRecord(r) && buf == pre + EncodeRecord(r) + post
    ensures HeadAt(buf, |pre|, at, r) && at + 10 + |r.rdata| == |pre| + |EncodeRecord(r)|
  {
    var name := EncodeName(r.owner);
    at := |pre| + |name|;
    assert buf == (pre + name) + Fixed(r) + r.rdata + post;
    assert buf == pre + name + (Fixed(r) + r.rdata + post);
    ReadFixed(buf, pre + name, r, post);
    SkipEncodedName(pre, r.owner, Fixed(r) + r.rdata + post);
  }

  /** One turn of the scan. */
  lemma {:induction false} ScanOne(buf: seq<byte>, pos: nat, at: nat, r: Record, count: nat)
    requires count > 0 && HeadAt(buf, pos, at, r)
    ensures ScanAnswers(buf, pos, count) == if IsAaaa(r) then Some(r.rdata) else ScanAnswers(buf, at + 10 + |r.rdata|, count - 1)
  {
  }

  lemma {:induction false} FirstAaaaCons(r: Record, rest: seq<Record>, out: Option<seq<byte>>)
    requires if IsAaaa(r) then out == Some(r.rdata) else FirstAaaa(rest, out)
    ensures FirstAaaa([r] + rest, out)
  {
    var rs := [r] + rest;
    if IsAaaa(r) {
      assert IsFirstAaaa(rs, 0, r.rdata);
    } else if out.Some? {
      var i: nat :| IsFirstAaaa(rest, i, out.value);
      assert IsFirstAaaa(rs, i + 1, out.value);
    }
  }

  lemma {:induction false} EncodeRecordsCons(pre: seq<byte>, rs: seq<Record>, post: seq<byte>)
    requires rs != [] && AllRecords(rs)
    ensures pre + EncodeRecords(rs) + post == pre + EncodeRecord(rs[0]) + (EncodeRecords(rs[1..]) + post)
    ensures pre + EncodeRecords(rs) + post == (pre + EncodeRecord(rs[0])) + EncodeRecords(rs[1..]) + post
  {
    Regroup(pre, EncodeRecord(rs[0]), EncodeRecords(rs[1..]), post);
  }

  lemma {:induction false} Regroup(a: seq<byte>, b: seq<byte>, c: seq<byte>, d: seq<byte>)
    ensures a + (b + c) + d == a + b + (c + d)
    ensures a + (b + c) + d == (a + b) + c + d
  {
  }

  lemma {:induction false} RecordsAtCons(buf: seq<byte>, pos: nat, at: nat, r: Record, rest: seq<Record>)
    requires HeadAt(buf, pos, at, r) && RecordsAt(buf, at + 10 + |r.rdata|, rest)
    ensures RecordsAt(buf, pos, [r] + rest)
  {
    var rs := [r] + rest;
    assert rs[0] == r && rs[1..] == rest;
  }

  lemma {:induction false} RecordsAtStep(buf: seq<byte>, pre: seq<byte>, r: Record, past: nat, rest: seq<Record>, post: seq<byte>)
    requires IsRecord(r) && buf == pre + EncodeRecord(r) + post && past == |pre| + |EncodeRecord(r)| && RecordsAt(buf, past, rest)
    ensures RecordsAt(buf, |pre|, [r] + rest)
  {
    var at := RecordHead(buf, pre, r, post);
    RecordsAtCons(buf, |pre|, at, r, rest);
  }

  lemma {:induction false} PeelRecord(buf: seq<byte>, pre: seq<byte>, rs: seq<Record>, post: seq<byte>) returns (past: seq<byte>, after: seq<byte>)
    requires AllRecords(rs) && rs != [] && buf == pre + EncodeRecords(rs) + post
    ensures buf == past + EncodeRecords(rs[1..]) + post && buf == pre + EncodeRecord(rs[0]) + after
    ensures |past| == |pre| + |EncodeRecord(rs[0])|
  {
    EncodeRecordsCons(pre, rs, post);
    past, after := pre + EncodeRecord(rs[0]), EncodeRecords(rs[1..]) + post;
  }

  /** Records encoded one after the other are read one after the other. */
  lemma {:induction false} EncodedRecordsAt(buf: seq<byte>, pre: seq<byte>, rs: seq<Record>, post: seq<byte>)
    requires AllRecords(rs) && buf == pre + EncodeRecords(rs) + post
    ensures RecordsAt(buf, |pre|, rs)
    decreases |rs|
  {
    if rs != [] {
      var past, after := PeelRecord(buf, pre, rs, post);
      EncodedRecordsAt(buf, past, rs[1..], post);
      RecordsAtStep(buf, pre, rs[0], |past|, rs[1..], after);
      assert rs == [rs[0]] + rs[1..];
    }
  }

  lemma {:induction false} ScanCons(buf: seq<byte>, pos: nat, at: nat, r: Record, rest: seq<Record>)
    requires HeadAt(buf, pos, at, r) && FirstAaaa(rest, ScanAnswers(buf, at + 10 + |r.rdata|, |rest|))
    ensures FirstAaaa([r] + rest, ScanAnswers(buf, pos, |rest| + 1))
  {
    ScanOne(buf, pos, at, r, |rest| + 1);
    FirstAaaaCons(r, rest, ScanAnswers(buf, pos, |rest| + 1));
  }

  lemma {:induction false} ScanRecords(buf: seq<byte>, pos: nat, rs: seq<Record>)
    requires RecordsAt(buf, pos, rs)
    ensures FirstAaaa(rs, ScanAnswers(buf, pos, |rs|))
    decreases |rs|
  {
    if rs != [] {
      var r, rest := rs[0], rs[1..];
      var at: nat :| HeadAt(buf, pos, at, r) && RecordsAt(buf, at + 10 + |r.rdata|, rest);
      ScanRecords(buf, at + 10 + |r.rdata|, rest);
      ScanCons(buf, pos, at, r, rest);
      assert rs == [r] + rest;
    }
  }

  /** Past the header and the question, the answers are scanned. */
  lemma {:induction false} ParseStep(buf: seq<byte>, q: nat)
    requires |buf| >= 12 && SkipName(buf, 12) == Some(q)
    ensures ParseResponse(buf) == if U16At(buf, 6) == 0 then None else ScanAnswers(buf, q + 4, U16At(buf, 6))
  {
  }

  /** What the decoder finds at the head of an encoded response. */
  lemma {:induction false} ResponseHead(buf: seq<byte>, lead: seq<byte>, count: nat, counts: seq<byte>, question: Name, body: seq<byte>)
    requires |lead| == 6 && |counts| == 4 && IsName(question) && count < 65536
    requires buf == lead + U16(count) + counts + EncodeName(question) + body
    ensures |buf| >= 12 && U16At(buf, 6) == count && SkipName(buf, 12) == Some(12 + |EncodeName(question)|)
  {
    var head := lead + U16(count) + counts;
    assert buf[6] == U16(count)[0] && buf[7] == U16(count)[1];
    SkipEncodedName(head, question, body);
  }

  lemma {:induction false} ParseAnswers(buf: seq<byte>, pre: seq<byte>, answers: seq<Record>, more: seq<byte>)
    requires AllRecords(answers)
    requires |pre| >= 16 && buf == pre + EncodeRecords(answers) + more
    requires U16At(buf, 6) == |answers| && SkipName(buf, 12) == Some(|pre| - 4)
    ensures FirstAaaa(answers, ParseResponse(buf))
  {
    ParseStep(buf, |pre| - 4);
    EncodedRecordsAt(buf, pre, answers, more);
    ScanRecords(buf, |pre|, answers);
  }

  /** Parsing an encoded response gives the data of its first AAAA record, or nothing if it has none. */
  lemma {:induction false} ResponseRoundTrip(lead: seq<byte>, counts: seq<byte>, question: Name, qtail: seq<byte>,
                          answers: seq<Record>, more: seq<byte>)
    requires |lead| == 6 && |counts| == 4 && |qtail| == 4
    requires IsName(question) && |answers| < 65536
    requires AllRecords(answers)
    ensures FirstAaaa(answers, ParseResponse(EncodeResponse(lead, counts, question, qtail, answers, more)))
  {
    var buf := EncodeResponse(lead, counts, question, qtail, answers, more);
    var pre, body := lead + U16(|answers|) + counts + EncodeName(question) + qtail, qtail + EncodeRecords(answers) + more;
    assert buf == lead + U16(|answers|) + counts + EncodeName(question) + body;
    ResponseHead(buf, lead, |answers|, counts, question, body);
    ParseAnswers(buf, pre, answers, more);
  }

  // ── The query ───────────────────────────────────────────────────────────────

  const DOT: byte := 46

  function TrimDots(s: seq<byte>): seq<byte> {
    if s != [] && s[|s| - 1] == DOT then TrimDots(s[..|s| - 1]) else s
  }

  /** `split('.')`: at least one piece, possibly empty ones. */
  function SplitDots(s: seq<byte>): (r: seq<seq<byte>>)
    ensures |r| > 0
  {
    if s == [] then [[]]
    else
      var rest := SplitDots(s[1..]);
      if s[0] == DOT then [[]] + rest else [[s[0]] + rest[0]] + rest[1..]
  }

  function JoinDots(labels: seq<seq<byte>>): seq<byte>
    requires |labels| > 0
  {
    if |labels| == 1 then labels[0] else labels[0] + [DOT] + JoinDots(labels[1..])
  }

  /** Splitting loses nothing and leaves no dot in any label. */
  lemma {:induction false} SplitJoins(s: seq<byte>)
    ensures JoinDots(SplitDots(s)) == s
    ensures forall i :: 0 <= i < |SplitDots(s)| ==> DOT !in SplitDots(s)[i]
  {
    if s != [] {
      var rest := SplitDots(s[1..]);
      SplitJoins(s[1..]);
      if s[0] == DOT {
        assert SplitDots(s)[1..] == rest;
        assert s == [DOT] + s[1..];
      } else {
        assert SplitDots(s)[1..] == rest[1..];
        assert s == [s[0]] + s[1..];
      }
    }
  }

  function QueryHeader(): seq<byte> {
    [0x00, 0x01, 0x01, 0x00, 0x00, 0x01, 0x00, 0x00, 0x00, 0x00, 0x00, 0x00]
  }

  function Query(name: seq<byte>, qtype: nat): seq<byte>
    requires qtype < 65536
  {
    QueryHeader() + EncodeLabels(SplitDots(TrimDots(name))) + [0] + U16(qtype) + [0, 1]
  }

  lemma {:induction false} EncodeLabelsSnoc(labels: seq<seq<byte>>, l: seq<byte>)
    ensures EncodeLabels(labels + [l]) == EncodeLabels(labels) + [|l| % 256] + l
    decreases |labels|
  {
    if labels == [] {
      assert labels + [l] == [l] && [l][1..] == [];
    } else {
      assert (labels + [l])[1..] == labels[1..] + [l];
      EncodeLabelsSnoc(labels[1..], l);
    }
  }

  method BuildDnsQuery(name: seq<byte>, qtype: nat) returns (msg: seq<byte>)
    requires qtype < 65536
    ensures msg == Query(name, qtype)
  {
    msg := [0x00, 0x01] + [0x01, 0x00] + [0x00, 0x01] + [0x00, 0x00] + [0x00, 0x00] + [0x00, 0x00];
    assert msg == QueryHeader();
    var labels := SplitDots(TrimDots(name));
    var i := 0;
    while i < |labels|
      invariant 0 <= i <= |labels|
      invariant msg == QueryHeader() + EncodeLabels(labels[..i])
    {
      EncodeLabelsSnoc(labels[..i], labels[i]);
      assert labels[..i + 1] == labels[..i] + [labels[i]];
      msg := msg + [|labels[i]| % 256];
      msg := msg + labels[i];
      i := i + 1;
    }
    assert labels[..i] == labels;
    msg := msg + [0x00];
    msg := msg + U16(qtype);
    msg := msg + [0x00, 0x01];
  }

  /** Up to the first label it cannot step over, skipping follows the query's name; there it stops short. */
  lemma {:induction false} SkipStopsShort(pre: seq<byte>, labels: seq<seq<byte>>, post: seq<byte>, k: nat)
    requires k < |labels| && |post| > 0
    requires forall i :: 0 <= i < k ==> 1 <= |labels[i]| < 0xC0
    requires |labels[k]| == 0 || 0xC0 <= |labels[k]| < 256
    ensures var r := SkipName(pre + EncodeLabels(labels) + post, |pre|);
      r.Some? && r.value <= |pre| + |EncodeLabels(labels)|
    decreases k
  {
    var buf := pre + EncodeLabels(labels) + post;
    var here := [|labels[0]| % 256] + labels[0];
    assert EncodeLabels(labels) == here + EncodeLabels(labels[1..]);
    assert buf[|pre|] == |labels[0]| % 256;
    if k > 0 {
      assert buf == (pre + here) + EncodeLabels(labels[1..]) + post;
      SkipStopsShort(pre + here, labels[1..], post, k - 1);
    }
  }

  ghost predicate Steppable(labels: seq<seq<byte>>) {
    forall i :: 0 <= i < |labels| ==> 1 <= |labels[i]| < 0xC0
  }

  lemma {:induction false} FirstUnsteppable(labels: seq<seq<byte>>) returns (k: nat)
    requires !Steppable(labels)
    ensures k < |labels| && !(1 <= |labels[k]| < 0xC0) && forall i :: 0 <= i < k ==> 1 <= |labels[i]| < 0xC0
  {
    k := 0;
    while 1 <= |labels[k]| < 0xC0
      invariant k < |labels| && forall i :: 0 <= i < k ==> 1 <= |labels[i]| < 0xC0
      decreases |labels| - k
    {
      k := k + 1;
    }
  }

  /**
   Skipping the name a query carries lands exactly on QTYPE when no label of the name is empty
   or longer than 191 bytes (so for every legal name), and only then unless a label's length
   does not fit its byte.
   */
  lemma {:induction false} QueryNameSkips(name: seq<byte>, qtype: nat)
    requires qtype < 65536
    ensures var msg := Query(name, qtype); var labels := SplitDots(TrimDots(name));
      && U16At(msg, |msg| - 4) == qtype
      && (Steppable(labels) ==> SkipName(msg, 12) == Some(|msg| - 4))
      && ((forall l :: l in labels ==> |l| < 256) ==> (SkipName(msg, 12) == Some(|msg| - 4) <==> Steppable(labels)))
  {
    var labels, post := SplitDots(TrimDots(name)), [0] + U16(qtype) + [0, 1];
    var msg := Query(name, qtype);
    assert msg == QueryHeader() + EncodeLabels(labels) + post;
    var at := 12 + |EncodeLabels(labels)|;
    assert msg[at] == post[0] && msg[at + 1] == U16(qtype)[0] && msg[at + 2] == U16(qtype)[1];
    if Steppable(labels) {
      SkipLabels(QueryHeader(), labels, post);
    } else if forall l :: l in labels ==> |l| < 256 {
      var k := FirstUnsteppable(labels);
      assert labels[k] in labels;
      SkipStopsShort(QueryHeader(), labels, post, k);
    }
  }

  /** The root name: its one label is empty, and skipping stops one byte short of QTYPE. */
  lemma {:induction false} RootNameMissesQtype(qtype: nat)
    requires qtype < 65536
    ensures var msg := Query([], qtype); SkipName(msg, 12) == Some(13) && |msg| - 4 == 14
  {
    var none: seq<byte> := [];
    assert TrimDots(none) == none && SplitDots(none) == [none];
    QueryNameSkips(none, qtype);
    assert [none][1..] == [];
    assert EncodeLabels([none]) == [0];
    assert Query(none, qtype)[12] == 0;
  }
}
