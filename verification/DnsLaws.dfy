/** What a query says on the wire: the name asked for, label by label, and nothing but the question. */
module DnsLaws {
  import opened Common
  import opened Dns

  /** The labels of the name at `pos` (section 3.1 of RFC 1035), and where it ends. */
  function ReadLabels(buf: seq<byte>, pos: nat): Option<(seq<seq<byte>>, nat)>
    decreases |buf| - pos
  {
    if pos >= |buf| || buf[pos] >= 0xC0 || pos + 1 + buf[pos] > |buf| then None
    else if buf[pos] == 0 then Some(([], pos + 1))
    else
      var rest := ReadLabels(buf, pos + 1 + buf[pos]);
      if rest.None? then None else Some(([buf[pos + 1..pos + 1 + buf[pos]]] + rest.value.0, rest.value.1))
  }

  /** Labels of 1 to 191 bytes without dots: every legal name, and longer ones that are still read back. */
  ghost predicate Plain(labels: seq<seq<byte>>) {
    |labels| > 0 && forall i :: 0 <= i < |labels| ==> 1 <= |labels[i]| < 0xC0 && 46 !in labels[i]
  }

  /** A name as it is written: labels between dots, and any number of dots at the end. */
  function Written(labels: seq<seq<byte>>, dots: nat): seq<byte>
    requires |labels| > 0
  {
    if dots == 0 then JoinDots(labels) else Written(labels, dots - 1) + [46]
  }

  lemma {:induction false} NoDotIsOneLabel(s: seq<byte>)
    requires 46 !in s
    ensures SplitDots(s) == [s]
  {
    if s != [] {
      NoDotIsOneLabel(s[1..]);
      assert s == [s[0]] + s[1..];
    }
  }

  lemma {:induction false} SplitAtDot(a: seq<byte>, b: seq<byte>)
    requires 46 !in a
    ensures SplitDots(a + [46] + b) == [a] + SplitDots(b)
  {
    var s := a + [46] + b;
    if a == [] {
      assert s[1..] == b;
    } else {
      assert s[1..] == a[1..] + [46] + b;
      SplitAtDot(a[1..], b);
      assert a == [a[0]] + a[1..];
    }
  }

  /** Joining and splitting undo each other in this order too. */
  lemma {:induction false} JoinSplits(labels: seq<seq<byte>>)
    requires Plain(labels)
    ensures SplitDots(JoinDots(labels)) == labels && JoinDots(labels) != [] && JoinDots(labels)[|JoinDots(labels)| - 1] != 46
    decreases |labels|
  {
    if |labels| == 1 {
      NoDotIsOneLabel(labels[0]);
      assert labels == [labels[0]];
    } else {
      JoinSplits(labels[1..]);
      SplitAtDot(labels[0], JoinDots(labels[1..]));
      assert labels == [labels[0]] + labels[1..];
    }
  }

  lemma {:induction false} DotsAreTrimmed(labels: seq<seq<byte>>, dots: nat)
    requires Plain(labels)
    ensures TrimDots(Written(labels, dots)) == JoinDots(labels)
  {
    JoinSplits(labels);
    if dots > 0 {
      DotsAreTrimmed(labels, dots - 1);
      var s := Written(labels, dots);
      assert s[..|s| - 1] == Written(labels, dots - 1);
    }
  }

  lemma {:induction false} Peel(buf: seq<byte>, pre: seq<byte>, size: byte, l: seq<byte>, more: seq<byte>, zero: seq<byte>, post: seq<byte>)
    requires buf == pre + ([size] + l + more) + zero + post
    ensures buf == (pre + [size] + l) + more + zero + post
    ensures |pre| + 1 + |l| <= |buf| && buf[|pre|] == size && buf[|pre| + 1..|pre| + 1 + |l|] == l
  {
  }

  lemma {:induction false} PeelLabel(buf: seq<byte>, pre: seq<byte>, labels: seq<seq<byte>>, post: seq<byte>) returns (past: seq<byte>)
    requires labels != [] && 1 <= |labels[0]| < 0xC0 && buf == pre + EncodeLabels(labels) + [0] + post
    ensures buf == past + EncodeLabels(labels[1..]) + [0] + post && |past| == |pre| + 1 + |labels[0]|
    ensures |past| <= |buf| && buf[|pre|] == |labels[0]| && buf[|pre| + 1..|past|] == labels[0]
    ensures |EncodeLabels(labels)| == 1 + |labels[0]| + |EncodeLabels(labels[1..])|
  {
    var l := labels[0];
    past := pre + [|l| % 256] + l;
    Peel(buf, pre, |l| % 256, l, EncodeLabels(labels[1..]), [0], post);
  }

  lemma {:induction false} ReadOne(buf: seq<byte>, pos: nat, l: seq<byte>, rest: seq<seq<byte>>, end: nat)
    requires pos + 1 + |l| <= |buf| && 1 <= |l| < 0xC0 && buf[pos] == |l| && buf[pos + 1..pos + 1 + |l|] == l
    requires ReadLabels(buf, pos + 1 + |l|) == Some((rest, end))
    ensures ReadLabels(buf, pos) == Some(([l] + rest, end))
  {
  }

  lemma {:induction false} NoLabelsReadBack(buf: seq<byte>, pre: seq<byte>, post: seq<byte>)
    requires buf == pre + [] + [0] + post
    ensures ReadLabels(buf, |pre|) == Some(([], |pre| + 1))
  {
    assert buf[|pre|] == 0;
  }

  lemma {:induction false} LabelsReadBack(buf: seq<byte>, pre: seq<byte>, labels: seq<seq<byte>>, post: seq<byte>, end: nat)
    requires forall i :: 0 <= i < |labels| ==> 1 <= |labels[i]| < 0xC0
    requires buf == pre + EncodeLabels(labels) + [0] + post && end == |pre| + |EncodeLabels(labels)| + 1
    ensures ReadLabels(buf, |pre|) == Some((labels, end))
    decreases |labels|
  {
    if labels == [] {
      NoLabelsReadBack(buf, pre, post);
    } else {
      var past := PeelLabel(buf, pre, labels, post);
      LabelsReadBack(buf, past, labels[1..], post, end);
      ReadOne(buf, |pre|, labels[0], labels[1..], end);
      assert labels == [labels[0]] + labels[1..];
    }
  }

  /**
   The query for a name: one question, recursion desired, identifier 1; then exactly the labels of
   the name asked for, whatever dots end it; then the type asked for, in class IN; and no more.
   */
  lemma {:induction false} QueryAsks(labels: seq<seq<byte>>, dots: nat, qtype: nat)
    requires Plain(labels) && qtype < 65536
    ensures var msg := Query(Written(labels, dots), qtype);
      && |msg| >= 18 && msg[..12] == [0, 1, 1, 0, 0, 1, 0, 0, 0, 0, 0, 0]
      && ReadLabels(msg, 12) == Some((labels, |msg| - 4))
      && msg[|msg| - 4..] == [qtype / 256, qtype % 256, 0, 1]
  {
    DotsAreTrimmed(labels, dots);
    JoinSplits(labels);
    var msg := Query(Written(labels, dots), qtype);
    var before := QueryHeader() + EncodeLabels(labels) + [0];
    assert msg == before + (U16(qtype) + [0, 1]);
    assert msg == QueryHeader() + EncodeLabels(labels) + [0] + (U16(qtype) + [0, 1]);
    LabelsReadBack(msg, QueryHeader(), labels, U16(qtype) + [0, 1], |msg| - 4);
    assert |EncodeLabels(labels)| >= 1;
    assert msg[|before|..] == U16(qtype) + [0, 1];
  }
}
