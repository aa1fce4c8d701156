/** Reading a request head from a stream that arrives in chunks. */
module HttpRead {
  import opened Common
  import opened Text

  const MAX_HEAD_BYTES: nat := 16 * 1024
  const CHUNK: nat := 4096
  const CRLFCRLF: seq<byte> := [13, 10, 13, 10]

  /** What the socket says after its last chunk: closed, or failed. */
  datatype Ending = Eof | Broken

  datatype ReadError = TooLarge | EofInHead | Io

  datatype Head = Head(head: seq<byte>, extra: seq<byte>)

  /** A read delivers at least one byte and at most a buffer full. */
  ghost predicate Readable(chunks: seq<seq<byte>>) {
    forall i :: 0 <= i < |chunks| ==> 1 <= |chunks[i]| <= 4096
  }

  function Flatten(chunks: seq<seq<byte>>): seq<byte> {
    if chunks == [] then [] else chunks[0] + Flatten(chunks[1..])
  }

  function FindHeadEnd(buf: seq<byte>): (r: Option<nat>)
    ensures r.Some? ==> At(buf, r.value, CRLFCRLF) && forall i: nat :: i < r.value ==> !At(buf, i, CRLFCRLF)
    ensures r.None? ==> forall i: nat :: !At(buf, i, CRLFCRLF)
  {
    if |buf| < 4 then None else Find(buf, CRLFCRLF)
  }

  /** The bytes end at their first blank line. */
  ghost predicate EndsBlank(head: seq<byte>) {
    |head| >= 4 && FindHeadEnd(head) == Some(|head| - 4)
  }

  /** The outcome with `buf` read and the chunks still to come. */
  function ReadFrom(buf: seq<byte>, chunks: seq<seq<byte>>, ending: Ending): Result<Head, ReadError>
    decreases |chunks|
  {
    var pos := FindHeadEnd(buf);
    if pos.Some? then Ok(Head(buf[..pos.value + 4], buf[pos.value + 4..]))
    else if |buf| > MAX_HEAD_BYTES then Err(TooLarge)
    else if chunks == [] then Err(if ending.Eof? then EofInHead else Io)
    else ReadFrom(buf + chunks[0], chunks[1..], ending)
  }

  /** What was read is not yet an outcome. */
  ghost predicate GoesOn(buf: seq<byte>) {
    FindHeadEnd(buf).None? && |buf| <= 16384
  }

  ghost predicate WentOn(chunks: seq<seq<byte>>, used: nat) {
    forall k :: 0 <= k < used <= |chunks| ==> GoesOn(Flatten(chunks[..k]))
  }

  lemma {:induction false} ReadFromStep(buf: seq<byte>, chunks: seq<seq<byte>>, used: nat, ending: Ending)
    requires used < |chunks| && GoesOn(buf)
    ensures ReadFrom(buf, chunks[used..], ending) == ReadFrom(buf + chunks[used], chunks[used + 1..], ending)
  {
    assert chunks[used..][1..] == chunks[used + 1..];
  }

  /** Reads until the blank line, the limit or the end; what was read is returned whole. */
  method ReadHead(chunks: seq<seq<byte>>, ending: Ending) returns (r: Result<Head, ReadError>, used: nat)
    requires Readable(chunks)
    ensures used <= |chunks| && r == ReadFrom([], chunks, ending)
    ensures r.Ok? ==> r.value.head + r.value.extra == Flatten(chunks[..used])
    ensures WentOn(chunks, used)
  {
    var buf: seq<byte> := [];
    used := 0;
    while true
      invariant used <= |chunks| && buf == Flatten(chunks[..used]) && WentOn(chunks, used)
      invariant ReadFrom(buf, chunks[used..], ending) == ReadFrom([], chunks, ending)
      decreases |chunks| - used
    {
      var pos := FindHeadEnd(buf);
      if pos.Some? {
        return Ok(Head(buf[..pos.value + 4], buf[pos.value + 4..])), used;
      }
      if |buf| > MAX_HEAD_BYTES {
        return Err(TooLarge), used;
      }
      if used == |chunks| {
        return Err(if ending.Eof? then EofInHead else Io), used;
      }
      ReadFromStep(buf, chunks, used, ending);
      FlattenOneMore(chunks, used);
      buf := buf + chunks[used];
      used := used + 1;
    }
  }

  lemma {:induction false} FlattenConcat(a: seq<seq<byte>>, b: seq<seq<byte>>)
    ensures Flatten(a + b) == Flatten(a) + Flatten(b)
  {
    if a == [] {
      assert a + b == b;
    } else {
      assert (a + b)[1..] == a[1..] + b;
      FlattenConcat(a[1..], b);
    }
  }

  lemma {:induction false} FlattenOneMore(chunks: seq<seq<byte>>, i: nat)
    requires i < |chunks|
    ensures Flatten(chunks[..i + 1]) == Flatten(chunks[..i]) + chunks[i]
  {
    assert chunks[..i + 1] == chunks[..i] + [chunks[i]];
    FlattenConcat(chunks[..i], [chunks[i]]);
    var one := [chunks[i]];
    assert one[1..] == [];
  }

  // ── What the chunking can and cannot change ─────────────────────────────────

  /** A read stopped at byte `b`, past the limit and short of the blank line's end. */
  ghost predicate CutBetween(buf: seq<byte>, chunks: seq<seq<byte>>, end: nat) {
    exists k: nat :: CutAt(buf, chunks, end, k)
  }

  ghost predicate CutAt(buf: seq<byte>, chunks: seq<seq<byte>>, end: nat, k: nat) {
    k <= |chunks| && 16384 < |buf| + |Flatten(chunks[..k])| < end
  }

  /** A blank line inside the part read so far is the stream's first. */
  lemma {:induction false} FindInPrefix(buf: seq<byte>, rest: seq<byte>)
    ensures FindHeadEnd(buf).Some? ==> FindHeadEnd(buf + rest) == FindHeadEnd(buf)
    ensures FindHeadEnd(buf).None? && FindHeadEnd(buf + rest).Some? ==> |buf| < FindHeadEnd(buf + rest).value + 4
  {
    var a, b := FindHeadEnd(buf), FindHeadEnd(buf + rest);
    if a.Some? {
      AtPrefix(buf, rest, a.value);
      if b.value < a.value { AtPrefix(buf, rest, b.value); }
    } else if b.Some? && b.value + 4 <= |buf| {
      AtPrefix(buf, rest, b.value);
    }
  }

  lemma {:induction false} AtPrefix(buf: seq<byte>, rest: seq<byte>, i: nat)
    requires i + 4 <= |buf|
    ensures At(buf, i, CRLFCRLF) <==> At(buf + rest, i, CRLFCRLF)
  {
    assert (buf + rest)[i..i + 4] == buf[i..i + 4];
  }

  lemma {:induction false} CutStepsOver(buf: seq<byte>, chunks: seq<seq<byte>>, end: nat, k: nat)
    requires chunks != []
    ensures CutAt(buf, chunks, end, k + 1) <==> CutAt(buf + chunks[0], chunks[1..], end, k)
  {
    if k + 1 <= |chunks| {
      assert chunks[..k + 1][1..] == chunks[1..][..k];
    }
  }

  lemma {:induction false} CutsStepOver(buf: seq<byte>, chunks: seq<seq<byte>>, end: nat)
    requires chunks != [] && |buf| <= MAX_HEAD_BYTES
    ensures CutBetween(buf, chunks, end) <==> CutBetween(buf + chunks[0], chunks[1..], end)
  {
    if k: nat :| CutAt(buf, chunks, end, k) {
      assert chunks[..0] == [];
      CutStepsOver(buf, chunks, end, k - 1);
    }
    if k: nat :| CutAt(buf + chunks[0], chunks[1..], end, k) {
      CutStepsOver(buf, chunks, end, k);
    }
  }

  /**
   The head is returned exactly when the stream has a blank line and no read stopped past the
   limit before its end; it is then cut at the first blank line of the whole stream.
   */
  lemma {:induction false} ReadFromExactly(buf: seq<byte>, chunks: seq<seq<byte>>, ending: Ending)
    ensures var stream := buf + Flatten(chunks); var pos := FindHeadEnd(stream); var r := ReadFrom(buf, chunks, ending);
      && (r.Ok? <==> pos.Some? && !CutBetween(buf, chunks, pos.value + 4))
      && (r.Ok? ==> pos.Some? && r.value.head == stream[..pos.value + 4])
      && (pos.None? ==> r == Err(if |stream| > MAX_HEAD_BYTES then TooLarge else if ending.Eof? then EofInHead else Io))
      && (r.Err? && pos.Some? ==> r.error == TooLarge)
    decreases |chunks|
  {
    var rest := Flatten(chunks);
    var stream := buf + rest;
    FindInPrefix(buf, rest);
    var pos := FindHeadEnd(stream);
    if FindHeadEnd(buf).Some? {
      assert stream[..pos.value + 4] == buf[..pos.value + 4];
    } else if |buf| > MAX_HEAD_BYTES {
      assert chunks[..0] == [];
      if pos.Some? { assert CutAt(buf, chunks, pos.value + 4, 0); }
    } else if chunks == [] {
      assert stream == buf;
    } else {
      assert stream == (buf + chunks[0]) + Flatten(chunks[1..]);
      ReadFromExactly(buf + chunks[0], chunks[1..], ending);
      if pos.Some? { CutsStepOver(buf, chunks, pos.value + 4); }
    }
  }

  /** No read can step over the whole stretch from the limit to `end` when it is longer than a chunk. */
  lemma {:induction false} LongStretchIsCut(buf: seq<byte>, chunks: seq<seq<byte>>, end: nat)
    requires Readable(chunks) && |buf| <= MAX_HEAD_BYTES && MAX_HEAD_BYTES + CHUNK < end <= |buf| + |Flatten(chunks)|
    ensures CutBetween(buf, chunks, end)
    decreases |chunks|
  {
    var next := buf + chunks[0];
    if |next| > MAX_HEAD_BYTES {
      assert chunks[1..][..0] == [];
      assert CutAt(next, chunks[1..], end, 0);
    } else {
      LongStretchIsCut(next, chunks[1..], end);
    }
    CutsStepOver(buf, chunks, end);
  }

  /**
   However the stream is cut: a head of up to 16385 bytes is returned, one of more than 20480
   is refused, and between the two it is returned exactly when no read ended inside
   (16384, its length).
   */
  lemma {:induction false} ReadHeadExactly(chunks: seq<seq<byte>>, ending: Ending)
    requires Readable(chunks)
    ensures var stream := Flatten(chunks); var pos := FindHeadEnd(stream); var r := ReadFrom([], chunks, ending);
      && (r.Ok? <==> pos.Some? && !CutBetween([], chunks, pos.value + 4))
      && (r.Ok? ==> pos.Some? && r.value.head == stream[..pos.value + 4])
      && (pos.Some? && pos.value + 4 <= 16385 ==> r.Ok?)
      && (pos.Some? && pos.value + 4 > 20480 ==> r == Err(TooLarge))
      && (pos.None? ==> r == Err(if |stream| > 16384 then TooLarge else if ending.Eof? then EofInHead else Io))
  {
    var stream := Flatten(chunks);
    assert [] + stream == stream;
    ReadFromExactly([], chunks, ending);
    var pos := FindHeadEnd(stream);
    if pos.Some? && pos.value + 4 > MAX_HEAD_BYTES + CHUNK {
      LongStretchIsCut([], chunks, pos.value + 4);
    }
  }

  // ── When chunkings of one stream can differ ─────────────────────────────────

  ghost predicate Chunks(chunks: seq<seq<byte>>, stream: seq<byte>) {
    Readable(chunks) && Flatten(chunks) == stream
  }

  /** The same head, or the same error. */
  ghost predicate SameHead(r: Result<Head, ReadError>, s: Result<Head, ReadError>) {
    if r.Ok? then s.Ok? && r.value.head == s.value.head else r == s
  }

  /** However the stream arrives, the outcome is the same. */
  ghost predicate AllChunkingsAgree(stream: seq<byte>, ending: Ending) {
    forall a, b :: Chunks(a, stream) && Chunks(b, stream) ==> SameHead(ReadFrom([], a, ending), ReadFrom([], b, ending))
  }

  /** The stream's first blank line ends past the limit, by at most one read. */
  predicate EndsNearLimit(stream: seq<byte>) {
    var pos := FindHeadEnd(stream);
    pos.Some? && 16386 <= pos.value + 4 <= 20480
  }

  /** Outside that range two chunkings of one stream agree. */
  lemma {:induction false} ChunkingDoesNotMatter(a: seq<seq<byte>>, b: seq<seq<byte>>, ending: Ending)
    requires Readable(a) && Chunks(b, Flatten(a)) && !EndsNearLimit(Flatten(a))
    ensures SameHead(ReadFrom([], a, ending), ReadFrom([], b, ending))
  {
    ReadHeadExactly(a, ending);
    ReadHeadExactly(b, ending);
  }

  /** The stream in full reads. */
  function Chop(s: seq<byte>): seq<seq<byte>> {
    if |s| <= CHUNK then (if s == [] then [] else [s]) else [s[..CHUNK]] + Chop(s[CHUNK..])
  }

  lemma {:induction false} ChopChunks(s: seq<byte>)
    ensures Chunks(Chop(s), s)
    decreases |s|
  {
    if |s| > CHUNK {
      ChopChunks(s[CHUNK..]);
      assert Chop(s)[1..] == Chop(s[CHUNK..]);
      assert s == s[..CHUNK] + s[CHUNK..];
    } else if s != [] {
      assert Chop(s)[1..] == [];
    }
  }

  /** Reads up to byte i, one read from there to byte j, and the rest. */
  function Through(s: seq<byte>, i: nat, j: nat): seq<seq<byte>>
    requires i <= j <= |s|
  {
    Chop(s[..i]) + [s[i..j]] + Chop(s[j..])
  }

  lemma {:induction false} ThroughChunks(s: seq<byte>, i: nat, j: nat)
    requires i < j <= |s| && j - i <= CHUNK
    ensures Chunks(Through(s, i, j), s)
  {
    var before, middle, after := Chop(s[..i]), [s[i..j]], Chop(s[j..]);
    ChopChunks(s[..i]);
    ChopChunks(s[j..]);
    FlattenConcat(before + middle, after);
    FlattenConcat(before, middle);
    assert middle[1..] == [];
    assert s == s[..i] + s[i..j] + s[j..];
  }

  lemma {:induction false} FlattenPrefix(chunks: seq<seq<byte>>, i: nat, j: nat)
    requires i <= j <= |chunks|
    ensures |Flatten(chunks[..i])| <= |Flatten(chunks[..j])|
  {
    assert chunks[..j] == chunks[..i] + chunks[i..j];
    FlattenConcat(chunks[..i], chunks[i..j]);
  }

  /** The first reads stop at byte i, the next one at byte j: no read stops between. */
  lemma {:induction false} ThroughStops(s: seq<byte>, i: nat, j: nat, k: nat)
    requires i <= j <= |s| && k <= |Through(s, i, j)|
    ensures var read, m := |Flatten(Through(s, i, j)[..k])|, |Chop(s[..i])|;
      (k == m ==> read == i) && (k == m + 1 ==> read == j) && (read <= i || read >= j)
  {
    var chunks, m := Through(s, i, j), |Chop(s[..i])|;
    assert chunks[..m] == Chop(s[..i]);
    ChopChunks(s[..i]);
    FlattenOneMore(chunks, m);
    assert chunks[m] == s[i..j];
    if k <= m { FlattenPrefix(chunks, k, m); } else { FlattenPrefix(chunks, m + 1, k); }
  }

  /** A blank line that ends past the limit, by at most one read. */
  ghost predicate NearLimit(s: seq<byte>, end: nat) {
    FindHeadEnd(s).Some? && end == FindHeadEnd(s).value + 4 && MAX_HEAD_BYTES + 1 < end <= MAX_HEAD_BYTES + CHUNK && end <= |s|
  }

  /** One read over the whole stretch past the limit: the head is returned. */
  lemma {:induction false} StretchInOneRead(s: seq<byte>, end: nat, ending: Ending)
    requires NearLimit(s, end)
    ensures Chunks(Through(s, MAX_HEAD_BYTES, end), s) && ReadFrom([], Through(s, MAX_HEAD_BYTES, end), ending).Ok?
  {
    var chunks := Through(s, MAX_HEAD_BYTES, end);
    ThroughChunks(s, MAX_HEAD_BYTES, end);
    ReadHeadExactly(chunks, ending);
    if k: nat :| CutAt([], chunks, end, k) { ThroughStops(s, MAX_HEAD_BYTES, end, k); }
  }

  /** A read that stops between the limit and the head's end: the head is refused. */
  lemma {:induction false} CutIsRefused(chunks: seq<seq<byte>>, s: seq<byte>, end: nat, k: nat, ending: Ending)
    requires Chunks(chunks, s) && NearLimit(s, end) && CutAt([], chunks, end, k)
    ensures ReadFrom([], chunks, ending) == Err(TooLarge)
  {
    assert [] + Flatten(chunks) == s;
    ReadFromExactly([], chunks, ending);
  }

  lemma {:induction false} StretchInTwoReads(s: seq<byte>, end: nat, ending: Ending)
    requires NearLimit(s, end)
    ensures var chunks := Through(s, MAX_HEAD_BYTES, MAX_HEAD_BYTES + 1);
      Chunks(chunks, s) && ReadFrom([], chunks, ending) == Err(TooLarge)
  {
    var m := |Chop(s[..MAX_HEAD_BYTES])|;
    ThroughChunks(s, MAX_HEAD_BYTES, MAX_HEAD_BYTES + 1);
    ThroughStops(s, MAX_HEAD_BYTES, MAX_HEAD_BYTES + 1, m + 1);
    CutIsRefused(Through(s, MAX_HEAD_BYTES, MAX_HEAD_BYTES + 1), s, end, m + 1, ending);
  }

  /**
   All chunkings of a stream agree if and only if its first blank line does not end between
   byte 16386 and byte 20480; a stream where it does is read by one chunking and refused by another.
   */
  lemma {:induction false} ChunkingMattersExactly(stream: seq<byte>, ending: Ending)
    ensures AllChunkingsAgree(stream, ending) <==> !EndsNearLimit(stream)
  {
    if EndsNearLimit(stream) {
      var end := FindHeadEnd(stream).value + 4;
      StretchInOneRead(stream, end, ending);
      StretchInTwoReads(stream, end, ending);
      var a, b := Through(stream, MAX_HEAD_BYTES, end), Through(stream, MAX_HEAD_BYTES, MAX_HEAD_BYTES + 1);
      assert !SameHead(ReadFrom([], a, ending), ReadFrom([], b, ending));
    } else {
      forall a, b | Chunks(a, stream) && Chunks(b, stream) ensures SameHead(ReadFrom([], a, ending), ReadFrom([], b, ending)) {
        ChunkingDoesNotMatter(a, b, ending);
      }
    }
  }
}
