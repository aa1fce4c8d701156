/** Small shared vocabulary: optional values, results and octets. */
module Common {
  datatype Option<+T> = None | Some(value: T)

  datatype Result<+T, +E> = Ok(value: T) | Err(error: E)

  /** One octet of a packet or a stream. */
  type byte = x: int | 0 <= x < 256

  /** Milliseconds, microseconds or nanoseconds, as each module says. */
  type Time = nat

  /** `duration_since`: saturates at zero when the clock reads earlier. */
  function Since(now: Time, then_: Time): nat {
    if now >= then_ then now - then_ else 0
  }
}

/** Facts about sequences as multisets, and `swap_remove`. */
module Seqs {
  /** `Vec::swap_remove`: the last element takes the removed one's place. */
  function SwapRemove<T>(s: seq<T>, i: nat): (r: seq<T>)
    requires i < |s|
    ensures |r| == |s| - 1
    ensures multiset(r) + multiset{s[i]} == multiset(s)
    ensures r[..i] == s[..i]
  {
    var last := |s| - 1;
    if i == last then
      assert s == s[..last] + [s[last]];
      s[..last]
    else
      assert s == s[..i] + [s[i]] + s[i + 1..last] + [s[last]];
      s[..i] + [s[last]] + s[i + 1..last]
  }

  /** What a per-element rule turns a sequence into, in order. */
  function Collect<T, U>(f: T -> seq<U>, s: seq<T>): seq<U> {
    if s == [] then [] else f(s[0]) + Collect(f, s[1..])
  }

  lemma {:induction false} CollectConcat<T, U>(f: T -> seq<U>, a: seq<T>, b: seq<T>)
    ensures Collect(f, a + b) == Collect(f, a) + Collect(f, b)
    decreases |a|
  {
    if a == [] {
      assert a + b == b;
    } else {
      assert (a + b)[1..] == a[1..] + b;
      CollectConcat(f, a[1..], b);
    }
  }

  lemma {:induction false} CollectOne<T, U>(f: T -> seq<U>, x: T)
    ensures Collect(f, [x]) == f(x)
  {
    assert [x][1..] == [];
  }

  lemma {:induction false} CollectSuffix<T, U>(f: T -> seq<U>, s: seq<T>, i: nat)
    requires i < |s|
    ensures multiset(Collect(f, SwapRemove(s, i)[i..])) + multiset(f(s[i])) == multiset(Collect(f, s[i..]))
  {
    var last := |s| - 1;
    var r := SwapRemove(s, i);
    CollectOne(f, s[i]);
    if i == last {
      assert r[i..] == [] && s[i..] == [s[i]];
    } else {
      var mid := s[i + 1..last];
      CollectOne(f, s[last]);
      assert s[i..] == [s[i]] + (mid + [s[last]]) && r[i..] == [s[last]] + mid;
      CollectConcat(f, [s[i]], mid + [s[last]]);
      CollectConcat(f, mid, [s[last]]);
      CollectConcat(f, [s[last]], mid);
    }
  }

  lemma {:induction false} CollectSplit<T, U>(f: T -> seq<U>, s: seq<T>, i: nat)
    requires i <= |s|
    ensures Collect(f, s) == Collect(f, s[..i]) + Collect(f, s[i..])
  {
    assert s == s[..i] + s[i..];
    CollectConcat(f, s[..i], s[i..]);
  }

  /** Taking one element out by `swap_remove` takes exactly its share out of the collection. */
  lemma {:induction false} CollectSwapRemove<T, U>(f: T -> seq<U>, s: seq<T>, i: nat)
    requires i < |s|
    ensures multiset(Collect(f, SwapRemove(s, i))) + multiset(f(s[i])) == multiset(Collect(f, s))
  {
    CollectSuffix(f, s, i);
    CollectSplit(f, s, i);
    CollectSplit(f, SwapRemove(s, i), i);
    var pre := Collect(f, s[..i]);
    calc {
      multiset(Collect(f, SwapRemove(s, i))) + multiset(f(s[i]));
      multiset(pre + Collect(f, SwapRemove(s, i)[i..])) + multiset(f(s[i]));
      multiset(pre) + multiset(Collect(f, SwapRemove(s, i)[i..])) + multiset(f(s[i]));
      multiset(pre) + multiset(Collect(f, s[i..]));
      multiset(pre + Collect(f, s[i..]));
    }
  }

  lemma {:induction false} CollectAround<T, U>(f: T -> seq<U>, s: seq<T>, i: nat)
    requires i < |s|
    ensures Collect(f, s) == Collect(f, s[..i]) + f(s[i]) + Collect(f, s[i + 1..])
  {
    CollectSplit(f, s, i);
    assert s[i..] == [s[i]] + s[i + 1..];
    CollectConcat(f, [s[i]], s[i + 1..]);
    CollectOne(f, s[i]);
  }

  lemma {:induction false} CollectUpdate<T, U>(f: T -> seq<U>, s: seq<T>, i: nat, x: T)
    requires i < |s|
    ensures multiset(Collect(f, s[i := x])) + multiset(f(s[i])) == multiset(Collect(f, s)) + multiset(f(x))
    ensures multiset(f(s[i])) <= multiset(Collect(f, s))
  {
    CollectAround(f, s, i);
    CollectAround(f, s[i := x], i);
    assert s[i := x][..i] == s[..i] && s[i := x][i + 1..] == s[i + 1..];
  }

  lemma {:induction false} CollectMember<T, U>(f: T -> seq<U>, s: seq<T>, u: U)
    ensures u in Collect(f, s) <==> exists x :: x in s && u in f(x)
  {
    if s != [] {
      CollectMember(f, s[1..], u);
      assert s == [s[0]] + s[1..];
      if x :| x in s && u in f(x) {
        assert x == s[0] || x in s[1..];
      }
    }
  }

  lemma {:induction false} CollectSame<T, U>(f: T -> seq<U>, g: T -> seq<U>, s: seq<T>)
    requires forall x :: x in s ==> f(x) == g(x)
    ensures Collect(f, s) == Collect(g, s)
  {
    if s != [] {
      CollectSame(f, g, s[1..]);
    }
  }

  /** Reordering does not change what is collected, as a multiset. */
  lemma {:induction false} CollectPermute<T, U>(f: T -> seq<U>, a: seq<T>, b: seq<T>)
    requires multiset(a) == multiset(b)
    ensures multiset(Collect(f, a)) == multiset(Collect(f, b))
    decreases |a|
  {
    if a == [] {
      assert |multiset(b)| == 0;
    } else {
      assert a == [a[0]] + a[1..];
      assert a[0] in multiset(b);
      var i :| 0 <= i < |b| && b[i] == a[0];
      CollectSwapRemove(f, b, i);
      assert multiset(a) == multiset{a[0]} + multiset(a[1..]);
      assert multiset(SwapRemove(b, i)) == multiset(b) - multiset{a[0]};
      CollectPermute(f, a[1..], SwapRemove(b, i));
    }
  }

  lemma {:induction false} RepeatCounts<T>(s: seq<T>, i: nat, j: nat)
    requires i < j < |s| && s[i] == s[j]
    ensures multiset(s)[s[i]] >= 2
  {
    assert s == s[..j] + [s[j]] + s[j + 1..];
    assert s[i] in s[..j];
  }
}

/** Searching, decimal ports and UTF-8: what the parsers take from the standard library. */
module Text {
  import opened Common

  ghost predicate At<T>(s: seq<T>, i: nat, pattern: seq<T>) {
    i + |pattern| <= |s| && s[i..i + |pattern|] == pattern
  }

  ghost predicate Within<T>(pattern: seq<T>, s: seq<T>) {
    exists i: nat :: At(s, i, pattern)
  }

  lemma {:induction false} AtShift<T>(first: seq<T>, rest: seq<T>, i: nat, pattern: seq<T>)
    ensures At(first + rest, |first| + i, pattern) <==> At(rest, i, pattern)
  {
    var s := first + rest;
    if i + |pattern| <= |rest| {
      assert s[|first| + i..|first| + i + |pattern|] == rest[i..i + |pattern|];
    }
  }

  lemma {:induction false} AtTail<T>(s: seq<T>, pattern: seq<T>)
    requires s != []
    ensures forall i: nat :: i > 0 ==> (At(s, i, pattern) <==> At(s[1..], i - 1, pattern))
    ensures At(s, 0, pattern) <==> pattern <= s
  {
    assert s == [s[0]] + s[1..];
    forall i: nat | i > 0 ensures At(s, i, pattern) <==> At(s[1..], i - 1, pattern) {
      AtShift([s[0]], s[1..], i - 1, pattern);
    }
    AtStart(s, pattern);
  }

  lemma {:induction false} AtStart<T>(s: seq<T>, pattern: seq<T>)
    ensures At(s, 0, pattern) <==> pattern <= s
  {
    if |pattern| <= |s| { assert s[0..0 + |pattern|] == s[..|pattern|]; }
  }

  /** The first place where the pattern stands. */
  function Find<T(==)>(s: seq<T>, pattern: seq<T>): (r: Option<nat>)
    requires |pattern| > 0
    ensures r.Some? ==> At(s, r.value, pattern) && forall i: nat :: i < r.value ==> !At(s, i, pattern)
    ensures r.None? ==> forall i: nat :: !At(s, i, pattern)
  {
    if s == [] then None
    else
      AtTail(s, pattern);
      if pattern <= s then Some(0)
      else
        var rest := Find(s[1..], pattern);
        assert rest.Some? ==> At(s, rest.value + 1, pattern);
        if rest.None? then None else Some(rest.value + 1)
  }

  /** The result is pinned by what it promises. */
  lemma {:induction false} FindIs<T>(s: seq<T>, pattern: seq<T>, k: nat)
    requires |pattern| > 0 && At(s, k, pattern) && forall i: nat :: i < k ==> !At(s, i, pattern)
    ensures Find(s, pattern) == Some(k)
  {
  }

  function FindChar(s: string, c: char): (r: Option<nat>)
    ensures r.Some? ==> r.value < |s| && s[r.value] == c && c !in s[..r.value]
    ensures r.None? ==> c !in s
  {
    if s == "" then None
    else if s[0] == c then Some(0)
    else
      var rest := FindChar(s[1..], c);
      assert s == [s[0]] + s[1..];
      if rest.None? then None
      else
        assert s[..rest.value + 1] == [s[0]] + s[1..][..rest.value];
        Some(rest.value + 1)
  }

  function FindLastChar(s: string, c: char): (r: Option<nat>)
    ensures r.Some? ==> r.value < |s| && s[r.value] == c && c !in s[r.value + 1..]
    ensures r.None? ==> c !in s
  {
    if s == "" then None
    else if s[|s| - 1] == c then Some(|s| - 1)
    else
      var init := s[..|s| - 1];
      var rest := FindLastChar(init, c);
      assert s == init + [s[|s| - 1]];
      if rest.None? then None
      else
        assert s[rest.value + 1..] == init[rest.value + 1..] + [s[|s| - 1]];
        rest
  }

  lemma {:induction false} FindCharIs(before: string, c: char, after: string)
    requires c !in before
    ensures FindChar(before + [c] + after, c) == Some(|before|)
  {
    var s := before + [c] + after;
    var k := FindChar(s, c);
    assert s[|before|] == c;
  }

  lemma {:induction false} FindLastCharIs(before: string, c: char, after: string)
    requires c !in after
    ensures FindLastChar(before + [c] + after, c) == Some(|before|)
  {
    var s := before + [c] + after;
    assert s[|before|] == c;
    assert s[|before| + 1..] == after;
  }

  // ── Decimal numbers of sixteen bits ─────────────────────────────────────────

  predicate IsDigit(c: char) { '0' <= c <= '9' }

  predicate AllDigits(s: string) { forall i :: 0 <= i < |s| ==> IsDigit(s[i]) }

  function DigitsValue(s: string): nat
    requires AllDigits(s)
  {
    if s == "" then 0 else DigitsValue(s[..|s| - 1]) * 10 + (s[|s| - 1] as int - '0' as int)
  }

  /** `str::parse::<u16>`: an optional plus sign, then at least one digit, at most 65535 in value. */
  function ParseU16(s: string): (r: Option<nat>)
    ensures r.Some? ==> r.value < 0x1_0000
  {
    var digits := if |s| > 0 && s[0] == '+' then s[1..] else s;
    if digits == "" || !AllDigits(digits) || DigitsValue(digits) >= 0x1_0000 then None
    else Some(DigitsValue(digits))
  }

  function ShowNat(n: nat): (s: string)
    ensures |s| > 0 && AllDigits(s)
    ensures forall c :: c in s ==> IsDigit(c)
  {
    var digit := ('0' as int + n % 10) as char;
    if n < 10 then [digit] else ShowNat(n / 10) + [digit]
  }

  lemma {:induction false} ShowNatValue(n: nat)
    ensures DigitsValue(ShowNat(n)) == n
  {
    var s := ShowNat(n);
    if n >= 10 {
      ShowNatValue(n / 10);
      assert s[..|s| - 1] == ShowNat(n / 10);
    } else {
      assert s[..|s| - 1] == "";
    }
  }

  lemma {:induction false} PortRoundTrip(n: nat)
    requires n < 0x1_0000
    ensures ParseU16(ShowNat(n)) == Some(n)
  {
    ShowNatValue(n);
    assert IsDigit(ShowNat(n)[0]);
  }

  // ── UTF-8 ───────────────────────────────────────────────────────────────────

  function EncodeChar(c: char): (b: seq<byte>)
    ensures 1 <= |b| <= 4
    ensures c as int < 0x80 <==> |b| == 1
    ensures |b| == 1 ==> b == [c as int]
    ensures |b| > 1 ==> forall i :: 0 <= i < |b| ==> b[i] >= 0x80
  {
    var n := c as int;
    if n < 0x80 then [n]
    else if n < 0x800 then [0xC0 + n / 64, 0x80 + n % 64]
    else if n < 0x1_0000 then [0xE0 + n / 64 / 64, 0x80 + n / 64 % 64, 0x80 + n % 64]
    else [0xF0 + n / 64 / 64 / 64, 0x80 + n / 64 / 64 % 64, 0x80 + n / 64 % 64, 0x80 + n % 64]
  }

  function Utf8(text: string): seq<byte> {
    if text == "" then [] else EncodeChar(text[0]) + Utf8(text[1..])
  }

  /** How many bytes the character starting with this byte takes. */
  function Width(lead: byte): nat {
    if lead < 0x80 then 1 else if lead < 0xE0 then 2 else if lead < 0xF0 then 3 else 4
  }

  function Scalar(b: seq<byte>): int
    requires 1 <= |b| <= 4
  {
    if |b| == 1 then b[0] as int
    else if |b| == 2 then Shift(b[0] as int - 0xC0, b[1])
    else if |b| == 3 then Shift(Shift(b[0] as int - 0xE0, b[1]), b[2])
    else Shift(Shift(Shift(b[0] as int - 0xF0, b[1]), b[2]), b[3])
  }

  function Shift(n: int, next: byte): int { n * 64 + (next as int - 0x80) }

  predicate IsScalar(n: int) { 0 <= n < 0xD800 || 0xE000 <= n < 0x11_0000 }

  /** The character the bytes start with, if its encoding is what stands there. */
  function FirstChar(b: seq<byte>): (r: Option<char>)
    requires b != []
    ensures r.Some? ==> EncodeChar(r.value) <= b
  {
    var w := Width(b[0]);
    if |b| < w || !IsScalar(Scalar(b[..w])) || EncodeChar(Scalar(b[..w]) as char) != b[..w] then None
    else Some(Scalar(b[..w]) as char)
  }

  /** `str::from_utf8`: the text whose encoding the bytes are, if there is one. */
  function FromUtf8(b: seq<byte>): (r: Option<string>)
    ensures r.Some? ==> Utf8(r.value) == b
  {
    if b == [] then Some("")
    else
      var c := FirstChar(b);
      if c.None? then None
      else
        var rest := FromUtf8(b[|EncodeChar(c.value)|..]);
        if rest.None? then None
        else
          var text := [c.value] + rest.value;
          assert text[1..] == rest.value;
          Some(text)
  }

  lemma {:induction false} EncodeCharScalar(c: char)
    ensures Scalar(EncodeChar(c)) == c as int && Width(EncodeChar(c)[0]) == |EncodeChar(c)|
  {
  }

  lemma {:induction false} FirstCharOf(c: char, rest: seq<byte>)
    ensures FirstChar(EncodeChar(c) + rest) == Some(c)
  {
    EncodeCharScalar(c);
    var first := EncodeChar(c);
    var b := first + rest;
    assert b[0] == first[0] && b[..|first|] == first;
  }

  /** Every text is read back from its own bytes. */
  lemma {:induction false} Utf8RoundTrip(text: string)
    ensures FromUtf8(Utf8(text)) == Some(text)
  {
    if text != "" {
      var first, b := EncodeChar(text[0]), Utf8(text);
      FirstCharOf(text[0], Utf8(text[1..]));
      assert b[|first|..] == Utf8(text[1..]);
      Utf8RoundTrip(text[1..]);
      assert text == [text[0]] + text[1..];
    }
  }

  lemma {:induction false} Utf8Concat(a: string, b: string)
    ensures Utf8(a + b) == Utf8(a) + Utf8(b)
  {
    if a == "" {
      assert a + b == b;
    } else {
      assert (a + b)[1..] == a[1..] + b;
      Utf8Concat(a[1..], b);
    }
  }

  predicate Ascii(s: string) { forall i :: 0 <= i < |s| ==> s[i] as int < 0x80 }

  /** An ASCII pattern at the head of the bytes is one at the head of the text. */
  lemma {:induction false} Utf8Prefix(text: string, pattern: string)
    requires Ascii(pattern)
    ensures Utf8(pattern) <= Utf8(text) <==> pattern <= text
  {
    if pattern == "" {
    } else if text == "" {
      assert |Utf8(pattern)| > 0;
    } else {
      var p, t := EncodeChar(pattern[0]), EncodeChar(text[0]);
      Utf8Prefix(text[1..], pattern[1..]);
      if p == t {
        assert pattern[0] == text[0];
        assert Utf8(pattern)[1..] == Utf8(pattern[1..]) && Utf8(text)[1..] == Utf8(text[1..]);
      } else {
        assert Utf8(pattern)[0] == p[0] && Utf8(text)[0] == t[0];
      }
    }
  }

  /** No ASCII pattern starts inside a character's bytes. */
  lemma {:induction false} StartsAtChar(text: string, pattern: string, i: nat)
    requires Ascii(pattern) && |pattern| > 0 && i > 0 && At(Utf8(text), i, Utf8(pattern))
    ensures text != "" && i >= |EncodeChar(text[0])|
  {
    var b, p := Utf8(text), Utf8(pattern);
    assert p[0] == EncodeChar(pattern[0])[0];
    assert b[i] == b[i..i + |p|][0];
  }

  /** An ASCII pattern stands in the bytes only where it stands in the text. */
  lemma {:induction false} Utf8At(text: string, pattern: string, i: nat) returns (j: nat)
    requires Ascii(pattern) && |pattern| > 0 && At(Utf8(text), i, Utf8(pattern))
    ensures At(text, j, pattern) && i == |Utf8(text[..j])|
  {
    if i == 0 {
      Utf8Prefix(text, pattern);
      j := 0;
    } else {
      StartsAtChar(text, pattern, i);
      var first := EncodeChar(text[0]);
      AtShift(first, Utf8(text[1..]), i - |first|, Utf8(pattern));
      var k := Utf8At(text[1..], pattern, i - |first|);
      j := k + 1;
      AtShift([text[0]], text[1..], k, pattern);
      assert [text[0]] + text[1..] == text;
      assert text[..j][1..] == text[1..][..k];
    }
  }

  lemma {:induction false} AtUtf8(text: string, pattern: string, j: nat)
    requires At(text, j, pattern)
    ensures At(Utf8(text), |Utf8(text[..j])|, Utf8(pattern))
  {
    var before, after := text[..j], text[j + |pattern|..];
    assert text == before + (pattern + after);
    Utf8Concat(before, pattern + after);
    Utf8Concat(pattern, after);
    AtShift(Utf8(before), Utf8(pattern) + Utf8(after), 0, Utf8(pattern));
  }

  lemma {:induction false} FindFirst<T>(s: seq<T>, pattern: seq<T>, k: nat) returns (first: nat)
    requires |pattern| > 0 && At(s, k, pattern)
    ensures Find(s, pattern) == Some(first) && first <= k
  {
    first := Find(s, pattern).value;
  }

  lemma {:induction false} FoundInText(text: string, pattern: string, k: nat) returns (n: nat)
    requires Ascii(pattern) && |pattern| > 0 && |Utf8(pattern)| > 0 && Find(text, pattern) == Some(k)
    ensures Find(Utf8(text), Utf8(pattern)) == Some(n) && n <= |Utf8(text[..k])|
  {
    AtUtf8(text, pattern, k);
    n := FindFirst(Utf8(text), Utf8(pattern), |Utf8(text[..k])|);
  }

  lemma {:induction false} FoundInBytes(text: string, pattern: string, n: nat) returns (k: nat)
    requires Ascii(pattern) && |pattern| > 0 && |Utf8(pattern)| > 0 && Find(Utf8(text), Utf8(pattern)) == Some(n)
    ensures Find(text, pattern) == Some(k) && |Utf8(text[..k])| <= n
  {
    var j := Utf8At(text, pattern, n);
    k := FindFirst(text, pattern, j);
    PrefixNotLonger(text, k, j);
  }

  /** So the first place of the pattern in the bytes is the first place in the text. */
  lemma {:induction false} FindUtf8(text: string, pattern: string)
    requires Ascii(pattern) && |pattern| > 0 && |Utf8(pattern)| > 0
    ensures var k := Find(text, pattern);
      Find(Utf8(text), Utf8(pattern)) == if k.Some? then Some(|Utf8(text[..k.value])|) else None
  {
    var k, n := Find(text, pattern), Find(Utf8(text), Utf8(pattern));
    if k.Some? { var m := FoundInText(text, pattern, k.value); }
    if n.Some? { var j := FoundInBytes(text, pattern, n.value); }
  }

  lemma {:induction false} PrefixNotLonger(text: string, i: nat, j: nat)
    requires i <= j <= |text|
    ensures |Utf8(text[..i])| <= |Utf8(text[..j])|
  {
    assert text[..j] == text[..i] + text[i..j];
    Utf8Concat(text[..i], text[i..j]);
  }
}
