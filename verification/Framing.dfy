/** Transport framing of the finalizer: the running line length, checked chunk by chunk
    (docker/pineforge_sink_finalize.py). */
module Framing {
  import opened Bytes

  datatype Running = Overlong | Line(length: nat)

  /** Byte by byte: a line may hold `max` bytes with its line feed. */
  function Bound(s: seq<byte>, state: Running, max: nat): Running {
    if s == [] || state.Overlong? then state
    else if state.length == max then Overlong
    else Bound(s[1..], Line(if s[0] == LF then 0 else state.length + 1), max)
  }

  lemma {:induction false} BoundThen(a: seq<byte>, b: seq<byte>, state: Running, max: nat)
    ensures Bound(a + b, state, max) == Bound(b, Bound(a, state, max), max)
    decreases |a|
  {
    if a == [] {
      assert a + b == b;
    } else if state.Line? && state.length != max {
      assert (a + b)[1..] == a[1..] + b;
      BoundThen(a[1..], b, Line(if a[0] == LF then 0 else state.length + 1), max);
    }
  }

  function FirstFeed(s: seq<byte>): (n: nat)
    ensures n <= |s| && (forall i | 0 <= i < n :: s[i] != LF) && (n < |s| ==> s[n] == LF)
  {
    if s == [] || s[0] == LF then 0 else 1 + FirstFeed(s[1..])
  }

  /** Bytes that only lengthen the line. */
  lemma {:induction false} BoundWithin(s: seq<byte>, length: nat, max: nat)
    requires length <= max && forall i | 0 <= i < |s| :: s[i] != LF
    ensures Bound(s, Line(length), max) == if length + |s| <= max then Line(length + |s|) else Overlong
    decreases |s|
  {
    if s != [] && length < max { BoundWithin(s[1..], length + 1, max); }
  }

  /** One stretch up to a line feed, or to the end of the chunk. */
  lemma {:induction false} BoundStretch(s: seq<byte>, stop: nat, length: nat, max: nat)
    requires 0 < stop <= |s| && length <= max && (stop == |s| || s[stop - 1] == LF)
    requires forall i | 0 <= i < stop - 1 :: s[i] != LF
    ensures Bound(s, Line(length), max) ==
            if length + stop > max then Overlong
            else Bound(s[stop..], Line(if s[stop - 1] == LF then 0 else length + stop), max)
  {
    var head := s[..stop - 1];
    assert s == head + s[stop - 1..];
    BoundWithin(head, length, max);
    BoundThen(head, s[stop - 1..], Line(length), max);
    assert s[stop - 1..][1..] == s[stop..];
  }

  /** The running length of one chunk, stretch by stretch. */
  method LineBound(chunk: seq<byte>, length: nat) returns (r: Running)
    requires length <= MAX_LINE_BYTES
    ensures r == Bound(chunk, Line(length), MAX_LINE_BYTES)
    ensures r.Line? ==> r.length <= MAX_LINE_BYTES
  {
    var start: nat, lineBytes: nat := 0, length;
    assert chunk[0..] == chunk;
    while start < |chunk|
      invariant start <= |chunk| && lineBytes <= MAX_LINE_BYTES
      invariant Bound(chunk, Line(length), MAX_LINE_BYTES) == Bound(chunk[start..], Line(lineBytes), MAX_LINE_BYTES)
    {
      var found := FirstFeed(chunk[start..]);
      var end := start + found;
      var stop := if end < |chunk| then end + 1 else |chunk|;
      assert forall i | 0 <= i < stop - start - 1 :: chunk[start..][i] != LF;
      BoundStretch(chunk[start..], stop - start, lineBytes, MAX_LINE_BYTES);
      assert chunk[start..][stop - start..] == chunk[stop..];
      lineBytes := lineBytes + (stop - start);
      if lineBytes > MAX_LINE_BYTES { return Overlong; }
      if end < |chunk| { lineBytes := 0; }
      start := stop;
    }
    r := Line(lineBytes);
  }

  /** Folded over chunks the verdict depends only on the concatenated bytes. */
  method LineBoundAll(chunks: seq<seq<byte>>) returns (r: Running)
    ensures r == Bound(Concat(chunks), Line(0), MAX_LINE_BYTES)
  {
    var length: nat := 0;
    assert chunks[0..] == chunks;
    for i := 0 to |chunks|
      invariant length <= MAX_LINE_BYTES
      invariant Bound(Concat(chunks), Line(0), MAX_LINE_BYTES) ==
                Bound(Concat(chunks[i..]), Line(length), MAX_LINE_BYTES)
    {
      BoundThen(chunks[i], Concat(chunks[i + 1..]), Line(length), MAX_LINE_BYTES);
      var next := LineBound(chunks[i], length);
      if next.Overlong? { return Overlong; }
      length := next.length;
    }
    r := Line(length);
  }

  /** `max` bytes without a line feed, and one more byte. */
  predicate Stretch(s: seq<byte>, i: nat, max: nat) {
    i + max < |s| && forall j | i <= j < i + max :: s[j] != LF
  }

  /** Some line is longer than `max`. */
  ghost predicate HasOverlong(s: seq<byte>, max: nat) { exists i: nat :: Stretch(s, i, max) }

  /** The current line: how many bytes at the end follow the last line feed. */
  predicate Pending(s: seq<byte>, n: nat) {
    n <= |s| && (forall j | |s| - n <= j < |s| :: s[j] != LF) && (n < |s| ==> s[|s| - n - 1] == LF)
  }

  /** A stream passes exactly when it holds no overlong line; then the running length is that
      of its last fragment. */
  lemma {:induction false} BoundMeaning(s: seq<byte>, max: nat)
    requires max > 0
    ensures var r := Bound(s, Line(0), max);
            && (r.Overlong? <==> HasOverlong(s, max))
            && (r.Line? ==> r.length <= max && Pending(s, r.length))
  {
    if s != [] {
      var init, last := s[..|s| - 1], s[|s| - 1];
      assert s == init + [last];
      BoundMeaning(init, max);
      BoundThen(init, [last], Line(0), max);
      var before := Bound(init, Line(0), max);
      assert Bound([last], before, max) ==
        if before.Overlong? then before
        else if before.length == max then Overlong
        else Bound([last][1..], Line(if last == LF then 0 else before.length + 1), max);
      if before.Overlong? {
        var i: nat :| Stretch(init, i, max);
        assert Stretch(s, i, max);
      } else if before.length == max {
        assert Stretch(s, |init| - max, max);
      } else if HasOverlong(s, max) {
        var i: nat :| Stretch(s, i, max);
        if i + max < |init| { assert Stretch(init, i, max); }
        assert false;
      }
    }
  }
}
