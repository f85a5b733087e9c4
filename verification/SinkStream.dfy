/** The finalizer's input: a descriptor read in chunks of any size, capped and framed before the
    reader buffers a line (docker/pineforge_sink_finalize.py). */
module SinkStream {
  import opened Arithmetic
  import opened Bytes
  import opened Framing
  import opened Options
  import opened SinkFormat

  const CHUNK_BYTES: nat := 65536

  /** `Stopped`: an interruption, or an error the program did not foresee. */
  datatype Fault = Overflow | OverlongLine | ReadError | Stopped

  /** Bytes of a stream that a cap lets through. */
  function Capped(source: seq<byte>, cap: Option<nat>): (r: seq<byte>)
    ensures r <= source
  {
    if cap.Some? && cap.value < |source| then source[..cap.value] else source
  }

  lemma {:induction false} BufferedLine(a: seq<byte>, more: seq<byte>, limit: nat)
    requires LF in a || |a| >= limit
    ensures LineLength(a + more, limit) == LineLength(a, limit)
    decreases |a|
  {
    if a != [] && limit > 0 && a[0] != LF {
      assert (a + more)[1..] == a[1..] + more;
      BufferedLine(a[1..], more, limit - 1);
    }
  }

  /** A buffer that holds a line, or all there is, shows the first line of the rest. */
  lemma {:induction false} FirstBuffered(view: seq<byte>, handed: seq<byte>, buffer: seq<byte>)
    requires handed + buffer <= view
    requires LF in buffer || |buffer| >= READ_LIMIT || handed + buffer == view
    ensures FirstLine(view[|handed|..]) == FirstLine(buffer)
  {
    var more := view[|handed + buffer|..];
    assert view == handed + buffer + more;
    assert view[|handed|..] == buffer + more;
    if LF in buffer || |buffer| >= READ_LIMIT { BufferedLine(buffer, more, READ_LIMIT); }
  }

  /** No line feed but at the end: at most one line. */
  predicate OneLine(s: seq<byte>) { forall i | 0 <= i < |s| - 1 :: s[i] != LF }

  lemma {:induction false} OverlongPrefix(s: seq<byte>, k: nat)
    requires k <= |s| && Bound(s[..k], Line(0), MAX_LINE_BYTES).Overlong?
    ensures HasOverlong(s, MAX_LINE_BYTES)
  {
    BoundMeaning(s[..k], MAX_LINE_BYTES);
    var i: nat :| Stretch(s[..k], i, MAX_LINE_BYTES);
    assert Stretch(s, i, MAX_LINE_BYTES);
  }

  /** A line cut off at the read limit is overlong. */
  lemma {:induction false} CutLineIsOverlong(s: seq<byte>, from: nat, line: seq<byte>)
    requires from <= |s| && line == FirstLine(s[from..]) && |line| == READ_LIMIT
    ensures HasOverlong(s, MAX_LINE_BYTES)
  {
    LineEnds(s[from..], READ_LIMIT);
    forall j | from <= j < from + MAX_LINE_BYTES ensures s[j] != LF { assert s[j] == s[from..][j - from]; }
    assert Stretch(s, from, MAX_LINE_BYTES);
  }

  /** Where lines are framed, no line is cut off. */
  lemma {:induction false} NotCut(s: seq<byte>, from: nat, line: seq<byte>)
    requires from <= |s| && line == FirstLine(s[from..]) && Bound(s, Line(0), MAX_LINE_BYTES).Line?
    ensures |line| < READ_LIMIT
  {
    BoundMeaning(s, MAX_LINE_BYTES);
    if |line| == READ_LIMIT { CutLineIsOverlong(s, from, line); }
  }

  class Input {
    const source: seq<byte>          // all the descriptor will ever yield
    const cap: Option<nat>
    const framed: bool               // whether line lengths are checked on the way
    var taken: nat                   // bytes read from the descriptor
    var lineBytes: nat
    var buffer: seq<byte>            // read and not yet handed to the reader
    ghost var handed: seq<byte>
    ghost var failures: nat          // reads that failed
    ghost var stops: nat             // interruptions and unforeseen errors

    constructor (source: seq<byte>, cap: Option<nat>, framed: bool)
      ensures this.source == source && this.cap == cap && this.framed == framed
      ensures taken == 0 && handed == [] && failures == 0 && stops == 0 && Valid()
    {
      this.source, this.cap, this.framed := source, cap, framed;
      taken, lineBytes, buffer, handed, failures, stops := 0, 0, [], [], 0, 0;
    }

    ghost function View(): (r: seq<byte>)
      ensures r <= source
    {
      Capped(source, cap)
    }

    /** What the reader has not been handed, as far as the cap allows. */
    ghost function Rest(): seq<byte>
      requires |handed| <= |View()|
      reads this
    {
      View()[|handed|..]
    }

    ghost predicate Valid()
      reads this
      ensures Valid() ==> |handed| <= |View()|
    {
      && taken <= |View()| && handed + buffer == source[..taken]
      && lineBytes <= MAX_LINE_BYTES && (framed ==> Bound(source[..taken], Line(0), MAX_LINE_BYTES) == Line(lineBytes))
    }

    /** Never more than one byte behind the cap is read. */
    ghost predicate Within()
      reads this
    {
      taken <= |source| && (cap.Some? ==> taken <= cap.value + 1)
    }

    /** The stream is longer than its cap, and that is known from one byte. */
    ghost predicate Overflowed()
      reads this
    {
      cap.Some? && taken == cap.value + 1 && View() != source
    }

    /** A fault of the reading is what happened: a read failed, or something stopped it. */
    twostate predicate Tells(new f: Option<Fault>)
      reads this
    {
      && old(failures) <= failures && (f == Some(ReadError) ==> old(failures) < failures)
      && old(stops) <= stops && (f == Some(Stopped) ==> old(stops) < stops)
    }

    /** Whether an interruption strikes here. */
    method Interrupted() returns (struck: bool)
      modifies `stops
      ensures stops == old(stops) + if struck then 1 else 0
    {
      struck := *;
      if struck { stops := stops + 1; }
    }

    /** Up to `n` bytes from the descriptor, none only at its end. */
    method Receive(n: nat) returns (chunk: seq<byte>, f: Option<Fault>)
      requires 0 < n && taken <= |source|
      modifies `taken, `failures, `stops
      ensures Tells(f) && (f.Some? ==> f.value == ReadError || f.value == Stopped)
      ensures old(taken) <= taken <= |source| && taken <= old(taken) + n
      ensures f.None? ==> chunk == source[old(taken)..taken] && (chunk == [] <==> old(taken) == |source|)
    {
      chunk := [];
      if * {
        failures := failures + 1;
        return chunk, Some(ReadError);
      }
      var struck := Interrupted();
      if struck { return chunk, Some(Stopped); }
      var most := Min(n, |source| - taken);
      var choice: int := *;
      var count := if 1 <= choice <= most then choice else most;
      chunk := source[taken..taken + count];
      taken := taken + count;
      struck := Interrupted();
      f := if struck then Some(Stopped) else None;
    }

    /** One read. The byte behind the cap is only probed when everything before it was taken. */
    method Fill(size: nat) returns (f: Option<Fault>)
      requires Valid() && size > 0
      modifies `taken, `lineBytes, `buffer, `failures, `stops
      ensures Within() && Tells(f)
      ensures f.None? ==> Valid() && old(taken) <= taken && buffer == old(buffer) + source[old(taken)..taken]
      ensures f.None? ==> (taken == old(taken) <==> old(taken) == |source|)
      ensures f.Some? ==> buffer == old(buffer)
      ensures f == Some(Overflow) ==> Overflowed() && handed + buffer == View()
      ensures f == Some(OverlongLine) ==> framed && HasOverlong(source, MAX_LINE_BYTES)
    {
      var n := Min(size, CHUNK_BYTES);
      if cap.Some? { n := Min(n, if cap.value > taken then cap.value - taken else 1); }
      var chunk;
      chunk, f := Receive(n);
      if f.Some? { return; }
      assert source[..old(taken)] + chunk == source[..taken];
      if cap.Some? && taken > cap.value { return Some(Overflow); }
      if framed {
        var ok := Frame(chunk);
        if !ok { return Some(OverlongLine); }
      }
      assert handed + (buffer + chunk) == handed + buffer + chunk;
      buffer := buffer + chunk;
    }

    /** The running line length over one more chunk. */
    method Frame(chunk: seq<byte>) returns (ok: bool)
      requires |chunk| <= taken <= |source| && chunk == source[taken - |chunk|..taken] && lineBytes <= MAX_LINE_BYTES
      requires Bound(source[..taken - |chunk|], Line(0), MAX_LINE_BYTES) == Line(lineBytes)
      modifies `lineBytes
      ensures lineBytes <= MAX_LINE_BYTES
      ensures ok ==> Bound(source[..taken], Line(0), MAX_LINE_BYTES) == Line(lineBytes)
      ensures !ok ==> HasOverlong(source, MAX_LINE_BYTES)
    {
      assert source[..taken - |chunk|] + chunk == source[..taken];
      BoundThen(source[..taken - |chunk|], chunk, Line(0), MAX_LINE_BYTES);
      var r := LineBound(chunk, lineBytes);
      if r.Overlong? {
        OverlongPrefix(source, taken);
        return false;
      }
      lineBytes := r.length;
      ok := true;
    }

    /** Reads until a line is buffered, or nothing more comes. */
    method Gather() returns (f: Option<Fault>)
      requires Valid()
      modifies `taken, `lineBytes, `buffer, `failures, `stops
      ensures Within() && Tells(f)
      ensures f.None? ==> Valid() && (LF in buffer || |buffer| >= READ_LIMIT || handed + buffer == View() == source)
      ensures f == Some(Overflow) ==>
                Overflowed() && handed + buffer == View() && |buffer| < READ_LIMIT && LF !in buffer
      ensures f == Some(OverlongLine) ==> framed && HasOverlong(source, MAX_LINE_BYTES)
    {
      while LF !in buffer && |buffer| < READ_LIMIT
        invariant Valid() && Tells(None)
        decreases |source| - taken
      {
        var before := taken;
        f := Fill(CHUNK_BYTES);
        if f.Some? { return; }
        if taken == before { break; }
      }
      f := None;
    }

    /** The reader's next line, whatever reads it takes; a capped stream refuses only when all
        it may hand out was read and holds no further line. */
    method ReadLine() returns (line: seq<byte>, f: Option<Fault>)
      requires Valid()
      modifies this
      ensures Within() && Tells(f)
      ensures f.None? ==> Valid() && line == FirstLine(old(Rest())) && handed == old(handed) + line && OneLine(line)
      ensures f.None? && Unterminated(line) ==> View() == source || !framed
      ensures f.Some? ==> handed == old(handed)
      ensures f == Some(Overflow) ==>
                Overflowed() && handed + buffer == View() && |buffer| < READ_LIMIT && LF !in buffer
      ensures f == Some(OverlongLine) ==> framed && HasOverlong(source, MAX_LINE_BYTES)
    {
      f := Gather();
      if f.Some? { return [], f; }
      FirstBuffered(View(), handed, buffer);
      line := FirstLine(buffer);
      ShowsLine(line);
      assert handed + buffer == handed + line + AfterLine(buffer);
      buffer := AfterLine(buffer);
      handed := handed + line;
    }

    /** A line without its end is the last one, unless lines may be overlong. */
    lemma {:induction false} ShowsLine(line: seq<byte>)
      requires Valid() && line == FirstLine(buffer) == FirstLine(Rest())
      requires LF in buffer || |buffer| >= READ_LIMIT || handed + buffer == View() == source
      ensures OneLine(line)
      ensures Unterminated(line) ==> View() == source || !framed
    {
      LineEnds(buffer, READ_LIMIT);
      if framed {
        assert source[..taken][|handed|..] == buffer;
        NotCut(source[..taken], |handed|, line);
      }
    }

    /** Whether any byte follows. */
    method More() returns (more: bool, f: Option<Fault>)
      requires Valid()
      modifies `taken, `lineBytes, `buffer, `failures, `stops
      ensures Within() && Tells(f)
      ensures f.None? ==> Valid() && (more <==> Rest() != []) && (!more ==> handed == source && taken == |source|)
      ensures f == Some(Overflow) ==> Overflowed() && handed == View()
      ensures f == Some(OverlongLine) ==> framed && HasOverlong(source, MAX_LINE_BYTES)
    {
      if buffer == [] {
        f := Fill(CHUNK_BYTES);
        if f.Some? { return false, f; }
      }
      return buffer != [], None;
    }
  }
}
