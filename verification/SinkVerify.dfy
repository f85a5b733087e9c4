/** Verification of a sink while it is forwarded line by line
    (docker/pineforge_sink_finalize.py). */
module SinkVerify {
  import opened Bytes
  import opened Framing
  import opened Json
  import opened Options
  import opened RecordOrder
  import opened SinkFormat
  import opened SinkReader
  import opened SinkStream

  function RefusalCode(why: Refusal): int {
    match why
    case Incomplete => 6
    case BadTrailer => 4
    case Malformed => 3
  }

  function FaultCode(f: Fault): int {
    match f
    case Overflow => 8
    case OverlongLine => 3
    case ReadError => 5
    case Stopped => 7
  }

  /** How a loop of writes ends: all written, a write failed, or it was stopped before a write. */
  datatype Written = Complete | Failed | Halted

  function WrittenCode(w: Written): int {
    match w
    case Complete => 0
    case Failed => 5
    case Halted => 7
  }

  /** A descriptor written to; any write may be short or fail, and an interruption may strike between
      any two steps. */
  class Output {
    var sent: seq<byte>
    ghost var failures: nat          // writes that failed
    ghost var stops: nat             // interruptions and unforeseen errors

    constructor ()
      ensures sent == [] && failures == 0 && stops == 0
    {
      sent, failures, stops := [], 0, 0;
    }

    /** Whether an interruption strikes here. */
    method Interrupted() returns (struck: bool)
      modifies `stops
      ensures stops == old(stops) + if struck then 1 else 0
    {
      struck := *;
      if struck { stops := stops + 1; }
    }

    method WriteAll(data: seq<byte>) returns (w: Written)
      modifies this
      ensures old(sent) <= sent <= old(sent) + data
      ensures w.Complete? <==> sent == old(sent) + data
      ensures failures == old(failures) + (if w.Failed? then 1 else 0)
      ensures stops == old(stops) + (if w.Halted? then 1 else 0)
    {
      var remaining := data;
      while remaining != []
        invariant old(sent) <= sent && sent + remaining == old(sent) + data
        invariant failures == old(failures) && stops == old(stops)
        decreases |remaining|
      {
        if * {
          assert sent <= old(sent) + data && |sent| < |old(sent) + data|;
          if * {
            failures := failures + 1;
            return Failed;
          }
          stops := stops + 1;
          return Halted;
        }
        var written: nat := *;
        written := if 1 <= written <= |remaining| then written else |remaining|;
        assert sent + remaining == sent + remaining[..written] + remaining[written..];
        sent := sent + remaining[..written];
        remaining := remaining[written..];
      }
      w := Complete;
    }
  }

  /** A status of 5 is a read or write that failed, and a status of 7 something that stopped the run. */
  twostate predicate Blamed(status: int, input: Input, out: Output)
    reads input, out
  {
    && old(input.failures) <= input.failures && old(out.failures) <= out.failures
    && old(input.stops) <= input.stops && old(out.stops) <= out.stops
    && (status == 5 ==> old(input.failures + out.failures) < input.failures + out.failures)
    && (status == 7 ==> old(input.stops + out.stops) < input.stops + out.stops)
  }

  /** What a run amounts to when these records came first. */
  function After(rows: seq<Record>, o: Outcome): Outcome { Outcome(rows + o.records, o.last, o.end) }

  /** A run that amounts to `whole` yielded these records first and then was in this state. */
  ghost predicate Reached(env: Env, view: seq<byte>, whole: Outcome, rows: seq<Record>, r: Reader) {
    && |r.counts| == |r.schema| && r.hashed <= view
    && whole == After(rows, Run(env, r, view[|r.hashed|..]))
  }

  /** All that reading `view` amounts to, after a header that opens it. */
  ghost function Whole(env: Env, view: seq<byte>): Outcome
    requires Open(env, view).Ok?
  {
    Run(env, Open(env, view).value.1, AfterLine(view))
  }

  lemma {:induction false} ReachedStart(env: Env, view: seq<byte>)
    requires Open(env, view).Ok?
    ensures Reached(env, view, Whole(env, view), [], Open(env, view).value.1)
  {
    var r := Open(env, view).value.1;
    assert view[|r.hashed|..] == AfterLine(view);
    var o := Run(env, r, AfterLine(view));
    assert [] + o.records == o.records;
  }

  lemma {:induction false} RunUnfolds(env: Env, r: Reader, input: seq<byte>, record: Record, next: Reader)
    requires |r.counts| == |r.schema| && Next(env, r, input) == Row(record, next)
    ensures |next.counts| == |next.schema| && next.hashed == r.hashed + FirstLine(input) && FirstLine(input) != []
    ensures Run(env, r, input) == After([record], Run(env, next, AfterLine(input)))
  {
  }

  lemma {:induction false} LineSplits(view: seq<byte>, before: seq<byte>, after: seq<byte>)
    requires before <= view && after == before + FirstLine(view[|before|..])
    ensures after <= view && view[|after|..] == AfterLine(view[|before|..])
  {
    var rest := view[|before|..];
    assert view == before + rest;
    assert rest == FirstLine(rest) + AfterLine(rest);
  }

  lemma {:induction false} AfterAfter(rows: seq<Record>, record: Record, o: Outcome)
    ensures After(rows, After([record], o)) == After(rows + [record], o)
  {
    assert rows + ([record] + o.records) == rows + [record] + o.records;
  }

  lemma {:induction false} ReachedStep(env: Env, view: seq<byte>, whole: Outcome, rows: seq<Record>, r: Reader,
                                       record: Record, next: Reader)
    requires Reached(env, view, whole, rows, r) && Next(env, r, view[|r.hashed|..]) == Row(record, next)
    ensures Reached(env, view, whole, rows + [record], next) && |r.hashed| < |next.hashed|
  {
    RunUnfolds(env, r, view[|r.hashed|..], record, next);
    LineSplits(view, r.hashed, next.hashed);
    AfterAfter(rows, record, Run(env, next, view[|next.hashed|..]));
  }

  lemma {:induction false} ReachedEnd(env: Env, view: seq<byte>, whole: Outcome, rows: seq<Record>, r: Reader)
    requires Reached(env, view, whole, rows, r) && !Next(env, r, view[|r.hashed|..]).Row?
    ensures whole.records == rows && whole.last == r
    ensures Next(env, r, view[|r.hashed|..]) == SinkFormat.Finish ==> whole.end == Ok(env.digest(r.hashed))
  {
    assert rows + [] == rows;
  }

  /** Whole lines the reader and the order checks accepted, from the start of the stream. */
  ghost predicate WholeLines(env: Env, view: seq<byte>, rows: seq<Record>, last: Reader, bytes: seq<byte>) {
    || bytes == []
    || (bytes == last.hashed && Open(env, view).Ok? && Reached(env, view, Whole(env, view), rows, last)
        && Ordered(rows))
  }

  /** The whole stream is one verified sink with these records. */
  ghost predicate Verified(env: Env, wanted: Json -> bool, source: seq<byte>, rows: seq<Record>, last: Reader) {
    && Open(env, source).Ok? && wanted(Open(env, source).value.0) && Ordered(rows)
    && Whole(env, source) == Outcome(rows, last, Ok(env.digest(last.hashed)))
  }

  /** Accepted records, the state after them, and the bytes they came on. */
  ghost predicate Accepted(env: Env, wanted: Json -> bool, source: seq<byte>, view: seq<byte>,
                           rows: seq<Record>, last: Reader, bytes: seq<byte>)
  {
    || WholeLines(env, view, rows, last, bytes)
    || (Verified(env, wanted, source, rows, last) && bytes == source)
  }

  lemma {:induction false} OrderStep(rows: seq<Record>, record: Record, o: Order)
    requires CheckAll(rows) == Some(o)
    ensures CheckAll(rows + [record]) == Check(o, record)
  {
    assert (rows + [record])[..|rows|] == rows;
  }

  lemma {:induction false} CheckPrefix(rows: seq<Record>, more: seq<Record>)
    requires CheckAll(rows).None?
    ensures CheckAll(rows + more).None?
    decreases |more|
  {
    if more == [] {
      assert rows + more == rows;
    } else {
      var init := more[..|more| - 1];
      assert (rows + more)[..|rows + more| - 1] == rows + init;
      CheckPrefix(rows, init);
    }
  }

  /** The status a run amounts to when nothing fails: that of its first disorder, or of its end,
      where a stream longer than its cap overflows instead of ending. */
  function EndStatus(whole: Outcome, capped: bool): int {
    if CheckAll(whole.records).None? then 3
    else
      match whole.end
      case Ok(_) => if capped then 8 else 0
      case Err(why) => if why == Incomplete && capped then 8 else RefusalCode(why)
  }

  /** The status of a whole stream, as a function of its bytes and its cap alone. */
  ghost function StatusOf(env: Env, wanted: Json -> bool, source: seq<byte>, cap: Option<nat>): int {
    var view := Capped(source, cap);
    match Open(env, view)
    case Err(why) => if why == Incomplete && view != source then 8 else RefusalCode(why)
    case Ok(opening) => if !wanted(opening.0) then 3 else EndStatus(Whole(env, view), view != source)
  }

  /** The bytes and the cap alone decide the status, unless something failed, something was stopped,
      or a line was too long to be framed. */
  ghost predicate Decided(status: int, expected: int, source: seq<byte>) {
    status == expected || status == 5 || status == 7 || (status == 3 && HasOverlong(source, MAX_LINE_BYTES))
  }

  /** One line further, in terms of the whole run. */
  method Pull(reading: Reading, ghost whole: Outcome, ghost rows: seq<Record>) returns (item: Item)
    requires reading.Valid() && Reached(reading.env, reading.input.View(), whole, rows, reading.state)
    modifies reading, reading.input
    ensures reading.input.Tells(item.Cause())
    ensures reading.input.Within() && (item.Exhausted? ==> reading.input.taken == |reading.input.source|)
    ensures item.Yielded? ==>
              && reading.Valid()
              && Reached(reading.env, reading.input.View(), whole, rows + [item.record], reading.state)
              && reading.state.hashed == old(reading.state.hashed) + reading.line && OneLine(reading.line)
              && |old(reading.state.hashed)| < |reading.state.hashed|
    ensures !item.Yielded? ==> reading.state == old(reading.state)
    ensures item.Exhausted? ==>
              && whole == Outcome(rows, reading.state, Ok(reading.env.digest(reading.state.hashed)))
              && reading.input.source == reading.input.View() == reading.state.hashed + reading.line
              && OneLine(reading.line)
    ensures item.Refused? ==>
              && whole.records == rows && whole.end == Err(item.why)
              && (item.why == Incomplete ==>
                    reading.input.View() == reading.input.source || !reading.input.framed)
    ensures item == Broken(OverlongLine) ==> HasOverlong(reading.input.source, MAX_LINE_BYTES)
    ensures item == Broken(Overflow) ==>
              && reading.input.Overflowed() && whole.records == rows && whole.last == reading.state
              && (whole.end.Ok? || whole.end == Err(Incomplete))
  {
    ghost var env, view, last := reading.env, reading.input.View(), reading.state;
    assert reading.input.Rest() == view[|last.hashed|..];
    item := reading.Advance();
    if item.Yielded? {
      ReachedStep(env, view, whole, rows, last, item.record, reading.state);
    } else if item.Exhausted? || item.Refused? || item == Broken(Overflow) {
      ReachedEnd(env, view, whole, rows, last);
    }
  }

  /** The running order check. */
  method Examine(order: Order, record: Record, ghost rows: seq<Record>) returns (next: Option<Order>)
    requires CheckAll(rows) == Some(order)
    ensures CheckAll(rows + [record]) == next && (next.Some? ==> Ordered(rows + [record]))
  {
    OrderStep(rows, record, order);
    CheckMeaning(rows + [record]);
    next := Check(order, record);
  }

  lemma {:induction false} Disordered(env: Env, view: seq<byte>, whole: Outcome, rows: seq<Record>, r: Reader)
    requires Reached(env, view, whole, rows, r) && CheckAll(rows).None?
    ensures CheckAll(whole.records).None?
  {
    CheckPrefix(rows, Run(env, r, view[|r.hashed|..]).records);
  }

  /** How the loop over records may end: the accepted lines with their records. */
  ghost predicate Ended(env: Env, input: Input, whole: Outcome, status: int, state: Reader,
                        rows: seq<Record>, last: Reader, accepted: seq<byte>)
  {
    && Reached(env, input.View(), whole, rows, last) && Ordered(rows)
    && (accepted != last.hashed || status == 0 ==>
          whole == Outcome(rows, last, Ok(env.digest(last.hashed))) && accepted == input.source == input.View())
    && (status == 0 ==> state == last)
    && (status == 8 ==> whole.records == rows && whole.last == last == state)
    && (status == GOING_ON || Decided(status, EndStatus(whole, input.View() != input.source), input.source))
  }

  ghost predicate HasEnded(env: Env, input: Input, whole: Outcome, status: int, state: Reader,
                           rows: seq<Record>, last: Reader, accepted: seq<byte>)
  {
    Ended(env, input, whole, status, state, rows, last, accepted) && status != GOING_ON
  }

  /** What was forwarded of the accepted lines: all of them, unless a write failed or was stopped;
      then only the last of them may be missing in part. */
  predicate Sent(forward: bool, inWrite: bool, before: seq<byte>, accepted: seq<byte>, sent: seq<byte>) {
    if forward then
      && before <= sent <= before + accepted
      && (if inWrite then OneLine((before + accepted)[|sent|..]) else sent == before + accepted)
    else sent == before && !inWrite
  }

  /** One more accepted line. */
  method Forward(out: Output, forward: bool, line: seq<byte>, ghost before: seq<byte>, ghost accepted: seq<byte>)
    returns (w: Written)
    requires Sent(forward, false, before, accepted, out.sent) && OneLine(line)
    modifies out
    ensures Sent(forward, !w.Complete?, before, accepted + line, out.sent)
    ensures out.failures == old(out.failures) + (if w.Failed? then 1 else 0)
    ensures out.stops == old(out.stops) + (if w.Halted? then 1 else 0)
  {
    w := Complete;
    if forward {
      w := out.WriteAll(line);
      assert before + accepted + line == before + (accepted + line);
      assert before <= before + accepted;
      assert (before + accepted + line)[|out.sent|..] == line[|out.sent| - |before + accepted|..];
    }
  }

  /** The first line is forwarded, unless something strikes. */
  method ForwardHeader(out: Output, forward: bool, line: seq<byte>)
    returns (status: int, ghost accepted: seq<byte>, ghost inWrite: bool)
    requires OneLine(line)
    modifies out
    ensures Sent(forward, inWrite, old(out.sent), accepted, out.sent) && (accepted == [] || accepted == line)
    ensures status in {GOING_ON, 5, 7} && (inWrite ==> status == 5 || status == 7)
    ensures status == GOING_ON ==> accepted == line && !inWrite
    ensures old(out.failures) <= out.failures && (status == 5 ==> old(out.failures) < out.failures)
    ensures old(out.stops) <= out.stops && (status == 7 ==> old(out.stops) < out.stops)
  {
    accepted, inWrite := [], false;
    assert out.sent + [] == out.sent;
    var struck := out.Interrupted();
    if struck { return 7, accepted, inWrite; }
    var w := Forward(out, forward, line, out.sent, []);
    assert [] + line == line;
    accepted, inWrite := line, !w.Complete?;
    if !w.Complete? { return WrittenCode(w), accepted, inWrite; }
    struck := out.Interrupted();
    status := if struck then 7 else GOING_ON;
  }

  /** How much was read: all of it on success, one byte behind the cap on overflow. */
  ghost predicate Consumed(status: int, input: Input)
    reads input
  {
    input.Within() && (status == 0 ==> input.taken == |input.source|) && (status == 8 ==> input.Overflowed())
  }

  const GOING_ON: int := -1

  const STATUSES: set<int> := {0, 3, 4, 5, 6, 7, 8}

  /** A line that was pulled: checked and forwarded. Everything may be stopped between any two
      actions. */
  method Process(reading: Reading, out: Output, forward: bool, order: Order, item: Item,
                 ghost whole: Outcome, ghost rows: seq<Record>, ghost before: seq<byte>, ghost was: Reader)
    returns (status: int, next: Order, ghost rows': seq<Record>, ghost last: Reader, ghost accepted: seq<byte>,
             ghost inWrite: bool)
    requires item.Yielded? && reading.Valid()
    requires Reached(reading.env, reading.input.View(), whole, rows, was)
    requires Reached(reading.env, reading.input.View(), whole, rows + [item.record], reading.state)
    requires reading.state.hashed == was.hashed + reading.line && OneLine(reading.line)
    requires CheckAll(rows) == Some(order) && Ordered(rows)
    requires Sent(forward, false, before, was.hashed, out.sent)
    modifies out
    ensures status in {GOING_ON, 3, 5, 7} && Blamed(status, reading.input, out)
    ensures Ended(reading.env, reading.input, whole, status, reading.state, rows', last, accepted)
    ensures Sent(forward, inWrite, before, accepted, out.sent) && (inWrite ==> status == 5 || status == 7)
    ensures status == GOING_ON ==> reading.state == last && accepted == last.hashed && CheckAll(rows') == Some(next)
  {
    rows', last, accepted, next, inWrite := rows, was, was.hashed, order, false;
    var struck := out.Interrupted();
    if struck { return 7, next, rows', last, accepted, inWrite; }
    var checked := Examine(order, item.record, rows);
    if checked.None? {
      Disordered(reading.env, reading.input.View(), whole, rows + [item.record], reading.state);
      return 3, next, rows', last, accepted, inWrite;
    }
    struck := out.Interrupted();
    if struck { return 7, next, rows', last, accepted, inWrite; }
    next := checked.value;
    var w := Forward(out, forward, reading.line, before, was.hashed);
    rows', last, accepted, inWrite := rows + [item.record], reading.state, reading.state.hashed, !w.Complete?;
    status := if w.Complete? then GOING_ON else WrittenCode(w);
    struck := out.Interrupted();
    if struck { status := 7; }
  }

  /** No record, but the end: the trailer is forwarded, or there is nothing more to accept. */
  method Close(reading: Reading, out: Output, forward: bool, item: Item,
               ghost whole: Outcome, ghost rows: seq<Record>, ghost before: seq<byte>, ghost last: Reader)
    returns (status: int, ghost accepted: seq<byte>, ghost inWrite: bool)
    requires !item.Yielded? && reading.state == last && Reached(reading.env, reading.input.View(), whole, rows, last)
    requires CheckAll(rows).Some? && Ordered(rows) && Sent(forward, false, before, last.hashed, out.sent)
    requires item.Exhausted? ==>
               && whole == Outcome(rows, last, Ok(reading.env.digest(last.hashed)))
               && reading.input.source == reading.input.View() == last.hashed + reading.line && OneLine(reading.line)
    requires item.Refused? ==>
               && whole.records == rows && whole.end == Err(item.why)
               && (item.why == Incomplete ==> reading.input.View() == reading.input.source)
    requires item == Broken(OverlongLine) ==> HasOverlong(reading.input.source, MAX_LINE_BYTES)
    requires item == Broken(Overflow) ==>
               && reading.input.View() != reading.input.source && whole.records == rows && whole.last == last
               && (whole.end.Ok? || whole.end == Err(Incomplete))
    modifies out
    ensures status in STATUSES
    ensures item.Refused? ==> status == RefusalCode(item.why)
    ensures item.Broken? ==> status == FaultCode(item.fault)
    ensures item.Exhausted? ==> status == 0 || status == 5 || status == 7
    ensures old(out.failures) <= out.failures && old(out.stops) <= out.stops
    ensures item.Exhausted? && status == 5 ==> old(out.failures) < out.failures
    ensures item.Exhausted? && status == 7 ==> old(out.stops) < out.stops
    ensures Ended(reading.env, reading.input, whole, status, reading.state, rows, last, accepted)
    ensures Sent(forward, inWrite, before, accepted, out.sent) && (inWrite ==> status == 5 || status == 7)
  {
    accepted, inWrite := last.hashed, false;
    match item {
      case Refused(why) => status := RefusalCode(why);
      case Broken(fault) => status := FaultCode(fault);
      case Exhausted =>
        var struck := out.Interrupted();
        if struck { return 7, accepted, inWrite; }
        accepted := reading.input.source;
        var w := Forward(out, forward, reading.line, before, last.hashed);
        inWrite := !w.Complete?;
        status := WrittenCode(w);
    }
  }

  /** One record: pulled, checked and forwarded, or the end. */
  method Round(reading: Reading, out: Output, forward: bool, order: Order,
               ghost whole: Outcome, ghost rows: seq<Record>, ghost before: seq<byte>)
    returns (status: int, next: Order, ghost rows': seq<Record>, ghost last: Reader, ghost accepted: seq<byte>,
             ghost inWrite: bool)
    requires reading.Valid() && Reached(reading.env, reading.input.View(), whole, rows, reading.state)
    requires reading.input.framed || reading.input.cap.None?
    requires CheckAll(rows) == Some(order) && Ordered(rows)
    requires Sent(forward, false, before, reading.state.hashed, out.sent)
    modifies reading, reading.input, out
    ensures Consumed(status, reading.input) && Blamed(status, reading.input, out)
    ensures status == GOING_ON || status in STATUSES
    ensures Ended(reading.env, reading.input, whole, status, reading.state, rows', last, accepted)
    ensures Sent(forward, inWrite, before, accepted, out.sent) && (inWrite ==> status == 5 || status == 7)
    ensures status == GOING_ON ==>
              && reading.Valid() && reading.state == last && accepted == last.hashed
              && CheckAll(rows') == Some(next) && |old(reading.state.hashed)| < |last.hashed|
  {
    rows', last, accepted, next, inWrite := rows, reading.state, reading.state.hashed, order, false;
    var item := Pull(reading, whole, rows);
    if item.Yielded? {
      status, next, rows', last, accepted, inWrite :=
        Process(reading, out, forward, order, item, whole, rows, before, last);
    } else {
      status, accepted, inWrite := Close(reading, out, forward, item, whole, rows, before, last);
    }
  }

  /** The loop over records, their order checks and their forwarding, down to the trailer. */
  method VerifyRows(reading: Reading, out: Output, forward: bool, ghost whole: Outcome, ghost before: seq<byte>)
    returns (status: int, ghost rows: seq<Record>, ghost last: Reader, ghost accepted: seq<byte>, ghost inWrite: bool)
    requires reading.Valid() && Reached(reading.env, reading.input.View(), whole, [], reading.state)
    requires reading.input.framed || reading.input.cap.None?
    requires Sent(forward, false, before, reading.state.hashed, out.sent)
    modifies reading, reading.input, out
    ensures Consumed(status, reading.input) && Blamed(status, reading.input, out)
    ensures status in STATUSES && Sent(forward, inWrite, before, accepted, out.sent)
    ensures inWrite ==> status == 5 || status == 7
    ensures HasEnded(reading.env, reading.input, whole, status, reading.state, rows, last, accepted)
  {
    var order := START;
    rows := [];
    CheckMeaning(rows);
    status, order, rows, last, accepted, inWrite := Round(reading, out, forward, order, whole, rows, before);
    while status == GOING_ON
      invariant Consumed(status, reading.input) && Blamed(status, reading.input, out)
      invariant status == GOING_ON || status in STATUSES
      invariant Sent(forward, inWrite, before, accepted, out.sent) && (inWrite ==> status == 5 || status == 7)
      invariant Ended(reading.env, reading.input, whole, status, reading.state, rows, last, accepted)
      invariant status == GOING_ON ==>
                  && reading.Valid() && reading.state == last && accepted == last.hashed
                  && CheckAll(rows) == Some(order)
      decreases if status == GOING_ON then |reading.input.source| - |reading.state.hashed| + 1 else 0
    {
      status, order, rows, last, accepted, inWrite := Round(reading, out, forward, order, whole, rows, before);
    }
  }

  /** The counts a capped stream leads to, whatever reads it took to get there. */
  ghost function CappedCounts(env: Env, view: seq<byte>): seq<nat> {
    if Open(env, view).Ok? then Whole(env, view).last.counts else []
  }

  /** How a run ends whose header is wanted. */
  ghost predicate Settles(env: Env, wanted: Json -> bool, input: Input, status: int, state: Reader,
                          rows: seq<Record>, last: Reader, accepted: seq<byte>)
  {
    && Accepted(env, wanted, input.source, input.View(), rows, last, accepted)
    && (status == 0 ==> Verified(env, wanted, input.source, rows, last) && accepted == input.source && state == last)
    && (status == 8 ==> state.counts == CappedCounts(env, input.View()))
    && Decided(status, StatusOf(env, wanted, input.source, input.cap), input.source)
  }

  lemma {:induction false} EndsAccepted(env: Env, wanted: Json -> bool, input: Input, whole: Outcome, status: int,
                                        state: Reader, rows: seq<Record>, last: Reader, accepted: seq<byte>)
    requires Open(env, input.View()).Ok? && wanted(Open(env, input.View()).value.0) && whole == Whole(env, input.View())
    requires HasEnded(env, input, whole, status, state, rows, last, accepted)
    ensures Settles(env, wanted, input, status, state, rows, last, accepted)
  {
  }

  lemma {:induction false} HeaderAccepted(env: Env, wanted: Json -> bool, input: Input, r: Reader)
    requires Open(env, input.View()).Ok? && r == Open(env, input.View()).value.1
    ensures Accepted(env, wanted, input.source, input.View(), [], r, r.hashed)
    ensures Accepted(env, wanted, input.source, input.View(), [], r, [])
    ensures Reached(env, input.View(), Whole(env, input.View()), [], r)
  {
    ReachedStart(env, input.View());
    CheckMeaning([]);
  }

  /** The records and the trailer, behind a header that was forwarded. */
  method VerifyRest(wanted: Json -> bool, reading: Reading, out: Output, forward: bool, ghost before: seq<byte>)
    returns (status: int, ghost rows: seq<Record>, ghost last: Reader, ghost accepted: seq<byte>, ghost inWrite: bool)
    requires reading.Valid() && (reading.input.framed || reading.input.cap.None?)
    requires Open(reading.env, reading.input.View()).Ok? && wanted(Open(reading.env, reading.input.View()).value.0)
    requires reading.state == Open(reading.env, reading.input.View()).value.1
    requires Sent(forward, false, before, reading.state.hashed, out.sent)
    modifies reading, reading.input, out
    ensures Consumed(status, reading.input) && Blamed(status, reading.input, out) && status in STATUSES
    ensures Settles(reading.env, wanted, reading.input, status, reading.state, rows, last, accepted)
    ensures Sent(forward, inWrite, before, accepted, out.sent) && (inWrite ==> status == 5 || status == 7)
  {
    ReachedStart(reading.env, reading.input.View());
    ghost var whole := Whole(reading.env, reading.input.View());
    status, rows, last, accepted, inWrite := VerifyRows(reading, out, forward, whole, before);
    EndsAccepted(reading.env, wanted, reading.input, whole, status, reading.state, rows, last, accepted);
  }

  /** The records and the trailer behind a header that is wanted. */
  method VerifyBody(env: Env, wanted: Json -> bool, input: Input, reading: Reading, out: Output, forward: bool)
    returns (status: int, ghost rows: seq<Record>, ghost last: Reader, ghost accepted: seq<byte>, ghost inWrite: bool)
    requires reading.Valid() && reading.env == env && reading.input == input && (input.framed || input.cap.None?)
    requires Open(env, input.View()).Ok? && wanted(Open(env, input.View()).value.0)
    requires reading.state == Open(env, input.View()).value.1 && reading.line == reading.state.hashed
    requires OneLine(reading.line)
    modifies reading, input, out
    ensures Consumed(status, input) && Blamed(status, input, out) && status in STATUSES
    ensures Settles(env, wanted, input, status, reading.state, rows, last, accepted)
    ensures Sent(forward, inWrite, old(out.sent), accepted, out.sent) && (inWrite ==> status == 5 || status == 7)
  {
    rows, last := [], reading.state;
    HeaderAccepted(env, wanted, input, reading.state);
    status, accepted, inWrite := ForwardHeader(out, forward, reading.line);
    if status != GOING_ON { return; }
    status, rows, last, accepted, inWrite := VerifyRest(wanted, reading, out, forward, old(out.sent));
  }

  /** Verify a sink and forward its lines. Zero is a whole verified sink, forwarded whole. What was
      forwarded is the accepted lines, the last of them cut short only by a write that failed or
      was stopped. Unless something fails or is stopped, the status depends on nothing but the
      bytes and the cap. */
  method Verify(env: Env, wanted: Json -> bool, input: Input, out: Output, forward: bool)
    returns (status: int, counts: seq<nat>, sha256: Text,
             ghost rows: seq<Record>, ghost last: Reader, ghost accepted: seq<byte>, ghost inWrite: bool)
    requires Standard(env) && input.Valid() && input.handed == [] && (input.framed || input.cap.None?)
    modifies input, out
    ensures Consumed(status, input) && Blamed(status, input, out) && status in STATUSES
    ensures Accepted(env, wanted, input.source, input.View(), rows, last, accepted)
    ensures Sent(forward, inWrite, old(out.sent), accepted, out.sent) && (inWrite ==> status == 5 || status == 7)
    ensures status == 0 ==>
              && Verified(env, wanted, input.source, rows, last) && accepted == input.source
              && counts == last.counts && sha256 == env.digest(last.hashed)
    ensures status == 8 ==> counts == CappedCounts(env, input.View())
    ensures Decided(status, StatusOf(env, wanted, input.source, input.cap), input.source)
  {
    counts, sha256, rows, last, accepted, inWrite := [], [], [], Reader([], [], []), [], false;
    var opening := OpenSink(env, input);
    match opening {
      case NotOpened(why) => return RefusalCode(why), counts, sha256, rows, last, accepted, inWrite;
      case Unreadable(fault) => return FaultCode(fault), counts, sha256, rows, last, accepted, inWrite;
      case Opened(reading, header) =>
        var struck := out.Interrupted();
        if struck { return 7, counts, sha256, rows, last, accepted, inWrite; }
        if !wanted(header) { return 3, counts, sha256, rows, last, accepted, inWrite; }
        status, rows, last, accepted, inWrite := VerifyBody(env, wanted, input, reading, out, forward);
        struck := out.Interrupted();
        if struck { return 7, counts, sha256, rows, last, accepted, inWrite; }
        counts := reading.state.counts;
        if status == 0 { sha256 := env.digest(reading.state.hashed); }
        struck := out.Interrupted();
        if struck { status := 7; }
    }
  }
}
