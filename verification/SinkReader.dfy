/** The reader object: it reads line by line, keeps counts and hashed bytes, and verifies the
    trailer (docker/pf_sink.py, with the wire line kept by docker/pineforge_sink_finalize.py). */
module SinkReader {
  import opened Bytes
  import opened Framing
  import opened Json
  import opened Lexical
  import opened Options
  import opened SinkFormat
  import opened SinkStream
  import Utf8

  method CheckLine(env: Env, line: seq<byte>) returns (r: Result<Json>)
    requires Standard(env)
    ensures r == env.parse(line) && (r == Err(Incomplete) ==> Unterminated(line))
  {
    assert env.parse(line) == ParseLine(env, line);
    if line == [] || line[|line| - 1] != LF { return Err(Incomplete); }
    if |line| > MAX_LINE_BYTES { return Err(Malformed); }
    var body := line[..|line| - 1];
    var walked := LexicalWalk(body);
    if body == [] || BOM <= body || !walked { return Err(Malformed); }
    var text := Utf8.Decode(body);
    if text.None? { return Err(Malformed); }
    var value := Loads(text.value);
    if value.None? || !Acceptable(env, value.value) { return Err(Malformed); }
    r := Ok(value.value);
  }

  method ReadValue(env: Env, line: seq<byte>) returns (r: Result<Json>)
    requires Standard(env)
    ensures r == if line == [] then Err(Incomplete) else env.parse(line)
    ensures r == Err(Incomplete) ==> Unterminated(line)
  {
    if line == [] { return Err(Incomplete); }
    r := CheckLine(env, line);
  }

  method CheckValues(env: Env, values: seq<Json>, columns: seq<Column>) returns (ok: bool)
    requires |values| == |columns|
    ensures ok <==> forall j | 0 <= j < |values| :: Conforms(env, values[j], columns[j])
  {
    for j := 0 to |values|
      invariant forall k | 0 <= k < j :: Conforms(env, values[k], columns[k])
    {
      if !Conforms(env, values[j], columns[j]) { return false; }
    }
    ok := true;
  }

  method CheckRecord(env: Env, schema: seq<Descriptor>, v: Json) returns (r: Option<Record>)
    requires DistinctTags(schema)
    ensures r == ParseRecord(env, schema, v)
  {
    if !v.Arr? || v.items == [] || !v.items[0].Str? { return None; }
    var record := Record(v.items[0].points, v.items[1..]);
    var found := Find(schema, record.tag);
    FindsTag(schema, record.tag);
    if found.None? || |record.values| != |schema[found.value].columns| { return None; }
    var ok := CheckValues(env, record.values, schema[found.value].columns);
    if !ok || !SideOk(record) { return None; }
    r := Some(record);
  }

  method CheckCounts(schema: seq<Descriptor>, counts: seq<nat>, members: seq<Member>) returns (ok: bool)
    requires |counts| == |schema|
    ensures ok <==> members == CountMembers(schema, counts)
  {
    if |members| != |schema| { return false; }
    for i := 0 to |members|
      invariant forall k | 0 <= k < i :: members[k] == CountMembers(schema, counts)[k]
    {
      if members[i].key != schema[i].tag || members[i].value != Int(counts[i]) { return false; }
    }
    ok := true;
  }

  predicate HasKeys(members: seq<Member>) {
    && |members| == 4 && members[0].key == TRAILER_KEY && members[1].key == VERSION_KEY
    && members[2].key == COUNTS_KEY && members[3].key == DIGEST_KEY
  }

  method CheckTrailer(env: Env, r: Reader, members: seq<Member>) returns (ok: bool)
    requires |r.counts| == |r.schema|
    ensures ok <==> Obj(members) == Trailer(env, r)
  {
    if !HasKeys(members) { return false; }
    if members[0].value != Str(SCHEMA) || members[1].value != Int(1) || !members[2].value.Obj? { return false; }
    var counted := CheckCounts(r.schema, r.counts, members[2].value.members);
    if !counted || members[3].value != Str(env.digest(r.hashed)) { return false; }
    assert members == [members[0], members[1], members[2], members[3]];
    ok := true;
  }

  datatype Item = Yielded(record: Record) | Exhausted | Refused(why: Refusal) | Broken(fault: Fault) {
    function Cause(): Option<Fault> { if Broken? then Some(fault) else None }
  }

  class Reading {
    const env: Env
    const input: Input
    var state: Reader
    var complete: bool
    var failed: bool
    var line: seq<byte>

    /** Everything handed out so far was hashed, line by line. */
    ghost predicate Valid()
      reads this, input
    {
      && Standard(env) && input.Valid() && |state.counts| == |state.schema| && DistinctTags(state.schema)
      && state.hashed == input.handed && !complete && !failed
    }

    /** After a header of this schema on the first line. */
    constructor (env: Env, input: Input, first: seq<byte>, schema: seq<Descriptor>)
      requires Standard(env) && input.Valid() && input.handed == first && DistinctTags(schema)
      ensures this.env == env && this.input == input && Valid() && line == first
      ensures state == Reader(schema, Zeros(|schema|), first)
    {
      this.env, this.input, line := env, input, first;
      state := Reader(schema, Zeros(|schema|), first);
      complete, failed := false, false;
    }

    /** The trailer was recognised by its keys and values: nothing may follow it. */
    method Finish(members: seq<Member>) returns (item: Item)
      requires input.Valid() && |state.counts| == |state.schema|
      modifies this, input`taken, input`lineBytes, input`buffer, input`failures, input`stops
      ensures state == old(state) && line == old(line)
      ensures item.Exhausted? ==>
                complete && Obj(members) == Trailer(env, state) && input.handed == input.source == input.View()
      ensures item.Refused? ==>
                item.why == BadTrailer && failed && (Obj(members) != Trailer(env, state) || old(input.Rest()) != [])
      ensures item.Broken? ==> failed && Obj(members) == Trailer(env, state)
      ensures item == Broken(Overflow) ==> input.Overflowed() && input.handed == input.View()
      ensures item == Broken(OverlongLine) ==> HasOverlong(input.source, MAX_LINE_BYTES)
      ensures input.Tells(item.Cause())
      ensures !item.Yielded? && input.Within() && (item.Exhausted? ==> input.taken == |input.source|)
    {
      var ok := CheckTrailer(env, state, members);
      if !ok {
        failed := true;
        return Refused(BadTrailer);
      }
      var more, f := input.More();
      if f.Some? {
        failed := true;
        return Broken(f.value);
      }
      if more {
        failed := true;
        return Refused(BadTrailer);
      }
      complete := true;
      item := Exhausted;
    }

    /** A line that is no trailer: a record to count, or nothing. */
    method Take(value: Json, ghost rest: seq<byte>) returns (item: Item)
      requires Standard(env) && input.Valid() && |state.counts| == |state.schema| && DistinctTags(state.schema)
      requires line == FirstLine(rest) && NextValue(env, rest) == Ok(value) && !value.Obj?
      requires input.handed == state.hashed + line && !complete && !failed
      modifies `state, `failed
      ensures item.Yielded? ==> Valid() && Next(env, old(state), rest) == Row(item.record, state)
      ensures item.Yielded? ==> state.hashed == old(state.hashed) + line
      ensures item.Yielded? || (item == Refused(Malformed) && state == old(state) && failed)
      ensures item.Refused? ==> Next(env, state, rest) == Refuse(Malformed)
    {
      var record := CheckRecord(env, state.schema, value);
      var step := if record.None? then Refuse(Malformed) else Count(state, record.value, line);
      if step.Refuse? {
        failed := true;
        return Refused(step.why);
      }
      state := step.next;
      item := Yielded(record.value);
    }

    /** One line further: the same step as the format's, or a fault of the stream. */
    method Advance() returns (item: Item)
      requires Valid()
      modifies this, input
      ensures input.Tells(item.Cause())
      ensures input.Within() && (item.Exhausted? ==> input.taken == |input.source|)
      ensures item.Yielded? ==>
                && Valid() && Next(env, old(state), old(input.Rest())) == Row(item.record, state)
                && state.hashed == old(state.hashed) + line && OneLine(line)
      ensures !item.Yielded? ==> state == old(state)
      ensures item.Exhausted? ==>
                && complete && Next(env, state, old(input.Rest())) == SinkFormat.Finish
                && input.source == input.View() == state.hashed + line && OneLine(line)
      ensures item.Refused? ==> failed && Next(env, state, old(input.Rest())) == Refuse(item.why)
      ensures item == Refused(Incomplete) ==>
                input.View() == input.source || !input.framed
      ensures item.Broken? ==> failed
      ensures item == Broken(OverlongLine) ==> HasOverlong(input.source, MAX_LINE_BYTES)
      ensures item == Broken(Overflow) ==>
                && input.Overflowed()
                && (Next(env, state, old(input.Rest())) == Refuse(Incomplete)
                    || Next(env, state, old(input.Rest())) == SinkFormat.Finish)
    {
      ghost var rest := input.Rest();
      var text, f := input.ReadLine();
      line := text;
      if f.Some? {
        failed := true;
        if f.value == Overflow { Unfinished(env, rest); }
        return Broken(f.value);
      }
      var value := ReadValue(env, line);
      if value.Err? {
        failed := true;
        return Refused(value.why);
      }
      if value.value.Obj? {
        item := Finish(value.value.members);
        return;
      }
      item := Take(value.value, rest);
    }
  }

  datatype Opened = Opened(reading: Reading, header: Json) | NotOpened(why: Refusal) | Unreadable(fault: Fault)

  /** Reads and checks the header. */
  method OpenSink(env: Env, input: Input) returns (r: Opened)
    requires Standard(env) && input.Valid() && input.handed == []
    modifies input
    ensures input.Within() && input.Tells(if r.Unreadable? then Some(r.fault) else None)
    ensures r.Opened? ==>
              && fresh(r.reading) && r.reading.env == env && r.reading.input == input && r.reading.Valid()
              && Open(env, input.View()) == Ok((r.header, r.reading.state))
              && r.reading.line == r.reading.state.hashed == FirstLine(input.View()) && OneLine(r.reading.line)
    ensures r.NotOpened? ==> Open(env, input.View()) == Err(r.why)
    ensures r == NotOpened(Incomplete) ==>
              input.View() == input.source || !input.framed
    ensures r == Unreadable(OverlongLine) ==> HasOverlong(input.source, MAX_LINE_BYTES)
    ensures r == Unreadable(Overflow) ==> input.Overflowed() && Open(env, input.View()) == Err(Incomplete)
  {
    assert input.Rest() == input.View();
    var line, f := input.ReadLine();
    if f.Some? {
      if f.value == Overflow {
        assert input.View() == input.buffer;
        Unfinished(env, input.View());
      }
      return Unreadable(f.value);
    }
    var value := ReadValue(env, line);
    if value.Err? { return NotOpened(value.why); }
    var schema := env.describe(value.value);
    if schema.None? || !DistinctTags(schema.value) { return NotOpened(Malformed); }
    var reading := new Reading(env, input, line, schema.value);
    r := Opened(reading, value.value);
  }

  /** Without a whole line there is no step. */
  lemma {:induction false} Unfinished(env: Env, rest: seq<byte>)
    requires Standard(env) && |rest| < READ_LIMIT && LF !in rest
    ensures NextValue(env, rest) == Err(Incomplete)
  {
    StandardTerminates(env);
    LineEnds(rest, READ_LIMIT);
  }
}
