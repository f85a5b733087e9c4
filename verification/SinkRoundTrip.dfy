/** A sink written line by line is read back exactly. */
module SinkRoundTrip {
  import opened Bytes
  import opened Json
  import opened JsonWriter
  import opened Lexical
  import opened Options
  import opened SinkFormat
  import Utf8

  /** The value's compact spelling in UTF-8, and a line feed. */
  function Line(v: Json): seq<byte>
    requires Writable(v)
  {
    EncodePasses(v);
    Utf8.EncodeAll(Encode(v)) + [LF]
  }

  lemma {:induction false} PlainHasNoFeed(s: Text)
    requires Plain(s)
    ensures forall i | 0 <= i < |Utf8.EncodeAll(s)| :: Utf8.EncodeAll(s)[i] != LF
  {
    if s != [] {
      PlainHasNoFeed(s[1..]);
    }
  }

  /** One line: a line feed at its end and nowhere else, within the limit. */
  predicate Framed(line: seq<byte>) {
    && 0 < |line| <= MAX_LINE_BYTES && line[|line| - 1] == LF
    && forall i | 0 <= i < |line| - 1 :: line[i] != LF
  }

  lemma {:induction false} FramedLength(line: seq<byte>, more: seq<byte>, limit: nat)
    requires line != [] && |line| <= limit && line[|line| - 1] == LF
    requires forall i | 0 <= i < |line| - 1 :: line[i] != LF
    ensures LineLength(line + more, limit) == |line|
  {
    if |line| > 1 {
      assert (line + more)[1..] == line[1..] + more;
      FramedLength(line[1..], more, limit - 1);
    }
  }

  lemma {:induction false} FramedIsFirst(line: seq<byte>, more: seq<byte>)
    requires Framed(line)
    ensures FirstLine(line + more) == line && AfterLine(line + more) == more
  {
    FramedLength(line, more, READ_LIMIT);
  }

  lemma {:induction false} TextLoads(v: Json)
    requires Writable(v)
    ensures Loads(Encode(v)) == Some(v)
  {
    EncodeOpens(v);
    ReadsBack(v);
  }

  lemma {:induction false} BodyReads(env: Env, v: Json, body: seq<byte>)
    requires Writable(v) && Acceptable(env, v) && (v.Arr? || v.Obj?)
    requires Scalars(Encode(v)) && body == Utf8.EncodeAll(Encode(v))
    ensures ParseBody(env, body) == Ok(v)
  {
    EncodePasses(v);
    WalkEncoded(Encode(v), Outside);
    Utf8.DecodeReads(Encode(v));
    TextLoads(v);
    assert body[0] == Encode(v)[0];
  }

  /** A line of bytes that the reader takes for this value. */
  ghost predicate Spells(env: Env, line: seq<byte>, v: Json) {
    Framed(line) && env.parse(line) == Ok(v)
  }

  /** The compact spelling is one of them. */
  lemma {:induction false} LineSpells(env: Env, v: Json)
    requires Standard(env) && Writable(v) && Acceptable(env, v) && (v.Arr? || v.Obj?) && |Line(v)| <= MAX_LINE_BYTES
    ensures Spells(env, Line(v), v)
  {
    EncodePasses(v);
    PlainHasNoFeed(Encode(v));
    var body := Utf8.EncodeAll(Encode(v));
    BodyReads(env, v, body);
    assert Line(v)[..|Line(v)| - 1] == body;
    assert ParseLine(env, Line(v)) == Ok(v);
  }

  // Whole sinks

  function Occurrences(records: seq<Record>, tag: Text): nat {
    if records == [] then 0 else (if records[0].tag == tag then 1 else 0) + Occurrences(records[1..], tag)
  }

  function Tally(r: Reader, records: seq<Record>): seq<nat>
    requires |r.counts| == |r.schema|
  {
    seq(|r.schema|, i requires 0 <= i < |r.schema| => r.counts[i] + Occurrences(records, r.schema[i].tag))
  }

  /** No type is counted beyond the exact integers. */
  ghost predicate Room(r: Reader, records: seq<Record>)
    requires |r.counts| == |r.schema|
  {
    forall i | 0 <= i < |r.schema| :: Tally(r, records)[i] <= I53_MAX
  }

  /** Where records on these lines lead: every type counted, every byte hashed. */
  function Final(r: Reader, records: seq<Record>, lines: seq<seq<byte>>): (f: Reader)
    requires |r.counts| == |r.schema|
    ensures |f.counts| == |f.schema| && f.schema == r.schema
  {
    Reader(r.schema, Tally(r, records), r.hashed + Concat(lines))
  }

  lemma {:induction false} OneTally(r: Reader, record: Record, i: nat)
    requires |r.counts| == |r.schema| && DistinctTags(r.schema)
    requires i < |r.schema| && r.schema[i].tag == record.tag
    ensures Tally(r, [record]) == r.counts[i := r.counts[i] + 1]
  {
    forall j | 0 <= j < |r.schema| ensures Tally(r, [record])[j] == r.counts[i := r.counts[i] + 1][j] {
      assert Occurrences([record][1..], r.schema[j].tag) == 0;
    }
  }

  lemma {:induction false} CountReads(r: Reader, record: Record, line: seq<byte>)
    requires |r.counts| == |r.schema| && DistinctTags(r.schema)
    requires exists i :: 0 <= i < |r.schema| && r.schema[i].tag == record.tag
    requires Room(r, [record])
    ensures Count(r, record, line) == Row(record, Final(r, [record], [line]))
  {
    FindsTag(r.schema, record.tag);
    OneTally(r, record, Find(r.schema, record.tag).value);
    assert Tally(r, [record])[Find(r.schema, record.tag).value] <= I53_MAX;
    assert Concat([line]) == line + Concat([line][1..]);
  }

  ghost predicate Yields(env: Env, r: Reader, input: seq<byte>, records: seq<Record>, f: Reader)
    requires |r.counts| == |r.schema|
  {
    Run(env, r, input) == Outcome(records, f, Ok(env.digest(f.hashed)))
  }

  lemma {:induction false} RowReads(env: Env, r: Reader, record: Record, line: seq<byte>, more: seq<byte>)
    requires |r.counts| == |r.schema| && DistinctTags(r.schema)
    requires RecordOk(env, r.schema, record) && Spells(env, line, RecordValue(record))
    requires Room(r, [record])
    ensures Next(env, r, line + more) == Row(record, Final(r, [record], [line])) && AfterLine(line + more) == more
  {
    FramedIsFirst(line, more);
    assert RecordValue(record).items[1..] == record.values;
    CountReads(r, record, line);
  }

  lemma {:induction false} RowYields(env: Env, r: Reader, record: Record, line: seq<byte>, rest: seq<byte>,
                  records: seq<Record>, f: Reader)
    requires |r.counts| == |r.schema| && DistinctTags(r.schema)
    requires RecordOk(env, r.schema, record) && Spells(env, line, RecordValue(record))
    requires Room(r, [record])
    requires Yields(env, Final(r, [record], [line]), rest, records, f)
    ensures Yields(env, r, line + rest, [record] + records, f)
  {
    RowReads(env, r, record, line, rest);
  }

  lemma {:induction false} TrailerYields(env: Env, r: Reader, line: seq<byte>)
    requires |r.counts| == |r.schema| && Spells(env, line, Trailer(env, r))
    ensures Yields(env, r, line, [], r)
  {
    FramedIsFirst(line, []);
    assert line + [] == line;
  }

  lemma {:induction false} FinalSteps(r: Reader, records: seq<Record>, lines: seq<seq<byte>>)
    requires |r.counts| == |r.schema| && records != [] && lines != []
    ensures Final(Final(r, [records[0]], [lines[0]]), records[1..], lines[1..]) == Final(r, records, lines)
  {
    var next := Final(r, [records[0]], [lines[0]]);
    assert Concat([lines[0]]) == lines[0] + Concat([lines[0]][1..]);
    assert next.hashed + Concat(lines[1..]) == r.hashed + Concat(lines);
    forall i | 0 <= i < |r.schema| ensures Tally(next, records[1..])[i] == Tally(r, records)[i] {
      assert Occurrences([records[0]][1..], r.schema[i].tag) == 0;
    }
    assert Tally(next, records[1..]) == Tally(r, records);
  }

  lemma {:induction false} EmptyFinal(r: Reader)
    requires |r.counts| == |r.schema|
    ensures Final(r, [], []) == r
  {
    assert Tally(r, []) == r.counts && r.hashed + [] == r.hashed;
  }

  ghost predicate RecordsOk(env: Env, schema: seq<Descriptor>, records: seq<Record>, lines: seq<seq<byte>>) {
    && |lines| == |records|
    && forall i | 0 <= i < |records| ::
         RecordOk(env, schema, records[i]) && Spells(env, lines[i], RecordValue(records[i]))
  }

  lemma {:induction false} TailOk(env: Env, schema: seq<Descriptor>, records: seq<Record>, lines: seq<seq<byte>>)
    requires records != [] && RecordsOk(env, schema, records, lines)
    ensures RecordOk(env, schema, records[0]) && Spells(env, lines[0], RecordValue(records[0]))
    ensures RecordsOk(env, schema, records[1..], lines[1..])
  {
  }

  /** The sequences line up. */
  lemma {:induction false} HeadAndTail(records: seq<Record>, lines: seq<seq<byte>>, last: seq<byte>)
    requires records != [] && lines != []
    ensures records == [records[0]] + records[1..]
    ensures Concat(lines) + last == lines[0] + (Concat(lines[1..]) + last)
  {
  }

  lemma {:induction false} RoomForEach(r: Reader, records: seq<Record>, lines: seq<seq<byte>>)
    requires |r.counts| == |r.schema| && records != [] && lines != [] && Room(r, records)
    ensures Room(r, [records[0]]) && Room(Final(r, [records[0]], [lines[0]]), records[1..])
  {
    var next := Final(r, [records[0]], [lines[0]]);
    forall i | 0 <= i < |r.schema|
      ensures Tally(r, [records[0]])[i] <= I53_MAX && Tally(next, records[1..])[i] <= I53_MAX
    {
      assert Occurrences([records[0]][1..], r.schema[i].tag) == 0;
      assert Tally(r, records)[i] <= I53_MAX;
    }
  }

  lemma {:induction false} RunReads(env: Env, r: Reader, records: seq<Record>, lines: seq<seq<byte>>,
                                    f: Reader, last: seq<byte>)
    requires |r.counts| == |r.schema| && DistinctTags(r.schema)
    requires RecordsOk(env, r.schema, records, lines) && Room(r, records)
    requires f == Final(r, records, lines) && Yields(env, f, last, [], f)
    ensures Yields(env, r, Concat(lines) + last, records, f)
    decreases |records|
  {
    if records == [] {
      EmptyFinal(r);
      assert Concat(lines) + last == last;
    } else {
      FinalSteps(r, records, lines);
      RoomForEach(r, records, lines);
      TailOk(env, r.schema, records, lines);
      RunReads(env, Final(r, [records[0]], [lines[0]]), records[1..], lines[1..], f, last);
      HeadAndTail(records, lines, last);
      RowYields(env, r, records[0], lines[0], Concat(lines[1..]) + last, records[1..], f);
    }
  }

  /** The reader after a header of this schema. */
  function Opening(header: seq<byte>, schema: seq<Descriptor>): (r: Reader)
    ensures |r.counts| == |r.schema|
  {
    Reader(schema, Zeros(|schema|), header)
  }

  lemma {:induction false} HeaderReads(env: Env, header: Json, line: seq<byte>, schema: seq<Descriptor>,
                                       rest: seq<byte>)
    requires Spells(env, line, header) && env.describe(header) == Some(schema) && DistinctTags(schema)
    ensures Open(env, line + rest) == Ok((header, Opening(line, schema))) && AfterLine(line + rest) == rest
  {
    FramedIsFirst(line, rest);
  }

  /** Reading back lines that spell a header, its records and the matching trailer yields
      exactly that header, those records, one count per record of each type, and the digest of
      all bytes before the trailer. */
  lemma {:induction false} SinkReads(env: Env, header: Json, first: seq<byte>, schema: seq<Descriptor>,
                  records: seq<Record>, lines: seq<seq<byte>>, last: seq<byte>)
    requires Spells(env, first, header) && env.describe(header) == Some(schema) && DistinctTags(schema)
    requires RecordsOk(env, schema, records, lines)
    requires forall i | 0 <= i < |schema| :: Occurrences(records, schema[i].tag) <= I53_MAX
    requires Spells(env, last, Trailer(env, Final(Opening(first, schema), records, lines)))
    ensures var input, f := first + (Concat(lines) + last), Final(Opening(first, schema), records, lines);
            && Open(env, input) == Ok((header, Opening(first, schema)))
            && Yields(env, Opening(first, schema), AfterLine(input), records, f)
            && (forall i | 0 <= i < |schema| :: f.counts[i] == Occurrences(records, schema[i].tag))
            && f.hashed == first + Concat(lines)
  {
    var r := Opening(first, schema);
    var f := Final(r, records, lines);
    HeaderReads(env, header, first, schema, Concat(lines) + last);
    TrailerYields(env, f, last);
    RunReads(env, r, records, lines, f, last);
  }

  // The compact spelling of records and trailers

  /** The line grammar is the standard one, the shortest spelling of a double is a JSON
      number, and a digest is text. */
  ghost predicate Sound(env: Env) {
    && Standard(env)
    && (forall t :: env.canonical(t) ==> FloatToken(t) && env.finite(t))
    && (forall b :: Scalars(env.digest(b)))
  }

  lemma {:induction false} ConformingValue(env: Env, v: Json, column: Column)
    requires Sound(env) && Conforms(env, v, column)
    ensures Writable(v) && Acceptable(env, v)
  {
  }

  /** Every record of the declared types has a line, unless it is too long. */
  lemma {:induction false} RecordSpells(env: Env, schema: seq<Descriptor>, record: Record)
    requires Sound(env) && RecordOk(env, schema, record) && Scalars(record.tag)
    ensures Writable(RecordValue(record))
    ensures |Line(RecordValue(record))| <= MAX_LINE_BYTES ==>
              Spells(env, Line(RecordValue(record)), RecordValue(record))
  {
    var i :| && 0 <= i < |schema| && schema[i].tag == record.tag && |record.values| == |schema[i].columns|
             && forall j | 0 <= j < |record.values| :: Conforms(env, record.values[j], schema[i].columns[j]);
    var items := [Str(record.tag)] + record.values;
    forall j | 0 <= j < |items| ensures Writable(items[j]) && Acceptable(env, items[j]) {
      if j > 0 { ConformingValue(env, record.values[j - 1], schema[i].columns[j - 1]); }
    }
    if |Line(RecordValue(record))| <= MAX_LINE_BYTES { LineSpells(env, RecordValue(record)); }
  }

  lemma {:induction false} CountsWritable(env: Env, r: Reader)
    requires |r.counts| == |r.schema| && DistinctTags(r.schema)
    requires forall i | 0 <= i < |r.schema| :: Scalars(r.schema[i].tag) && r.counts[i] <= I53_MAX
    ensures var v := Obj(CountMembers(r.schema, r.counts)); Writable(v) && Acceptable(env, v)
  {
  }

  lemma {:induction false} TrailerWritable(env: Env, r: Reader)
    requires Sound(env) && |r.counts| == |r.schema|
    requires var v := Obj(CountMembers(r.schema, r.counts)); Writable(v) && Acceptable(env, v)
    ensures Writable(Trailer(env, r)) && Acceptable(env, Trailer(env, r))
  {
    var members := Trailer(env, r).members;
    forall i | 0 <= i < |members|
      ensures Scalars(members[i].key) && Writable(members[i].value) && Acceptable(env, members[i].value)
    {
      assert i == 0 || i == 1 || i == 2 || i == 3;
    }
  }

  /** So has every trailer whose counts are within the exact integer bound. */
  lemma {:induction false} TrailerSpells(env: Env, r: Reader)
    requires Sound(env) && |r.counts| == |r.schema| && DistinctTags(r.schema)
    requires forall i | 0 <= i < |r.schema| :: Scalars(r.schema[i].tag) && r.counts[i] <= I53_MAX
    ensures Writable(Trailer(env, r))
    ensures |Line(Trailer(env, r))| <= MAX_LINE_BYTES ==> Spells(env, Line(Trailer(env, r)), Trailer(env, r))
  {
    CountsWritable(env, r);
    TrailerWritable(env, r);
    if |Line(Trailer(env, r))| <= MAX_LINE_BYTES { LineSpells(env, Trailer(env, r)); }
  }
}
