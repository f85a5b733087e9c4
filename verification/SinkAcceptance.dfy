/** Which streams are accepted sinks, said by their lines alone: no reader, no running counts and
    no running digest. */
module SinkAcceptance {
  import opened Bytes
  import opened Json
  import opened Options
  import opened SinkFormat
  import opened SinkRoundTrip

  lemma {:induction false} NamesAreSpelled()
    ensures TRAILER_KEY == Points("trailer") && VERSION_KEY == Points("version") && COUNTS_KEY == Points("counts")
    ensures DIGEST_KEY == Points("sha256") && SCHEMA == Points("pf-report-sink")
    ensures TRADE_TAG == Points("T") && LONG == Points("long") && SHORT == Points("short")
  {
  }

  /** What a column takes: nothing if it may be empty, an exact integer, a double in its shortest
      spelling, a truth value, or text without surrogates, 16 lowercase hex digits for a hash. */
  ghost predicate FieldOk(env: Env, v: Json, column: Column) {
    match v
    case Null => column.optional
    case Bool(_) => column.kind == Boolean
    case Int(n) =>
      || (column.kind == I64 && -9007199254740991 <= n <= 9007199254740991)
      || (column.kind == U64 && 0 <= n <= 9007199254740991)
    case Float(token) => column.kind == F64 && env.canonical(token)
    case Str(points) =>
      && (forall i | 0 <= i < |points| :: !(0xD800 <= points[i] <= 0xDFFF))
      && (column.kind == String
          || (column.kind == Hex64 && |points| == 16
              && forall i | 0 <= i < 16 :: points[i] in Points("0123456789abcdef")))
    case _ => false
  }

  /** A row of a declared type, with one value per column; a trade is long or short. */
  ghost predicate RowOk(env: Env, schema: seq<Descriptor>, record: Record) {
    && (record.tag == Points("T") ==>
          && |record.values| > 1
          && (record.values[1] == Str(Points("long")) || record.values[1] == Str(Points("short"))))
    && exists i ::
         && 0 <= i < |schema| && schema[i].tag == record.tag && |record.values| == |schema[i].columns|
         && forall j | 0 <= j < |record.values| :: FieldOk(env, record.values[j], schema[i].columns[j])
  }

  /** The trailer of these rows: the name and version of the format, how often each declared type
      occurs, and the digest of all the bytes before. */
  ghost predicate TrailerOk(env: Env, schema: seq<Descriptor>, records: seq<Record>, before: seq<byte>, v: Json) {
    && v.Obj? && |v.members| == 4
    && v.members[0] == Member(Points("trailer"), Str(Points("pf-report-sink")))
    && v.members[1] == Member(Points("version"), Int(1))
    && v.members[2].key == Points("counts") && v.members[2].value.Obj?
    && (var counts := v.members[2].value.members;
        && |counts| == |schema|
        && forall i | 0 <= i < |schema| ::
             counts[i] == Member(schema[i].tag, Int(Occurrences(records, schema[i].tag))))
    && v.members[3] == Member(Points("sha256"), Str(env.digest(before)))
  }

  datatype Sink = Sink(first: seq<byte>, header: Json, schema: seq<Descriptor>, records: seq<Record>,
                       lines: seq<seq<byte>>, last: seq<byte>, trailer: Json)

  function Before(a: Sink): seq<byte> { a.first + Concat(a.lines) }

  ghost predicate LineOk(env: Env, schema: seq<Descriptor>, line: seq<byte>, record: Record) {
    Spells(env, line, Arr([Str(record.tag)] + record.values)) && RowOk(env, schema, record)
  }

  /** One line for the header, one for each row and one for the trailer. */
  ghost predicate IsSink(env: Env, a: Sink) {
    && Spells(env, a.first, a.header) && env.describe(a.header) == Some(a.schema)
    && (forall i, j | 0 <= i < j < |a.schema| :: a.schema[i].tag != a.schema[j].tag)
    && |a.lines| == |a.records|
    && (forall i | 0 <= i < |a.records| :: LineOk(env, a.schema, a.lines[i], a.records[i]))
    && Spells(env, a.last, a.trailer) && TrailerOk(env, a.schema, a.records, Before(a), a.trailer)
  }

  lemma {:induction false} HexIs(c: point)
    ensures c in Points("0123456789abcdef") <==> IsDigit(c) || 97 <= c <= 102
  {
    var hex := Points("0123456789abcdef");
    assert forall k | 0 <= k < 10 :: hex[k] == 48 + k;
    assert forall k | 10 <= k < 16 :: hex[k] == 87 + k;
    if IsDigit(c) { assert hex[c - 48] == c; } else if 97 <= c <= 102 { assert hex[c - 87] == c; }
  }

  lemma {:induction false} FieldIs(env: Env, v: Json, column: Column)
    ensures Conforms(env, v, column) <==> FieldOk(env, v, column)
  {
    if v.Str? { forall i | 0 <= i < |v.points| { HexIs(v.points[i]); } }
  }

  lemma {:induction false} RowIs(env: Env, schema: seq<Descriptor>, record: Record)
    ensures RecordOk(env, schema, record) <==> RowOk(env, schema, record)
  {
    NamesAreSpelled();
    forall v, column { FieldIs(env, v, column); }
  }

  lemma {:induction false} TrailerIs(env: Env, a: Sink)
    ensures a.trailer == Trailer(env, Final(Opening(a.first, a.schema), a.records, a.lines)) <==>
            TrailerOk(env, a.schema, a.records, Before(a), a.trailer)
  {
    NamesAreSpelled();
    var f := Final(Opening(a.first, a.schema), a.records, a.lines);
    assert forall i | 0 <= i < |a.schema| :: f.counts[i] == Occurrences(a.records, a.schema[i].tag);
    var t := Trailer(env, f);
    if TrailerOk(env, a.schema, a.records, Before(a), a.trailer) {
      assert a.trailer.members[2].value.members == CountMembers(f.schema, f.counts);
      assert a.trailer.members[2] == t.members[2];
      assert a.trailer.members == t.members;
    }
  }

  lemma {:induction false} LinesAre(env: Env, a: Sink)
    ensures RecordsOk(env, a.schema, a.records, a.lines) <==>
            |a.lines| == |a.records|
            && forall i | 0 <= i < |a.records| :: LineOk(env, a.schema, a.lines[i], a.records[i])
  {
    forall i | 0 <= i < |a.records| { RowIs(env, a.schema, a.records[i]); }
  }

  /** What the line grammar lets through is acceptable. */
  lemma {:induction false} ParsedIsAcceptable(env: Env, line: seq<byte>, v: Json)
    requires Standard(env) && env.parse(line) == Ok(v)
    ensures Acceptable(env, v) && !Unterminated(line) && |line| <= MAX_LINE_BYTES
  {
    assert ParseLine(env, line) == Ok(v);
  }

  /** The counts on an accepted line are exact. */
  lemma {:induction false} CountsFit(env: Env, a: Sink, i: nat)
    requires Standard(env) && IsSink(env, a) && i < |a.schema|
    ensures Occurrences(a.records, a.schema[i].tag) <= I53_MAX
  {
    ParsedIsAcceptable(env, a.last, a.trailer);
    var counts := a.trailer.members[2].value;
    assert Acceptable(env, counts);
    assert Acceptable(env, counts.members[i].value);
  }

  /** Such lines are accepted, with these rows and this digest. */
  lemma {:induction false} SinkIsAccepted(env: Env, a: Sink)
    requires Standard(env) && IsSink(env, a)
    ensures var s := a.first + (Concat(a.lines) + a.last);
            && Verdict(env, s) == Ok(env.digest(Before(a)))
            && Open(env, s).Ok? && Open(env, s).value.0 == a.header
            && Run(env, Open(env, s).value.1, AfterLine(s)).records == a.records
  {
    LinesAre(env, a);
    TrailerIs(env, a);
    forall i | 0 <= i < |a.schema| ensures Occurrences(a.records, a.schema[i].tag) <= I53_MAX {
      CountsFit(env, a, i);
    }
    SinkReads(env, a.header, a.first, a.schema, a.records, a.lines, a.last);
  }

  lemma {:induction false} NextIsLine(env: Env, input: seq<byte>)
    requires Standard(env) && NextValue(env, input).Ok?
    ensures Spells(env, FirstLine(input), NextValue(env, input).value)
    ensures input == FirstLine(input) + AfterLine(input)
  {
    var line := FirstLine(input);
    ParsedIsAcceptable(env, line, NextValue(env, input).value);
    LineEnds(input, READ_LIMIT);
    assert forall i | 0 <= i < |line| :: line[i] == input[i];
  }

  lemma {:induction false} RowIsCounted(env: Env, r: Reader, input: seq<byte>)
    requires Standard(env) && |r.counts| == |r.schema| && DistinctTags(r.schema) && Next(env, r, input).Row?
    ensures var step := Next(env, r, input);
            && step.next == Final(r, [step.record], [FirstLine(input)])
            && RecordOk(env, r.schema, step.record) && Spells(env, FirstLine(input), RecordValue(step.record))
  {
    NextIsLine(env, input);
    var v := NextValue(env, input).value;
    var record := Next(env, r, input).record;
    assert v.items == [v.items[0]] + v.items[1..];
    FindsTag(r.schema, record.tag);
    OneTally(r, record, Find(r.schema, record.tag).value);
    assert Concat([FirstLine(input)]) == FirstLine(input) + Concat([FirstLine(input)][1..]);
  }

  /** What is left of a stream after `r`, as lines. */
  ghost predicate IsRest(env: Env, r: Reader, input: seq<byte>, records: seq<Record>, lines: seq<seq<byte>>,
                         last: seq<byte>, trailer: Json)
    requires |r.counts| == |r.schema|
  {
    && RecordsOk(env, r.schema, records, lines) && input == Concat(lines) + last
    && Spells(env, last, trailer) && trailer == Trailer(env, Final(r, records, lines))
  }

  lemma {:induction false} NoMoreLines(env: Env, r: Reader, input: seq<byte>)
    requires Standard(env) && |r.counts| == |r.schema| && Next(env, r, input).Finish?
    ensures IsRest(env, r, input, [], [], input, NextValue(env, input).value)
  {
    NextIsLine(env, input);
    EmptyFinal(r);
    assert FirstLine(input) + [] == FirstLine(input);
    assert input == FirstLine(input);
    assert input == Concat([]) + input;
  }

  lemma {:induction false} OneMoreLine(env: Env, r: Reader, record: Record, line: seq<byte>, input: seq<byte>,
                                       records: seq<Record>, lines: seq<seq<byte>>, last: seq<byte>, trailer: Json)
    requires |r.counts| == |r.schema| && RecordOk(env, r.schema, record) && Spells(env, line, RecordValue(record))
    requires IsRest(env, Final(r, [record], [line]), input, records, lines, last, trailer)
    ensures IsRest(env, r, line + input, [record] + records, [line] + lines, last, trailer)
  {
    assert ([record] + records)[1..] == records && ([line] + lines)[1..] == lines;
    FinalSteps(r, [record] + records, [line] + lines);
    assert line + input == Concat([line] + lines) + last;
  }

  /** The lines of an accepted rest. */
  lemma {:induction false} RunIsLines(env: Env, r: Reader, input: seq<byte>)
    returns (lines: seq<seq<byte>>, last: seq<byte>, trailer: Json)
    requires Standard(env) && |r.counts| == |r.schema| && DistinctTags(r.schema) && Run(env, r, input).end.Ok?
    ensures IsRest(env, r, input, Run(env, r, input).records, lines, last, trailer)
    decreases |input|
  {
    var step := Next(env, r, input);
    if step.Finish? {
      lines, last, trailer := [], input, NextValue(env, input).value;
      NoMoreLines(env, r, input);
    } else {
      RowIsCounted(env, r, input);
      NextIsLine(env, input);
      lines, last, trailer := RunIsLines(env, step.next, AfterLine(input));
      OneMoreLine(env, r, step.record, FirstLine(input), AfterLine(input),
                  Run(env, step.next, AfterLine(input)).records, lines, last, trailer);
      lines := [FirstLine(input)] + lines;
    }
  }

  /** An accepted stream has such lines. */
  lemma {:induction false} AcceptedIsSink(env: Env, s: seq<byte>) returns (a: Sink)
    requires Standard(env) && Verdict(env, s).Ok?
    ensures IsSink(env, a) && s == a.first + (Concat(a.lines) + a.last)
  {
    NextIsLine(env, s);
    var opening := Open(env, s).value;
    var r := opening.1;
    var lines, last, trailer := RunIsLines(env, r, AfterLine(s));
    a := Sink(FirstLine(s), opening.0, r.schema, Run(env, r, AfterLine(s)).records, lines, last, trailer);
    LinesAre(env, a);
    TrailerIs(env, a);
  }

  /** A stream is accepted exactly when it is a header line, lines of declared rows, and a trailer
      line that gives their numbers and the digest of every byte before it. */
  lemma {:induction false} AcceptanceIsExact(env: Env, s: seq<byte>)
    requires Standard(env)
    ensures Verdict(env, s).Ok? <==> exists a :: IsSink(env, a) && s == a.first + (Concat(a.lines) + a.last)
  {
    if Verdict(env, s).Ok? {
      var a := AcceptedIsSink(env, s);
    }
    if a :| IsSink(env, a) && s == a.first + (Concat(a.lines) + a.last) { SinkIsAccepted(env, a); }
  }

  ghost predicate EndsInFeed(s: seq<byte>) { s != [] && s[|s| - 1] == LF }

  /** A stream of lines has one last line. */
  lemma {:induction false} LastLineIs(x: seq<byte>, p: seq<byte>, y: seq<byte>, q: seq<byte>)
    requires Framed(p) && Framed(q) && EndsInFeed(x) && EndsInFeed(y) && x + p == y + q
    ensures x == y && p == q
  {
    ShorterIsLast(x, p, y, q);
    ShorterIsLast(y, q, x, p);
    assert (x + p)[..|x|] == x && (y + q)[..|y|] == y;
    assert (x + p)[|x|..] == p && (y + q)[|y|..] == q;
  }

  lemma {:induction false} ShorterIsLast(x: seq<byte>, p: seq<byte>, y: seq<byte>, q: seq<byte>)
    requires Framed(q) && EndsInFeed(x) && x + p == y + q && p != []
    ensures |y| >= |x|
  {
    assert forall j | |y| <= j < |y + q| - 1 :: (y + q)[j] == q[j - |y|];
    assert (x + p)[|x| - 1] == LF;
  }

  lemma {:induction false} EndsWithFeed(first: seq<byte>, lines: seq<seq<byte>>)
    requires Framed(first) && forall i | 0 <= i < |lines| :: Framed(lines[i])
    ensures EndsInFeed(first + Concat(lines))
    decreases |lines|
  {
    if lines != [] {
      EndsWithFeed(lines[0], lines[1..]);
      assert first + Concat(lines) == first + (lines[0] + Concat(lines[1..]));
    }
  }

  lemma {:induction false} TrailerOf(env: Env, s: seq<byte>, before: seq<byte>, line: seq<byte>) returns (a: Sink)
    requires Standard(env) && Verdict(env, s).Ok? && s == before + line && Framed(line) && EndsInFeed(before)
    ensures IsSink(env, a) && before == Before(a) && line == a.last
  {
    a := AcceptedIsSink(env, s);
    BeforeEnds(env, a);
    LastLineIs(before, line, Before(a), a.last);
  }

  lemma {:induction false} BeforeEnds(env: Env, a: Sink)
    requires IsSink(env, a)
    ensures EndsInFeed(Before(a)) && Framed(a.last) && a.first + (Concat(a.lines) + a.last) == Before(a) + a.last
  {
    forall i | 0 <= i < |a.lines| ensures Framed(a.lines[i]) { assert LineOk(env, a.schema, a.lines[i], a.records[i]); }
    EndsWithFeed(a.first, a.lines);
  }

  /** Where the digest tells bytes apart, two accepted streams that end in the same line are the same. */
  lemma {:induction false} SameTrailerSameSink(env: Env, x: seq<byte>, y: seq<byte>, line: seq<byte>)
    requires Standard(env) && forall x', y' | env.digest(x') == env.digest(y') :: x' == y'
    requires Framed(line) && EndsInFeed(x) && EndsInFeed(y)
    requires Verdict(env, x + line).Ok? && Verdict(env, y + line).Ok?
    ensures x == y
  {
    var a := TrailerOf(env, x + line, x, line);
    var b := TrailerOf(env, y + line, y, line);
    assert a.trailer == b.trailer;
    assert env.digest(x) == env.digest(y);
  }
}
