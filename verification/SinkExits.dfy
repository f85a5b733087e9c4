/** The finalizer's exit statuses as numbers, for streams described by their lines. */
module SinkExits {
  import opened Bytes
  import opened Json
  import opened Options
  import opened RecordMeaning
  import opened RecordOrder
  import opened SinkAcceptance
  import opened SinkFormat
  import opened SinkRoundTrip
  import opened SinkVerify

  function Text(a: Sink): seq<byte> { a.first + (Concat(a.lines) + a.last) }

  /** An equity point starts with its time, which is never missing. */
  ghost predicate TimesFirst(env: Env) {
    forall v | env.describe(v).Some? ::
      forall d | d in env.describe(v).value && d.tag == Points("E") ::
        d.columns != [] && d.columns[0] == Column(I64, false)
  }

  /** A header that is wanted and lines of declared rows behind it, not too many of any type. */
  ghost predicate Begins(env: Env, wanted: Json -> bool, a: Sink) {
    && Spells(env, a.first, a.header) && env.describe(a.header) == Some(a.schema) && wanted(a.header)
    && (forall i, j | 0 <= i < j < |a.schema| :: a.schema[i].tag != a.schema[j].tag)
    && |a.lines| == |a.records|
    && (forall i | 0 <= i < |a.records| :: LineOk(env, a.schema, a.lines[i], a.records[i]))
    && (forall i | 0 <= i < |a.schema| :: Occurrences(a.records, a.schema[i].tag) <= 9007199254740991)
  }

  lemma {:induction false} RowsAreTimed(env: Env, wanted: Json -> bool, a: Sink)
    requires TimesFirst(env) && Begins(env, wanted, a)
    ensures Timed(a.records)
  {
    forall k | 0 <= k < |a.records| && a.records[k].tag == Points("E")
      ensures a.records[k].values != [] && a.records[k].values[0].Int?
    {
      assert LineOk(env, a.schema, a.lines[k], a.records[k]);
      var row := a.records[k];
      var i :| && 0 <= i < |a.schema| && a.schema[i].tag == row.tag && |row.values| == |a.schema[i].columns|
               && forall j | 0 <= j < |row.values| :: FieldOk(env, row.values[j], a.schema[i].columns[j]);
      assert a.schema[i] in a.schema;
      assert FieldOk(env, row.values[0], a.schema[i].columns[0]);
    }
  }

  lemma {:induction false} RunThrough(env: Env, r: Reader, records: seq<Record>, lines: seq<seq<byte>>, rest: seq<byte>)
    requires |r.counts| == |r.schema| && DistinctTags(r.schema)
    requires RecordsOk(env, r.schema, records, lines) && Room(r, records)
    ensures Run(env, r, Concat(lines) + rest) == After(records, Run(env, Final(r, records, lines), rest))
    decreases |records|
  {
    if records == [] {
      EmptyFinal(r);
      assert Concat(lines) + rest == rest;
      var o := Run(env, r, rest);
      assert [] + o.records == o.records;
    } else {
      FinalSteps(r, records, lines);
      RoomForEach(r, records, lines);
      TailOk(env, r.schema, records, lines);
      var next, more := Final(r, [records[0]], [lines[0]]), Concat(lines[1..]) + rest;
      RunThrough(env, next, records[1..], lines[1..], rest);
      HeadAndTail(records, lines, rest);
      RowReads(env, r, records[0], lines[0], more);
      RunUnfolds(env, r, lines[0] + more, records[0], next);
      AfterAll(records, Run(env, Final(r, records, lines), rest));
    }
  }

  lemma {:induction false} AfterAll(records: seq<Record>, o: Outcome)
    requires records != []
    ensures After([records[0]], After(records[1..], o)) == After(records, o)
  {
    assert [records[0]] + (records[1..] + o.records) == records + o.records;
  }

  /** The reader's state behind the rows. */
  function Behind(a: Sink): Reader { Final(Opening(a.first, a.schema), a.records, a.lines) }

  /** Everything a stream amounts to that begins like this. */
  lemma {:induction false} StatusBehind(env: Env, wanted: Json -> bool, a: Sink, rest: seq<byte>)
    requires Begins(env, wanted, a)
    ensures StatusOf(env, wanted, Before(a) + rest, None) ==
            EndStatus(After(a.records, Run(env, Behind(a), rest)), false)
  {
    var s := Before(a) + rest;
    Regrouped(a.first, Concat(a.lines), rest);
    HeaderReads(env, a.header, a.first, a.schema, Concat(a.lines) + rest);
    LinesAre(env, a);
    var r := Opening(a.first, a.schema);
    forall i | 0 <= i < |r.schema| ensures Tally(r, a.records)[i] <= I53_MAX {
      assert Occurrences(a.records, a.schema[i].tag) <= 9007199254740991;
    }
    RunThrough(env, r, a.records, a.lines, rest);
  }

  lemma {:induction false} Regrouped(a: seq<byte>, b: seq<byte>, c: seq<byte>)
    ensures a + b + c == a + (b + c)
  {
  }

  /** Rows out of order exit 3, whatever follows them. */
  lemma {:induction false} DisorderExits3(env: Env, wanted: Json -> bool, a: Sink, rest: seq<byte>)
    requires TimesFirst(env) && Begins(env, wanted, a) && !Proper(a.records)
    ensures StatusOf(env, wanted, Before(a) + rest, None) == 3
  {
    StatusBehind(env, wanted, a, rest);
    RowsAreTimed(env, wanted, a);
    CheckAllIs(a.records);
    CheckPrefix(a.records, Run(env, Behind(a), rest).records);
  }

  /** What follows rows in order decides the exit. */
  lemma {:induction false} NextDecides(env: Env, wanted: Json -> bool, a: Sink, rest: seq<byte>)
    requires TimesFirst(env) && Begins(env, wanted, a) && Proper(a.records) && !Next(env, Behind(a), rest).Row?
    ensures var step := Next(env, Behind(a), rest);
            StatusOf(env, wanted, Before(a) + rest, None) == if step.Finish? then 0 else RefusalCode(step.why)
  {
    StatusBehind(env, wanted, a, rest);
    RowsAreTimed(env, wanted, a);
    CheckAllIs(a.records);
    assert a.records + [] == a.records;
  }

  /** A stream cut before its trailer exits 6: it ends with its rows, or within a line. */
  lemma {:induction false} CutExits6(env: Env, wanted: Json -> bool, a: Sink, rest: seq<byte>)
    requires Standard(env) && TimesFirst(env) && Begins(env, wanted, a) && Proper(a.records)
    requires LF !in rest && |rest| <= MAX_LINE_BYTES
    ensures StatusOf(env, wanted, Before(a) + rest, None) == 6
  {
    StandardTerminates(env);
    LineEnds(rest, READ_LIMIT);
    NextDecides(env, wanted, a, rest);
  }

  /** Also when it ends within its first line. */
  lemma {:induction false} CutHeaderExits6(env: Env, wanted: Json -> bool, s: seq<byte>)
    requires Standard(env) && LF !in s && |s| <= MAX_LINE_BYTES
    ensures StatusOf(env, wanted, s, None) == 6
  {
    StandardTerminates(env);
    LineEnds(s, READ_LIMIT);
  }

  /** A line with an object that is not the trailer of these rows, or that is followed by anything,
      exits 4. */
  lemma {:induction false} WrongTrailerExits4(env: Env, wanted: Json -> bool, a: Sink, more: seq<byte>)
    requires TimesFirst(env) && Begins(env, wanted, a) && Proper(a.records)
    requires Spells(env, a.last, a.trailer) && a.trailer.Obj?
    requires !TrailerOk(env, a.schema, a.records, Before(a), a.trailer) || more != []
    ensures StatusOf(env, wanted, Before(a) + (a.last + more), None) == 4
  {
    FramedIsFirst(a.last, more);
    TrailerIs(env, a);
    NextDecides(env, wanted, a, a.last + more);
  }

  /** The trailer of these rows and nothing after it exits 0. */
  lemma {:induction false} TrailerExits0(env: Env, wanted: Json -> bool, a: Sink)
    requires TimesFirst(env) && Begins(env, wanted, a) && Proper(a.records)
    requires Spells(env, a.last, a.trailer) && TrailerOk(env, a.schema, a.records, Before(a), a.trailer)
    ensures StatusOf(env, wanted, Before(a) + a.last, None) == 0
  {
    FramedIsFirst(a.last, []);
    assert a.last + [] == a.last;
    TrailerIs(env, a);
    NextDecides(env, wanted, a, a.last);
  }

  /** A whole line that is neither an object nor a declared row. */
  ghost predicate OddLine(env: Env, schema: seq<Descriptor>, line: seq<byte>) {
    && Framed(line)
    && match env.parse(line)
       case Err(why) => why == Malformed
       case Ok(v) =>
         !v.Obj? && !(v.Arr? && v.items != [] && v.items[0].Str?
                      && RowOk(env, schema, Record(v.items[0].points, v.items[1..])))
  }

  /** Any other line exits 3. */
  lemma {:induction false} OddLineExits3(env: Env, wanted: Json -> bool, a: Sink, line: seq<byte>, more: seq<byte>)
    requires TimesFirst(env) && Begins(env, wanted, a) && Proper(a.records) && OddLine(env, a.schema, line)
    ensures StatusOf(env, wanted, Before(a) + (line + more), None) == 3
  {
    FramedIsFirst(line, more);
    if env.parse(line).Ok? {
      var v := env.parse(line).value;
      if v.Arr? && v.items != [] && v.items[0].Str? {
        RowIs(env, a.schema, Record(v.items[0].points, v.items[1..]));
      }
    }
    NextDecides(env, wanted, a, line + more);
  }

  /** So does a first line that is no wanted header. */
  lemma {:induction false} OddHeaderExits3(env: Env, wanted: Json -> bool, line: seq<byte>, more: seq<byte>)
    requires Framed(line)
    requires match env.parse(line)
             case Err(why) => why == Malformed
             case Ok(v) => env.describe(v).None? || !wanted(v)
    ensures StatusOf(env, wanted, line + more, None) == 3
  {
    FramedIsFirst(line, more);
  }

  lemma {:induction false} SinkBegins(env: Env, wanted: Json -> bool, a: Sink)
    requires Standard(env) && IsSink(env, a) && wanted(a.header)
    ensures Begins(env, wanted, a) && Text(a) == Before(a) + a.last
  {
    forall i | 0 <= i < |a.schema| ensures Occurrences(a.records, a.schema[i].tag) <= 9007199254740991 {
      CountsFit(env, a, i);
    }
    Regrouped(a.first, Concat(a.lines), a.last);
  }

  /** Exit 0 is exactly a whole sink with a wanted header and rows in order. */
  lemma {:induction false} Exit0IsExact(env: Env, wanted: Json -> bool, s: seq<byte>)
    requires Standard(env) && TimesFirst(env)
    ensures StatusOf(env, wanted, s, None) == 0 <==>
            exists a :: IsSink(env, a) && s == Text(a) && wanted(a.header) && Proper(a.records)
  {
    if StatusOf(env, wanted, s, None) == 0 {
      var a := AcceptedIsSink(env, s);
      SinkIsAccepted(env, a);
      SinkBegins(env, wanted, a);
      RowsAreTimed(env, wanted, a);
      CheckAllIs(a.records);
    }
    if a :| IsSink(env, a) && s == Text(a) && wanted(a.header) && Proper(a.records) {
      SinkBegins(env, wanted, a);
      TrailerExits0(env, wanted, a);
    }
  }

  lemma {:induction false} PrefixInOrder(rows: seq<Record>, all: seq<Record>)
    requires rows <= all && CheckAll(all).Some?
    ensures CheckAll(rows).Some?
  {
    if CheckAll(rows).None? {
      CheckPrefix(rows, all[|rows|..]);
      assert rows + all[|rows|..] == all;
    }
  }

  /** Every truncation of such a sink exits 6, every cap below its length exits 8, and every
      extension exits 4. */
  lemma {:induction false} ExitsOfSink(env: Env, wanted: Json -> bool, a: Sink, k: nat, more: seq<byte>)
    requires Standard(env) && TimesFirst(env) && IsSink(env, a) && wanted(a.header) && Proper(a.records)
    requires k < |Text(a)| && more != []
    ensures StatusOf(env, wanted, Text(a)[..k], None) == 6
    ensures StatusOf(env, wanted, Text(a), Some(k)) == 8
    ensures StatusOf(env, wanted, Text(a) + more, None) == 4
  {
    var s := Text(a);
    SinkBegins(env, wanted, a);
    CutSink(env, wanted, a, k);
    WrongTrailerExits4(env, wanted, a, more);
    Regrouped(Before(a), a.last, more);
  }

  lemma {:induction false} CutSink(env: Env, wanted: Json -> bool, a: Sink, k: nat)
    requires Standard(env) && TimesFirst(env) && IsSink(env, a) && wanted(a.header) && Proper(a.records)
    requires k < |Text(a)|
    ensures StatusOf(env, wanted, Text(a)[..k], None) == 6
    ensures StatusOf(env, wanted, Text(a), Some(k)) == 8
  {
    StandardTerminates(env);
    SinkIsAccepted(env, a);
    SinkBegins(env, wanted, a);
    RowsAreTimed(env, wanted, a);
    CheckAllIs(a.records);
    TruncatedIsIncomplete(env, Text(a), k);
    if Open(env, Text(a)[..k]).Ok? { CutRecords(env, a, k); }
    CutStatus(env, wanted, Text(a), k);
  }

  lemma {:induction false} CutStatus(env: Env, wanted: Json -> bool, s: seq<byte>, k: nat)
    requires k < |s| && Verdict(env, s[..k]) == Err(Incomplete)
    requires Open(env, s[..k]).Ok? ==>
               wanted(Open(env, s[..k]).value.0) && CheckAll(Whole(env, s[..k]).records).Some?
    ensures StatusOf(env, wanted, s[..k], None) == 6 && StatusOf(env, wanted, s, Some(k)) == 8
  {
  }

  /** The rows before a cut are rows of the sink. */
  lemma {:induction false} CutRecords(env: Env, a: Sink, k: nat)
    requires Standard(env) && IsSink(env, a) && k < |Text(a)| && Open(env, Text(a)[..k]).Ok?
    requires CheckAll(a.records).Some?
    ensures Open(env, Text(a)[..k]).value.0 == a.header
    ensures CheckAll(Whole(env, Text(a)[..k]).records).Some?
  {
    StandardTerminates(env);
    SinkIsAccepted(env, a);
    CutWhole(env, Text(a), k);
    PrefixInOrder(Whole(env, Text(a)[..k]).records, a.records);
  }

  /** A cut behind the header keeps the header and a prefix of the rows. */
  lemma {:induction false} CutWhole(env: Env, s: seq<byte>, k: nat)
    requires Terminated(env) && Verdict(env, s).Ok? && k < |s| && Open(env, s[..k]).Ok?
    ensures Open(env, s[..k]) == Open(env, s) && Whole(env, s[..k]).records <= Whole(env, s).records
  {
    var n := LineLength(s, READ_LIMIT);
    assert k >= n by { if k < n { CutLine(env, s, k); } }
    assert FirstLine(s[..k]) == FirstLine(s) && AfterLine(s[..k]) == AfterLine(s)[..k - n] by {
      SameLine(s, k, []);
      assert s[..k] + [] == s[..k];
      assert AfterLine(s)[..k - n] + [] == AfterLine(s)[..k - n];
    }
    TruncatedRun(env, Open(env, s).value.1, AfterLine(s), k - n);
  }
}
