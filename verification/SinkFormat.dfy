/** The format of a report sink: a header line, record lines and a trailer line with counts and
    a digest of everything before it, as a fold over lines (docker/pf_sink.py). */
module SinkFormat {
  import opened Bytes
  import opened Json
  import opened JsonWriter
  import opened Lexical
  import opened Options
  import Utf8

  const READ_LIMIT: nat := 1048577
  const I53_MAX: int := 9007199254740991
  const BOM: seq<byte> := [0xEF, 0xBB, 0xBF]

  // "pf-report-sink", the keys of a trailer, and the tags of records
  const SCHEMA: Text := [112, 102, 45, 114, 101, 112, 111, 114, 116, 45, 115, 105, 110, 107]
  const TRAILER_KEY: Text := [116, 114, 97, 105, 108, 101, 114]
  const VERSION_KEY: Text := [118, 101, 114, 115, 105, 111, 110]
  const COUNTS_KEY: Text := [99, 111, 117, 110, 116, 115]
  const DIGEST_KEY: Text := [115, 104, 97, 50, 53, 54]
  const TRADE_TAG: Text := [84]
  const EQUITY_TAG: Text := [69]
  const OUTPUT_TAG: Text := [79]
  const CONSTANTS_TAG: Text := [75]
  const EVENT_TAG: Text := [86]
  const LONG: Text := [108, 111, 110, 103]
  const SHORT: Text := [115, 104, 111, 114, 116]

  datatype Kind = I64 | U64 | F64 | Boolean | String | Hex64
  datatype Column = Column(kind: Kind, optional: bool)
  datatype Descriptor = Descriptor(tag: Text, columns: seq<Column>)
  datatype Record = Record(tag: Text, values: seq<Json>)

  /** What the fold over lines takes from elsewhere: the grammar of a line (see `Standard`); the
      record types a header declares, if it is one of the fixed schema; the hex SHA-256 of
      bytes; which float tokens are finite doubles and which are the shortest spelling of
      theirs. */
  datatype Env = Env(
    parse: seq<byte> -> Result<Json>,
    describe: Json -> Option<seq<Descriptor>>,
    digest: seq<byte> -> Text,
    finite: Text -> bool,
    canonical: Text -> bool)

  /** Why a sink is refused: it ended before its trailer, the trailer is wrong or not last, or
      anything else. */
  datatype Refusal = Incomplete | BadTrailer | Malformed

  datatype Result<T> = Ok(value: T) | Err(why: Refusal)

  // One line

  predicate DistinctKeys(members: seq<Member>) {
    forall i, j | 0 <= i < j < |members| :: members[i].key != members[j].key
  }

  /** What the token hooks of the decoder let through. */
  predicate Acceptable(env: Env, v: Json) {
    match v
    case Int(n) => -I53_MAX <= n <= I53_MAX
    case Float(token) => env.finite(token)
    case Constant(_) => false
    case Arr(items) => forall i | 0 <= i < |items| :: Acceptable(env, items[i])
    case Obj(members) => DistinctKeys(members) && forall i | 0 <= i < |members| :: Acceptable(env, members[i].value)
    case _ => true
  }

  /** A whole text that is one value, spaces around it allowed. */
  function Loads(text: Text): Option<Json> {
    match ParseValue(SkipSpace(text))
    case Fail => None
    case Got(v, rest) => if SkipSpace(rest) == [] then Some(v) else None
  }

  function ParseBody(env: Env, body: seq<byte>): Result<Json> {
    if body == [] || BOM <= body || Walk(body, Outside) == Rejected then Err(Malformed)
    else
      match Utf8.Decode(body)
      case None => Err(Malformed)
      case Some(text) =>
        match Loads(text)
        case None => Err(Malformed)
        case Some(v) => if Acceptable(env, v) then Ok(v) else Err(Malformed)
  }

  function ParseLine(env: Env, line: seq<byte>): Result<Json> {
    if Unterminated(line) then Err(Incomplete)
    else if |line| > MAX_LINE_BYTES then Err(Malformed)
    else ParseBody(env, line[..|line| - 1])
  }

  /** The line grammar in use is the one above. */
  ghost predicate Standard(env: Env) {
    forall line {:trigger ParseLine(env, line)} :: env.parse(line) == ParseLine(env, line)
  }

  predicate Unterminated(line: seq<byte>) { line == [] || line[|line| - 1] != LF }

  /** An unterminated line is an incomplete stream. */
  ghost predicate Terminated(env: Env) {
    forall line | Unterminated(line) :: env.parse(line) == Err(Incomplete)
  }

  lemma {:induction false} StandardTerminates(env: Env)
    requires Standard(env)
    ensures Terminated(env)
  {
    forall line | Unterminated(line) ensures env.parse(line) == Err(Incomplete) {
      assert ParseLine(env, line) == Err(Incomplete);
    }
  }

  /** Bytes up to and including the first LF, at most `limit` of them. */
  function LineLength(s: seq<byte>, limit: nat): (n: nat)
    ensures n <= |s| && n <= limit && (s != [] && limit > 0 ==> n > 0)
  {
    if s == [] || limit == 0 then 0 else if s[0] == LF then 1 else 1 + LineLength(s[1..], limit - 1)
  }

  function FirstLine(s: seq<byte>): seq<byte> { s[..LineLength(s, READ_LIMIT)] }

  function AfterLine(s: seq<byte>): seq<byte> { s[LineLength(s, READ_LIMIT)..] }

  /** The value on the next line of what is left of the stream. */
  function NextValue(env: Env, input: seq<byte>): Result<Json> {
    if FirstLine(input) == [] then Err(Incomplete) else env.parse(FirstLine(input))
  }

  // One record

  predicate HexDigits(s: Text) {
    |s| == 16 && forall i | 0 <= i < |s| :: IsDigit(s[i]) || 97 <= s[i] <= 102
  }

  predicate Conforms(env: Env, v: Json, column: Column) {
    if v.Null? then column.optional
    else
      match column.kind
      case I64 => v.Int? && -I53_MAX <= v.value <= I53_MAX
      case U64 => v.Int? && 0 <= v.value <= I53_MAX
      case F64 => v.Float? && env.canonical(v.token)
      case Boolean => v.Bool?
      case String => v.Str? && Scalars(v.points)
      case Hex64 => v.Str? && Scalars(v.points) && HexDigits(v.points)
  }

  function Find(schema: seq<Descriptor>, tag: Text): Option<nat> {
    if schema == [] then None
    else if schema[0].tag == tag then Some(0)
    else
      match Find(schema[1..], tag)
      case None => None
      case Some(i) => Some(i + 1)
  }

  lemma {:induction false} FindsTag(schema: seq<Descriptor>, tag: Text)
    ensures var f := Find(schema, tag);
            if f.Some? then f.value < |schema| && schema[f.value].tag == tag
            else forall i | 0 <= i < |schema| :: schema[i].tag != tag
  {
    if schema != [] && schema[0].tag != tag {
      FindsTag(schema[1..], tag);
      assert forall i | 0 < i < |schema| :: schema[i] == schema[1..][i - 1];
    }
  }

  predicate SideOk(record: Record) {
    record.tag == TRADE_TAG ==>
      |record.values| > 1 && (record.values[1] == Str(LONG) || record.values[1] == Str(SHORT))
  }

  predicate RecordOk(env: Env, schema: seq<Descriptor>, record: Record) {
    && SideOk(record)
    && exists i ::
         && 0 <= i < |schema| && schema[i].tag == record.tag && |record.values| == |schema[i].columns|
         && forall j | 0 <= j < |record.values| :: Conforms(env, record.values[j], schema[i].columns[j])
  }

  function ParseRecord(env: Env, schema: seq<Descriptor>, v: Json): Option<Record> {
    if v.Arr? && v.items != [] && v.items[0].Str? && RecordOk(env, schema, Record(v.items[0].points, v.items[1..]))
    then Some(Record(v.items[0].points, v.items[1..]))
    else None
  }

  function RecordValue(record: Record): Json { Arr([Str(record.tag)] + record.values) }

  // The fold over lines

  /** Between two lines: the declared record types, how many of each, and the bytes so far. */
  datatype Reader = Reader(schema: seq<Descriptor>, counts: seq<nat>, hashed: seq<byte>)

  predicate DistinctTags(schema: seq<Descriptor>) {
    forall i, j | 0 <= i < j < |schema| :: schema[i].tag != schema[j].tag
  }

  function CountMembers(schema: seq<Descriptor>, counts: seq<nat>): seq<Member>
    requires |counts| == |schema|
  {
    seq(|schema|, i requires 0 <= i < |schema| => Member(schema[i].tag, Int(counts[i])))
  }

  /** The only trailer that closes what was read. */
  function Trailer(env: Env, r: Reader): Json
    requires |r.counts| == |r.schema|
  {
    Obj([Member(TRAILER_KEY, Str(SCHEMA)), Member(VERSION_KEY, Int(1)),
         Member(COUNTS_KEY, Obj(CountMembers(r.schema, r.counts))),
         Member(DIGEST_KEY, Str(env.digest(r.hashed)))])
  }

  datatype Step = Row(record: Record, next: Reader) | Finish | Refuse(why: Refusal)

  function Count(r: Reader, record: Record, line: seq<byte>): (s: Step)
    requires |r.counts| == |r.schema|
    ensures s.Row? ==> s.record == record && |s.next.counts| == |s.next.schema| && s.next.schema == r.schema
  {
    match Find(r.schema, record.tag)
    case None => Refuse(Malformed)
    case Some(i) =>
      FindsTag(r.schema, record.tag);
      if r.counts[i] == I53_MAX then Refuse(Malformed)
      else Row(record, Reader(r.schema, r.counts[i := r.counts[i] + 1], r.hashed + line))
  }

  /** The next line of what is left of the stream. */
  function Next(env: Env, r: Reader, input: seq<byte>): (s: Step)
    requires |r.counts| == |r.schema|
    ensures s.Row? ==> input != [] && |s.next.counts| == |s.next.schema| && s.next.schema == r.schema
  {
    match NextValue(env, input)
    case Err(why) => Refuse(why)
    case Ok(v) =>
      if v.Obj? then
        if v == Trailer(env, r) && AfterLine(input) == [] then Finish else Refuse(BadTrailer)
      else
        match ParseRecord(env, r.schema, v)
        case None => Refuse(Malformed)
        case Some(record) => Count(r, record, FirstLine(input))
  }

  /** Records yielded, the state they led to, and whether the trailer closed it. */
  datatype Outcome = Outcome(records: seq<Record>, last: Reader, end: Result<Text>)

  function Run(env: Env, r: Reader, input: seq<byte>): (o: Outcome)
    requires |r.counts| == |r.schema|
    ensures |o.last.counts| == |o.last.schema|
    decreases |input|
  {
    match Next(env, r, input)
    case Refuse(why) => Outcome([], r, Err(why))
    case Finish => Outcome([], r, Ok(env.digest(r.hashed)))
    case Row(record, next) =>
      var o := Run(env, next, AfterLine(input));
      Outcome([record] + o.records, o.last, o.end)
  }

  function Zeros(n: nat): seq<nat> { seq(n, i => 0) }

  /** The header and the state after it. */
  function Open(env: Env, input: seq<byte>): (r: Result<(Json, Reader)>)
    ensures r.Ok? ==> |r.value.1.counts| == |r.value.1.schema|
  {
    match NextValue(env, input)
    case Err(why) => Err(why)
    case Ok(v) =>
      match env.describe(v)
      case None => Err(Malformed)
      case Some(schema) =>
        if DistinctTags(schema) then Ok((v, Reader(schema, Zeros(|schema|), FirstLine(input)))) else Err(Malformed)
  }

  /** The refusal of a whole stream, or none. */
  function Verdict(env: Env, input: seq<byte>): Result<Text> {
    match Open(env, input)
    case Err(why) => Err(why)
    case Ok(opening) => Run(env, opening.1, AfterLine(input)).end
  }

  // Prefix-freeness

  lemma {:induction false} LineEnds(s: seq<byte>, limit: nat)
    ensures var n := LineLength(s, limit);
            && (forall i | 0 <= i < n - 1 :: s[i] != LF)
            && (n < |s| && n < limit ==> n > 0 && s[n - 1] == LF)
  {
    if s != [] && limit > 0 && s[0] != LF {
      LineEnds(s[1..], limit - 1);
      assert forall i | 0 < i < |s| :: s[i] == s[1..][i - 1];
    }
  }

  lemma {:induction false} LineStays(s: seq<byte>, k: nat, t: seq<byte>, limit: nat)
    requires var n := LineLength(s, limit); n > 0 && s[n - 1] == LF && n <= k <= |s|
    ensures LineLength(s[..k] + t, limit) == LineLength(s, limit)
  {
    if s[0] != LF {
      assert (s[..k] + t)[1..] == s[1..][..k - 1] + t;
      assert s[1..][LineLength(s[1..], limit - 1) - 1] == LF;
      LineStays(s[1..], k - 1, t, limit - 1);
    }
  }

  lemma {:induction false} LineCut(s: seq<byte>, k: nat, limit: nat)
    requires k < LineLength(s, limit)
    ensures LineLength(s[..k], limit) == k
  {
    if k > 0 {
      assert s[..k][1..] == s[1..][..k - 1];
      if s[0] != LF { LineCut(s[1..], k - 1, limit - 1); }
    }
  }

  /** A stream cut inside its first line has no first line. */
  lemma {:induction false} CutLine(env: Env, s: seq<byte>, k: nat)
    requires Terminated(env) && k < |FirstLine(s)|
    ensures NextValue(env, s[..k]) == Err(Incomplete)
  {
    LineCut(s, k, READ_LIMIT);
    LineEnds(s, READ_LIMIT);
    assert s[..k][..k] == s[..k];
  }

  /** Otherwise its first line is unchanged, and so it is when the stream grows. */
  lemma {:induction false} SameLine(s: seq<byte>, k: nat, t: seq<byte>)
    requires var n := LineLength(s, READ_LIMIT); n > 0 && s[n - 1] == LF && n <= k <= |s|
    ensures FirstLine(s[..k] + t) == FirstLine(s)
    ensures AfterLine(s[..k] + t) == AfterLine(s)[..k - LineLength(s, READ_LIMIT)] + t
  {
    var n := LineLength(s, READ_LIMIT);
    LineStays(s, k, t, READ_LIMIT);
    assert (s[..k] + t)[..n] == s[..n];
    assert (s[..k] + t)[n..] == s[n..][..k - n] + t;
  }

  lemma {:induction false} GrownLine(s: seq<byte>, t: seq<byte>)
    requires FirstLine(s) != [] && FirstLine(s)[|FirstLine(s)| - 1] == LF
    ensures FirstLine(s + t) == FirstLine(s) && AfterLine(s + t) == AfterLine(s) + t
  {
    SameLine(s, |s|, t);
    assert s[..|s|] == s && AfterLine(s)[..|AfterLine(s)|] == AfterLine(s);
  }

  /** Every truncation of an accepted stream is refused as incomplete, after a prefix of the
      same records. */
  lemma {:induction false} TruncatedRun(env: Env, r: Reader, s: seq<byte>, k: nat)
    requires Terminated(env) && |r.counts| == |r.schema| && k < |s| && Run(env, r, s).end.Ok?
    ensures Run(env, r, s[..k]).end == Err(Incomplete)
    ensures Run(env, r, s[..k]).records <= Run(env, r, s).records
    decreases |s|
  {
    var n := LineLength(s, READ_LIMIT);
    if k < n {
      CutLine(env, s, k);
    } else {
      SameLine(s, k, []);
      assert s[..k] + [] == s[..k];
      assert AfterLine(s)[..k - n] + [] == AfterLine(s)[..k - n];
      TruncatedRun(env, Next(env, r, s).next, AfterLine(s), k - n);
    }
  }

  /** Every extension is refused for its trailer, after the same records. */
  lemma {:induction false} ExtendedRun(env: Env, r: Reader, s: seq<byte>, t: seq<byte>)
    requires Terminated(env) && |r.counts| == |r.schema| && t != [] && Run(env, r, s).end.Ok?
    ensures Run(env, r, s + t).end == Err(BadTrailer) && Run(env, r, s + t).records == Run(env, r, s).records
    decreases |s|
  {
    GrownLine(s, t);
    if Next(env, r, s).Row? { ExtendedRun(env, Next(env, r, s).next, AfterLine(s), t); }
  }

  lemma {:induction false} TruncatedIsIncomplete(env: Env, s: seq<byte>, k: nat)
    requires Terminated(env) && Verdict(env, s).Ok? && k < |s|
    ensures Verdict(env, s[..k]) == Err(Incomplete)
  {
    var n := LineLength(s, READ_LIMIT);
    if k < n {
      CutLine(env, s, k);
    } else {
      SameLine(s, k, []);
      assert s[..k] + [] == s[..k];
      assert AfterLine(s)[..k - n] + [] == AfterLine(s)[..k - n];
      TruncatedRun(env, Open(env, s).value.1, AfterLine(s), k - n);
    }
  }

  lemma {:induction false} ExtendedIsRefused(env: Env, s: seq<byte>, t: seq<byte>)
    requires Terminated(env) && Verdict(env, s).Ok? && t != []
    ensures Verdict(env, s + t) == Err(BadTrailer)
  {
    assert Open(env, s + t) == Open(env, s) && AfterLine(s + t) == AfterLine(s) + t by { GrownLine(s, t); }
    ExtendedRun(env, Open(env, s).value.1, AfterLine(s), t);
  }

  /** The accepted streams are prefix-free. */
  lemma {:induction false} PrefixFree(env: Env, s: seq<byte>, t: seq<byte>)
    requires Standard(env) && Verdict(env, s).Ok? && Verdict(env, t).Ok? && s <= t
    ensures s == t
  {
    StandardTerminates(env);
    if |s| < |t| {
      assert s == t[..|s|];
      TruncatedIsIncomplete(env, t, |s|);
    }
  }
}
