/** Which lines a sink reader takes, and for what: the spelling of a value of RFC 8259 without any
    insignificant space, in UTF-8, ended by a line feed. */
module SinkLine {
  import opened Bytes
  import opened ColumnItems
  import opened Json
  import opened JsonComplete
  import opened JsonGrammar
  import opened JsonWriter
  import opened Lexical
  import opened Options
  import opened SinkFormat
  import Utf8

  // ----- the lexical walk lets exactly the tight spellings through

  predicate Neutral(s: Text) { Walk(s, Outside) == Outside }

  predicate Refused(s: Text) { Walk(s, Outside) == Rejected }

  lemma {:induction false} NeutralThen(a: Text, b: Text)
    ensures Neutral(a) ==> Walk(a + b, Outside) == Walk(b, Outside)
    ensures Refused(a) ==> Refused(a + b)
  {
    WalkThen(a, b, Outside);
    if Refused(a) { StaysRejected(b); }
  }

  lemma {:induction false} GapWalks(gap: Text)
    requires Gap(gap)
    ensures if gap == [] then Neutral(gap) else Refused(gap)
  {
    if gap != [] { StaysRejected(gap[1..]); }
  }

  lemma {:induction false} MarkWalks(c: point)
    requires Bare(c)
    ensures Neutral([c])
  {
    MarkPasses(c);
  }

  /** An escape: the character behind the backslash is skipped, and no quote follows. */
  lemma {:induction false} EscapeWalks(s: Text)
    requires |s| >= 2 && s[0] == 0x5C && forall i | 2 <= i < |s| :: s[i] != 0x22 && s[i] != 0x5C
    ensures Walk(s, Inside) == Inside
  {
    assert Walk(s, Inside) == Walk(s[1..], Escaped) == Walk(s[1..][1..], Inside);
    WalkHex(s[1..][1..]);
  }

  lemma {:induction false} HexWalks(s: Text, c: point)
    requires IsHexEscape(s, c)
    ensures Walk(s, Inside) == Inside
  {
    var a, b, d, e :| AreHex(s[2..], a, b, d, e) && c == a * 4096 + b * 256 + d * 16 + e;
    forall i | 2 <= i < |s| ensures s[i] != 0x22 && s[i] != 0x5C { assert s[i] == s[2..][i - 2]; }
    EscapeWalks(s);
  }

  lemma {:induction false} ShortWalks(s: Text, c: point)
    requires IsShort(s, c)
    ensures Walk(s, Inside) == Inside
  {
    EscapeWalks(s);
  }

  lemma {:induction false} UnitWalks(s: Text, c: point)
    requires IsUnit(s, c)
    ensures Walk(s, Inside) == Inside
  {
    if IsItself(s, c) {
      assert s[1..] == [];
    } else if IsShort(s, c) {
      ShortWalks(s, c);
    } else {
      HexWalks(s, c);
    }
  }

  lemma {:induction false} UnitsWalk(pieces: seq<Text>, units: Text)
    requires AreUnits(pieces, units)
    ensures Walk(Concat(pieces), Inside) == Inside
    decreases |pieces|
  {
    if pieces != [] {
      UnitWalks(pieces[0], units[0]);
      UnitsWalk(pieces[1..], units[1..]);
      WalkThen(pieces[0], Concat(pieces[1..]), Inside);
    }
  }

  lemma {:induction false} StringWalks(s: Text, points: Text)
    requires IsString(s, points)
    ensures Neutral(s)
  {
    var pieces: seq<Text>, units: Text, parts: seq<Text> :| StringIs(s, points, pieces, units, parts);
    UnitsWalk(pieces, units);
    assert s[1..] == Concat(pieces) + [0x22];
    WalkThen(Concat(pieces), [0x22], Inside);
    assert Walk([0x22], Inside) == Walk([0x22][1..], Outside);
  }

  lemma {:induction false} DigitsAreBare(s: Text)
    requires IsDigits(s)
    ensures forall i | 0 <= i < |s| :: Bare(s[i])
  {
  }

  lemma {:induction false} FracIsBare(s: Text)
    requires s == [] || IsFrac(s)
    ensures forall i | 0 <= i < |s| :: Bare(s[i])
  {
    if s != [] {
      DigitsAreBare(s[1..]);
      assert forall i | 0 < i < |s| :: s[i] == s[1..][i - 1];
    }
  }

  lemma {:induction false} ExpIsBare(s: Text)
    requires s == [] || IsExp(s)
    ensures forall i | 0 <= i < |s| :: Bare(s[i])
  {
    if s != [] {
      var n := if IsDigits(s[1..]) then 1 else 2;
      DigitsAreBare(s[n..]);
      assert forall i | n <= i < |s| :: s[i] == s[n..][i - n];
    }
  }

  lemma {:induction false} NumberWalks(s: Text, v: Json)
    requires IsNumber(s, v)
    ensures Neutral(s)
  {
    var minus: bool, whole: Text, frac: Text, exp: Text :| NumberIs(s, v, minus, whole, frac, exp);
    DigitsAreBare(whole);
    FracIsBare(frac);
    ExpIsBare(exp);
    BarePasses(s);
  }

  lemma {:induction false} WordWalks(s: Text, v: Json, gaps: bool)
    requires (v.Null? || v.Bool? || v.Constant?) && IsValue(s, v, gaps)
    ensures Neutral(s)
  {
    WordsAreSpelled();
    BarePasses(s);
  }

  lemma {:induction false} JoinWalks(pieces: seq<Text>)
    requires forall i | 0 <= i < |pieces| :: Neutral(pieces[i]) || Refused(pieces[i])
    ensures Neutral(Join(pieces)) || Refused(Join(pieces))
    ensures Neutral(Join(pieces)) <==> forall i | 0 <= i < |pieces| :: Neutral(pieces[i])
    decreases |pieces|
  {
    if |pieces| > 1 {
      JoinWalks(pieces[1..]);
      MarkWalks(COMMA);
      NeutralThen(pieces[0], [COMMA]);
      NeutralThen(pieces[0] + [COMMA], Join(pieces[1..]));
      assert forall i | 0 < i < |pieces| :: pieces[i] == pieces[1..][i - 1];
      assert forall i | 0 <= i < |pieces[1..]| :: pieces[1..][i] == pieces[i + 1];
    }
  }

  lemma {:induction false} BracketWalks(open: point, inner: Text, close: point)
    requires Bare(open) && Bare(close) && (Neutral(inner) || Refused(inner))
    ensures Neutral([open] + (inner + [close])) <==> Neutral(inner)
    ensures Refused([open] + (inner + [close])) <==> Refused(inner)
  {
    MarkWalks(open);
    MarkWalks(close);
    NeutralThen([open], inner + [close]);
    NeutralThen(inner, [close]);
  }

  lemma {:induction false} PaddedWalks(s: Text, v: Json)
    requires IsPadded(s, v, true)
    ensures Neutral(s) || Refused(s)
    ensures Neutral(s) ==> IsPadded(s, v, false)
    decreases v, 2
  {
    var lead: Text, body: Text, trail: Text :| PaddedIs(s, v, lead, body, trail, true);
    ValueWalks(body, v);
    GapWalks(lead);
    GapWalks(trail);
    NeutralThen(lead, body + trail);
    NeutralThen(body, trail);
    if Neutral(s) {
      assert s == [] + (body + []);
      assert PaddedIs(s, v, [], body, [], false);
    }
  }

  lemma {:induction false} MemberWalks(s: Text, m: Member)
    requires IsMember(s, m, true)
    ensures Neutral(s) || Refused(s)
    ensures Neutral(s) ==> IsMember(s, m, false)
    decreases m, 0
  {
    var lead: Text, key: Text, gap: Text, value: Text :| MemberIs(s, m, lead, key, gap, value, true);
    PaddedWalks(value, m.value);
    StringWalks(key, m.key);
    GapWalks(lead);
    GapWalks(gap);
    MarkWalks(COLON);
    NeutralThen(lead, key + (gap + ([COLON] + value)));
    NeutralThen(key, gap + ([COLON] + value));
    NeutralThen(gap, [COLON] + value);
    NeutralThen([COLON], value);
    if Neutral(s) { assert MemberIs(s, m, lead, key, gap, value, false); }
  }

  /** What the walk lets through of a value's spelling has no gaps. */
  lemma {:induction false} ValueWalks(s: Text, v: Json)
    requires IsValue(s, v, true)
    ensures Neutral(s) || Refused(s)
    ensures Neutral(s) ==> IsValue(s, v, false)
    decreases v, 1
  {
    match v {
      case Int(_) => NumberWalks(s, v);
      case Float(_) => NumberWalks(s, v);
      case Str(points) => StringWalks(s, points);
      case Arr(items) => ArrayWalks(s, items);
      case Obj(members) => ObjectWalks(s, members);
      case _ => WordWalks(s, v, true);
    }
  }

  lemma {:induction false} EmptyWalks(open: point, gap: Text, close: point)
    requires Bare(open) && Bare(close) && Gap(gap)
    ensures if gap == [] then Neutral([open] + (gap + [close])) else Refused([open] + (gap + [close]))
  {
    GapWalks(gap);
    BracketWalks(open, gap, close);
  }

  lemma {:induction false} ArrayWalks(s: Text, items: seq<Json>)
    requires IsValue(s, Arr(items), true)
    ensures Neutral(s) || Refused(s)
    ensures Neutral(s) ==> IsValue(s, Arr(items), false)
    decreases items, 3
  {
    if items == [] {
      var gap :| Gap(gap) && s == [0x5B] + (gap + [0x5D]);
      EmptyWalks(0x5B, gap, 0x5D);
      assert GapOk(gap, false) <==> gap == [];
    } else {
      var pieces: seq<Text> :| s == [0x5B] + (Join(pieces) + [0x5D]) && AreItems(pieces, items, true);
      forall i | 0 <= i < |pieces|
        ensures Neutral(pieces[i]) || Refused(pieces[i])
        ensures Neutral(pieces[i]) ==> IsPadded(pieces[i], items[i], false)
      {
        PaddedWalks(pieces[i], items[i]);
      }
      JoinWalks(pieces);
      BracketWalks(0x5B, Join(pieces), 0x5D);
      if Neutral(s) { assert AreItems(pieces, items, false); }
    }
  }

  lemma {:induction false} ObjectWalks(s: Text, members: seq<Member>)
    requires IsValue(s, Obj(members), true)
    ensures Neutral(s) || Refused(s)
    ensures Neutral(s) ==> IsValue(s, Obj(members), false)
    decreases members, 3
  {
    if members == [] {
      var gap :| Gap(gap) && s == [0x7B] + (gap + [0x7D]);
      EmptyWalks(0x7B, gap, 0x7D);
      assert GapOk(gap, false) <==> gap == [];
    } else {
      var pieces: seq<Text> :| s == [0x7B] + (Join(pieces) + [0x7D]) && AreMembers(pieces, members, true);
      forall i | 0 <= i < |pieces|
        ensures Neutral(pieces[i]) || Refused(pieces[i])
        ensures Neutral(pieces[i]) ==> IsMember(pieces[i], members[i], false)
      {
        MemberWalks(pieces[i], members[i]);
      }
      JoinWalks(pieces);
      BracketWalks(0x7B, Join(pieces), 0x7D);
      if Neutral(s) { assert AreMembers(pieces, members, false); }
    }
  }

  /** A spelling without gaps passes. */
  lemma {:induction false} TightWalks(s: Text, v: Json)
    requires IsValue(s, v, false)
    ensures Neutral(s)
    decreases v, 0
  {
    match v {
      case Int(_) => NumberWalks(s, v);
      case Float(_) => NumberWalks(s, v);
      case Str(points) => StringWalks(s, points);
      case Arr(items) => TightArrayWalks(s, items);
      case Obj(members) => TightObjectWalks(s, members);
      case _ => WordWalks(s, v, false);
    }
  }

  lemma {:induction false} TightArrayWalks(s: Text, items: seq<Json>)
    requires IsValue(s, Arr(items), false)
    ensures Neutral(s)
    decreases items, 3
  {
    if items == [] {
      EmptyWalks(0x5B, [], 0x5D);
    } else {
      var pieces: seq<Text> :| s == [0x5B] + (Join(pieces) + [0x5D]) && AreItems(pieces, items, false);
      forall i | 0 <= i < |pieces| ensures Neutral(pieces[i]) { TightPaddedWalks(pieces[i], items[i]); }
      JoinWalks(pieces);
      BracketWalks(0x5B, Join(pieces), 0x5D);
    }
  }

  lemma {:induction false} TightObjectWalks(s: Text, members: seq<Member>)
    requires IsValue(s, Obj(members), false)
    ensures Neutral(s)
    decreases members, 3
  {
    if members == [] {
      EmptyWalks(0x7B, [], 0x7D);
    } else {
      var pieces: seq<Text> :| s == [0x7B] + (Join(pieces) + [0x7D]) && AreMembers(pieces, members, false);
      forall i | 0 <= i < |pieces| ensures Neutral(pieces[i]) { TightMemberWalks(pieces[i], members[i]); }
      JoinWalks(pieces);
      BracketWalks(0x7B, Join(pieces), 0x7D);
    }
  }

  lemma {:induction false} TightPaddedWalks(s: Text, v: Json)
    requires IsPadded(s, v, false)
    ensures Neutral(s)
    decreases v, 1
  {
    var lead: Text, body: Text, trail: Text :| PaddedIs(s, v, lead, body, trail, false);
    assert s == body;
    TightWalks(body, v);
  }

  lemma {:induction false} TightMemberWalks(s: Text, m: Member)
    requires IsMember(s, m, false)
    ensures Neutral(s)
    decreases m, 0
  {
    var lead: Text, key: Text, gap: Text, value: Text :| MemberIs(s, m, lead, key, gap, value, false);
    assert s == key + ([COLON] + value);
    TightPaddedWalks(value, m.value);
    StringWalks(key, m.key);
    MarkWalks(COLON);
    NeutralThen(key, [COLON] + value);
    NeutralThen([COLON], value);
  }

  /** Without gaps is a special case of with gaps. */
  lemma {:induction false} Loosened(s: Text, v: Json)
    requires IsValue(s, v, false)
    ensures IsValue(s, v, true)
    decreases v, 0
  {
    match v {
      case Arr(items) =>
        if items != [] {
          var pieces: seq<Text> :| s == [0x5B] + (Join(pieces) + [0x5D]) && AreItems(pieces, items, false);
          forall i | 0 <= i < |items| ensures IsPadded(pieces[i], items[i], true) {
            LoosenedPadded(pieces[i], items[i]);
          }
          assert AreItems(pieces, items, true);
        }
      case Obj(members) =>
        if members != [] {
          var pieces: seq<Text> :| s == [0x7B] + (Join(pieces) + [0x7D]) && AreMembers(pieces, members, false);
          forall i | 0 <= i < |members| ensures IsMember(pieces[i], members[i], true) {
            LoosenedMember(pieces[i], members[i]);
          }
          assert AreMembers(pieces, members, true);
        }
      case _ =>
    }
  }

  lemma {:induction false} LoosenedPadded(s: Text, v: Json)
    requires IsPadded(s, v, false)
    ensures IsPadded(s, v, true)
    decreases v, 1
  {
    var lead: Text, body: Text, trail: Text :| PaddedIs(s, v, lead, body, trail, false);
    Loosened(body, v);
    assert PaddedIs(s, v, lead, body, trail, true);
  }

  lemma {:induction false} LoosenedMember(s: Text, m: Member)
    requires IsMember(s, m, false)
    ensures IsMember(s, m, true)
    decreases m, 0
  {
    var lead: Text, key: Text, gap: Text, value: Text :| MemberIs(s, m, lead, key, gap, value, false);
    LoosenedPadded(value, m.value);
    assert MemberIs(s, m, lead, key, gap, value, true);
  }

  // ----- values a line may hold

  /** The value found by following positions inward, if there is one. */
  function At(v: Json, path: seq<nat>): Option<Json>
    decreases |path|
  {
    if path == [] then Some(v)
    else if v.Arr? && path[0] < |v.items| then At(v.items[path[0]], path[1..])
    else if v.Obj? && path[0] < |v.members| then At(v.members[path[0]].value, path[1..])
    else None
  }

  /** An exact integer, a finite double, no constant, and no key twice. */
  ghost predicate NodeOk(env: Env, v: Json) {
    && (v.Int? ==> -9007199254740991 <= v.value <= 9007199254740991)
    && (v.Float? ==> env.finite(v.token))
    && !v.Constant?
    && (v.Obj? ==> forall i, j | 0 <= i < j < |v.members| :: v.members[i].key != v.members[j].key)
  }

  ghost predicate NodesOk(env: Env, v: Json) {
    forall path: seq<nat> :: At(v, path).Some? ==> NodeOk(env, At(v, path).value)
  }

  lemma {:induction false} AcceptableNode(env: Env, v: Json, path: seq<nat>)
    requires Acceptable(env, v) && At(v, path).Some?
    ensures NodeOk(env, At(v, path).value)
    decreases |path|
  {
    if path != [] {
      AcceptableNode(env, if v.Arr? then v.items[path[0]] else v.members[path[0]].value, path[1..]);
    }
  }

  lemma {:induction false} InnerNodes(env: Env, v: Json, inner: Json, i: nat)
    requires NodesOk(env, v)
    requires || (v.Arr? && i < |v.items| && inner == v.items[i])
             || (v.Obj? && i < |v.members| && inner == v.members[i].value)
    ensures NodesOk(env, inner)
  {
    forall path: seq<nat> | At(inner, path).Some? ensures NodeOk(env, At(inner, path).value) {
      assert ([i] + path)[1..] == path;
      assert At(v, [i] + path) == At(inner, path);
    }
  }

  lemma {:induction false} NodesAreAcceptable(env: Env, v: Json)
    requires NodesOk(env, v)
    ensures Acceptable(env, v)
    decreases v
  {
    assert At(v, []).Some?;
    assert NodeOk(env, v);
    if v.Arr? {
      forall i | 0 <= i < |v.items| ensures Acceptable(env, v.items[i]) {
        InnerNodes(env, v, v.items[i], i);
        NodesAreAcceptable(env, v.items[i]);
      }
    } else if v.Obj? {
      forall i | 0 <= i < |v.members| ensures Acceptable(env, v.members[i].value) {
        InnerNodes(env, v, v.members[i].value, i);
        NodesAreAcceptable(env, v.members[i].value);
      }
    }
  }

  lemma {:induction false} AcceptableIs(env: Env, v: Json)
    ensures Acceptable(env, v) <==> NodesOk(env, v)
  {
    if Acceptable(env, v) {
      forall path: seq<nat> | At(v, path).Some? ensures NodeOk(env, At(v, path).value) { AcceptableNode(env, v, path); }
    }
    if NodesOk(env, v) { NodesAreAcceptable(env, v); }
  }

  // ----- one line

  /** The line of this text, which spells this value tightly. */
  ghost predicate LineIs(env: Env, line: seq<byte>, text: Text, v: Json) {
    && Scalars(text) && line == Utf8.EncodeAll(text) + [10] && |line| <= 1048576
    && IsValue(text, v, false) && NodesOk(env, v)
  }

  /** A value starts with an ASCII character. */
  lemma {:induction false} StartsAscii(text: Text)
    requires ParseValue(text).Got?
    ensures text != [] && text[0] < 0x80
  {
  }

  lemma {:induction false} NoMark(text: Text)
    requires Scalars(text) && ParseValue(text).Got?
    ensures Utf8.EncodeAll(text) != [] && !(BOM <= Utf8.EncodeAll(text))
  {
    StartsAscii(text);
    assert Utf8.EncodeAll(text)[0] == text[0];
  }

  lemma {:induction false} WholeText(text: Text, v: Json)
    requires Walk(text, Outside) != Rejected
    ensures Loads(text) == Some(v) <==> IsValue(text, v, false)
  {
    if Loads(text) == Some(v) {
      var lead := SkippedIsGap(text);
      NeutralThen(lead, SkipSpace(text));
      GapWalks(lead);
      assert text == SkipSpace(text);
      var body := ValueIsRead(text);
      var rest := ParseValue(text).rest;
      var trail := SkippedIsGap(rest);
      assert rest == trail + [] == trail;
      ValueWalks(body, v);
      NeutralThen(body, rest);
      GapWalks(rest);
      assert text == body;
    }
    if IsValue(text, v, false) {
      Loosened(text, v);
      Reads(text, v);
    }
  }

  lemma {:induction false} BodyIsExact(env: Env, text: Text, v: Json)
    requires Scalars(text)
    ensures ParseBody(env, Utf8.EncodeAll(text)) == Ok(v) <==> IsValue(text, v, false) && NodesOk(env, v)
  {
    var body := Utf8.EncodeAll(text);
    WalkEncoded(text, Outside);
    Utf8.DecodeReads(text);
    AcceptableIs(env, v);
    if Walk(text, Outside) != Rejected { WholeText(text, v); }
    if IsValue(text, v, false) {
      TightWalks(text, v);
      Loosened(text, v);
      Reads(text, v);
      NoMark(text);
    }
  }

  /** A line is taken for a value exactly when it is at most 1 MiB of strict UTF-8, ended by its one
      line feed, that spells the value without insignificant space, and nothing in the value is out
      of bounds. */
  lemma {:induction false} LineIsExact(env: Env, line: seq<byte>, v: Json)
    requires Standard(env)
    ensures env.parse(line) == Ok(v) <==> exists text :: LineIs(env, line, text, v)
  {
    if env.parse(line) == Ok(v) { TakenIsLine(env, line, v); }
    if text :| LineIs(env, line, text, v) { LineIsTaken(env, line, text, v); }
  }

  lemma {:induction false} TakenIsLine(env: Env, line: seq<byte>, v: Json)
    requires Standard(env) && env.parse(line) == Ok(v)
    ensures exists text :: LineIs(env, line, text, v)
  {
    assert env.parse(line) == ParseLine(env, line);
    var body := line[..|line| - 1];
    Utf8.DecodeIs(body);
    var text := Utf8.Decode(body).value;
    BodyIsExact(env, text, v);
    assert line == body + [10];
    assert LineIs(env, line, text, v);
  }

  lemma {:induction false} LineIsTaken(env: Env, line: seq<byte>, text: Text, v: Json)
    requires Standard(env) && LineIs(env, line, text, v)
    ensures env.parse(line) == Ok(v)
  {
    assert env.parse(line) == ParseLine(env, line);
    BodyIsExact(env, text, v);
    assert line[..|line| - 1] == Utf8.EncodeAll(text);
  }
}
