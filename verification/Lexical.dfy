/** The sink's lexical walk: no space or control byte outside a JSON string (docker/pf_sink.py). */
module Lexical {
  import opened Bytes
  import opened Json
  import opened JsonWriter
  import Utf8

  datatype Scan = Outside | Inside | Escaped | Rejected

  function Step(state: Scan, b: int): Scan {
    match state
    case Rejected => Rejected
    case Escaped => Inside
    case Inside => if b == 0x5C then Escaped else if b == 0x22 then Outside else Inside
    case Outside => if b == 0x22 then Inside else if b <= 0x20 then Rejected else Outside
  }

  function Walk(s: seq<int>, state: Scan): Scan {
    if s == [] then state else Walk(s[1..], Step(state, s[0]))
  }

  lemma {:induction false} NothingToReject(s: seq<int>, state: Scan)
    requires state != Rejected && forall i | 0 <= i < |s| :: s[i] > 0x20
    ensures Walk(s, state) != Rejected
    decreases |s|
  {
    if s != [] {
      assert forall i | 0 <= i < |s[1..]| :: s[1..][i] == s[i + 1];
      NothingToReject(s[1..], Step(state, s[0]));
    }
  }

  lemma {:induction false} StaysRejected(s: seq<int>)
    ensures Walk(s, Rejected) == Rejected
  {
    if s != [] { StaysRejected(s[1..]); }
  }

  /** The walk, skipped when there is nothing it could reject. */
  method LexicalWalk(body: seq<byte>) returns (ok: bool)
    ensures ok <==> Walk(body, Outside) != Rejected
  {
    if forall i | 0 <= i < |body| :: body[i] > 0x20 {
      NothingToReject(body, Outside);
      return true;
    }
    var quoted, escaped := false, false;
    for i := 0 to |body|
      invariant escaped ==> quoted
      invariant Walk(body, Outside) == Walk(body[i..], if escaped then Escaped else if quoted then Inside else Outside)
    {
      var b := body[i];
      assert body[i..][1..] == body[i + 1..];
      if quoted {
        if escaped { escaped := false; }
        else if b == 0x5C { escaped := true; }
        else if b == 0x22 { quoted := false; }
      } else if b == 0x22 {
        quoted := true;
      } else if b <= 0x20 {
        StaysRejected(body[i + 1..]);
        return false;
      }
    }
    ok := true;
  }

  lemma {:induction false} WalkThen(a: seq<int>, b: seq<int>, state: Scan)
    ensures Walk(a + b, state) == Walk(b, Walk(a, state))
    decreases |a|
  {
    if a == [] {
      assert a + b == b;
    } else {
      assert (a + b)[1..] == a[1..] + b;
      WalkThen(a[1..], b, Step(state, a[0]));
    }
  }

  /** Encoding as UTF-8 is invisible to the walk. */
  lemma {:induction false} WalkEncoded(s: Text, state: Scan)
    requires Scalars(s)
    ensures Walk(Utf8.EncodeAll(s), state) == Walk(s, state)
    decreases |s|
  {
    if s != [] {
      var first := Utf8.Encode(s[0]);
      WalkThen(first, Utf8.EncodeAll(s[1..]), state);
      WalkPoint(s[0], state);
      WalkEncoded(s[1..], Step(state, s[0]));
    }
  }

  lemma {:induction false} WalkTrail(s: seq<int>, state: Scan)
    requires state != Escaped && forall i | 0 <= i < |s| :: s[i] >= 0x80
    ensures Walk(s, state) == state
    decreases |s|
  {
    if s != [] {
      assert forall i | 0 <= i < |s[1..]| :: s[1..][i] == s[i + 1];
      WalkTrail(s[1..], state);
    }
  }

  lemma {:induction false} WalkPoint(c: point, state: Scan)
    requires !IsSurrogate(c)
    ensures Walk(Utf8.Encode(c), state) == Step(state, c)
  {
    var s := Utf8.Encode(c);
    assert forall i | 0 <= i < |s[1..]| :: s[1..][i] == s[i + 1];
    if c < 0x80 { assert s[1..] == []; } else { WalkTrail(s[1..], Step(state, s[0])); }
  }

  // A spelled value keeps to one line and passes the walk

  predicate Plain(s: Text) { forall i | 0 <= i < |s| :: s[i] >= 0x20 && !IsSurrogate(s[i]) }

  predicate Passes(s: Text) { Plain(s) && Walk(s, Outside) == Outside }

  lemma {:induction false} PassesThen(a: Text, b: Text)
    requires Passes(a) && Passes(b)
    ensures Passes(a + b)
  {
    WalkThen(a, b, Outside);
  }

  predicate Bare(c: point) { 0x20 < c < 0x80 && c != QUOTE }

  lemma {:induction false} BarePasses(s: Text)
    requires forall i | 0 <= i < |s| :: Bare(s[i])
    ensures Passes(s)
  {
    if s != [] {
      assert Bare(s[0]);
      assert forall i | 0 <= i < |s[1..]| :: s[1..][i] == s[i + 1];
      BarePasses(s[1..]);
      assert forall i | 0 < i < |s| :: s[i] == s[1..][i - 1];
    }
  }

  lemma {:induction false} RunIsBare(s: Text)
    ensures forall i | 0 <= i < DigitRun(s) :: Bare(s[i])
  {
    if s != [] && IsDigit(s[0]) {
      RunIsBare(s[1..]);
      assert forall i | 0 < i < |s| :: s[i] == s[1..][i - 1];
    }
  }

  lemma {:induction false} TailIsBare(s: Text)
    ensures forall i | 0 <= i < TailLength(s) :: Bare(s[i])
  {
    var fraction := FractionLength(s);
    if fraction > 0 {
      RunIsBare(s[1..]);
      assert forall i | 0 < i < fraction :: s[i] == s[1..][i - 1];
    }
    ExponentIsBare(s[fraction..]);
    assert forall i | fraction <= i < |s| :: s[i] == s[fraction..][i - fraction];
  }

  lemma {:induction false} ExponentIsBare(s: Text)
    ensures forall i | 0 <= i < ExponentLength(s) :: Bare(s[i])
  {
    if ExponentLength(s) > 0 {
      var signed := if |s| > 1 && (s[1] == 43 || s[1] == 45) then 2 else 1;
      RunIsBare(s[signed..]);
      assert forall i | signed <= i < |s| :: s[i] == s[signed..][i - signed];
    }
  }

  lemma {:induction false} NumberIsBare(s: Text)
    ensures forall i | 0 <= i < NumberLength(s) :: Bare(s[i])
  {
    var whole := IntegerLength(s);
    RunIsBare(s);
    TailIsBare(s[whole..]);
    assert forall i | whole <= i < |s| :: s[i] == s[whole..][i - whole];
  }

  lemma {:induction false} FloatPasses(token: Text)
    requires FloatToken(token)
    ensures Passes(token)
  {
    if Starts(token, MINUS) {
      NumberIsBare(token[1..]);
      assert forall i | 0 < i < |token| :: token[i] == token[1..][i - 1];
    } else {
      NumberIsBare(token);
    }
    BarePasses(token);
  }

  lemma {:induction false} IntegerPasses(n: int)
    ensures Passes(Integer(n))
  {
    DecimalReads(if n < 0 then -n else n);
    BarePasses(Integer(n));
  }

  lemma {:induction false} PointPasses(c: point)
    requires !IsSurrogate(c)
    ensures Plain(Spell(c)) && Walk(Spell(c), Inside) == Inside
  {
    var s := Spell(c);
    if |s| > 1 {
      assert Walk(s, Inside) == Walk(s[1..], Escaped);
      assert Walk(s[1..], Escaped) == Walk(s[2..], Inside);
      if |s| > 2 { WalkHex(s[2..]); }
    }
  }

  lemma {:induction false} WalkHex(s: Text)
    requires forall i | 0 <= i < |s| :: s[i] != 0x22 && s[i] != 0x5C
    ensures Walk(s, Inside) == Inside
  {
    if s != [] {
      assert forall i | 0 <= i < |s[1..]| :: s[1..][i] == s[i + 1];
      WalkHex(s[1..]);
    }
  }

  lemma {:induction false} SpellPasses(s: Text)
    requires Scalars(s)
    ensures Plain(SpellAll(s)) && Walk(SpellAll(s), Inside) == Inside
  {
    if s != [] {
      PointPasses(s[0]);
      SpellPasses(s[1..]);
      WalkThen(Spell(s[0]), SpellAll(s[1..]), Inside);
    }
  }

  lemma {:induction false} QuotedPasses(s: Text)
    requires Scalars(s)
    ensures Passes(Quoted(s))
  {
    SpellPasses(s);
    assert Quoted(s)[1..] == SpellAll(s) + [QUOTE];
    WalkThen(SpellAll(s), [QUOTE], Inside);
    assert Walk([QUOTE], Inside) == Walk([QUOTE][1..], Outside);
  }

  lemma {:induction false} MarkPasses(c: point)
    requires Bare(c)
    ensures Passes([c])
  {
    BarePasses([c]);
  }

  lemma {:induction false} EncodePasses(v: Json)
    requires Writable(v)
    ensures Passes(Encode(v))
    decreases v
  {
    match v {
      case Null => BarePasses(NULL_WORD);
      case Bool(flag) => BarePasses(if flag then TRUE_WORD else FALSE_WORD);
      case Int(n) => IntegerPasses(n);
      case Float(token) => FloatPasses(token);
      case Str(s) => QuotedPasses(s);
      case Arr(items) =>
        ItemsPass(items);
        MarkPasses(OPEN_ARRAY);
        MarkPasses(CLOSE_ARRAY);
        PassesThen([OPEN_ARRAY], EncodeItems(items));
        PassesThen([OPEN_ARRAY] + EncodeItems(items), [CLOSE_ARRAY]);
      case Obj(members) =>
        MembersPass(members);
        MarkPasses(OPEN_OBJECT);
        MarkPasses(CLOSE_OBJECT);
        PassesThen([OPEN_OBJECT], EncodeMembers(members));
        PassesThen([OPEN_OBJECT] + EncodeMembers(members), [CLOSE_OBJECT]);
    }
  }

  lemma {:induction false} ItemsPass(items: seq<Json>)
    requires forall i | 0 <= i < |items| :: Writable(items[i])
    ensures Passes(EncodeItems(items))
    decreases items
  {
    if items == [] {
      BarePasses([]);
    } else {
      EncodePasses(items[0]);
      if |items| > 1 {
        ItemsPass(items[1..]);
        MarkPasses(COMMA);
        PassesThen(Encode(items[0]), [COMMA]);
        PassesThen(Encode(items[0]) + [COMMA], EncodeItems(items[1..]));
      }
    }
  }

  lemma {:induction false} MemberPasses(m: Member)
    requires Scalars(m.key) && Passes(Encode(m.value))
    ensures Passes(EncodeMember(m))
  {
    QuotedPasses(m.key);
    MarkPasses(COLON);
    PassesThen(Quoted(m.key), [COLON]);
    PassesThen(Quoted(m.key) + [COLON], Encode(m.value));
  }

  lemma {:induction false} MembersPass(members: seq<Member>)
    requires forall i | 0 <= i < |members| :: Scalars(members[i].key) && Writable(members[i].value)
    ensures Passes(EncodeMembers(members))
    decreases members
  {
    if members == [] {
      BarePasses([]);
    } else {
      EncodePasses(members[0].value);
      MemberPasses(members[0]);
      if |members| > 1 {
        MembersPass(members[1..]);
        MarkPasses(COMMA);
        PassesThen(EncodeMember(members[0]), [COMMA]);
        PassesThen(EncodeMember(members[0]) + [COMMA], EncodeMembers(members[1..]));
      }
    }
  }
}
