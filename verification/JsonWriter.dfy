/** The compact spelling of a JSON value, as the sink's writer and the report's writer produce
    it, and the proof that the decoder reads it back. */
module JsonWriter {
  import opened Bytes
  import opened Json

  function Integer(n: int): Text {
    if n < 0 then [MINUS] + Decimal(-n) else Decimal(n)
  }

  function HexDigit(n: int): point
    requires 0 <= n < 16
  {
    if n < 10 then 48 + n else 87 + n
  }

  /** Quotes, backslashes and control characters are escaped, all else stands for itself. */
  function Spell(c: point): Text {
    if c == QUOTE || c == BACKSLASH then [BACKSLASH, c]
    else if c < 32 then [BACKSLASH, 117, 48, 48, HexDigit(c / 16), HexDigit(c % 16)]
    else [c]
  }

  function SpellAll(s: Text): Text {
    if s == [] then [] else Spell(s[0]) + SpellAll(s[1..])
  }

  function Quoted(s: Text): Text { [QUOTE] + SpellAll(s) + [QUOTE] }

  function Encode(v: Json): Text {
    match v
    case Null => NULL_WORD
    case Bool(flag) => if flag then TRUE_WORD else FALSE_WORD
    case Int(n) => Integer(n)
    case Float(token) => token
    case Constant(name) => name
    case Str(s) => Quoted(s)
    case Arr(items) => [OPEN_ARRAY] + EncodeItems(items) + [CLOSE_ARRAY]
    case Obj(members) => [OPEN_OBJECT] + EncodeMembers(members) + [CLOSE_OBJECT]
  }

  function EncodeItems(items: seq<Json>): Text {
    if items == [] then []
    else if |items| == 1 then Encode(items[0])
    else Encode(items[0]) + [COMMA] + EncodeItems(items[1..])
  }

  function EncodeMember(m: Member): Text { Quoted(m.key) + [COLON] + Encode(m.value) }

  function EncodeMembers(members: seq<Member>): Text {
    if members == [] then []
    else if |members| == 1 then EncodeMember(members[0])
    else EncodeMember(members[0]) + [COMMA] + EncodeMembers(members[1..])
  }

  predicate Scalars(s: Text) { forall i | 0 <= i < |s| :: !IsSurrogate(s[i]) }

  predicate FloatToken(token: Text) {
    var s := if Starts(token, MINUS) then token[1..] else token;
    s != [] && IsDigit(s[0]) && NumberLength(s) == |s| && IntegerLength(s) < |s|
  }

  /** Values a strict writer may be asked to spell. */
  predicate Writable(v: Json) {
    match v
    case Float(token) => FloatToken(token)
    case Constant(_) => false
    case Str(s) => Scalars(s)
    case Arr(items) => forall i | 0 <= i < |items| :: Writable(items[i])
    case Obj(members) => forall i | 0 <= i < |members| :: Scalars(members[i].key) && Writable(members[i].value)
    case _ => true
  }

  // Numbers

  lemma {:induction false} DecimalReads(n: nat)
    ensures var s := Decimal(n);
            && s != [] && (forall i | 0 <= i < |s| :: IsDigit(s[i]))
            && (s[0] == 48 <==> n == 0) && (n == 0 ==> |s| == 1) && Digits(s) == n
  {
    if n >= 10 {
      DecimalReads(n / 10);
      assert Decimal(n)[..|Decimal(n)| - 1] == Decimal(n / 10);
    } else {
      assert Decimal(n)[..0] == [];
    }
  }

  lemma {:induction false} AllDigitsRun(s: Text)
    requires forall i | 0 <= i < |s| :: IsDigit(s[i])
    ensures DigitRun(s) == |s|
  {
    if s != [] { AllDigitsRun(s[1..]); }
  }

  lemma {:induction false} DigitsOnly(s: Text)
    requires s != [] && (forall i | 0 <= i < |s| :: IsDigit(s[i])) && (s[0] == 48 ==> |s| == 1)
    ensures IntegerLength(s) == NumberLength(s) == |s|
  {
    AllDigitsRun(s);
    assert s[|s|..] == [];
  }

  lemma {:induction false} UnsignedReads(n: nat, negative: bool)
    ensures ParseUnsigned(Decimal(n), negative) == Got(Int(if negative then -(n as int) else n), [])
  {
    var s := Decimal(n);
    DecimalReads(n);
    DigitsOnly(s);
    assert s[..|s|] == s && s[|s|..] == [];
  }

  /** A text that starts like a number is decoded as one. */
  lemma {:induction false} PlainNumber(s: Text)
    requires s != [] && IsDigit(s[0])
    ensures ParseValue(s) == ParseUnsigned(s, false)
  {
    assert Numeric(s) && !Starts(s, QUOTE) && !Starts(s, OPEN_ARRAY) && !Starts(s, OPEN_OBJECT);
  }

  lemma {:induction false} MinusNumber(t: Text)
    requires |t| > 1 && t[0] == MINUS && IsDigit(t[1])
    ensures ParseValue(t) == ParseUnsigned(t[1..], true)
  {
    assert t[1..][0] == t[1];
    assert Numeric(t) && !Starts(t, QUOTE) && !Starts(t, OPEN_ARRAY) && !Starts(t, OPEN_OBJECT);
  }

  lemma {:induction false} NumberIsNumber(s: Text)
    requires s != [] && IsDigit(s[0])
    ensures ParseValue(s) == ParseUnsigned(s, false)
    ensures ParseValue([MINUS] + s) == ParseUnsigned(s, true)
  {
    PlainNumber(s);
    MinusNumber([MINUS] + s);
    assert ([MINUS] + s)[1..] == s;
  }

  lemma {:induction false} IntegerReads(n: int)
    ensures ParseValue(Integer(n)) == Got(Int(n), [])
  {
    var size := if n < 0 then -n else n;
    DecimalReads(size);
    NumberIsNumber(Decimal(size));
    UnsignedReads(size, n < 0);
  }

  lemma {:induction false} WholeNumber(s: Text, negative: bool)
    requires s != [] && NumberLength(s) == |s| && IntegerLength(s) < |s|
    ensures ParseUnsigned(s, negative) == Got(Float(if negative then [MINUS] + s else s), [])
  {
    assert s[..|s|] == s && s[|s|..] == [];
  }

  lemma {:induction false} FloatReads(token: Text)
    requires FloatToken(token)
    ensures ParseValue(token) == Got(Float(token), [])
  {
    var negative := Starts(token, MINUS);
    var s := if negative then token[1..] else token;
    NumberIsNumber(s);
    WholeNumber(s, negative);
    if negative { assert [MINUS] + s == token; }
  }

  // Strings

  lemma {:induction false} PointReads(c: point, more: Text)
    ensures ParseUnits(Spell(c) + more) == Prepend(c, ParseUnits(more))
  {
    var s := Spell(c) + more;
    if c == QUOTE || c == BACKSLASH {
      assert s[1..] == [c] + more;
      assert s[1..][1..] == more;
    } else if c < 32 {
      assert s[1..] == Spell(c)[1..] + more;
      assert s[1..][1..] == Spell(c)[2..] + more;
      assert s[1..][1..][4..] == more;
    } else {
      assert s[1..] == more;
    }
  }

  lemma {:induction false} UnitsRead(s: Text, more: Text)
    ensures ParseUnits(SpellAll(s) + [QUOTE] + more) == Got(s, more)
  {
    if s == [] {
      assert SpellAll(s) + [QUOTE] + more == [QUOTE] + more;
      assert ([QUOTE] + more)[1..] == more;
    } else {
      var tail := SpellAll(s[1..]) + [QUOTE] + more;
      assert SpellAll(s) + [QUOTE] + more == Spell(s[0]) + tail;
      PointReads(s[0], tail);
      UnitsRead(s[1..], more);
      assert [s[0]] + s[1..] == s;
    }
  }

  lemma {:induction false} ScalarsStayApart(s: Text)
    requires Scalars(s)
    ensures JoinPairs(s) == s
  {
    if |s| >= 2 {
      assert !IsSurrogate(s[0]);
      assert forall i | 0 <= i < |s[1..]| :: s[1..][i] == s[i + 1];
      ScalarsStayApart(s[1..]);
    }
  }

  lemma {:induction false} KeyReads(key: Text, more: Text)
    requires Scalars(key) && more != [] && !IsSpace(more[0])
    ensures ParseKey(Quoted(key) + [COLON] + more) == Got(key, more)
  {
    var s := Quoted(key) + [COLON] + more;
    assert s[1..] == SpellAll(key) + [QUOTE] + ([COLON] + more);
    UnitsRead(key, [COLON] + more);
    ScalarsStayApart(key);
    assert ([COLON] + more)[1..] == more;
  }

  // Values

  predicate Opens(s: Text) {
    s != [] && !IsSpace(s[0]) && s[0] != CLOSE_ARRAY && s[0] != CLOSE_OBJECT && s[0] != COMMA
  }

  lemma {:induction false} EncodeOpens(v: Json)
    requires Writable(v)
    ensures Opens(Encode(v))
  {
    match v {
      case Int(n) => DecimalReads(if n < 0 then -n else n);
      case _ =>
    }
  }

  lemma {:induction false} ArrayReads(t: Text, items: seq<Json>)
    requires Opens(t) && ParseItems(t) == Got(items, [])
    ensures ParseValue([OPEN_ARRAY] + t) == Got(Arr(items), [])
  {
    assert ([OPEN_ARRAY] + t)[1..] == t;
  }

  lemma {:induction false} ObjectReads(t: Text, members: seq<Member>)
    requires Opens(t) && ParseMembers(t) == Got(members, [])
    ensures ParseValue([OPEN_OBJECT] + t) == Got(Obj(members), [])
  {
    assert ([OPEN_OBJECT] + t)[1..] == t;
  }

  lemma {:induction false} EmptyReads()
    ensures ParseValue([OPEN_ARRAY] + [] + [CLOSE_ARRAY]) == Got(Arr([]), [])
    ensures ParseValue([OPEN_OBJECT] + [] + [CLOSE_OBJECT]) == Got(Obj([]), [])
  {
    assert ([OPEN_ARRAY] + [] + [CLOSE_ARRAY])[1..] == [CLOSE_ARRAY];
    assert ([OPEN_OBJECT] + [] + [CLOSE_OBJECT])[1..] == [CLOSE_OBJECT];
  }

  lemma {:induction false} StringReads(s: Text)
    requires Scalars(s)
    ensures ParseValue(Quoted(s)) == Got(Str(s), [])
  {
    assert Quoted(s)[1..] == SpellAll(s) + [QUOTE] + [];
    UnitsRead(s, []);
    ScalarsStayApart(s);
  }

  /** Decoding the spelling of a value yields the value and consumes all of it. */
  lemma {:induction false} ReadsBack(v: Json)
    requires Writable(v)
    ensures ParseValue(Encode(v)) == Got(v, [])
    decreases v
  {
    match v {
      case Null =>
      case Bool(_) =>
      case Int(n) => IntegerReads(n);
      case Float(token) => FloatReads(token);
      case Str(s) => StringReads(s);
      case Arr(items) =>
        if items == [] {
          EmptyReads();
        } else {
          ItemsReadBack(items);
          ArrayReads(EncodeItems(items) + [CLOSE_ARRAY], items);
          assert Encode(v) == [OPEN_ARRAY] + (EncodeItems(items) + [CLOSE_ARRAY]);
        }
      case Obj(members) =>
        if members == [] {
          EmptyReads();
        } else {
          MembersReadBack(members);
          ObjectReads(EncodeMembers(members) + [CLOSE_OBJECT], members);
          assert Encode(v) == [OPEN_OBJECT] + (EncodeMembers(members) + [CLOSE_OBJECT]);
        }
    }
  }

  /** The same with a delimiter and anything behind it. */
  lemma {:induction false} ReadsBackBefore(v: Json, more: Text)
    requires Writable(v) && Settled([], more)
    requires ParseValue(Encode(v)) == Got(v, [])
    ensures ParseValue(Encode(v) + more) == Got(v, more)
  {
    ValueThen(Encode(v), more);
    assert [] + more == more;
  }

  lemma {:induction false} ItemsStep(s: Text, item: Json, tail: Text, items: seq<Json>)
    requires ParseValue(s) == Got(item, [COMMA] + tail) && Opens(tail)
    requires ParseItems(tail) == Got(items, [])
    ensures ParseItems(s) == Got([item] + items, [])
  {
    assert ([COMMA] + tail)[1..] == tail;
  }

  lemma {:induction false} LastItem(s: Text, item: Json)
    requires Writable(item) && ParseValue(Encode(item)) == Got(item, []) && s == Encode(item) + [CLOSE_ARRAY]
    ensures Opens(s) && ParseItems(s) == Got([item], [])
  {
    EncodeOpens(item);
    ReadsBackBefore(item, [CLOSE_ARRAY]);
  }

  lemma {:induction false} NextItem(s: Text, item: Json, tail: Text, items: seq<Json>)
    requires Writable(item) && ParseValue(Encode(item)) == Got(item, []) && s == Encode(item) + ([COMMA] + tail)
    requires Opens(tail) && ParseItems(tail) == Got(items, [])
    ensures Opens(s) && ParseItems(s) == Got([item] + items, [])
  {
    EncodeOpens(item);
    ReadsBackBefore(item, [COMMA] + tail);
    ItemsStep(s, item, tail, items);
  }

  ghost predicate ItemsReadAs(s: Text, items: seq<Json>) {
    Opens(s) && ParseItems(s) == Got(items, [])
  }

  lemma {:induction false} OneItemReads(items: seq<Json>)
    requires |items| == 1 && Writable(items[0]) && ParseValue(Encode(items[0])) == Got(items[0], [])
    ensures ItemsReadAs(EncodeItems(items) + [CLOSE_ARRAY], items)
  {
    LastItem(EncodeItems(items) + [CLOSE_ARRAY], items[0]);
    assert [items[0]] == items;
  }

  lemma {:induction false} MoreItemsRead(items: seq<Json>)
    requires |items| > 1 && Writable(items[0]) && ParseValue(Encode(items[0])) == Got(items[0], [])
    requires ItemsReadAs(EncodeItems(items[1..]) + [CLOSE_ARRAY], items[1..])
    ensures ItemsReadAs(EncodeItems(items) + [CLOSE_ARRAY], items)
  {
    ItemsSplit(items);
    NextItem(EncodeItems(items) + [CLOSE_ARRAY], items[0], EncodeItems(items[1..]) + [CLOSE_ARRAY], items[1..]);
  }

  lemma {:induction false} ItemsSplit(items: seq<Json>)
    requires |items| > 1
    ensures items == [items[0]] + items[1..]
    ensures EncodeItems(items) + [CLOSE_ARRAY] ==
            Encode(items[0]) + ([COMMA] + (EncodeItems(items[1..]) + [CLOSE_ARRAY]))
  {
    Regroup(Encode(items[0]), EncodeItems(items[1..]), CLOSE_ARRAY);
  }

  lemma {:induction false} Regroup(a: Text, b: Text, close: point)
    ensures a + [COMMA] + b + [close] == a + ([COMMA] + (b + [close]))
  {
  }

  lemma {:induction false} ItemsReadBack(items: seq<Json>)
    requires items != [] && forall i | 0 <= i < |items| :: Writable(items[i])
    ensures ItemsReadAs(EncodeItems(items) + [CLOSE_ARRAY], items)
    decreases items
  {
    ReadsBack(items[0]);
    if |items| == 1 {
      OneItemReads(items);
    } else {
      ItemsReadBack(items[1..]);
      MoreItemsRead(items);
    }
  }

  lemma {:induction false} MemberReadsBack(m: Member, more: Text)
    requires Scalars(m.key) && Writable(m.value) && Settled([], more)
    requires ParseValue(Encode(m.value)) == Got(m.value, [])
    ensures ParseMember(EncodeMember(m) + more) == Got(m, more) && Opens(EncodeMember(m) + more)
  {
    EncodeOpens(m.value);
    assert EncodeMember(m) + more == Quoted(m.key) + [COLON] + (Encode(m.value) + more);
    KeyReads(m.key, Encode(m.value) + more);
    ReadsBackBefore(m.value, more);
  }

  lemma {:induction false} MembersStep(s: Text, m: Member, tail: Text, members: seq<Member>)
    requires ParseMember(s) == Got(m, [COMMA] + tail) && Opens(tail)
    requires ParseMembers(tail) == Got(members, [])
    ensures ParseMembers(s) == Got([m] + members, [])
  {
    assert ([COMMA] + tail)[1..] == tail;
  }

  lemma {:induction false} LastMember(s: Text, m: Member)
    requires Scalars(m.key) && Writable(m.value) && ParseValue(Encode(m.value)) == Got(m.value, [])
    requires s == EncodeMember(m) + [CLOSE_OBJECT]
    ensures Opens(s) && ParseMembers(s) == Got([m], [])
  {
    MemberReadsBack(m, [CLOSE_OBJECT]);
  }

  lemma {:induction false} NextMember(s: Text, m: Member, tail: Text, members: seq<Member>)
    requires Scalars(m.key) && Writable(m.value) && ParseValue(Encode(m.value)) == Got(m.value, [])
    requires s == EncodeMember(m) + ([COMMA] + tail)
    requires Opens(tail) && ParseMembers(tail) == Got(members, [])
    ensures Opens(s) && ParseMembers(s) == Got([m] + members, [])
  {
    MemberReadsBack(m, [COMMA] + tail);
    MembersStep(s, m, tail, members);
  }

  ghost predicate ReadAs(s: Text, members: seq<Member>) {
    Opens(s) && ParseMembers(s) == Got(members, [])
  }

  lemma {:induction false} OneMemberReads(members: seq<Member>)
    requires |members| == 1 && Scalars(members[0].key) && Writable(members[0].value)
    requires ParseValue(Encode(members[0].value)) == Got(members[0].value, [])
    ensures ReadAs(EncodeMembers(members) + [CLOSE_OBJECT], members)
  {
    LastMember(EncodeMembers(members) + [CLOSE_OBJECT], members[0]);
    assert [members[0]] == members;
  }

  lemma {:induction false} MoreMembersRead(members: seq<Member>)
    requires |members| > 1 && Scalars(members[0].key) && Writable(members[0].value)
    requires ParseValue(Encode(members[0].value)) == Got(members[0].value, [])
    requires ReadAs(EncodeMembers(members[1..]) + [CLOSE_OBJECT], members[1..])
    ensures ReadAs(EncodeMembers(members) + [CLOSE_OBJECT], members)
  {
    MembersSplit(members);
    NextMember(EncodeMembers(members) + [CLOSE_OBJECT], members[0],
               EncodeMembers(members[1..]) + [CLOSE_OBJECT], members[1..]);
  }

  lemma {:induction false} MembersSplit(members: seq<Member>)
    requires |members| > 1
    ensures members == [members[0]] + members[1..]
    ensures EncodeMembers(members) + [CLOSE_OBJECT] ==
            EncodeMember(members[0]) + ([COMMA] + (EncodeMembers(members[1..]) + [CLOSE_OBJECT]))
  {
    Regroup(EncodeMember(members[0]), EncodeMembers(members[1..]), CLOSE_OBJECT);
  }

  lemma {:induction false} MembersReadBack(members: seq<Member>)
    requires members != []
    requires forall i | 0 <= i < |members| :: Scalars(members[i].key) && Writable(members[i].value)
    ensures ReadAs(EncodeMembers(members) + [CLOSE_OBJECT], members)
    decreases members
  {
    ReadsBack(members[0].value);
    if |members| == 1 {
      OneMemberReads(members);
    } else {
      MembersReadBack(members[1..]);
      MoreMembersRead(members);
    }
  }
}
