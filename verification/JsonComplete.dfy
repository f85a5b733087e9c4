/** Every text of the JSON grammar is read, as the value it spells. */
module JsonComplete {
  import opened Bytes
  import opened ColumnItems
  import opened Json
  import opened JsonGrammar
  import opened JsonWriter

  // ----- numbers

  lemma {:induction false} DigitsRun(s: Text, more: Text)
    requires IsDigits(s) && (more == [] || !IsDigit(more[0]))
    ensures DigitRun(s + more) == |s|
  {
    AllDigitsRun(s);
    RunThen(s, more);
  }

  lemma {:induction false} FractionReads(frac: Text, exp: Text)
    requires (frac == [] || IsFrac(frac)) && (exp == [] || IsExp(exp))
    ensures FractionLength(frac + exp) == |frac|
  {
    if frac != [] {
      assert (frac + exp)[1..] == frac[1..] + exp;
      DigitsRun(frac[1..], exp);
    } else {
      assert frac + exp == exp;
    }
  }

  lemma {:induction false} ExponentReads(exp: Text)
    requires exp == [] || IsExp(exp)
    ensures ExponentLength(exp) == |exp|
  {
    if exp != [] {
      var signed := if |exp| > 1 && (exp[1] == 43 || exp[1] == 45) then 2 else 1;
      assert exp[signed..] + [] == exp[signed..];
      DigitsRun(exp[signed..], []);
    }
  }

  lemma {:induction false} TailReads(frac: Text, exp: Text)
    requires (frac == [] || IsFrac(frac)) && (exp == [] || IsExp(exp))
    ensures TailLength(frac + exp) == |frac + exp|
    ensures frac + exp == [] || !IsDigit((frac + exp)[0])
  {
    FractionReads(frac, exp);
    assert (frac + exp)[|frac|..] == exp;
    ExponentReads(exp);
  }

  lemma {:induction false} UnsignedReadsAll(whole: Text, tail: Text, minus: bool)
    requires IsInt(whole) && TailLength(tail) == |tail| && (tail == [] || !IsDigit(tail[0]))
    ensures ParseUnsigned(whole + tail, minus) == Got(NumberOf(whole + tail, tail == [], minus), [])
  {
    var s := whole + tail;
    assert IntegerLength(s) == |whole| by { if whole[0] != 48 { DigitsRun(whole, tail); } }
    assert s[|whole|..] == tail;
    assert s[..|s|] == s && s[|s|..] == [];
  }

  lemma {:induction false} DigitOpens(s: Text)
    requires s != [] && IsDigit(s[0])
    ensures Opens(s)
  {
  }

  lemma {:induction false} TokenReads(minus: bool, whole: Text, frac: Text, exp: Text, s: Text)
    requires IsInt(whole) && (frac == [] || IsFrac(frac)) && (exp == [] || IsExp(exp))
    requires s == (if minus then [45] else []) + (whole + (frac + exp))
    ensures ParseValue(s) == Got(NumberOf(whole + (frac + exp), frac + exp == [], minus), []) && Opens(s)
  {
    var token := whole + (frac + exp);
    TailReads(frac, exp);
    UnsignedReadsAll(whole, frac + exp, minus);
    assert token[0] == whole[0] && IsDigit(token[0]);
    NumberIsNumber(token);
    if minus {
      assert s[0] == MINUS;
    } else {
      assert s == token;
      DigitOpens(token);
    }
  }

  lemma {:induction false} NumberReads(s: Text, v: Json)
    requires IsNumber(s, v)
    ensures ParseValue(s) == Got(v, []) && Opens(s)
  {
    var minus: bool, whole: Text, frac: Text, exp: Text :| NumberIs(s, v, minus, whole, frac, exp);
    TokenReads(minus, whole, frac, exp, s);
    NumberIsOf(s, v, minus, whole, frac + exp);
  }

  lemma {:induction false} NumberIsOf(s: Text, v: Json, minus: bool, whole: Text, tail: Text)
    requires s == (if minus then [45] else []) + (whole + tail)
    requires v == if tail == [] then Int(if minus then -Digits(whole) else Digits(whole)) else Float(s)
    ensures v == NumberOf(whole + tail, tail == [], minus)
  {
    if tail == [] { assert whole + tail == whole; }
    if !minus { assert s == whole + tail; }
  }

  // ----- strings

  lemma {:induction false} FourHex(s: Text, a: int, b: int, d: int, e: int, more: Text)
    requires AreHex(s, a, b, d, e)
    ensures ParseHex(s + more) == Got(a * 4096 + b * 256 + d * 16 + e, more)
  {
    HexIs(s[0]);
    HexIs(s[1]);
    HexIs(s[2]);
    HexIs(s[3]);
    assert (s + more)[4..] == more;
  }

  lemma {:induction false} HexReads(s: Text, c: point, more: Text)
    requires IsHexEscape(s, c)
    ensures ParseUnits(s + more) == Prepend(c, ParseUnits(more))
  {
    var a, b, d, e :| AreHex(s[2..], a, b, d, e) && c == a * 4096 + b * 256 + d * 16 + e;
    FourHex(s[2..], a, b, d, e, more);
    EscapedReads(s, s[2..] + more, c, more);
  }

  lemma {:induction false} EscapedReads(s: Text, digits: Text, c: point, more: Text)
    requires |s| == 6 && s[0] == BACKSLASH && s[1] == 117 && digits == s[2..] + more && ParseHex(digits) == Got(c, more)
    ensures ParseUnits(s + more) == Prepend(c, ParseUnits(more))
  {
    var t := (s + more)[1..];
    assert t[0] == 117 && t[1..] == digits;
  }

  lemma {:induction false} ShortReads(s: Text, c: point, more: Text)
    requires IsShort(s, c)
    ensures ParseUnits(s + more) == Prepend(c, ParseUnits(more))
  {
    var names := Points("\"\\/bfnrt");
    assert names == [34, 92, 47, 98, 102, 110, 114, 116];
    var t := (s + more)[1..];
    assert t[0] == s[1] && t[1..] == more;
  }

  lemma {:induction false} UnitReads(s: Text, c: point, more: Text)
    requires IsUnit(s, c)
    ensures ParseUnits(s + more) == Prepend(c, ParseUnits(more))
  {
    if IsItself(s, c) {
      assert (s + more)[1..] == more;
    } else if IsShort(s, c) {
      ShortReads(s, c, more);
    } else {
      HexReads(s, c, more);
    }
  }

  lemma {:induction false} UnitsReadAll(pieces: seq<Text>, units: Text, more: Text)
    requires AreUnits(pieces, units)
    ensures ParseUnits(Concat(pieces) + ([QUOTE] + more)) == Got(units, more)
    decreases |pieces|
  {
    var end := [QUOTE] + more;
    if pieces == [] {
      assert Concat(pieces) + end == end && end[1..] == more;
    } else {
      UnitsReadAll(pieces[1..], units[1..], more);
      Grouped(pieces[0], Concat(pieces[1..]), end);
      UnitReads(pieces[0], units[0], Concat(pieces[1..]) + end);
      assert [units[0]] + units[1..] == units;
    }
  }

  lemma {:induction false} TailPairs(parts: seq<Text>, points: Text)
    requires parts != [] && ArePairs(parts, points)
    ensures ArePairs(parts[1..], points[1..])
  {
    forall i | 0 < i < |parts[1..]|
      ensures !(|parts[1..][i - 1]| == 1 && IsHigh(parts[1..][i - 1][0]) && IsLow(parts[1..][i][0]))
    {
      assert parts[1..][i - 1] == parts[i] && parts[1..][i] == parts[i + 1];
      assert !(|parts[i + 1 - 1]| == 1 && IsHigh(parts[i + 1 - 1][0]) && IsLow(parts[i + 1][0]));
    }
  }

  lemma {:induction false} PairsJoin(parts: seq<Text>, points: Text)
    requires ArePairs(parts, points)
    ensures JoinPairs(Concat(parts)) == points
    decreases |parts|
  {
    if parts != [] {
      TailPairs(parts, points);
      PairsJoin(parts[1..], points[1..]);
      var rest := Concat(parts[1..]);
      if |parts| > 1 {
        FirstOfParts(parts[1..], points[1..]);
        assert !(|parts[1 - 1]| == 1 && IsHigh(parts[1 - 1][0]) && IsLow(parts[1][0]));
      }
      assert Concat(parts)[|parts[0]|..] == rest;
      assert points == [points[0]] + points[1..];
    }
  }

  lemma {:induction false} QuotedSplit(s: Text, inner: Text, more: Text)
    requires s == [QUOTE] + (inner + [QUOTE])
    ensures (s + more)[1..] == inner + ([QUOTE] + more)
  {
  }

  lemma {:induction false} StringReadsAll(s: Text, points: Text, more: Text)
    requires IsString(s, points)
    ensures s != [] && s[0] == QUOTE
    ensures ParseUnits((s + more)[1..]).Got? && ParseUnits((s + more)[1..]).rest == more
    ensures JoinPairs(ParseUnits((s + more)[1..]).value) == points
  {
    var pieces: seq<Text>, units: Text, parts: seq<Text> :| StringIs(s, points, pieces, units, parts);
    QuotedSplit(s, Concat(pieces), more);
    UnitsReadAll(pieces, units, more);
    PairsJoin(parts, points);
  }

  // ----- values

  lemma {:induction false} GapSkips(gap: Text, more: Text)
    requires Gap(gap) && (more == [] || !IsSpace(more[0]))
    ensures SkipSpace(gap + more) == more
  {
    if gap == [] {
      assert gap + more == more;
    } else {
      assert (gap + more)[1..] == gap[1..] + more;
      GapSkips(gap[1..], more);
    }
  }

  lemma {:induction false} WordReads(s: Text, v: Json)
    requires (v.Null? || v.Bool? || v.Constant?) && IsValue(s, v, true)
    ensures ParseValue(s) == Got(v, []) && Opens(s)
  {
    WordsAreSpelled();
    assert s[..|s|] == s && s[|s|..] == [];
    if v.Constant? && s == MINUS_INFINITY_WORD { assert s[1..][0] == 73; }
  }

  /** A text of the grammar is read whole. */
  lemma {:induction false} Reads(s: Text, v: Json)
    requires IsValue(s, v, true)
    ensures ParseValue(s) == Got(v, []) && Opens(s)
    decreases v, 0
  {
    match v {
      case Int(_) => NumberReads(s, v);
      case Float(_) => NumberReads(s, v);
      case Str(points) =>
        StringReadsAll(s, points, []);
        assert s + [] == s;
      case Arr(items) => ArrayReadsAll(s, items);
      case Obj(members) => ObjectReadsAll(s, members);
      case _ => WordReads(s, v);
    }
  }

  lemma {:induction false} EmptyReadsAll(open: point, close: point, gap: Text, s: Text)
    requires Gap(gap) && !IsSpace(close) && s == [open] + (gap + [close])
    ensures SkipSpace(s[1..]) == [close]
  {
    assert s[1..] == gap + [close];
    GapSkips(gap, [close]);
  }

  lemma {:induction false} ArrayReadsAll(s: Text, items: seq<Json>)
    requires IsValue(s, Arr(items), true)
    ensures ParseValue(s) == Got(Arr(items), []) && Opens(s)
    decreases items, 3
  {
    if items == [] {
      var gap :| Gap(gap) && s == [0x5B] + (gap + [0x5D]);
      EmptyReadsAll(0x5B, 0x5D, gap, s);
    } else {
      var pieces: seq<Text> :| s == [0x5B] + (Join(pieces) + [0x5D]) && AreItems(pieces, items, true);
      ItemsReadAll(pieces, items);
      assert s[1..] == Join(pieces) + [0x5D];
    }
  }

  /** A delimiter, perhaps behind a gap, settles what was read before it. */
  lemma {:induction false} GapSettles(gap: Text, more: Text)
    requires Gap(gap) && more != [] && IsDelimiter(more[0])
    ensures Settled([], gap + more)
  {
    assert [] + (gap + more) == gap + more;
    if gap != [] { assert (gap + more)[0] == gap[0]; }
  }

  /** One padded value, whatever delimiter follows. */
  lemma {:induction false} PaddedReads(piece: Text, v: Json, more: Text)
    requires IsPadded(piece, v, true) && more != [] && IsDelimiter(more[0]) && !IsSpace(more[0])
    ensures var t := SkipSpace(piece + more);
            && Opens(t) && ParseValue(t).Got? && ParseValue(t).value == v && SkipSpace(ParseValue(t).rest) == more
    decreases v, 1
  {
    var lead: Text, body: Text, trail: Text :| PaddedIs(piece, v, lead, body, trail, true);
    Reads(body, v);
    Grouped(body, trail, more);
    Grouped(lead, body + trail, more);
    GapSkips(lead, body + (trail + more));
    GapSettles(trail, more);
    ValueThen(body, trail + more);
    GapSkips(trail, more);
    assert [] + (trail + more) == trail + more;
  }

  lemma {:induction false} ItemsReadAll(pieces: seq<Text>, items: seq<Json>)
    requires items != [] && AreItems(pieces, items, true)
    ensures var t := SkipSpace(Join(pieces) + [CLOSE_ARRAY]); Opens(t) && ParseItems(t) == Got(items, [])
    decreases items, 2
  {
    if |items| == 1 {
      PaddedReads(pieces[0], items[0], [CLOSE_ARRAY]);
      assert items == [items[0]];
    } else {
      var more := [COMMA] + (Join(pieces[1..]) + [CLOSE_ARRAY]);
      ItemsReadAll(pieces[1..], items[1..]);
      PaddedReads(pieces[0], items[0], more);
      Regroup(pieces[0], Join(pieces[1..]), CLOSE_ARRAY);
      assert more[1..] == Join(pieces[1..]) + [CLOSE_ARRAY];
      assert items == [items[0]] + items[1..];
    }
  }

  lemma {:induction false} ObjectReadsAll(s: Text, members: seq<Member>)
    requires IsValue(s, Obj(members), true)
    ensures ParseValue(s) == Got(Obj(members), []) && Opens(s)
    decreases members, 3
  {
    if members == [] {
      var gap :| Gap(gap) && s == [0x7B] + (gap + [0x7D]);
      EmptyReadsAll(0x7B, 0x7D, gap, s);
    } else {
      var pieces: seq<Text> :| s == [0x7B] + (Join(pieces) + [0x7D]) && AreMembers(pieces, members, true);
      MembersReadAll(pieces, members);
      assert s[1..] == Join(pieces) + [0x7D];
    }
  }

  lemma {:induction false} ColonReads(gap: Text, rest: Text)
    requires Gap(gap)
    ensures AtColon(gap + ([COLON] + rest)) && PastColon(gap + ([COLON] + rest)) == SkipSpace(rest)
  {
    GapSkips(gap, [COLON] + rest);
    assert ([COLON] + rest)[1..] == rest;
  }

  lemma {:induction false} KeyReadsAll(key: Text, points: Text, gap: Text, rest: Text)
    requires IsString(key, points) && Gap(gap) && Opens(SkipSpace(rest))
    ensures var t := key + (gap + ([COLON] + rest)); Opens(t) && ParseKey(t) == Got(points, SkipSpace(rest))
  {
    StringReadsAll(key, points, gap + ([COLON] + rest));
    ColonReads(gap, rest);
  }

  lemma {:induction false} MemberAndMore(lead: Text, key: Text, gap: Text, value: Text, more: Text)
    ensures lead + (key + (gap + ([COLON] + value))) + more == lead + (key + (gap + ([COLON] + (value + more))))
  {
    Grouped([COLON], value, more);
    Grouped(gap, [COLON] + value, more);
    Grouped(key, gap + ([COLON] + value), more);
    Grouped(lead, key + (gap + ([COLON] + value)), more);
  }

  lemma {:induction false} MemberReads(piece: Text, m: Member, more: Text)
    requires IsMember(piece, m, true) && more != [] && IsDelimiter(more[0]) && !IsSpace(more[0])
    ensures var t := SkipSpace(piece + more);
            && Opens(t) && ParseMember(t).Got? && ParseMember(t).value == m && SkipSpace(ParseMember(t).rest) == more
    decreases m, 0
  {
    var lead: Text, key: Text, gap: Text, value: Text :| MemberIs(piece, m, lead, key, gap, value, true);
    PaddedReads(value, m.value, more);
    KeyReadsAll(key, m.key, gap, value + more);
    MemberAndMore(lead, key, gap, value, more);
    GapSkips(lead, key + (gap + ([COLON] + (value + more))));
  }

  lemma {:induction false} MembersReadAll(pieces: seq<Text>, members: seq<Member>)
    requires members != [] && AreMembers(pieces, members, true)
    ensures var t := SkipSpace(Join(pieces) + [CLOSE_OBJECT]); Opens(t) && ParseMembers(t) == Got(members, [])
    decreases members, 2
  {
    if |members| == 1 {
      MemberReads(pieces[0], members[0], [CLOSE_OBJECT]);
      assert members == [members[0]];
    } else {
      var more := [COMMA] + (Join(pieces[1..]) + [CLOSE_OBJECT]);
      MembersReadAll(pieces[1..], members[1..]);
      MemberReads(pieces[0], members[0], more);
      Regroup(pieces[0], Join(pieces[1..]), CLOSE_OBJECT);
      assert more[1..] == Join(pieces[1..]) + [CLOSE_OBJECT];
      assert members == [members[0]] + members[1..];
    }
  }

  /** A text is read whole, as a value, exactly when it spells that value. */
  lemma {:induction false} ReadingIsExact(s: Text, v: Json)
    ensures ParseValue(s) == Got(v, []) <==> IsValue(s, v, true)
  {
    if ParseValue(s) == Got(v, []) {
      var body := ValueIsRead(s);
      assert body + [] == body;
    }
    if IsValue(s, v, true) { Reads(s, v); }
  }
}
