/** The grammar of JSON texts as RFC 8259 writes it, and the proof that the decoder reads exactly
    the texts of that grammar (and the three constants it adds), each as the value it spells. */
module JsonGrammar {
  import opened Bytes
  import opened ColumnItems
  import opened Json

  // ----- section 2: insignificant space

  ghost predicate Gap(s: Text) { forall i | 0 <= i < |s| :: s[i] in {32, 9, 10, 13} }

  // ----- section 6: numbers

  ghost predicate IsDigits(s: Text) { s != [] && forall i | 0 <= i < |s| :: 48 <= s[i] <= 57 }

  ghost predicate IsInt(s: Text) { IsDigits(s) && (s[0] == 48 ==> |s| == 1) }

  ghost predicate IsFrac(s: Text) { s != [] && s[0] == 46 && IsDigits(s[1..]) }

  ghost predicate IsExp(s: Text) {
    && s != [] && (s[0] == 101 || s[0] == 69)
    && (IsDigits(s[1..]) || (|s| > 1 && (s[1] == 43 || s[1] == 45) && IsDigits(s[2..])))
  }

  /** An integer without fraction and exponent, and any other number as its own token. */
  ghost predicate IsNumber(s: Text, v: Json) {
    exists minus: bool, whole: Text, frac: Text, exp: Text :: NumberIs(s, v, minus, whole, frac, exp)
  }

  ghost predicate NumberIs(s: Text, v: Json, minus: bool, whole: Text, frac: Text, exp: Text) {
    && s == (if minus then [45] else []) + (whole + (frac + exp))
    && IsInt(whole) && (frac == [] || IsFrac(frac)) && (exp == [] || IsExp(exp))
    && v == if frac + exp == [] then Int(if minus then -Digits(whole) else Digits(whole)) else Float(s)
  }

  // ----- section 7: strings

  /** The digit's worth, in either case. */
  ghost predicate IsHex(c: point, n: int) {
    || (0 <= n < 10 && c == '0' as int + n)
    || (10 <= n < 16 && (c == 'a' as int + n - 10 || c == 'A' as int + n - 10))
  }

  ghost predicate AreHex(s: Text, a: int, b: int, d: int, e: int) {
    |s| == 4 && IsHex(s[0], a) && IsHex(s[1], b) && IsHex(s[2], d) && IsHex(s[3], e)
  }

  /** One character of a string: itself, a two-character escape, or four hex digits. */
  ghost predicate IsUnit(s: Text, c: point) { IsItself(s, c) || IsShort(s, c) || IsHexEscape(s, c) }

  ghost predicate IsItself(s: Text, c: point) { s == [c] && c >= 0x20 && c != 0x22 && c != 0x5C }

  ghost predicate IsShort(s: Text, c: point) {
    exists k :: 0 <= k < 8 && s == [0x5C, Points("\"\\/bfnrt")[k]] && c == [0x22, 0x5C, 0x2F, 8, 12, 10, 13, 9][k]
  }

  ghost predicate IsHexEscape(s: Text, c: point) {
    && |s| == 6 && s[0] == 0x5C && s[1] == 0x75
    && exists a, b, d, e :: AreHex(s[2..], a, b, d, e) && c == a * 4096 + b * 256 + d * 16 + e
  }

  ghost predicate AreUnits(pieces: seq<Text>, units: Text) {
    |pieces| == |units| && forall i | 0 <= i < |pieces| :: IsUnit(pieces[i], units[i])
  }

  ghost predicate IsHigh(c: point) { 0xD800 <= c <= 0xDBFF }

  ghost predicate IsLow(c: point) { 0xDC00 <= c <= 0xDFFF }

  /** A unit that stands for itself, or a surrogate pair that stands for one character. */
  ghost predicate Pairs(part: Text, c: point) {
    || part == [c]
    || (|part| == 2 && IsHigh(part[0]) && IsLow(part[1])
        && c == 0x10000 + ((part[0] - 0xD800) * 0x400 + (part[1] - 0xDC00)))
  }

  /** The parts a text is made of; a pair is never left apart. */
  ghost predicate ArePairs(parts: seq<Text>, points: Text) {
    && |parts| == |points| && (forall i | 0 <= i < |parts| :: Pairs(parts[i], points[i]))
    && (forall i | 0 < i < |parts| :: !(|parts[i - 1]| == 1 && IsHigh(parts[i - 1][0]) && IsLow(parts[i][0])))
  }

  ghost predicate IsString(s: Text, points: Text) {
    exists pieces: seq<Text>, units: Text, parts: seq<Text> :: StringIs(s, points, pieces, units, parts)
  }

  ghost predicate StringIs(s: Text, points: Text, pieces: seq<Text>, units: Text, parts: seq<Text>) {
    && s == [0x22] + (Concat(pieces) + [0x22]) && AreUnits(pieces, units)
    && Concat(parts) == units && ArePairs(parts, points)
  }

  // ----- sections 3 to 5: values, objects and arrays

  /** The space between two tokens, if there may be any. */
  ghost predicate GapOk(s: Text, gaps: bool) { if gaps then Gap(s) else s == [] }

  /** `s` spells `v`, without space around it; `gaps`: with any space inside it. */
  ghost predicate IsValue(s: Text, v: Json, gaps: bool)
    decreases v, 0
  {
    match v
    case Null => s == Points("null")
    case Bool(flag) => s == if flag then Points("true") else Points("false")
    case Int(_) => IsNumber(s, v)
    case Float(_) => IsNumber(s, v)
    case Constant(name) => s == name && (s == Points("NaN") || s == Points("Infinity") || s == Points("-Infinity"))
    case Str(points) => IsString(s, points)
    case Arr(items) =>
      if items == [] then exists gap :: GapOk(gap, gaps) && s == [0x5B] + (gap + [0x5D])
      else exists pieces: seq<Text> :: s == [0x5B] + (Join(pieces) + [0x5D]) && AreItems(pieces, items, gaps)
    case Obj(members) =>
      if members == [] then exists gap :: GapOk(gap, gaps) && s == [0x7B] + (gap + [0x7D])
      else exists pieces: seq<Text> :: s == [0x7B] + (Join(pieces) + [0x7D]) && AreMembers(pieces, members, gaps)
  }

  ghost predicate AreItems(pieces: seq<Text>, items: seq<Json>, gaps: bool)
    decreases items
  {
    |pieces| == |items| && forall i | 0 <= i < |pieces| :: IsPadded(pieces[i], items[i], gaps)
  }

  ghost predicate AreMembers(pieces: seq<Text>, members: seq<Member>, gaps: bool)
    decreases members
  {
    |pieces| == |members| && forall i | 0 <= i < |pieces| :: IsMember(pieces[i], members[i], gaps)
  }

  ghost predicate IsPadded(s: Text, v: Json, gaps: bool)
    decreases v, 2
  {
    exists lead: Text, body: Text, trail: Text :: PaddedIs(s, v, lead, body, trail, gaps)
  }

  ghost predicate PaddedIs(s: Text, v: Json, lead: Text, body: Text, trail: Text, gaps: bool)
    decreases v, 1
  {
    s == lead + (body + trail) && GapOk(lead, gaps) && GapOk(trail, gaps) && IsValue(body, v, gaps)
  }

  ghost predicate IsMember(s: Text, m: Member, gaps: bool)
    decreases m, 1
  {
    exists lead: Text, key: Text, gap: Text, value: Text :: MemberIs(s, m, lead, key, gap, value, gaps)
  }

  ghost predicate MemberIs(s: Text, m: Member, lead: Text, key: Text, gap: Text, value: Text, gaps: bool)
    decreases m, 0
  {
    && s == lead + (key + (gap + ([0x3A] + value))) && GapOk(lead, gaps) && GapOk(gap, gaps)
    && IsString(key, m.key) && IsPadded(value, m.value, gaps)
  }

  // ----- what the decoder reads is of the grammar

  lemma {:induction false} SkippedIsGap(s: Text) returns (gap: Text)
    ensures Gap(gap) && s == gap + SkipSpace(s)
    ensures SkipSpace(s) != [] ==> !IsSpace(SkipSpace(s)[0])
  {
    if s != [] && IsSpace(s[0]) {
      gap := SkippedIsGap(s[1..]);
      assert s == [s[0]] + s[1..];
      gap := [s[0]] + gap;
    } else {
      gap := [];
    }
  }

  lemma {:induction false} RunIsDigits(s: Text)
    ensures DigitRun(s) > 0 ==> IsDigits(s[..DigitRun(s)])
    ensures DigitRun(s) < |s| ==> !IsDigit(s[DigitRun(s)])
  {
    if s != [] && IsDigit(s[0]) {
      RunIsDigits(s[1..]);
      assert forall i | 0 < i < DigitRun(s) :: s[i] == s[1..][..DigitRun(s[1..])][i - 1];
    }
  }

  lemma {:induction false} IntegerIs(s: Text)
    requires IntegerLength(s) > 0
    ensures IsInt(s[..IntegerLength(s)])
  {
    RunIsDigits(s);
  }

  lemma {:induction false} FractionIs(s: Text)
    requires FractionLength(s) > 0
    ensures IsFrac(s[..FractionLength(s)])
  {
    RunIsDigits(s[1..]);
    assert s[..FractionLength(s)][1..] == s[1..][..DigitRun(s[1..])];
  }

  lemma {:induction false} ExponentIs(s: Text)
    requires ExponentLength(s) > 0
    ensures IsExp(s[..ExponentLength(s)])
  {
    var signed := if |s| > 1 && (s[1] == 43 || s[1] == 45) then 2 else 1;
    RunIsDigits(s[signed..]);
    assert s[..ExponentLength(s)][signed..] == s[signed..][..DigitRun(s[signed..])];
  }

  lemma {:induction false} TailIs(s: Text) returns (frac: Text, exp: Text)
    ensures s[..TailLength(s)] == frac + exp && (frac == [] || IsFrac(frac)) && (exp == [] || IsExp(exp))
  {
    var rest := s[FractionLength(s)..];
    frac, exp := s[..FractionLength(s)], rest[..ExponentLength(rest)];
    if FractionLength(s) > 0 { FractionIs(s); }
    if ExponentLength(rest) > 0 { ExponentIs(rest); }
  }

  lemma {:induction false} UnsignedIs(s: Text, minus: bool) returns (token: Text)
    requires ParseUnsigned(s, minus).Got?
    ensures s == token + ParseUnsigned(s, minus).rest
    ensures IsNumber((if minus then [45] else []) + token, ParseUnsigned(s, minus).value)
  {
    var k, n := IntegerLength(s), NumberLength(s);
    token := s[..n];
    IntegerIs(s);
    var frac, exp := TailIs(s[k..]);
    SplitToken(s, k, n);
    TokenIs(minus, s[..k], frac, exp, token);
    assert token == s[..k] <==> n == k;
  }

  lemma {:induction false} SplitToken(s: Text, k: nat, n: nat)
    requires k <= n <= |s|
    ensures s[..n] == s[..k] + s[k..][..n - k] && s == s[..n] + s[n..] && (s[..n] == s[..k] <==> n == k)
  {
  }

  lemma {:induction false} TokenIs(minus: bool, whole: Text, frac: Text, exp: Text, token: Text)
    requires IsInt(whole) && (frac == [] || IsFrac(frac)) && (exp == [] || IsExp(exp)) && token == whole + (frac + exp)
    ensures IsNumber((if minus then [45] else []) + token, NumberOf(token, token == whole, minus))
  {
    var s := (if minus then [45] else []) + token;
    if token == whole { assert |frac + exp| == 0; }
    if !minus { assert s == token; }
    assert NumberIs(s, NumberOf(token, token == whole, minus), minus, whole, frac, exp);
  }

  lemma {:induction false} NumberIsRead(s: Text) returns (body: Text)
    requires ParseNumber(s).Got?
    ensures s == body + ParseNumber(s).rest && IsNumber(body, ParseNumber(s).value)
  {
    if Starts(s, MINUS) {
      var token := UnsignedIs(s[1..], true);
      FirstOf(s);
      Grouped([45], token, ParseNumber(s).rest);
      body := [45] + token;
    } else {
      body := UnsignedIs(s, false);
      assert [] + body == body;
    }
  }

  lemma {:induction false} WordsAreSpelled()
    ensures NULL_WORD == Points("null") && TRUE_WORD == Points("true") && FALSE_WORD == Points("false")
    ensures NAN_WORD == Points("NaN") && INFINITY_WORD == Points("Infinity")
    ensures MINUS_INFINITY_WORD == Points("-Infinity")
  {
  }

  lemma {:induction false} ScalarIsRead(s: Text) returns (body: Text)
    requires ParseScalar(s).Got?
    ensures s == body + ParseScalar(s).rest && IsValue(body, ParseScalar(s).value, true)
  {
    if Numeric(s) {
      body := NumberIsRead(s);
    } else {
      WordsAreSpelled();
      body := s[..|s| - |ParseName(s).rest|];
    }
  }

  lemma {:induction false} HexIs(c: point)
    ensures HexValue(c) >= 0 ==> IsHex(c, HexValue(c))
    ensures forall n :: IsHex(c, n) ==> HexValue(c) == n
  {
  }

  lemma {:induction false} HexEscapeIsUnit(s: Text)
    requires s != [] && s[0] == 117 && ParseEscape(s).Got?
    ensures IsHexEscape([BACKSLASH] + s[..5], ParseEscape(s).value)
    ensures [BACKSLASH] + s == [BACKSLASH] + s[..5] + ParseEscape(s).rest
  {
    var t, piece := s[1..], [BACKSLASH] + s[..5];
    HexIs(t[0]);
    HexIs(t[1]);
    HexIs(t[2]);
    HexIs(t[3]);
    assert piece[2..] == t[..4];
    assert AreHex(piece[2..], HexValue(t[0]), HexValue(t[1]), HexValue(t[2]), HexValue(t[3]));
    assert s == s[..5] + t[4..];
  }

  lemma {:induction false} ShortIsUnit(s: Text)
    requires s != [] && s[0] != 117 && ParseEscape(s).Got?
    ensures IsShort([BACKSLASH, s[0]], ParseEscape(s).value)
    ensures [BACKSLASH] + s == [BACKSLASH, s[0]] + ParseEscape(s).rest
  {
    var k := if s[0] == QUOTE then 0 else if s[0] == BACKSLASH then 1 else if s[0] == 47 then 2
             else if s[0] == 98 then 3 else if s[0] == 102 then 4 else if s[0] == 110 then 5
             else if s[0] == 114 then 6 else 7;
    assert s == [s[0]] + s[1..];
    assert [BACKSLASH, s[0]] == [0x5C, Points("\"\\/bfnrt")[k]];
  }

  lemma {:induction false} EscapeIsUnit(s: Text) returns (piece: Text)
    requires ParseEscape(s).Got?
    ensures [BACKSLASH] + s == piece + ParseEscape(s).rest && IsUnit(piece, ParseEscape(s).value)
  {
    if s[0] == 117 {
      HexEscapeIsUnit(s);
      piece := [BACKSLASH] + s[..5];
    } else {
      ShortIsUnit(s);
      piece := [BACKSLASH, s[0]];
    }
  }

  lemma {:induction false} MorePieces(piece: Text, c: point, pieces: seq<Text>, units: Text)
    requires IsUnit(piece, c) && AreUnits(pieces, units)
    ensures AreUnits([piece] + pieces, [c] + units) && Concat([piece] + pieces) == piece + Concat(pieces)
  {
    var all, values := [piece] + pieces, [c] + units;
    assert all[1..] == pieces;
    forall i | 0 <= i < |all| ensures IsUnit(all[i], values[i]) {
      if i > 0 { assert all[i] == pieces[i - 1] && values[i] == units[i - 1]; }
    }
  }

  /** The first character of a string's text. */
  lemma {:induction false} UnitIsRead(s: Text) returns (piece: Text, c: point, rest: Text)
    requires s != [] && s[0] != QUOTE && ParseUnits(s).Got?
    ensures IsUnit(piece, c) && s == piece + rest && |rest| < |s|
    ensures ParseUnits(rest).Got? && ParseUnits(s) == Prepend(c, ParseUnits(rest))
  {
    FirstOf(s);
    if s[0] == BACKSLASH {
      piece := EscapeIsUnit(s[1..]);
      c, rest := ParseEscape(s[1..]).value, ParseEscape(s[1..]).rest;
    } else {
      piece, c, rest := [s[0]], s[0], s[1..];
    }
  }

  lemma {:induction false} UnitsAreRead(s: Text) returns (pieces: seq<Text>)
    requires ParseUnits(s).Got?
    ensures s == Concat(pieces) + ([QUOTE] + ParseUnits(s).rest) && AreUnits(pieces, ParseUnits(s).value)
    decreases |s|
  {
    if s[0] == QUOTE {
      FirstOf(s);
      pieces := [];
    } else {
      var piece, c, rest := UnitIsRead(s);
      pieces := UnitsAreRead(rest);
      MorePieces(piece, c, pieces, ParseUnits(rest).value);
      Grouped(piece, Concat(pieces), [QUOTE] + ParseUnits(s).rest);
      pieces := [piece] + pieces;
    }
  }

  lemma {:induction false} OnePairMore(part: Text, c: point, parts: seq<Text>, points: Text)
    requires Pairs(part, c) && ArePairs(parts, points)
    requires parts != [] ==> !(|part| == 1 && IsHigh(part[0]) && IsLow(parts[0][0]))
    ensures ArePairs([part] + parts, [c] + points) && Concat([part] + parts) == part + Concat(parts)
  {
    assert ([part] + parts)[1..] == parts;
  }

  lemma {:induction false} JoinedAre(units: Text) returns (parts: seq<Text>)
    ensures Concat(parts) == units && ArePairs(parts, JoinPairs(units))
    decreases |units|
  {
    if units == [] {
      parts := [];
    } else {
      var pair := |units| > 1 && IsHigh(units[0]) && IsLow(units[1]);
      var n := if pair then 2 else 1;
      parts := JoinedAre(units[n..]);
      if parts != [] { FirstOfParts(parts, JoinPairs(units[n..])); }
      assert units == units[..n] + units[n..];
      OnePairMore(units[..n], JoinPairs(units)[0], parts, JoinPairs(units[n..]));
      assert JoinPairs(units) == [JoinPairs(units)[0]] + JoinPairs(units[n..]);
      parts := [units[..n]] + parts;
    }
  }

  lemma {:induction false} FirstOfParts(parts: seq<Text>, points: Text)
    requires parts != [] && ArePairs(parts, points)
    ensures parts[0] != [] && Concat(parts) != [] && Concat(parts)[0] == parts[0][0]
  {
    assert Pairs(parts[0], points[0]);
  }

  lemma {:induction false} Grouped(a: Text, b: Text, c: Text)
    ensures a + (b + c) == a + b + c
  {
  }

  lemma {:induction false} FirstOf(s: Text)
    requires s != []
    ensures s == [s[0]] + s[1..]
  {
  }

  lemma {:induction false} StringIsRead(s: Text) returns (body: Text)
    requires Starts(s, QUOTE) && ParseUnits(s[1..]).Got?
    ensures s == body + ParseUnits(s[1..]).rest && IsString(body, JoinPairs(ParseUnits(s[1..]).value))
  {
    var pieces := UnitsAreRead(s[1..]);
    var units, rest := ParseUnits(s[1..]).value, ParseUnits(s[1..]).rest;
    var parts := JoinedAre(units);
    body := [0x22] + (Concat(pieces) + [0x22]);
    FirstOf(s);
    Grouped(Concat(pieces), [0x22], rest);
    Grouped([0x22], Concat(pieces) + [0x22], rest);
    assert StringIs(body, JoinPairs(units), pieces, units, parts);
  }

  lemma {:induction false} Padded(lead: Text, body: Text, trail: Text, v: Json)
    requires Gap(lead) && Gap(trail) && IsValue(body, v, true)
    ensures IsPadded(lead + (body + trail), v, true)
  {
    assert PaddedIs(lead + (body + trail), v, lead, body, trail, true);
  }

  lemma {:induction false} Around(lead: Text, l: Text, body: Text, t: Text, trail: Text)
    ensures lead + (l + (body + t) + trail) == lead + l + (body + (t + trail))
  {
    Grouped(l, body + t, trail);
    Grouped(body, t, trail);
    Grouped(lead, l, body + (t + trail));
  }

  lemma {:induction false} PadMore(lead: Text, s: Text, trail: Text, v: Json)
    requires Gap(lead) && Gap(trail) && IsPadded(s, v, true)
    ensures IsPadded(lead + (s + trail), v, true)
  {
    var l: Text, body: Text, t: Text :| PaddedIs(s, v, l, body, t, true);
    Around(lead, l, body, t, trail);
    assert PaddedIs(lead + (s + trail), v, lead + l, body, t + trail, true);
  }

  lemma {:induction false} MemberMore(lead: Text, s: Text, trail: Text, m: Member)
    requires Gap(lead) && Gap(trail) && IsMember(s, m, true)
    ensures IsMember(lead + (s + trail), m, true)
  {
    var l: Text, key: Text, gap: Text, value: Text :| MemberIs(s, m, l, key, gap, value, true);
    PadAfter(value, trail, m.value);
    AroundMember(lead, l, key, gap, value, trail);
    assert MemberIs(lead + (s + trail), m, lead + l, key, gap, value + trail, true);
  }

  lemma {:induction false} PadAfter(s: Text, trail: Text, v: Json)
    requires Gap(trail) && IsPadded(s, v, true)
    ensures IsPadded(s + trail, v, true)
  {
    PadMore([], s, trail, v);
    assert [] + (s + trail) == s + trail;
  }

  lemma {:induction false} PadBefore(lead: Text, s: Text, v: Json)
    requires Gap(lead) && IsPadded(s, v, true)
    ensures IsPadded(lead + s, v, true)
  {
    PadMore(lead, s, [], v);
    assert lead + (s + []) == lead + s;
  }

  lemma {:induction false} MemberBefore(lead: Text, s: Text, m: Member)
    requires Gap(lead) && IsMember(s, m, true)
    ensures IsMember(lead + s, m, true)
  {
    MemberMore(lead, s, [], m);
    assert lead + (s + []) == lead + s;
  }

  lemma {:induction false} MemberAfter(s: Text, trail: Text, m: Member)
    requires Gap(trail) && IsMember(s, m, true)
    ensures IsMember(s + trail, m, true)
  {
    MemberMore([], s, trail, m);
    assert [] + (s + trail) == s + trail;
  }

  lemma {:induction false} AroundMember(lead: Text, l: Text, key: Text, gap: Text, value: Text, trail: Text)
    ensures lead + (l + (key + (gap + ([0x3A] + value))) + trail) ==
            lead + l + (key + (gap + ([0x3A] + (value + trail))))
  {
    Grouped([0x3A], value, trail);
    Grouped(gap, [0x3A] + value, trail);
    Grouped(key, gap + ([0x3A] + value), trail);
    Around(lead, l, key, gap + ([0x3A] + value), trail);
  }

  /** A list whose first piece gets a gap in front. */
  lemma {:induction false} JoinLead(lead: Text, pieces: seq<Text>)
    requires pieces != []
    ensures Join([lead + pieces[0]] + pieces[1..]) == lead + Join(pieces)
  {
    var led := [lead + pieces[0]] + pieces[1..];
    assert led[1..] == pieces[1..];
    if |pieces| > 1 {
      assert lead + pieces[0] + [COMMA] + Join(pieces[1..]) == lead + (pieces[0] + [COMMA] + Join(pieces[1..]));
    }
  }

  lemma {:induction false} JoinNext(piece: Text, pieces: seq<Text>)
    requires pieces != []
    ensures Join([piece] + pieces) == piece + ([COMMA] + Join(pieces))
  {
    assert ([piece] + pieces)[1..] == pieces;
    assert piece + [COMMA] + Join(pieces) == piece + ([COMMA] + Join(pieces));
  }

  lemma {:induction false} ValueIsRead(s: Text) returns (body: Text)
    requires ParseValue(s).Got?
    ensures s == body + ParseValue(s).rest && IsValue(body, ParseValue(s).value, true)
    decreases |s|, 0
  {
    if Starts(s, QUOTE) {
      body := StringIsRead(s);
    } else if Starts(s, OPEN_ARRAY) {
      body := ArrayIsRead(s);
    } else if Starts(s, OPEN_OBJECT) {
      body := ObjectIsRead(s);
    } else {
      body := ScalarIsRead(s);
    }
  }

  lemma {:induction false} Bracketed(s: Text, open: point, gap: Text, inner: Text, close: point, rest: Text)
    requires s == [open] + (gap + (inner + ([close] + rest)))
    ensures s == [open] + (gap + inner + [close]) + rest
  {
    Grouped(inner, [close], rest);
    Grouped(gap, inner + [close], rest);
    Grouped(gap, inner, [close]);
    Grouped([open], gap + inner + [close], rest);
  }

  lemma {:induction false} ArrayIsRead(s: Text) returns (body: Text)
    requires Starts(s, OPEN_ARRAY) && ParseValue(s).Got?
    ensures s == body + ParseValue(s).rest && IsValue(body, ParseValue(s).value, true)
    decreases |s|, 0, 0
  {
    var gap := SkippedIsGap(s[1..]);
    var t := SkipSpace(s[1..]);
    FirstOf(s);
    if Starts(t, CLOSE_ARRAY) {
      FirstOf(t);
      body := [0x5B] + (gap + [0x5D]);
      Grouped(gap, [0x5D], t[1..]);
      Grouped([0x5B], gap + [0x5D], t[1..]);
    } else {
      var pieces := ItemsAreRead(t);
      ArrayIs(gap, pieces, ParseItems(t).value);
      Bracketed(s, 0x5B, gap, Join(pieces), 0x5D, ParseItems(t).rest);
      body := [0x5B] + (gap + Join(pieces) + [0x5D]);
    }
  }

  lemma {:induction false} ObjectIsRead(s: Text) returns (body: Text)
    requires Starts(s, OPEN_OBJECT) && ParseValue(s).Got?
    ensures s == body + ParseValue(s).rest && IsValue(body, ParseValue(s).value, true)
    decreases |s|, 0, 0
  {
    var gap := SkippedIsGap(s[1..]);
    var t := SkipSpace(s[1..]);
    FirstOf(s);
    if Starts(t, CLOSE_OBJECT) {
      FirstOf(t);
      body := [0x7B] + (gap + [0x7D]);
      Grouped(gap, [0x7D], t[1..]);
      Grouped([0x7B], gap + [0x7D], t[1..]);
    } else {
      var pieces := MembersAreRead(t);
      ObjectIs(gap, pieces, ParseMembers(t).value);
      Bracketed(s, 0x7B, gap, Join(pieces), 0x7D, ParseMembers(t).rest);
      body := [0x7B] + (gap + Join(pieces) + [0x7D]);
    }
  }

  /** A gap may stand before the first item. */
  lemma {:induction false} LedItems(lead: Text, pieces: seq<Text>, items: seq<Json>) returns (led: seq<Text>)
    requires Gap(lead) && pieces != [] && AreItems(pieces, items, true)
    ensures led != [] && AreItems(led, items, true) && Join(led) == lead + Join(pieces)
  {
    led := [lead + pieces[0]] + pieces[1..];
    JoinLead(lead, pieces);
    PadBefore(lead, pieces[0], items[0]);
  }

  lemma {:induction false} LedMembers(lead: Text, pieces: seq<Text>, members: seq<Member>) returns (led: seq<Text>)
    requires Gap(lead) && pieces != [] && AreMembers(pieces, members, true)
    ensures led != [] && AreMembers(led, members, true) && Join(led) == lead + Join(pieces)
  {
    led := [lead + pieces[0]] + pieces[1..];
    JoinLead(lead, pieces);
    MemberBefore(lead, pieces[0], members[0]);
  }

  lemma {:induction false} ArrayIs(lead: Text, pieces: seq<Text>, items: seq<Json>)
    requires Gap(lead) && pieces != [] && AreItems(pieces, items, true)
    ensures IsValue([0x5B] + (lead + Join(pieces) + [0x5D]), Arr(items), true)
  {
    var led := LedItems(lead, pieces, items);
    assert [0x5B] + (lead + Join(pieces) + [0x5D]) == [0x5B] + (Join(led) + [0x5D]);
  }

  lemma {:induction false} ObjectIs(lead: Text, pieces: seq<Text>, members: seq<Member>)
    requires Gap(lead) && pieces != [] && AreMembers(pieces, members, true)
    ensures IsValue([0x7B] + (lead + Join(pieces) + [0x7D]), Obj(members), true)
  {
    var led := LedMembers(lead, pieces, members);
    assert [0x7B] + (lead + Join(pieces) + [0x7D]) == [0x7B] + (Join(led) + [0x7D]);
  }

  lemma {:induction false} FirstItem(piece: Text, item: Json, pieces: seq<Text>, items: seq<Json>)
    requires IsPadded(piece, item, true) && AreItems(pieces, items, true)
    ensures AreItems([piece] + pieces, [item] + items, true)
  {
  }

  lemma {:induction false} FirstMember(piece: Text, m: Member, pieces: seq<Text>, members: seq<Member>)
    requires IsMember(piece, m, true) && AreMembers(pieces, members, true)
    ensures AreMembers([piece] + pieces, [m] + members, true)
  {
  }

  lemma {:induction false} Continued(s: Text, piece: Text, led: seq<Text>, more: Text)
    requires led != [] && s == piece + ([COMMA] + (Join(led) + more))
    ensures s == Join([piece] + led) + more
  {
    JoinNext(piece, led);
    Grouped([COMMA], Join(led), more);
    Grouped(piece, [COMMA] + Join(led), more);
  }

  /** A body, the gap behind it and what comes next. */
  lemma {:induction false} BodyAndGap(s: Text, body: Text, rest: Text) returns (gap: Text)
    requires s == body + rest && SkipSpace(rest) != []
    ensures Gap(gap) && s == body + gap + ([SkipSpace(rest)[0]] + SkipSpace(rest)[1..])
  {
    gap := SkippedIsGap(rest);
    FirstOf(SkipSpace(rest));
    Grouped(body, gap, SkipSpace(rest));
  }

  lemma {:induction false} ItemsAreRead(s: Text) returns (pieces: seq<Text>)
    requires ParseItems(s).Got?
    ensures pieces != [] && s == Join(pieces) + ([0x5D] + ParseItems(s).rest)
    ensures AreItems(pieces, ParseItems(s).value, true)
    decreases |s|, 1
  {
    var item, rest := ParseValue(s).value, ParseValue(s).rest;
    var body := ValueIsRead(s);
    var gap := BodyAndGap(s, body, rest);
    var t := SkipSpace(rest);
    Padded([], body, gap, item);
    assert [] + (body + gap) == body + gap;
    if Starts(t, CLOSE_ARRAY) {
      pieces := [body + gap];
    } else {
      var lead := SkippedIsGap(t[1..]);
      var u := SkipSpace(t[1..]);
      pieces := ItemsAreRead(u);
      Grouped(lead, Join(pieces), [0x5D] + ParseItems(u).rest);
      pieces := LedItems(lead, pieces, ParseItems(u).value);
      Continued(s, body + gap, pieces, [0x5D] + ParseItems(u).rest);
      FirstItem(body + gap, item, pieces, ParseItems(u).value);
      pieces := [body + gap] + pieces;
    }
  }

  lemma {:induction false} KeyIsRead(s: Text) returns (key: Text, gap: Text, lead: Text)
    requires ParseKey(s).Got?
    ensures s == key + gap + ([0x3A] + (lead + ParseKey(s).rest))
    ensures IsString(key, ParseKey(s).value) && Gap(gap) && Gap(lead)
  {
    key := StringIsRead(s);
    var rest := ParseUnits(s[1..]).rest;
    gap := BodyAndGap(s, key, rest);
    lead := SkippedIsGap(SkipSpace(rest)[1..]);
  }

  lemma {:induction false} MemberIsRead(s: Text) returns (piece: Text)
    requires ParseMember(s).Got?
    ensures s == piece + ParseMember(s).rest && IsMember(piece, ParseMember(s).value, true)
    decreases |s|, 1
  {
    var key, gap, lead := KeyIsRead(s);
    var body := ValueIsRead(ParseKey(s).rest);
    var m, rest := ParseMember(s).value, ParseMember(s).rest;
    Padded(lead, body, [], m.value);
    assert body + [] == body;
    Grouped(lead, body, rest);
    piece := MemberPiece(s, m, key, gap, lead + body, rest);
  }

  lemma {:induction false} MemberPiece(s: Text, m: Member, key: Text, gap: Text, value: Text, rest: Text)
    returns (piece: Text)
    requires s == key + gap + ([0x3A] + (value + rest)) && Gap(gap)
    requires IsString(key, m.key) && IsPadded(value, m.value, true)
    ensures s == piece + rest && IsMember(piece, m, true)
  {
    piece := key + (gap + ([0x3A] + value));
    Grouped([0x3A], value, rest);
    Grouped(key + gap, [0x3A] + value, rest);
    Grouped(key, gap, [0x3A] + value);
    assert [] + piece == piece;
    assert MemberIs(piece, m, [], key, gap, value, true);
  }

  lemma {:induction false} MembersAreRead(s: Text) returns (pieces: seq<Text>)
    requires ParseMembers(s).Got?
    ensures pieces != [] && s == Join(pieces) + ([0x7D] + ParseMembers(s).rest)
    ensures AreMembers(pieces, ParseMembers(s).value, true)
    decreases |s|, 2
  {
    var m, rest := ParseMember(s).value, ParseMember(s).rest;
    var body := MemberIsRead(s);
    var gap := BodyAndGap(s, body, rest);
    var t := SkipSpace(rest);
    MemberAfter(body, gap, m);
    if Starts(t, CLOSE_OBJECT) {
      pieces := [body + gap];
    } else {
      var lead := SkippedIsGap(t[1..]);
      var u := SkipSpace(t[1..]);
      pieces := MembersAreRead(u);
      Grouped(lead, Join(pieces), [0x7D] + ParseMembers(u).rest);
      pieces := LedMembers(lead, pieces, ParseMembers(u).value);
      Continued(s, body + gap, pieces, [0x7D] + ParseMembers(u).rest);
      FirstMember(body + gap, m, pieces, ParseMembers(u).value);
      pieces := [body + gap] + pieces;
    }
  }
}
