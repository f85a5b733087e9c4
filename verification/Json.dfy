/** JSON texts as Python's decoder reads them: grammar of RFC 8259 (numbers of section 6, taken
    greedily, strings of section 7) plus the three non-JSON constants it recognises. A text is
    a sequence of Unicode code points. */
module Json {
  import opened Bytes

  type point = x: int | 0 <= x < 0x110000
  type Text = seq<point>

  datatype Json =
    | Null
    | Bool(flag: bool)
    | Int(value: int)
    | Float(token: Text)
    | Constant(name: Text)
    | Str(points: Text)
    | Arr(items: seq<Json>)
    | Obj(members: seq<Member>)

  datatype Member = Member(key: Text, value: Json)

  datatype Parsed<T> = Fail | Got(value: T, rest: Text)

  /** The code points of a name. */
  function Points(s: string): Text { seq(|s|, i requires 0 <= i < |s| => s[i] as int) }

  const QUOTE: point := 34
  const BACKSLASH: point := 92
  const COMMA: point := 44
  const COLON: point := 58
  const OPEN_ARRAY: point := 91
  const CLOSE_ARRAY: point := 93
  const OPEN_OBJECT: point := 123
  const CLOSE_OBJECT: point := 125
  const MINUS: point := 45

  const NULL_WORD: Text := [110, 117, 108, 108]
  const TRUE_WORD: Text := [116, 114, 117, 101]
  const FALSE_WORD: Text := [102, 97, 108, 115, 101]
  const NAN_WORD: Text := [78, 97, 78]
  const INFINITY_WORD: Text := [73, 110, 102, 105, 110, 105, 116, 121]
  const MINUS_INFINITY_WORD: Text := [45, 73, 110, 102, 105, 110, 105, 116, 121]

  predicate IsSpace(c: point) { c == 32 || c == 9 || c == 10 || c == 13 }

  predicate IsDelimiter(c: point) { IsSpace(c) || c == COMMA || c == CLOSE_ARRAY || c == CLOSE_OBJECT }

  predicate IsSurrogate(c: point) { 0xD800 <= c <= 0xDFFF }

  predicate Starts(s: Text, c: point) { s != [] && s[0] == c }

  function SkipSpace(s: Text): (r: Text)
    ensures |r| <= |s|
  {
    if s != [] && IsSpace(s[0]) then SkipSpace(s[1..]) else s
  }

  // Numbers

  function DigitRun(s: Text): (n: nat)
    ensures n <= |s|
  {
    if s != [] && IsDigit(s[0]) then 1 + DigitRun(s[1..]) else 0
  }

  /** Length of the integer part without its sign: a lone zero, or digits from 1 on. */
  function IntegerLength(s: Text): (n: nat)
    ensures n <= |s|
  {
    if Starts(s, 48) then 1 else DigitRun(s)
  }

  function FractionLength(s: Text): (n: nat)
    ensures n <= |s|
  {
    if Starts(s, 46) && DigitRun(s[1..]) > 0 then 1 + DigitRun(s[1..]) else 0
  }

  function ExponentLength(s: Text): (n: nat)
    ensures n <= |s|
  {
    if s == [] || (s[0] != 101 && s[0] != 69) then 0
    else
      var signed := if |s| > 1 && (s[1] == 43 || s[1] == 45) then 2 else 1;
      if DigitRun(s[signed..]) > 0 then signed + DigitRun(s[signed..]) else 0
  }

  /** Length of what makes a number a float: a fraction, an exponent or both. */
  function TailLength(s: Text): (n: nat)
    ensures n <= |s|
  {
    FractionLength(s) + ExponentLength(s[FractionLength(s)..])
  }

  function Digits(s: Text): int {
    if s == [] then 0 else Digits(s[..|s| - 1]) * 10 + (s[|s| - 1] as int - 48)
  }

  function NumberOf(token: Text, integral: bool, negative: bool): Json {
    if integral then Int(if negative then -Digits(token) else Digits(token))
    else Float(if negative then [MINUS] + token else token)
  }

  function NumberLength(s: Text): (n: nat)
    ensures n <= |s|
  {
    if IntegerLength(s) == 0 then 0 else IntegerLength(s) + TailLength(s[IntegerLength(s)..])
  }

  function ParseUnsigned(s: Text, negative: bool): (r: Parsed<Json>)
    ensures r.Got? ==> |r.rest| < |s|
  {
    var length := NumberLength(s);
    if length == 0 then Fail
    else Got(NumberOf(s[..length], length == IntegerLength(s), negative), s[length..])
  }

  function ParseWord(s: Text, word: Text, value: Json): (r: Parsed<Json>)
    requires word != []
    ensures r.Got? ==> |r.rest| < |s|
  {
    if |word| <= |s| && s[..|word|] == word then Got(value, s[|word|..]) else Fail
  }

  function ParseName(s: Text): (r: Parsed<Json>)
    ensures r.Got? ==> |r.rest| < |s|
  {
    if Starts(s, 110) then ParseWord(s, NULL_WORD, Null)
    else if Starts(s, 116) then ParseWord(s, TRUE_WORD, Bool(true))
    else if Starts(s, 102) then ParseWord(s, FALSE_WORD, Bool(false))
    else if Starts(s, 78) then ParseWord(s, NAN_WORD, Constant(NAN_WORD))
    else if Starts(s, 73) then ParseWord(s, INFINITY_WORD, Constant(INFINITY_WORD))
    else ParseWord(s, MINUS_INFINITY_WORD, Constant(MINUS_INFINITY_WORD))
  }

  function ParseNumber(s: Text): (r: Parsed<Json>)
    ensures r.Got? ==> |r.rest| < |s|
  {
    if Starts(s, MINUS) then ParseUnsigned(s[1..], true) else ParseUnsigned(s, false)
  }

  /** A number starts with a digit, or with a minus that does not start -Infinity. */
  predicate Numeric(s: Text) {
    s != [] && (IsDigit(s[0]) || (s[0] == MINUS && !Starts(s[1..], 73)))
  }

  function ParseScalar(s: Text): (r: Parsed<Json>)
    ensures r.Got? ==> |r.rest| < |s|
  {
    if Numeric(s) then ParseNumber(s) else ParseName(s)
  }

  // Strings

  function HexValue(c: point): (n: int)
    ensures -1 <= n < 16
  {
    if IsDigit(c) then c - 48
    else if 97 <= c <= 102 then c - 87
    else if 65 <= c <= 70 then c - 55
    else -1
  }

  function ParseHex(s: Text): (r: Parsed<point>)
    ensures r.Got? ==> |r.rest| < |s|
  {
    if |s| < 4 || HexValue(s[0]) < 0 || HexValue(s[1]) < 0 || HexValue(s[2]) < 0 || HexValue(s[3]) < 0 then Fail
    else
      Got(((HexValue(s[0]) * 16 + HexValue(s[1])) * 16 + HexValue(s[2])) * 16 + HexValue(s[3]), s[4..])
  }

  /** What follows a backslash. */
  function ParseEscape(s: Text): (r: Parsed<point>)
    ensures r.Got? ==> |r.rest| < |s|
  {
    if s == [] then Fail
    else if s[0] == QUOTE || s[0] == BACKSLASH || s[0] == 47 then Got(s[0], s[1..])
    else if s[0] == 98 then Got(8, s[1..])
    else if s[0] == 102 then Got(12, s[1..])
    else if s[0] == 110 then Got(10, s[1..])
    else if s[0] == 114 then Got(13, s[1..])
    else if s[0] == 116 then Got(9, s[1..])
    else if s[0] == 117 then ParseHex(s[1..])
    else Fail
  }

  /** A string's code units up to the closing quote; escaped surrogates are still apart. */
  function ParseUnits(s: Text): (r: Parsed<Text>)
    ensures r.Got? ==> |r.rest| < |s|
    decreases |s|
  {
    if s == [] then Fail
    else if s[0] == QUOTE then Got([], s[1..])
    else if s[0] == BACKSLASH then
      (match ParseEscape(s[1..])
       case Fail => Fail
       case Got(c, rest) => Prepend(c, ParseUnits(rest)))
    else if s[0] < 32 then Fail
    else Prepend(s[0], ParseUnits(s[1..]))
  }

  function Prepend<T>(head: T, tail: Parsed<seq<T>>): Parsed<seq<T>> {
    if tail.Fail? then Fail else Got([head] + tail.value, tail.rest)
  }

  /** Escaped surrogate pairs become one code point. */
  function JoinPairs(units: Text): Text {
    if |units| < 2 then units
    else if 0xD800 <= units[0] < 0xDC00 && 0xDC00 <= units[1] < 0xE000 then
      [0x10000 + ((units[0] - 0xD800) * 0x400 + (units[1] - 0xDC00))] + JoinPairs(units[2..])
    else [units[0]] + JoinPairs(units[1..])
  }

  // Values

  function ParseValue(s: Text): (r: Parsed<Json>)
    ensures r.Got? ==> |r.rest| < |s|
    decreases |s|, 0
  {
    if Starts(s, QUOTE) then
      (match ParseUnits(s[1..])
       case Fail => Fail
       case Got(units, rest) => Got(Str(JoinPairs(units)), rest))
    else if Starts(s, OPEN_ARRAY) then
      var t := SkipSpace(s[1..]);
      if Starts(t, CLOSE_ARRAY) then Got(Arr([]), t[1..])
      else
        (match ParseItems(t)
         case Fail => Fail
         case Got(items, rest) => Got(Arr(items), rest))
    else if Starts(s, OPEN_OBJECT) then
      var t := SkipSpace(s[1..]);
      if Starts(t, CLOSE_OBJECT) then Got(Obj([]), t[1..])
      else
        (match ParseMembers(t)
         case Fail => Fail
         case Got(members, rest) => Got(Obj(members), rest))
    else ParseScalar(s)
  }

  function ParseItems(s: Text): (r: Parsed<seq<Json>>)
    ensures r.Got? ==> |r.rest| < |s|
    decreases |s|, 1
  {
    match ParseValue(s)
    case Fail => Fail
    case Got(item, rest) =>
      var t := SkipSpace(rest);
      if Starts(t, CLOSE_ARRAY) then Got([item], t[1..])
      else if Starts(t, COMMA) then Prepend(item, ParseItems(SkipSpace(t[1..])))
      else Fail
  }

  /** The key, the colon and the spaces after it. */
  function ParseKey(s: Text): (r: Parsed<Text>)
    ensures r.Got? ==> |r.rest| < |s|
  {
    if !Starts(s, QUOTE) then Fail
    else
      match ParseUnits(s[1..])
      case Fail => Fail
      case Got(units, rest) => if AtColon(rest) then Got(JoinPairs(units), PastColon(rest)) else Fail
  }

  predicate AtColon(s: Text) { Starts(SkipSpace(s), COLON) }

  function PastColon(s: Text): (r: Text)
    requires AtColon(s)
    ensures |r| < |s|
  {
    SkipSpace(SkipSpace(s)[1..])
  }

  function ParseMember(s: Text): (r: Parsed<Member>)
    ensures r.Got? ==> |r.rest| < |s|
    decreases |s|, 1
  {
    match ParseKey(s)
    case Fail => Fail
    case Got(key, rest) =>
      match ParseValue(rest)
      case Fail => Fail
      case Got(value, after) => Got(Member(key, value), after)
  }

  function ParseMembers(s: Text): (r: Parsed<seq<Member>>)
    ensures r.Got? ==> |r.rest| < |s|
    decreases |s|, 2
  {
    match ParseMember(s)
    case Fail => Fail
    case Got(member, rest) =>
      var t := SkipSpace(rest);
      if Starts(t, CLOSE_OBJECT) then Got([member], t[1..])
      else if Starts(t, COMMA) then Prepend(member, ParseMembers(SkipSpace(t[1..])))
      else Fail
  }

  // What was decoded before a delimiter does not change when more text arrives

  predicate Settled(rest: Text, more: Text) {
    rest + more == [] || IsDelimiter((rest + more)[0])
  }

  function Then<T>(r: Parsed<T>, more: Text): Parsed<T> {
    if r.Fail? then Fail else Got(r.value, r.rest + more)
  }

  lemma {:induction false} SpaceThen(s: Text, more: Text)
    requires SkipSpace(s) != []
    ensures SkipSpace(s + more) == SkipSpace(s) + more
  {
    if IsSpace(s[0]) {
      assert (s + more)[1..] == s[1..] + more;
      SpaceThen(s[1..], more);
    }
  }

  lemma {:induction false} RunThen(s: Text, more: Text)
    requires DigitRun(s) < |s| || more == [] || !IsDigit(more[0])
    ensures DigitRun(s + more) == DigitRun(s)
  {
    if s == [] {
      assert s + more == more;
    } else if IsDigit(s[0]) {
      assert (s + more)[1..] == s[1..] + more;
      RunThen(s[1..], more);
    }
  }

  lemma {:induction false} FractionThen(s: Text, more: Text)
    requires Settled(s[FractionLength(s)..], more) || ExponentLength(s[FractionLength(s)..]) > 0
    ensures FractionLength(s + more) == FractionLength(s)
  {
    if s == [] {
      assert s + more == more;
    } else if s[0] == 46 {
      assert (s + more)[1..] == s[1..] + more;
      RunThen(s[1..], more);
    }
  }

  lemma {:induction false} ExponentThen(s: Text, more: Text)
    requires Settled(s[ExponentLength(s)..], more)
    ensures ExponentLength(s + more) == ExponentLength(s)
  {
    if s == [] {
      assert s + more == more;
    } else if s[0] == 101 || s[0] == 69 {
      var signed := if |s| > 1 && (s[1] == 43 || s[1] == 45) then 2 else 1;
      assert ExponentLength(s) > 0;
      assert (s + more)[signed..] == s[signed..] + more;
      RunThen(s[signed..], more);
    }
  }

  lemma {:induction false} TailThen(s: Text, more: Text)
    requires Settled(s[TailLength(s)..], more)
    ensures TailLength(s + more) == TailLength(s)
  {
    var fraction := FractionLength(s);
    assert s[fraction..][ExponentLength(s[fraction..])..] == s[TailLength(s)..];
    FractionThen(s, more);
    ExponentThen(s[fraction..], more);
    assert (s + more)[fraction..] == s[fraction..] + more;
  }

  lemma {:induction false} IntegerThen(s: Text, more: Text)
    requires IntegerLength(s) > 0 && (IntegerLength(s) < |s| || more == [] || !IsDigit(more[0]))
    ensures IntegerLength(s + more) == IntegerLength(s)
  {
    if s[0] != 48 { RunThen(s, more); }
  }

  lemma {:induction false} LengthThen(s: Text, more: Text)
    requires NumberLength(s) > 0 && Settled(s[NumberLength(s)..], more)
    ensures NumberLength(s + more) == NumberLength(s) && IntegerLength(s + more) == IntegerLength(s)
  {
    var whole := IntegerLength(s);
    var tail := s[whole..];
    assert tail[TailLength(tail)..] == s[NumberLength(s)..];
    if whole == |s| { assert s[NumberLength(s)..] + more == more; }
    IntegerThen(s, more);
    TailThen(tail, more);
    assert (s + more)[whole..] == tail + more;
  }

  lemma {:induction false} UnsignedThen(s: Text, more: Text, negative: bool)
    requires ParseUnsigned(s, negative).Got? && Settled(ParseUnsigned(s, negative).rest, more)
    ensures ParseUnsigned(s + more, negative) == Then(ParseUnsigned(s, negative), more)
  {
    var length := NumberLength(s);
    LengthThen(s, more);
    assert (s + more)[..length] == s[..length];
    assert (s + more)[length..] == s[length..] + more;
  }

  lemma {:induction false} WordThen(s: Text, word: Text, value: Json, more: Text)
    requires word != [] && ParseWord(s, word, value).Got?
    ensures ParseWord(s + more, word, value) == Then(ParseWord(s, word, value), more)
  {
    assert (s + more)[..|word|] == s[..|word|];
    assert (s + more)[|word|..] == s[|word|..] + more;
  }

  lemma {:induction false} NameThen(s: Text, more: Text)
    requires ParseName(s).Got?
    ensures ParseName(s + more) == Then(ParseName(s), more)
  {
    if s[0] == 110 { WordThen(s, NULL_WORD, Null, more); }
    else if s[0] == 116 { WordThen(s, TRUE_WORD, Bool(true), more); }
    else if s[0] == 102 { WordThen(s, FALSE_WORD, Bool(false), more); }
    else if s[0] == 78 { WordThen(s, NAN_WORD, Constant(NAN_WORD), more); }
    else if s[0] == 73 { WordThen(s, INFINITY_WORD, Constant(INFINITY_WORD), more); }
    else { WordThen(s, MINUS_INFINITY_WORD, Constant(MINUS_INFINITY_WORD), more); }
  }

  lemma {:induction false} NumericThen(s: Text, more: Text)
    requires ParseScalar(s).Got?
    ensures Numeric(s + more) <==> Numeric(s)
  {
    assert (s + more)[1..] == s[1..] + more;
    if s[0] == MINUS { assert s[1..] != []; }
  }

  lemma {:induction false} NumberThen(s: Text, more: Text)
    requires Numeric(s) && ParseNumber(s).Got? && Settled(ParseNumber(s).rest, more)
    ensures ParseNumber(s + more) == Then(ParseNumber(s), more)
  {
    assert (s + more)[0] == s[0];
    if s[0] == MINUS { MinusThen(s, s[1..], more); } else { UnsignedThen(s, more, false); }
  }

  lemma {:induction false} MinusThen(s: Text, digits: Text, more: Text)
    requires s != [] && digits == s[1..]
    requires ParseUnsigned(digits, true).Got? && Settled(ParseUnsigned(digits, true).rest, more)
    ensures ParseUnsigned((s + more)[1..], true) == Then(ParseUnsigned(digits, true), more)
  {
    assert (s + more)[1..] == digits + more;
    UnsignedThen(digits, more, true);
  }

  lemma {:induction false} ScalarThen(s: Text, more: Text)
    requires ParseScalar(s).Got? && Settled(ParseScalar(s).rest, more)
    ensures ParseScalar(s + more) == Then(ParseScalar(s), more)
  {
    NumericThen(s, more);
    if Numeric(s) { NumberThen(s, more); } else { NameThen(s, more); }
  }

  lemma {:induction false} EscapeThen(s: Text, more: Text)
    requires ParseEscape(s).Got?
    ensures ParseEscape(s + more) == Then(ParseEscape(s), more)
  {
    assert (s + more)[1..] == s[1..] + more;
    if s[0] == 117 { assert (s[1..] + more)[4..] == s[1..][4..] + more; }
  }

  lemma {:induction false} UnitsThen(s: Text, more: Text)
    requires ParseUnits(s).Got?
    ensures ParseUnits(s + more) == Then(ParseUnits(s), more)
    decreases |s|
  {
    assert (s + more)[1..] == s[1..] + more;
    if s[0] == QUOTE {
    } else if s[0] == BACKSLASH {
      EscapeThen(s[1..], more);
      UnitsThen(ParseEscape(s[1..]).rest, more);
    } else {
      UnitsThen(s[1..], more);
    }
  }

  /** A value decoded up to a delimiter, or to the end of the text, is decoded the same
      whatever follows that delimiter. */
  lemma {:induction false} ValueThen(s: Text, more: Text)
    requires ParseValue(s).Got? && Settled(ParseValue(s).rest, more)
    ensures ParseValue(s + more) == Then(ParseValue(s), more)
    decreases |s|, 0
  {
    assert s != [] && (s + more)[1..] == s[1..] + more;
    if s[0] == QUOTE {
      UnitsThen(s[1..], more);
    } else if s[0] == OPEN_ARRAY {
      var t := SkipSpace(s[1..]);
      SpaceThen(s[1..], more);
      if Starts(t, CLOSE_ARRAY) { assert (t + more)[1..] == t[1..] + more; } else { ItemsThen(t, more); }
    } else if s[0] == OPEN_OBJECT {
      var t := SkipSpace(s[1..]);
      SpaceThen(s[1..], more);
      if Starts(t, CLOSE_OBJECT) { assert (t + more)[1..] == t[1..] + more; } else { MembersThen(t, more); }
    } else {
      ScalarThen(s, more);
    }
  }

  lemma {:induction false} SpacedIsSettled(rest: Text, more: Text)
    requires SkipSpace(rest) != [] && IsDelimiter(SkipSpace(rest)[0])
    ensures Settled(rest, more)
  {
    assert (rest + more)[0] == rest[0];
  }

  lemma {:induction false} ItemsThen(s: Text, more: Text)
    requires ParseItems(s).Got?
    ensures ParseItems(s + more) == Then(ParseItems(s), more)
    decreases |s|, 1
  {
    var rest := ParseValue(s).rest;
    var t := SkipSpace(rest);
    SpacedIsSettled(rest, more);
    ValueThen(s, more);
    SpaceThen(rest, more);
    assert (t + more)[1..] == t[1..] + more;
    if Starts(t, COMMA) {
      SpaceThen(t[1..], more);
      ItemsThen(SkipSpace(t[1..]), more);
    }
  }

  lemma {:induction false} KeyThen(s: Text, more: Text)
    requires ParseKey(s).Got? && ParseKey(s).rest != []
    ensures ParseKey(s + more) == Then(ParseKey(s), more)
  {
    assert (s + more)[1..] == s[1..] + more;
    UnitsThen(s[1..], more);
    ColonThen(ParseUnits(s[1..]).rest, more);
  }

  lemma {:induction false} ColonThen(s: Text, more: Text)
    requires AtColon(s) && PastColon(s) != []
    ensures AtColon(s + more) && PastColon(s + more) == PastColon(s) + more
  {
    SpaceThen(s, more);
    assert (SkipSpace(s) + more)[1..] == SkipSpace(s)[1..] + more;
    SpaceThen(SkipSpace(s)[1..], more);
  }

  lemma {:induction false} MemberThen(s: Text, more: Text)
    requires ParseMember(s).Got? && Settled(ParseMember(s).rest, more)
    ensures ParseMember(s + more) == Then(ParseMember(s), more)
    decreases |s|, 1
  {
    KeyThen(s, more);
    ValueThen(ParseKey(s).rest, more);
  }

  lemma {:induction false} MembersThen(s: Text, more: Text)
    requires ParseMembers(s).Got?
    ensures ParseMembers(s + more) == Then(ParseMembers(s), more)
    decreases |s|, 2
  {
    var rest := ParseMember(s).rest;
    var t := SkipSpace(rest);
    SpacedIsSettled(rest, more);
    MemberThen(s, more);
    SpaceThen(rest, more);
    assert (t + more)[1..] == t[1..] + more;
    if Starts(t, COMMA) {
      SpaceThen(t[1..], more);
      MembersThen(SkipSpace(t[1..]), more);
    }
  }
}
