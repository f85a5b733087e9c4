/** Iteration over an encoded column: items joined by commas, decoded from windows that may cut
    an item anywhere (docker/pineforge_sink_to_json.py). */
module ColumnItems {
  import opened Bytes
  import opened Json

  datatype End = Complete | BadItem | BadSeparator | TrailingSeparator

  /** The items yielded and how the iteration ended. */
  datatype Rows = Rows(items: seq<Json>, end: End)

  function Yield(items: seq<Json>, rest: Rows): Rows { Rows(items + rest.items, rest.end) }

  /** What a decoder that holds the whole column yields. */
  function Split(text: Text, afterComma: bool): Rows
    decreases |text|
  {
    if text == [] then Rows([], if afterComma then TrailingSeparator else Complete)
    else
      match ParseValue(text)
      case Fail => Rows([], BadItem)
      case Got(item, rest) =>
        if rest == [] then Rows([item], Complete)
        else if rest[0] == COMMA then Yield([item], Split(rest[1..], true))
        else Rows([], BadSeparator)
  }

  /** An item followed by its comma is final, although the window may end right there. */
  lemma {:induction false} CommaSettles(window: Text, later: Text, afterComma: bool)
    requires window != [] && ParseValue(window).Got? && Starts(ParseValue(window).rest, COMMA)
    ensures var r := ParseValue(window);
            Split(window + later, afterComma) == Yield([r.value], Split(r.rest[1..] + later, true))
  {
    var r := ParseValue(window);
    assert (r.rest + later)[0] == COMMA;
    ValueThen(window, later);
    assert (r.rest + later)[1..] == r.rest[1..] + later;
  }

  /** However the column is cut into windows, and whatever it holds, the items and the refusal
      are those of the whole. */
  method Items(chunks: seq<Text>) returns (r: Rows)
    ensures r == Split(Concat(chunks), false)
  {
    var pending: Text, eof, afterComma, items: seq<Json> := [], false, false, [];
    var i := 0;
    assert chunks[0..] == chunks && [] + Concat(chunks) == Concat(chunks);
    while true
      invariant i <= |chunks| && (eof ==> i == |chunks|)
      invariant Split(Concat(chunks), false) == Yield(items, Split(pending + Concat(chunks[i..]), afterComma))
      decreases !eof, |chunks| - i, |pending|
    {
      ghost var later := Concat(chunks[i..]);
      assert eof ==> pending + later == pending;
      if pending != [] {
        var next := ParseValue(pending);
        if next.Got? && Starts(next.rest, COMMA) {
          CommaSettles(pending, later, afterComma);
          items, pending, afterComma := items + [next.value], next.rest[1..], true;
          continue;
        }
        if eof {
          if next.Fail? { return Rows(items, BadItem); }
          if next.rest != [] { return Rows(items, BadSeparator); }
          return Rows(items + [next.value], Complete);
        }
      } else if eof {
        return Rows(items, if afterComma then TrailingSeparator else Complete);
      }
      if i < |chunks| {
        assert pending + later == pending + chunks[i] + Concat(chunks[i + 1..]);
        pending, i := pending + chunks[i], i + 1;
      } else {
        eof := true;
      }
    }
  }

  function Join(texts: seq<Text>): Text {
    if texts == [] then [] else if |texts| == 1 then texts[0] else texts[0] + [COMMA] + Join(texts[1..])
  }

  /** Joined complete texts split back into their values, numbers included. */
  lemma {:induction false} SplitsJoined(texts: seq<Text>, values: seq<Json>, afterComma: bool)
    requires |texts| == |values| && (afterComma ==> texts != [])
    requires forall i | 0 <= i < |texts| :: ParseValue(texts[i]) == Got(values[i], [])
    ensures Split(Join(texts), afterComma) == Rows(values, Complete)
    decreases |texts|
  {
    if |texts| == 1 {
      assert [values[0]] == values;
    } else if |texts| > 1 {
      var later := [COMMA] + Join(texts[1..]);
      assert Join(texts) == texts[0] + later;
      assert [] + later == later;
      ValueThen(texts[0], later);
      assert later[1..] == Join(texts[1..]);
      SplitsJoined(texts[1..], values[1..], true);
      assert [values[0]] + values[1..] == values;
    }
  }
}
