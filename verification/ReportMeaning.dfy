/** What a full report says: which record each item of a table comes from, and that the text that is
    sent is JSON and reads back as the document with those tables. */
module ReportMeaning {
  import opened ColumnItems
  import opened Json
  import opened JsonComplete
  import opened JsonGrammar
  import opened Options
  import opened RecordMeaning
  import opened ReportColumns
  import opened ReportWriter
  import opened SinkFormat
  import opened SinkRoundTrip

  ghost predicate HasItem(items: seq<Json>, i: nat, v: Json) { i < |items| && items[i] == v }

  /** The item that record `k` gives to a table comes behind those of the earlier records of its tag. */
  lemma {:induction false} TableItem(p: Presentation, rows: seq<Record>, s: Stream, slots: nat, k: nat)
    requires AllShaped(rows, slots) && Known(s, slots) && k < |rows| && rows[k].tag == TagOf(s)
    ensures HasItem(Table(p, rows, s, slots), Occurrences(rows[..k], TagOf(s)), Project(p, s, rows[k], slots))
    decreases |rows|
  {
    var n := |rows| - 1;
    var init := rows[..n];
    if k < n {
      TableItem(p, init, s, slots, k);
      assert init[..k] == rows[..k];
    } else {
      TableSize(p, init, s, slots);
    }
  }

  /** A table has one item for each record of its tag. */
  lemma {:induction false} TableSize(p: Presentation, rows: seq<Record>, s: Stream, slots: nat)
    requires AllShaped(rows, slots) && Known(s, slots)
    ensures |Table(p, rows, s, slots)| == Occurrences(rows, TagOf(s))
    decreases |rows|
  {
    if rows != [] {
      var n := |rows| - 1;
      TableSize(p, rows[..n], s, slots);
      assert rows == rows[..n] + [rows[n]];
      OneMore(rows[..n], rows[n], TagOf(s));
    }
  }

  /** Tables hold nothing else: trades, equity points and events as the report shows them, the two
      times of every output record, and its values slot by slot. */
  lemma {:induction false} TablesAre(p: Presentation, rows: seq<Record>, slots: nat, k: nat)
    requires AllShaped(rows, slots) && k < |rows|
    ensures rows[k].tag == Points("T") ==>
              HasItem(Table(p, rows, Trades, slots), Occurrences(rows[..k], Points("T")), p.trade(rows[k]))
    ensures rows[k].tag == Points("E") ==>
              HasItem(Table(p, rows, Equity, slots), Occurrences(rows[..k], Points("E")), p.point(rows[k]))
    ensures rows[k].tag == Points("V") ==>
              HasItem(Table(p, rows, Events, slots), Occurrences(rows[..k], Points("V")), p.event(rows[k]))
    ensures rows[k].tag == Points("O") ==>
              var i, values := Occurrences(rows[..k], Points("O")), rows[k].values;
              && |values| == 3 + slots
              && HasItem(Table(p, rows, Opens, slots), i, values[1])
              && HasItem(Table(p, rows, Closes, slots), i, values[2])
              && forall slot: nat | slot < slots ::
                   HasItem(Table(p, rows, Numeric(slot), slots), i, p.scaled(values[3 + slot], slot))
  {
    TagsAreSpelled();
    if rows[k].tag == TRADE_TAG {
      TableItem(p, rows, Trades, slots, k);
    } else if rows[k].tag == EQUITY_TAG {
      TableItem(p, rows, Equity, slots, k);
    } else if rows[k].tag == EVENT_TAG {
      TableItem(p, rows, Events, slots, k);
    } else if rows[k].tag == OUTPUT_TAG {
      TableItem(p, rows, Opens, slots, k);
      TableItem(p, rows, Closes, slots, k);
      forall slot: nat | slot < slots
        ensures HasItem(Table(p, rows, Numeric(slot), slots), Occurrences(rows[..k], OUTPUT_TAG),
                        p.scaled(rows[k].values[3 + slot], slot))
      {
        TableItem(p, rows, Numeric(slot), slots, k);
      }
    }
  }

  lemma {:induction false} TableSizes(p: Presentation, rows: seq<Record>, slots: nat, slot: nat)
    requires AllShaped(rows, slots) && slot < slots
    ensures |Table(p, rows, Trades, slots)| == Occurrences(rows, Points("T"))
    ensures |Table(p, rows, Equity, slots)| == Occurrences(rows, Points("E"))
    ensures |Table(p, rows, Events, slots)| == Occurrences(rows, Points("V"))
    ensures |Table(p, rows, Opens, slots)| == |Table(p, rows, Closes, slots)| == Occurrences(rows, Points("O"))
    ensures |Table(p, rows, Numeric(slot), slots)| == Occurrences(rows, Points("O"))
  {
    TagsAreSpelled();
    TableSize(p, rows, Trades, slots);
    TableSize(p, rows, Equity, slots);
    TableSize(p, rows, Events, slots);
    TableSize(p, rows, Opens, slots);
    TableSize(p, rows, Closes, slots);
    TableSize(p, rows, Numeric(slot), slots);
  }

  // ----- the text of a report

  /** The value a report stands for. */
  function ValueOf(p: Presentation, doc: Doc, rows: seq<Record>, slots: nat): Json
    requires AllShaped(rows, slots) && AllKnown(doc, slots)
  {
    match doc
    case Value(v) => v
    case Rows(s) => Arr(Table(p, rows, s, slots))
    case List(items) => Arr(seq(|items|, i requires 0 <= i < |items| => ValueOf(p, items[i], rows, slots)))
    case Dict(entries) =>
      Obj(seq(|entries|, i requires 0 <= i < |entries| =>
                Member(entries[i].key, ValueOf(p, entries[i].doc, rows, slots))))
  }

  /** Every value that is encoded is spelled. */
  ghost predicate Spellable(p: Presentation, doc: Doc, rows: seq<Record>, slots: nat)
    requires AllShaped(rows, slots) && AllKnown(doc, slots)
  {
    match doc
    case Value(v) => IsValue(p.encode(v), v, true)
    case Rows(s) => forall v | v in Table(p, rows, s, slots) :: IsValue(p.encode(v), v, true)
    case List(items) => forall i | 0 <= i < |items| :: Spellable(p, items[i], rows, slots)
    case Dict(entries) =>
      forall i | 0 <= i < |entries| ::
        IsString(p.encode(Str(entries[i].key)), entries[i].key) && Spellable(p, entries[i].doc, rows, slots)
  }

  lemma {:induction false} ItemAt(p: Presentation, items: seq<Doc>, tables: Stream -> Text, i: nat)
    requires i < |items|
    ensures SpelledItems(p, items, tables)[i] == Spelled(p, items[i], tables)
    decreases |items|
  {
    if i < |items| - 1 { ItemAt(p, items[..|items| - 1], tables, i); }
  }

  lemma {:induction false} EntryAt(p: Presentation, entries: seq<Entry>, tables: Stream -> Text, i: nat)
    requires i < |entries|
    ensures SpelledEntries(p, entries, tables)[i] == SpelledEntry(p, entries[i], tables)
    decreases |entries|
  {
    if i < |entries| - 1 { EntryAt(p, entries[..|entries| - 1], tables, i); }
  }

  lemma {:induction false} Unpadded(s: Text, v: Json)
    requires IsValue(s, v, true)
    ensures IsPadded(s, v, true)
  {
    Padded([], s, [], v);
    assert [] + (s + []) == s;
  }

  /** Joined spellings between brackets are the spelling of an array. */
  lemma {:induction false} ListIs(pieces: seq<Text>, items: seq<Json>, s: Text)
    requires |pieces| == |items| && forall i | 0 <= i < |items| :: IsValue(pieces[i], items[i], true)
    requires s == [OPEN_ARRAY] + Join(pieces) + [CLOSE_ARRAY]
    ensures IsValue(s, Arr(items), true)
  {
    Grouped([OPEN_ARRAY], Join(pieces), [CLOSE_ARRAY]);
    if items == [] {
      assert Gap([]) && Join(pieces) == [];
    } else {
      forall i | 0 <= i < |items| ensures IsPadded(pieces[i], items[i], true) { Unpadded(pieces[i], items[i]); }
      assert AreItems(pieces, items, true);
    }
  }

  lemma {:induction false} MemberIsSpelled(key: Text, value: Text, m: Member)
    requires IsString(key, m.key) && IsValue(value, m.value, true)
    ensures IsMember(key + [COLON] + value, m, true)
  {
    Unpadded(value, m.value);
    Grouped(key, [COLON], value);
    assert [] + ([COLON] + value) == [COLON] + value;
    assert [] + (key + ([COLON] + value)) == key + ([COLON] + value);
    assert MemberIs(key + [COLON] + value, m, [], key, [], value, true);
  }

  lemma {:induction false} DictIs(pieces: seq<Text>, members: seq<Member>, s: Text)
    requires AreMembers(pieces, members, true) && s == [OPEN_OBJECT] + Join(pieces) + [CLOSE_OBJECT]
    ensures IsValue(s, Obj(members), true)
  {
    Grouped([OPEN_OBJECT], Join(pieces), [CLOSE_OBJECT]);
    if members == [] { assert Gap([]) && Join(pieces) == []; }
  }

  lemma {:induction false} ReportIsSpelled(p: Presentation, doc: Doc, rows: seq<Record>, slots: nat)
    requires AllShaped(rows, slots) && AllKnown(doc, slots) && Spellable(p, doc, rows, slots)
    ensures IsValue(Spelled(p, doc, Tables(p, rows, slots)), ValueOf(p, doc, rows, slots), true)
    decreases doc, 0
  {
    var tables := Tables(p, rows, slots);
    match doc {
      case Value(_) =>
      case Rows(s) =>
        var items := Table(p, rows, s, slots);
        forall i | 0 <= i < |items| ensures IsValue(Texts(p, items)[i], items[i], true) { assert items[i] in items; }
        ListIs(Texts(p, items), items, Spelled(p, doc, tables));
      case List(items) => ListIsSpelled(p, items, rows, slots);
      case Dict(entries) => DictIsSpelled(p, entries, rows, slots);
    }
  }

  lemma {:induction false} ListIsSpelled(p: Presentation, items: seq<Doc>, rows: seq<Record>, slots: nat)
    requires AllShaped(rows, slots) && AllKnown(List(items), slots) && Spellable(p, List(items), rows, slots)
    ensures IsValue(Spelled(p, List(items), Tables(p, rows, slots)), ValueOf(p, List(items), rows, slots), true)
    decreases items, 1
  {
    var tables := Tables(p, rows, slots);
    var pieces, values := SpelledItems(p, items, tables), ValueOf(p, List(items), rows, slots).items;
    forall i | 0 <= i < |values| ensures IsValue(pieces[i], values[i], true) {
      ItemAt(p, items, tables, i);
      ReportIsSpelled(p, items[i], rows, slots);
    }
    ListIs(pieces, values, Spelled(p, List(items), tables));
  }

  lemma {:induction false} DictIsSpelled(p: Presentation, entries: seq<Entry>, rows: seq<Record>, slots: nat)
    requires AllShaped(rows, slots) && AllKnown(Dict(entries), slots) && Spellable(p, Dict(entries), rows, slots)
    ensures IsValue(Spelled(p, Dict(entries), Tables(p, rows, slots)), ValueOf(p, Dict(entries), rows, slots), true)
    decreases entries, 1
  {
    var tables := Tables(p, rows, slots);
    var pieces, members := SpelledEntries(p, entries, tables), ValueOf(p, Dict(entries), rows, slots).members;
    forall i | 0 <= i < |members| ensures IsMember(pieces[i], members[i], true) {
      EntryAt(p, entries, tables, i);
      ReportIsSpelled(p, entries[i].doc, rows, slots);
      MemberIsSpelled(p.encode(Str(entries[i].key)), Spelled(p, entries[i].doc, tables), members[i]);
    }
    DictIs(pieces, members, Spelled(p, Dict(entries), tables));
  }

  /** What is sent, line feed included, is one JSON text, and it says exactly what the document says
      with its tables filled from the records. */
  lemma {:induction false} ReportReadsBack(p: Presentation, doc: Doc, rows: seq<Record>, slots: nat)
    requires AllShaped(rows, slots) && AllKnown(doc, slots) && Spellable(p, doc, rows, slots)
    ensures Loads(Spelled(p, doc, Tables(p, rows, slots)) + LINE_FEED) == Some(ValueOf(p, doc, rows, slots))
  {
    var s, v := Spelled(p, doc, Tables(p, rows, slots)), ValueOf(p, doc, rows, slots);
    ReportIsSpelled(p, doc, rows, slots);
    Reads(s, v);
    assert [] + LINE_FEED == LINE_FEED;
    ValueThen(s, LINE_FEED);
    assert (s + LINE_FEED)[0] == s[0];
    assert LINE_FEED[1..] == [];
  }

  // ----- the items of an encoded column

  ghost predicate AreSpelled(pieces: seq<Text>, items: seq<Json>) {
    |pieces| == |items| && forall i | 0 <= i < |items| :: IsValue(pieces[i], items[i], true)
  }

  /** Texts with a comma behind each. */
  function Led(pieces: seq<Text>): Text { if pieces == [] then [] else pieces[0] + ([COMMA] + Led(pieces[1..])) }

  /** Some value is spelled at the front, up to the end or to a delimiter. */
  ghost predicate StartsValue(s: Text) {
    exists body: Text, more: Text, v: Json :: s == body + more && IsValue(body, v, true) && Settled([], more)
  }

  /** Where the iteration over a column stops, and why: at its end, behind a last comma, where no value
      starts, or where something else than a comma follows a value. */
  ghost predicate StopsAt(text: Text, items: seq<Json>, end: End, pieces: seq<Text>, rest: Text) {
    && AreSpelled(pieces, items)
    && match end
       case Complete => text == Join(pieces)
       case TrailingSeparator => pieces != [] && text == Led(pieces)
       case BadItem => rest != [] && text == Led(pieces) + rest && !StartsValue(rest)
       case BadSeparator =>
         && text == Led(pieces) + rest
         && exists body: Text, more: Text, v: Json ::
              rest == body + more && IsValue(body, v, true) && more != [] && more[0] != COMMA
  }

  ghost predicate Stops(text: Text, r: ColumnItems.Rows) {
    exists pieces: seq<Text>, rest: Text :: StopsAt(text, r.items, r.end, pieces, rest)
  }

  lemma {:induction false} NoValueStarts(s: Text)
    requires ParseValue(s).Fail?
    ensures !StartsValue(s)
  {
    if body: Text, more: Text, v: Json :| s == body + more && IsValue(body, v, true) && Settled([], more) {
      Reads(body, v);
      ValueThen(body, more);
    }
  }

  /** The first item and the way the rest ends. */
  lemma {:induction false} OneMoreItem(body: Text, item: Json, later: Text, items: seq<Json>, end: End,
                                       pieces: seq<Text>, rest: Text)
    requires IsValue(body, item, true) && StopsAt(later, items, end, pieces, rest) && (end == Complete ==> pieces != [])
    ensures StopsAt(body + ([COMMA] + later), [item] + items, end, [body] + pieces, rest)
  {
    var all := [body] + pieces;
    assert all[1..] == pieces;
    assert AreSpelled(all, [item] + items);
    if pieces != [] { JoinNext(body, pieces); }
    Grouped([COMMA], Led(pieces), rest);
    Grouped(body, [COMMA] + Led(pieces), rest);
  }

  lemma {:induction false} SplitStops(text: Text, afterComma: bool) returns (pieces: seq<Text>, rest: Text)
    requires text != []
    ensures var r := Split(text, afterComma);
            StopsAt(text, r.items, r.end, pieces, rest) && (r.end == Complete ==> pieces != [])
    decreases |text|
  {
    pieces, rest := [], text;
    var parsed := ParseValue(text);
    assert Led([]) + text == text;
    if parsed.Fail? {
      NoValueStarts(text);
    } else {
      var body := ValueIsRead(text);
      if parsed.rest == [] {
        pieces := [body];
        assert body + [] == body;
      } else if parsed.rest[0] == COMMA {
        var later := parsed.rest[1..];
        FirstOf(parsed.rest);
        var r := Split(later, true);
        if later == [] {
          TrailingStops(body, parsed.value);
          pieces := [body];
        } else {
          pieces, rest := SplitStops(later, true);
          OneMoreItem(body, parsed.value, later, r.items, r.end, pieces, rest);
          pieces := [body] + pieces;
        }
      } else {
        assert rest == body + parsed.rest && IsValue(body, parsed.value, true);
      }
    }
  }

  lemma {:induction false} TrailingStops(body: Text, item: Json)
    requires IsValue(body, item, true)
    ensures StopsAt(body + ([COMMA] + []), [item] + [], TrailingSeparator, [body], [])
  {
    assert [body][1..] == [] && Led([body]) == body + ([COMMA] + Led([]));
  }

  /** However a column ends, the items before are those spelled in it; and it is complete exactly when
      it is spellings joined by commas, or nothing. */
  lemma {:induction false} SplitIs(text: Text)
    ensures Stops(text, Split(text, false))
    ensures forall pieces: seq<Text>, items: seq<Json> | AreSpelled(pieces, items) && text == Join(pieces) ::
              Split(text, false) == ColumnItems.Rows(items, Complete)
  {
    var r := Split(text, false);
    if text == [] {
      assert StopsAt(text, r.items, r.end, [], []);
    } else {
      var pieces, rest := SplitStops(text, false);
      assert StopsAt(text, r.items, r.end, pieces, rest);
    }
    forall pieces: seq<Text>, items: seq<Json> | AreSpelled(pieces, items) && text == Join(pieces)
      ensures Split(text, false) == ColumnItems.Rows(items, Complete)
    {
      forall i | 0 <= i < |items| ensures ParseValue(pieces[i]) == Got(items[i], []) { Reads(pieces[i], items[i]); }
      SplitsJoined(pieces, items, false);
    }
  }
}
