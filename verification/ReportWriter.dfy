/** Emission of the full report: a counting pass, then the same bytes to the descriptor, by
    either route (docker/pineforge_sink_to_json.py). */
module ReportWriter {
  import Bytes
  import opened ColumnItems
  import opened Json
  import opened Machine
  import opened Options
  import opened ReportColumns
  import opened SinkFormat

  const LINE_FEED: Text := [10]

  /** A report: values, tables that come from a stream, arrays and objects. */
  datatype Doc = Value(value: Json) | Rows(stream: Stream) | List(items: seq<Doc>) | Dict(entries: seq<Entry>)
  datatype Entry = Entry(key: Text, doc: Doc)

  predicate AllKnown(doc: Doc, slots: nat) {
    match doc
    case Value(_) => true
    case Rows(s) => Known(s, slots)
    case List(items) => forall i | 0 <= i < |items| :: AllKnown(items[i], slots)
    case Dict(entries) => forall i | 0 <= i < |entries| :: AllKnown(entries[i].doc, slots)
  }

  /** The text of a report, given the text of every table. */
  function Spelled(p: Presentation, doc: Doc, tables: Stream -> Text): Text {
    match doc
    case Value(v) => p.encode(v)
    case Rows(s) => [OPEN_ARRAY] + tables(s) + [CLOSE_ARRAY]
    case List(items) => [OPEN_ARRAY] + Join(SpelledItems(p, items, tables)) + [CLOSE_ARRAY]
    case Dict(entries) => [OPEN_OBJECT] + Join(SpelledEntries(p, entries, tables)) + [CLOSE_OBJECT]
  }

  function SpelledItems(p: Presentation, items: seq<Doc>, tables: Stream -> Text): (r: seq<Text>)
    ensures |r| == |items|
  {
    if items == [] then []
    else SpelledItems(p, items[..|items| - 1], tables) + [Spelled(p, items[|items| - 1], tables)]
  }

  function SpelledKey(p: Presentation, key: Text): Text { p.encode(Str(key)) + [COLON] }

  function SpelledEntries(p: Presentation, entries: seq<Entry>, tables: Stream -> Text): (r: seq<Text>)
    ensures |r| == |entries|
  {
    if entries == [] then []
    else
      SpelledEntries(p, entries[..|entries| - 1], tables) + [SpelledEntry(p, entries[|entries| - 1], tables)]
  }

  function SpelledEntry(p: Presentation, entry: Entry, tables: Stream -> Text): Text {
    SpelledKey(p, entry.key) + Spelled(p, entry.doc, tables)
  }

  /** Bytes are counted, and unless only counted, buffered and sent in order. */
  class Writer {
    const host: Host
    const counting: bool
    var count: nat
    var buffer: Text
    var sent: Text
    ghost var log: Text

    constructor (host: Host, counting: bool)
      ensures this.host == host && this.counting == counting && Valid() && log == [] && sent == []
    {
      this.host, this.counting := host, counting;
      count, buffer, sent, log := 0, [], [], [];
    }

    ghost predicate Valid()
      reads this
    {
      count == |log| && if counting then buffer == [] else sent + buffer == log
    }

    /** All bytes to the descriptor, or a failure after some of them. */
    method Put(data: Text) returns (ok: bool)
      modifies `sent, host
      ensures host.Accounts(ok)
      ensures old(sent) <= sent <= old(sent) + data && (ok ==> sent == old(sent) + data)
    {
      ok := host.Call();
      var choice: int := *;
      var k := if !ok && 0 <= choice < |data| then choice else |data|;
      sent := sent + data[..k];
      assert data[..|data|] == data;
    }

    method Flush() returns (ok: bool)
      requires Valid()
      modifies this, host
      ensures host.Accounts(ok)
      ensures ok ==> Valid() && log == old(log) && buffer == []
      ensures !ok ==> !counting
    {
      ok := true;
      if buffer != [] {
        ok := Put(buffer);
        buffer := [];
        assert ok ==> sent + [] == old(sent) + old(buffer);
      }
    }

    method Write(data: Text) returns (ok: bool)
      requires Valid()
      modifies this, host
      ensures host.Accounts(ok)
      ensures ok ==> Valid() && log == old(log) + data
      ensures !ok ==> !counting
    {
      count := count + |data|;
      log := log + data;
      if counting { return true; }
      if |data| >= CHUNK {
        ok := Put(buffer);
        buffer := [];
        if ok {
          ok := Put(data);
          assert sent + [] == sent;
        }
      } else {
        assert sent + (buffer + data) == sent + buffer + data;
        buffer := buffer + data;
        ok := true;
        if |buffer| >= CHUNK { ok := Flush(); }
      }
    }
  }

  ghost function Tables(p: Presentation, rows: seq<Record>, slots: nat): Stream -> Text
    requires AllShaped(rows, slots)
  {
    s => if Known(s, slots) then TableText(p, rows, s, slots) else []
  }

  /** Appends to what a caller has written so far. */
  method Say(w: Writer, data: Text, ghost before: Text, ghost said: Text) returns (ok: bool)
    requires w.Valid() && w.log == before + said
    modifies w, w.host
    ensures w.host.Accounts(ok)
    ensures ok ==> w.Valid() && w.log == before + (said + data)
  {
    ok := w.Write(data);
    assert before + said + data == before + (said + data);
  }

  /** A comma, unless this is the first item, then the item. */
  lemma {:induction false} ItemSaid(open: point, texts: seq<Text>, item: Text)
    ensures texts == [] ==> [open] + Join(texts) + item == [open] + Join(texts + [item])
    ensures texts != [] ==> [open] + Join(texts) + [COMMA] + item == [open] + Join(texts + [item])
  {
    JoinMore(texts, item);
    if texts == [] {
      assert [open] + Join(texts) == [open];
    } else {
      assert [open] + Join(texts) + [COMMA] + item == [open] + (Join(texts) + [COMMA] + item);
    }
  }

  /** Separates items. */
  method SayComma(w: Writer, first: bool, ghost before: Text, ghost said: Text) returns (ok: bool)
    requires w.Valid() && w.log == before + said
    modifies w, w.host
    ensures w.host.Accounts(ok)
    ensures ok ==> w.Valid() && w.log == before + (if first then said else said + [COMMA])
  {
    ok := true;
    if !first { ok := Say(w, [COMMA], before, said); }
  }

  method SayItem(w: Writer, first: bool, item: Text, ghost before: Text, ghost said: Text)
    returns (ok: bool, ghost more: Text)
    requires w.Valid() && w.log == before + said
    modifies w, w.host
    ensures w.host.Accounts(ok)
    ensures more == (if first then said else said + [COMMA]) + item
    ensures ok ==> w.Valid() && w.log == before + more
  {
    more := (if first then said else said + [COMMA]) + item;
    ok := SayComma(w, first, before, said);
    if !ok { return; }
    ok := Say(w, item, before, if first then said else said + [COMMA]);
  }

  /** A stored column, spliced piece by piece between brackets. */
  method CopyColumn(store: ColumnStore, s: Stream, w: Writer) returns (ok: bool)
    requires w.Valid() && store.host == w.host && !store.failed
    modifies w, w.host
    ensures w.host.Accounts(ok)
    ensures ok ==> w.Valid() && w.log == old(w.log) + ([OPEN_ARRAY] + store.At(s).text + [CLOSE_ARRAY])
  {
    ghost var before, said := w.log, [];
    ok := Say(w, [OPEN_ARRAY], before, said);
    if !ok { return; }
    said := [OPEN_ARRAY];
    var read := store.Pieces(s);
    if read.None? { return false; }
    var pieces := read.value;
    for i := 0 to |pieces|
      invariant w.host.Accounts(true)
      invariant w.Valid() && w.log == before + said && said == [OPEN_ARRAY] + Bytes.Concat(pieces[..i])
    {
      ok := Say(w, pieces[i], before, said);
      if !ok { return; }
      assert pieces[..i + 1] == pieces[..i] + [pieces[i]];
      Bytes.ConcatAppend(pieces[..i], pieces[i]);
      said := said + pieces[i];
    }
    assert pieces[..|pieces|] == pieces;
    ok := Say(w, [CLOSE_ARRAY], before, said);
  }

  /** One record of a replay: its item, if it is of the table's kind. */
  method ReplayRow(p: Presentation, rows: seq<Record>, i: nat, s: Stream, slots: nat, w: Writer, first: bool,
                   ghost before: Text) returns (ok: bool, wrote: bool)
    requires i < |rows| && AllShaped(rows, slots) && AllShaped(rows[..i], slots) && Known(s, slots) && w.Valid()
    requires first <==> Table(p, rows[..i], s, slots) == []
    requires w.log == before + ([OPEN_ARRAY] + TableText(p, rows[..i], s, slots))
    modifies w, w.host
    ensures w.host.Accounts(ok)
    ensures AllShaped(rows[..i + 1], slots)
    ensures first && !wrote <==> Table(p, rows[..i + 1], s, slots) == []
    ensures ok ==> w.Valid() && w.log == before + ([OPEN_ARRAY] + TableText(p, rows[..i + 1], s, slots))
  {
    RowSaid(p, rows, i, s, slots);
    ok, wrote := true, rows[i].tag == TagOf(s);
    if wrote {
      ghost var more;
      ok, more := SayItem(w, first, p.encode(Project(p, s, rows[i], slots)), before,
                          [OPEN_ARRAY] + TableText(p, rows[..i], s, slots));
    }
  }

  /** What one more record adds to the text of a table. */
  lemma {:induction false} RowSaid(p: Presentation, rows: seq<Record>, i: nat, s: Stream, slots: nat)
    requires i < |rows| && AllShaped(rows, slots) && AllShaped(rows[..i], slots) && Known(s, slots)
    ensures AllShaped(rows[..i + 1], slots)
    ensures var said, more := TableText(p, rows[..i], s, slots), TableText(p, rows[..i + 1], s, slots);
            var first := Table(p, rows[..i], s, slots) == [];
            if rows[i].tag == TagOf(s) then
              && Table(p, rows[..i + 1], s, slots) != []
              && [OPEN_ARRAY] + more ==
                 (if first then [OPEN_ARRAY] + said else [OPEN_ARRAY] + said + [COMMA])
                 + p.encode(Project(p, s, rows[i], slots))
            else more == said && (Table(p, rows[..i + 1], s, slots) == [] <==> first)
  {
    TableGrows(p, rows[..i], rows[i], s, slots);
    assert rows[..i] + [rows[i]] == rows[..i + 1];
    if rows[i].tag == TagOf(s) {
      var table, item := Table(p, rows[..i], s, slots), Project(p, s, rows[i], slots);
      assert Texts(p, table + [item]) == Texts(p, table) + [p.encode(item)];
      ItemSaid(OPEN_ARRAY, Texts(p, table), p.encode(item));
    }
  }

  /** The same table from a replay of the records: filtered, projected, written one by one. */
  method ReplayTable(p: Presentation, rows: seq<Record>, s: Stream, slots: nat, w: Writer) returns (ok: bool)
    requires AllShaped(rows, slots) && Known(s, slots) && w.Valid()
    modifies w, w.host
    ensures w.host.Accounts(ok)
    ensures ok ==> w.Valid() && w.log == old(w.log) + ([OPEN_ARRAY] + TableText(p, rows, s, slots) + [CLOSE_ARRAY])
  {
    ghost var before := w.log;
    ok := w.Write([OPEN_ARRAY]);
    if !ok { return; }
    assert [OPEN_ARRAY] + [] == [OPEN_ARRAY];
    var first := true;
    for i := 0 to |rows|
      invariant AllShaped(rows[..i], slots) && w.Valid() && w.host.Accounts(true)
      invariant first <==> Table(p, rows[..i], s, slots) == []
      invariant w.log == before + ([OPEN_ARRAY] + TableText(p, rows[..i], s, slots))
    {
      var wrote;
      ok, wrote := ReplayRow(p, rows, i, s, slots, w, first, before);
      if !ok { return; }
      first := first && !wrote;
    }
    assert rows[..|rows|] == rows;
    ok := Say(w, [CLOSE_ARRAY], before, [OPEN_ARRAY] + TableText(p, rows, s, slots));
  }

  /** One table by whichever route the run takes. */
  method EmitTable(p: Presentation, rows: seq<Record>, s: Stream, slots: nat, store: ColumnStore?, w: Writer)
    returns (ok: bool)
    requires AllShaped(rows, slots) && Known(s, slots) && w.Valid()
    requires store != null ==>
               store.host == w.host && !store.failed && store.At(s).text == TableText(p, rows, s, slots)
    modifies w, w.host
    ensures w.host.Accounts(ok)
    ensures ok ==> w.Valid() && w.log == old(w.log) + ([OPEN_ARRAY] + TableText(p, rows, s, slots) + [CLOSE_ARRAY])
  {
    if store != null {
      ok := CopyColumn(store, s, w);
    } else {
      ok := ReplayTable(p, rows, s, slots, w);
    }
  }

  ghost predicate Loaded(p: Presentation, rows: seq<Record>, slots: nat, store: ColumnStore?, host: Host)
    requires AllShaped(rows, slots)
    reads if store == null then {} else {store}
  {
    store != null ==>
      && store.host == host && !store.failed
      && forall s | Known(s, slots) :: store.At(s).text == TableText(p, rows, s, slots)
  }

  /** Writes exactly the text of the report, whatever the route. */
  method Emit(p: Presentation, rows: seq<Record>, slots: nat, store: ColumnStore?, doc: Doc, w: Writer)
    returns (ok: bool)
    requires AllShaped(rows, slots) && AllKnown(doc, slots) && w.Valid() && Loaded(p, rows, slots, store, w.host)
    modifies w, w.host
    ensures w.host.Accounts(ok)
    ensures ok ==> w.Valid() && w.log == old(w.log) + Spelled(p, doc, Tables(p, rows, slots))
    decreases doc, 1
  {
    match doc {
      case Value(v) => ok := w.Write(p.encode(v));
      case Rows(s) => ok := EmitTable(p, rows, s, slots, store, w);
      case List(items) => ok := EmitItems(p, rows, slots, store, items, w);
      case Dict(entries) => ok := EmitEntries(p, rows, slots, store, entries, w);
    }
  }

  lemma {:induction false} Regroup(a: Text, b: Text, c: Text)
    ensures a + b + c == a + (b + c)
  {
  }

  /** What one more item adds to the text of an array. */
  lemma {:induction false} ItemsMore(p: Presentation, items: seq<Doc>, i: nat, tables: Stream -> Text)
    requires i < |items|
    ensures var said := [OPEN_ARRAY] + Join(SpelledItems(p, items[..i], tables));
            [OPEN_ARRAY] + Join(SpelledItems(p, items[..i + 1], tables)) ==
            (if i == 0 then said else said + [COMMA]) + Spelled(p, items[i], tables)
  {
    assert items[..i + 1][..i] == items[..i];
    ItemSaid(OPEN_ARRAY, SpelledItems(p, items[..i], tables), Spelled(p, items[i], tables));
  }

  lemma {:induction false} EntriesMore(p: Presentation, entries: seq<Entry>, i: nat, tables: Stream -> Text)
    requires i < |entries|
    ensures var said := [OPEN_OBJECT] + Join(SpelledEntries(p, entries[..i], tables));
            [OPEN_OBJECT] + Join(SpelledEntries(p, entries[..i + 1], tables)) ==
            (if i == 0 then said else said + [COMMA]) + SpelledEntry(p, entries[i], tables)
  {
    assert entries[..i + 1][..i] == entries[..i];
    ItemSaid(OPEN_OBJECT, SpelledEntries(p, entries[..i], tables), SpelledEntry(p, entries[i], tables));
  }

  method EmitItems(p: Presentation, rows: seq<Record>, slots: nat, store: ColumnStore?, items: seq<Doc>, w: Writer)
    returns (ok: bool)
    requires AllShaped(rows, slots) && w.Valid() && Loaded(p, rows, slots, store, w.host)
    requires forall i | 0 <= i < |items| :: AllKnown(items[i], slots)
    modifies w, w.host
    ensures w.host.Accounts(ok)
    ensures ok ==> w.Valid() && w.log == old(w.log) + Spelled(p, List(items), Tables(p, rows, slots))
    decreases items, 0
  {
    ghost var tables, before, said := Tables(p, rows, slots), w.log, [];
    ok := Say(w, [OPEN_ARRAY], before, said);
    if !ok { return; }
    said := [OPEN_ARRAY];
    for i := 0 to |items|
      invariant w.host.Accounts(true)
      invariant w.Valid() && w.log == before + said && said == [OPEN_ARRAY] + Join(SpelledItems(p, items[..i], tables))
    {
      ItemsMore(p, items, i, tables);
      ok := SayComma(w, i == 0, before, said);
      if !ok { return; }
      said := if i == 0 then said else said + [COMMA];
      ok := Emit(p, rows, slots, store, items[i], w);
      if !ok { return; }
      Regroup(before, said, Spelled(p, items[i], tables));
      said := said + Spelled(p, items[i], tables);
    }
    assert items[..|items|] == items;
    ok := Say(w, [CLOSE_ARRAY], before, said);
  }

  method EmitEntries(p: Presentation, rows: seq<Record>, slots: nat, store: ColumnStore?, entries: seq<Entry>,
                     w: Writer)
    returns (ok: bool)
    requires AllShaped(rows, slots) && w.Valid() && Loaded(p, rows, slots, store, w.host)
    requires forall i | 0 <= i < |entries| :: AllKnown(entries[i].doc, slots)
    modifies w, w.host
    ensures w.host.Accounts(ok)
    ensures ok ==> w.Valid() && w.log == old(w.log) + Spelled(p, Dict(entries), Tables(p, rows, slots))
    decreases entries, 0
  {
    ghost var tables, before, said := Tables(p, rows, slots), w.log, [];
    ok := Say(w, [OPEN_OBJECT], before, said);
    if !ok { return; }
    said := [OPEN_OBJECT];
    for i := 0 to |entries|
      invariant w.host.Accounts(true)
      invariant w.Valid() && w.log == before + said
      invariant said == [OPEN_OBJECT] + Join(SpelledEntries(p, entries[..i], tables))
    {
      EntriesMore(p, entries, i, tables);
      ok := SayComma(w, i == 0, before, said);
      if !ok { return; }
      said := if i == 0 then said else said + [COMMA];
      ok := EmitEntry(p, rows, slots, store, entries[i], w);
      if !ok { return; }
      Regroup(before, said, SpelledEntry(p, entries[i], tables));
      said := said + SpelledEntry(p, entries[i], tables);
    }
    assert entries[..|entries|] == entries;
    ok := Say(w, [CLOSE_OBJECT], before, said);
  }

  method EmitEntry(p: Presentation, rows: seq<Record>, slots: nat, store: ColumnStore?, entry: Entry, w: Writer)
    returns (ok: bool)
    requires AllShaped(rows, slots) && w.Valid() && Loaded(p, rows, slots, store, w.host) && AllKnown(entry.doc, slots)
    modifies w, w.host
    ensures w.host.Accounts(ok)
    ensures ok ==>
              && w.Valid()
              && w.log == old(w.log) + SpelledEntry(p, entry, Tables(p, rows, slots))
    decreases entry, 0
  {
    ok := w.Write(SpelledKey(p, entry.key));
    if !ok { return; }
    ok := Emit(p, rows, slots, store, entry.doc, w);
    Regroup(old(w.log), SpelledKey(p, entry.key), Spelled(p, entry.doc, Tables(p, rows, slots)));
  }

  method EmitReport(p: Presentation, rows: seq<Record>, slots: nat, store: ColumnStore?, doc: Doc, w: Writer)
    returns (ok: bool)
    requires AllShaped(rows, slots) && AllKnown(doc, slots) && w.Valid() && Loaded(p, rows, slots, store, w.host)
    modifies w, w.host
    ensures w.host.Accounts(ok)
    ensures ok ==> w.Valid() && w.log == old(w.log) + Spelled(p, doc, Tables(p, rows, slots)) + LINE_FEED
    ensures ok && !w.counting ==> w.sent == w.log
  {
    ok := Emit(p, rows, slots, store, doc, w);
    if !ok { return; }
    ok := w.Write(LINE_FEED);
    if !ok { return; }
    ok := w.Flush();
  }

  /** The whole conversion, managed or not: both routes send the same bytes, and the count taken
      beforehand is exactly how many are sent, the final line feed included. */
  method Convert(host: Host, p: Presentation, rows: seq<Record>, slots: nat, doc: Doc, managed: bool)
    returns (ok: bool, preflight: Option<nat>, sent: Text)
    requires AllShaped(rows, slots) && AllKnown(doc, slots)
    modifies host
    ensures NeverEmpty(p) ==> host.Accounts(ok)
    ensures preflight.Some? ==> preflight.value == |Spelled(p, doc, Tables(p, rows, slots))| + 1
    ensures preflight.None? ==> !ok && sent == []
    ensures ok ==> sent == Spelled(p, doc, Tables(p, rows, slots)) + LINE_FEED && |sent| == preflight.value
  {
    var store: ColumnStore? := null;
    if managed {
      store, ok := FillColumns(host, p, rows, slots);
      if !ok { return false, None, []; }
    }
    var counter := new Writer(host, true);
    ok := EmitReport(p, rows, slots, store, doc, counter);
    if !ok { return false, None, []; }
    preflight := Some(counter.count);
    var w := new Writer(host, false);
    ok := EmitReport(p, rows, slots, store, doc, w);
    sent := w.sent;
  }
}
