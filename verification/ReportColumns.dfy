/** The converter's two routes to a full report: one pass that transposes the sink into columns
    and splices them, or one replay of the sink per table (docker/pineforge_sink_to_json.py,
    with the append-only store of docker/quota_columns.py). Report text is ASCII, so a code
    point is a byte. */
module ReportColumns {
  import Bytes
  import opened ColumnItems
  import opened Json
  import opened Machine
  import opened Options
  import opened SinkFormat

  const CHUNK: nat := 65536

  datatype Stream = Trades | Equity | Opens | Closes | Events | Numeric(slot: nat)

  /** How records become items, and items text. */
  datatype Presentation = Presentation(
    trade: Record -> Json,
    point: Record -> Json,
    event: Record -> Json,
    scaled: (Json, nat) -> Json,
    encode: Json -> Text)

  function TagOf(s: Stream): Text {
    match s
    case Trades => TRADE_TAG
    case Equity => EQUITY_TAG
    case Events => EVENT_TAG
    case _ => OUTPUT_TAG
  }

  /** Output records carry a row number, two times and one value per slot. */
  predicate Shaped(row: Record, slots: nat) { row.tag == OUTPUT_TAG ==> |row.values| == 3 + slots }

  predicate Known(s: Stream, slots: nat) { s.Numeric? ==> s.slot < slots }

  function Project(p: Presentation, s: Stream, row: Record, slots: nat): Json
    requires row.tag == TagOf(s) && Shaped(row, slots) && Known(s, slots)
  {
    match s
    case Trades => p.trade(row)
    case Equity => p.point(row)
    case Events => p.event(row)
    case Opens => row.values[1]
    case Closes => row.values[2]
    case Numeric(slot) => p.scaled(row.values[3 + slot], slot)
  }

  predicate AllShaped(rows: seq<Record>, slots: nat) { forall i | 0 <= i < |rows| :: Shaped(rows[i], slots) }

  /** The table of a stream: the records of its tag, projected, in order. */
  function Table(p: Presentation, rows: seq<Record>, s: Stream, slots: nat): seq<Json>
    requires AllShaped(rows, slots) && Known(s, slots)
  {
    if rows == [] then []
    else
      var last := rows[|rows| - 1];
      Table(p, rows[..|rows| - 1], s, slots)
        + if last.tag == TagOf(s) then [Project(p, s, last, slots)] else []
  }

  function Texts(p: Presentation, items: seq<Json>): (r: seq<Text>)
    ensures |r| == |items|
  {
    seq(|items|, i requires 0 <= i < |items| => p.encode(items[i]))
  }

  function TableText(p: Presentation, rows: seq<Record>, s: Stream, slots: nat): Text
    requires AllShaped(rows, slots) && Known(s, slots)
  {
    Join(Texts(p, Table(p, rows, s, slots)))
  }

  lemma {:induction false} JoinMore(texts: seq<Text>, last: Text)
    ensures Join(texts + [last]) == if texts == [] then last else Join(texts) + [COMMA] + last
  {
    if |texts| == 0 {
      assert texts + [last] == [last];
    } else {
      assert (texts + [last])[1..] == texts[1..] + [last];
      JoinMore(texts[1..], last);
      if |texts| == 1 {
        assert texts[1..] == [];
      } else {
        assert texts[0] + [COMMA] + (Join(texts[1..]) + [COMMA] + last) == Join(texts) + [COMMA] + last;
      }
    }
  }

  /** What one more record does to the text of a stream. */
  function Grown(p: Presentation, text: Text, count: nat, item: Json): Text {
    if count == 0 then p.encode(item) else text + [COMMA] + p.encode(item)
  }

  lemma {:induction false} TableGrows(p: Presentation, rows: seq<Record>, row: Record, s: Stream, slots: nat)
    requires AllShaped(rows, slots) && Shaped(row, slots) && Known(s, slots)
    ensures AllShaped(rows + [row], slots)
    ensures var before := Table(p, rows, s, slots);
            var after := Table(p, rows + [row], s, slots);
            if row.tag == TagOf(s) then
              var item := Project(p, s, row, slots);
              && after == before + [item]
              && TableText(p, rows + [row], s, slots) == Grown(p, TableText(p, rows, s, slots), |before|, item)
            else after == before
  {
    assert (rows + [row])[..|rows|] == rows;
    if row.tag == TagOf(s) {
      var before, item := Table(p, rows, s, slots), Project(p, s, row, slots);
      assert Texts(p, before + [item]) == Texts(p, before) + [p.encode(item)];
      JoinMore(Texts(p, before), p.encode(item));
    }
  }

  /** A stored column decodes to the table it was filled from, provided the item spelling is
      read back. */
  lemma {:induction false} StoredItems(p: Presentation, rows: seq<Record>, s: Stream, slots: nat)
    requires AllShaped(rows, slots) && Known(s, slots)
    requires forall v | v in Table(p, rows, s, slots) :: ParseValue(p.encode(v)) == Got(v, [])
    ensures Split(TableText(p, rows, s, slots), false) == Rows(Table(p, rows, s, slots), Complete)
  {
    var items := Table(p, rows, s, slots);
    forall i | 0 <= i < |items| ensures ParseValue(Texts(p, items)[i]) == Got(items[i], []) {
      assert items[i] in items;
    }
    SplitsJoined(Texts(p, items), items, false);
  }

  /** Encoded items of one stream, with the commas between them. */
  datatype Chain = Chain(text: Text, count: nat)

  function Filled(p: Presentation, rows: seq<Record>, s: Stream, slots: nat): Chain
    requires AllShaped(rows, slots) && Known(s, slots)
  {
    Chain(TableText(p, rows, s, slots), |Table(p, rows, s, slots)|)
  }

  /** No item is spelled by nothing. */
  ghost predicate NeverEmpty(p: Presentation) { forall v :: p.encode(v) != [] }

  /** `failed`: an append broke off, and nothing is appended or read any more. */
  class ColumnStore {
    const host: Host
    const slots: nat
    var columns: map<Stream, Chain>
    var failed: bool

    constructor (host: Host, slots: nat)
      ensures this.host == host && this.slots == slots && columns == map[] && !failed
    {
      this.host, this.slots := host, slots;
      columns, failed := map[], false;
    }

    function At(s: Stream): Chain
      reads this
    {
      if s in columns then columns[s] else Chain([], 0)
    }

    /** Empty data is refused; an append that breaks off may leave part of itself behind. */
    method Append(s: Stream, data: Text) returns (ok: bool)
      requires Known(s, slots)
      modifies this, host
      ensures host.Accounts(ok || old(failed) || data == [])
      ensures ok ==> !old(failed) && data != []
      ensures failed == (old(failed) || (!ok && data != []))
      ensures ok ==> At(s).count == old(At(s)).count + 1
      ensures ok ==> At(s).text == if old(At(s)).count == 0 then data else old(At(s)).text + [COMMA] + data
      ensures forall t | t != s :: At(t) == old(At(t))
    {
      if failed || data == [] { return false; }
      var column, choice: int := At(s), *;
      var more := if column.count == 0 then data else [COMMA] + data;
      ok := host.Call();
      var written := if !ok && 0 <= choice < |more| then choice else |more|;
      assert ok ==> column.count != 0 ==> column.text + [COMMA] + data == column.text + more[..written];
      assert more[..|more|] == more;
      var text := if column.count == 0 then more[..written] else column.text + more[..written];
      columns := columns[s := Chain(text, if ok then column.count + 1 else column.count)];
      failed := !ok;
    }

    /** The stored text in blocks of any size, of a store that did not fail. */
    method Pieces(s: Stream) returns (r: Option<seq<Text>>)
      modifies host
      ensures host.Accounts(r.Some? || failed)
      ensures r.Some? ==> !failed && Bytes.Concat(r.value) == At(s).text
    {
      if failed { return None; }
      var rest, pieces := At(s).text, [];
      while rest != []
        invariant Bytes.Concat(pieces) + rest == At(s).text && host.Accounts(true)
        decreases |rest|
      {
        var ok := host.Call();                     // the next block can be read
        if !ok { return None; }
        var k: nat := *;
        k := if 1 <= k <= |rest| then k else |rest|;
        Bytes.ConcatAppend(pieces, rest[..k]);
        assert Bytes.Concat(pieces) + rest == Bytes.Concat(pieces) + rest[..k] + rest[k..];
        pieces := pieces + [rest[..k]];
        rest := rest[k..];
      }
      r := Some(pieces);
    }
  }

  /** Every stream but those in `todo` has taken the last record. */
  ghost predicate UpTo(p: Presentation, store: ColumnStore, rows: seq<Record>, row: Record, todo: set<Stream>)
    requires AllShaped(rows, store.slots) && AllShaped(rows + [row], store.slots)
    reads store
  {
    forall s | Known(s, store.slots) ::
      store.At(s) == Filled(p, if s in todo then rows else rows + [row], s, store.slots)
  }

  /** One stream takes its item of the record. */
  method Take(p: Presentation, store: ColumnStore, ghost rows: seq<Record>, row: Record, s: Stream,
              ghost todo: set<Stream>) returns (ok: bool)
    requires AllShaped(rows, store.slots) && Shaped(row, store.slots) && AllShaped(rows + [row], store.slots)
    requires Known(s, store.slots) && s in todo && row.tag == TagOf(s) && UpTo(p, store, rows, row, todo)
    requires !store.failed
    modifies store, store.host
    ensures NeverEmpty(p) ==> store.host.Accounts(ok)
    ensures ok ==> !store.failed && UpTo(p, store, rows, row, todo - {s})
  {
    TableGrows(p, rows, row, s, store.slots);
    assert store.At(s) == Filled(p, rows, s, store.slots);
    ok := store.Append(s, p.encode(Project(p, s, row, store.slots)));
    assert ok ==> store.At(s) == Filled(p, rows + [row], s, store.slots);
  }

  /** The streams a record is spread over. */
  function Targets(row: Record, slots: nat): set<Stream> {
    if row.tag == TRADE_TAG then {Trades}
    else if row.tag == EQUITY_TAG then {Equity}
    else if row.tag == EVENT_TAG then {Events}
    else if row.tag == OUTPUT_TAG then {Opens, Closes} + Slots(0, slots)
    else {}
  }

  function Slots(from: nat, slots: nat): set<Stream> {
    set k | from <= k < slots :: Numeric(k)
  }

  lemma {:induction false} OnlyTargetsGrow(p: Presentation, rows: seq<Record>, row: Record, slots: nat)
    requires AllShaped(rows, slots) && Shaped(row, slots)
    ensures AllShaped(rows + [row], slots)
    ensures forall s | Known(s, slots) && s !in Targets(row, slots) ::
              Filled(p, rows + [row], s, slots) == Filled(p, rows, s, slots)
  {
    assert (rows + [row])[..|rows|] == rows;
    forall s | Known(s, slots) && s !in Targets(row, slots)
      ensures Filled(p, rows + [row], s, slots) == Filled(p, rows, s, slots)
    {
      TableGrows(p, rows, row, s, slots);
    }
  }

  lemma {:induction false} SlotsShrink(from: nat, slots: nat)
    requires from < slots
    ensures Numeric(from) in Slots(from, slots) && Slots(from, slots) - {Numeric(from)} == Slots(from + 1, slots)
  {
  }

  lemma {:induction false} TimesFirst(slots: nat)
    ensures {Opens, Closes} + Slots(0, slots) - {Opens} - {Closes} == Slots(0, slots)
    ensures Slots(slots, slots) == {}
  {
  }

  method TakeSlots(p: Presentation, store: ColumnStore, ghost rows: seq<Record>, row: Record) returns (ok: bool)
    requires AllShaped(rows, store.slots) && Shaped(row, store.slots) && AllShaped(rows + [row], store.slots)
    requires row.tag == OUTPUT_TAG && UpTo(p, store, rows, row, Slots(0, store.slots))
    requires !store.failed
    modifies store, store.host
    ensures NeverEmpty(p) ==> store.host.Accounts(ok)
    ensures ok ==> !store.failed && UpTo(p, store, rows, row, Slots(store.slots, store.slots))
  {
    for slot := 0 to store.slots
      invariant !store.failed && (NeverEmpty(p) ==> store.host.Accounts(true))
      invariant UpTo(p, store, rows, row, Slots(slot, store.slots))
    {
      SlotsShrink(slot, store.slots);
      ok := Take(p, store, rows, row, Numeric(slot), Slots(slot, store.slots));
      if !ok { return; }
    }
    ok := true;
  }

  /** An output record goes to both time columns and to every slot. */
  method TakeOutput(p: Presentation, store: ColumnStore, ghost rows: seq<Record>, row: Record) returns (ok: bool)
    requires AllShaped(rows, store.slots) && Shaped(row, store.slots) && AllShaped(rows + [row], store.slots)
    requires row.tag == OUTPUT_TAG && UpTo(p, store, rows, row, {Opens, Closes} + Slots(0, store.slots))
    requires !store.failed
    modifies store, store.host
    ensures NeverEmpty(p) ==> store.host.Accounts(ok)
    ensures ok ==> !store.failed && UpTo(p, store, rows, row, {})
  {
    ghost var todo := {Opens, Closes} + Slots(0, store.slots);
    ok := Take(p, store, rows, row, Opens, todo);
    if !ok { return; }
    ok := Take(p, store, rows, row, Closes, todo - {Opens});
    if !ok { return; }
    TimesFirst(store.slots);
    ok := TakeSlots(p, store, rows, row);
  }

  method TakeRow(p: Presentation, store: ColumnStore, ghost rows: seq<Record>, row: Record) returns (ok: bool)
    requires AllShaped(rows, store.slots) && Shaped(row, store.slots) && AllShaped(rows + [row], store.slots)
    requires UpTo(p, store, rows, row, Targets(row, store.slots))
    requires !store.failed
    modifies store, store.host
    ensures NeverEmpty(p) ==> store.host.Accounts(ok)
    ensures ok ==> !store.failed && UpTo(p, store, rows, row, {})
  {
    ok := true;
    if row.tag == TRADE_TAG {
      ok := Take(p, store, rows, row, Trades, {Trades});
      assert {Trades} - {Trades} == {};
    } else if row.tag == EQUITY_TAG {
      ok := Take(p, store, rows, row, Equity, {Equity});
      assert {Equity} - {Equity} == {};
    } else if row.tag == OUTPUT_TAG {
      ok := TakeOutput(p, store, rows, row);
    } else if row.tag == EVENT_TAG {
      ok := Take(p, store, rows, row, Events, {Events});
      assert {Events} - {Events} == {};
    }
  }

  /** One pass over the records leaves in every stream exactly its table, unless an append
      fails. */
  method FillColumns(host: Host, p: Presentation, rows: seq<Record>, slots: nat)
    returns (store: ColumnStore, ok: bool)
    requires AllShaped(rows, slots)
    modifies host
    ensures fresh(store) && store.slots == slots && store.host == host && (ok ==> !store.failed)
    ensures NeverEmpty(p) ==> host.Accounts(ok)
    ensures ok ==> forall s | Known(s, slots) :: store.At(s) == Filled(p, rows, s, slots)
  {
    store := new ColumnStore(host, slots);
    for i := 0 to |rows|
      invariant AllShaped(rows[..i], slots) && !store.failed && (NeverEmpty(p) ==> host.Accounts(true))
      invariant forall s | Known(s, slots) :: store.At(s) == Filled(p, rows[..i], s, slots)
    {
      OnlyTargetsGrow(p, rows[..i], rows[i], slots);
      ok := TakeRow(p, store, rows[..i], rows[i]);
      if !ok { return; }
      assert rows[..i] + [rows[i]] == rows[..i + 1];
    }
    assert rows[..|rows|] == rows;
    ok := true;
  }
}
