/** The order the finalizer demands of a sink's records (docker/pineforge_sink_finalize.py):
    the running checks, and what they amount to over a whole stream. */
module RecordOrder {
  import opened Json
  import opened Options
  import opened SinkFormat

  /** What the checks remember. */
  datatype Order = Order(lastTime: Option<int>, nextTrade: nat, nextOutput: nat, constants: nat)

  const START: Order := Order(None, 1, 0, 0)

  function First(record: Record): Json { if record.values == [] then Null else record.values[0] }

  function Time(record: Record): int { if First(record).Int? then First(record).value else 0 }

  predicate Finite(record: Record) { forall i | 1 <= i < |record.values| :: record.values[i] != Null }

  /** One record: none when it is out of order. */
  function Check(o: Order, record: Record): Option<Order> {
    if record.tag == EQUITY_TAG then
      if !Finite(record) || (o.lastTime.Some? && Time(record) < o.lastTime.value) then None
      else Some(o.(lastTime := Some(Time(record))))
    else if record.tag == TRADE_TAG then
      if First(record) != Int(o.nextTrade) then None else Some(o.(nextTrade := o.nextTrade + 1))
    else if record.tag == OUTPUT_TAG then
      if First(record) != Int(o.nextOutput) then None else Some(o.(nextOutput := o.nextOutput + 1))
    else if record.tag == CONSTANTS_TAG then
      if o.constants + 1 > 1 then None else Some(o.(constants := o.constants + 1))
    else Some(o)
  }

  function CheckAll(records: seq<Record>): Option<Order> {
    if records == [] then Some(START)
    else
      match CheckAll(records[..|records| - 1])
      case None => None
      case Some(o) => Check(o, records[|records| - 1])
  }

  function Select(records: seq<Record>, tag: Text): seq<Record> {
    if records == [] then []
    else
      var last := records[|records| - 1];
      Select(records[..|records| - 1], tag) + (if last.tag == tag then [last] else [])
  }

  predicate NumberedAt(records: seq<Record>, start: int, i: int) {
    0 <= i < |records| ==> First(records[i]) == Int(start + i)
  }

  /** First values count up from `start`. */
  ghost predicate Numbered(records: seq<Record>, start: int) {
    forall i :: NumberedAt(records, start, i)
  }

  predicate FiniteAt(records: seq<Record>, i: int) { 0 <= i < |records| ==> Finite(records[i]) }

  predicate NotLater(records: seq<Record>, i: int, j: int) {
    0 <= i < j < |records| ==> Time(records[i]) <= Time(records[j])
  }

  ghost predicate InTime(records: seq<Record>) {
    (forall i :: FiniteAt(records, i)) && (forall i, j :: NotLater(records, i, j))
  }

  ghost predicate OrderedParts(equity: seq<Record>, trades: seq<Record>, outputs: seq<Record>, constants: seq<Record>) {
    InTime(equity) && Numbered(trades, 1) && Numbered(outputs, 0) && |constants| <= 1
  }

  ghost predicate RemembersParts(o: Order, equity: seq<Record>, trades: seq<Record>, outputs: seq<Record>,
                                 constants: seq<Record>) {
    && o.nextTrade == |trades| + 1 && o.nextOutput == |outputs| && o.constants == |constants|
    && o.lastTime == if equity == [] then None else Some(Time(equity[|equity| - 1]))
  }

  /** Equity points are finite and never go back in time, trades are numbered from 1 and outputs
      from 0 without a gap, and constants occur at most once. */
  ghost predicate Ordered(records: seq<Record>) {
    OrderedParts(Select(records, EQUITY_TAG), Select(records, TRADE_TAG), Select(records, OUTPUT_TAG),
                 Select(records, CONSTANTS_TAG))
  }

  /** What the checks remember of a stream. */
  ghost predicate Remembers(o: Order, records: seq<Record>) {
    RemembersParts(o, Select(records, EQUITY_TAG), Select(records, TRADE_TAG), Select(records, OUTPUT_TAG),
                   Select(records, CONSTANTS_TAG))
  }

  lemma {:induction false} CheckMeaning(records: seq<Record>)
    ensures CheckAll(records).Some? <==> Ordered(records)
    ensures CheckAll(records).Some? ==> Remembers(CheckAll(records).value, records)
  {
    if records != [] {
      var init, last := records[..|records| - 1], records[|records| - 1];
      assert records == init + [last];
      CheckMeaning(init);
      if CheckAll(init).Some? { CheckStep(init, last, CheckAll(init).value); } else { OrderedBefore(init, last); }
    }
  }

  /** A record only changes the selection of its own tag. */
  lemma {:induction false} SelectMore(init: seq<Record>, last: Record, tag: Text)
    ensures Select(init + [last], tag) == if last.tag == tag then Select(init, tag) + [last] else Select(init, tag)
  {
    assert (init + [last])[..|init|] == init;
  }

  lemma {:induction false} OrderedBefore(init: seq<Record>, last: Record)
    requires !Ordered(init)
    ensures !Ordered(init + [last])
  {
    SelectMore(init, last, EQUITY_TAG);
    SelectMore(init, last, TRADE_TAG);
    SelectMore(init, last, OUTPUT_TAG);
    SelectMore(init, last, CONSTANTS_TAG);
    TimesKeep(Select(init, EQUITY_TAG), last);
    NumbersKeep(Select(init, TRADE_TAG), last, 1);
    NumbersKeep(Select(init, OUTPUT_TAG), last, 0);
  }

  function With(part: seq<Record>, last: Record, tag: Text): seq<Record> {
    if last.tag == tag then part + [last] else part
  }

  /** One step of the checks decides exactly whether the longer selections are in order. */
  lemma {:induction false} PartsStep(o: Order, e: seq<Record>, t: seq<Record>, v: seq<Record>, k: seq<Record>,
                                     last: Record)
    requires OrderedParts(e, t, v, k) && RemembersParts(o, e, t, v, k)
    ensures var e', t' := With(e, last, EQUITY_TAG), With(t, last, TRADE_TAG);
            var v', k' := With(v, last, OUTPUT_TAG), With(k, last, CONSTANTS_TAG);
            && (Check(o, last).Some? <==> OrderedParts(e', t', v', k'))
            && (Check(o, last).Some? ==> RemembersParts(Check(o, last).value, e', t', v', k'))
  {
    if last.tag == EQUITY_TAG { TimesKeep(e, last); }
    else if last.tag == TRADE_TAG { NumbersKeep(t, last, 1); }
    else if last.tag == OUTPUT_TAG { NumbersKeep(v, last, 0); }
  }

  lemma {:induction false} CheckStep(init: seq<Record>, last: Record, o: Order)
    requires Ordered(init) && Remembers(o, init)
    ensures Check(o, last).Some? <==> Ordered(init + [last])
    ensures Check(o, last).Some? ==> Remembers(Check(o, last).value, init + [last])
  {
    SelectMore(init, last, EQUITY_TAG);
    SelectMore(init, last, TRADE_TAG);
    SelectMore(init, last, OUTPUT_TAG);
    SelectMore(init, last, CONSTANTS_TAG);
    PartsStep(o, Select(init, EQUITY_TAG), Select(init, TRADE_TAG), Select(init, OUTPUT_TAG),
              Select(init, CONSTANTS_TAG), last);
  }

  lemma {:induction false} NumbersKeep(records: seq<Record>, last: Record, start: int)
    ensures Numbered(records + [last], start) <==> Numbered(records, start) && First(last) == Int(start + |records|)
  {
    var all, n := records + [last], |records|;
    assert all[n] == last && forall i | 0 <= i < n :: records[i] == all[i];
    if Numbered(all, start) {
      assert NumberedAt(all, start, n);
      forall i ensures NumberedAt(records, start, i) { assert NumberedAt(all, start, i); }
    }
    if Numbered(records, start) && First(last) == Int(start + n) {
      forall i ensures NumberedAt(all, start, i) { assert NumberedAt(records, start, i); }
    }
  }

  lemma {:induction false} TimesBefore(records: seq<Record>, last: Record)
    requires InTime(records + [last])
    ensures InTime(records) && Finite(last) && (records != [] ==> Time(records[|records| - 1]) <= Time(last))
  {
    var all, n := records + [last], |records|;
    assert all[n] == last && forall i | 0 <= i < n :: records[i] == all[i];
    assert FiniteAt(all, n) && NotLater(all, n - 1, n);
    forall i ensures FiniteAt(records, i) { assert FiniteAt(all, i); }
    forall i, j ensures NotLater(records, i, j) { assert NotLater(all, i, j); }
  }

  lemma {:induction false} TimesAfter(records: seq<Record>, last: Record)
    requires InTime(records) && Finite(last) && (records != [] ==> Time(records[|records| - 1]) <= Time(last))
    ensures InTime(records + [last])
  {
    var all, n := records + [last], |records|;
    assert all[n] == last && forall i | 0 <= i < n :: records[i] == all[i];
    forall i ensures FiniteAt(all, i) { assert FiniteAt(records, i); }
    forall i, j ensures NotLater(all, i, j) { assert NotLater(records, i, j) && NotLater(records, i, n - 1); }
  }

  lemma {:induction false} TimesKeep(records: seq<Record>, last: Record)
    ensures InTime(records + [last]) <==>
              && InTime(records) && Finite(last)
              && (records != [] ==> Time(records[|records| - 1]) <= Time(last))
  {
    if InTime(records + [last]) { TimesBefore(records, last); }
    if InTime(records) && Finite(last) && (records != [] ==> Time(records[|records| - 1]) <= Time(last)) {
      TimesAfter(records, last);
    }
  }
}
