/** The order of a sink's records, said of the records where they stand. */
module RecordMeaning {
  import opened Json
  import opened RecordOrder
  import opened SinkFormat
  import opened SinkRoundTrip

  /** A trade has the next number from 1, an output row the next from 0, there is one constants
      record, and an equity point lacks none of its values. */
  ghost predicate InPlace(records: seq<Record>, k: nat) {
    k < |records| ==>
      var row, earlier := records[k], records[..k];
      && (row.tag == Points("T") ==> row.values != [] && row.values[0] == Int(1 + Occurrences(earlier, Points("T"))))
      && (row.tag == Points("O") ==> row.values != [] && row.values[0] == Int(Occurrences(earlier, Points("O"))))
      && (row.tag == Points("K") ==> Occurrences(earlier, Points("K")) == 0)
      && (row.tag == Points("E") ==> forall i | 1 <= i < |row.values| :: row.values[i] != Null)
  }

  /** The time of an equity point. */
  ghost predicate TimeIs(row: Record, t: int) {
    row.tag == Points("E") && row.values != [] && row.values[0] == Int(t)
  }

  ghost predicate InSequence(records: seq<Record>, j: nat, k: nat) {
    j < k < |records| ==> forall t, u :: TimeIs(records[j], t) && TimeIs(records[k], u) ==> t <= u
  }

  ghost predicate Proper(records: seq<Record>) {
    (forall k: nat :: InPlace(records, k)) && (forall j: nat, k: nat :: InSequence(records, j, k))
  }

  /** Equity points start with a number, as their columns demand. */
  ghost predicate Timed(records: seq<Record>) {
    forall k | 0 <= k < |records| && records[k].tag == Points("E") ::
      records[k].values != [] && records[k].values[0].Int?
  }

  lemma {:induction false} TagsAreSpelled()
    ensures EQUITY_TAG == Points("E") && TRADE_TAG == Points("T") && OUTPUT_TAG == Points("O")
    ensures CONSTANTS_TAG == Points("K") && EVENT_TAG == Points("V")
  {
  }

  lemma {:induction false} OneMore(init: seq<Record>, last: Record, tag: Text)
    ensures Occurrences(init + [last], tag) == Occurrences(init, tag) + if last.tag == tag then 1 else 0
  {
    if init == [] {
      assert init + [last] == [last];
      assert [last][1..] == [];
    } else {
      assert (init + [last])[1..] == init[1..] + [last];
      OneMore(init[1..], last, tag);
    }
  }

  /** The last record, against those before it. */
  ghost predicate LastInSequence(init: seq<Record>, last: Record) {
    forall j | 0 <= j < |init| :: forall t, u :: TimeIs(init[j], t) && TimeIs(last, u) ==> t <= u
  }

  lemma {:induction false} ProperMore(init: seq<Record>, last: Record)
    ensures Proper(init + [last]) <==>
            Proper(init) && InPlace(init + [last], |init|) && LastInSequence(init, last)
  {
    var all, n := init + [last], |init|;
    assert all[n] == last && all[..n] == init && forall k | 0 <= k < n :: all[k] == init[k];
    forall k: nat | k < n ensures InPlace(all, k) <==> InPlace(init, k) { assert all[..k] == init[..k]; }
    forall j: nat, k: nat | k < n ensures InSequence(all, j, k) <==> InSequence(init, j, k) {}
    if Proper(all) {
      forall k: nat ensures InPlace(init, k) { assert InPlace(all, k); }
      forall j: nat, k: nat ensures InSequence(init, j, k) { assert InSequence(all, j, k); }
      forall j | 0 <= j < n ensures forall t, u :: TimeIs(init[j], t) && TimeIs(last, u) ==> t <= u {
        assert InSequence(all, j, n);
      }
    }
    if Proper(init) && InPlace(all, n) && LastInSequence(init, last) {
      forall k: nat ensures InPlace(all, k) { if k < n { assert InPlace(init, k); } }
      forall j: nat, k: nat ensures InSequence(all, j, k) {
        if k < n { assert InSequence(init, j, k); }
      }
    }
  }

  /** What the running checks hold, in terms of the records so far. */
  ghost predicate Holds(o: Order, records: seq<Record>) { HoldsCounts(o, records) && HoldsTime(o, records) }

  ghost predicate HoldsCounts(o: Order, records: seq<Record>) {
    && o.nextTrade == 1 + Occurrences(records, Points("T")) && o.nextOutput == Occurrences(records, Points("O"))
    && o.constants == Occurrences(records, Points("K"))
  }

  ghost predicate HoldsTime(o: Order, records: seq<Record>) {
    && (o.lastTime.None? <==> forall k | 0 <= k < |records| :: records[k].tag != Points("E"))
    && (o.lastTime.Some? ==>
          && (exists k :: 0 <= k < |records| && TimeIs(records[k], o.lastTime.value))
          && (forall k, t | 0 <= k < |records| && TimeIs(records[k], t) :: t <= o.lastTime.value))
  }

  lemma {:induction false} CheckIs(init: seq<Record>, last: Record, o: Order)
    requires Holds(o, init) && Timed(init + [last])
    ensures Check(o, last).Some? <==> InPlace(init + [last], |init|) && LastInSequence(init, last)
  {
    TagsAreSpelled();
    var all := init + [last];
    assert all[|init|] == last && all[..|init|] == init;
    if last.tag == EQUITY_TAG { EquityIs(init, last, o); }
  }

  lemma {:induction false} EquityIs(init: seq<Record>, last: Record, o: Order)
    requires Holds(o, init) && Timed(init + [last]) && last.tag == EQUITY_TAG
    ensures o.lastTime.Some? && Time(last) < o.lastTime.value <==> !LastInSequence(init, last)
  {
    TagsAreSpelled();
    assert (init + [last])[|init|] == last;
    assert TimeIs(last, Time(last));
  }

  lemma {:induction false} CheckHolds(init: seq<Record>, last: Record, o: Order)
    requires Holds(o, init) && Timed(init + [last]) && Check(o, last).Some?
    ensures Holds(Check(o, last).value, init + [last])
  {
    CountsHold(init, last, o);
    TimesHold(init, last, o);
  }

  lemma {:induction false} CountsHold(init: seq<Record>, last: Record, o: Order)
    requires HoldsCounts(o, init) && Check(o, last).Some?
    ensures HoldsCounts(Check(o, last).value, init + [last])
  {
    TagsAreSpelled();
    OneMore(init, last, Points("T"));
    OneMore(init, last, Points("O"));
    OneMore(init, last, Points("K"));
  }

  lemma {:induction false} TimesHold(init: seq<Record>, last: Record, o: Order)
    requires HoldsTime(o, init) && Timed(init + [last]) && Check(o, last).Some?
    ensures HoldsTime(Check(o, last).value, init + [last])
  {
    TagsAreSpelled();
    var all, n := init + [last], |init|;
    assert all[n] == last && forall k | 0 <= k < n :: all[k] == init[k];
    if last.tag == EQUITY_TAG {
      assert TimeIs(all[n], Time(last));
    } else if o.lastTime.Some? {
      var k :| 0 <= k < |init| && TimeIs(init[k], o.lastTime.value);
      assert TimeIs(all[k], o.lastTime.value);
    }
  }

  lemma {:induction false} CheckAllIs(records: seq<Record>)
    requires Timed(records)
    ensures CheckAll(records).Some? <==> Proper(records)
    ensures CheckAll(records).Some? ==> Holds(CheckAll(records).value, records)
  {
    if records != [] {
      var init, last := records[..|records| - 1], records[|records| - 1];
      assert records == init + [last];
      CheckAllIs(init);
      ProperMore(init, last);
      if CheckAll(init).Some? {
        CheckIs(init, last, CheckAll(init).value);
        if CheckAll(records).Some? { CheckHolds(init, last, CheckAll(init).value); }
      }
    }
  }

  /** The checks pass exactly the streams whose records are in place and in sequence. */
  lemma {:induction false} OrderedIs(records: seq<Record>)
    requires Timed(records)
    ensures Ordered(records) <==> Proper(records)
  {
    CheckMeaning(records);
    CheckAllIs(records);
  }
}
