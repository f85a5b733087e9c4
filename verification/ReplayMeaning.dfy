/** What accepting a bound companion means, by the fields of its rows alone. */
module ReplayMeaning {
  import opened KeyedSums
  import opened Numbering
  import opened Options
  import opened ReplayBound
  import opened ReplaySlices

  // ----- the slices of a parent

  /** Where the rows of a parent are. */
  function Places(rs: seq<ReplayRow>, parent: nat): seq<nat> {
    if rs == [] then []
    else var n := |rs| - 1; Places(rs[..n], parent) + (if MarkedWith(rs[n], parent) then [n] else [])
  }

  lemma {:induction false} PlacesAre(rs: seq<ReplayRow>, ts: seq<TradeRow>, parent: nat)
    requires |rs| == |ts|
    ensures |Places(rs, parent)| == |RowsOf(rs, ts, parent)| && Increasing(Places(rs, parent))
    ensures forall j | 0 <= j < |Places(rs, parent)| :: PlacedAt(rs, ts, parent, j)
    ensures forall i | 0 <= i < |rs| && MarkedWith(rs[i], parent) :: i in Places(rs, parent)
  {
    if rs != [] {
      var n := |rs| - 1;
      var before, trades := rs[..n], ts[..n];
      PlacesAre(before, trades, parent);
      assert forall i | 0 <= i < n :: before[i] == rs[i] && trades[i] == ts[i];
      forall j | 0 <= j < |Places(before, parent)| ensures Places(before, parent)[j] < n {
        assert PlacedAt(before, trades, parent, j);
      }
      forall j | 0 <= j < |Places(rs, parent)| ensures PlacedAt(rs, ts, parent, j) {
        if j < |Places(before, parent)| { assert PlacedAt(before, trades, parent, j); }
      }
    }
  }

  ghost predicate PlacedAt(rs: seq<ReplayRow>, ts: seq<TradeRow>, parent: nat, j: nat)
    requires |rs| == |ts|
  {
    && j < |Places(rs, parent)| && j < |RowsOf(rs, ts, parent)|
    && var i := Places(rs, parent)[j];
       i < |rs| && MarkedWith(rs[i], parent) && RowsOf(rs, ts, parent)[j] == MarkedRow(rs[i], ts[i])
  }

  /** The slice a marked row presents. */
  ghost predicate IsSlice(r: ReplayRow, t: TradeRow, s: Slice) {
    && r.settlement == Some(s.settlement) && r.mark.Some? && s.child == r.mark.value.child
    && s.transactionQty == r.mark.value.transactionQty && s.transactionFee == r.mark.value.transactionFee
    && s.whole == r.mark.value.whole && s.trade == t.trade
  }

  ghost predicate ListedAt(rs: seq<ReplayRow>, ts: seq<TradeRow>, recut: bool, rows: seq<Slice>, i: nat)
    requires i < |rs| == |ts| && rs[i].mark.Some?
  {
    var m := rs[i].mark.value;
    m.index < |rows| && m.count == |rows| && m.recut == recut && IsSlice(rs[i], ts[i], rows[m.index])
  }

  /** The marked rows of a parent present exactly these slices, each number once. */
  ghost predicate Lists(rs: seq<ReplayRow>, ts: seq<TradeRow>, parent: nat, recut: bool, rows: seq<Slice>)
    requires |rs| == |ts|
  {
    && rows != []
    && (forall i | 0 <= i < |rs| && MarkedWith(rs[i], parent) :: ListedAt(rs, ts, recut, rows, i))
    && (forall i, j | 0 <= i < j < |rs| && MarkedWith(rs[i], parent) && MarkedWith(rs[j], parent) ::
          rs[i].mark.value.index != rs[j].mark.value.index)
    && (forall k: nat | k < |rows| :: NumberGiven(rs, parent, k))
  }

  ghost predicate NumberGiven(rs: seq<ReplayRow>, parent: nat, k: nat) {
    exists i :: 0 <= i < |rs| && MarkedWith(rs[i], parent) && rs[i].mark.value.index == k
  }

  lemma {:induction false} NumberedIsListed(rs: seq<ReplayRow>, ts: seq<TradeRow>, parent: nat)
    requires |rs| == |ts| && RowsValid(rs)
    requires var ms := RowsOf(rs, ts, parent); ms != [] && Numbered(ms)
    ensures var ms := RowsOf(rs, ts, parent); Lists(rs, ts, parent, ms[0].recut, InOrder(ms))
  {
    var ms, places := RowsOf(rs, ts, parent), Places(rs, parent);
    PlacesAre(rs, ts, parent);
    InOrderPlaces(ms);
    forall i | 0 <= i < |rs| && MarkedWith(rs[i], parent) ensures ListedAt(rs, ts, ms[0].recut, InOrder(ms), i) {
      assert RowValid(rs[i]);
      var j :| 0 <= j < |places| && places[j] == i;
      assert PlacedAt(rs, ts, parent, j);
    }
    forall i, j | 0 <= i < j < |rs| && MarkedWith(rs[i], parent) && MarkedWith(rs[j], parent)
      ensures rs[i].mark.value.index != rs[j].mark.value.index
    {
      var a :| 0 <= a < |places| && places[a] == i;
      var b :| 0 <= b < |places| && places[b] == j;
      assert PlacedAt(rs, ts, parent, a) && PlacedAt(rs, ts, parent, b);
      assert IndexList(ms)[a] == rs[i].mark.value.index && IndexList(ms)[b] == rs[j].mark.value.index;
    }
    forall k: nat | k < |ms| ensures NumberGiven(rs, parent, k) {
      NumberingIsOnto(IndexList(ms), k);
      var j :| 0 <= j < |ms| && IndexList(ms)[j] == k;
      assert PlacedAt(rs, ts, parent, j);
    }
  }

  lemma {:induction false} ListedIndexes(rs: seq<ReplayRow>, ts: seq<TradeRow>, parent: nat, recut: bool,
                                         rows: seq<Slice>)
    requires |rs| == |ts| && Lists(rs, ts, parent, recut, rows)
    ensures var xs := IndexList(RowsOf(rs, ts, parent));
            NoDuplicates(xs) && Elements(xs) == Below(|rows|) && |xs| == |rows|
  {
    var ms, places := RowsOf(rs, ts, parent), Places(rs, parent);
    var xs := IndexList(ms);
    PlacesAre(rs, ts, parent);
    BelowIs(|rows|);
    forall a, b | 0 <= a < b < |xs| ensures xs[a] != xs[b] {
      assert PlacedAt(rs, ts, parent, a) && PlacedAt(rs, ts, parent, b) && places[a] < places[b];
    }
    forall a | 0 <= a < |xs| ensures xs[a] in Below(|rows|) {
      assert PlacedAt(rs, ts, parent, a) && ListedAt(rs, ts, recut, rows, places[a]);
    }
    forall k: nat | k < |rows| ensures k in xs {
      assert NumberGiven(rs, parent, k);
      var i :| 0 <= i < |rs| && MarkedWith(rs[i], parent) && rs[i].mark.value.index == k;
      var a :| 0 <= a < |places| && places[a] == i;
      assert PlacedAt(rs, ts, parent, a) && xs[a] == k;
    }
    CountDistinct(xs);
  }

  lemma {:induction false} ListedIsNumbered(rs: seq<ReplayRow>, ts: seq<TradeRow>, parent: nat, recut: bool,
                                            rows: seq<Slice>)
    requires |rs| == |ts| && RowsValid(rs) && Lists(rs, ts, parent, recut, rows)
    ensures var ms := RowsOf(rs, ts, parent); ms != [] && Numbered(ms) && InOrder(ms) == rows && ms[0].recut == recut
  {
    var ms, places := RowsOf(rs, ts, parent), Places(rs, parent);
    PlacesAre(rs, ts, parent);
    ListedIndexes(rs, ts, parent, recut, rows);
    BelowIs(|rows|);
    forall a | 0 <= a < |ms|
      ensures ms[a].index < |rows| && ms[a].count == |rows| && ms[a].recut == recut && ms[a].slice == rows[ms[a].index]
    {
      assert PlacedAt(rs, ts, parent, a) && ListedAt(rs, ts, recut, rows, places[a]) && RowValid(rs[places[a]]);
    }
    forall a | 0 <= a < |ms| ensures IndexList(ms)[a] < |ms| {}
    InOrderPlaces(ms);
    forall k | 0 <= k < |rows| ensures InOrder(ms)[k] == rows[k] {
      assert k in Below(|rows|) && k in IndexList(ms);
      var a :| 0 <= a < |ms| && IndexList(ms)[a] == k;
    }
  }

  /** A parent's slices in order are accepted. */
  ghost predicate ParentAccepted(rs: seq<ReplayRow>, ts: seq<TradeRow>, parent: nat, pointvalue: real, tolerance: real)
    requires |rs| == |ts| && tolerance >= 0.0
  {
    exists recut, rows ::
      Lists(rs, ts, parent, recut, rows) && RecordsOk(rows) && Consistent(rows)
      && AcceptedAs(rows, recut, pointvalue, tolerance)
  }

  ghost predicate AcceptedAs(rows: seq<Slice>, recut: bool, pointvalue: real, tolerance: real)
    requires RecordsOk(rows) && Consistent(rows) && tolerance >= 0.0
  {
    ParentOfOk(rows, recut, pointvalue, tolerance);
    Check(ParentOf(rows, recut, pointvalue, tolerance), rows) == Accepted
  }

  lemma {:induction false} ParentIsPlain(rs: seq<ReplayRow>, ts: seq<TradeRow>, parent: nat, pointvalue: real,
                                         tolerance: real)
    requires |rs| == |ts| && RowsValid(rs) && tolerance >= 0.0
    ensures ParentAccepted(rs, ts, parent, pointvalue, tolerance) <==>
            GroupedOk(rs, ts, parent) && Presented(rs, ts, parent, pointvalue, tolerance)
  {
    var ms := RowsOf(rs, ts, parent);
    if ms != [] { GroupIsNumbered(ms); }
    if GroupedOk(rs, ts, parent) && Presented(rs, ts, parent, pointvalue, tolerance) {
      NumberedIsListed(rs, ts, parent);
      assert AcceptedAs(InOrder(ms), ms[0].recut, pointvalue, tolerance);
    }
    if ParentAccepted(rs, ts, parent, pointvalue, tolerance) {
      var recut, rows :|
        Lists(rs, ts, parent, recut, rows) && RecordsOk(rows) && Consistent(rows)
        && AcceptedAs(rows, recut, pointvalue, tolerance);
      ListedIsNumbered(rs, ts, parent, recut, rows);
    }
  }

  // ----- the whole companion

  /** An equity point in its place that shows the capital, its settlements' profits and its term, as
      its basis has it. */
  ghost predicate PointShows(sc: Scalars, wholes: seq<Whole>, i: nat, q: ReplayPoint, e: EquityRow) {
    && q.index == i && q.time == e.time
    && (q.basis == Anchor ==> i == 0 && e.equity == Some(sc.capital))
    && (q.basis != Anchor ==> q.count <= |wholes| && q.net == Sum(WholeProfits(wholes)[..q.count]))
    && (q.basis == TerminalQuote ==> e.equity == Some(sc.capital + q.term))
    && (q.basis == KernelOpen || q.basis == RangeEnd ==> e.equity == Some(sc.capital + q.net + q.term))
  }

  ghost predicate Shown(sc: Scalars, rs: seq<ReplayRow>, ts: seq<TradeRow>, qs: seq<ReplayPoint>, es: seq<EquityRow>,
                        wholes: seq<Whole>)
  {
    && |rs| == |ts| && |qs| == |es| && Settles(rs, ts, wholes) && sc.net == Sum(WholeProfits(wholes))
    && (forall i | 0 <= i < |rs| :: CoversTrade(rs, ts, i))
    && (forall i, j | 0 <= i < j < |rs| :: SharedProperly(rs, i, j))
    && (forall i | 0 <= i < |qs| :: PointShows(sc, wholes, i, qs[i], es[i]))
  }

  lemma {:induction false} AcceptedIsShown(sc: Scalars, rs: seq<ReplayRow>, ts: seq<TradeRow>, qs: seq<ReplayPoint>,
                                           es: seq<EquityRow>, tolerance: real)
    returns (wholes: seq<Whole>)
    requires BoundOk(sc, rs, ts, qs, es, tolerance)
    ensures Shown(sc, rs, ts, qs, es, wholes)
  {
    wholes := AcceptedSettlements(sc, rs, ts, qs, es, tolerance);
    var os := JoinAll(rs, ts).value;
    forall i | 0 <= i < |qs| ensures PointShows(sc, wholes, i, qs[i], es[i]) {
      assert PointOk(os, sc, i, qs[i], es[i]);
      if qs[i].basis != Anchor { NetIsSum(os, wholes, qs[i].count); }
    }
  }

  lemma {:induction false} ShownIsJoined(rs: seq<ReplayRow>, ts: seq<TradeRow>, wholes: seq<Whole>)
    requires |rs| == |ts| && Settles(rs, ts, wholes)
    requires forall i | 0 <= i < |rs| :: CoversTrade(rs, ts, i)
    requires forall i, j | 0 <= i < j < |rs| :: SharedProperly(rs, i, j)
    ensures Joined(rs, ts)
  {
    forall i | 0 <= i < |rs|
      ensures Covers(i, rs[i], ts[i]) && (rs[i].settlement.Some? ==> Operands(rs[i], ts[i].trade).Some?)
    {
      assert CoversTrade(rs, ts, i);
    }
    forall i, j | 0 <= i < j < |rs| ensures Compatible(rs[i], ts[i], rs[j], ts[j]) {
      assert SharedProperly(rs, i, j);
    }
  }

  lemma {:induction false} OperandsAre(r: ReplayRow, t: TradeRow, w: Whole)
    requires StandsFor(r, t, w)
    ensures Operands(r, t.trade) == Some(w)
  {
  }

  /** What the settlement pass collected is what the rows stand for. */
  lemma {:induction false} CollectedIs(os: Originals, rs: seq<ReplayRow>, ts: seq<TradeRow>, wholes: seq<Whole>)
    requires |rs| == |ts| && Settles(rs, ts, wholes) && Describes(os, rs, ts)
    ensures Dense(os) && |os| == |wholes|
    ensures forall s: nat | s < |wholes| :: s in os && os[s].whole == wholes[s]
  {
    forall s: nat | s in os ensures s < |wholes| { assert Arises(rs, s); }
    forall s: nat | s < |wholes| ensures s in os && os[s].whole == wholes[s] {
      assert Arises(rs, s);
      var i :| 0 <= i < |rs| && rs[i].settlement == Some(s);
      assert Described(os, rs[i], ts[i]);
      OperandsAre(rs[i], ts[i], wholes[s]);
    }
    BelowIs(|wholes|);
    assert os.Keys == Below(|wholes|);
  }

  /** A bound companion is accepted exactly when its rows and points show one set of settlements, by
      their fields, and the slices of every parent are accepted in their order. */
  lemma {:induction false} BoundIsPlain(sc: Scalars, rs: seq<ReplayRow>, ts: seq<TradeRow>, qs: seq<ReplayPoint>,
                                        es: seq<EquityRow>, tolerance: real)
    requires RowsValid(rs) && tolerance >= 0.0
    ensures BoundOk(sc, rs, ts, qs, es, tolerance) <==>
            && (exists wholes :: Shown(sc, rs, ts, qs, es, wholes))
            && forall p | p in Parents(rs) :: ParentAccepted(rs, ts, p, sc.pointvalue, tolerance)
  {
    if |rs| == |ts| {
      forall p | p in Parents(rs)
        ensures ParentAccepted(rs, ts, p, sc.pointvalue, tolerance) <==>
                GroupedOk(rs, ts, p) && Presented(rs, ts, p, sc.pointvalue, tolerance)
      {
        ParentIsPlain(rs, ts, p, sc.pointvalue, tolerance);
      }
    }
    if BoundOk(sc, rs, ts, qs, es, tolerance) {
      var wholes := AcceptedIsShown(sc, rs, ts, qs, es, tolerance);
    }
    if wholes :| Shown(sc, rs, ts, qs, es, wholes) {
      ShownIsJoined(rs, ts, wholes);
      JoinIsExact(rs, ts);
      var os := JoinAll(rs, ts).value;
      CollectedIs(os, rs, ts, wholes);
      ShownNets(os, sc, qs, es, wholes);
    }
  }

  lemma {:induction false} ShownNets(os: Originals, sc: Scalars, qs: seq<ReplayPoint>, es: seq<EquityRow>,
                                     wholes: seq<Whole>)
    requires Dense(os) && |os| == |wholes| && forall s: nat | s < |wholes| :: s in os && os[s].whole == wholes[s]
    requires sc.net == Sum(WholeProfits(wholes)) && |qs| == |es|
    requires forall i | 0 <= i < |qs| :: PointShows(sc, wholes, i, qs[i], es[i])
    ensures sc.net == NetTo(os, |os|) && forall i | 0 <= i < |qs| :: PointOk(os, sc, i, qs[i], es[i])
  {
    NetIsSum(os, wholes, |wholes|);
    assert WholeProfits(wholes)[..|wholes|] == WholeProfits(wholes);
    forall i | 0 <= i < |qs| ensures PointOk(os, sc, i, qs[i], es[i]) {
      assert PointShows(sc, wholes, i, qs[i], es[i]);
      if qs[i].basis != Anchor { NetIsSum(os, wholes, qs[i].count); }
    }
  }
}
