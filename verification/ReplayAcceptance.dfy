/** What accepting a bound companion implies for the money it presents, in exact arithmetic. */
module ReplayAcceptance {
  import opened KeyedSums
  import opened Options
  import opened ReplayBound
  import opened ReplayConservation
  import opened ReplayRecut
  import opened ReplaySlices

  lemma {:induction false} RowIsListed(rs: seq<ReplayRow>, ts: seq<TradeRow>, parent: nat, i: nat)
    requires |rs| == |ts| && i < |rs| && MarkedWith(rs[i], parent)
    ensures MarkedRow(rs[i], ts[i]) in RowsOf(rs, ts, parent)
  {
    var n := |rs| - 1;
    if i < n { RowIsListed(rs[..n], ts[..n], parent, i); }
  }

  /** The parent at hand has exactly the settlements that name it, with their operands. */
  ghost predicate OwnSettlements(os: Originals, parent: nat, p: Parent) {
    && (forall s | s in p.order :: s in os && s in p.wholes && os[s] == Original(p.wholes[s], Some(parent)))
    && (forall s | s in os && os[s].parent == Some(parent) :: s in p.order)
  }

  lemma {:induction false} WalksItsOwn(os: Originals, rs: seq<ReplayRow>, ts: seq<TradeRow>, parent: nat,
                                       tolerance: real, p: Parent, rows: seq<Slice>)
    requires |rs| == |ts| && RowsOf(rs, ts, parent) != [] && Describes(os, rs, ts)
    requires WalkedInOrder(RowsOf(rs, ts, parent), tolerance, p, rows)
    requires forall k | 0 <= k < |rows| :: Agrees(os, parent, rows[k])
    ensures OwnSettlements(os, parent, p)
  {
    forall s | s in p.order ensures s in os && s in p.wholes && os[s] == Original(p.wholes[s], Some(parent)) {
      var k :| 0 <= k < |rows| && rows[k].settlement == s;
      assert Agrees(os, parent, rows[k]);
    }
    forall s | s in os && os[s].parent == Some(parent) ensures s in p.order {
      var i :| 0 <= i < |rs| && rs[i].settlement == Some(s);
      assert MarkedWith(rs[i], parent);
      RowIsListed(rs, ts, parent, i);
      var ms := RowsOf(rs, ts, parent);
      var j :| 0 <= j < |ms| && ms[j] == MarkedRow(rs[i], ts[i]);
      assert rows[ms[j].index].settlement == s;
    }
  }

  /** Slices of a settlement sum to its quantity and slices of a child to its own, every child is
      used, and commissions and profits are conserved. */
  ghost predicate Conserves(p: Parent, rows: seq<Slice>, fees: map<nat, Option<real>>)
    requires ParentOk(p)
  {
    && (forall k | 0 <= k < |p.order| :: Delivered(rows, p.order[k]) == WholeQtys(p)[k])
    && (forall c: nat | c < |p.order| :: c in fees && Fills(p, rows, c))
    && FeesOf(rows, fees)
    && Commissions(rows) == Sum(EntryFees(p)) + Sum(ChildFees(fees, |p.order|))
    && Profits(rows) == Sum(GrossProfits(p)) - Sum(EntryFees(p)) - Sum(ChildFees(fees, |p.order|))
  }

  ghost predicate Fills(p: Parent, rows: seq<Slice>, c: nat)
    requires ParentOk(p)
  {
    c < |p.order| && Filled(rows, c) == WholeQtys(p)[c] && exists i :: 0 <= i < |rows| && rows[i].child == c
  }

  /** Each settlement is presented by exactly one row, unchanged. */
  ghost predicate Bijective(p: Parent, rows: seq<Slice>)
    requires ParentOk(p)
  {
    && (forall i | 0 <= i < |rows| :: Unchanged(p, rows[i]))
    && (forall i, j | 0 <= i < j < |rows| :: rows[i].settlement != rows[j].settlement)
    && (forall s :: s in p.order <==> exists i :: 0 <= i < |rows| && rows[i].settlement == s)
  }

  lemma {:induction false} RecutIsConserved(p: Parent, rows: seq<Slice>) returns (fees: map<nat, Option<real>>)
    requires AcceptedRecut(p, rows) && p.tolerance == 0.0
    ensures Conserves(p, rows, fees)
  {
    var w := AcceptedWalk(p, rows);
    fees := w.used;
    assert FeesOk(p, rows, fees);
    AcceptedTransports(p, rows);
    ExactlyDelivered(p, rows);
    forall c: nat | c < |p.order| ensures Fills(p, rows, c) { ExactlyFilled(p, rows, c); }
    RecutConserves(p, rows, fees);
  }

  /** An accepted companion: every parent's rows, in their order, are a walk over exactly its own
      settlements; a recut parent conserves quantities, commissions and profits, and an uncut one
      presents each settlement once, unchanged. */
  lemma {:induction false} AcceptedConserves(sc: Scalars, rs: seq<ReplayRow>, ts: seq<TradeRow>, qs: seq<ReplayPoint>,
                                             es: seq<EquityRow>, parent: nat)
    returns (p: Parent, rows: seq<Slice>, fees: map<nat, Option<real>>)
    requires RowsValid(rs) && BoundOk(sc, rs, ts, qs, es, 0.0) && parent in Parents(rs)
    ensures RowsOf(rs, ts, parent) != [] && WalkedInOrder(RowsOf(rs, ts, parent), 0.0, p, rows)
    ensures OwnSettlements(JoinAll(rs, ts).value, parent, p)
    ensures if p.recut then Conserves(p, rows, fees) else Bijective(p, rows)
  {
    p, rows := AcceptedParents(sc, rs, ts, qs, es, 0.0, parent);
    fees := map[];
    JoinIsExact(rs, ts);
    WalksItsOwn(JoinAll(rs, ts).value, rs, ts, parent, 0.0, p, rows);
    if p.recut { fees := RecutIsConserved(p, rows); } else { UncutIsBijection(p, rows); }
  }
}
