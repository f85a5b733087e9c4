/** Every reason a bound companion is refused for is true of it. */
module ReplayReasons {
  import opened Numbering
  import opened Options
  import opened ReplayBound
  import opened ReplaySlices
  import opened ReplayVerdicts

  /** A closed trade that is its own settlement lacks one of its amounts. */
  ghost predicate LacksAmount(r: ReplayRow, t: TradeRow) {
    && r.settlement.Some? && r.mark.None?
    && (t.trade.qty.None? || t.trade.pnl.None? || t.trade.commission.None? || t.trade.maxRunup.None?
        || t.trade.maxDrawdown.None?)
  }

  /** Why the join refuses row `i`, all rows before it being fine. */
  lemma {:induction false} RowReasonIs(os: Originals, rs: seq<ReplayRow>, ts: seq<TradeRow>, i: nat)
    requires i < |rs| == |ts| && Describes(os, rs[..i], ts[..i])
    ensures var reason := RowReason(os, i, rs[i], ts[i]);
            && (reason == RCoverageInvalid <==> !CoversTrade(rs, ts, i))
            && (reason == Mismatch <==> CoversTrade(rs, ts, i) && LacksAmount(rs[i], ts[i]))
            && (reason == OperandMismatch <==>
                && CoversTrade(rs, ts, i) && !LacksAmount(rs[i], ts[i])
                && exists j :: 0 <= j < i && !SharedProperly(rs, j, i))
            && reason in {Valid, RCoverageInvalid, Mismatch, OperandMismatch}
  {
    var r, t := rs[i], ts[i];
    if CoversTrade(rs, ts, i) && !LacksAmount(r, t) && r.settlement.Some? {
      SharingIs(os, rs, ts, i);
    }
  }

  lemma {:induction false} SharingIs(os: Originals, rs: seq<ReplayRow>, ts: seq<TradeRow>, i: nat)
    requires i < |rs| == |ts| && Describes(os, rs[..i], ts[..i])
    requires rs[i].settlement.Some? && CoversTrade(rs, ts, i) && Operands(rs[i], ts[i].trade).Some?
    ensures Join(os, i, rs[i], ts[i]).None? <==> exists j :: 0 <= j < i && !SharedProperly(rs, j, i)
  {
    var s := rs[i].settlement.value;
    if Join(os, i, rs[i], ts[i]).None? {
      assert Arises(rs[..i], s);
      var j :| 0 <= j < i && rs[..i][j].settlement == Some(s);
      assert rs[..i][j] == rs[j] && Described(os, rs[..i][j], ts[..i][j]);
      assert !SharedProperly(rs, j, i);
    }
    if j :| 0 <= j < i && !SharedProperly(rs, j, i) {
      assert rs[..i][j] == rs[j] && Described(os, rs[..i][j], ts[..i][j]);
    }
  }

  /** The join's reason is that of some row, and true of it. */
  lemma {:induction false} JoinReasonIsTrue(rs: seq<ReplayRow>, ts: seq<TradeRow>)
    requires |rs| == |ts| && JoinReason(rs, ts) != Valid
    ensures JoinReason(rs, ts) in {RCoverageInvalid, Mismatch, OperandMismatch}
    ensures JoinReason(rs, ts) == RCoverageInvalid ==> exists i :: 0 <= i < |rs| && !CoversTrade(rs, ts, i)
    ensures JoinReason(rs, ts) == Mismatch ==> exists i :: 0 <= i < |rs| && LacksAmount(rs[i], ts[i])
    ensures JoinReason(rs, ts) == OperandMismatch ==>
              exists i, j :: 0 <= j < i < |rs| && !SharedProperly(rs, j, i)
  {
    var n := |rs| - 1;
    var before, trades := rs[..n], ts[..n];
    if JoinAll(before, trades).Some? {
      JoinIsExact(before, trades);
      RowReasonIs(JoinAll(before, trades).value, rs, ts, n);
    } else {
      JoinReasonIsExact(before, trades);
      JoinReasonIsTrue(before, trades);
      assert forall i | 0 <= i < n :: before[i] == rs[i] && trades[i] == ts[i];
      if i :| 0 <= i < n && !CoversTrade(before, trades, i) { assert !CoversTrade(rs, ts, i); }
      if i, j :| 0 <= j < i < n && !SharedProperly(before, j, i) { assert !SharedProperly(rs, j, i); }
    }
  }

  /** The point is not where it belongs. */
  ghost predicate PointMisplaced(i: nat, q: ReplayPoint, e: EquityRow) {
    q.index != i || q.time != e.time || (q.basis == Anchor && i != 0)
  }

  lemma {:induction false} PointsReasonIsTrue(os: Originals, sc: Scalars, qs: seq<ReplayPoint>, es: seq<EquityRow>,
                                              i: nat)
    requires Dense(os) && |qs| == |es| && i <= |qs| && PointsReason(os, sc, qs, es, i) != Valid
    ensures var reason := PointsReason(os, sc, qs, es, i);
            && reason in {QCoverageInvalid, Mismatch}
            && (reason == QCoverageInvalid ==> exists j :: i <= j < |qs| && PointMisplaced(j, qs[j], es[j]))
            && (reason == Mismatch ==>
                  exists j ::
                    i <= j < |qs| && !PointMisplaced(j, qs[j], es[j]) && !PointOk(os, sc, j, qs[j], es[j]))
    decreases |qs| - i
  {
    if PointReason(os, sc, i, qs[i], es[i]) == Valid {
      PointsReasonIsTrue(os, sc, qs, es, i + 1);
    } else {
      PointReasonIs(os, sc, i, qs[i], es[i]);
    }
  }

  lemma {:induction false} PointReasonIs(os: Originals, sc: Scalars, i: nat, q: ReplayPoint, e: EquityRow)
    requires Dense(os)
    ensures PointReason(os, sc, i, q, e) == QCoverageInvalid <==> PointMisplaced(i, q, e)
    ensures PointReason(os, sc, i, q, e) in {Valid, QCoverageInvalid, Mismatch}
  {
  }

  /** A slice without an entry price, or a child entered twice. */
  ghost predicate NoPrice(rows: seq<Slice>) { exists k :: 0 <= k < |rows| && rows[k].trade.entryPrice.None? }

  ghost predicate Doubled(rows: seq<Slice>, p: Parent)
    requires ParentOk(p) && RecordsOk(rows)
  {
    exists i :: 0 <= i < |rows| && Rows(p, rows[..i]).Going? && EnteredTwice(p, rows, i)
  }

  lemma {:induction false} VerdictIsTrue(p: Parent, rows: seq<Slice>)
    requires ParentOk(p) && RecordsOk(rows)
    ensures Check(p, rows) == Crashed ==> NoPrice(rows)
    ensures Check(p, rows) == ParentCoverageInvalid ==> Doubled(rows, p)
  {
    CoverageReason(p, rows);
    if Rows(p, rows).Stopped? {
      var i := FirstStop(p, rows);
      StopReasons(p, rows, i);
    }
  }

  /** What is wrong with a parent that is refused for this reason. */
  ghost predicate ParentFault(ms: seq<Marked>, pointvalue: real, tolerance: real, reason: Reason)
    requires ms != [] && tolerance >= 0.0 && RecordsOk(InOrder(ms)) && Consistent(InOrder(ms))
  {
    ParentOfOk(InOrder(ms), ms[0].recut, pointvalue, tolerance);
    match reason
    case Uncaught => NoPrice(InOrder(ms))
    case ParentCoverage => Doubled(InOrder(ms), ParentOf(InOrder(ms), ms[0].recut, pointvalue, tolerance))
    case Mismatch => ParentVerdict(ms, pointvalue, tolerance) == ReplayMismatch
    case _ => false
  }

  lemma {:induction false} ParentReasonIsTrue(ms: seq<Marked>, pointvalue: real, tolerance: real)
    requires ms != [] && tolerance >= 0.0 && RecordsOk(InOrder(ms)) && Consistent(InOrder(ms))
    requires ParentVerdict(ms, pointvalue, tolerance) != Accepted
    ensures ParentFault(ms, pointvalue, tolerance, SliceReason(ParentVerdict(ms, pointvalue, tolerance)))
  {
    var rows := InOrder(ms);
    ParentOfOk(rows, ms[0].recut, pointvalue, tolerance);
    VerdictIsTrue(ParentOf(rows, ms[0].recut, pointvalue, tolerance), rows);
  }

  lemma {:induction false} FirstRefused(rs: seq<ReplayRow>, ts: seq<TradeRow>, order: seq<nat>, pointvalue: real,
                                        tolerance: real, i: nat) returns (p: nat)
    requires |rs| == |ts| && i <= |order| && forall p | p in order :: RowsOf(rs, ts, p) != []
    requires SlicesReason(rs, ts, order, pointvalue, tolerance, i) != Valid
    ensures p in order && ParentVerdict(RowsOf(rs, ts, p), pointvalue, tolerance) != Accepted
    ensures SlicesReason(rs, ts, order, pointvalue, tolerance, i)
            == SliceReason(ParentVerdict(RowsOf(rs, ts, p), pointvalue, tolerance))
    decreases |order| - i
  {
    if SliceReason(ParentVerdict(RowsOf(rs, ts, order[i]), pointvalue, tolerance)) == Valid {
      p := FirstRefused(rs, ts, order, pointvalue, tolerance, i + 1);
    } else {
      p := order[i];
    }
  }

  /** The evidence behind each reason. */
  ghost predicate Evident(sc: Scalars, rs: seq<ReplayRow>, ts: seq<TradeRow>, qs: seq<ReplayPoint>, es: seq<EquityRow>,
                          tolerance: real, reason: Reason)
    requires RowsValid(rs) && tolerance >= 0.0
  {
    match reason
    case Valid => BoundOk(sc, rs, ts, qs, es, tolerance)
    case RCoverageInvalid => |rs| != |ts| || exists i :: 0 <= i < |rs| && !CoversTrade(rs, ts, i)
    case QCoverageInvalid => |qs| != |es| || exists i :: 0 <= i < |qs| && PointMisplaced(i, qs[i], es[i])
    case OperandMismatch => exists i, j :: 0 <= j < i < |rs| && !SharedProperly(rs, j, i)
    case SettlementCoverage => exists s: nat, t: nat :: t < s && Arises(rs, s) && !Arises(rs, t)
    case ParentCoverage =>
      |rs| == |ts| && exists p :: p in Parents(rs) && ParentUncovered(rs, ts, p, sc.pointvalue, tolerance)
    case Uncaught => |rs| == |ts| && exists p :: p in Parents(rs) && ParentUnpriced(rs, ts, p)
    case Mismatch => |rs| == |ts| && |qs| == |es| && Mismatched(sc, rs, ts, qs, es, tolerance)
  }

  /** Some amount is missing or not the one it should be. */
  ghost predicate Mismatched(sc: Scalars, rs: seq<ReplayRow>, ts: seq<TradeRow>, qs: seq<ReplayPoint>,
                             es: seq<EquityRow>, tolerance: real)
    requires |rs| == |ts| && |qs| == |es|
  {
    || (exists i :: 0 <= i < |rs| && LacksAmount(rs[i], ts[i]))
    || (JoinAll(rs, ts).Some?
        && var os := JoinAll(rs, ts).value;
           && Dense(os)
           && (|| NetTo(os, |os|) != sc.net
               || (exists i ::
                     0 <= i < |qs| && !PointMisplaced(i, qs[i], es[i]) && !PointOk(os, sc, i, qs[i], es[i]))
               || (exists p :: p in Parents(rs) && ParentMismatched(rs, ts, p, sc.pointvalue, tolerance))))
  }

  ghost predicate ParentMismatched(rs: seq<ReplayRow>, ts: seq<TradeRow>, p: nat, pointvalue: real, tolerance: real)
    requires |rs| == |ts|
  {
    RowsOf(rs, ts, p) != [] && ParentVerdict(RowsOf(rs, ts, p), pointvalue, tolerance) == ReplayMismatch
  }

  ghost predicate ParentUncovered(rs: seq<ReplayRow>, ts: seq<TradeRow>, p: nat, pointvalue: real, tolerance: real)
    requires |rs| == |ts| && tolerance >= 0.0
  {
    var ms := RowsOf(rs, ts, p);
    && ms != []
    && (Numbered(ms) ==>
          && RecordsOk(InOrder(ms)) && Consistent(InOrder(ms))
          && ParentFault(ms, pointvalue, tolerance, ParentCoverage))
  }

  ghost predicate ParentUnpriced(rs: seq<ReplayRow>, ts: seq<TradeRow>, p: nat)
    requires |rs| == |ts|
  {
    RowsOf(rs, ts, p) != [] && NoPrice(InOrder(RowsOf(rs, ts, p)))
  }

  // ----- gaps among settlement ids

  lemma {:induction false} FirstMissing(keys: set<nat>, k: nat) returns (m: nat)
    requires Below(k) <= keys
    ensures m !in keys && Below(m) <= keys
    decreases |keys - Below(k)|
  {
    if k !in keys {
      m := k;
    } else {
      BelowIs(k);
      assert keys - Below(k) == (keys - Below(k + 1)) + {k} && k !in keys - Below(k + 1);
      m := FirstMissing(keys, k + 1);
    }
  }

  /** Ids that are not exactly 0, 1, ... have a gap below one of them. */
  lemma {:induction false} NotDenseHasGap(os: Originals) returns (s: nat, t: nat)
    requires !Dense(os)
    ensures t < s && s in os && t !in os
  {
    t := FirstMissing(os.Keys, 0);
    NoneAbove(os, t);
    s :| s in os && s >= t;
  }

  lemma {:induction false} NoneAbove(os: Originals, t: nat)
    requires Below(t) <= os.Keys
    ensures (forall s: nat | s in os :: s < t) ==> Dense(os)
  {
    BelowIs(t);
    if forall s: nat | s in os :: s < t { assert os.Keys == Below(t); }
  }

  lemma {:induction false} GapIsEvident(os: Originals, rs: seq<ReplayRow>, ts: seq<TradeRow>)
    requires |rs| == |ts| && Describes(os, rs, ts) && !Dense(os)
    ensures exists s: nat, t: nat :: t < s && Arises(rs, s) && !Arises(rs, t)
  {
    var s, t := NotDenseHasGap(os);
    assert Arises(rs, s);
    ArisesIsCollected(os, rs, ts, t);
  }

  lemma {:induction false} ArisesIsCollected(os: Originals, rs: seq<ReplayRow>, ts: seq<TradeRow>, t: nat)
    requires |rs| == |ts| && Describes(os, rs, ts)
    ensures Arises(rs, t) ==> t in os
  {
    if i :| 0 <= i < |rs| && rs[i].settlement == Some(t) { assert Described(os, rs[i], ts[i]); }
  }

  lemma {:induction false} SlicesReasonIsEvident(sc: Scalars, rs: seq<ReplayRow>, ts: seq<TradeRow>,
                                                 qs: seq<ReplayPoint>,
                                                 es: seq<EquityRow>, tolerance: real, order: seq<nat>)
    requires RowsValid(rs) && tolerance >= 0.0 && Elements(order) == Parents(rs) && |rs| == |ts| && |qs| == |es|
    requires JoinAll(rs, ts).Some? && Dense(JoinAll(rs, ts).value) && AllGrouped(rs, ts)
    requires forall p | p in order :: RowsOf(rs, ts, p) != []
    requires SlicesReason(rs, ts, order, sc.pointvalue, tolerance, 0) != Valid
    ensures Evident(sc, rs, ts, qs, es, tolerance, SlicesReason(rs, ts, order, sc.pointvalue, tolerance, 0))
  {
    var p := FirstRefused(rs, ts, order, sc.pointvalue, tolerance, 0);
    assert p in Elements(order);
    var ms, os := RowsOf(rs, ts, p), JoinAll(rs, ts).value;
    JoinIsExact(rs, ts);
    RowsOfAgree(os, rs, ts, p, rs, ts);
    InOrderAgrees(os, p, ms);
    ParentReasonIsTrue(ms, sc.pointvalue, tolerance);
  }

  /** A companion is never refused for a reason that is not true of it. */
  lemma {:induction false} ReasonIsTrue(sc: Scalars, rs: seq<ReplayRow>, ts: seq<TradeRow>, qs: seq<ReplayPoint>,
                                        es: seq<EquityRow>, tolerance: real, order: seq<nat>)
    requires RowsValid(rs) && tolerance >= 0.0 && Elements(order) == Parents(rs)
    ensures Evident(sc, rs, ts, qs, es, tolerance, BoundReason(sc, rs, ts, qs, es, tolerance, order))
  {
    ReasonIsExact(sc, rs, ts, qs, es, tolerance, order);
    if |rs| == |ts| && |qs| == |es| {
      JoinReasonIsExact(rs, ts);
      if JoinAll(rs, ts).None? {
        JoinReasonIsTrue(rs, ts);
      } else if BoundReason(sc, rs, ts, qs, es, tolerance, order) != Valid {
        LaterReasonIsTrue(sc, rs, ts, qs, es, tolerance, order);
      }
    }
  }

  lemma {:induction false} LaterReasonIsTrue(sc: Scalars, rs: seq<ReplayRow>, ts: seq<TradeRow>, qs: seq<ReplayPoint>,
                                             es: seq<EquityRow>, tolerance: real, order: seq<nat>)
    requires RowsValid(rs) && tolerance >= 0.0 && Elements(order) == Parents(rs) && |rs| == |ts| && |qs| == |es|
    requires JoinAll(rs, ts).Some? && BoundReason(sc, rs, ts, qs, es, tolerance, order) != Valid
    ensures Evident(sc, rs, ts, qs, es, tolerance, BoundReason(sc, rs, ts, qs, es, tolerance, order))
  {
    var os := JoinAll(rs, ts).value;
    JoinIsExact(rs, ts);
    if !AllGrouped(rs, ts) {
      var p :| p in Parents(rs) && !GroupedOk(rs, ts, p);
      RowsOfAgree(os, rs, ts, p, rs, ts);
      GroupIsNumbered(RowsOf(rs, ts, p));
      assert ParentUncovered(rs, ts, p, sc.pointvalue, tolerance);
    } else if !Dense(os) {
      GapIsEvident(os, rs, ts);
    } else if NetTo(os, |os|) == sc.net {
      if PointsReason(os, sc, qs, es, 0) != Valid {
        PointsReasonIsTrue(os, sc, qs, es, 0);
      } else {
        forall p | p in order ensures RowsOf(rs, ts, p) != [] { assert p in Elements(order) && GroupedOk(rs, ts, p); }
        SlicesReasonIsEvident(sc, rs, ts, qs, es, tolerance, order);
      }
    }
  }
}
