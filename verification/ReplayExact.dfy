/** Exactly which rows of a parent are accepted, said of the rows alone: no cursor, no running
    quantities. */
module ReplayExact {
  import opened Arithmetic
  import opened Options
  import opened ReplayConservation
  import opened ReplayRecut
  import opened ReplaySlices
  import opened ReplayVerdicts

  /** Some row is cut from the settlement. */
  ghost predicate Touched(rows: seq<Slice>, s: nat) { exists j :: 0 <= j < |rows| && rows[j].settlement == s }

  /** Settlement number `k` was cut, and at most the tolerance is left of it. */
  ghost predicate Closed(p: Parent, rows: seq<Slice>, k: nat)
    requires ParentOk(p) && k < |p.order|
  {
    Touched(rows, p.order[k]) && p.wholes[p.order[k]].qty - Delivered(rows, p.order[k]) <= p.tolerance
  }

  /** Settlement `s` is the first that is not closed. */
  ghost predicate IsNext(p: Parent, rows: seq<Slice>, s: nat)
    requires ParentOk(p)
  {
    exists k :: 0 <= k < |p.order| && p.order[k] == s && FirstOpen(p, rows, k)
  }

  ghost predicate FirstOpen(p: Parent, rows: seq<Slice>, k: nat)
    requires ParentOk(p) && k < |p.order|
  {
    !Closed(p, rows, k) && forall m | 0 <= m < k :: Closed(p, rows, m)
  }

  ghost predicate Smaller(x: real, a: real, b: real) { x <= a && x <= b && (x == a || x == b) }

  /** Row `i` enters well, is cut from the next settlement, and takes the smaller of what is left of
      that and what its child still lacks. */
  ghost predicate CutWell(p: Parent, rows: seq<Slice>, i: nat)
    requires ParentOk(p) && i < |rows|
  {
    var r, before := rows[i], rows[..i];
    && EntersWell(p, rows, i) && IsNext(p, before, r.settlement)
    && r.settlement in p.wholes && r.trade.qty.Some?
    && Smaller(r.trade.qty.value, p.wholes[r.settlement].qty - Delivered(before, r.settlement),
               r.transactionQty - Filled(before, r.child))
  }

  /** It is cut well and shows its part. */
  ghost predicate Fits(p: Parent, rows: seq<Slice>, i: nat)
    requires ParentOk(p)
  {
    i < |rows| ==> CutWell(p, rows, i) && ShowsItsPart(p, rows[i])
  }

  /** Where the cursor stands: before it everything is cut, behind it nothing, and of the settlement
      there more than the tolerance is left once it is cut. */
  ghost predicate CursorOk(p: Parent, rows: seq<Slice>, w: Walk)
    requires ParentOk(p)
  {
    && (forall k | 0 <= k < w.cursor && k < |p.order| :: Touched(rows, p.order[k]))
    && (forall k | w.cursor < k < |p.order| :: !Touched(rows, p.order[k]))
    && (w.cursor < |p.order| && Touched(rows, p.order[w.cursor]) ==> w.left > p.tolerance)
  }

  lemma {:induction false} TouchedMore(rows: seq<Slice>, r: Slice, s: nat)
    ensures Touched(rows + [r], s) <==> Touched(rows, s) || r.settlement == s
  {
    var all := rows + [r];
    assert all[|rows|] == r;
    if j :| 0 <= j < |rows| && rows[j].settlement == s { assert all[j].settlement == s; }
  }

  lemma {:induction false} CursorKept(p: Parent, rows: seq<Slice>, r: Slice, entered: Walk)
    requires ParentOk(p) && CursorOk(p, rows, entered)
    requires entered.cursor < |p.order| && p.order[entered.cursor] == r.settlement
    ensures CursorOk(p, rows + [r], Move(p, entered, Qty(r)))
  {
    forall k | 0 <= k < |p.order|
      ensures Touched(rows + [r], p.order[k]) <==> Touched(rows, p.order[k]) || k == entered.cursor
    {
      TouchedMore(rows, r, p.order[k]);
    }
  }

  lemma {:induction false} CursorIs(p: Parent, rows: seq<Slice>)
    requires ParentOk(p) && p.recut && RecordsOk(rows) && Rows(p, rows).Going?
    ensures CursorOk(p, rows, Rows(p, rows).walk)
  {
    if rows != [] {
      var before, r := rows[..|rows| - 1], rows[|rows| - 1];
      assert rows == before + [r];
      var w, entered := LastRow(p, rows);
      CursorIs(p, before);
      EnteredCursor(p, before, w, r, entered);
      CursorKept(p, before, r, entered);
    }
  }

  /** Entering a child leaves the settlements alone. */
  lemma {:induction false} EnteredCursor(p: Parent, rows: seq<Slice>, w: Walk, r: Slice, entered: Walk)
    requires ParentOk(p) && CursorOk(p, rows, w) && Enter(p, w, r) == Going(entered)
    ensures CursorOk(p, rows, entered)
  {
    assert entered.cursor == w.cursor && entered.left == w.left;
  }

  /** The settlements before the cursor are the closed ones. */
  lemma {:induction false} ClosedIs(p: Parent, rows: seq<Slice>, w: Walk, k: nat)
    requires ParentOk(p) && p.recut && RecordsOk(rows) && Rows(p, rows) == Going(w) && k < |p.order|
    ensures Closed(p, rows, k) <==> k < w.cursor
  {
    CursorIs(p, rows);
    WalkKeeps(p, rows);
  }

  lemma {:induction false} OpenIsUnique(p: Parent, rows: seq<Slice>, cursor: nat, s: nat)
    requires ParentOk(p) && forall k | 0 <= k < |p.order| :: Closed(p, rows, k) <==> k < cursor
    ensures IsNext(p, rows, s) <==> cursor < |p.order| && p.order[cursor] == s
  {
    if cursor < |p.order| { assert FirstOpen(p, rows, cursor); }
    if k :| 0 <= k < |p.order| && p.order[k] == s && FirstOpen(p, rows, k) {
      assert k == cursor;
    }
  }

  lemma {:induction false} LeftIs(p: Parent, rows: seq<Slice>, w: Walk)
    requires ParentOk(p) && p.recut && RecordsOk(rows) && Rows(p, rows) == Going(w) && w.cursor < |p.order|
    ensures var s := p.order[w.cursor]; s in p.wholes && w.left == p.wholes[s].qty - Delivered(rows, s)
  {
    WalkKeeps(p, rows);
  }

  lemma {:induction false} NextIs(p: Parent, rows: seq<Slice>, w: Walk, s: nat)
    requires ParentOk(p) && p.recut && RecordsOk(rows) && Rows(p, rows) == Going(w)
    ensures IsNext(p, rows, s) <==> w.cursor < |p.order| && p.order[w.cursor] == s
    ensures IsNext(p, rows, s) ==> s in p.wholes && w.left == p.wholes[s].qty - Delivered(rows, s)
  {
    forall k | 0 <= k < |p.order| ensures Closed(p, rows, k) <==> k < w.cursor { ClosedIs(p, rows, w, k); }
    OpenIsUnique(p, rows, w.cursor, s);
    if w.cursor < |p.order| { LeftIs(p, rows, w); }
  }

  /** What the child of row `i` still lacks. */
  lemma {:induction false} WantedIs(p: Parent, rows: seq<Slice>, i: nat, w: Walk)
    requires ParentOk(p) && p.recut && RecordsOk(rows) && i < |rows| && Rows(p, rows[..i]) == Going(w)
    requires EntersWell(p, rows, i)
    ensures rows[i].transactionQty - Filled(rows[..i], rows[i].child) ==
            if Follows(rows, i) then w.wanted else rows[i].transactionQty
  {
    if Follows(rows, i) { LackIs(p, rows[..i], w); } else { NewChild(rows, i); }
  }

  /** What the child of the last row lacks. */
  lemma {:induction false} LackIs(p: Parent, rows: seq<Slice>, w: Walk)
    requires ParentOk(p) && p.recut && RecordsOk(rows) && rows != [] && Rows(p, rows) == Going(w)
    ensures var c := rows[|rows| - 1].child; c < |p.order| && p.wholes[p.order[c]].qty - Filled(rows, c) == w.wanted
  {
    WalkKeeps(p, rows);
    WalkRemembers(p, rows);
    assert ChildrenOk(p, rows, w.last, w.wanted, w.used.Keys);
  }

  lemma {:induction false} NewChild(rows: seq<Slice>, i: nat)
    requires i < |rows| && !Repeats(rows, i)
    ensures Filled(rows[..i], rows[i].child) == 0.0
  {
    var before := rows[..i];
    forall j | 0 <= j < |before| ensures before[j].child != rows[i].child { assert rows[j] == before[j]; }
    NoRowNoSum(before, rows[i].child);
  }

  lemma {:induction false} SmallerIs(x: real, a: real, b: real)
    ensures x == RealMin(a, b) <==> Smaller(x, a, b)
  {
  }

  /** The walk's quantities are those of the rows. */
  lemma {:induction false} TakesIs(p: Parent, rows: seq<Slice>, i: nat, w: Walk)
    requires ParentOk(p) && p.recut && RecordsOk(rows) && i < |rows| && Rows(p, rows[..i]) == Going(w)
    ensures var r := rows[i]; var wanted := if Follows(rows, i) then w.wanted else r.transactionQty;
            CutWell(p, rows, i) <==>
            && EntersWell(p, rows, i) && w.cursor < |p.order| && p.order[w.cursor] == r.settlement
            && r.trade.qty == Some(RealMin(w.left, wanted))
  {
    var r := rows[i];
    NextIs(p, rows[..i], w, r.settlement);
    if EntersWell(p, rows, i) {
      WantedIs(p, rows, i, w);
      if r.trade.qty.Some? {
        SmallerIs(r.trade.qty.value, w.left, if Follows(rows, i) then w.wanted else r.transactionQty);
      }
    }
  }

  lemma {:induction false} CutIs(p: Parent, rows: seq<Slice>, i: nat, w: Walk)
    requires ParentOk(p) && p.recut && RecordsOk(rows) && i < |rows| && Rows(p, rows[..i]) == Going(w)
    ensures Row(p, w, rows[i]).Going? <==> Fits(p, rows, i)
  {
    RecutRowIs(p, rows, i, w);
    TakesIs(p, rows, i, w);
  }

  lemma {:induction false} FitsAsBefore(p: Parent, rows: seq<Slice>, n: nat, i: nat)
    requires ParentOk(p) && i < n <= |rows|
    ensures Fits(p, rows[..n], i) <==> Fits(p, rows, i)
  {
    assert rows[..n][..i] == rows[..i] && rows[..n][i] == rows[i];
    SamePast(rows, n, i);
  }

  ghost predicate AllFit(p: Parent, rows: seq<Slice>)
    requires ParentOk(p)
  {
    forall i: nat :: Fits(p, rows, i)
  }

  lemma {:induction false} FitMore(p: Parent, rows: seq<Slice>)
    requires ParentOk(p) && rows != []
    ensures AllFit(p, rows) <==> AllFit(p, rows[..|rows| - 1]) && Fits(p, rows, |rows| - 1)
  {
    var n := |rows| - 1;
    forall i: nat | i < n ensures Fits(p, rows[..n], i) <==> Fits(p, rows, i) { FitsAsBefore(p, rows, n, i); }
    if AllFit(p, rows) {
      forall i: nat ensures Fits(p, rows[..n], i) { assert Fits(p, rows, i); }
    }
    if AllFit(p, rows[..n]) && Fits(p, rows, n) {
      forall i: nat ensures Fits(p, rows, i) { assert Fits(p, rows[..n], i); }
    }
  }

  lemma {:induction false} RecutGoes(p: Parent, rows: seq<Slice>)
    requires ParentOk(p) && p.recut && RecordsOk(rows)
    ensures Rows(p, rows).Going? <==> AllFit(p, rows)
  {
    if rows != [] {
      var n := |rows| - 1;
      RecutGoes(p, rows[..n]);
      FitMore(p, rows);
      if Rows(p, rows[..n]).Going? { CutIs(p, rows, n, Rows(p, rows[..n]).walk); }
    }
  }

  /** Recut rows are accepted exactly when each is cut well and shows its part, and in the end nothing
      but the tolerance is left of any settlement or missing from the last child. */
  lemma {:induction false} RecutIsExact(p: Parent, rows: seq<Slice>)
    requires ParentOk(p) && p.recut && RecordsOk(rows)
    ensures Check(p, rows) == Accepted <==>
            && AllFit(p, rows)
            && (forall k | 0 <= k < |p.order| :: Closed(p, rows, k))
            && PaidUp(p, rows)
  {
    RecutGoes(p, rows);
    if Rows(p, rows).Going? {
      var w := Rows(p, rows).walk;
      DebtIs(p, rows, w);
      forall k | 0 <= k < |p.order| ensures Closed(p, rows, k) <==> k < w.cursor { ClosedIs(p, rows, w, k); }
      if w.cursor < |p.order| { assert !Closed(p, rows, w.cursor); }
    } else {
      StopsAreRefusals(p, rows);
    }
  }

  // ----- a missing entry price

  /** Commission and profit of a recut row, which need no price, are its parts. */
  ghost predicate ShowsMoney(r: Slice) {
    var t, w := r.trade, r.whole;
    && t.qty.Some? && t.commission.Some? && t.pnl.Some?
    && IsCommission(r, t.qty.value, t.commission.value)
    && IsShare(t.pnl.value + t.commission.value, w.pnl + w.commission, t.qty.value, w.qty)
  }

  /** The price is missing where nothing before it was wrong. */
  ghost predicate LacksPrice(p: Parent, rows: seq<Slice>, i: nat)
    requires ParentOk(p) && i < |rows|
  {
    && rows[i].trade.entryPrice.None?
    && if p.recut then CutWell(p, rows, i) && ShowsMoney(rows[i])
       else EntersWell(p, rows, i) && Unchanged(p, rows[i]) && rows[i].transactionQty == rows[i].whole.qty
  }

  lemma {:induction false} MoneyCrashes(p: Parent, r: Slice)
    requires RecordOk(r) && r.trade.qty.Some?
    ensures RecutAmounts(p, r, Qty(r)) == Crashed <==> r.trade.entryPrice.None? && ShowsMoney(r)
  {
    var q, w, t := Qty(r), r.whole, r.trade;
    if t.commission.Some? { CommissionIs(r, q, t.commission.value); }
    if t.commission.Some? && t.pnl.Some? {
      ShareIs(t.pnl.value + t.commission.value, w.pnl + w.commission, q, w.qty);
    }
  }

  lemma {:induction false} RecutCrash(p: Parent, rows: seq<Slice>, i: nat, w: Walk)
    requires ParentOk(p) && p.recut && RecordsOk(rows) && i < |rows| && Rows(p, rows[..i]) == Going(w)
    ensures Row(p, w, rows[i]) == Stopped(Crashed) <==> LacksPrice(p, rows, i)
  {
    EnterReason(p, rows, i, w);
    WalkRemembers(p, rows[..i]);
    TakesIs(p, rows, i, w);
    if i > 0 { assert rows[..i][|rows[..i]| - 1] == rows[i - 1]; }
    if rows[i].trade.qty.Some? { MoneyCrashes(p, rows[i]); }
  }

  /** A walk that went well so far escapes at the next row exactly when that row lacks its price. */
  lemma {:induction false} CrashIs(p: Parent, rows: seq<Slice>, i: nat)
    requires ParentOk(p) && RecordsOk(rows) && i < |rows| && Rows(p, rows[..i]).Going?
    ensures Rows(p, rows[..i + 1]) == Stopped(Crashed) <==> LacksPrice(p, rows, i)
  {
    assert rows[..i + 1][..i] == rows[..i];
    var w := Rows(p, rows[..i]).walk;
    if p.recut { RecutCrash(p, rows, i, w); } else { EnterReason(p, rows, i, w); }
  }
}
