/** Why a parent's slices are refused, and when uncut ones are not. */
module ReplayVerdicts {
  import opened Arithmetic
  import opened Options
  import opened ReplayConservation
  import opened ReplayRecut
  import opened ReplaySlices

  /** The row continues the child of the row before it. */
  predicate Follows(rows: seq<Slice>, i: nat)
    requires i < |rows|
  {
    i > 0 && rows[i - 1].child == rows[i].child
  }

  /** The child of the row was met before. */
  ghost predicate Repeats(rows: seq<Slice>, i: nat)
    requires i < |rows|
  {
    exists j :: 0 <= j < i && rows[j].child == rows[i].child
  }

  /** What the walk remembers: the children met, the last of them, and no debt in uncut rows. */
  ghost predicate Remembers(p: Parent, rows: seq<Slice>, w: Walk) {
    && (forall c :: c in w.used <==> exists j :: 0 <= j < |rows| && rows[j].child == c)
    && w.last == (if rows == [] then None else Some(rows[|rows| - 1].child))
    && (!p.recut ==> w.wanted == 0.0)
  }

  lemma {:induction false} RowRemembers(p: Parent, rows: seq<Slice>, w: Walk, r: Slice, w': Walk)
    requires ParentOk(p) && RecordOk(r) && Remembers(p, rows, w) && Row(p, w, r) == Going(w')
    ensures Remembers(p, rows + [r], w')
  {
    var all := rows + [r];
    assert forall j | 0 <= j < |rows| :: all[j] == rows[j];
    forall c ensures c in w'.used <==> exists j :: 0 <= j < |all| && all[j].child == c {
      if c == r.child { assert all[|rows|].child == c; }
      if c in w.used {
        var j :| 0 <= j < |rows| && rows[j].child == c;
        assert all[j].child == c;
      }
    }
  }

  lemma {:induction false} WalkRemembers(p: Parent, rows: seq<Slice>)
    requires ParentOk(p) && RecordsOk(rows) && Rows(p, rows).Going?
    ensures Remembers(p, rows, Rows(p, rows).walk)
  {
    if rows != [] {
      var n := |rows| - 1;
      WalkRemembers(p, rows[..n]);
      RowRemembers(p, rows[..n], Rows(p, rows[..n]).walk, rows[n], Rows(p, rows).walk);
      assert rows[..n] + [rows[n]] == rows;
    }
  }

  /** The row names a child of the parent, with its quantity. */
  ghost predicate NamesChild(p: Parent, r: Slice)
    requires ParentOk(p)
  {
    r.child < |p.order| && p.wholes[p.order[r.child]].qty == r.transactionQty
  }

  /** Nothing, or next to nothing, is missing from the child of the last row. */
  ghost predicate PaidUp(p: Parent, rows: seq<Slice>) {
    p.recut && rows != [] ==>
      var last := rows[|rows| - 1]; last.transactionQty - Filled(rows, last.child) <= p.tolerance
  }

  /** A child is entered twice. */
  ghost predicate EnteredTwice(p: Parent, rows: seq<Slice>, i: nat)
    requires ParentOk(p) && i < |rows|
  {
    || (!p.recut && Follows(rows, i))
    || (NamesChild(p, rows[i]) && !Follows(rows, i) && PaidUp(p, rows[..i]) && Repeats(rows, i))
  }

  /** The row enters a new child, or goes on with the current one at the same fee. */
  ghost predicate EntersWell(p: Parent, rows: seq<Slice>, i: nat)
    requires ParentOk(p) && i < |rows|
  {
    && NamesChild(p, rows[i])
    && if Follows(rows, i) then p.recut && rows[i - 1].transactionFee == rows[i].transactionFee
       else PaidUp(p, rows[..i]) && !Repeats(rows, i)
  }

  lemma {:induction false} DebtIs(p: Parent, rows: seq<Slice>, w: Walk)
    requires ParentOk(p) && RecordsOk(rows) && Rows(p, rows) == Going(w)
    ensures PaidUp(p, rows) <==> w.wanted <= p.tolerance
    ensures p.recut && rows != [] ==>
              var last := rows[|rows| - 1]; last.child in w.used && w.used[last.child] == last.transactionFee
  {
    WalkRemembers(p, rows);
    if p.recut {
      WalkKeeps(p, rows);
      if rows != [] { assert FeesOk(p, rows, w.used) && rows[|rows| - 1].child in w.used; }
    }
  }

  lemma {:induction false} EnterReason(p: Parent, rows: seq<Slice>, i: nat, w: Walk)
    requires ParentOk(p) && RecordsOk(rows) && i < |rows| && Rows(p, rows[..i]) == Going(w)
    ensures var entered := Enter(p, w, rows[i]);
            && (entered == Stopped(ParentCoverageInvalid) <==> EnteredTwice(p, rows, i))
            && (entered.Going? <==> EntersWell(p, rows, i))
            && (entered.Stopped? ==> entered.verdict in {ParentCoverageInvalid, ReplayMismatch})
  {
    var before, r := rows[..i], rows[i];
    WalkRemembers(p, before);
    DebtIs(p, before, w);
    assert r.child in w.used <==> Repeats(rows, i) by {
      if r.child in w.used {
        var j :| 0 <= j < |before| && before[j].child == r.child;
        assert rows[j].child == r.child;
      }
      if Repeats(rows, i) {
        var j :| 0 <= j < i && rows[j].child == r.child;
        assert before[j].child == r.child;
      }
    }
    if i > 0 { assert before[|before| - 1] == rows[i - 1]; }
  }

  /** Why a walk that went well so far stops at the next row: an entry of a child for the second time is
      a fault of coverage; a missing entry price, met after the amounts that need no price were
      found right, escapes; everything else is a mismatch. */
  lemma {:induction false} StopReasons(p: Parent, rows: seq<Slice>, i: nat)
    requires ParentOk(p) && RecordsOk(rows) && i < |rows| && Rows(p, rows[..i]).Going?
    ensures var next := Rows(p, rows[..i + 1]);
            && (next == Stopped(ParentCoverageInvalid) <==> EnteredTwice(p, rows, i))
            && (next == Stopped(Crashed) ==> EntersWell(p, rows, i) && rows[i].trade.entryPrice.None?)
            && (next.Going? ==> EntersWell(p, rows, i) && rows[i].trade.entryPrice.Some?)
            && next != Stopped(Accepted)
  {
    assert rows[..i + 1][..i] == rows[..i];
    EnterReason(p, rows, i, Rows(p, rows[..i]).walk);
  }

  lemma {:induction false} FirstStop(p: Parent, rows: seq<Slice>) returns (i: nat)
    requires ParentOk(p) && RecordsOk(rows) && Rows(p, rows).Stopped?
    ensures i < |rows| && Rows(p, rows[..i]).Going? && Rows(p, rows[..i + 1]) == Rows(p, rows)
  {
    var n := |rows| - 1;
    if Rows(p, rows[..n]).Going? {
      i := n;
      assert rows[..n + 1] == rows;
    } else {
      i := FirstStop(p, rows[..n]);
      assert rows[..n][..i] == rows[..i] && rows[..n][..i + 1] == rows[..i + 1];
    }
  }

  /** A parent is refused for its coverage exactly when a child is entered twice before anything
      else is wrong. */
  lemma {:induction false} CoverageReason(p: Parent, rows: seq<Slice>)
    requires ParentOk(p) && RecordsOk(rows)
    ensures Check(p, rows) == ParentCoverageInvalid <==>
            exists i :: 0 <= i < |rows| && Rows(p, rows[..i]).Going? && EnteredTwice(p, rows, i)
  {
    if Rows(p, rows).Stopped? {
      var i := FirstStop(p, rows);
      StopReasons(p, rows, i);
    }
    if i :| 0 <= i < |rows| && Rows(p, rows[..i]).Going? && EnteredTwice(p, rows, i) {
      StopReasons(p, rows, i);
      StopsForGood(p, rows, i + 1);
    }
  }

  /** A recut row goes on exactly when it enters well, is cut from the open settlement, shows the
      smaller of what is left of that and what its child still wants, and shows its part. */
  lemma {:induction false} RecutRowIs(p: Parent, rows: seq<Slice>, i: nat, w: Walk)
    requires ParentOk(p) && p.recut && RecordsOk(rows) && i < |rows| && Rows(p, rows[..i]) == Going(w)
    ensures var r := rows[i]; var wanted := if Follows(rows, i) then w.wanted else r.transactionQty;
            Row(p, w, r).Going? <==>
            && EntersWell(p, rows, i) && w.cursor < |p.order| && p.order[w.cursor] == r.settlement
            && r.trade.qty == Some(RealMin(w.left, wanted)) && ShowsItsPart(p, r)
  {
    EnterReason(p, rows, i, w);
    WalkRemembers(p, rows[..i]);
    if i > 0 { assert rows[..i][|rows[..i]| - 1] == rows[i - 1]; }
    if rows[i].trade.qty.Some? { AmountsAreParts(p, rows[i]); }
  }

  // ----- uncut parents

  /** The row shows the settlement of its child unchanged, and the profit in percent of its cost. */
  ghost predicate ShownWhole(p: Parent, r: Slice)
    requires ParentOk(p)
  {
    && Unchanged(p, r) && NamesChild(p, r) && r.transactionQty == r.whole.qty
    && r.trade.entryPrice.Some? && r.trade.pnlPct.Some?
    && IsPercent(r.trade.pnlPct.value, r.whole.pnl, r.trade.entryPrice.value * r.whole.qty * p.pointvalue)
  }

  lemma {:induction false} UncutRowIs(p: Parent, rows: seq<Slice>, i: nat, w: Walk)
    requires ParentOk(p) && !p.recut && RecordsOk(rows) && i < |rows| && Rows(p, rows[..i]) == Going(w)
    ensures Row(p, w, rows[i]).Going? <==> ShownWhole(p, rows[i]) && !Repeats(rows, i)
  {
    EnterReason(p, rows, i, w);
    var r := rows[i];
    if Follows(rows, i) { assert Repeats(rows, i); }
    if r.trade.pnlPct.Some? && r.trade.entryPrice.Some? {
      PercentIs(r.trade.pnlPct.value, r.whole.pnl, Cost(r.trade.entryPrice.value, r.whole.qty, p.pointvalue));
    }
  }

  /** Uncut rows are accepted exactly when each shows the settlement of its child whole and no two
      name the same child. */
  lemma {:induction false} UncutIsExact(p: Parent, rows: seq<Slice>)
    requires ParentOk(p) && !p.recut && RecordsOk(rows)
    ensures Check(p, rows) == Accepted <==>
            forall i | 0 <= i < |rows| :: ShownWhole(p, rows[i]) && !Repeats(rows, i)
  {
    UncutGoes(p, rows);
    if Rows(p, rows).Going? {
      WalkRemembers(p, rows);
    } else {
      StopsAreRefusals(p, rows);
    }
  }

  lemma {:induction false} UncutGoes(p: Parent, rows: seq<Slice>)
    requires ParentOk(p) && !p.recut && RecordsOk(rows)
    ensures Rows(p, rows).Going? <==> forall i | 0 <= i < |rows| :: ShownWhole(p, rows[i]) && !Repeats(rows, i)
  {
    if rows != [] {
      var n := |rows| - 1;
      UncutGoes(p, rows[..n]);
      forall i | 0 <= i < n ensures rows[..n][i] == rows[i] && (Repeats(rows[..n], i) <==> Repeats(rows, i)) {
        SamePast(rows, n, i);
      }
      if Rows(p, rows[..n]).Going? { UncutRowIs(p, rows, n, Rows(p, rows[..n]).walk); }
    }
  }

  lemma {:induction false} SamePast(rows: seq<Slice>, n: nat, i: nat)
    requires i < n <= |rows|
    ensures Repeats(rows[..n], i) <==> Repeats(rows, i)
  {
    var before := rows[..n];
    if Repeats(rows, i) {
      var j :| 0 <= j < i && rows[j].child == rows[i].child;
      assert before[j].child == before[i].child;
    }
    if Repeats(before, i) {
      var j :| 0 <= j < i && before[j].child == before[i].child;
      assert rows[j].child == rows[i].child;
    }
  }
}
