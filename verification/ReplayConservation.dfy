/** What an accepted parent conserves: quantities per settlement and per child, fees, and
    profit. */
module ReplayConservation {
  import opened KeyedSums
  import opened Options
  import opened ReplaySlices

  ghost predicate AcceptedRecut(p: Parent, rows: seq<Slice>) {
    ParentOk(p) && p.recut && AllBelong(p, rows) && RecordsOk(rows) && Check(p, rows) == Accepted
  }

  lemma {:induction false} StopsAreRefusals(p: Parent, rows: seq<Slice>)
    requires ParentOk(p) && RecordsOk(rows)
    ensures Rows(p, rows) != Stopped(Accepted)
  {
    if rows != [] { StopsAreRefusals(p, rows[..|rows| - 1]); }
  }

  lemma {:induction false} AcceptedWalk(p: Parent, rows: seq<Slice>) returns (w: Walk)
    requires AcceptedRecut(p, rows)
    ensures Rows(p, rows) == Going(w) && WalkOk(p, rows, w) && w.wanted <= p.tolerance && w.cursor >= |p.order|
  {
    StopsAreRefusals(p, rows);
    WalkKeeps(p, rows);
    w := Rows(p, rows).walk;
  }

  /** The slices of every settlement sum to its whole quantity, and the slices of every child
      met to its transaction quantity, both up to the tolerance. */
  ghost predicate Transports(p: Parent, rows: seq<Slice>) {
    && ParentOk(p) && AllBelong(p, rows)
    && (forall k | 0 <= k < |p.order| :: Near(p, p.wholes[p.order[k]].qty, Delivered(rows, p.order[k])))
    && (forall i | 0 <= i < |rows| :: FillsChild(p, rows, rows[i]))
  }

  ghost predicate FillsChild(p: Parent, rows: seq<Slice>, r: Slice)
    requires ParentOk(p)
  {
    && r.child < |p.order| && r.transactionQty == p.wholes[p.order[r.child]].qty
    && Near(p, r.transactionQty, Filled(rows, r.child))
  }

  lemma {:induction false} AcceptedTransports(p: Parent, rows: seq<Slice>)
    requires AcceptedRecut(p, rows)
    ensures Transports(p, rows)
  {
    var w := AcceptedWalk(p, rows);
    assert FeesOk(p, rows, w.used);
  }

  lemma {:induction false} NoRowNoSum(rows: seq<Slice>, child: nat)
    requires forall i | 0 <= i < |rows| :: rows[i].child != child
    ensures Filled(rows, child) == 0.0
  {
    if rows != [] {
      var before := rows[..|rows| - 1];
      NoRowNoSum(before, child);
      KeySumAppend(ByChild(before), Entry(rows[|rows| - 1].child, Qty(rows[|rows| - 1])), child);
    }
  }

  lemma {:induction false} LastIsLast(p: Parent, rows: seq<Slice>)
    requires ParentOk(p) && p.recut && RecordsOk(rows) && Rows(p, rows).Going? && rows != []
    ensures Rows(p, rows).walk.last == Some(rows[|rows| - 1].child)
  {
    var _ := RowAccepts(p, Rows(p, rows[..|rows| - 1]).walk, rows[|rows| - 1]);
  }

  /** A row whose child was met before continues the previous row, with the same fee. */
  ghost predicate Continues(rows: seq<Slice>, i: nat, j: nat)
    requires i < j < |rows|
  {
    rows[i].child == rows[j].child ==>
      rows[j - 1].child == rows[j].child && rows[j].transactionFee == rows[i].transactionFee
  }

  lemma {:induction false} LastContinues(p: Parent, rows: seq<Slice>, i: nat)
    requires ParentOk(p) && p.recut && RecordsOk(rows) && Rows(p, rows).Going? && i < |rows| - 1
    ensures Continues(rows, i, |rows| - 1)
  {
    var before, r := rows[..|rows| - 1], rows[|rows| - 1];
    var w := Rows(p, before).walk;
    FeeKept(p, before, w, i);
    LastIsLast(p, before);
    var entered := RowAccepts(p, w, r);
    if before[i].child == r.child { EnteredAgain(p, w, r, entered); }
  }

  lemma {:induction false} FeeKept(p: Parent, rows: seq<Slice>, w: Walk, i: nat)
    requires ParentOk(p) && p.recut && RecordsOk(rows) && Rows(p, rows) == Going(w) && i < |rows|
    ensures rows[i].child in w.used && w.used[rows[i].child] == rows[i].transactionFee
  {
    WalkKeeps(p, rows);
    assert FeesOk(p, rows, w.used);
  }

  /** A child met before can only be the current one, with the fee it had. */
  lemma {:induction false} EnteredAgain(p: Parent, w: Walk, r: Slice, entered: Walk)
    requires ParentOk(p) && RecordOk(r) && Enter(p, w, r) == Going(entered) && r.child in w.used
    ensures w.last == Some(r.child) && w.used[r.child] == r.transactionFee
  {
  }

  lemma {:induction false} EveryRowContinues(p: Parent, rows: seq<Slice>, i: nat, j: nat)
    requires ParentOk(p) && p.recut && RecordsOk(rows) && Rows(p, rows).Going? && i < j < |rows|
    ensures Continues(rows, i, j)
    decreases |rows|
  {
    var n := |rows| - 1;
    if j == n {
      LastContinues(p, rows, i);
    } else {
      EveryRowContinues(p, rows[..n], i, j);
      assert Continues(rows[..n], i, j);
    }
  }

  lemma {:induction false} RunsOfChildren(rows: seq<Slice>, i: nat, k: nat, j: nat)
    requires forall a, b | 0 <= a < b < |rows| :: Continues(rows, a, b)
    requires i <= k <= j < |rows| && rows[i].child == rows[j].child
    ensures rows[k].child == rows[i].child && rows[j].transactionFee == rows[i].transactionFee
    decreases j
  {
    if i < j {
      assert Continues(rows, i, j);
      if k < j { RunsOfChildren(rows, i, k, j - 1); }
    }
  }

  /** Each child is entered once: its rows are consecutive and carry one fee. */
  lemma {:induction false} ChildrenAreRuns(p: Parent, rows: seq<Slice>, i: nat, k: nat, j: nat)
    requires AcceptedRecut(p, rows) && i <= k <= j < |rows| && rows[i].child == rows[j].child
    ensures rows[k].child == rows[i].child && rows[j].transactionFee == rows[i].transactionFee
  {
    var _ := AcceptedWalk(p, rows);
    forall a, b | 0 <= a < b < |rows| ensures Continues(rows, a, b) { EveryRowContinues(p, rows, a, b); }
    RunsOfChildren(rows, i, k, j);
  }

  // ----- every child is used

  function Range(n: nat): seq<nat> { seq(n, i => i) }

  /** The settlements' whole quantities, which are also the children's. */
  function WholeQtys(p: Parent): (qs: seq<real>)
    requires ParentOk(p)
    ensures |qs| == |p.order| && forall k | 0 <= k < |qs| :: qs[k] == p.wholes[p.order[k]].qty
  {
    seq(|p.order|, k requires 0 <= k < |p.order| => p.wholes[p.order[k]].qty)
  }

  /** One row more on both sides of the sums. */
  lemma {:induction false} WeightedMore(rows: seq<Slice>, rate: nat -> real)
    requires rows != []
    ensures var n := |rows| - 1;
            && Weighted(BySettlement(rows), rate) ==
               Weighted(BySettlement(rows[..n]), rate) + rate(rows[n].settlement) * Qty(rows[n])
            && Weighted(ByChild(rows), rate) == Weighted(ByChild(rows[..n]), rate) + rate(rows[n].child) * Qty(rows[n])
  {
    var n := |rows| - 1;
    EntriesMore(rows);
    LastWeighs(BySettlement(rows), BySettlement(rows[..n]), rate);
    LastWeighs(ByChild(rows), ByChild(rows[..n]), rate);
  }

  lemma {:induction false} EntriesMore(rows: seq<Slice>)
    requires rows != []
    ensures var n := |rows| - 1;
            && BySettlement(rows[..n]) == BySettlement(rows)[..n] && ByChild(rows[..n]) == ByChild(rows)[..n]
            && BySettlement(rows)[n] == Entry(rows[n].settlement, Qty(rows[n]))
            && ByChild(rows)[n] == Entry(rows[n].child, Qty(rows[n]))
  {
  }

  lemma {:induction false} LastWeighs(es: seq<Entry>, before: seq<Entry>, rate: nat -> real)
    requires es != [] && before == es[..|es| - 1]
    ensures Weighted(es, rate) == Weighted(before, rate) + rate(es[|es| - 1].key) * es[|es| - 1].amount
  {
  }

  lemma {:induction false} SameTotal(rows: seq<Slice>)
    ensures Weighted(BySettlement(rows), Unit) == Weighted(ByChild(rows), Unit)
  {
    if rows != [] {
      var n := |rows| - 1;
      SameTotal(rows[..n]);
      WeightedMore(rows, Unit);
    }
  }

  lemma {:induction false} EntriesOf(rows: seq<Slice>, i: nat)
    requires i < |rows|
    ensures BySettlement(rows)[i] == Entry(rows[i].settlement, Qty(rows[i]))
    ensures ByChild(rows)[i] == Entry(rows[i].child, Qty(rows[i]))
  {
    if i < |rows| - 1 { EntriesOf(rows[..|rows| - 1], i); }
  }

  lemma {:induction false} RegroupRows(p: Parent, rows: seq<Slice>, rate: nat -> real)
    requires Transports(p, rows)
    ensures Weighted(BySettlement(rows), rate) == ByKey(BySettlement(rows), rate, p.order)
  {
    forall i | 0 <= i < |rows| ensures BySettlement(rows)[i].key in p.order {
      EntriesOf(rows, i);
      assert Belongs(p, rows[i]);
    }
    Regroup(BySettlement(rows), rate, p.order);
  }

  lemma {:induction false} RegroupChildren(p: Parent, rows: seq<Slice>, rate: nat -> real)
    requires Transports(p, rows)
    ensures Weighted(ByChild(rows), rate) == ByKey(ByChild(rows), rate, Range(|p.order|))
  {
    forall i | 0 <= i < |rows| ensures ByChild(rows)[i].key in Range(|p.order|) {
      EntriesOf(rows, i);
      assert FillsChild(p, rows, rows[i]);
      assert Range(|p.order|)[rows[i].child] == rows[i].child;
    }
    Regroup(ByChild(rows), rate, Range(|p.order|));
  }

  lemma {:induction false} NearlyDelivered(p: Parent, rows: seq<Slice>, k: nat)
    requires Transports(p, rows) && k < |p.order|
    ensures Near(p, p.wholes[p.order[k]].qty, Delivered(rows, p.order[k]))
  {
  }

  /** Settlements are delivered in full, up to the tolerance each. */
  lemma {:induction false} DeliveredInAll(p: Parent, rows: seq<Slice>)
    requires Transports(p, rows)
    ensures Sum(WholeQtys(p)) <= ByKey(BySettlement(rows), Unit, p.order) + Times(|p.order|, p.tolerance)
  {
    forall k | 0 <= k < |p.order| ensures WholeQtys(p)[k] <= KeySum(BySettlement(rows), p.order[k]) + p.tolerance {
      NearlyDelivered(p, rows, k);
    }
    SumCovers(BySettlement(rows), p.order, WholeQtys(p), p.tolerance);
  }

  /** Children never get more than their quantity, and a child no row names gets nothing. */
  lemma {:induction false} FilledAtMost(p: Parent, rows: seq<Slice>, c: nat)
    requires Transports(p, rows) && c < |p.order|
    ensures Filled(rows, c) <= p.wholes[p.order[c]].qty
    ensures (forall i | 0 <= i < |rows| :: rows[i].child != c) ==> Filled(rows, c) == 0.0
  {
    if i :| 0 <= i < |rows| && rows[i].child == c {
      assert FillsChild(p, rows, rows[i]);
    } else {
      NoRowNoSum(rows, c);
    }
  }

  lemma {:induction false} FilledInAll(p: Parent, rows: seq<Slice>, unused: nat)
    requires Transports(p, rows) && unused < |p.order|
    requires forall i | 0 <= i < |rows| :: rows[i].child != unused
    ensures ByKey(ByChild(rows), Unit, Range(|p.order|)) <= Sum(WholeQtys(p)) - p.wholes[p.order[unused]].qty
  {
    var qtys, keys := WholeQtys(p), Range(|p.order|);
    var without := qtys[unused := 0.0];
    forall c | 0 <= c < |p.order| ensures KeySum(ByChild(rows), keys[c]) <= without[c] {
      FilledAtMost(p, rows, c);
    }
    SumCovered(ByChild(rows), keys, without);
    SumDiffers(qtys, without, unused, -qtys[unused]);
  }

  /** No line of the validator checks that all children are used; it follows from the sums,
      for every child larger than the tolerance times the number of settlements. */
  lemma {:induction false} EveryChildIsUsed(p: Parent, rows: seq<Slice>, c: nat)
    requires Transports(p, rows) && c < |p.order|
    requires p.wholes[p.order[c]].qty > Times(|p.order|, p.tolerance)
    ensures exists i :: 0 <= i < |rows| && rows[i].child == c
  {
    DeliveredInAll(p, rows);
    SameTotal(rows);
    RegroupRows(p, rows, Unit);
    RegroupChildren(p, rows, Unit);
    if forall i | 0 <= i < |rows| :: rows[i].child != c {
      FilledInAll(p, rows, c);
    }
  }

  /** In exact arithmetic every child is used and its slices sum to its quantity. */
  lemma {:induction false} ExactlyFilled(p: Parent, rows: seq<Slice>, c: nat)
    requires Transports(p, rows) && p.tolerance == 0.0 && c < |p.order|
    ensures Filled(rows, c) == p.wholes[p.order[c]].qty
    ensures exists i :: 0 <= i < |rows| && rows[i].child == c && rows[i].transactionQty == p.wholes[p.order[c]].qty
  {
    TimesIsProduct(|p.order|, 0.0);
    EveryChildIsUsed(p, rows, c);
    var i :| 0 <= i < |rows| && rows[i].child == c;
    assert FillsChild(p, rows, rows[i]);
  }

  // ----- fees and profit

  /** The entry part of a settlement's commission. */
  predicate IsEntryPart(w: Whole, x: real) {
    && (w.exitFee.None? ==> x == 0.0)
    && (w.exitFee.Some? && w.commission > w.exitFee.value ==> x == w.commission - w.exitFee.value)
    && (w.exitFee.Some? && w.commission <= w.exitFee.value ==> x == 0.0)
  }

  predicate IsFee(fee: Option<real>, x: real) { x == match fee case None => 0.0 case Some(value) => value }

  /** The same part of an amount as `qty` is of `whole`. */
  predicate IsShare(x: real, amount: real, qty: real, whole: real) { x * whole == amount * qty }

  predicate IsPercent(x: real, pnl: real, cost: real) {
    if cost > 0.0 then x * cost == pnl * 100.0 else x == 0.0
  }

  /** A commission: a share of the entry part and a share of the child's fee. */
  ghost predicate IsCommission(r: Slice, qty: real, x: real) {
    exists entry, fee, a, b ::
      && IsEntryPart(r.whole, entry) && IsFee(r.transactionFee, fee)
      && IsShare(a, entry, qty, r.whole.qty) && IsShare(b, fee, qty, r.transactionQty) && x == a + b
  }

  /** What a recut row shows, by its fields: its shares of the settlement's amounts by quantity, the
      child's fee by quantity, and the profit in percent of the cost of entry. */
  ghost predicate ShowsItsPart(p: Parent, r: Slice) {
    var t, w := r.trade, r.whole;
    && t.qty.Some? && t.commission.Some? && t.pnl.Some? && t.entryPrice.Some? && t.pnlPct.Some?
    && t.maxRunup.Some? && t.maxDrawdown.Some?
    && IsCommission(r, t.qty.value, t.commission.value)
    && IsShare(t.pnl.value + t.commission.value, w.pnl + w.commission, t.qty.value, w.qty)
    && IsShare(t.maxRunup.value, w.maxRunup, t.qty.value, w.qty)
    && IsShare(t.maxDrawdown.value, w.maxDrawdown, t.qty.value, w.qty)
    && IsPercent(t.pnlPct.value, t.pnl.value, t.entryPrice.value * t.qty.value * p.pointvalue)
  }

  lemma {:induction false} SameFactor(x: real, y: real, c: real)
    requires c > 0.0 && x * c == y * c
    ensures x == y
  {
    assert (x - y) * c == 0.0;
  }

  lemma {:induction false} ShareIs(x: real, amount: real, qty: real, whole: real)
    requires whole > 0.0
    ensures x == Share(amount, qty, whole) <==> IsShare(x, amount, qty, whole)
  {
    var y := Share(amount, qty, whole);
    assert y * whole == amount * (qty / whole * whole);
    if IsShare(x, amount, qty, whole) { SameFactor(x, y, whole); }
  }

  lemma {:induction false} PercentIs(x: real, pnl: real, cost: real)
    ensures x == Percent(pnl, cost) <==> IsPercent(x, pnl, cost)
  {
    if cost > 0.0 {
      var y := pnl / cost * 100.0;
      assert y * cost == pnl / cost * cost * 100.0;
      if x * cost == pnl * 100.0 { SameFactor(x, y, cost); }
    }
  }

  lemma {:induction false} CommissionIs(r: Slice, qty: real, x: real)
    requires RecordOk(r)
    ensures x == SliceFee(r, qty) <==> IsCommission(r, qty, x)
  {
    var entry, fee := EntryFee(r.whole), TransactionFee(r.transactionFee);
    var a, b := Share(entry, qty, r.whole.qty), Share(fee, qty, r.transactionQty);
    ShareIs(a, entry, qty, r.whole.qty);
    ShareIs(b, fee, qty, r.transactionQty);
    assert IsEntryPart(r.whole, entry) && IsFee(r.transactionFee, fee);
    if IsCommission(r, qty, x) {
      var entry', fee', a', b' :|
        && IsEntryPart(r.whole, entry') && IsFee(r.transactionFee, fee')
        && IsShare(a', entry', qty, r.whole.qty) && IsShare(b', fee', qty, r.transactionQty) && x == a' + b';
      assert entry' == entry && fee' == fee;
      ShareIs(a', entry, qty, r.whole.qty);
      ShareIs(b', fee, qty, r.transactionQty);
    }
  }

  /** The amounts of a recut row are accepted exactly when it shows its part. */
  lemma {:induction false} AmountsAreParts(p: Parent, r: Slice)
    requires RecordOk(r) && r.trade.qty.Some?
    ensures RecutAmounts(p, r, Qty(r)) == Accepted <==> ShowsItsPart(p, r)
  {
    var q, w, t := Qty(r), r.whole, r.trade;
    if t.commission.Some? { CommissionIs(r, q, t.commission.value); }
    if t.commission.Some? && t.pnl.Some? {
      ShareIs(t.pnl.value + t.commission.value, w.pnl + w.commission, q, w.qty);
    }
    if t.maxRunup.Some? { ShareIs(t.maxRunup.value, w.maxRunup, q, w.qty); }
    if t.maxDrawdown.Some? { ShareIs(t.maxDrawdown.value, w.maxDrawdown, q, w.qty); }
    if t.pnlPct.Some? && t.entryPrice.Some? {
      PercentIs(t.pnlPct.value, SlicePnl(r, q), Cost(t.entryPrice.value, q, p.pointvalue));
    }
  }

  /** Every row of an accepted recut shows its part. */
  lemma {:induction false} AcceptedRowsShow(p: Parent, rows: seq<Slice>, i: nat)
    requires AcceptedRecut(p, rows) && i < |rows|
    ensures ShowsItsPart(p, rows[i])
  {
    var _ := AcceptedWalk(p, rows);
    EveryRowPresents(p, rows, i);
    AmountsAreParts(p, rows[i]);
  }

  function Commission(r: Slice): real { if r.trade.commission.Some? then r.trade.commission.value else 0.0 }

  function Profit(r: Slice): real { if r.trade.pnl.Some? then r.trade.pnl.value else 0.0 }

  function Commissions(rows: seq<Slice>): real {
    if rows == [] then 0.0 else Commissions(rows[..|rows| - 1]) + Commission(rows[|rows| - 1])
  }

  function Profits(rows: seq<Slice>): real {
    if rows == [] then 0.0 else Profits(rows[..|rows| - 1]) + Profit(rows[|rows| - 1])
  }

  /** Amounts per unit of quantity: a settlement's entry fee and gross profit, a child's fee. */
  function EntryRate(p: Parent): nat -> real {
    s => if s in p.wholes then Rate(EntryFee(p.wholes[s]), p.wholes[s].qty) else 0.0
  }

  function GrossRate(p: Parent): nat -> real {
    s => if s in p.wholes then Rate(p.wholes[s].pnl + p.wholes[s].commission, p.wholes[s].qty) else 0.0
  }

  function ChildRate(p: Parent, fees: map<nat, Option<real>>): nat -> real {
    c => if c in fees && c < |p.order| && p.order[c] in p.wholes
         then Rate(TransactionFee(fees[c]), p.wholes[p.order[c]].qty) else 0.0
  }

  /** `fees` gives the fee operand each child's rows carry. */
  ghost predicate FeesOf(rows: seq<Slice>, fees: map<nat, Option<real>>) {
    forall i | 0 <= i < |rows| :: rows[i].child in fees && fees[rows[i].child] == rows[i].transactionFee
  }

  ghost predicate Shows(r: Slice, entryRate: nat -> real, childRate: nat -> real, grossRate: nat -> real) {
    && Commission(r) == entryRate(r.settlement) * Qty(r) + childRate(r.child) * Qty(r)
    && Profit(r) == grossRate(r.settlement) * Qty(r) - Commission(r)
  }

  lemma {:induction false} Proportion(amount: real, qty: real, whole: real)
    requires whole != 0.0
    ensures Share(amount, qty, whole) == Rate(amount, whole) * qty
  {
  }

  lemma {:induction false} AmountsByRate(r: Slice, qty: real)
    requires RecordOk(r)
    ensures SliceFee(r, qty) == Rate(EntryFee(r.whole), r.whole.qty) * qty
                                + Rate(TransactionFee(r.transactionFee), r.transactionQty) * qty
    ensures SlicePnl(r, qty) == Rate(r.whole.pnl + r.whole.commission, r.whole.qty) * qty - SliceFee(r, qty)
  {
    Proportion(EntryFee(r.whole), qty, r.whole.qty);
    Proportion(TransactionFee(r.transactionFee), qty, r.transactionQty);
    Proportion(r.whole.pnl + r.whole.commission, qty, r.whole.qty);
  }

  lemma {:induction false} RowShows(p: Parent, rows: seq<Slice>, r: Slice, fees: map<nat, Option<real>>)
    requires ParentOk(p) && Belongs(p, r) && RecutAmounts(p, r, Qty(r)) == Accepted && FillsChild(p, rows, r)
    requires r.child in fees && fees[r.child] == r.transactionFee
    ensures Shows(r, EntryRate(p), ChildRate(p, fees), GrossRate(p))
  {
    AmountsByRate(r, Qty(r));
    AcceptedAmounts(p, r);
    RatesOf(p, r, fees);
  }

  lemma {:induction false} AcceptedAmounts(p: Parent, r: Slice)
    requires RecordOk(r) && RecutAmounts(p, r, Qty(r)) == Accepted
    ensures Commission(r) == SliceFee(r, Qty(r)) && Profit(r) == SlicePnl(r, Qty(r))
  {
  }

  lemma {:induction false} RatesOf(p: Parent, r: Slice, fees: map<nat, Option<real>>)
    requires ParentOk(p) && Belongs(p, r) && r.child in fees && fees[r.child] == r.transactionFee
    requires r.child < |p.order| && r.transactionQty == p.wholes[p.order[r.child]].qty
    ensures EntryRate(p)(r.settlement) == Rate(EntryFee(r.whole), r.whole.qty)
    ensures GrossRate(p)(r.settlement) == Rate(r.whole.pnl + r.whole.commission, r.whole.qty)
    ensures ChildRate(p, fees)(r.child) == Rate(TransactionFee(r.transactionFee), r.transactionQty)
  {
  }

  lemma {:induction false} EveryRowShows(p: Parent, rows: seq<Slice>, fees: map<nat, Option<real>>)
    requires AcceptedRecut(p, rows) && FeesOf(rows, fees)
    ensures forall i | 0 <= i < |rows| :: Shows(rows[i], EntryRate(p), ChildRate(p, fees), GrossRate(p))
  {
    var _ := AcceptedWalk(p, rows);
    AcceptedTransports(p, rows);
    forall i | 0 <= i < |rows| ensures Shows(rows[i], EntryRate(p), ChildRate(p, fees), GrossRate(p)) {
      EveryRowPresents(p, rows, i);
      assert FillsChild(p, rows, rows[i]) && Belongs(p, rows[i]);
      RowShows(p, rows, rows[i], fees);
    }
  }

  lemma {:induction false} AmountsAreWeighted(rows: seq<Slice>, entry: nat -> real, child: nat -> real,
                                              gross: nat -> real)
    requires forall i | 0 <= i < |rows| :: Shows(rows[i], entry, child, gross)
    ensures Commissions(rows) == Weighted(BySettlement(rows), entry) + Weighted(ByChild(rows), child)
    ensures Profits(rows) == Weighted(BySettlement(rows), gross) - Commissions(rows)
  {
    if rows != [] {
      var n := |rows| - 1;
      AmountsAreWeighted(rows[..n], entry, child, gross);
      assert Shows(rows[n], entry, child, gross);
      WeightedMore(rows, entry);
      WeightedMore(rows, child);
      WeightedMore(rows, gross);
    }
  }

  /** Whatever the tolerance: commissions are entry fees in proportion to what was delivered
      plus child fees in proportion to what was filled, and profit is gross profit in that
      proportion minus those commissions. */
  lemma {:induction false} CommissionsAndProfits(p: Parent, rows: seq<Slice>, fees: map<nat, Option<real>>)
    requires AcceptedRecut(p, rows) && FeesOf(rows, fees)
    ensures Commissions(rows) == ByKey(BySettlement(rows), EntryRate(p), p.order)
                                 + ByKey(ByChild(rows), ChildRate(p, fees), Range(|p.order|))
    ensures Profits(rows) == ByKey(BySettlement(rows), GrossRate(p), p.order) - Commissions(rows)
  {
    AcceptedTransports(p, rows);
    EveryRowShows(p, rows, fees);
    AmountsAreWeighted(rows, EntryRate(p), ChildRate(p, fees), GrossRate(p));
    RegroupRows(p, rows, EntryRate(p));
    RegroupRows(p, rows, GrossRate(p));
    RegroupChildren(p, rows, ChildRate(p, fees));
  }

  /** What the settlements were charged on entry: nothing without an exit fee, otherwise the
      commission less the exit fee, and never less than nothing. */
  function EntryFees(p: Parent): (xs: seq<real>)
    requires ParentOk(p)
    ensures |xs| == |p.order| && forall k | 0 <= k < |xs| :: IsEntryPart(p.wholes[p.order[k]], xs[k])
  {
    seq(|p.order|, k requires 0 <= k < |p.order| => EntryFee(p.wholes[p.order[k]]))
  }

  function GrossProfits(p: Parent): (xs: seq<real>)
    requires ParentOk(p)
    ensures |xs| == |p.order|
    ensures forall k | 0 <= k < |xs| :: xs[k] == p.wholes[p.order[k]].pnl + p.wholes[p.order[k]].commission
  {
    seq(|p.order|, k requires 0 <= k < |p.order| => p.wholes[p.order[k]].pnl + p.wholes[p.order[k]].commission)
  }

  function ChildFees(fees: map<nat, Option<real>>, n: nat): (xs: seq<real>)
    requires forall c: nat | c < n :: c in fees
    ensures |xs| == n && forall c: nat | c < n :: IsFee(fees[c], xs[c])
  {
    seq(n, c requires 0 <= c < n => TransactionFee(fees[c]))
  }

  /** In exact arithmetic the slices of each settlement sum to its whole quantity. */
  lemma {:induction false} ExactlyDelivered(p: Parent, rows: seq<Slice>)
    requires Transports(p, rows) && p.tolerance == 0.0
    ensures forall k | 0 <= k < |p.order| :: Delivered(rows, p.order[k]) == WholeQtys(p)[k]
  {
    forall k | 0 <= k < |p.order| ensures Delivered(rows, p.order[k]) == WholeQtys(p)[k] {
      NearlyDelivered(p, rows, k);
    }
  }

  lemma {:induction false} ExactEntryFees(p: Parent, rows: seq<Slice>)
    requires Transports(p, rows) && p.tolerance == 0.0
    ensures ByKey(BySettlement(rows), EntryRate(p), p.order) == Sum(EntryFees(p))
  {
    ExactlyDelivered(p, rows);
    SumByKey(BySettlement(rows), EntryRate(p), p.order, EntryFees(p), WholeQtys(p));
  }

  lemma {:induction false} ExactGrossProfits(p: Parent, rows: seq<Slice>)
    requires Transports(p, rows) && p.tolerance == 0.0
    ensures ByKey(BySettlement(rows), GrossRate(p), p.order) == Sum(GrossProfits(p))
  {
    ExactlyDelivered(p, rows);
    SumByKey(BySettlement(rows), GrossRate(p), p.order, GrossProfits(p), WholeQtys(p));
  }

  lemma {:induction false} ExactChildren(p: Parent, rows: seq<Slice>, fees: map<nat, Option<real>>)
    requires Transports(p, rows) && p.tolerance == 0.0
    requires forall c: nat | c < |p.order| :: c in fees
    ensures ByKey(ByChild(rows), ChildRate(p, fees), Range(|p.order|)) == Sum(ChildFees(fees, |p.order|))
  {
    var keys := Range(|p.order|);
    forall c | 0 <= c < |p.order| ensures KeySum(ByChild(rows), keys[c]) == WholeQtys(p)[c] {
      ExactlyFilled(p, rows, c);
    }
    SumByKey(ByChild(rows), ChildRate(p, fees), keys, ChildFees(fees, |p.order|), WholeQtys(p));
  }

  lemma {:induction false} EveryChildIsCharged(p: Parent, rows: seq<Slice>, fees: map<nat, Option<real>>)
    requires Transports(p, rows) && p.tolerance == 0.0 && FeesOf(rows, fees)
    ensures forall c: nat | c < |p.order| :: c in fees
  {
    forall c: nat | c < |p.order| ensures c in fees { ExactlyFilled(p, rows, c); }
  }

  /** In exact arithmetic an accepted recut conserves money: presented commissions are the
      clamped entry fees of the settlements plus the fees of the children, and presented
      profits are the gross profits minus those commissions. */
  lemma {:induction false} RecutConserves(p: Parent, rows: seq<Slice>, fees: map<nat, Option<real>>)
    requires AcceptedRecut(p, rows) && p.tolerance == 0.0 && FeesOf(rows, fees)
    ensures forall c: nat | c < |p.order| :: c in fees
    ensures Commissions(rows) == Sum(EntryFees(p)) + Sum(ChildFees(fees, |p.order|))
    ensures Profits(rows) == Sum(GrossProfits(p)) - Sum(EntryFees(p)) - Sum(ChildFees(fees, |p.order|))
  {
    AcceptedTransports(p, rows);
    EveryChildIsCharged(p, rows, fees);
    CommissionsAndProfits(p, rows, fees);
    ExactEntryFees(p, rows);
    ExactGrossProfits(p, rows);
    ExactChildren(p, rows, fees);
  }
}
