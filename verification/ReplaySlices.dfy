/** Validation of one parent of the replay companion: its slices must transport the
    settlements' quantities to the child transactions, two cursors moving in step.
    Money and quantity are exact reals; rounding to ten digits is the identity. */
module ReplaySlices {
  import opened Arithmetic
  import opened KeyedSums
  import opened Options

  /** The presented trade row: any of these doubles may be null in the sink. */
  datatype Trade = Trade(entryPrice: Option<real>, qty: Option<real>, pnl: Option<real>, pnlPct: Option<real>,
                         maxRunup: Option<real>, maxDrawdown: Option<real>, commission: Option<real>)

  /** The operands of a whole settlement, repeated on each of its slices. */
  datatype Whole = Whole(qty: real, pnl: real, commission: real, maxRunup: real, maxDrawdown: real,
                         exitFee: Option<real>)

  datatype Slice = Slice(settlement: nat, child: nat, transactionQty: real, transactionFee: Option<real>,
                         whole: Whole, trade: Trade)

  datatype Verdict = Accepted | ReplayMismatch | ParentCoverageInvalid | Crashed

  /** What the queries collect about a parent before its slices are walked: its settlements
      in ascending order with their operands; child number i is the i-th settlement. */
  datatype Parent = Parent(order: seq<nat>, wholes: map<nat, Whole>, recut: bool, pointvalue: real, tolerance: real)

  /** `cursor`/`left`: current settlement and its undelivered quantity. `last`/`wanted`:
      current child and its unfilled quantity. `used`: fee operand of each child met. */
  datatype Walk = Walk(cursor: nat, left: real, last: Option<nat>, wanted: real, used: map<nat, Option<real>>)

  datatype Progress = Going(walk: Walk) | Stopped(verdict: Verdict)

  /** The record validator has already refused nonpositive quantities and half-given fees. */
  predicate RecordOk(r: Slice) {
    && r.transactionQty > 0.0 && r.whole.qty > 0.0
    && (r.whole.exitFee.None? <==> r.transactionFee.None?)
  }

  ghost predicate RecordsOk(rows: seq<Slice>) {
    forall i | 0 <= i < |rows| :: RecordOk(rows[i])
  }

  function Ascending(keys: set<nat>, bound: nat): seq<nat> {
    if bound == 0 then []
    else Ascending(keys, bound - 1) + (if bound - 1 in keys then [bound - 1] else [])
  }

  ghost predicate Increasing(s: seq<nat>) {
    forall i, j | 0 <= i < j < |s| :: s[i] < s[j]
  }

  lemma {:induction false} AscendingSorts(keys: set<nat>, bound: nat)
    ensures Increasing(Ascending(keys, bound))
    ensures forall key :: key in Ascending(keys, bound) <==> key in keys && key < bound
  {
    if bound > 0 {
      AscendingSorts(keys, bound - 1);
      var shorter := Ascending(keys, bound - 1);
      assert forall i | 0 <= i < |shorter| :: shorter[i] in shorter;
    }
  }

  ghost predicate ParentOk(p: Parent) {
    && Increasing(p.order) && p.tolerance >= 0.0
    && (forall s | s in p.order :: s in p.wholes && p.wholes[s].qty > 0.0)
  }

  function Start(p: Parent): Walk
    requires ParentOk(p)
  {
    Walk(0, if p.order == [] then 0.0 else p.wholes[p.order[0]].qty, None, 0.0, map[])
  }

  function Clamp(a: real): real { if a < 0.0 then 0.0 else a }

  /** Entry-side and transaction-side fee amounts; nothing when fees are absent. */
  function EntryFee(w: Whole): real {
    if w.exitFee.None? then 0.0 else Clamp(w.commission - w.exitFee.value)
  }

  function TransactionFee(fee: Option<real>): real {
    if fee.None? then 0.0 else fee.value
  }

  function Cost(price: real, qty: real, pointvalue: real): real { price * qty * pointvalue }

  function Percent(pnl: real, cost: real): real {
    if cost > 0.0 then pnl / cost * 100.0 else 0.0
  }

  /** The bookkeeping of children, before any amount is compared. */
  function Enter(p: Parent, w: Walk, r: Slice): Progress
    requires ParentOk(p)
  {
    if !p.recut && w.last == Some(r.child) then Stopped(ParentCoverageInvalid)
    else if r.child >= |p.order| || p.wholes[p.order[r.child]].qty != r.transactionQty then Stopped(ReplayMismatch)
    else if w.last != Some(r.child) then
      if w.wanted > p.tolerance then Stopped(ReplayMismatch)
      else if r.child in w.used then Stopped(ParentCoverageInvalid)
      else Going(w.(used := w.used[r.child := r.transactionFee], wanted := r.transactionQty, last := Some(r.child)))
    else if r.child in w.used && w.used[r.child] != r.transactionFee then Stopped(ReplayMismatch)
    else Going(w)
  }

  /** An uncut row must show its settlement unchanged. */
  function UncutAmounts(p: Parent, r: Slice): Verdict {
    var t := r.trade;
    if t.qty != Some(r.whole.qty) || t.pnl != Some(r.whole.pnl) || t.commission != Some(r.whole.commission)
       || t.maxRunup != Some(r.whole.maxRunup) || t.maxDrawdown != Some(r.whole.maxDrawdown)
       || r.transactionQty != r.whole.qty then ReplayMismatch
    else if t.entryPrice.None? then Crashed
    else if t.pnlPct != Some(Percent(r.whole.pnl, Cost(t.entryPrice.value, r.whole.qty,
        p.pointvalue))) then ReplayMismatch
    else Accepted
  }

  /** Part of an amount in proportion to a quantity. */
  function Share(amount: real, qty: real, whole: real): real
    requires whole != 0.0
  {
    amount * (qty / whole)
  }

  function SliceFee(r: Slice, qty: real): real
    requires RecordOk(r)
  {
    Share(EntryFee(r.whole), qty, r.whole.qty) + Share(TransactionFee(r.transactionFee), qty, r.transactionQty)
  }

  function SlicePnl(r: Slice, qty: real): real
    requires RecordOk(r)
  {
    Share(r.whole.pnl + r.whole.commission, qty, r.whole.qty) - SliceFee(r, qty)
  }

  /** A recut row of quantity `qty` must show its share of the settlement. */
  function RecutAmounts(p: Parent, r: Slice, qty: real): Verdict
    requires RecordOk(r)
  {
    var t := r.trade;
    if t.commission != Some(SliceFee(r, qty)) || t.pnl != Some(SlicePnl(r, qty)) then ReplayMismatch
    else if t.entryPrice.None? then Crashed
    else if t.pnlPct != Some(Percent(SlicePnl(r, qty), Cost(t.entryPrice.value, qty, p.pointvalue)))
            || t.maxRunup != Some(Share(r.whole.maxRunup, qty, r.whole.qty))
            || t.maxDrawdown != Some(Share(r.whole.maxDrawdown, qty, r.whole.qty))
      then ReplayMismatch
    else Accepted
  }

  /** Both cursors advance by the slice's quantity. */
  function Move(p: Parent, w: Walk, qty: real): Walk
    requires ParentOk(p)
  {
    if w.left - qty <= p.tolerance
      then w.(cursor := w.cursor + 1, wanted := w.wanted - qty,
              left := if w.cursor + 1 < |p.order| then p.wholes[p.order[w.cursor + 1]].qty else 0.0)
      else w.(left := w.left - qty, wanted := w.wanted - qty)
  }

  function Compare(p: Parent, w: Walk, r: Slice): Progress
    requires ParentOk(p) && RecordOk(r)
  {
    if !p.recut then
      if r.child < |p.order| && p.order[r.child] != r.settlement then Stopped(ReplayMismatch)
      else if UncutAmounts(p, r) != Accepted then Stopped(UncutAmounts(p, r))
      else Going(w.(wanted := 0.0))
    else if w.cursor >= |p.order| || p.order[w.cursor] != r.settlement then Stopped(ReplayMismatch)
    else
      var qty := RealMin(w.left, w.wanted);
      if r.trade.qty != Some(qty) then Stopped(ReplayMismatch)
      else if RecutAmounts(p, r, qty) != Accepted then Stopped(RecutAmounts(p, r, qty))
      else Going(Move(p, w, qty))
  }

  function Row(p: Parent, w: Walk, r: Slice): Progress
    requires ParentOk(p) && RecordOk(r)
  {
    var entered := Enter(p, w, r);
    if entered.Stopped? then entered else Compare(p, entered.walk, r)
  }

  /** The walk over slices 0, 1, 2, ... */
  function Rows(p: Parent, rows: seq<Slice>): Progress
    requires ParentOk(p) && RecordsOk(rows)
  {
    if rows == [] then Going(Start(p))
    else
      var before := Rows(p, rows[..|rows| - 1]);
      if before.Stopped? then before else Row(p, before.walk, rows[|rows| - 1])
  }

  function Finish(p: Parent, w: Walk): Verdict {
    if w.wanted > p.tolerance || (p.recut && w.cursor < |p.order|) then ReplayMismatch else Accepted
  }

  function Check(p: Parent, rows: seq<Slice>): Verdict
    requires ParentOk(p) && RecordsOk(rows)
  {
    var end := Rows(p, rows);
    if end.Stopped? then end.verdict else Finish(p, end.walk)
  }

  lemma {:induction false} StopsForGood(p: Parent, rows: seq<Slice>, n: nat)
    requires ParentOk(p) && RecordsOk(rows)
    requires n <= |rows| && Rows(p, rows[..n]).Stopped?
    ensures Rows(p, rows) == Rows(p, rows[..n])
  {
    if n < |rows| {
      var shorter := rows[..|rows| - 1];
      assert shorter[..n] == rows[..n];
      StopsForGood(p, shorter, n);
    } else {
      assert rows[..n] == rows;
    }
  }

  /** One turn of the loop, with the source's variables. */
  method ValidateRow(p: Parent, w: Walk, r: Slice) returns (next: Progress)
    requires ParentOk(p) && RecordOk(r)
    ensures next == Row(p, w, r)
  {
    var cursor, left, last, wanted, used := w.cursor, w.left, w.last, w.wanted, w.used;
    if !p.recut && last == Some(r.child) { return Stopped(ParentCoverageInvalid); }
    if r.child >= |p.order| || p.wholes[p.order[r.child]].qty != r.transactionQty { return Stopped(ReplayMismatch); }
    if last != Some(r.child) {
      if wanted > p.tolerance { return Stopped(ReplayMismatch); }
      if r.child in used { return Stopped(ParentCoverageInvalid); }
      used := used[r.child := r.transactionFee];
      wanted, last := r.transactionQty, Some(r.child);
    } else if r.child in used && used[r.child] != r.transactionFee {
      return Stopped(ReplayMismatch);
    }
    var amounts;
    if !p.recut {
      if p.order[r.child] != r.settlement { return Stopped(ReplayMismatch); }
      amounts := UncutAmounts(p, r);
      wanted := 0.0;
    } else {
      if cursor >= |p.order| || p.order[cursor] != r.settlement { return Stopped(ReplayMismatch); }
      var qty := RealMin(left, wanted);
      if r.trade.qty != Some(qty) { return Stopped(ReplayMismatch); }
      left, wanted := left - qty, wanted - qty;
      if left <= p.tolerance {
        cursor := cursor + 1;
        left := if cursor < |p.order| then p.wholes[p.order[cursor]].qty else 0.0;
      }
      amounts := RecutAmounts(p, r, qty);
    }
    next := if amounts != Accepted then Stopped(amounts) else Going(Walk(cursor, left, last, wanted, used));
  }

  /** The loop over a parent's rows. */
  method ValidateParent(p: Parent, rows: seq<Slice>) returns (v: Verdict)
    requires ParentOk(p) && RecordsOk(rows)
    ensures v == Check(p, rows)
  {
    var w := Start(p);
    for i := 0 to |rows|
      invariant Rows(p, rows[..i]) == Going(w)
    {
      var next := ValidateRow(p, w, rows[i]);
      assert rows[..i + 1][..i] == rows[..i];
      if next.Stopped? {
        StopsForGood(p, rows, i + 1);
        return next.verdict;
      }
      w := next.walk;
    }
    assert rows[..|rows|] == rows;
    v := Finish(p, w);
  }

  // ----- what acceptance implies

  /** Each slice repeats the operands of its own settlement. */
  ghost predicate Belongs(p: Parent, r: Slice) {
    RecordOk(r) && r.settlement in p.order && r.settlement in p.wholes && p.wholes[r.settlement] == r.whole
  }

  ghost predicate AllBelong(p: Parent, rows: seq<Slice>) {
    forall i | 0 <= i < |rows| :: Belongs(p, rows[i])
  }

  function Qty(r: Slice): real { if r.trade.qty.Some? then r.trade.qty.value else 0.0 }

  function BySettlement(rows: seq<Slice>): (es: seq<Entry>)
    ensures |es| == |rows|
  {
    if rows == [] then []
    else BySettlement(rows[..|rows| - 1]) + [Entry(rows[|rows| - 1].settlement, Qty(rows[|rows| - 1]))]
  }

  function ByChild(rows: seq<Slice>): (es: seq<Entry>)
    ensures |es| == |rows|
  {
    if rows == [] then []
    else ByChild(rows[..|rows| - 1]) + [Entry(rows[|rows| - 1].child, Qty(rows[|rows| - 1]))]
  }

  /** Presented quantity of one settlement, and of one child. */
  function Delivered(rows: seq<Slice>, settlement: nat): real { KeySum(BySettlement(rows), settlement) }

  function Filled(rows: seq<Slice>, child: nat): real { KeySum(ByChild(rows), child) }

  predicate Near(p: Parent, whole: real, sum: real) { 0.0 <= whole - sum <= p.tolerance }

  /** Settlements before the cursor are delivered, the current one up to what is left of
      it, later ones not at all. */
  ghost predicate SettlementsOk(p: Parent, rows: seq<Slice>, cursor: nat, left: real)
    requires ParentOk(p)
  {
    && cursor <= |p.order| && left >= 0.0
    && (forall k | 0 <= k < cursor :: Near(p, p.wholes[p.order[k]].qty, Delivered(rows, p.order[k])))
    && (forall k | cursor < k < |p.order| :: Delivered(rows, p.order[k]) == 0.0)
    && (cursor < |p.order| ==> Delivered(rows, p.order[cursor]) == p.wholes[p.order[cursor]].qty - left)
  }

  /** Children met before are filled, the current one up to what it still wants, the others
      not at all. */
  ghost predicate ChildrenOk(p: Parent, rows: seq<Slice>, last: Option<nat>, wanted: real, used: set<nat>)
    requires ParentOk(p)
  {
    && wanted >= 0.0
    && (forall c | c in used :: c < |p.order|)
    && (last.None? ==> used == {} && wanted == 0.0)
    && (last.Some? ==> last.value in used && Filled(rows, last.value) == p.wholes[p.order[last.value]].qty - wanted)
    && (forall c | c in used && last != Some(c) :: Near(p, p.wholes[p.order[c]].qty, Filled(rows, c)))
    && (forall c: nat | c !in used :: Filled(rows, c) == 0.0)
  }

  /** One fee operand and one quantity per child. */
  ghost predicate FeesOk(p: Parent, rows: seq<Slice>, used: map<nat, Option<real>>)
    requires ParentOk(p)
  {
    forall i | 0 <= i < |rows| ::
      && rows[i].child in used && used[rows[i].child] == rows[i].transactionFee
      && rows[i].child < |p.order| && p.wholes[p.order[rows[i].child]].qty == rows[i].transactionQty
  }

  /** What one accepted row of a recut parent did: it entered a child, presented the amounts
      of the smaller of the two open quantities, and moved both cursors by it. */
  ghost predicate Accepts(p: Parent, w: Walk, r: Slice, entered: Walk)
    requires ParentOk(p)
  {
    && Enter(p, w, r) == Going(entered)
    && entered.cursor < |p.order| && p.order[entered.cursor] == r.settlement
    && r.trade.qty == Some(RealMin(entered.left, entered.wanted))
  }

  lemma {:induction false} RowAccepts(p: Parent, w: Walk, r: Slice) returns (entered: Walk)
    requires ParentOk(p) && p.recut && RecordOk(r) && Row(p, w, r).Going?
    ensures Accepts(p, w, r, entered) && Row(p, w, r) == Going(Move(p, entered, Qty(r)))
    ensures RecutAmounts(p, r, Qty(r)) == Accepted
  {
    entered := Enter(p, w, r).walk;
  }

  lemma {:induction false} MoveKeepsSettlements(p: Parent, rows: seq<Slice>, r: Slice, w: Walk)
    requires ParentOk(p) && SettlementsOk(p, rows, w.cursor, w.left) && w.wanted >= 0.0
    requires w.cursor < |p.order| && p.order[w.cursor] == r.settlement && r.trade.qty == Some(RealMin(w.left, w.wanted))
    ensures var w' := Move(p, w, Qty(r)); SettlementsOk(p, rows + [r], w'.cursor, w'.left)
  {
    assert (rows + [r])[..|rows|] == rows;
    forall k | 0 <= k < |p.order|
      ensures Delivered(rows + [r], p.order[k]) == Delivered(rows, p.order[k]) + (if k == w.cursor then Qty(r) else 0.0)
    {
      KeySumAppend(BySettlement(rows), Entry(r.settlement, Qty(r)), p.order[k]);
    }
  }

  lemma {:induction false} EnterKeepsChildren(p: Parent, rows: seq<Slice>, r: Slice, w: Walk, entered: Walk)
    requires ParentOk(p) && ChildrenOk(p, rows, w.last, w.wanted, w.used.Keys) && Enter(p, w, r) == Going(entered)
    ensures ChildrenOk(p, rows, entered.last, entered.wanted, entered.used.Keys) && entered.last == Some(r.child)
  {
  }

  lemma {:induction false} EnterKeepsFees(p: Parent, rows: seq<Slice>, r: Slice, w: Walk, entered: Walk)
    requires ParentOk(p) && FeesOk(p, rows, w.used) && Enter(p, w, r) == Going(entered)
    requires w.last.Some? ==> w.last.value in w.used
    ensures FeesOk(p, rows + [r], entered.used)
  {
  }

  lemma {:induction false} MoveKeepsChildren(p: Parent, rows: seq<Slice>, r: Slice, w: Walk)
    requires ParentOk(p) && ChildrenOk(p, rows, w.last, w.wanted, w.used.Keys)
    requires w.last == Some(r.child) && Qty(r) <= w.wanted
    ensures ChildrenOk(p, rows + [r], w.last, w.wanted - Qty(r), w.used.Keys)
  {
    assert (rows + [r])[..|rows|] == rows;
    forall c: nat
      ensures Filled(rows + [r], c) == Filled(rows, c) + (if c == r.child then Qty(r) else 0.0)
    {
      KeySumAppend(ByChild(rows), Entry(r.child, Qty(r)), c);
    }
  }

  ghost predicate WalkOk(p: Parent, rows: seq<Slice>, w: Walk)
    requires ParentOk(p)
  {
    && SettlementsOk(p, rows, w.cursor, w.left)
    && ChildrenOk(p, rows, w.last, w.wanted, w.used.Keys)
    && FeesOk(p, rows, w.used)
  }

  lemma {:induction false} RowKeeps(p: Parent, rows: seq<Slice>, r: Slice, w: Walk, entered: Walk)
    requires ParentOk(p) && WalkOk(p, rows, w) && Accepts(p, w, r, entered)
    ensures WalkOk(p, rows + [r], Move(p, entered, Qty(r)))
  {
    var w' := Move(p, entered, Qty(r));
    assert ChildrenOk(p, rows + [r], w'.last, w'.wanted, w'.used.Keys) by {
      EnterKeepsChildren(p, rows, r, w, entered);
      MoveKeepsChildren(p, rows, r, entered);
    }
    assert FeesOk(p, rows + [r], w'.used) by { EnterKeepsFees(p, rows, r, w, entered); }
    assert SettlementsOk(p, rows + [r], w'.cursor, w'.left) by { MoveKeepsSettlements(p, rows, r, entered); }
  }

  lemma {:induction false} StartOk(p: Parent)
    requires ParentOk(p)
    ensures WalkOk(p, [], Start(p))
  {
  }

  /** The last row of a walk that goes on, and where it leads. */
  lemma {:induction false} LastRow(p: Parent, rows: seq<Slice>) returns (w: Walk, entered: Walk)
    requires ParentOk(p) && p.recut && RecordsOk(rows) && rows != [] && Rows(p, rows).Going?
    ensures var before, r := rows[..|rows| - 1], rows[|rows| - 1];
            && RecordsOk(before) && Rows(p, before) == Going(w) && Accepts(p, w, r, entered)
            && Rows(p, rows) == Going(Move(p, entered, Qty(r)))
  {
    w := Rows(p, rows[..|rows| - 1]).walk;
    entered := RowAccepts(p, w, rows[|rows| - 1]);
  }

  lemma {:induction false} WalkKeeps(p: Parent, rows: seq<Slice>)
    requires ParentOk(p) && p.recut && RecordsOk(rows) && Rows(p, rows).Going?
    ensures WalkOk(p, rows, Rows(p, rows).walk)
  {
    if rows == [] {
      StartOk(p);
    } else {
      var before, r := rows[..|rows| - 1], rows[|rows| - 1];
      assert rows == before + [r];
      var w, entered := LastRow(p, rows);
      WalkKeeps(p, before);
      RowKeeps(p, before, r, w, entered);
    }
  }

  lemma {:induction false} EveryRowPresents(p: Parent, rows: seq<Slice>, i: nat)
    requires ParentOk(p) && p.recut && RecordsOk(rows) && Rows(p, rows).Going? && i < |rows|
    ensures rows[i].trade.qty.Some? && RecutAmounts(p, rows[i], Qty(rows[i])) == Accepted
    decreases |rows|
  {
    var n := |rows| - 1;
    if i == n {
      var _ := RowAccepts(p, Rows(p, rows[..n]).walk, rows[n]);
    } else {
      EveryRowPresents(p, rows[..n], i);
    }
  }

  // ----- the parent a set of slices describes

  /** The settlement pass has already refused rows of one settlement with different operands. */
  ghost predicate Consistent(rows: seq<Slice>) {
    forall i, j | 0 <= i < |rows| && 0 <= j < |rows| && rows[i].settlement == rows[j].settlement ::
      rows[i].whole == rows[j].whole
  }

  function Keys(rows: seq<Slice>): set<nat> { set i | 0 <= i < |rows| :: rows[i].settlement }

  function Bound(rows: seq<Slice>): (b: nat)
    ensures forall i | 0 <= i < |rows| :: rows[i].settlement < b
  {
    if rows == [] then 0
    else var b, n := Bound(rows[..|rows| - 1]), |rows| - 1;
         if rows[n].settlement < b then b else rows[n].settlement + 1
  }

  function WholesOf(rows: seq<Slice>): map<nat, Whole> {
    if rows == [] then map[]
    else WholesOf(rows[..|rows| - 1])[rows[|rows| - 1].settlement := rows[|rows| - 1].whole]
  }

  function ParentOf(rows: seq<Slice>, recut: bool, pointvalue: real, tolerance: real): Parent {
    Parent(Ascending(Keys(rows), Bound(rows)), WholesOf(rows), recut, pointvalue, tolerance)
  }

  lemma {:induction false} WholesAgree(rows: seq<Slice>)
    requires Consistent(rows)
    ensures WholesOf(rows).Keys == Keys(rows)
    ensures forall i | 0 <= i < |rows| :: WholesOf(rows)[rows[i].settlement] == rows[i].whole
  {
    if rows != [] {
      var before, last := rows[..|rows| - 1], rows[|rows| - 1];
      WholesAgree(before);
      assert Keys(rows) == Keys(before) + {last.settlement};
    }
  }

  lemma {:induction false} ParentOfOk(rows: seq<Slice>, recut: bool, pointvalue: real, tolerance: real)
    requires Consistent(rows) && RecordsOk(rows) && tolerance >= 0.0
    ensures var p := ParentOf(rows, recut, pointvalue, tolerance);
            && ParentOk(p) && AllBelong(p, rows)
            && forall s | s in p.order :: exists i :: 0 <= i < |rows| && rows[i].settlement == s
  {
    WholesAgree(rows);
    AscendingSorts(Keys(rows), Bound(rows));
  }
}
