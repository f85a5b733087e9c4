/** The other direction: every exact recut of a parent is accepted, in whatever order its
    children are filled; and an accepted uncut parent shows each settlement once. */
module ReplayRecut {
  import opened Arithmetic
  import opened Numbering
  import opened Options
  import opened ReplayConservation
  import opened ReplaySlices

  /** Presentation data a recut leaves free: the entry price of each row, each child's fee. */
  datatype Choice = Choice(entryPrice: real, charged: bool, fees: map<nat, Option<real>>)

  function ChildQty(p: Parent, c: nat): real
    requires ParentOk(p)
  {
    if c < |p.order| then p.wholes[p.order[c]].qty else 0.0
  }

  /** The slice of quantity `qty` of settlement number `k` given to child `c`. */
  function SliceOf(p: Parent, t: Choice, k: nat, c: nat, qty: real): Slice
    requires ParentOk(p) && k < |p.order| && c < |p.order| && c in t.fees
  {
    var w := p.wholes[p.order[k]];
    var draft := Slice(p.order[k], c, ChildQty(p, c), t.fees[c], w, Trade(None, None, None, None, None, None, None));
    if !RecordOk(draft) then draft
    else
      var pnl := SlicePnl(draft, qty);
      draft.(trade := Trade(Some(t.entryPrice), Some(qty), Some(pnl),
                            Some(Percent(pnl, Cost(t.entryPrice, qty, p.pointvalue))),
                            Some(Share(w.maxRunup, qty, w.qty)), Some(Share(w.maxDrawdown, qty, w.qty)),
                            Some(SliceFee(draft, qty))))
  }

  /** A cut in progress: settlement number and what is left of it, the children still to be
      filled and what the first of them still wants. */
  datatype Job = Job(k: nat, left: real, children: seq<nat>, wanted: real)

  predicate Done(p: Parent, j: Job) { j.k >= |p.order| || j.children == [] || j.children[0] >= |p.order| }

  /** One slice as large as both sides allow. */
  function After(p: Parent, j: Job): Job
    requires ParentOk(p) && !Done(p, j)
  {
    var qty := RealMin(j.left, j.wanted);
    Job(if j.left <= j.wanted then j.k + 1 else j.k,
        if j.left <= j.wanted then ChildQty(p, j.k + 1) else j.left - qty,
        if j.wanted <= j.left then j.children[1..] else j.children,
        if j.wanted > j.left then j.wanted - qty else if |j.children| > 1 then ChildQty(p, j.children[1]) else 0.0)
  }

  /** Fill the children in the given order from the settlements in ascending order. */
  function Cut(p: Parent, t: Choice, j: Job): seq<Slice>
    requires ParentOk(p) && FeesMatch(p, t)
    decreases |p.order| - j.k + |j.children|
  {
    if Done(p, j) then []
    else [SliceOf(p, t, j.k, j.children[0], RealMin(j.left, j.wanted))] + Cut(p, t, After(p, j))
  }

  /** Every child has a fee operand, present exactly when the settlements' exit fees are. */
  ghost predicate FeesMatch(p: Parent, t: Choice)
    requires ParentOk(p)
  {
    && (forall k | 0 <= k < |p.order| :: p.wholes[p.order[k]].exitFee.Some? <==> t.charged)
    && (forall c: nat | c < |p.order| :: c in t.fees && (t.fees[c].Some? <==> t.charged))
  }

  /** The walk continued from a given state. */
  function RowsFrom(p: Parent, w: Walk, rows: seq<Slice>): Progress
    requires ParentOk(p) && RecordsOk(rows)
    decreases rows
  {
    if rows == [] then Going(w)
    else var next := Row(p, w, rows[0]);
         if next.Stopped? then next else RowsFrom(p, next.walk, rows[1..])
  }

  lemma {:induction false} RowsFromAppend(p: Parent, w: Walk, rows: seq<Slice>)
    requires ParentOk(p) && RecordsOk(rows) && rows != []
    ensures var n := |rows| - 1; var before := RowsFrom(p, w, rows[..n]);
            RowsFrom(p, w, rows) == (if before.Stopped? then before else Row(p, before.walk, rows[n]))
    decreases rows
  {
    var n := |rows| - 1;
    if n > 0 {
      var next := Row(p, w, rows[0]);
      assert rows[..n][1..] == rows[1..][..n - 1];
      if next.Going? { RowsFromAppend(p, next.walk, rows[1..]); }
    }
  }

  lemma {:induction false} RowsFromStart(p: Parent, rows: seq<Slice>)
    requires ParentOk(p) && RecordsOk(rows)
    ensures RowsFrom(p, Start(p), rows) == Rows(p, rows)
  {
    if rows != [] {
      RowsFromStart(p, rows[..|rows| - 1]);
      RowsFromAppend(p, Start(p), rows);
    }
  }

  lemma {:induction false} SliceIsAccepted(p: Parent, t: Choice, k: nat, c: nat, qty: real)
    requires ParentOk(p) && FeesMatch(p, t) && k < |p.order| && c < |p.order|
    ensures var r := SliceOf(p, t, k, c, qty);
            && RecordOk(r) && r.child == c && r.settlement == p.order[k] && r.transactionQty == ChildQty(p, c)
            && r.transactionFee == t.fees[c] && r.trade.qty == Some(qty) && RecutAmounts(p, r, qty) == Accepted
  {
    var w := p.wholes[p.order[k]];
    var draft := Slice(p.order[k], c, ChildQty(p, c), t.fees[c], w, Trade(None, None, None, None, None, None, None));
    assert RecordOk(draft);
    var r := SliceOf(p, t, k, c, qty);
    assert SliceFee(r, qty) == SliceFee(draft, qty) && SlicePnl(r, qty) == SlicePnl(draft, qty);
  }

  // ----- totals

  function Rest(qtys: seq<real>, children: seq<nat>): real {
    if children == [] then 0.0
    else (if children[0] < |qtys| then qtys[children[0]] else 0.0) + Rest(qtys, children[1..])
  }

  function Upward(k: nat, n: nat): seq<nat>
    decreases n - k
  {
    if k >= n then [] else [k] + Upward(k + 1, n)
  }

  lemma {:induction false} RestSplit(qtys: seq<real>, a: seq<nat>, x: nat, b: seq<nat>)
    ensures Rest(qtys, a + [x] + b) == Rest(qtys, [x]) + Rest(qtys, a + b)
  {
    if a == [] {
      assert [x] + b == a + [x] + b && (a + [x] + b)[1..] == b == a + b;
    } else {
      assert (a + [x] + b)[1..] == a[1..] + [x] + b && (a + b)[1..] == a[1..] + b;
      RestSplit(qtys, a[1..], x, b);
    }
  }

  lemma {:induction false} WithoutOne(s: seq<nat>, i: nat)
    requires i < |s|
    ensures multiset(s[..i] + s[i + 1..]) == multiset(s) - multiset{s[i]}
  {
    assert s == s[..i] + [s[i]] + s[i + 1..];
  }

  lemma {:induction false} FirstElsewhere(a: seq<nat>, b: seq<nat>) returns (i: nat)
    requires a != [] && multiset(a) == multiset(b)
    ensures i < |b| && b[i] == a[0] && multiset(a[1..]) == multiset(b[..i] + b[i + 1..])
  {
    assert a[0] in multiset(b);
    i :| 0 <= i < |b| && b[i] == a[0];
    assert multiset(a[1..]) == multiset(a) - multiset{a[0]} by {
      WithoutOne(a, 0);
      assert a[..0] + a[1..] == a[1..];
    }
    WithoutOne(b, i);
  }

  /** The total does not depend on the order of the children. */
  lemma {:induction false} RestReordered(qtys: seq<real>, a: seq<nat>, b: seq<nat>)
    requires multiset(a) == multiset(b)
    ensures Rest(qtys, a) == Rest(qtys, b)
  {
    if a == [] {
      assert |multiset(b)| == |b|;
    } else {
      var i := FirstElsewhere(a, b);
      RestReordered(qtys, a[1..], b[..i] + b[i + 1..]);
      RestSplit(qtys, b[..i], b[i], b[i + 1..]);
      assert b == b[..i] + [b[i]] + b[i + 1..];
    }
  }

  // ----- the walk over a cut

  ghost predicate JobOk(p: Parent, j: Job) {
    && j.k <= |p.order| && (if j.k < |p.order| then j.left > 0.0 else j.left == 0.0)
    && NoDuplicates(j.children) && (forall i | 0 <= i < |j.children| :: j.children[i] < |p.order|)
    && (if j.children == [] then j.wanted == 0.0 else j.wanted > 0.0)
  }

  /** What is still to be delivered from settlement `k` on, and what the children still want. */
  function Undelivered(p: Parent, k: nat, left: real): real
    requires ParentOk(p)
  {
    left + Rest(WholeQtys(p), Upward(k + 1, |p.order|))
  }

  function Unfilled(p: Parent, children: seq<nat>, wanted: real): real
    requires ParentOk(p)
  {
    wanted + Rest(WholeQtys(p), if children == [] then [] else children[1..])
  }

  ghost predicate Balanced(p: Parent, j: Job)
    requires ParentOk(p)
  {
    Undelivered(p, j.k, j.left) == Unfilled(p, j.children, j.wanted)
  }

  /** The validator's state agrees with the cut: it is about to meet the first child, or in
      the middle of it. */
  ghost predicate InStep(p: Parent, t: Choice, w: Walk, j: Job)
    requires ParentOk(p)
  {
    && w.cursor == j.k && w.left == j.left
    && (forall i | 1 <= i < |j.children| :: j.children[i] !in w.used)
    && (w.last.Some? ==> w.last.value in w.used)
    && (Meeting(p, w, j) || Filling(t, w, j))
  }

  ghost predicate Meeting(p: Parent, w: Walk, j: Job)
    requires ParentOk(p)
  {
    w.wanted == 0.0 && (j.children != [] ==> j.children[0] !in w.used && j.wanted == ChildQty(p, j.children[0]))
  }

  ghost predicate Filling(t: Choice, w: Walk, j: Job) {
    && j.children != [] && w.last == Some(j.children[0]) && w.wanted == j.wanted
    && j.children[0] in t.fees && j.children[0] in w.used && w.used[j.children[0]] == t.fees[j.children[0]]
  }

  /** What accepting the next slice does to the validator's state. */
  ghost predicate Steps(p: Parent, t: Choice, w: Walk, j: Job, w': Walk)
    requires ParentOk(p) && FeesMatch(p, t) && !Done(p, j)
  {
    && w'.cursor == After(p, j).k && w'.left == After(p, j).left && w'.wanted == j.wanted - RealMin(j.left, j.wanted)
    && w'.last == Some(j.children[0]) && w'.used == w.used[j.children[0] := t.fees[j.children[0]]]
  }

  lemma {:induction false} SliceSteps(p: Parent, t: Choice, w: Walk, j: Job) returns (w': Walk)
    requires ParentOk(p) && p.recut && p.tolerance == 0.0 && FeesMatch(p, t)
    requires JobOk(p, j) && InStep(p, t, w, j) && !Done(p, j)
    ensures var r := SliceOf(p, t, j.k, j.children[0], RealMin(j.left, j.wanted));
            RecordOk(r) && Row(p, w, r) == Going(w')
    ensures Steps(p, t, w, j, w')
  {
    var qty := RealMin(j.left, j.wanted);
    SliceIsAccepted(p, t, j.k, j.children[0], qty);
    w' := RowGoes(p, w, SliceOf(p, t, j.k, j.children[0], qty), j, qty);
  }

  /** A row of the open settlement for the child in turn, with the right amounts, is accepted. */
  lemma {:induction false} RowGoes(p: Parent, w: Walk, r: Slice, j: Job, qty: real) returns (w': Walk)
    requires ParentOk(p) && p.recut && p.tolerance == 0.0 && RecordOk(r) && JobOk(p, j) && !Done(p, j)
    requires r.child == j.children[0] && r.settlement == p.order[j.k] && r.transactionQty == ChildQty(p, r.child)
    requires r.trade.qty == Some(qty) && RecutAmounts(p, r, qty) == Accepted && qty == RealMin(j.left, j.wanted)
    requires w.cursor == j.k && w.left == j.left && (w.last.Some? ==> w.last.value in w.used)
    requires || (w.wanted == 0.0 && r.child !in w.used && j.wanted == ChildQty(p, r.child))
             || (w.last == Some(r.child) && w.wanted == j.wanted && r.child in w.used
                 && w.used[r.child] == r.transactionFee)
    ensures Row(p, w, r) == Going(w')
    ensures w'.cursor == After(p, j).k && w'.left == After(p, j).left && w'.wanted == j.wanted - qty
    ensures w'.last == Some(r.child) && w'.used == w.used[r.child := r.transactionFee]
  {
    assert Enter(p, w, r).Going?;
    w' := Row(p, w, r).walk;
  }

  lemma {:induction false} AfterIsOk(p: Parent, j: Job)
    requires ParentOk(p) && JobOk(p, j) && !Done(p, j)
    ensures JobOk(p, After(p, j))
  {
  }

  lemma {:induction false} AfterIsBalanced(p: Parent, j: Job)
    requires ParentOk(p) && JobOk(p, j) && !Done(p, j) && Balanced(p, j)
    ensures Balanced(p, After(p, j))
  {
    DeliveredAfter(p, j);
    FilledAfter(p, j);
  }

  lemma {:induction false} DeliveredAfter(p: Parent, j: Job)
    requires ParentOk(p) && !Done(p, j)
    ensures Undelivered(p, After(p, j).k, After(p, j).left) == Undelivered(p, j.k, j.left) - RealMin(j.left, j.wanted)
  {
    if j.left <= j.wanted { UpwardRest(p, j.k + 1); }
  }

  lemma {:induction false} FilledAfter(p: Parent, j: Job)
    requires ParentOk(p) && JobOk(p, j) && !Done(p, j)
    ensures Unfilled(p, After(p, j).children, After(p, j).wanted) ==
            Unfilled(p, j.children, j.wanted) - RealMin(j.left, j.wanted)
  {
    ChildrenRest(p, j.children[1..]);
  }

  lemma {:induction false} UpwardRest(p: Parent, k: nat)
    requires ParentOk(p)
    ensures Rest(WholeQtys(p), Upward(k, |p.order|)) == ChildQty(p, k) + Rest(WholeQtys(p), Upward(k + 1, |p.order|))
  {
    if k < |p.order| { assert Upward(k, |p.order|)[1..] == Upward(k + 1, |p.order|); }
  }

  lemma {:induction false} ChildrenRest(p: Parent, children: seq<nat>)
    requires ParentOk(p) && forall i | 0 <= i < |children| :: children[i] < |p.order|
    ensures children != [] ==>
              Rest(WholeQtys(p), children) == ChildQty(p, children[0]) + Rest(WholeQtys(p), children[1..])
  {
  }

  lemma {:induction false} AfterIsInStep(p: Parent, t: Choice, w: Walk, j: Job, w': Walk)
    requires ParentOk(p) && FeesMatch(p, t) && JobOk(p, j) && !Done(p, j)
    requires InStep(p, t, w, j) && Steps(p, t, w, j, w')
    ensures InStep(p, t, w', After(p, j))
  {
    if j.wanted <= j.left {
      assert Meeting(p, w', After(p, j));
    } else {
      assert Filling(t, w', After(p, j));
    }
  }

  lemma {:induction false} RestIsPositive(qtys: seq<real>, children: seq<nat>)
    requires forall i | 0 <= i < |qtys| :: qtys[i] > 0.0
    requires forall i | 0 <= i < |children| :: children[i] < |qtys|
    ensures Rest(qtys, children) >= 0.0 && (children != [] ==> Rest(qtys, children) > 0.0)
  {
    if children != [] { RestIsPositive(qtys, children[1..]); }
  }

  lemma {:induction false} UpwardIsBelow(k: nat, n: nat)
    ensures forall i | 0 <= i < |Upward(k, n)| :: Upward(k, n)[i] < n
    decreases n - k
  {
    if k < n { UpwardIsBelow(k + 1, n); }
  }

  /** Settlements and children run out together, since their totals agree. */
  lemma {:induction false} NothingLeft(p: Parent, t: Choice, w: Walk, j: Job)
    requires ParentOk(p) && JobOk(p, j) && Balanced(p, j) && InStep(p, t, w, j) && Done(p, j)
    ensures w.wanted == 0.0 && w.cursor == |p.order|
  {
    UpwardIsBelow(j.k + 1, |p.order|);
    RestIsPositive(WholeQtys(p), Upward(j.k + 1, |p.order|));
    if j.children != [] { RestIsPositive(WholeQtys(p), j.children[1..]); }
  }

  ghost predicate WalksThrough(p: Parent, w: Walk, rows: seq<Slice>)
    requires ParentOk(p)
  {
    && RecordsOk(rows) && RowsFrom(p, w, rows).Going?
    && RowsFrom(p, w, rows).walk.wanted == 0.0 && RowsFrom(p, w, rows).walk.cursor == |p.order|
  }

  lemma {:induction false} WalksOneMore(p: Parent, w: Walk, r: Slice, w': Walk, rest: seq<Slice>)
    requires ParentOk(p) && RecordOk(r) && Row(p, w, r) == Going(w') && WalksThrough(p, w', rest)
    ensures WalksThrough(p, w, [r] + rest)
  {
    assert ([r] + rest)[1..] == rest;
  }

  lemma {:induction false} CutWalksThrough(p: Parent, t: Choice, w: Walk, j: Job)
    requires ParentOk(p) && p.recut && p.tolerance == 0.0 && FeesMatch(p, t)
    requires JobOk(p, j) && Balanced(p, j) && InStep(p, t, w, j)
    ensures WalksThrough(p, w, Cut(p, t, j))
    decreases |p.order| - j.k + |j.children|
  {
    if Done(p, j) {
      NothingLeft(p, t, w, j);
    } else {
      var w' := SliceSteps(p, t, w, j);
      AfterIsOk(p, j);
      AfterIsBalanced(p, j);
      AfterIsInStep(p, t, w, j, w');
      CutWalksThrough(p, t, w', After(p, j));
      WalksOneMore(p, w, SliceOf(p, t, j.k, j.children[0], RealMin(j.left, j.wanted)), w', Cut(p, t, After(p, j)));
    }
  }

  /** The cut of all settlements, its children filled in the given order. */
  function WholeCut(p: Parent, t: Choice, children: seq<nat>): seq<Slice>
    requires ParentOk(p) && FeesMatch(p, t)
  {
    Cut(p, t, Job(0, ChildQty(p, 0), children, if children == [] then 0.0 else ChildQty(p, children[0])))
  }

  /** In exact arithmetic the validator accepts every recut, whatever order its children are
      filled in and whatever the operands, fees and prices are. */
  lemma {:induction false} EveryRecutIsAccepted(p: Parent, t: Choice, children: seq<nat>)
    requires ParentOk(p) && p.recut && p.tolerance == 0.0 && FeesMatch(p, t)
    requires NoDuplicates(children) && multiset(children) == multiset(Upward(0, |p.order|))
    ensures RecordsOk(WholeCut(p, t, children)) && Check(p, WholeCut(p, t, children)) == Accepted
  {
    var j := Job(0, ChildQty(p, 0), children, if children == [] then 0.0 else ChildQty(p, children[0]));
    ChildrenBelow(children, |p.order|);
    JobStarts(p, j);
    CutWalksThrough(p, t, Start(p), j);
    RowsFromStart(p, WholeCut(p, t, children));
  }

  lemma {:induction false} ChildrenBelow(children: seq<nat>, n: nat)
    requires multiset(children) == multiset(Upward(0, n))
    ensures (forall i | 0 <= i < |children| :: children[i] < n) && (children == [] <==> n == 0)
  {
    UpwardIsBelow(0, n);
    forall i | 0 <= i < |children| ensures children[i] < n {
      assert children[i] in multiset(Upward(0, n));
    }
    assert |multiset(children)| == |children| && |multiset(Upward(0, n))| == |Upward(0, n)|;
  }

  lemma {:induction false} JobStarts(p: Parent, j: Job)
    requires ParentOk(p) && j.k == 0 && j.left == ChildQty(p, 0)
    requires j.wanted == if j.children == [] then 0.0 else ChildQty(p, j.children[0])
    requires multiset(j.children) == multiset(Upward(0, |p.order|))
    requires (forall i | 0 <= i < |j.children| :: j.children[i] < |p.order|) && (j.children == [] <==> |p.order| == 0)
    ensures Balanced(p, j)
  {
    var n, qtys := |p.order|, WholeQtys(p);
    RestReordered(qtys, j.children, Upward(0, n));
    if n > 0 {
      assert Upward(0, n)[1..] == Upward(1, n);
      assert Rest(qtys, j.children) == ChildQty(p, j.children[0]) + Rest(qtys, j.children[1..]);
    }
  }

  // ----- uncut parents

  /** An accepted row of an uncut parent names the settlement of a child not met before and
      shows that settlement unchanged. */
  ghost predicate Unchanged(p: Parent, r: Slice)
    requires ParentOk(p)
  {
    && r.child < |p.order| && p.order[r.child] == r.settlement
    && r.trade.qty == Some(r.whole.qty) && r.trade.pnl == Some(r.whole.pnl)
    && r.trade.commission == Some(r.whole.commission)
    && r.trade.maxRunup == Some(r.whole.maxRunup) && r.trade.maxDrawdown == Some(r.whole.maxDrawdown)
  }

  lemma {:induction false} UncutRow(p: Parent, w: Walk, r: Slice)
    requires ParentOk(p) && !p.recut && RecordOk(r) && Row(p, w, r).Going?
    requires w.last.Some? ==> w.last.value in w.used
    ensures Unchanged(p, r) && r.child !in w.used
    ensures Row(p, w, r).walk.used.Keys == w.used.Keys + {r.child} && Row(p, w, r).walk.last == Some(r.child)
    ensures Row(p, w, r).walk.wanted == 0.0
  {
  }

  lemma {:induction false} UncutRows(p: Parent, rows: seq<Slice>)
    requires ParentOk(p) && !p.recut && RecordsOk(rows) && Rows(p, rows).Going?
    ensures var w := Rows(p, rows).walk;
            && (w.last.Some? ==> w.last.value in w.used)
            && (forall i | 0 <= i < |rows| :: rows[i].child in w.used && Unchanged(p, rows[i]))
            && w.wanted == 0.0
    ensures forall i, j | 0 <= i < j < |rows| :: rows[i].child != rows[j].child
  {
    if rows != [] {
      var n := |rows| - 1;
      UncutRows(p, rows[..n]);
      UncutRow(p, Rows(p, rows[..n]).walk, rows[n]);
      assert forall i | 0 <= i < n :: rows[..n][i] == rows[i];
    }
  }

  /** The rows of an accepted uncut parent are in bijection with its settlements, each shown
      unchanged. */
  lemma {:induction false} UncutIsBijection(p: Parent, rows: seq<Slice>)
    requires ParentOk(p) && !p.recut && RecordsOk(rows) && Check(p, rows) == Accepted
    requires forall s | s in p.order :: exists i :: 0 <= i < |rows| && rows[i].settlement == s
    ensures forall i | 0 <= i < |rows| :: Unchanged(p, rows[i])
    ensures forall i, j | 0 <= i < j < |rows| :: rows[i].settlement != rows[j].settlement
    ensures forall s :: s in p.order <==> exists i :: 0 <= i < |rows| && rows[i].settlement == s
  {
    StopsAreRefusals(p, rows);
    UncutRows(p, rows);
    forall i, j | 0 <= i < j < |rows| ensures rows[i].settlement != rows[j].settlement {
      assert Unchanged(p, rows[i]) && Unchanged(p, rows[j]);
    }
    forall i | 0 <= i < |rows| ensures rows[i].settlement in p.order {
      assert Unchanged(p, rows[i]);
    }
  }
}
