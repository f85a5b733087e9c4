/** The bound companion: replay rows joined with the primary report, and what must agree
    before a replay claim is accepted. Null doubles are None; money is exact. */
module ReplayBound {
  import opened KeyedSums
  import opened Numbering
  import opened Options
  import opened ReplaySlices

  /** A row of the companion's R stream that presents part of a parent. */
  datatype Mark = Mark(parent: nat, index: nat, count: nat, recut: bool, child: nat, transactionQty: real,
                       transactionFee: Option<real>, whole: Whole)

  datatype ReplayRow = ReplayRow(n: int, settlement: Option<nat>, mark: Option<Mark>)

  datatype TradeRow = TradeRow(n: int, openAtEnd: bool, trade: Trade)

  datatype Basis = KernelOpen | RangeEnd | TerminalQuote | Anchor

  datatype ReplayPoint = ReplayPoint(index: int, time: int, basis: Basis, count: nat, net: real, term: real)

  datatype EquityRow = EquityRow(time: int, equity: Option<real>)

  datatype Scalars = Scalars(capital: real, pointvalue: real, net: real)

  /** What the settlement pass remembers of a settlement: its operands, and its parent when
      it is marked. */
  datatype Original = Original(whole: Whole, parent: Option<nat>)

  type Originals = map<nat, Original>

  /** Record validation has already refused these rows. */
  predicate RowValid(r: ReplayRow) {
    r.mark.Some? ==>
      var m := r.mark.value;
      && r.settlement.Some? && m.count >= 1 && m.transactionQty > 0.0 && m.whole.qty > 0.0
      && (m.whole.exitFee.None? <==> m.transactionFee.None?)
  }

  /** The five operands of a settlement: those of the mark, or the trade's own. */
  function Operands(r: ReplayRow, t: Trade): Option<Whole> {
    if r.mark.Some? then Some(r.mark.value.whole)
    else if t.qty.Some? && t.pnl.Some? && t.commission.Some? && t.maxRunup.Some? && t.maxDrawdown.Some?
      then Some(Whole(t.qty.value, t.pnl.value, t.commission.value, t.maxRunup.value, t.maxDrawdown.value, None))
    else None
  }

  predicate Covers(i: nat, r: ReplayRow, t: TradeRow) {
    && r.n == i + 1 && t.n == r.n && (r.settlement.None? <==> t.openAtEnd)
    && (t.openAtEnd ==> r.mark.None?)
  }

  function ParentId(r: ReplayRow): Option<nat> { if r.mark.Some? then Some(r.mark.value.parent) else None }

  /** One turn of the settlement pass. */
  function Join(os: Originals, i: nat, r: ReplayRow, t: TradeRow): Option<Originals> {
    if !Covers(i, r, t) then None
    else if r.settlement.None? then Some(os)
    else
      var sid, whole := r.settlement.value, Operands(r, t.trade);
      if whole.None? then None
      else if sid !in os then Some(os[sid := Original(whole.value, ParentId(r))])
      else if os[sid].whole != whole.value || r.mark.None? || os[sid].parent != ParentId(r) then None
      else Some(os)
  }

  function JoinAll(rs: seq<ReplayRow>, ts: seq<TradeRow>): Option<Originals>
    requires |rs| == |ts|
  {
    if rs == [] then Some(map[])
    else
      var n := |rs| - 1;
      var os := JoinAll(rs[..n], ts[..n]);
      if os.None? then None else Join(os.value, n, rs[n], ts[n])
  }

  /** The pass accepts exactly when every row covers its trade with operands present, and two
      rows share a settlement only as slices of one parent with the same operands. */
  ghost predicate Joined(rs: seq<ReplayRow>, ts: seq<TradeRow>)
    requires |rs| == |ts|
  {
    && (forall i | 0 <= i < |rs| ::
          Covers(i, rs[i], ts[i]) && (rs[i].settlement.Some? ==> Operands(rs[i], ts[i].trade).Some?))
    && (forall i, j | 0 <= i < j < |rs| :: Compatible(rs[i], ts[i], rs[j], ts[j]))
  }

  ghost predicate Compatible(r: ReplayRow, t: TradeRow, r': ReplayRow, t': TradeRow) {
    r.settlement.Some? && r'.settlement == r.settlement ==>
      r.mark.Some? && r'.mark.Some? && ParentId(r) == ParentId(r') && Operands(r, t.trade) == Operands(r', t'.trade)
  }

  /** Every settlement comes from some row, and every row agrees with it. */
  ghost predicate Describes(os: Originals, rs: seq<ReplayRow>, ts: seq<TradeRow>)
    requires |rs| == |ts|
  {
    (forall i | 0 <= i < |rs| :: Described(os, rs[i], ts[i])) && (forall s | s in os :: Arises(rs, s))
  }

  ghost predicate Described(os: Originals, r: ReplayRow, t: TradeRow) {
    r.settlement.Some? ==>
      && r.settlement.value in os && Some(os[r.settlement.value].whole) == Operands(r, t.trade)
      && os[r.settlement.value].parent == ParentId(r)
  }

  ghost predicate Arises(rs: seq<ReplayRow>, s: nat) { exists i :: 0 <= i < |rs| && rs[i].settlement == Some(s) }

  lemma {:induction false} JoinIsExact(rs: seq<ReplayRow>, ts: seq<TradeRow>)
    requires |rs| == |ts|
    ensures JoinAll(rs, ts).Some? <==> Joined(rs, ts)
    ensures JoinAll(rs, ts).Some? ==> Describes(JoinAll(rs, ts).value, rs, ts)
  {
    if rs != [] {
      var n := |rs| - 1;
      JoinIsExact(rs[..n], ts[..n]);
      if JoinAll(rs[..n], ts[..n]).Some? {
        JoinStep(JoinAll(rs[..n], ts[..n]).value, rs, ts);
      } else {
        assert !Joined(rs[..n], ts[..n]);
        if Joined(rs, ts) { assert Joined(rs[..n], ts[..n]); }
      }
    }
  }

  lemma {:induction false} JoinStep(os: Originals, rs: seq<ReplayRow>, ts: seq<TradeRow>)
    requires |rs| == |ts| && rs != []
    requires var n := |rs| - 1; Joined(rs[..n], ts[..n]) && Describes(os, rs[..n], ts[..n])
    ensures var n := |rs| - 1; Join(os, n, rs[n], ts[n]).Some? <==> Joined(rs, ts)
    ensures var n := |rs| - 1;
            Join(os, n, rs[n], ts[n]).Some? ==> Describes(Join(os, n, rs[n], ts[n]).value, rs, ts)
  {
    var n := |rs| - 1;
    if Joined(rs, ts) { JoinedTakes(os, rs, ts); }
    if Join(os, n, rs[n], ts[n]).Some? {
      TakenJoins(os, rs, ts);
      TakenDescribes(os, rs, ts);
    }
  }

  /** A row that fits all the others is taken. */
  lemma {:induction false} JoinedTakes(os: Originals, rs: seq<ReplayRow>, ts: seq<TradeRow>)
    requires |rs| == |ts| && rs != [] && Joined(rs, ts)
    requires var n := |rs| - 1; Describes(os, rs[..n], ts[..n])
    ensures var n := |rs| - 1; Join(os, n, rs[n], ts[n]).Some?
  {
    var n := |rs| - 1;
    var before, r := rs[..n], rs[n];
    assert Covers(n, rs[n], ts[n]);
    if r.settlement.Some? && r.settlement.value in os {
      assert Arises(before, r.settlement.value);
      var i :| 0 <= i < |before| && before[i].settlement == Some(r.settlement.value);
      assert before[i] == rs[i] && ts[..n][i] == ts[i];
      assert Described(os, before[i], ts[..n][i]) && Compatible(rs[i], ts[i], rs[n], ts[n]);
    }
  }

  /** A row that is taken fits each of the others. */
  lemma {:induction false} TakenFits(os: Originals, rs: seq<ReplayRow>, ts: seq<TradeRow>, i: nat)
    requires |rs| == |ts| && i < |rs| - 1
    requires var n := |rs| - 1; Describes(os, rs[..n], ts[..n]) && Join(os, n, rs[n], ts[n]).Some?
    ensures Compatible(rs[i], ts[i], rs[|rs| - 1], ts[|rs| - 1])
  {
    var n := |rs| - 1;
    assert rs[..n][i] == rs[i] && ts[..n][i] == ts[i];
    assert Described(os, rs[..n][i], ts[..n][i]);
  }

  lemma {:induction false} TakenJoins(os: Originals, rs: seq<ReplayRow>, ts: seq<TradeRow>)
    requires |rs| == |ts| && rs != []
    requires var n := |rs| - 1;
             Joined(rs[..n], ts[..n]) && Describes(os, rs[..n], ts[..n]) && Join(os, n, rs[n], ts[n]).Some?
    ensures Joined(rs, ts)
  {
    var n := |rs| - 1;
    var before, trades := rs[..n], ts[..n];
    forall i | 0 <= i < n ensures before[i] == rs[i] && trades[i] == ts[i] {}
    forall i, j | 0 <= i < j < |rs| ensures Compatible(rs[i], ts[i], rs[j], ts[j]) {
      if j < n { assert Compatible(before[i], trades[i], before[j], trades[j]); } else { TakenFits(os, rs, ts, i); }
    }
  }

  lemma {:induction false} TakenDescribes(os: Originals, rs: seq<ReplayRow>, ts: seq<TradeRow>)
    requires |rs| == |ts| && rs != []
    requires var n := |rs| - 1; Describes(os, rs[..n], ts[..n]) && Join(os, n, rs[n], ts[n]).Some?
    ensures var n := |rs| - 1; Describes(Join(os, n, rs[n], ts[n]).value, rs, ts)
  {
    var n := |rs| - 1;
    forall i | 0 <= i < n ensures rs[..n][i] == rs[i] && ts[..n][i] == ts[i] {}
    var more := Join(os, n, rs[n], ts[n]).value;
    forall s | s in more ensures Arises(rs, s) {
      if s in os {
        assert Arises(rs[..n], s);
        var i :| 0 <= i < n && rs[..n][i].settlement == Some(s);
        assert rs[i].settlement == Some(s);
      } else {
        assert rs[n].settlement == Some(s);
      }
    }
    forall i | 0 <= i < |rs| ensures Described(more, rs[i], ts[i]) {
      if i < n { assert Described(os, rs[..n][i], ts[..n][i]); }
    }
  }

  // ----- parents

  datatype Marked = Marked(index: nat, count: nat, recut: bool, slice: Slice)

  predicate MarkedWith(r: ReplayRow, parent: nat) { r.mark.Some? && r.mark.value.parent == parent }

  function MarkedRow(r: ReplayRow, t: TradeRow): Marked
    requires r.mark.Some?
  {
    var m := r.mark.value;
    Marked(m.index, m.count, m.recut,
           Slice(if r.settlement.Some? then r.settlement.value else 0, m.child, m.transactionQty, m.transactionFee,
                 m.whole, t.trade))
  }

  /** The rows of one parent, in the order they were read. */
  function RowsOf(rs: seq<ReplayRow>, ts: seq<TradeRow>, parent: nat): seq<Marked>
    requires |rs| == |ts|
  {
    if rs == [] then []
    else var n := |rs| - 1;
         RowsOf(rs[..n], ts[..n], parent) + (if MarkedWith(rs[n], parent) then [MarkedRow(rs[n], ts[n])] else [])
  }

  function Smallest(xs: seq<nat>): (m: nat)
    requires xs != []
    ensures m in xs && forall i | 0 <= i < |xs| :: m <= xs[i]
  {
    if |xs| == 1 then xs[0]
    else var m := Smallest(xs[1..]); if xs[0] <= m then xs[0] else m
  }

  function Largest(xs: seq<nat>): (m: nat)
    requires xs != []
    ensures m in xs && forall i | 0 <= i < |xs| :: xs[i] <= m
  {
    if |xs| == 1 then xs[0]
    else var m := Largest(xs[1..]); if xs[0] >= m then xs[0] else m
  }

  function IndexList(ms: seq<Marked>): seq<nat> { seq(|ms|, i requires 0 <= i < |ms| => ms[i].index) }

  function CountList(ms: seq<Marked>): seq<nat> { seq(|ms|, i requires 0 <= i < |ms| => ms[i].count) }

  /** The aggregates of the grouped query. */
  predicate GroupOk(ms: seq<Marked>)
    requires ms != []
  {
    && Smallest(IndexList(ms)) == 0 && Largest(IndexList(ms)) == |ms| - 1 && |Elements(IndexList(ms))| == |ms|
    && Smallest(CountList(ms)) == |ms| && Largest(CountList(ms)) == |ms|
    && forall i | 0 <= i < |ms| :: ms[i].recut == ms[0].recut
  }

  /** What they stand for: the slices of a parent are numbered 0, 1, 2, ... once each, all
      give their true count, and all or none are recut. */
  ghost predicate Numbered(ms: seq<Marked>)
    requires ms != []
  {
    && IsNumbering(IndexList(ms))
    && forall i | 0 <= i < |ms| :: ms[i].count == |ms| && ms[i].recut == ms[0].recut
  }

  lemma {:induction false} GroupIsNumbered(ms: seq<Marked>)
    requires ms != []
    ensures GroupOk(ms) <==> Numbered(ms)
  {
    var xs, cs := IndexList(ms), CountList(ms);
    CountDistinct(xs);
    if GroupOk(ms) {
      forall i | 0 <= i < |ms| ensures ms[i].count == |ms| { assert cs[i] == ms[i].count; }
    }
    if Numbered(ms) {
      NumberingIsOnto(xs, 0);
      NumberingIsOnto(xs, |xs| - 1);
      forall x | x in cs ensures x == |ms| {}
    }
  }

  /** The slice with a given number. */
  function Numberth(ms: seq<Marked>, k: nat): Slice
    requires ms != []
  {
    if |ms| == 1 || ms[|ms| - 1].index == k then ms[|ms| - 1].slice else Numberth(ms[..|ms| - 1], k)
  }

  function InOrder(ms: seq<Marked>): seq<Slice>
    requires ms != []
  {
    seq(|ms|, k requires 0 <= k < |ms| => Numberth(ms, k))
  }

  lemma {:induction false} NumberthIs(ms: seq<Marked>, i: nat)
    requires i < |ms| && NoDuplicates(IndexList(ms))
    ensures Numberth(ms, ms[i].index) == ms[i].slice
  {
    var n, xs := |ms| - 1, IndexList(ms);
    if i < n {
      assert xs[i] == ms[i].index && xs[n] == ms[n].index;
      assert IndexList(ms[..n]) == xs[..n];
      NumberthIs(ms[..n], i);
    }
  }

  function Parents(rs: seq<ReplayRow>): set<nat> {
    set i | 0 <= i < |rs| && rs[i].mark.Some? :: rs[i].mark.value.parent
  }

  /** A slice repeats the operands of its settlement, which belongs to this parent. */
  ghost predicate Agrees(os: Originals, parent: nat, s: Slice) {
    RecordOk(s) && s.settlement in os && os[s.settlement] == Original(s.whole, Some(parent))
  }

  ghost predicate RowsValid(rs: seq<ReplayRow>) { forall i | 0 <= i < |rs| :: RowValid(rs[i]) }

  lemma {:induction false} RowsOfAgree(os: Originals, rs: seq<ReplayRow>, ts: seq<TradeRow>, parent: nat,
                                       all: seq<ReplayRow>, trades: seq<TradeRow>)
    requires |rs| == |ts| && |all| == |trades| && rs <= all && ts <= trades && RowsValid(rs)
        && Describes(os, all, trades)
    ensures forall i | 0 <= i < |RowsOf(rs, ts, parent)| :: Agrees(os, parent, RowsOf(rs, ts, parent)[i].slice)
    ensures RowsOf(rs, ts, parent) != [] <==> parent in Parents(rs)
  {
    if rs != [] {
      var n := |rs| - 1;
      RowsOfAgree(os, rs[..n], ts[..n], parent, all, trades);
      assert all[n] == rs[n] && trades[n] == ts[n];
      assert Parents(rs) == Parents(rs[..n]) + (if rs[n].mark.Some? then {rs[n].mark.value.parent} else {});
    }
  }

  lemma {:induction false} NumberthFrom(ms: seq<Marked>, k: nat) returns (i: nat)
    requires ms != []
    ensures i < |ms| && Numberth(ms, k) == ms[i].slice
  {
    if |ms| == 1 || ms[|ms| - 1].index == k { i := |ms| - 1; } else { i := NumberthFrom(ms[..|ms| - 1], k); }
  }

  lemma {:induction false} InOrderAgrees(os: Originals, parent: nat, ms: seq<Marked>)
    requires ms != [] && forall i | 0 <= i < |ms| :: Agrees(os, parent, ms[i].slice)
    ensures RecordsOk(InOrder(ms)) && Consistent(InOrder(ms))
    ensures forall k | 0 <= k < |ms| :: Agrees(os, parent, InOrder(ms)[k])
  {
    forall k | 0 <= k < |ms| ensures Agrees(os, parent, InOrder(ms)[k]) {
      var i := NumberthFrom(ms, k);
      assert Agrees(os, parent, ms[i].slice);
    }
  }

  /** The verdict on a parent's slices walked in order. */
  ghost function ParentVerdict(ms: seq<Marked>, pointvalue: real, tolerance: real): Verdict
    requires ms != []
  {
    var rows := InOrder(ms);
    if RecordsOk(rows) && Consistent(rows) && tolerance >= 0.0 then
      ParentOfOk(rows, ms[0].recut, pointvalue, tolerance);
      Check(ParentOf(rows, ms[0].recut, pointvalue, tolerance), rows)
    else ReplayMismatch
  }

  // ----- settlements and equity

  /** The ids are exactly 0, 1, ..., |os| - 1. */
  ghost predicate Dense(os: Originals) { forall s: nat :: s in os <==> s < |os| }

  /** The profit of the settlements below `k`. */
  function NetTo(os: Originals, k: nat): real {
    if k == 0 then 0.0 else NetTo(os, k - 1) + if k - 1 in os then os[k - 1].whole.pnl else 0.0
  }

  /** The running sums, from none to all of `nets`. */
  ghost predicate Sums(os: Originals, nets: seq<real>) {
    forall k {:trigger nets[k]} | 0 <= k < |nets| :: nets[k] == NetTo(os, k)
  }

  /** The equity a point must show, per its basis. */
  function Rebuilt(sc: Scalars, q: ReplayPoint): real {
    match q.basis
    case Anchor => sc.capital
    case TerminalQuote => sc.capital + q.term
    case _ => sc.capital + q.net + q.term
  }

  ghost predicate PointOk(os: Originals, sc: Scalars, i: nat, q: ReplayPoint, e: EquityRow)
    requires Dense(os)
  {
    && q.index == i && q.time == e.time && (q.basis == Anchor ==> i == 0)
    && (q.basis != Anchor ==> q.count <= |os| && q.net == NetTo(os, q.count))
    && e.equity == Some(Rebuilt(sc, q))
  }

  /** Everything a bound replay claim is accepted on. */
  ghost predicate BoundOk(sc: Scalars, rs: seq<ReplayRow>, ts: seq<TradeRow>, qs: seq<ReplayPoint>, es: seq<EquityRow>,
                          tolerance: real)
  {
    && |rs| == |ts| && |qs| == |es| && JoinAll(rs, ts).Some?
    && var os := JoinAll(rs, ts).value;
       && AllGrouped(rs, ts)
       && Dense(os) && sc.net == NetTo(os, |os|)
       && (forall i | 0 <= i < |qs| :: PointOk(os, sc, i, qs[i], es[i]))
       && AllPresented(rs, ts, sc.pointvalue, tolerance)
  }

  ghost predicate AllGrouped(rs: seq<ReplayRow>, ts: seq<TradeRow>)
    requires |rs| == |ts|
  {
    forall p | p in Parents(rs) :: GroupedOk(rs, ts, p)
  }

  ghost predicate AllPresented(rs: seq<ReplayRow>, ts: seq<TradeRow>, pointvalue: real, tolerance: real)
    requires |rs| == |ts|
  {
    forall p | p in Parents(rs) :: Presented(rs, ts, p, pointvalue, tolerance)
  }

  ghost predicate Presented(rs: seq<ReplayRow>, ts: seq<TradeRow>, p: nat, pointvalue: real, tolerance: real)
    requires |rs| == |ts|
  {
    RowsOf(rs, ts, p) != [] && ParentVerdict(RowsOf(rs, ts, p), pointvalue, tolerance) == Accepted
  }

  ghost predicate GroupedOk(rs: seq<ReplayRow>, ts: seq<TradeRow>, p: nat)
    requires |rs| == |ts|
  {
    RowsOf(rs, ts, p) != [] && GroupOk(RowsOf(rs, ts, p))
  }

  // ----- the validator

  datatype Reason =
    | Valid | RCoverageInvalid | QCoverageInvalid | OperandMismatch | ParentCoverage | SettlementCoverage | Mismatch
    | Uncaught

  /** Why one turn of the settlement pass refuses. */
  function RowReason(os: Originals, i: nat, r: ReplayRow, t: TradeRow): Reason {
    if !Covers(i, r, t) then RCoverageInvalid
    else if r.settlement.Some? && Operands(r, t.trade).None? then Mismatch
    else if Join(os, i, r, t).None? then OperandMismatch
    else Valid
  }

  /** The first such refusal. */
  function JoinReason(rs: seq<ReplayRow>, ts: seq<TradeRow>): Reason
    requires |rs| == |ts|
  {
    if rs == [] then Valid
    else
      var n := |rs| - 1;
      var os := JoinAll(rs[..n], ts[..n]);
      if os.None? then JoinReason(rs[..n], ts[..n]) else RowReason(os.value, n, rs[n], ts[n])
  }

  lemma {:induction false} JoinReasonStays(rs: seq<ReplayRow>, ts: seq<TradeRow>, n: nat)
    requires |rs| == |ts| && n <= |rs| && JoinAll(rs[..n], ts[..n]).None?
    ensures JoinAll(rs, ts).None? && JoinReason(rs, ts) == JoinReason(rs[..n], ts[..n])
  {
    if n < |rs| {
      assert rs[..|rs| - 1][..n] == rs[..n] && ts[..|ts| - 1][..n] == ts[..n];
      JoinReasonStays(rs[..|rs| - 1], ts[..|ts| - 1], n);
    } else {
      assert rs[..n] == rs && ts[..n] == ts;
    }
  }

  lemma {:induction false} JoinReasonIsExact(rs: seq<ReplayRow>, ts: seq<TradeRow>)
    requires |rs| == |ts|
    ensures JoinReason(rs, ts) == Valid <==> JoinAll(rs, ts).Some?
  {
    if rs != [] { JoinReasonIsExact(rs[..|rs| - 1], ts[..|ts| - 1]); }
  }

  method JoinRows(rs: seq<ReplayRow>, ts: seq<TradeRow>) returns (os: Originals, reason: Reason)
    requires |rs| == |ts|
    ensures JoinAll(rs, ts) == if reason == Valid then Some(os) else None
    ensures reason == JoinReason(rs, ts)
  {
    os, reason := map[], Valid;
    for i := 0 to |rs|
      invariant JoinAll(rs[..i], ts[..i]) == Some(os) && reason == Valid
      invariant JoinReason(rs[..i], ts[..i]) == Valid
    {
      var r, t := rs[i], ts[i];
      assert rs[..i + 1][..i] == rs[..i] && ts[..i + 1][..i] == ts[..i];
      if JoinAll(rs[..i + 1], ts[..i + 1]).None? { JoinReasonStays(rs, ts, i + 1); }
      if r.n != i + 1 || t.n != r.n || r.settlement.None? != t.openAtEnd || (t.openAtEnd && r.mark.Some?) {
        return os, RCoverageInvalid;
      }
      if r.settlement.Some? {
        var sid, whole := r.settlement.value, Operands(r, t.trade);
        if whole.None? { return os, Mismatch; }
        if sid !in os {
          os := os[sid := Original(whole.value, ParentId(r))];
        } else if os[sid].whole != whole.value || r.mark.None? || os[sid].parent != ParentId(r) {
          return os, OperandMismatch;
        }
      }
    }
    assert rs[..|rs|] == rs && ts[..|ts|] == ts;
  }

  method CheckGroups(rs: seq<ReplayRow>, ts: seq<TradeRow>, parents: set<nat>) returns (ok: bool)
    requires |rs| == |ts|
    ensures ok <==> forall p | p in parents :: GroupedOk(rs, ts, p)
  {
    var todo := parents;
    while todo != {}
      invariant todo <= parents && forall p | p in parents && p !in todo :: GroupedOk(rs, ts, p)
    {
      var p :| p in todo;
      var ms := RowsOf(rs, ts, p);
      if ms == [] || !GroupOk(ms) { return false; }
      todo := todo - {p};
    }
    ok := true;
  }

  function Over(keys: set<nat>, xs: seq<nat>): seq<nat> { Ascending(keys, if xs == [] then 0 else Largest(xs) + 1) }

  lemma {:induction false} OverIsAll(keys: set<nat>, xs: seq<nat>)
    requires forall k | k in keys :: k in xs
    ensures Increasing(Over(keys, xs)) && Elements(Over(keys, xs)) == keys && |Over(keys, xs)| == |keys|
  {
    AscendingSorts(keys, if xs == [] then 0 else Largest(xs) + 1);
    CountDistinct(Over(keys, xs));
  }

  /** Settlement ids of the rows, as listed. */
  function SettlementList(rs: seq<ReplayRow>): seq<nat> {
    if rs == [] then []
    else var n := |rs| - 1;
         SettlementList(rs[..n]) + (if rs[n].settlement.Some? then [rs[n].settlement.value] else [])
  }

  lemma {:induction false} SettlementListed(rs: seq<ReplayRow>, i: nat)
    requires i < |rs| && rs[i].settlement.Some?
    ensures rs[i].settlement.value in SettlementList(rs)
  {
    if i < |rs| - 1 { SettlementListed(rs[..|rs| - 1], i); }
  }

  /** The running net over settlements in ascending order; none if an id is missing. */
  method RunningNet(os: Originals, ids: seq<nat>) returns (nets: seq<real>, dense: bool)
    requires Increasing(ids) && Elements(ids) == os.Keys && |ids| == |os|
    ensures dense <==> Dense(os)
    ensures dense ==> |nets| == |os| + 1 && Sums(os, nets)
  {
    nets := [0.0];
    for i := 0 to |ids|
      invariant forall k | 0 <= k < i :: ids[k] == k
      invariant |nets| == i + 1 && Sums(os, nets)
    {
      if ids[i] != i {
        MissingBelow(ids, i);
        assert i !in Elements(ids);
        return nets, false;
      }
      assert i in Elements(ids);
      SumsMore(os, nets);
      nets := nets + [nets[i] + os[i].whole.pnl];
    }
    AllThere(os, ids);
    dense := true;
  }

  lemma {:induction false} SumsMore(os: Originals, nets: seq<real>)
    requires nets != [] && Sums(os, nets) && |nets| - 1 in os
    ensures Sums(os, nets + [nets[|nets| - 1] + os[|nets| - 1].whole.pnl])
  {
    var n := |nets| - 1;
    assert nets[n] == NetTo(os, n);
    assert NetTo(os, n + 1) == NetTo(os, n) + os[n].whole.pnl;
  }

  lemma {:induction false} AllThere(os: Originals, ids: seq<nat>)
    requires Elements(ids) == os.Keys && |ids| == |os| && forall k | 0 <= k < |ids| :: ids[k] == k
    ensures Dense(os)
  {
    forall s: nat ensures s in os <==> s < |os| {
      assert s in os <==> s in ids;
      if s < |os| { assert ids[s] == s; }
    }
  }

  lemma {:induction false} MissingBelow(ids: seq<nat>, i: nat)
    requires Increasing(ids) && i < |ids| && ids[i] != i && forall k | 0 <= k < i :: ids[k] == k
    ensures i !in ids
  {
    if i > 0 { assert ids[i - 1] < ids[i]; }
  }

  /** Why one equity point is refused. */
  ghost function PointReason(os: Originals, sc: Scalars, i: nat, q: ReplayPoint, e: EquityRow): (r: Reason)
    requires Dense(os)
    ensures r == Valid <==> PointOk(os, sc, i, q, e)
  {
    if q.index != i || q.time != e.time || (q.basis == Anchor && i != 0) then QCoverageInvalid
    else if PointOk(os, sc, i, q, e) then Valid
    else Mismatch
  }

  /** The first refusal from point `i` on. */
  ghost function PointsReason(os: Originals, sc: Scalars, qs: seq<ReplayPoint>, es: seq<EquityRow>, i: nat): (r: Reason)
    requires Dense(os) && |qs| == |es| && i <= |qs|
    ensures r == Valid <==> forall j | i <= j < |qs| :: PointOk(os, sc, j, qs[j], es[j])
    decreases |qs| - i
  {
    if i == |qs| then Valid
    else
      var first := PointReason(os, sc, i, qs[i], es[i]);
      if first == Valid then PointsReason(os, sc, qs, es, i + 1) else first
  }

  method CheckPoints(os: Originals, nets: seq<real>, sc: Scalars, qs: seq<ReplayPoint>, es: seq<EquityRow>)
    returns (reason: Reason)
    requires Dense(os) && |qs| == |es|
    requires |nets| == |os| + 1 && Sums(os, nets)
    ensures reason == PointsReason(os, sc, qs, es, 0)
  {
    for i := 0 to |qs|
      invariant PointsReason(os, sc, qs, es, 0) == PointsReason(os, sc, qs, es, i)
    {
      var q, e := qs[i], es[i];
      if q.index != i || q.time != e.time { return QCoverageInvalid; }
      var expected;
      if q.basis == Anchor {
        if i != 0 { return QCoverageInvalid; }
        expected := sc.capital;
      } else {
        if q.count >= |nets| || nets[q.count] != q.net { return Mismatch; }
        expected := if q.basis == TerminalQuote then sc.capital + q.term else sc.capital + q.net + q.term;
      }
      if e.equity != Some(expected) { return Mismatch; }
    }
    reason := Valid;
  }

  /** The slices of one parent, in their order, against the validator. */
  method CheckParent(os: Originals, rs: seq<ReplayRow>, ts: seq<TradeRow>, p: nat, pointvalue: real, tolerance: real)
    returns (v: Verdict)
    requires |rs| == |ts| && RowsValid(rs) && Describes(os, rs, ts) && tolerance >= 0.0 && RowsOf(rs, ts, p) != []
    ensures v == ParentVerdict(RowsOf(rs, ts, p), pointvalue, tolerance)
  {
    var ms := RowsOf(rs, ts, p);
    RowsOfAgree(os, rs, ts, p, rs, ts);
    InOrderAgrees(os, p, ms);
    var rows := InOrder(ms);
    ParentOfOk(rows, ms[0].recut, pointvalue, tolerance);
    v := ValidateParent(ParentOf(rows, ms[0].recut, pointvalue, tolerance), rows);
  }

  function SliceReason(v: Verdict): Reason {
    if v == Accepted then Valid
    else if v == Crashed then Uncaught
    else if v == ParentCoverageInvalid then ParentCoverage
    else Mismatch
  }

  /** The first refusal among the parents from position `i` of their order on. */
  ghost function SlicesReason(rs: seq<ReplayRow>, ts: seq<TradeRow>, order: seq<nat>, pointvalue: real, tolerance: real,
                              i: nat): (r: Reason)
    requires |rs| == |ts| && i <= |order| && forall p | p in order :: RowsOf(rs, ts, p) != []
    ensures r == Valid <==> forall j | i <= j < |order| :: Presented(rs, ts, order[j], pointvalue, tolerance)
    decreases |order| - i
  {
    if i == |order| then Valid
    else
      var first := SliceReason(ParentVerdict(RowsOf(rs, ts, order[i]), pointvalue, tolerance));
      if first == Valid then SlicesReason(rs, ts, order, pointvalue, tolerance, i + 1) else first
  }

  method CheckSlices(os: Originals, rs: seq<ReplayRow>, ts: seq<TradeRow>, order: seq<nat>, pointvalue: real,
                     tolerance: real)
    returns (reason: Reason)
    requires |rs| == |ts| && RowsValid(rs) && Describes(os, rs, ts) && tolerance >= 0.0
    requires forall p | p in order :: RowsOf(rs, ts, p) != []
    ensures reason == SlicesReason(rs, ts, order, pointvalue, tolerance, 0)
  {
    for i := 0 to |order|
      invariant SlicesReason(rs, ts, order, pointvalue, tolerance, 0)
             == SlicesReason(rs, ts, order, pointvalue, tolerance, i)
    {
      var v := CheckParent(os, rs, ts, order[i], pointvalue, tolerance);
      if v != Accepted { return SliceReason(v); }
    }
    reason := Valid;
  }

  /** The refusal of the whole validation: that of the first stage that refuses. */
  ghost function BoundReason(sc: Scalars, rs: seq<ReplayRow>, ts: seq<TradeRow>, qs: seq<ReplayPoint>,
                             es: seq<EquityRow>, tolerance: real, order: seq<nat>): Reason
    requires Elements(order) == Parents(rs)
  {
    if |rs| != |ts| then RCoverageInvalid
    else if |qs| != |es| then QCoverageInvalid
    else if JoinAll(rs, ts).None? then JoinReason(rs, ts)
    else
      var os := JoinAll(rs, ts).value;
      if !AllGrouped(rs, ts) then ParentCoverage
      else if !Dense(os) then SettlementCoverage
      else if NetTo(os, |os|) != sc.net then Mismatch
      else if PointsReason(os, sc, qs, es, 0) != Valid then PointsReason(os, sc, qs, es, 0)
      else
        assert forall p | p in order :: p in Elements(order) && GroupedOk(rs, ts, p);
        SlicesReason(rs, ts, order, sc.pointvalue, tolerance, 0)
  }

  /** Every parent is somewhere in the order. */
  lemma {:induction false} AllParents(rs: seq<ReplayRow>, ts: seq<TradeRow>, order: seq<nat>, pointvalue: real,
                                      tolerance: real)
    requires |rs| == |ts| && Elements(order) == Parents(rs) && forall p | p in order :: RowsOf(rs, ts, p) != []
    ensures (forall j | 0 <= j < |order| :: Presented(rs, ts, order[j], pointvalue, tolerance))
       <==> AllPresented(rs, ts, pointvalue, tolerance)
  {
    forall p | p in Parents(rs) ensures exists j :: 0 <= j < |order| && order[j] == p {
      assert p in Elements(order);
    }
    forall j | 0 <= j < |order| ensures order[j] in Parents(rs) {
      assert order[j] in Elements(order);
    }
  }

  /** No stage refuses exactly when the claim is one to accept. */
  lemma {:induction false} ReasonIsExact(sc: Scalars, rs: seq<ReplayRow>, ts: seq<TradeRow>, qs: seq<ReplayPoint>,
                                         es: seq<EquityRow>, tolerance: real, order: seq<nat>)
    requires Elements(order) == Parents(rs)
    ensures BoundReason(sc, rs, ts, qs, es, tolerance, order) == Valid <==> BoundOk(sc, rs, ts, qs, es, tolerance)
  {
    if |rs| == |ts| {
      JoinReasonIsExact(rs, ts);
      if AllGrouped(rs, ts) {
        forall p | p in order ensures RowsOf(rs, ts, p) != [] { assert p in Elements(order) && GroupedOk(rs, ts, p); }
        AllParents(rs, ts, order, sc.pointvalue, tolerance);
      }
    }
  }

  /** The whole validation, stage by stage; `order` lists the parents as the database sorts them. */
  method ValidateBound(sc: Scalars, rs: seq<ReplayRow>, ts: seq<TradeRow>, qs: seq<ReplayPoint>, es: seq<EquityRow>,
                       tolerance: real, order: seq<nat>) returns (reason: Reason)
    requires RowsValid(rs) && tolerance >= 0.0 && Elements(order) == Parents(rs)
    ensures reason == Valid <==> BoundOk(sc, rs, ts, qs, es, tolerance)
    ensures reason == BoundReason(sc, rs, ts, qs, es, tolerance, order)
  {
    ReasonIsExact(sc, rs, ts, qs, es, tolerance, order);
    if |rs| != |ts| { return RCoverageInvalid; }
    if |qs| != |es| { return QCoverageInvalid; }
    var os;
    os, reason := JoinRows(rs, ts);
    if reason != Valid { return; }
    JoinIsExact(rs, ts);
    var grouped := CheckGroups(rs, ts, Parents(rs));
    if !grouped { return ParentCoverage; }
    forall s | s in os ensures s in SettlementList(rs) {
      var i :| 0 <= i < |rs| && rs[i].settlement == Some(s);
      SettlementListed(rs, i);
    }
    OverIsAll(os.Keys, SettlementList(rs));
    var nets, dense := RunningNet(os, Over(os.Keys, SettlementList(rs)));
    if !dense { return SettlementCoverage; }
    if nets[|os|] != sc.net { return Mismatch; }
    reason := CheckPoints(os, nets, sc, qs, es);
    if reason != Valid { return; }
    assert forall p | p in order :: p in Parents(rs) && GroupedOk(rs, ts, p) by {
      forall p | p in order ensures p in Parents(rs) { assert p in Elements(order); }
    }
    reason := CheckSlices(os, rs, ts, order, sc.pointvalue, tolerance);
  }

  // ----- what acceptance means

  /** The whole settlement a row stands for: the mark's operands, or the trade's own fields. */
  ghost predicate StandsFor(r: ReplayRow, t: TradeRow, w: Whole) {
    match r.mark
    case Some(mark) => w == mark.whole
    case None =>
      && t.trade.qty == Some(w.qty) && t.trade.pnl == Some(w.pnl) && t.trade.commission == Some(w.commission)
      && t.trade.maxRunup == Some(w.maxRunup) && t.trade.maxDrawdown == Some(w.maxDrawdown) && w.exitFee.None?
  }

  /** One whole settlement per id from 0 up, each the one that every row with that id stands for, and
      each id on some row. */
  ghost predicate Settles(rs: seq<ReplayRow>, ts: seq<TradeRow>, wholes: seq<Whole>)
    requires |rs| == |ts|
  {
    && (forall i | 0 <= i < |rs| && rs[i].settlement.Some? ::
          rs[i].settlement.value < |wholes| && StandsFor(rs[i], ts[i], wholes[rs[i].settlement.value]))
    && (forall s: nat | s < |wholes| :: Arises(rs, s))
  }

  /** Two rows share a settlement only as marked rows of one parent that repeat one whole. */
  ghost predicate SharedProperly(rs: seq<ReplayRow>, i: nat, j: nat)
    requires i < j < |rs|
  {
    rs[i].settlement.Some? && rs[i].settlement == rs[j].settlement ==>
      && rs[i].mark.Some? && rs[j].mark.Some? && rs[i].mark.value.parent == rs[j].mark.value.parent
      && rs[i].mark.value.whole == rs[j].mark.value.whole
  }

  /** A row and its trade are both number `i + 1`, and only a closed trade settles. */
  ghost predicate CoversTrade(rs: seq<ReplayRow>, ts: seq<TradeRow>, i: nat)
    requires i < |rs| == |ts|
  {
    && rs[i].n == i + 1 == ts[i].n && (ts[i].openAtEnd ==> rs[i].settlement.None? && rs[i].mark.None?)
    && (!ts[i].openAtEnd ==> rs[i].settlement.Some?)
  }

  function WholeProfits(wholes: seq<Whole>): (xs: seq<real>)
    ensures |xs| == |wholes| && forall s | 0 <= s < |xs| :: xs[s] == wholes[s].pnl
  {
    seq(|wholes|, s requires 0 <= s < |wholes| => wholes[s].pnl)
  }

  lemma {:induction false} NetIsSum(os: Originals, wholes: seq<Whole>, k: nat)
    requires k <= |wholes| && forall s: nat | s < |wholes| :: s in os && os[s].whole == wholes[s]
    ensures NetTo(os, k) == Sum(WholeProfits(wholes)[..k])
  {
    if k > 0 {
      NetIsSum(os, wholes, k - 1);
      assert WholeProfits(wholes)[..k][..k - 1] == WholeProfits(wholes)[..k - 1];
    }
  }

  lemma {:induction false} WholesInOrder(os: Originals) returns (wholes: seq<Whole>)
    requires Dense(os)
    ensures |wholes| == |os| && forall s: nat | s < |os| :: s in os && os[s].whole == wholes[s]
  {
    wholes := seq(|os|, s requires 0 <= s < |os| => os[s].whole);
  }

  lemma {:induction false} DescribedStands(os: Originals, r: ReplayRow, t: TradeRow)
    requires Described(os, r, t) && r.settlement.Some?
    ensures r.settlement.value in os && StandsFor(r, t, os[r.settlement.value].whole)
  {
  }

  /** Accepted settlements: the ids are exactly 0, 1, ...; each belongs to one unmarked trade row, or to
      rows of one parent that repeat the same operands; and the final net is the sum of the
      profits the settlements show, each once. */
  lemma {:induction false} AcceptedSettlements(sc: Scalars, rs: seq<ReplayRow>, ts: seq<TradeRow>, qs: seq<ReplayPoint>,
                                               es: seq<EquityRow>, tolerance: real)
    returns (wholes: seq<Whole>)
    requires BoundOk(sc, rs, ts, qs, es, tolerance)
    ensures |rs| == |ts| && Settles(rs, ts, wholes) && sc.net == Sum(WholeProfits(wholes))
    ensures forall i, j | 0 <= i < j < |rs| :: SharedProperly(rs, i, j)
    ensures forall i | 0 <= i < |rs| :: CoversTrade(rs, ts, i)
    ensures JoinAll(rs, ts).Some? && |JoinAll(rs, ts).value| == |wholes|
    ensures forall s: nat | s < |wholes| ::
              s in JoinAll(rs, ts).value && JoinAll(rs, ts).value[s].whole == wholes[s]
  {
    JoinIsExact(rs, ts);
    var os := JoinAll(rs, ts).value;
    wholes := WholesInOrder(os);
    NetIsSum(os, wholes, |wholes|);
    assert WholeProfits(wholes)[..|wholes|] == WholeProfits(wholes);
    forall i | 0 <= i < |rs| && rs[i].settlement.Some?
      ensures rs[i].settlement.value < |wholes| && StandsFor(rs[i], ts[i], wholes[rs[i].settlement.value])
    {
      assert Described(os, rs[i], ts[i]);
      DescribedStands(os, rs[i], ts[i]);
    }
    forall i, j | 0 <= i < j < |rs| ensures SharedProperly(rs, i, j) {
      assert Compatible(rs[i], ts[i], rs[j], ts[j]);
    }
    forall i | 0 <= i < |rs| ensures CoversTrade(rs, ts, i) { assert Covers(i, rs[i], ts[i]); }
  }

  /** Accepted equity: each point is in its place and shows the capital, or the capital and its term,
      or the capital, the profits of exactly its first `count` settlements, and its term. */
  lemma {:induction false} AcceptedEquity(sc: Scalars, rs: seq<ReplayRow>, ts: seq<TradeRow>, qs: seq<ReplayPoint>,
                                          es: seq<EquityRow>, tolerance: real, i: nat)
    returns (wholes: seq<Whole>)
    requires BoundOk(sc, rs, ts, qs, es, tolerance) && i < |qs|
    ensures |rs| == |ts| && |qs| == |es| && Settles(rs, ts, wholes) && sc.net == Sum(WholeProfits(wholes))
    ensures qs[i].index == i && es[i].time == qs[i].time
    ensures match qs[i].basis
            case Anchor => i == 0 && es[i].equity == Some(sc.capital)
            case TerminalQuote => es[i].equity == Some(sc.capital + qs[i].term)
            case _ =>
              && qs[i].count <= |wholes|
              && es[i].equity == Some(sc.capital + Sum(WholeProfits(wholes)[..qs[i].count]) + qs[i].term)
    ensures qs[i].basis != Anchor ==>
              qs[i].count <= |wholes| && qs[i].net == Sum(WholeProfits(wholes)[..qs[i].count])
  {
    wholes := AcceptedSettlements(sc, rs, ts, qs, es, tolerance);
    var os := JoinAll(rs, ts).value;
    assert PointOk(os, sc, i, qs[i], es[i]);
    if qs[i].basis != Anchor { NetIsSum(os, wholes, qs[i].count); }
  }

  /** A parent's rows in slice order, and the parent they describe, after the slice checks. */
  ghost predicate WalkedInOrder(ms: seq<Marked>, tolerance: real, p: Parent, rows: seq<Slice>)
    requires ms != []
  {
    && |rows| == |ms| && (forall i | 0 <= i < |ms| :: ms[i].index < |rows| && rows[ms[i].index] == ms[i].slice)
    && p.recut == ms[0].recut && p.tolerance == tolerance
    && ParentOk(p) && AllBelong(p, rows) && RecordsOk(rows) && Check(p, rows) == Accepted
    && (forall s | s in p.order :: exists i :: 0 <= i < |rows| && rows[i].settlement == s)
  }

  lemma {:induction false} InOrderPlaces(ms: seq<Marked>)
    requires ms != [] && Numbered(ms)
    ensures forall i | 0 <= i < |ms| :: ms[i].index < |ms| && InOrder(ms)[ms[i].index] == ms[i].slice
  {
    forall i | 0 <= i < |ms| ensures ms[i].index < |ms| && InOrder(ms)[ms[i].index] == ms[i].slice {
      assert IndexList(ms)[i] == ms[i].index;
      NumberthIs(ms, i);
    }
  }

  lemma {:induction false} ParentAccepted(ms: seq<Marked>, pointvalue: real, tolerance: real)
    returns (p: Parent, rows: seq<Slice>)
    requires ms != [] && Numbered(ms) && tolerance >= 0.0
    requires RecordsOk(InOrder(ms)) && Consistent(InOrder(ms)) && ParentVerdict(ms, pointvalue, tolerance) == Accepted
    ensures WalkedInOrder(ms, tolerance, p, rows) && rows == InOrder(ms)
  {
    InOrderPlaces(ms);
    rows := InOrder(ms);
    ParentOfOk(rows, ms[0].recut, pointvalue, tolerance);
    p := ParentOf(rows, ms[0].recut, pointvalue, tolerance);
  }

  /** Accepted parents: the rows of each are numbered 0, 1, 2, ... once each, and walked in
      that order they pass the slice checks of `ReplaySlices`. */
  lemma {:induction false} AcceptedParents(sc: Scalars, rs: seq<ReplayRow>, ts: seq<TradeRow>, qs: seq<ReplayPoint>,
                                           es: seq<EquityRow>, tolerance: real, parent: nat)
    returns (p: Parent, rows: seq<Slice>)
    requires RowsValid(rs) && tolerance >= 0.0 && BoundOk(sc, rs, ts, qs, es, tolerance) && parent in Parents(rs)
    ensures |rs| == |ts| && RowsOf(rs, ts, parent) != [] && Numbered(RowsOf(rs, ts, parent))
    ensures WalkedInOrder(RowsOf(rs, ts, parent), tolerance, p, rows)
    ensures forall k | 0 <= k < |rows| :: Agrees(JoinAll(rs, ts).value, parent, rows[k])
  {
    JoinIsExact(rs, ts);
    var os, ms := JoinAll(rs, ts).value, RowsOf(rs, ts, parent);
    RowsOfAgree(os, rs, ts, parent, rs, ts);
    assert GroupedOk(rs, ts, parent) && Presented(rs, ts, parent, sc.pointvalue, tolerance);
    GroupIsNumbered(ms);
    InOrderAgrees(os, parent, ms);
    p, rows := ParentAccepted(ms, sc.pointvalue, tolerance);
  }
}
