/** One draw per quantile bin of a stratum (benchmarks/select_population.py). Keys are numbered
    in their order. */
module QuantileDraw {
  import opened Arithmetic
  import opened Bytes
  import opened Options

  type Key = int

  datatype Member = Member(trades: int, key: Key)

  /** A drawn member, its bin, and the keys that may replace it. */
  datatype Draw = Draw(pick: Member, bin: nat, queue: seq<Key>)

  // Bins

  function Cut(n: nat, k: nat, b: nat): nat
    requires k > 0
  {
    n * b / k
  }

  /** Cut b is the last place at or before the share b / k of the n places. */
  lemma {:induction false} CutIs(n: nat, k: nat, b: nat)
    requires k > 0
    ensures k * Cut(n, k, b) <= n * b < k * (Cut(n, k, b) + 1)
  {
    var x := n * b;
    assert x == k * (x / k) + x % k;
  }

  lemma {:induction false} QuotientStep(x: nat, n: nat, k: nat)
    requires k > 0
    ensures n / k <= (x + n) / k - x / k <= n / k + if n % k > 0 then 1 else 0
  {
    var a, s, q, r := x / k, x % k, n / k, n % k;
    assert x + n == k * (a + q) + (s + r);
    if s + r < k { Quotient(x + n, k, a + q, s + r); } else { Quotient(x + n, k, a + q + 1, s + r - k); }
  }

  /** The cuts run from 0 to n, and each bin holds the floor or the ceiling of n / k. */
  lemma {:induction false} CutFacts(n: nat, k: nat, b: nat)
    requires 1 <= k && b < k
    ensures Cut(n, k, 0) == 0 && Cut(n, k, k) == n
    ensures n / k <= Cut(n, k, b + 1) - Cut(n, k, b) <= n / k + if n % k > 0 then 1 else 0
    ensures k <= n ==> n / k >= 1
  {
    assert n * (b + 1) == n * b + n;
    QuotientStep(n * b, n, k);
    Quotient(n * k, k, n, 0);
    Quotient(0, k, 0, 0);
    if k <= n { Quotient(n, k, n / k, n % k); }
  }

  lemma {:induction false} CutsOrdered(n: nat, k: nat, b: nat)
    requires 1 <= k && b <= k
    ensures Cut(n, k, b) <= n
    decreases k - b
  {
    CutFacts(n, k, 0);
    if b < k {
      CutFacts(n, k, b);
      CutsOrdered(n, k, b + 1);
    }
  }

  // Order

  predicate AtMost(a: Member, b: Member) { a.trades < b.trades || (a.trades == b.trades && a.key <= b.key) }

  predicate Sorted(s: seq<Member>) { forall i, j | 0 <= i < j < |s| :: AtMost(s[i], s[j]) }

  lemma {:induction false} InsertedInOrder(s: seq<Member>, m: Member, i: nat)
    requires Sorted(s) && i <= |s| && (i > 0 ==> AtMost(s[i - 1], m)) && (i < |s| ==> AtMost(m, s[i]))
    ensures Sorted(s[..i] + [m] + s[i..])
  {
    var r := s[..i] + [m] + s[i..];
    forall a, b | 0 <= a < b < |r| ensures AtMost(r[a], r[b]) {
      assert forall x | 0 <= x < i :: AtMost(s[x], m) by {
        forall x | 0 <= x < i ensures AtMost(s[x], m) { if x < i - 1 { assert AtMost(s[x], s[i - 1]); } }
      }
      assert forall x | i <= x < |s| :: AtMost(m, s[x]) by {
        forall x | i <= x < |s| ensures AtMost(m, s[x]) { if x > i { assert AtMost(s[i], s[x]); } }
      }
    }
  }

  method Insert(s: seq<Member>, m: Member) returns (r: seq<Member>)
    requires Sorted(s)
    ensures Sorted(r) && multiset(r) == multiset(s) + multiset{m}
  {
    var i: nat := |s|;
    while i > 0 && !AtMost(s[i - 1], m)
      invariant i <= |s| && (i < |s| ==> AtMost(m, s[i]))
    {
      i := i - 1;
    }
    InsertedInOrder(s, m, i);
    InsertedOnce(s, m, i);
    r := s[..i] + [m] + s[i..];
  }

  lemma {:induction false} InsertedOnce<T>(s: seq<T>, m: T, i: nat)
    requires i <= |s|
    ensures multiset(s[..i] + [m] + s[i..]) == multiset(s) + multiset{m}
  {
    assert s == s[..i] + s[i..];
  }

  method SortMembers(members: seq<Member>) returns (r: seq<Member>)
    ensures Sorted(r) && multiset(r) == multiset(members) && |r| == |members|
  {
    r := [];
    for i := 0 to |members|
      invariant Sorted(r) && multiset(r) == multiset(members[..i])
    {
      r := Insert(r, members[i]);
      assert members[..i + 1] == members[..i] + [members[i]];
    }
    assert members[..|members|] == members;
    assert |multiset(r)| == |multiset(members)|;
  }

  /** Any reordering. */
  method Shuffle(s: seq<Member>) returns (r: seq<Member>)
    ensures multiset(r) == multiset(s) && |r| == |s|
  {
    r := s;
    var i := |s|;
    while i > 1
      invariant multiset(r) == multiset(s) && |r| == |s| && i <= |s|
    {
      i := i - 1;
      var j: int := *;
      if 0 <= j <= i { r := r[i := r[j]][j := r[i]]; }
    }
  }

  function Keys(s: seq<Member>): (r: seq<Key>)
    ensures |r| == |s| && forall i | 0 <= i < |r| :: r[i] == s[i].key
  {
    seq(|s|, i requires 0 <= i < |s| => s[i].key)
  }

  /** The draw of bin b: its members in some order, the first one picked. */
  ghost predicate FromBin(sorted: seq<Member>, k: nat, d: Draw, b: nat, order: seq<Member>)
    requires 1 <= k
  {
    && b < k && d.bin == b && order != [] && d.pick == order[0] && d.queue == Keys(order[1..])
    && Cut(|sorted|, k, b) <= Cut(|sorted|, k, b + 1) <= |sorted|
    && multiset(order) == multiset(sorted[Cut(|sorted|, k, b)..Cut(|sorted|, k, b + 1)])
  }

  /** Sort, cut into k bins, draw one of each. Fails exactly when there are fewer members than
      bins; otherwise every bin's members are its pick and its queue. */
  method DrawAll(members: seq<Member>, k: nat)
    returns (r: Option<seq<Draw>>, ghost sorted: seq<Member>, ghost orders: seq<seq<Member>>)
    requires k >= 1
    ensures r.None? <==> |members| < k
    ensures multiset(sorted) == multiset(members) && |sorted| == |members|
    ensures forall i, j | 0 <= i < j < |sorted| ::
              || sorted[i].trades < sorted[j].trades
              || (sorted[i].trades == sorted[j].trades && sorted[i].key <= sorted[j].key)
    ensures r.Some? ==>
              |r.value| == |orders| == k && forall b | 0 <= b < k :: FromBin(sorted, k, r.value[b], b, orders[b])
  {
    var s := SortMembers(members);
    sorted, orders := s, [];
    var out := [];
    for b := 0 to k
      invariant |out| == |orders| == b && (b > 0 ==> k <= |members|)
      invariant forall c | 0 <= c < b :: FromBin(s, k, out[c], c, orders[c])
    {
      CutFacts(|s|, k, b);
      CutsOrdered(|s|, k, b);
      CutsOrdered(|s|, k, b + 1);
      var lo, hi := Cut(|s|, k, b), Cut(|s|, k, b + 1);
      var order := Shuffle(s[lo..hi]);
      if order == [] {
        if k <= |members| { assert false; }
        return None, sorted, orders;
      }
      if b == 0 && |s| < k {
        Quotient(|s| * 1, k, 0, |s|);
        assert false;
      }
      out := out + [Draw(order[0], b, Keys(order[1..]))];
      orders := orders + [order];
    }
    r := Some(out);
  }

  /** A bin's pick and queue are as many as its floor or ceiling says, and there is at least the
      pick. */
  lemma {:induction false} BinSize(sorted: seq<Member>, k: nat, d: Draw, b: nat, order: seq<Member>)
    requires 1 <= k && FromBin(sorted, k, d, b, order)
    ensures |sorted| / k <= 1 + |d.queue| <= |sorted| / k + if |sorted| % k > 0 then 1 else 0
  {
    CutFacts(|sorted|, k, b);
    assert |multiset(order)| == |order|;
    assert |multiset(sorted[Cut(|sorted|, k, b)..Cut(|sorted|, k, b + 1)])| == Cut(|sorted|, k, b
        + 1) - Cut(|sorted|, k, b);
  }

  lemma {:induction false} OneBinMore(sorted: seq<Member>, lo: nat, hi: nat, orders: seq<seq<Member>>, b: nat)
    requires lo <= hi <= |sorted| && 0 < b <= |orders|
    requires multiset(Concat(orders[..b - 1])) == multiset(sorted[..lo])
    requires multiset(orders[b - 1]) == multiset(sorted[lo..hi])
    ensures multiset(Concat(orders[..b])) == multiset(sorted[..hi])
  {
    assert orders[..b] == orders[..b - 1] + [orders[b - 1]];
    ConcatAppend(orders[..b - 1], orders[b - 1]);
    assert sorted[..hi] == sorted[..lo] + sorted[lo..hi];
  }

  /** Picks and queues together are exactly the members. */
  lemma {:induction false} BinsPartition(sorted: seq<Member>, k: nat, draws: seq<Draw>, orders: seq<seq<Member>>,
                                         b: nat)
    requires 1 <= k && |draws| == |orders| == k && b <= k
    requires forall c | 0 <= c < k :: FromBin(sorted, k, draws[c], c, orders[c])
    ensures Cut(|sorted|, k, b) <= |sorted|
    ensures multiset(Concat(orders[..b])) == multiset(sorted[..Cut(|sorted|, k, b)])
    ensures b == k ==> multiset(Concat(orders)) == multiset(sorted)
  {
    CutsOrdered(|sorted|, k, b);
    CutFacts(|sorted|, k, 0);
    if b > 0 {
      BinsPartition(sorted, k, draws, orders, b - 1);
      assert FromBin(sorted, k, draws[b - 1], b - 1, orders[b - 1]);
      OneBinMore(sorted, Cut(|sorted|, k, b - 1), Cut(|sorted|, k, b), orders, b);
    }
    if b == k { assert orders[..k] == orders && sorted[..|sorted|] == sorted; }
  }

  // Distinct keys

  predicate DistinctKeys(s: seq<Member>) { forall i, j | 0 <= i < j < |s| :: s[i].key != s[j].key }

  lemma {:induction false} OnceEach(s: seq<Member>, m: Member)
    requires DistinctKeys(s)
    ensures multiset(s)[m] <= 1
  {
    if s != [] {
      var init := s[..|s| - 1];
      assert s == init + [s[|s| - 1]];
      OnceEach(init, m);
      assert forall i | 0 <= i < |init| :: init[i] != s[|s| - 1];
    }
  }

  lemma {:induction false} Twice(s: seq<Member>, i: nat, j: nat)
    requires i < j < |s| && s[i] == s[j]
    ensures multiset(s)[s[i]] >= 2
  {
    assert s == s[..j] + [s[j]] + s[j + 1..];
    assert s[i] in s[..j];
  }

  lemma {:induction false} SameDistinct(a: seq<Member>, b: seq<Member>)
    requires multiset(a) == multiset(b) && DistinctKeys(b)
    ensures DistinctKeys(a)
  {
    forall i, j | 0 <= i < j < |a| ensures a[i].key != a[j].key {
      assert a[i] in multiset(b) && a[j] in multiset(b);
      OnceEach(b, a[i]);
      if a[i] == a[j] { Twice(a, i, j); }
    }
  }

  /** Keys of a bin. */
  function Bin(sorted: seq<Member>, k: nat, b: nat): set<Key>
    requires 1 <= k && Cut(|sorted|, k, b) <= Cut(|sorted|, k, b + 1) <= |sorted|
  {
    set i | Cut(|sorted|, k, b) <= i < Cut(|sorted|, k, b + 1) :: sorted[i].key
  }

  lemma {:induction false} InBin(sorted: seq<Member>, k: nat, d: Draw, b: nat, order: seq<Member>, m: Member)
    returns (x: nat)
    requires 1 <= k && FromBin(sorted, k, d, b, order) && m in order
    ensures Cut(|sorted|, k, b) <= x < Cut(|sorted|, k, b + 1) && x < |sorted| && sorted[x] == m
    ensures m.key in Bin(sorted, k, b)
  {
    var lo := Cut(|sorted|, k, b);
    var slice := sorted[lo..Cut(|sorted|, k, b + 1)];
    assert m in multiset(order) && m in slice;
    var i :| 0 <= i < |slice| && slice[i] == m;
    x := lo + i;
    assert sorted[x] == m;
  }

  lemma {:induction false} CutsGrow(n: nat, k: nat, a: nat, b: nat)
    requires 1 <= k && a <= b <= k
    ensures Cut(n, k, a) <= Cut(n, k, b)
    decreases b - a
  {
    if a < b {
      CutsGrow(n, k, a + 1, b);
      assert Cut(n, k, a) <= Cut(n, k, a + 1) by { OneCut(n, k, a); }
    }
  }

  lemma {:induction false} OneCut(n: nat, k: nat, b: nat)
    requires 1 <= k && b < k
    ensures Cut(n, k, b) <= Cut(n, k, b + 1)
  {
    CutFacts(n, k, b);
    NotNegative(n, k);
  }

  lemma {:induction false} NotNegative(n: nat, k: nat)
    requires k > 0
    ensures n / k >= 0
  {
  }

  /** Picks of different bins have different keys when all members do. */
  lemma {:induction false} PicksDiffer(members: seq<Member>, sorted: seq<Member>, k: nat, draws: seq<Draw>,
                                       orders: seq<seq<Member>>, a: nat, b: nat)
    requires 1 <= k && |draws| == |orders| == k && a < b < k
    requires DistinctKeys(members) && multiset(sorted) == multiset(members)
    requires forall c | 0 <= c < k :: FromBin(sorted, k, draws[c], c, orders[c])
    ensures draws[a].pick.key != draws[b].pick.key
  {
    SameDistinct(sorted, members);
    assert FromBin(sorted, k, draws[a], a, orders[a]) && FromBin(sorted, k, draws[b], b, orders[b]);
    var x := InBin(sorted, k, draws[a], a, orders[a], draws[a].pick);
    var y := InBin(sorted, k, draws[b], b, orders[b], draws[b].pick);
    CutsGrow(|sorted|, k, a + 1, b);
  }
}
