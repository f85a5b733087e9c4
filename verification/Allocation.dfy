/** Largest-remainder apportionment of benchmark slots to strata, at least one slot each and
    never more than a stratum holds (benchmarks/select_population.py). Strata are numbered in
    the order of their keys; the quota total * size / n is kept as the exact fraction with
    numerator `weight` over n. */
module Allocation {
  import opened Arithmetic
  import opened Options

  function Sum(s: seq<int>): int {
    if s == [] then 0 else Sum(s[..|s| - 1]) + s[|s| - 1]
  }

  lemma {:induction false} SumUpdate(s: seq<int>, k: nat, v: int)
    requires k < |s|
    ensures Sum(s[k := v]) == Sum(s) - s[k] + v
    decreases |s|
  {
    var last := |s| - 1;
    if k < last {
      assert s[k := v][..last] == s[..last][k := v];
      SumUpdate(s[..last], k, v);
    } else {
      assert s[k := v][..last] == s[..last];
    }
  }

  lemma {:induction false} SumBelow(a: seq<int>, b: seq<int>)
    requires |a| == |b| && forall k | 0 <= k < |a| :: a[k] <= b[k]
    ensures Sum(a) <= Sum(b) && (Sum(a) == Sum(b) ==> a == b)
  {
    if a != [] {
      var last := |a| - 1;
      SumBelow(a[..last], b[..last]);
      if Sum(a) == Sum(b) { assert a == a[..last] + [a[last]] && b == b[..last] + [b[last]]; }
    }
  }

  /** n times the quota. */
  function Weight(total: int, size: int): int { total * size }

  function Weights(sizes: seq<int>, total: int): (w: seq<int>)
    ensures |w| == |sizes|
  {
    seq(|sizes|, k requires 0 <= k < |sizes| => Weight(total, sizes[k]))
  }

  /** n times how far the quota exceeds the slots held. */
  function Lack(weight: int, n: int, held: int): int { weight - n * held }

  function Lacks(w: seq<int>, n: int, held: seq<int>): (r: seq<int>)
    requires |held| == |w|
    ensures |r| == |w|
  {
    seq(|w|, k requires 0 <= k < |w| => Lack(w[k], n, held[k]))
  }

  lemma {:induction false} SumWeights(sizes: seq<int>, total: int)
    ensures Sum(Weights(sizes, total)) == total * Sum(sizes)
  {
    if sizes != [] {
      var init := sizes[..|sizes| - 1];
      SumWeights(init, total);
      assert Weights(sizes, total)[..|sizes| - 1] == Weights(init, total);
    }
  }

  lemma {:induction false} SumLacks(w: seq<int>, n: int, held: seq<int>)
    requires |held| == |w|
    ensures Sum(Lacks(w, n, held)) == Sum(w) - n * Sum(held)
  {
    if w != [] {
      var last := |w| - 1;
      SumLacks(w[..last], n, held[..last]);
      assert Lacks(w, n, held)[..last] == Lacks(w[..last], n, held[..last]);
    }
  }

  lemma {:induction false} SomePositive(s: seq<int>) returns (k: nat)
    requires Sum(s) > 0
    ensures k < |s| && s[k] > 0
  {
    var last := |s| - 1;
    if s[last] > 0 { k := last; } else { k := SomePositive(s[..last]); }
  }

  /** While slots are missing, some stratum holds less than its quota. */
  lemma {:induction false} SomeLack(sizes: seq<int>, total: int, held: seq<int>) returns (k: nat)
    requires |held| == |sizes| && Sum(held) < total && Sum(sizes) > 0
    ensures k < |sizes| && Lack(Weight(total, sizes[k]), Sum(sizes), held[k]) > 0
  {
    var n, w := Sum(sizes), Weights(sizes, total);
    SumWeights(sizes, total);
    SumLacks(w, n, held);
    Positive(n, total - Sum(held));
    assert total * n - n * Sum(held) == n * (total - Sum(held));
    k := SomePositive(Lacks(w, n, held));
  }

  lemma {:induction false} Positive(a: int, b: int)
    requires a > 0 && b > 0
    ensures a * b > 0
  {
  }

  // The choice of one stratum

  /** (a, i) above (b, j): the larger lack, then the later key. */
  predicate Above(a: int, i: int, b: int, j: int) { a > b || (a == b && i > j) }

  /** The open stratum that lacks most. */
  method Neediest(lacks: seq<int>, open: seq<bool>) returns (r: Option<nat>)
    requires |open| == |lacks|
    ensures r.None? <==> forall k | 0 <= k < |open| :: !open[k]
    ensures r.Some? ==> r.value < |open| && open[r.value]
    ensures r.Some? ==>
              forall k | 0 <= k < |open| && open[k] && k != r.value :: Above(lacks[r.value], r.value, lacks[k], k)
  {
    r := None;
    for i := 0 to |open|
      invariant r.None? <==> forall k | 0 <= k < i :: !open[k]
      invariant r.Some? ==> r.value < i && open[r.value]
      invariant r.Some? ==> forall k | 0 <= k < i && open[k] && k != r.value ::
          Above(lacks[r.value], r.value, lacks[k], k)
    {
      if open[i] && (r.None? || Above(lacks[i], i, lacks[r.value], r.value)) { r := Some(i); }
    }
  }

  /** The open stratum that lacks least. */
  method LeastNeedy(lacks: seq<int>, open: seq<bool>) returns (r: Option<nat>)
    requires |open| == |lacks|
    ensures r.None? <==> forall k | 0 <= k < |open| :: !open[k]
    ensures r.Some? ==> r.value < |open| && open[r.value]
    ensures r.Some? ==>
              forall k | 0 <= k < |open| && open[k] && k != r.value :: Above(lacks[k], k, lacks[r.value], r.value)
  {
    r := None;
    for i := 0 to |open|
      invariant r.None? <==> forall k | 0 <= k < i :: !open[k]
      invariant r.Some? ==> r.value < i && open[r.value]
      invariant r.Some? ==> forall k | 0 <= k < i && open[k] && k != r.value ::
          Above(lacks[k], k, lacks[r.value], r.value)
    {
      if open[i] && (r.None? || Above(lacks[r.value], r.value, lacks[i], i)) { r := Some(i); }
    }
  }

  // Apportionment

  /** Whole part of the quota, raised to one and capped by the stratum. */
  function Start(size: int, weight: int, n: int): int
    requires n > 0
  {
    Min(size, Max(1, weight / n))
  }

  predicate AllPositive(sizes: seq<int>) { forall k | 0 <= k < |sizes| :: sizes[k] >= 1 }

  lemma {:induction false} SumPositive(sizes: seq<int>)
    requires AllPositive(sizes)
    ensures Sum(sizes) >= |sizes|
  {
    if sizes != [] {
      assert forall k | 0 <= k < |sizes| - 1 :: sizes[..|sizes| - 1][k] == sizes[k];
      SumPositive(sizes[..|sizes| - 1]);
    }
  }

  function Starts(sizes: seq<int>, total: int): (r: seq<int>)
    requires AllPositive(sizes)
    ensures |r| == |sizes|
  {
    SumPositive(sizes);
    seq(|sizes|, k requires 0 <= k < |sizes| => Start(sizes[k], Weight(total, sizes[k]), Sum(sizes)))
  }

  predicate Within(held: seq<int>, sizes: seq<int>) {
    |held| == |sizes| && forall k | 0 <= k < |sizes| :: 1 <= held[k] <= sizes[k]
  }

  /** n times the lack before any extra slot. */
  function Remainder(sizes: seq<int>, total: int, k: nat): int
    requires AllPositive(sizes) && k < |sizes|
  {
    Lack(Weight(total, sizes[k]), Sum(sizes), Starts(sizes, total)[k])
  }

  lemma {:induction false} QuotaWithin(weight: int, n: int, size: int)
    requires n > 0 && 0 <= weight <= n * size && size >= 1
    ensures weight / n <= size && 0 <= weight - n * (weight / n) < n
  {
    if weight / n > size { Positive(n, weight / n - size); }
  }

  /** With no more slots than members, the cap never bites, no start exceeds its quota by more
      than the raise to one, and none falls short by a whole slot. */
  lemma {:induction false} StartFacts(sizes: seq<int>, total: nat, k: nat)
    requires AllPositive(sizes) && k < |sizes| && total <= Sum(sizes)
    ensures var n, w, start := Sum(sizes), Weight(total, sizes[k]), Starts(sizes, total)[k];
            && n > 0 && start == Max(1, w / n) && 1 <= start <= sizes[k] && Remainder(sizes, total, k) < n
            && (start == sizes[k] ==> Remainder(sizes, total, k) <= 0)
            && (Remainder(sizes, total, k) > 0 ==> start == w / n && w % n > 0)
  {
    SumPositive(sizes);
    var n, w := Sum(sizes), Weight(total, sizes[k]);
    Ordered(total, n, sizes[k]);
    Ordered(0, total, sizes[k]);
    StartNumbers(w, n, sizes[k]);
  }

  lemma {:induction false} StartNumbers(w: int, n: int, size: int)
    requires n > 0 && 0 <= w <= n * size && size >= 1
    ensures var start := Start(size, w, n);
            && start == Max(1, w / n) && 1 <= start <= size && Lack(w, n, start) < n
            && (start == size ==> Lack(w, n, start) <= 0)
            && (Lack(w, n, start) > 0 ==> start == w / n && w % n > 0)
  {
    QuotaWithin(w, n, size);
    assert w == n * (w / n) + w % n;
    if w / n < 1 { assert w / n == 0 && w < n; }
  }

  lemma {:induction false} Ordered(a: int, b: int, c: int)
    requires a <= b && c >= 0
    ensures a * c <= b * c
  {
  }

  /** The start, or one slot more where something of the quota was left over. */
  predicate Rounded(sizes: seq<int>, total: nat, held: seq<int>, k: int)
    requires AllPositive(sizes) && |held| == |sizes|
  {
    0 <= k < |sizes| ==>
      var start := Starts(sizes, total)[k];
      held[k] == start || (held[k] == start + 1 && Remainder(sizes, total, k) > 0)
  }

  /** An extra slot here and none there means the larger remainder is here. */
  predicate Prefers(sizes: seq<int>, total: nat, held: seq<int>, i: int, j: int)
    requires AllPositive(sizes) && |held| == |sizes|
  {
    0 <= i < |sizes| && 0 <= j < |sizes|
    && held[i] > Starts(sizes, total)[i] && held[j] == Starts(sizes, total)[j] ==>
      Above(Remainder(sizes, total, i), i, Remainder(sizes, total, j), j)
  }

  /** Starts, and one extra slot each for the strata with the largest remainders. */
  ghost predicate Fair(sizes: seq<int>, total: nat, held: seq<int>)
    requires AllPositive(sizes)
  {
    && |held| == |sizes|
    && (forall k :: Rounded(sizes, total, held, k))
    && (forall i, j :: Prefers(sizes, total, held, i, j))
  }

  lemma {:induction false} Rounds(w: int, n: int, start: int, held: int)
    requires n > 0 && w >= 0 && start == Max(1, w / n)
    requires held == start || (held == start + 1 && start == w / n && w % n > 0)
    ensures w < n ==> held == 1
    ensures w >= n ==> held == w / n || (w % n > 0 && held == w / n + 1)
  {
  }

  /** A fair allocation gives every quota of at least one its floor or its ceiling, and every
      smaller quota one slot. */
  lemma {:induction false} FairRounds(sizes: seq<int>, total: nat, held: seq<int>, k: nat)
    requires AllPositive(sizes) && total <= Sum(sizes) && Fair(sizes, total, held) && k < |sizes|
    ensures var n, w := Sum(sizes), Weight(total, sizes[k]);
            && n > 0
            && (w < n ==> held[k] == 1)
            && (w >= n ==> held[k] == w / n || (w % n > 0 && held[k] == w / n + 1))
  {
    StartFacts(sizes, total, k);
    assert Rounded(sizes, total, held, k);
    Rounds(Weight(total, sizes[k]), Sum(sizes), Starts(sizes, total)[k], held[k]);
  }

  /** What a stratum of a fair allocation lacks. */
  lemma {:induction false} LackNow(sizes: seq<int>, total: nat, held: seq<int>, j: nat)
    requires AllPositive(sizes) && total <= Sum(sizes) && Fair(sizes, total, held) && j < |sizes|
    ensures var lack := Lack(Weight(total, sizes[j]), Sum(sizes), held[j]);
            && (held[j] == Starts(sizes, total)[j] ==> lack == Remainder(sizes, total, j))
            && (held[j] != Starts(sizes, total)[j] ==> lack < 0)
            && (held[j] >= sizes[j] ==> lack <= 0)
  {
    assert Rounded(sizes, total, held, j);
    StartFacts(sizes, total, j);
    OneMoreLacks(Weight(total, sizes[j]), Sum(sizes), Starts(sizes, total)[j]);
  }

  lemma {:induction false} OneMoreLacks(w: int, n: int, held: int)
    ensures Lack(w, n, held + 1) == Lack(w, n, held) - n
  {
  }

  /** The neediest open stratum has a whole quota and gets its first extra slot. */
  lemma {:induction false} ExtraIsFair(sizes: seq<int>, total: nat, held: seq<int>, k: nat)
    requires AllPositive(sizes) && total <= Sum(sizes) && Fair(sizes, total, held) && Sum(held) < total
    requires k < |sizes| && held[k] < sizes[k]
    requires forall j | 0 <= j < |sizes| && held[j] < sizes[j] && j != k ::
               Above(Lack(Weight(total, sizes[k]), Sum(sizes), held[k]), k,
                     Lack(Weight(total, sizes[j]), Sum(sizes), held[j]), j)
    ensures Fair(sizes, total, held[k := held[k] + 1])
  {
    SumPositive(sizes);
    var start := Starts(sizes, total);
    var needy := SomeLack(sizes, total, held);
    assert Rounded(sizes, total, held, needy) && Rounded(sizes, total, held, k);
    LackNow(sizes, total, held, needy);
    LackNow(sizes, total, held, k);
    assert held[k] == start[k] && Remainder(sizes, total, k) > 0;
    var more := held[k := held[k] + 1];
    forall j ensures Rounded(sizes, total, more, j) {
      assert Rounded(sizes, total, held, j);
    }
    forall i, j ensures Prefers(sizes, total, more, i, j) {
      assert Prefers(sizes, total, held, i, j);
      if i == k && 0 <= j < |sizes| && j != k {
        assert Rounded(sizes, total, held, j);
        LackNow(sizes, total, held, j);
      }
    }
  }

  lemma {:induction false} NoTrade(sizes: seq<int>, total: nat, a: seq<int>, b: seq<int>, i: nat, j: nat)
    requires AllPositive(sizes) && Fair(sizes, total, a) && Fair(sizes, total, b) && i < |sizes| && j < |sizes|
    ensures !(a[i] > b[i] && b[j] > a[j])
  {
    assert Rounded(sizes, total, a, i) && Rounded(sizes, total, b, i);
    assert Rounded(sizes, total, a, j) && Rounded(sizes, total, b, j);
    assert Prefers(sizes, total, a, i, j) && Prefers(sizes, total, b, j, i);
  }

  /** A fair allocation is the only one of its size. */
  lemma {:induction false} FairIsUnique(sizes: seq<int>, total: nat, a: seq<int>, b: seq<int>)
    requires AllPositive(sizes) && Fair(sizes, total, a) && Fair(sizes, total, b) && Sum(a) == Sum(b)
    ensures a == b
  {
    forall i, j | 0 <= i < |sizes| && 0 <= j < |sizes| ensures !(a[i] > b[i] && b[j] > a[j]) {
      NoTrade(sizes, total, a, b, i, j);
    }
    if forall k | 0 <= k < |a| :: a[k] <= b[k] { SumBelow(a, b); } else { SumBelow(b, a); }
  }

  function Open(held: seq<int>, sizes: seq<int>): (r: seq<bool>)
    requires |held| == |sizes|
    ensures |r| == |sizes|
  {
    seq(|sizes|, k requires 0 <= k < |sizes| => held[k] < sizes[k])
  }

  lemma {:induction false} PickIsFair(sizes: seq<int>, total: nat, held: seq<int>, k: nat)
    requires AllPositive(sizes) && total <= Sum(sizes) && Fair(sizes, total, held) && Sum(held) < total
    requires k < |sizes| && Open(held, sizes)[k]
    requires var lacks, open := Lacks(Weights(sizes, total), Sum(sizes), held), Open(held, sizes);
             forall j | 0 <= j < |open| && open[j] && j != k :: Above(lacks[k], k, lacks[j], j)
    ensures Fair(sizes, total, held[k := held[k] + 1])
  {
    forall j | 0 <= j < |sizes| && held[j] < sizes[j] && j != k
      ensures Above(Lack(Weight(total, sizes[k]), Sum(sizes), held[k]), k,
                    Lack(Weight(total, sizes[j]), Sum(sizes), held[j]), j)
    {
      assert Open(held, sizes)[j];
    }
    ExtraIsFair(sizes, total, held, k);
  }

  function Spare(held: seq<int>): (r: seq<bool>)
    ensures |r| == |held|
  {
    seq(|held|, k requires 0 <= k < |held| => held[k] > 1)
  }

  lemma {:induction false} StartIsFair(sizes: seq<int>, total: nat)
    requires AllPositive(sizes)
    ensures Fair(sizes, total, Starts(sizes, total))
  {
  }

  lemma {:induction false} AllFull(held: seq<int>, sizes: seq<int>)
    requires Within(held, sizes) && forall j | 0 <= j < |sizes| :: !Open(held, sizes)[j]
    ensures held == sizes
  {
    forall j | 0 <= j < |sizes| ensures held[j] == sizes[j] { assert !Open(held, sizes)[j]; }
  }

  /** One more slot for the stratum that lacks most; none when every stratum is full. */
  method GiveOne(sizes: seq<int>, total: nat, held: seq<int>) returns (r: Option<seq<int>>)
    requires AllPositive(sizes) && Within(held, sizes) && Sum(held) < total
    requires total <= Sum(sizes) ==> Fair(sizes, total, held)
    ensures r.None? ==> Sum(held) == Sum(sizes)
    ensures r.Some? ==> Within(r.value, sizes) && Sum(r.value) == Sum(held) + 1
    ensures r.Some? && total <= Sum(sizes) ==> Fair(sizes, total, r.value)
  {
    var k := Neediest(Lacks(Weights(sizes, total), Sum(sizes), held), Open(held, sizes));
    if k.None? {
      AllFull(held, sizes);
      return None;
    }
    if total <= Sum(sizes) { PickIsFair(sizes, total, held, k.value); }
    OneMoreFits(held, sizes, k.value);
    r := Some(held[k.value := held[k.value] + 1]);
  }

  /** Hand out what is missing; none when every stratum is full. */
  method Raise(sizes: seq<int>, total: nat, start: seq<int>) returns (r: Option<seq<int>>)
    requires AllPositive(sizes) && start == Starts(sizes, total) && Within(start, sizes)
    ensures r.None? <==> total > Sum(sizes)
    ensures r.Some? ==> Within(r.value, sizes) && Sum(r.value) == Max(Sum(start), total)
    ensures r.Some? && Sum(start) <= total ==> Fair(sizes, total, r.value)
    ensures r.Some? && Sum(start) > total ==> r.value == start
  {
    var held := start;
    StartIsFair(sizes, total);
    while Sum(held) < total
      invariant Within(held, sizes) && Sum(start) <= Sum(held) <= Max(Sum(start), total)
      invariant total <= Sum(sizes) ==> Fair(sizes, total, held)
      invariant Sum(start) > total ==> held == start
      decreases total - Sum(held)
    {
      var more := GiveOne(sizes, total, held);
      if more.None? { return None; }
      held := more.value;
    }
    SumBelow(held, sizes);
    r := Some(held);
  }

  lemma {:induction false} OneMoreFits(held: seq<int>, sizes: seq<int>, k: nat)
    requires Within(held, sizes) && k < |sizes| && Open(held, sizes)[k]
    ensures Within(held[k := held[k] + 1], sizes) && Sum(held[k := held[k] + 1]) == Sum(held) + 1
  {
    SumUpdate(held, k, held[k] + 1);
  }

  /** A slot was taken back here although there could have given one: then there lacks more than
      here lacked before. */
  predicate TakenBack(sizes: seq<int>, total: nat, start: seq<int>, held: seq<int>, i: int, j: int)
    requires |held| == |start| == |sizes|
  {
    0 <= i < |sizes| && 0 <= j < |sizes| && i != j && held[i] < start[i] && held[j] > 1 ==>
      Above(Lack(Weight(total, sizes[j]), Sum(sizes), held[j]), j,
            Lack(Weight(total, sizes[i]), Sum(sizes), held[i] + 1), i)
  }

  /** Only ever taken back from the stratum that lacks least. */
  ghost predicate Frugal(sizes: seq<int>, total: nat, start: seq<int>, held: seq<int>)
    requires |start| == |sizes|
  {
    && Within(held, sizes)
    && (forall k | 0 <= k < |sizes| :: held[k] <= start[k])
    && (forall i, j :: TakenBack(sizes, total, start, held, i, j))
  }

  lemma {:induction false} TakeIsFrugal(sizes: seq<int>, total: nat, start: seq<int>, held: seq<int>, k: nat)
    requires |start| == |sizes| && AllPositive(sizes) && Frugal(sizes, total, start, held)
    requires k < |sizes| && Spare(held)[k]
    requires var lacks, spare := Lacks(Weights(sizes, total), Sum(sizes), held), Spare(held);
             forall j | 0 <= j < |spare| && spare[j] && j != k :: Above(lacks[j], j, lacks[k], k)
    ensures Frugal(sizes, total, start, held[k := held[k] - 1])
  {
    SumPositive(sizes);
    var less := held[k := held[k] - 1];
    OneMoreLacks(Weight(total, sizes[k]), Sum(sizes), held[k] - 1);
    forall i, j ensures TakenBack(sizes, total, start, less, i, j) {
      assert TakenBack(sizes, total, start, held, i, j);
      if i == k && 0 <= j < |sizes| && j != k && held[j] > 1 { assert Spare(held)[j]; }
    }
  }

  lemma {:induction false} LacksLess(w: int, n: int, a: int, b: int)
    requires n >= 0 && a <= b
    ensures Lack(w, n, b) <= Lack(w, n, a)
  {
    Ordered(a, b, n);
  }

  lemma {:induction false} NoFrugalTrade(sizes: seq<int>, total: nat, start: seq<int>, a: seq<int>, b: seq<int>,
                                         i: nat, j: nat)
    requires |start| == |sizes| && AllPositive(sizes) && i < |sizes| && j < |sizes|
    requires Frugal(sizes, total, start, a) && Frugal(sizes, total, start, b)
    ensures !(a[i] > b[i] && b[j] > a[j])
  {
    SumPositive(sizes);
    if b[i] < a[i] { LacksLess(Weight(total, sizes[i]), Sum(sizes), b[i] + 1, a[i]); }
    if a[j] < b[j] { LacksLess(Weight(total, sizes[j]), Sum(sizes), a[j] + 1, b[j]); }
    assert TakenBack(sizes, total, start, b, i, j) && TakenBack(sizes, total, start, a, j, i);
  }

  /** A frugal allocation is the only one of its size. */
  lemma {:induction false} FrugalIsUnique(sizes: seq<int>, total: nat, start: seq<int>, a: seq<int>, b: seq<int>)
    requires |start| == |sizes| && AllPositive(sizes) && Sum(a) == Sum(b)
    requires Frugal(sizes, total, start, a) && Frugal(sizes, total, start, b)
    ensures a == b
  {
    forall i, j | 0 <= i < |sizes| && 0 <= j < |sizes| ensures !(a[i] > b[i] && b[j] > a[j]) {
      NoFrugalTrade(sizes, total, start, a, b, i, j);
    }
    if forall k | 0 <= k < |a| :: a[k] <= b[k] { SumBelow(a, b); } else { SumBelow(b, a); }
  }

  /** Take back what is too much; none when every stratum is down to one. */
  method Lower(sizes: seq<int>, total: nat, start: seq<int>) returns (r: Option<seq<int>>)
    requires AllPositive(sizes) && Within(start, sizes) && Sum(start) >= total
    ensures r.None? <==> total < |sizes|
    ensures r.Some? ==> Sum(r.value) == total && Frugal(sizes, total, start, r.value)
    ensures r.Some? && Sum(start) == total ==> r.value == start
  {
    var held := start;
    while Sum(held) > total
      invariant total <= Sum(held) <= Sum(start) && Frugal(sizes, total, start, held)
      decreases Sum(held)
    {
      var k := LeastNeedy(Lacks(Weights(sizes, total), Sum(sizes), held), Spare(held));
      if k.None? {
        forall j | 0 <= j < |held| ensures held[j] == 1 { assert !Spare(held)[j]; }
        AllOnes(held);
        return None;
      }
      TakeIsFrugal(sizes, total, start, held, k.value);
      SumUpdate(held, k.value, held[k.value] - 1);
      held := held[k.value := held[k.value] - 1];
    }
    SumPositive(held);
    SumBelow(held, start);
    r := Some(held);
  }

  lemma {:induction false} AllOnes(s: seq<int>)
    requires forall k | 0 <= k < |s| :: s[k] == 1
    ensures Sum(s) == |s|
  {
    if s != [] { AllOnes(s[..|s| - 1]); }
  }

  // ----- the allocation in plain numbers

  /** The whole part of the quota total * size / n, and at least one. */
  function Floor(sizes: seq<int>, total: nat, k: nat): int
    requires k < |sizes| && Sum(sizes) > 0
  {
    Max(1, total * sizes[k] / Sum(sizes))
  }

  /** What is left of the quota, times n. */
  function Left(sizes: seq<int>, total: nat, k: nat, held: int): int
    requires k < |sizes|
  {
    total * sizes[k] - Sum(sizes) * held
  }

  /** Everyone has the floor or, where something is left of the quota, one more; and whoever has one
      more had more left than everyone who has not, or as much and the later key. */
  ghost predicate LargestRemainders(sizes: seq<int>, total: nat, held: seq<int>) {
    && Sum(sizes) > 0 && |held| == |sizes|
    && (forall k: nat | k < |sizes| ::
          var floor := Floor(sizes, total, k);
          held[k] == floor || (held[k] == floor + 1 && Left(sizes, total, k, floor) > 0))
    && (forall i: nat, j: nat
          | i < |sizes| && j < |sizes| && held[i] > Floor(sizes, total, i) && held[j] == Floor(sizes, total, j) ::
          var a, b := Left(sizes, total, i, Floor(sizes, total, i)), Left(sizes, total, j, Floor(sizes, total, j));
          a > b || (a == b && i > j))
  }

  /** Nobody has more than the floor or less than one; and whoever has less had, with one more, less
      left than everyone who could have given a slot has now, or as much and the earlier key. */
  ghost predicate SmallestTaken(sizes: seq<int>, total: nat, held: seq<int>) {
    && Sum(sizes) > 0 && |held| == |sizes|
    && (forall k: nat | k < |sizes| :: 1 <= held[k] <= Floor(sizes, total, k))
    && (forall i: nat, j: nat
          | i < |sizes| && j < |sizes| && i != j && held[i] < Floor(sizes, total, i) && held[j] > 1 ::
          var a, b := Left(sizes, total, j, held[j]), Left(sizes, total, i, held[i] + 1);
          a > b || (a == b && j > i))
  }

  lemma {:induction false} StartIsFloor(sizes: seq<int>, total: nat, k: nat)
    requires AllPositive(sizes) && k < |sizes| && total <= Sum(sizes)
    ensures Sum(sizes) > 0 && Starts(sizes, total)[k] == Floor(sizes, total, k)
    ensures Remainder(sizes, total, k) == Left(sizes, total, k, Floor(sizes, total, k))
  {
    StartFacts(sizes, total, k);
  }

  lemma {:induction false} FairIsPlain(sizes: seq<int>, total: nat, held: seq<int>)
    requires AllPositive(sizes) && sizes != [] && total <= Sum(sizes) && Fair(sizes, total, held)
    ensures LargestRemainders(sizes, total, held)
  {
    SumPositive(sizes);
    forall k: nat | k < |sizes|
      ensures var floor := Floor(sizes, total, k);
              held[k] == floor || (held[k] == floor + 1 && Left(sizes, total, k, floor) > 0)
    {
      StartIsFloor(sizes, total, k);
      assert Rounded(sizes, total, held, k);
    }
    forall i: nat, j: nat
      | i < |sizes| && j < |sizes| && held[i] > Floor(sizes, total, i) && held[j] == Floor(sizes, total, j)
      ensures var a, b := Left(sizes, total, i, Floor(sizes, total, i)), Left(sizes, total, j, Floor(sizes, total, j));
              a > b || (a == b && i > j)
    {
      StartIsFloor(sizes, total, i);
      StartIsFloor(sizes, total, j);
      assert Prefers(sizes, total, held, i, j);
    }
  }

  lemma {:induction false} FrugalIsPlain(sizes: seq<int>, total: nat, held: seq<int>)
    requires AllPositive(sizes) && sizes != [] && total <= Sum(sizes)
    requires Frugal(sizes, total, Starts(sizes, total), held)
    ensures SmallestTaken(sizes, total, held)
  {
    SumPositive(sizes);
    forall k: nat | k < |sizes| ensures 1 <= held[k] <= Floor(sizes, total, k) { StartIsFloor(sizes, total, k); }
    forall i: nat, j: nat | i < |sizes| && j < |sizes| && i != j && held[i] < Floor(sizes, total, i) && held[j] > 1
      ensures var a, b := Left(sizes, total, j, held[j]), Left(sizes, total, i, held[i] + 1);
              a > b || (a == b && j > i)
    {
      StartIsFloor(sizes, total, i);
      assert TakenBack(sizes, total, Starts(sizes, total), held, i, j);
    }
  }

  /** Succeeds exactly when there is a slot for every stratum and a member for every slot; then
      all slots are given out: fairly, or, where raising the starts to one overshot, by taking
      slots back frugally. In plain numbers: the largest remainders get the extra slots, or the
      smallest give theirs back. */
  method Allocate(sizes: seq<int>, total: nat) returns (r: Option<seq<int>>)
    requires AllPositive(sizes)
    ensures r.Some? <==> |sizes| <= total <= Sum(sizes)
    ensures r.Some? ==> Within(r.value, sizes) && Sum(r.value) == total
    ensures r.Some? ==>
              if Sum(Starts(sizes, total)) <= total then Fair(sizes, total, r.value)
              else Frugal(sizes, total, Starts(sizes, total), r.value)
    ensures r.Some? && sizes != [] ==>
              if Sum(Starts(sizes, total)) <= total then LargestRemainders(sizes, total, r.value)
              else SmallestTaken(sizes, total, r.value)
  {
    SumPositive(sizes);
    var start := Starts(sizes, total);
    r := Raise(sizes, total, start);
    if r.Some? { r := Lower(sizes, total, r.value); }
    if r.Some? && sizes != [] {
      if Sum(start) <= total { FairIsPlain(sizes, total, r.value); } else { FrugalIsPlain(sizes, total, r.value); }
    }
  }
}
