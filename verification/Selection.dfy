/** The slots of a selection: one per bin of every stratum, and the replacement of lost ones
    (benchmarks/select_population.py). */
module Selection {
  import opened Bytes
  import opened Options
  import opened QuantileDraw

  /** The members of a family or surface, and how many of them to draw. */
  datatype Stratum = Stratum(members: seq<Member>, slots: nat)

  datatype Source = Corpus | Closed

  datatype Home = Home(source: Source, stratum: nat, bin: nat)

  datatype Pick = Pick(key: Key, home: Home, queue: seq<Key>)

  datatype Slot = Slot(number: int, key: Key, home: Home, queue: seq<Key>)

  // Drawing from all strata

  /** How a stratum was drawn: its members sorted, and per bin the draw and its order. */
  datatype Drawn = Drawn(sorted: seq<Member>, draws: seq<Draw>, orders: seq<seq<Member>>)

  ghost predicate DrawnFrom(s: Stratum, d: Drawn) {
    && multiset(d.sorted) == multiset(s.members) && |d.draws| == |d.orders| == s.slots >= 1
    && (forall i, j | 0 <= i < j < |d.sorted| ::
          || d.sorted[i].trades < d.sorted[j].trades
          || (d.sorted[i].trades == d.sorted[j].trades && d.sorted[i].key <= d.sorted[j].key))
    && forall b | 0 <= b < s.slots :: FromBin(d.sorted, s.slots, d.draws[b], b, d.orders[b])
  }

  ghost predicate AllDrawn(strata: seq<Stratum>, drawn: seq<Drawn>) {
    |drawn| == |strata|
    && forall a {:trigger DrawnFrom(strata[a], drawn[a])} | 0 <= a < |strata| :: DrawnFrom(strata[a], drawn[a])
  }

  /** The keys of the bin a home stands for. */
  ghost function BinOf(strata: seq<Stratum>, drawn: seq<Drawn>, h: Home): set<Key>
    requires AllDrawn(strata, drawn)
  {
    if h.stratum < |strata| && h.bin < strata[h.stratum].slots then
      assert DrawnFrom(strata[h.stratum], drawn[h.stratum]);
      var d := drawn[h.stratum];
      assert FromBin(d.sorted, strata[h.stratum].slots, d.draws[h.bin], h.bin, d.orders[h.bin]);
      Bin(d.sorted, strata[h.stratum].slots, h.bin)
    else {}
  }

  /** A pick is the draw of its home. */
  ghost predicate IsDraw(strata: seq<Stratum>, drawn: seq<Drawn>, p: Pick) {
    && p.home.stratum < |strata| == |drawn|
    && p.home.bin < |drawn[p.home.stratum].draws|
    && var d := drawn[p.home.stratum].draws[p.home.bin]; p.key == d.pick.key && p.queue == d.queue
  }

  /** All members of all strata have different keys. */
  ghost predicate GloballyDistinct(strata: seq<Stratum>) {
    && (forall a | 0 <= a < |strata| :: DistinctKeys(strata[a].members))
    && (forall a, b | 0 <= a < b < |strata| :: Apart(strata[a].members, strata[b].members))
  }

  ghost predicate Apart(s: seq<Member>, t: seq<Member>) {
    forall m, n | m in s && n in t :: m.key != n.key
  }

  /** A bin's keys are those of its pick and its queue, in the bin. */
  lemma {:induction false} DrawInBin(strata: seq<Stratum>, drawn: seq<Drawn>, p: Pick)
    requires AllDrawn(strata, drawn) && IsDraw(strata, drawn, p)
    ensures p.key in BinOf(strata, drawn, p.home) && forall q | q in p.queue :: q in BinOf(strata, drawn, p.home)
    ensures exists m :: m in strata[p.home.stratum].members && m.key == p.key
  {
    var a, b := p.home.stratum, p.home.bin;
    assert DrawnFrom(strata[a], drawn[a]);
    var sorted, k, d, order := drawn[a].sorted, strata[a].slots, drawn[a].draws[b], drawn[a].orders[b];
    assert FromBin(sorted, k, d, b, order);
    var x := InBin(sorted, k, d, b, order, d.pick);
    assert d.pick in multiset(strata[a].members);
    forall q | q in p.queue ensures q in Bin(sorted, k, b) {
      var i :| 0 <= i < |p.queue| && p.queue[i] == q;
      assert order[1..][i] == order[i + 1] && order[i + 1] in order;
      var y := InBin(sorted, k, d, b, order, order[i + 1]);
    }
  }

  lemma {:induction false} DrawsDiffer(strata: seq<Stratum>, drawn: seq<Drawn>, p: Pick, q: Pick)
    requires AllDrawn(strata, drawn) && IsDraw(strata, drawn, p) && IsDraw(strata, drawn, q)
    requires GloballyDistinct(strata) && p.home.source == q.home.source && p.home != q.home
    ensures p.key != q.key
  {
    var a, b := p.home.stratum, q.home.stratum;
    if a == b {
      assert DrawnFrom(strata[a], drawn[a]);
      var d, lo, hi := drawn[a], p.home.bin, q.home.bin;
      PicksDiffer(strata[a].members, d.sorted, strata[a].slots, d.draws, d.orders,
                  if lo < hi then lo else hi, if lo < hi then hi else lo);
    } else {
      DrawInBin(strata, drawn, p);
      DrawInBin(strata, drawn, q);
      assert if a < b then Apart(strata[a].members, strata[b].members) else Apart(strata[b].members, strata[a].members);
    }
  }

  ghost predicate Picked(strata: seq<Stratum>, drawn: seq<Drawn>, source: Source, picks: seq<Pick>) {
    && (forall i | 0 <= i < |picks| :: picks[i].home.source == source && IsDraw(strata, drawn, picks[i]))
    && (forall i, j | 0 <= i < j < |picks| :: picks[i].home != picks[j].home)
  }

  function Total(strata: seq<Stratum>): nat {
    if strata == [] then 0 else Total(strata[..|strata| - 1]) + strata[|strata| - 1].slots
  }

  /** The draws of one more stratum. */
  lemma {:induction false} PickedMore(strata: seq<Stratum>, drawn: seq<Drawn>, source: Source, picks: seq<Pick>,
                                      s: Stratum, d: Drawn, more: seq<Pick>)
    requires |strata| == |drawn| && Picked(strata, drawn, source, picks) && |more| == |d.draws|
    requires forall b | 0 <= b < |more| ::
               more[b] == Pick(d.draws[b].pick.key, Home(source, |strata|, b), d.draws[b].queue)
    ensures Picked(strata + [s], drawn + [d], source, picks + more)
  {
    var all := picks + more;
    forall i | 0 <= i < |all| ensures all[i].home.source == source && IsDraw(strata + [s], drawn + [d], all[i]) {
      if i < |picks| {
        assert IsDraw(strata, drawn, picks[i]);
      } else {
        assert all[i] == more[i - |picks|];
      }
    }
    forall i, j | 0 <= i < j < |all| ensures all[i].home != all[j].home {
      if i < |picks| { assert IsDraw(strata, drawn, picks[i]); } else { assert all[i] == more[i - |picks|]; }
      if j >= |picks| { assert all[j] == more[j - |picks|]; }
    }
  }

  /** Draw every stratum. Fails exactly when some stratum has fewer members than slots. */
  method DrawStrata(strata: seq<Stratum>, source: Source) returns (r: Option<seq<Pick>>, ghost drawn: seq<Drawn>)
    requires forall a | 0 <= a < |strata| :: strata[a].slots >= 1
    ensures r.None? <==> exists a | 0 <= a < |strata| :: |strata[a].members| < strata[a].slots
    ensures r.Some? ==>
              AllDrawn(strata, drawn) && Picked(strata, drawn, source, r.value) && |r.value| == Total(strata)
  {
    var picks := [];
    drawn := [];
    for a := 0 to |strata|
      invariant AllDrawn(strata[..a], drawn) && Picked(strata[..a], drawn, source, picks)
      invariant |picks| == Total(strata[..a])
      invariant forall c | 0 <= c < a :: |strata[c].members| >= strata[c].slots
    {
      var s := strata[a];
      var draws;
      ghost var sorted, orders;
      draws, sorted, orders := DrawAll(s.members, s.slots);
      if draws.None? { return None, drawn; }
      ghost var d := Drawn(sorted, draws.value, orders);
      var ds := draws.value;
      var more := seq(|ds|, b requires 0 <= b < |ds| => Pick(ds[b].pick.key, Home(source, a, b), ds[b].queue));
      PickedMore(strata[..a], drawn, source, picks, s, d, more);
      assert strata[..a + 1] == strata[..a] + [s] && strata[..a + 1][..a] == strata[..a];
      assert DrawnFrom(s, d);
      picks, drawn := picks + more, drawn + [d];
    }
    assert strata[..|strata|] == strata;
    r := Some(picks);
  }

  // Slots in order of their keys

  predicate ByKey(s: seq<Pick>) { forall i, j | 0 <= i < j < |s| :: s[i].key < s[j].key }

  method InsertPick(s: seq<Pick>, p: Pick) returns (r: seq<Pick>)
    requires ByKey(s) && forall i | 0 <= i < |s| :: s[i].key != p.key
    ensures ByKey(r) && multiset(r) == multiset(s) + multiset{p}
  {
    var i: nat := |s|;
    while i > 0 && s[i - 1].key > p.key
      invariant i <= |s| && forall j | i <= j < |s| :: p.key < s[j].key
    {
      i := i - 1;
    }
    PickInserted(s, p, i);
    r := s[..i] + [p] + s[i..];
  }

  lemma {:induction false} PickInserted(s: seq<Pick>, p: Pick, i: nat)
    requires ByKey(s) && i <= |s| && (i > 0 ==> s[i - 1].key < p.key) && forall j | i <= j < |s| :: p.key < s[j].key
    ensures ByKey(s[..i] + [p] + s[i..]) && multiset(s[..i] + [p] + s[i..]) == multiset(s) + multiset{p}
  {
    InsertedOnce(s, p, i);
    var r := s[..i] + [p] + s[i..];
    forall a, b | 0 <= a < b < |r| ensures r[a].key < r[b].key {
      if a < i { assert r[a] == s[a] && (a < i - 1 ==> s[a].key < s[i - 1].key); }
      if b > i { assert r[b] == s[b - 1]; }
      if a > i { assert r[a] == s[a - 1]; }
    }
  }

  /** `sorted(picks, key=...)`, for picks with different keys. */
  method SortPicks(picks: seq<Pick>) returns (r: seq<Pick>)
    requires forall i, j | 0 <= i < j < |picks| :: picks[i].key != picks[j].key
    ensures ByKey(r) && multiset(r) == multiset(picks) && |r| == |picks|
  {
    r := [];
    for i := 0 to |picks|
      invariant ByKey(r) && multiset(r) == multiset(picks[..i])
    {
      forall j | 0 <= j < |r| ensures r[j].key != picks[i].key {
        assert r[j] in multiset(picks[..i]);
      }
      r := InsertPick(r, picks[i]);
      assert picks[..i + 1] == picks[..i] + [picks[i]];
    }
    assert picks[..|picks|] == picks;
    assert |multiset(r)| == |r| && |multiset(picks)| == |picks|;
  }

  // Replacement of lost slots

  /** A slot is known by the first three digits of its name. */
  function Prefix(n: nat): nat { if n < 1000 then n else Prefix(n / 10) }

  /** The first slot with a number; as many as there are slots when none has it. */
  function Find(slots: seq<Slot>, number: int): (i: nat)
    ensures i <= |slots| && (i < |slots| ==> slots[i].number == number)
    ensures forall j | 0 <= j < i :: slots[j].number != number
  {
    if slots == [] then 0
    else if slots[0].number == number then 0
    else
      var i := Find(slots[1..], number);
      assert forall j | 0 < j < i + 1 :: slots[j] == slots[1..][j - 1];
      i + 1
  }

  /** The first key of a queue that is not selected yet. */
  function FirstFree(queue: seq<Key>, selected: set<Key>): (r: Option<Key>)
    ensures r.None? <==> forall i | 0 <= i < |queue| :: queue[i] in selected
    ensures r.Some? ==> r.value in queue && r.value !in selected
  {
    if queue == [] then None
    else if queue[0] !in selected then Some(queue[0])
    else FirstFree(queue[1..], selected)
  }

  function Remaining(queue: seq<Key>, selected: set<Key>): (r: seq<Key>)
    ensures forall q :: q in r <==> q in queue && q !in selected
  {
    if queue == [] then []
    else if queue[0] in selected then Remaining(queue[1..], selected)
    else [queue[0]] + Remaining(queue[1..], selected)
  }

  /** The first one, with everything before it selected. */
  lemma {:induction false} FirstFreeIs(queue: seq<Key>, selected: set<Key>) returns (q: nat)
    requires FirstFree(queue, selected).Some?
    ensures q < |queue| && queue[q] == FirstFree(queue, selected).value && queue[q] !in selected
    ensures forall j | 0 <= j < q :: queue[j] in selected
  {
    if queue[0] !in selected {
      q := 0;
    } else {
      q := FirstFreeIs(queue[1..], selected);
      assert forall j | 0 < j < q + 1 :: queue[j] == queue[1..][j - 1];
      q := q + 1;
    }
  }

  /** How many keys of a queue are not selected. */
  function Free(queue: seq<Key>, selected: set<Key>): nat {
    if queue == [] then 0 else (if queue[0] in selected then 0 else 1) + Free(queue[1..], selected)
  }

  /** What remains of a queue keeps its order: each key comes behind those that were before it. */
  lemma {:induction false} RemainingIs(queue: seq<Key>, selected: set<Key>, k: nat)
    requires k < |queue| && queue[k] !in selected
    ensures |Remaining(queue, selected)| == Free(queue, selected)
    ensures Free(queue[..k], selected) < |Remaining(queue, selected)|
    ensures Remaining(queue, selected)[Free(queue[..k], selected)] == queue[k]
  {
    RemainingSize(queue, selected);
    if k > 0 {
      RemainingIs(queue[1..], selected, k - 1);
      assert queue[..k][1..] == queue[1..][..k - 1];
    }
  }

  lemma {:induction false} RemainingSize(queue: seq<Key>, selected: set<Key>)
    ensures |Remaining(queue, selected)| == Free(queue, selected)
  {
    if queue != [] { RemainingSize(queue[1..], selected); }
  }

  /** The first three digits of a longer number. */
  lemma {:induction false} PrefixIs(n: nat)
    ensures n < 1000 ==> Prefix(n) == n
    ensures n >= 1000 ==> |Decimal(n)| > 3 && Decimal(n)[..3] == Decimal(Prefix(n))
  {
    if n >= 1000 {
      assert Decimal(n) == Decimal(n / 10) + [48 + n % 10];
      if n / 10 >= 1000 {
        PrefixIs(n / 10);
        assert Decimal(n)[..3] == Decimal(n / 10)[..3];
      } else {
        ThreeDigits(n / 10);
        assert Decimal(n)[..3] == Decimal(n / 10);
      }
    }
  }

  lemma {:induction false} ThreeDigits(n: nat)
    requires 100 <= n < 1000
    ensures |Decimal(n)| == 3 && Prefix(n) == n
  {
    assert Decimal(n) == Decimal(n / 10) + [48 + n % 10];
    assert Decimal(n / 10) == Decimal(n / 10 / 10) + [48 + n / 10 % 10];
  }

  function Keyed(slots: seq<Slot>): set<Key> { set i | 0 <= i < |slots| :: slots[i].key }

  lemma {:induction false} KeyedMore(slots: seq<Slot>, added: Slot)
    ensures Keyed(slots + [added]) == Keyed(slots) + {added.key}
  {
    var all := slots + [added];
    assert all[|slots|].key in Keyed(all);
    forall i | 0 <= i < |slots| ensures slots[i].key in Keyed(all) { assert all[i] == slots[i]; }
  }

  /** The new slot takes the first key of the lost slot's own queue that no slot has, in its bin. */
  ghost predicate Replaces(slots: seq<Slot>, number: int, added: Slot) {
    var i := Find(slots, number);
    && i < |slots| && FirstFree(slots[i].queue, Keyed(slots)) == Some(added.key)
    && added.home == slots[i].home && added.number == Prefix(|slots| + 1)
    && added.queue == Remaining(slots[i].queue, Keyed(slots) + {added.key})
  }

  ghost predicate Irreplaceable(slots: seq<Slot>, number: int) {
    var i := Find(slots, number);
    i == |slots| || forall j | 0 <= j < |slots[i].queue| :: slots[i].queue[j] in Keyed(slots)
  }

  ghost predicate AtHome(bins: Home -> set<Key>, s: Slot) {
    s.key in bins(s.home) && forall q | q in s.queue :: q in bins(s.home)
  }

  /** No key twice, and every slot and its replacements in its bin. */
  ghost predicate Sound(bins: Home -> set<Key>, slots: seq<Slot>) {
    && (forall i, j | 0 <= i < j < |slots| :: slots[i].key != slots[j].key)
    && (forall i | 0 <= i < |slots| :: AtHome(bins, slots[i]))
  }

  lemma {:induction false} ReplacementIsSound(bins: Home -> set<Key>, slots: seq<Slot>, number: int, added: Slot)
    requires Sound(bins, slots) && Replaces(slots, number, added)
    ensures Sound(bins, slots + [added])
  {
    assert AtHome(bins, slots[Find(slots, number)]);
    forall i | 0 <= i < |slots| ensures slots[i].key != added.key { assert slots[i].key in Keyed(slots); }
  }

  class Roll {
    ghost const bins: Home -> set<Key>
    var slots: seq<Slot>
    var selected: set<Key>

    ghost predicate Valid()
      reads this
    {
      Sound(bins, slots) && selected == Keyed(slots)
    }

    constructor (picks: seq<Pick>, ghost bins: Home -> set<Key>)
      requires forall i, j | 0 <= i < j < |picks| :: picks[i].key != picks[j].key
      requires forall i | 0 <= i < |picks| ::
                 picks[i].key in bins(picks[i].home) && forall q | q in picks[i].queue :: q in bins(picks[i].home)
      ensures Valid() && this.bins == bins && |slots| == |picks|
      ensures forall i | 0 <= i < |picks| ::
                slots[i] == Slot(Prefix(i + 1), picks[i].key, picks[i].home, picks[i].queue)
    {
      this.bins := bins;
      var all := seq(|picks|, i requires 0 <= i < |picks| =>
                                Slot(Prefix(i + 1), picks[i].key, picks[i].home, picks[i].queue));
      slots, selected := all, Keyed(all);
    }

    /** Replace one lost slot; it fails exactly when no slot has the number or its whole queue
        is selected, and then nothing changes. */
    method Replace(number: int) returns (ok: bool)
      requires Valid()
      modifies this
      ensures Valid()
      ensures ok <==> !Irreplaceable(old(slots), number)
      ensures !ok ==> slots == old(slots)
      ensures ok ==>
                && |slots| == |old(slots)| + 1 && slots[..|old(slots)|] == old(slots)
                && Replaces(old(slots), number, slots[|old(slots)|])
    {
      var i := Find(slots, number);
      if i == |slots| { return false; }
      var lost := slots[i];
      var key := FirstFree(lost.queue, selected);
      if key.None? { return false; }
      var added := Slot(Prefix(|slots| + 1), key.value, lost.home, Remaining(lost.queue, selected + {key.value}));
      ReplacementIsSound(bins, slots, number, added);
      KeyedMore(slots, added);
      selected := selected + {key.value};
      slots := slots + [added];
      ok := true;
    }

    /** Any sequence of replacements, up to the first that fails. */
    method ReplaceAll(numbers: seq<int>) returns (done: nat)
      requires Valid()
      modifies this
      ensures Valid() && done <= |numbers| && |slots| == |old(slots)| + done && slots[..|old(slots)|] == old(slots)
      ensures forall i | 0 <= i < done :: Chosen(slots, |old(slots)|, numbers, i)
      ensures done < |numbers| ==> Irreplaceable(slots, numbers[done])
    {
      ghost var start := |slots|;
      done := 0;
      while done < |numbers|
        invariant Valid() && done <= |numbers| && |slots| == start + done && slots[..start] == old(slots)
        invariant forall i | 0 <= i < done :: Chosen(slots, start, numbers, i)
      {
        ghost var before := slots;
        var ok := Replace(numbers[done]);
        if !ok { return; }
        assert slots == before + [slots[|before|]];
        ChosenMore(before, slots[|before|], start, numbers, done);
        done := done + 1;
      }
    }
  }

  /** Slot `start + i` replaces the one that `numbers[i]` named when it was made. */
  ghost predicate Chosen(slots: seq<Slot>, start: nat, numbers: seq<int>, i: nat) {
    start + i < |slots| && i < |numbers| && Replaces(slots[..start + i], numbers[i], slots[start + i])
  }

  lemma {:induction false} ChosenMore(slots: seq<Slot>, added: Slot, start: nat, numbers: seq<int>, done: nat)
    requires |slots| == start + done && done < |numbers| && Replaces(slots, numbers[done], added)
    requires forall i | 0 <= i < done :: Chosen(slots, start, numbers, i)
    ensures forall i | 0 <= i <= done :: Chosen(slots + [added], start, numbers, i)
    ensures (slots + [added])[..start] == slots[..start]
  {
    var all := slots + [added];
    forall i | 0 <= i <= done ensures Chosen(all, start, numbers, i) {
      assert all[..start + i] == slots[..start + i];
      if i < done { assert Chosen(slots, start, numbers, i); } else { assert slots[..start + i] == slots; }
    }
  }

  ghost function Bins(corpus: seq<Stratum>, closed: seq<Stratum>, fromCorpus: seq<Drawn>, fromClosed: seq<Drawn>)
    : Home -> set<Key>
    requires AllDrawn(corpus, fromCorpus) && AllDrawn(closed, fromClosed)
  {
    (h: Home) => if h.source == Corpus then BinOf(corpus, fromCorpus, h) else BinOf(closed, fromClosed, h)
  }

  lemma {:induction false} PartsDistinct(corpus: seq<Stratum>, closed: seq<Stratum>)
    requires GloballyDistinct(corpus + closed)
    ensures GloballyDistinct(corpus) && GloballyDistinct(closed)
    ensures forall a, b | 0 <= a < |corpus| && 0 <= b < |closed| :: Apart(corpus[a].members, closed[b].members)
  {
    var all, n := corpus + closed, |corpus|;
    forall a | 0 <= a < n ensures all[a] == corpus[a] {}
    forall b | 0 <= b < |closed| ensures DistinctKeys(closed[b].members) { assert all[n + b] == closed[b]; }
    forall a, b | 0 <= a < b < |closed| ensures Apart(closed[a].members, closed[b].members) {
      assert all[n + a] == closed[a] && all[n + b] == closed[b] && Apart(all[n + a].members, all[n + b].members);
    }
    forall a, b | 0 <= a < n && 0 <= b < |closed| ensures Apart(corpus[a].members, closed[b].members) {
      assert all[n + b] == closed[b] && Apart(all[a].members, all[n + b].members);
    }
  }

  /** The picks of one source in the order of their keys. */
  method SortedPicks(strata: seq<Stratum>, source: Source) returns (r: Option<seq<Pick>>, ghost drawn: seq<Drawn>)
    requires GloballyDistinct(strata) && forall a | 0 <= a < |strata| :: strata[a].slots >= 1
    ensures r.None? <==> exists a | 0 <= a < |strata| :: |strata[a].members| < strata[a].slots
    ensures r.Some? ==> AllDrawn(strata, drawn) && ByKey(r.value) && |r.value| == Total(strata)
    ensures r.Some? ==>
              forall i | 0 <= i < |r.value| ::
                r.value[i].home.source == source && IsDraw(strata, drawn, r.value[i])
  {
    var picks;
    picks, drawn := DrawStrata(strata, source);
    if picks.None? { return None, drawn; }
    forall i, j | 0 <= i < j < |picks.value| ensures picks.value[i].key != picks.value[j].key {
      DrawsDiffer(strata, drawn, picks.value[i], picks.value[j]);
    }
    var sorted := SortPicks(picks.value);
    forall i | 0 <= i < |sorted| ensures sorted[i].home.source == source && IsDraw(strata, drawn, sorted[i]) {
      assert sorted[i] in multiset(picks.value);
    }
    r := Some(sorted);
  }

  /** Slot `i` is the draw of a bin of its source, and has its place's number. */
  ghost predicate EnrolledAt(corpus: seq<Stratum>, closed: seq<Stratum>, fromCorpus: seq<Drawn>,
                             fromClosed: seq<Drawn>, slots: seq<Slot>, i: nat)
  {
    i < |slots| ==>
      && slots[i].number == Prefix(i + 1)
      && slots[i].home.source == (if i < Total(corpus) then Corpus else Closed)
      && var pick := Pick(slots[i].key, slots[i].home, slots[i].queue);
         if i < Total(corpus) then IsDraw(corpus, fromCorpus, pick) else IsDraw(closed, fromClosed, pick)
  }

  /** First the corpus, then the closed set, each in the order of its keys, and no bin twice. */
  ghost predicate Enrolled(corpus: seq<Stratum>, closed: seq<Stratum>, fromCorpus: seq<Drawn>,
                           fromClosed: seq<Drawn>, slots: seq<Slot>)
  {
    && |slots| == Total(corpus) + Total(closed)
    && (forall i: nat :: EnrolledAt(corpus, closed, fromCorpus, fromClosed, slots, i))
    && (forall i, j | 0 <= i < j < |slots| && slots[i].home.source == slots[j].home.source ::
          slots[i].key < slots[j].key)
    && (forall i, j | 0 <= i < j < |slots| :: slots[i].home != slots[j].home)
  }

  lemma {:induction false} EnrolledInOrder(corpus: seq<Stratum>, closed: seq<Stratum>, fromCorpus: seq<Drawn>,
                                           fromClosed: seq<Drawn>, first: seq<Pick>, second: seq<Pick>,
                                           slots: seq<Slot>)
    requires ByKey(first) && ByKey(second) && |first| == Total(corpus) && |second| == Total(closed)
    requires forall i | 0 <= i < |first| :: first[i].home.source == Corpus && IsDraw(corpus, fromCorpus, first[i])
    requires forall i | 0 <= i < |second| :: second[i].home.source == Closed && IsDraw(closed, fromClosed, second[i])
    requires |slots| == |first + second|
    requires forall i | 0 <= i < |slots| ::
               var p := (first + second)[i]; slots[i] == Slot(Prefix(i + 1), p.key, p.home, p.queue)
    ensures Enrolled(corpus, closed, fromCorpus, fromClosed, slots)
  {
    var picks, n := first + second, |first|;
    forall i: nat ensures EnrolledAt(corpus, closed, fromCorpus, fromClosed, slots, i) {
      if i < |slots| { assert picks[i] == if i < n then first[i] else second[i - n]; }
    }
    forall i, j | 0 <= i < j < |slots| && slots[i].home.source == slots[j].home.source
      ensures slots[i].key < slots[j].key
    {
      assert EnrolledAt(corpus, closed, fromCorpus, fromClosed, slots, i);
      assert EnrolledAt(corpus, closed, fromCorpus, fromClosed, slots, j);
      if j < n { assert first[i].key < first[j].key; } else { assert second[i - n].key < second[j - n].key; }
    }
    forall i, j | 0 <= i < j < |slots| ensures slots[i].home != slots[j].home {
      assert EnrolledAt(corpus, closed, fromCorpus, fromClosed, slots, i);
      assert EnrolledAt(corpus, closed, fromCorpus, fromClosed, slots, j);
    }
  }

  /** The whole selection: the picks of the corpus by key, then those of the closed set, numbered.
      With globally distinct keys it is a valid roll over the bins drawn from. */
  method Enrol(corpus: seq<Stratum>, closed: seq<Stratum>)
    returns (r: Option<Roll>, ghost fromCorpus: seq<Drawn>, ghost fromClosed: seq<Drawn>)
    requires GloballyDistinct(corpus + closed)
    requires forall a | 0 <= a < |corpus + closed| :: (corpus + closed)[a].slots >= 1
    ensures r.None? <==>
            exists a | 0 <= a < |corpus + closed| :: |(corpus + closed)[a].members| < (corpus + closed)[a].slots
    ensures r.Some? ==> AllDrawn(corpus, fromCorpus) && AllDrawn(closed, fromClosed)
    ensures r.Some? ==>
              && fresh(r.value) && r.value.Valid()
              && Enrolled(corpus, closed, fromCorpus, fromClosed, r.value.slots)
              && r.value.bins == Bins(corpus, closed, fromCorpus, fromClosed)
  {
    PartsDistinct(corpus, closed);
    ghost var all := corpus + closed;
    assert forall a | 0 <= a < |corpus| :: corpus[a] == all[a];
    assert forall b | 0 <= b < |closed| :: closed[b] == all[|corpus| + b];
    fromClosed := [];
    var first, second;
    first, fromCorpus := SortedPicks(corpus, Corpus);
    if first.None? { return None, fromCorpus, fromClosed; }
    second, fromClosed := SortedPicks(closed, Closed);
    if second.None? { return None, fromCorpus, fromClosed; }
    var picks := first.value + second.value;
    ghost var bins := Bins(corpus, closed, fromCorpus, fromClosed);
    JoinedPicks(corpus, closed, fromCorpus, fromClosed, first.value, second.value);
    var roll := new Roll(picks, bins);
    EnrolledInOrder(corpus, closed, fromCorpus, fromClosed, first.value, second.value, roll.slots);
    r := Some(roll);
  }

  lemma {:induction false} JoinedPicks(corpus: seq<Stratum>, closed: seq<Stratum>, fromCorpus: seq<Drawn>,
                                       fromClosed: seq<Drawn>, first: seq<Pick>, second: seq<Pick>)
    requires AllDrawn(corpus, fromCorpus) && AllDrawn(closed, fromClosed) && ByKey(first) && ByKey(second)
    requires forall a, b | 0 <= a < |corpus| && 0 <= b < |closed| :: Apart(corpus[a].members, closed[b].members)
    requires forall i | 0 <= i < |first| :: first[i].home.source == Corpus && IsDraw(corpus, fromCorpus, first[i])
    requires forall i | 0 <= i < |second| :: second[i].home.source == Closed && IsDraw(closed, fromClosed, second[i])
    ensures var picks, bins := first + second, Bins(corpus, closed, fromCorpus, fromClosed);
            && (forall i, j | 0 <= i < j < |picks| :: picks[i].key != picks[j].key)
            && (forall i | 0 <= i < |picks| ::
                  picks[i].key in bins(picks[i].home) && forall q | q in picks[i].queue :: q in bins(picks[i].home))
  {
    var picks, n := first + second, |first|;
    forall i | 0 <= i < |picks|
      ensures if i < n then i < n && IsDraw(corpus, fromCorpus, picks[i]) else IsDraw(closed, fromClosed, picks[i])
      ensures var bins := Bins(corpus, closed, fromCorpus, fromClosed);
              picks[i].key in bins(picks[i].home) && forall q | q in picks[i].queue :: q in bins(picks[i].home)
    {
      if i < n {
        assert picks[i] == first[i];
        DrawInBin(corpus, fromCorpus, picks[i]);
      } else {
        assert picks[i] == second[i - n];
        DrawInBin(closed, fromClosed, picks[i]);
      }
    }
    forall i, j | 0 <= i < j < |picks| ensures picks[i].key != picks[j].key {
      if j < n {
        assert first[i].key < first[j].key;
      } else if i >= n {
        assert second[i - n].key < second[j - n].key;
      } else {
        DrawInBin(corpus, fromCorpus, picks[i]);
        DrawInBin(closed, fromClosed, picks[j]);
        assert Apart(corpus[picks[i].home.stratum].members, closed[picks[j].home.stratum].members);
      }
    }
  }
}
