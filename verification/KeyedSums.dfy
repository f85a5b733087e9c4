/** Sums of amounts grouped by a key, and how a grouped sum regroups a plain one. */
module KeyedSums {
  import opened Numbering

  datatype Entry = Entry(key: nat, amount: real)

  function Sum(xs: seq<real>): real {
    if xs == [] then 0.0 else Sum(xs[..|xs| - 1]) + xs[|xs| - 1]
  }

  function KeySum(es: seq<Entry>, key: nat): real {
    if es == [] then 0.0
    else var n := |es| - 1;
         KeySum(es[..n], key) + (if es[n].key == key then es[n].amount else 0.0)
  }

  /** The sum of all amounts, each multiplied by the rate of its key. */
  function Weighted(es: seq<Entry>, rate: nat -> real): real {
    if es == [] then 0.0
    else var n := |es| - 1;
         Weighted(es[..n], rate) + rate(es[n].key) * es[n].amount
  }

  function Terms(es: seq<Entry>, rate: nat -> real, keys: seq<nat>): seq<real> {
    seq(|keys|, i requires 0 <= i < |keys| => rate(keys[i]) * KeySum(es, keys[i]))
  }

  /** The same sum taken key by key. */
  function ByKey(es: seq<Entry>, rate: nat -> real, keys: seq<nat>): real {
    Sum(Terms(es, rate, keys))
  }

  lemma {:induction false} KeySumAppend(es: seq<Entry>, e: Entry, key: nat)
    ensures KeySum(es + [e], key) == KeySum(es, key) + (if e.key == key then e.amount else 0.0)
  {
    assert (es + [e])[..|es|] == es;
  }

  /** Two sums that differ at most at one place. */
  lemma {:induction false} SumDiffers(xs: seq<real>, ys: seq<real>, at: nat, d: real)
    requires |xs| == |ys| && forall i | 0 <= i < |xs| :: ys[i] == xs[i] + (if i == at then d else 0.0)
    ensures Sum(ys) == Sum(xs) + (if at < |xs| then d else 0.0)
  {
    if xs != [] { SumDiffers(xs[..|xs| - 1], ys[..|ys| - 1], at, d); }
  }

  /** `n` times `x`. */
  function Times(n: nat, x: real): real { if n == 0 then 0.0 else Times(n - 1, x) + x }

  lemma {:induction false} TimesIsProduct(n: nat, x: real)
    ensures Times(n, x) == n as real * x
  {
    if n > 0 { TimesIsProduct(n - 1, x); }
  }

  lemma {:induction false} SumAtMost(xs: seq<real>, ys: seq<real>, slack: real)
    requires |xs| == |ys| && forall i | 0 <= i < |xs| :: xs[i] <= ys[i] + slack
    ensures Sum(xs) <= Sum(ys) + Times(|xs|, slack)
  {
    if xs != [] { SumAtMost(xs[..|xs| - 1], ys[..|ys| - 1], slack); }
  }

  lemma {:induction false} SumOfZeros(xs: seq<real>)
    requires forall i | 0 <= i < |xs| :: xs[i] == 0.0
    ensures Sum(xs) == 0.0
  {
    if xs != [] { SumOfZeros(xs[..|xs| - 1]); }
  }

  lemma {:induction false} ByKeyAppend(es: seq<Entry>, e: Entry, rate: nat -> real, keys: seq<nat>, at: nat)
    requires NoDuplicates(keys) && at < |keys| && keys[at] == e.key
    ensures ByKey(es + [e], rate, keys) == ByKey(es, rate, keys) + rate(e.key) * e.amount
  {
    var xs := Terms(es, rate, keys);
    var ys := Terms(es + [e], rate, keys);
    var d := rate(e.key) * e.amount;
    forall i | 0 <= i < |keys| ensures ys[i] == xs[i] + (if i == at then d else 0.0) {
      KeySumAppend(es, e, keys[i]);
      assert rate(e.key) * (KeySum(es, e.key) + e.amount) == rate(e.key) * KeySum(es, e.key) + d;
    }
    SumDiffers(xs, ys, at, d);
  }

  /** Taking a weighted sum row by row or key by key makes no difference. */
  lemma {:induction false} Regroup(es: seq<Entry>, rate: nat -> real, keys: seq<nat>)
    requires NoDuplicates(keys) && forall i | 0 <= i < |es| :: es[i].key in keys
    ensures Weighted(es, rate) == ByKey(es, rate, keys)
  {
    if es == [] {
      SumOfZeros(Terms(es, rate, keys));
    } else {
      var n := |es| - 1;
      Regroup(es[..n], rate, keys);
      var at :| 0 <= at < |keys| && keys[at] == es[n].key;
      ByKeyAppend(es[..n], es[n], rate, keys, at);
      assert es == es[..n] + [es[n]];
    }
  }

  /** The amount per unit of a whole. */
  function Rate(amount: real, whole: real): real { if whole == 0.0 then 0.0 else amount / whole }

  lemma {:induction false} RateTimesWhole(amount: real, whole: real)
    requires whole != 0.0
    ensures Rate(amount, whole) * whole == amount
  {
  }

  /** If each key's sum is its whole, spreading amounts over the entries in proportion and
      summing by key gives back the sum of the amounts. */
  lemma {:induction false} SumByKey(es: seq<Entry>, rate: nat -> real, keys: seq<nat>, amounts: seq<real>,
                                    wholes: seq<real>)
    requires |amounts| == |wholes| == |keys|
    requires forall i | 0 <= i < |keys| :: KeySum(es, keys[i]) == wholes[i] && wholes[i] != 0.0
    requires forall i | 0 <= i < |keys| :: rate(keys[i]) == Rate(amounts[i], wholes[i])
    ensures ByKey(es, rate, keys) == Sum(amounts)
  {
    var terms := Terms(es, rate, keys);
    forall i | 0 <= i < |keys| ensures terms[i] == amounts[i] {
      RateTimesWhole(amounts[i], wholes[i]);
    }
    assert terms == amounts;
  }

  function Unit(key: nat): real { 1.0 }

  /** Bounds on each key's sum, up to a slack each, bound the whole. */
  lemma {:induction false} SumCovers(es: seq<Entry>, keys: seq<nat>, amounts: seq<real>, slack: real)
    requires |amounts| == |keys| && forall i | 0 <= i < |keys| :: amounts[i] <= KeySum(es, keys[i]) + slack
    ensures Sum(amounts) <= ByKey(es, Unit, keys) + Times(|keys|, slack)
  {
    SumAtMost(amounts, Terms(es, Unit, keys), slack);
  }

  lemma {:induction false} SumCovered(es: seq<Entry>, keys: seq<nat>, amounts: seq<real>)
    requires |amounts| == |keys| && forall i | 0 <= i < |keys| :: KeySum(es, keys[i]) <= amounts[i]
    ensures ByKey(es, Unit, keys) <= Sum(amounts)
  {
    SumAtMost(Terms(es, Unit, keys), amounts, 0.0);
    TimesIsProduct(|keys|, 0.0);
  }
}
