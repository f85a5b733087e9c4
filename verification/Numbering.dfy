/** Finite sequences of numbers that use each of 0, 1, 2, ... once. */
module Numbering {

  function Elements(xs: seq<nat>): set<nat> { set x | x in xs }

  ghost predicate NoDuplicates(xs: seq<nat>) {
    forall i, j | 0 <= i < j < |xs| :: xs[i] != xs[j]
  }

  ghost predicate IsNumbering(xs: seq<nat>) {
    NoDuplicates(xs) && forall i | 0 <= i < |xs| :: xs[i] < |xs|
  }

  function Below(n: nat): set<nat> {
    if n == 0 then {} else Below(n - 1) + {n - 1}
  }

  lemma {:induction false} BelowIs(n: nat)
    ensures |Below(n)| == n && forall k: nat :: k in Below(n) <==> k < n
  {
    if n > 0 { BelowIs(n - 1); }
  }

  lemma {:induction false} CountDistinct(xs: seq<nat>)
    ensures |Elements(xs)| <= |xs|
    ensures |Elements(xs)| == |xs| <==> NoDuplicates(xs)
  {
    if xs != [] {
      var n := |xs| - 1;
      CountDistinct(xs[..n]);
      assert xs == xs[..n] + [xs[n]];
      assert Elements(xs) == Elements(xs[..n]) + {xs[n]};
      if xs[n] in xs[..n] {
        assert Elements(xs) == Elements(xs[..n]);
        var i :| 0 <= i < n && xs[..n][i] == xs[n];
        assert xs[i] == xs[n];
      } else {
        assert |Elements(xs)| == |Elements(xs[..n])| + 1;
        assert forall i | 0 <= i < n :: xs[i] in xs[..n];
      }
    }
  }

  lemma {:induction false} SubsetSize(a: set<nat>, b: set<nat>)
    requires a <= b && |a| == |b|
    ensures a == b
  {
    assert |b - a| == 0;
  }

  /** n distinct numbers below n leave none of them out. */
  lemma {:induction false} NumberingIsOnto(xs: seq<nat>, k: nat)
    requires IsNumbering(xs) && k < |xs|
    ensures k in xs
  {
    CountDistinct(xs);
    BelowIs(|xs|);
    SubsetSize(Elements(xs), Below(|xs|));
    assert k in Elements(xs);
  }
}
