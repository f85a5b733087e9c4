/** Smaller and larger of two numbers, and quotients. */
module Arithmetic {

  function Min(a: int, b: int): int { if a < b then a else b }

  function Max(a: int, b: int): int { if a < b then b else a }

  function RealMin(a: real, b: real): real { if a <= b then a else b }

  function RealMax(a: real, b: real): real { if a < b then b else a }

  /** A quotient by its remainder. */
  lemma {:induction false} Quotient(x: int, k: int, q: int, r: int)
    requires k > 0 && 0 <= r < k && x == k * q + r
    ensures x / k == q
  {
    var d := x / k - q;
    assert k * d == r - x % k;
    if d >= 1 { Grows(k, d); } else if d <= -1 { Grows(k, -d); }
  }

  lemma {:induction false} Grows(k: int, d: int)
    requires k > 0 && d >= 1
    ensures k * d >= k
  {
  }
}
