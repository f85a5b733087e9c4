/** Byte strings and the pieces a read loop receives them in. */
module Bytes {

  type byte = x: int | 0 <= x < 256

  /** A line, with its line feed. */
  const MAX_LINE_BYTES: nat := 1048576

  const LF: byte := 10

  predicate IsDigit(c: int) { 48 <= c <= 57 }

  function Decimal(n: nat): seq<byte> {
    if n < 10 then [48 + n] else Decimal(n / 10) + [48 + n % 10]
  }

  function Concat<T>(chunks: seq<seq<T>>): seq<T> {
    if chunks == [] then [] else chunks[0] + Concat(chunks[1..])
  }

  lemma {:induction false} ConcatAppend<T>(chunks: seq<seq<T>>, last: seq<T>)
    ensures Concat(chunks + [last]) == Concat(chunks) + last
  {
    if chunks == [] {
      assert chunks + [last] == [last];
      assert Concat([last]) == last + Concat([last][1..]);
    } else {
      assert (chunks + [last])[1..] == chunks[1..] + [last];
      ConcatAppend(chunks[1..], last);
    }
  }
}
