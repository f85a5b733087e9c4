/** The fixed-size records of a bar file: five binary64 bit patterns and a signed open time
    per bar, one signed close time per feed bar, all little-endian. */
module BarRecords {
  import opened Arithmetic
  import opened Bytes

  const BAR_SIZE := 48
  const CLOSE_SIZE := 8
  const WORD_BYTES: nat := 8
  const WORD := 0x1_0000_0000_0000_0000
  const HALF_WORD := 0x8000_0000_0000_0000

  /** A validated row. Prices and volume are carried as bit patterns, never recomputed. */
  datatype Row = Row(open: nat, high: nat, low: nat, close: nat, volume: nat, stamp: int, closeStamp: int, line: nat)

  predicate RowOk(r: Row) {
    && r.open < WORD && r.high < WORD && r.low < WORD && r.close < WORD && r.volume < WORD
    && -HALF_WORD <= r.stamp < HALF_WORD && -HALF_WORD <= r.closeStamp < HALF_WORD
  }

  function LittleEndian(x: nat, n: nat): (bs: seq<byte>)
    ensures |bs| == n
    decreases n
  {
    if n == 0 then [] else [x % 256] + LittleEndian(x / 256, n - 1)
  }

  function Number(bs: seq<byte>): nat {
    if bs == [] then 0 else bs[0] + 256 * Number(bs[1..])
  }

  function Power256(n: nat): nat { if n == 0 then 1 else 256 * Power256(n - 1) }

  lemma {:induction false} NumberOfLittleEndian(x: nat, n: nat)
    requires x < Power256(n)
    ensures Number(LittleEndian(x, n)) == x
    decreases n
  {
    if n > 0 {
      NumberOfLittleEndian(x / 256, n - 1);
      assert LittleEndian(x, n)[1..] == LittleEndian(x / 256, n - 1);
    }
  }

  /** Signed times travel as two's complement. */
  function Word(t: int): nat { t % WORD }

  function Signed(w: nat): int { if w < HALF_WORD then w else w - WORD }

  function PackBar(r: Row): (bs: seq<byte>)
    ensures |bs| == BAR_SIZE
  {
    LittleEndian(r.open, WORD_BYTES) + LittleEndian(r.high, WORD_BYTES) + LittleEndian(r.low, WORD_BYTES)
    + LittleEndian(r.close, WORD_BYTES) + LittleEndian(r.volume, WORD_BYTES) + LittleEndian(Word(r.stamp), WORD_BYTES)
  }

  function PackClose(r: Row): (bs: seq<byte>)
    ensures |bs| == CLOSE_SIZE
  {
    LittleEndian(Word(r.closeStamp), WORD_BYTES)
  }

  function PackAll(pack: Row -> seq<byte>, rows: seq<Row>): seq<byte> {
    if rows == [] then [] else PackAll(pack, rows[..|rows| - 1]) + pack(rows[|rows| - 1])
  }

  function PackBars(rows: seq<Row>): seq<byte> { PackAll(PackBar, rows) }

  function PackCloses(rows: seq<Row>): seq<byte> { PackAll(PackClose, rows) }

  lemma {:induction false} BarsSize(rows: seq<Row>)
    ensures |PackBars(rows)| == BAR_SIZE * |rows|
  {
    if rows != [] { BarsSize(rows[..|rows| - 1]); }
  }

  lemma {:induction false} ClosesSize(rows: seq<Row>)
    ensures |PackCloses(rows)| == CLOSE_SIZE * |rows|
  {
    if rows != [] { ClosesSize(rows[..|rows| - 1]); }
  }

  lemma {:induction false} WordFits(t: int)
    requires -HALF_WORD <= t < HALF_WORD
    ensures Word(t) < WORD && Signed(Word(t)) == t
  {
    if t < 0 { assert (t + WORD) % WORD == t + WORD; }
  }

  lemma {:induction false} WordBytes(x: nat)
    requires x < WORD
    ensures Number(LittleEndian(x, WORD_BYTES)) == x
  {
    assert Power256(8) == WORD by {
      assert Power256(1) == 0x100 && Power256(2) == 0x1_0000 && Power256(4) == 0x1_0000_0000;
    }
    NumberOfLittleEndian(x, WORD_BYTES);
  }

  /** One record read back: every field of the bar. */
  function UnpackBar(bs: seq<byte>): Row
    requires |bs| == BAR_SIZE
  {
    Row(Number(bs[..8]), Number(bs[8..16]), Number(bs[16..24]), Number(bs[24..32]), Number(bs[32..40]),
        Signed(Number(bs[40..48])), 0, 0)
  }

  lemma {:induction false} SplitWords(a: seq<byte>, b: seq<byte>, c: seq<byte>, d: seq<byte>, e: seq<byte>,
                                      f: seq<byte>)
    requires |a| == |b| == |c| == |d| == |e| == |f| == 8
    ensures var all := a + b + c + d + e + f;
            && all[..8] == a && all[8..16] == b && all[16..24] == c
            && all[24..32] == d && all[32..40] == e && all[40..48] == f
  {
  }

  lemma {:induction false} BarRoundTrip(r: Row)
    requires RowOk(r)
    ensures UnpackBar(PackBar(r)) == r.(closeStamp := 0, line := 0)
  {
    WordFits(r.stamp);
    SplitWords(LittleEndian(r.open, WORD_BYTES), LittleEndian(r.high, WORD_BYTES), LittleEndian(r.low, WORD_BYTES),
        LittleEndian(r.close, WORD_BYTES),
               LittleEndian(r.volume, WORD_BYTES), LittleEndian(Word(r.stamp), WORD_BYTES));
    WordBytes(r.open);
    WordBytes(r.high);
    WordBytes(r.low);
    WordBytes(r.close);
    WordBytes(r.volume);
    WordBytes(Word(r.stamp));
  }

  lemma {:induction false} RecordAt(pack: Row -> seq<byte>, rows: seq<Row>, i: nat)
    requires i < |rows|
    ensures var lo, hi := |PackAll(pack, rows[..i])|, |PackAll(pack, rows[..i + 1])|;
            lo <= hi <= |PackAll(pack, rows)| && PackAll(pack, rows)[lo..hi] == pack(rows[i])
  {
    var n := |rows| - 1;
    var front, back := PackAll(pack, rows[..n]), pack(rows[n]);
    if i < n {
      RecordAt(pack, rows[..n], i);
      assert rows[..n][..i] == rows[..i] && rows[..n][..i + 1] == rows[..i + 1];
      var lo, hi := |PackAll(pack, rows[..i])|, |PackAll(pack, rows[..i + 1])|;
      assert (front + back)[lo..hi] == front[lo..hi];
    } else {
      assert rows[..n + 1] == rows;
      assert (front + back)[|front|..] == back;
    }
  }

  /** The i-th record of a bar file and of a close file are those of the i-th row. */
  lemma {:induction false} FileRoundTrip(rows: seq<Row>, i: nat)
    requires i < |rows| && RowOk(rows[i])
    ensures |PackBars(rows)| == BAR_SIZE * |rows| && |PackCloses(rows)| == CLOSE_SIZE * |rows|
    ensures UnpackBar(PackBars(rows)[BAR_SIZE * i..BAR_SIZE * (i + 1)]) == rows[i].(closeStamp := 0, line := 0)
    ensures Signed(Number(PackCloses(rows)[CLOSE_SIZE * i..CLOSE_SIZE * (i + 1)])) == rows[i].closeStamp
  {
    BarsSize(rows);
    BarsSize(rows[..i]);
    BarsSize(rows[..i + 1]);
    ClosesSize(rows);
    ClosesSize(rows[..i]);
    ClosesSize(rows[..i + 1]);
    RecordAt(PackBar, rows, i);
    RecordAt(PackClose, rows, i);
    BarRoundTrip(rows[i]);
    WordFits(rows[i].closeStamp);
    WordBytes(Word(rows[i].closeStamp));
  }

  /** Byte i of a little-endian number is its i-th digit to the base 256. */
  lemma {:induction false} LittleEndianByte(x: nat, n: nat, i: nat)
    requires i < n
    ensures Power256(i) > 0 && LittleEndian(x, n)[i] == x / Power256(i) % 256
    decreases n
  {
    PowerPositive(i);
    if i > 0 {
      LittleEndianByte(x / 256, n - 1, i - 1);
      PowerPositive(i - 1);
      Divided(x, Power256(i - 1));
    }
  }

  lemma {:induction false} PowerPositive(i: nat)
    ensures Power256(i) > 0
  {
    if i > 0 { PowerPositive(i - 1); }
  }

  lemma {:induction false} Divided(x: nat, m: nat)
    requires m > 0
    ensures x / 256 / m == x / (256 * m)
  {
    var q, r := x / (256 * m), x % (256 * m);
    assert x == 256 * (m * q) + r;
    assert x / 256 == m * q + r / 256;
    assert r / 256 < m;
    Quotient(x / 256, m, q, r / 256);
  }

  /** The place of every byte in a record: open, high, low, close and volume as they stand, then the
      open time, all with the low byte first. */
  lemma {:induction false} BarBytes(r: Row, i: nat)
    requires RowOk(r) && i < 8
    ensures Power256(i) > 0
    ensures var bs, p := PackBar(r), Power256(i);
            && bs[i] == r.open / p % 256 && bs[8 + i] == r.high / p % 256 && bs[16 + i] == r.low / p % 256
            && bs[24 + i] == r.close / p % 256 && bs[32 + i] == r.volume / p % 256
            && bs[40 + i] == (if r.stamp < 0 then r.stamp + 0x1_0000_0000_0000_0000 else r.stamp) / p % 256
    ensures PackClose(r)[i] ==
            (if r.closeStamp < 0 then r.closeStamp + 0x1_0000_0000_0000_0000 else r.closeStamp) / Power256(i) % 256
  {
    WordIs(r.stamp);
    WordIs(r.closeStamp);
    LittleEndianByte(r.open, WORD_BYTES, i);
    LittleEndianByte(r.high, WORD_BYTES, i);
    LittleEndianByte(r.low, WORD_BYTES, i);
    LittleEndianByte(r.close, WORD_BYTES, i);
    LittleEndianByte(r.volume, WORD_BYTES, i);
    LittleEndianByte(Word(r.stamp), WORD_BYTES, i);
    LittleEndianByte(Word(r.closeStamp), WORD_BYTES, i);
  }

  lemma {:induction false} WordIs(t: int)
    requires -HALF_WORD <= t < HALF_WORD
    ensures Word(t) == if t < 0 then t + WORD else t
  {
    if t < 0 { assert (t + WORD) % WORD == t + WORD; }
  }
}
