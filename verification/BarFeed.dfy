/** What a bar file may contain: the reference validation, which reads all rows first and
    compares neighbours afterwards. */
module BarFeed {
  import opened BarRecords
  import opened Options

  const MAX_COUNT := 0x7FFF_FFFF

  datatype Defect =
    | RowDefect(code: nat)            // refused while reading: columns, numbers, ranges, encoding, input I/O
    | NoBars
    | TooManyBars
    | OutOfOrder
    | NotIncreasing(line: nat)
    | CloseTimeInvalid(line: nat)

  /** A feed bar against the next one. */
  function PairError(a: Row, b: Row): Option<Defect> {
    if b.stamp <= a.stamp then Some(NotIncreasing(b.line))
    else if a.closeStamp <= a.stamp || a.closeStamp > b.stamp then Some(CloseTimeInvalid(a.line))
    else None
  }

  /** The first defective pair, reading from the top. */
  function FirstPair(rows: seq<Row>): Option<Defect> {
    if |rows| < 2 then None
    else if PairError(rows[0], rows[1]).Some? then PairError(rows[0], rows[1])
    else FirstPair(rows[1..])
  }

  /** Chart rows must increase; the number of leading rows that do. */
  function IncreasingPrefix(rows: seq<Row>): nat {
    if |rows| < 2 then |rows|
    else if rows[1].stamp <= rows[0].stamp then 1 else 1 + IncreasingPrefix(rows[1..])
  }

  /** `rows` are the rows that pass the first-pass checks, `tail` the defect that ended the
      reading, if any. A feed is checked in two passes: every row, then every pair and the
      last close. A chart reports the first order defect it meets. */
  function Reference(rows: seq<Row>, tail: Option<Defect>, feed: bool): Option<Defect> {
    if rows == [] then (if tail.Some? then tail else Some(NoBars))
    else if !feed && IncreasingPrefix(rows) < |rows| && IncreasingPrefix(rows) <= MAX_COUNT then Some(OutOfOrder)
    else if |rows| > MAX_COUNT then Some(TooManyBars)
    else if tail.Some? then tail
    else if !feed then None
    else if FirstPair(rows).Some? then FirstPair(rows)
    else if rows[|rows| - 1].closeStamp <= rows[|rows| - 1].stamp then Some(CloseTimeInvalid(rows[|rows| - 1].line))
    else None
  }

  /** Every bar closes after it opens and not after the next one opens. */
  ghost predicate WellTimed(rows: seq<Row>) {
    && (forall i | 0 <= i < |rows| :: rows[i].stamp < rows[i].closeStamp)
    && (forall i | 0 <= i < |rows| - 1 :: rows[i].closeStamp <= rows[i + 1].stamp)
  }

  lemma {:induction false} PairsAreWellTimed(rows: seq<Row>)
    requires rows != []
    ensures FirstPair(rows).None? && rows[|rows| - 1].stamp < rows[|rows| - 1].closeStamp <==> WellTimed(rows)
  {
    if |rows| > 1 {
      PairsAreWellTimed(rows[1..]);
      assert rows[1..][|rows| - 2] == rows[|rows| - 1];
      if WellTimed(rows[1..]) && PairError(rows[0], rows[1]).None? {
        forall i | 0 <= i < |rows| - 1 ensures rows[i].closeStamp <= rows[i + 1].stamp {
          if i > 0 { assert rows[1..][i - 1] == rows[i] && rows[1..][i] == rows[i + 1]; }
        }
        forall i | 0 <= i < |rows| ensures rows[i].stamp < rows[i].closeStamp {
          if i > 0 { assert rows[1..][i - 1] == rows[i]; }
        }
      }
      if WellTimed(rows) {
        assert WellTimed(rows[1..]) by {
          forall i | 0 <= i < |rows| - 1 ensures rows[1..][i] == rows[i + 1] {}
        }
      }
    }
  }

  /** A feed without reading defects is accepted exactly when it is nonempty, not too long,
      and open < close <= next open holds throughout. */
  lemma {:induction false} FeedAcceptance(rows: seq<Row>, tail: Option<Defect>)
    ensures Reference(rows, tail, true).None? <==>
            tail.None? && 0 < |rows| <= MAX_COUNT && WellTimed(rows)
  {
    if rows != [] { PairsAreWellTimed(rows); }
  }

  ghost predicate StrictlyIncreasing(rows: seq<Row>) {
    forall i | 0 <= i < |rows| - 1 :: rows[i].stamp < rows[i + 1].stamp
  }

  lemma {:induction false} PrefixIncreases(rows: seq<Row>)
    ensures IncreasingPrefix(rows) <= |rows|
    ensures IncreasingPrefix(rows) == |rows| <==> StrictlyIncreasing(rows)
  {
    if |rows| >= 2 && rows[0].stamp < rows[1].stamp {
      PrefixIncreases(rows[1..]);
      if StrictlyIncreasing(rows) {
        forall i | 0 <= i < |rows| - 2 ensures rows[1..][i].stamp < rows[1..][i + 1].stamp {
          assert rows[i + 1].stamp < rows[i + 2].stamp;
        }
      }
      if StrictlyIncreasing(rows[1..]) {
        forall i | 0 <= i < |rows| - 1 ensures rows[i].stamp < rows[i + 1].stamp {
          if i > 0 { assert rows[1..][i - 1].stamp < rows[1..][i].stamp; }
        }
      }
    }
  }

  lemma {:induction false} ChartAcceptance(rows: seq<Row>, tail: Option<Defect>)
    ensures Reference(rows, tail, false).None? <==>
            tail.None? && 0 < |rows| <= MAX_COUNT && StrictlyIncreasing(rows)
  {
    PrefixIncreases(rows);
  }

  // ----- which defect is reported

  /** Bar `i` and the next one break open < close <= next open. */
  predicate Breaks(rows: seq<Row>, i: nat) {
    i + 1 < |rows| && !(rows[i].stamp < rows[i].closeStamp <= rows[i + 1].stamp)
  }

  ghost predicate BreaksFirst(rows: seq<Row>, i: nat) {
    Breaks(rows, i) && forall j: nat | j < i :: !Breaks(rows, j)
  }

  predicate Falls(rows: seq<Row>, i: nat) {
    i + 1 < |rows| && rows[i + 1].stamp <= rows[i].stamp
  }

  /** Too many rows come before a defect of the reading, and that before any pair. Of the pairs the
      first one is named: by the later line when the open time does not increase, and by the earlier
      line when the close time is wrong. The last close comes last. */
  ghost predicate FeedDefect(rows: seq<Row>, tail: Option<Defect>, d: Defect)
    requires rows != []
  {
    var last := rows[|rows| - 1];
    if |rows| > MAX_COUNT then d == TooManyBars
    else if tail.Some? then d == tail.value
    else
      || (exists i: nat :: BreaksFirst(rows, i) &&
            d == if rows[i + 1].stamp <= rows[i].stamp then NotIncreasing(rows[i + 1].line)
                 else CloseTimeInvalid(rows[i].line))
      || ((forall i: nat :: !Breaks(rows, i)) && last.closeStamp <= last.stamp && d == CloseTimeInvalid(last.line))
  }

  /** A chart stops at the first time that does not increase or at the first row too many. */
  ghost predicate ChartDefect(rows: seq<Row>, tail: Option<Defect>, d: Defect) {
    if exists i: nat :: i < MAX_COUNT && Falls(rows, i) then d == OutOfOrder
    else if |rows| > MAX_COUNT then d == TooManyBars
    else tail == Some(d)
  }

  ghost predicate DefectIs(rows: seq<Row>, tail: Option<Defect>, feed: bool, d: Defect) {
    if rows == [] then d == (if tail.Some? then tail.value else NoBars)
    else if feed then FeedDefect(rows, tail, d)
    else ChartDefect(rows, tail, d)
  }

  /** The first defective pair, by its place. */
  lemma {:induction false} FirstPairIs(rows: seq<Row>)
    ensures FirstPair(rows).None? <==> forall i: nat :: !Breaks(rows, i)
    ensures FirstPair(rows).Some? ==>
            exists i: nat :: BreaksFirst(rows, i) &&
              FirstPair(rows).value == if rows[i + 1].stamp <= rows[i].stamp then NotIncreasing(rows[i + 1].line)
                                       else CloseTimeInvalid(rows[i].line)
  {
    if |rows| >= 2 {
      if Breaks(rows, 0) {
        assert BreaksFirst(rows, 0);
      } else {
        FirstPairIs(rows[1..]);
        forall i: nat ensures Breaks(rows[1..], i) <==> Breaks(rows, i + 1) {}
        forall i: nat | i > 0 ensures Breaks(rows, i) <==> Breaks(rows[1..], i - 1) {}
        if FirstPair(rows).Some? {
          var i: nat :| BreaksFirst(rows[1..], i) &&
            FirstPair(rows[1..]).value == if rows[1..][i + 1].stamp <= rows[1..][i].stamp
                                          then NotIncreasing(rows[1..][i + 1].line)
                                          else CloseTimeInvalid(rows[1..][i].line);
          ShiftedFirst(rows, i);
          assert BreaksFirst(rows, i + 1);
        }
      }
    }
  }

  lemma {:induction false} ShiftedFirst(rows: seq<Row>, i: nat)
    requires rows != [] && !Breaks(rows, 0) && BreaksFirst(rows[1..], i)
    ensures BreaksFirst(rows, i + 1)
  {
    forall j: nat | j < i + 1 ensures !Breaks(rows, j) {
      if j > 0 { assert !Breaks(rows[1..], j - 1); }
    }
  }

  lemma {:induction false} FirstIsUnique(rows: seq<Row>, i: nat, j: nat)
    requires BreaksFirst(rows, i) && BreaksFirst(rows, j)
    ensures i == j
  {
  }

  /** The leading rows that increase end just before the first that does not. */
  lemma {:induction false} PrefixEndsAt(rows: seq<Row>, m: nat)
    ensures IncreasingPrefix(rows) < |rows| && IncreasingPrefix(rows) <= m <==> exists i: nat :: i < m && Falls(rows, i)
    decreases |rows|
  {
    if |rows| >= 2 {
      if Falls(rows, 0) {
      } else if m > 0 {
        PrefixEndsAt(rows[1..], m - 1);
        if i: nat :| i < m && Falls(rows, i) { assert Falls(rows[1..], i - 1); }
        if i: nat :| i < m - 1 && Falls(rows[1..], i) { assert Falls(rows, i + 1); }
      }
    }
  }

  /** The reference reports exactly the defect the rows call for. */
  lemma {:induction false} ReferenceIs(rows: seq<Row>, tail: Option<Defect>, feed: bool, d: Defect)
    ensures Reference(rows, tail, feed) == Some(d) <==> DefectIs(rows, tail, feed, d)
  {
    if feed {
      FirstPairIs(rows);
      forall i: nat, j: nat | BreaksFirst(rows, i) && BreaksFirst(rows, j) ensures i == j {
        FirstIsUnique(rows, i, j);
      }
    } else {
      PrefixEndsAt(rows, MAX_COUNT);
    }
  }
}
