/** The constant-space trade folds of the converter and their meanings over the whole list of
    trades (docker/pineforge_sink_to_json.py), in exact arithmetic. */
module TradeSummary {
  import opened Arithmetic

  /** Wins, losses and even trades. */
  datatype Sign = Win | Loss | Even

  function SignOf(pnl: real): Sign { if pnl > 0.0 then Win else if pnl < 0.0 then Loss else Even }

  function Count(pnls: seq<real>, sign: Sign): nat {
    if pnls == [] then 0
    else Count(pnls[..|pnls| - 1], sign) + if SignOf(pnls[|pnls| - 1]) == sign then 1 else 0
  }

  /** Trades i up to j all have this sign. */
  predicate Run(pnls: seq<real>, sign: Sign, i: int, j: int) {
    0 <= i <= j <= |pnls| && forall k | i <= k < j :: SignOf(pnls[k]) == sign
  }

  /** Some contiguous run has this length and none is longer. */
  ghost predicate Longest(pnls: seq<real>, sign: Sign, length: nat) {
    && (exists i, j :: Run(pnls, sign, i, j) && j - i == length)
    && (forall i, j | Run(pnls, sign, i, j) :: j - i <= length)
  }

  /** The run at the end of the list. */
  predicate Trailing(pnls: seq<real>, sign: Sign, length: nat) {
    && length <= |pnls| && Run(pnls, sign, |pnls| - length, |pnls|)
    && (length < |pnls| ==> SignOf(pnls[|pnls| - length - 1]) != sign)
  }

  lemma {:induction false} TrailingStep(pnls: seq<real>, pnl: real, sign: Sign, length: nat)
    requires Trailing(pnls, sign, length)
    ensures Trailing(pnls + [pnl], sign, if SignOf(pnl) == sign then length + 1 else 0)
  {
  }

  lemma {:induction false} LongestStep(pnls: seq<real>, pnl: real, sign: Sign, trailing: nat, longest: nat)
    requires Trailing(pnls, sign, trailing) && Longest(pnls, sign, longest)
    ensures Longest(pnls + [pnl], sign, if SignOf(pnl) == sign && trailing + 1 > longest then trailing + 1 else longest)
  {
    var more, n := pnls + [pnl], |pnls|;
    assert forall k | 0 <= k < n :: more[k] == pnls[k];
    forall i, j | Run(more, sign, i, j)
      ensures j - i <= if SignOf(pnl) == sign && trailing + 1 > longest then trailing + 1 else longest
    {
      if j <= n {
        assert Run(pnls, sign, i, j);
      } else if i <= n {
        assert more[n] == pnl;
      }
    }
    if SignOf(pnl) == sign && trailing + 1 > longest {
      assert Run(more, sign, n - trailing, n + 1);
    } else {
      var i, j :| Run(pnls, sign, i, j) && j - i == longest;
      assert Run(more, sign, i, j);
    }
  }

  /** What the counters of one sign say. */
  ghost predicate Tracks(pnls: seq<real>, sign: Sign, count: nat, trailing: nat, longest: nat) {
    count == Count(pnls, sign) && Trailing(pnls, sign, trailing) && Longest(pnls, sign, longest)
  }

  lemma {:induction false} TracksStep(pnls: seq<real>, pnl: real, sign: Sign, count: nat, trailing: nat, longest: nat)
    requires Tracks(pnls, sign, count, trailing, longest)
    ensures if SignOf(pnl) == sign then
              Tracks(pnls + [pnl], sign, count + 1, trailing + 1,
                     if trailing + 1 > longest then trailing + 1 else longest)
            else Tracks(pnls + [pnl], sign, count, 0, longest)
  {
    CountMore(pnls, pnl, sign);
    TrailingStep(pnls, pnl, sign, trailing);
    LongestStep(pnls, pnl, sign, trailing, longest);
  }

  class TradeCounts {
    var n: nat
    var wins: nat
    var losses: nat
    var even: nat
    var streakWins: nat
    var streakLosses: nat
    var maxWins: nat
    var maxLosses: nat
    ghost var seen: seq<real>

    /** Every field is what its name says of the trades folded so far. */
    ghost predicate Valid()
      reads this
    {
      && n == |seen| && even == Count(seen, Even)
      && Tracks(seen, Win, wins, streakWins, maxWins) && Tracks(seen, Loss, losses, streakLosses, maxLosses)
    }

    constructor ()
      ensures Valid() && seen == []
    {
      n, wins, losses, even, streakWins, streakLosses, maxWins, maxLosses, seen := 0, 0, 0, 0, 0, 0, 0, 0, [];
      new;
      assert Run(seen, Win, 0, 0) && Run(seen, Loss, 0, 0);
    }

    method Fold(pnl: real)
      requires Valid()
      modifies this
      ensures Valid() && seen == old(seen) + [pnl]
    {
      TracksStep(seen, pnl, Win, wins, streakWins, maxWins);
      TracksStep(seen, pnl, Loss, losses, streakLosses, maxLosses);
      CountMore(seen, pnl, Even);
      n := n + 1;
      if pnl > 0.0 {
        wins := wins + 1;
        streakWins := streakWins + 1;
        streakLosses := 0;
        maxWins := if streakWins > maxWins then streakWins else maxWins;
      } else if pnl < 0.0 {
        losses := losses + 1;
        streakLosses := streakLosses + 1;
        streakWins := 0;
        maxLosses := if streakLosses > maxLosses then streakLosses else maxLosses;
      } else {
        even := even + 1;
        streakWins, streakLosses := 0, 0;
      }
      seen := seen + [pnl];
    }
  }

  datatype Trade = Trade(long: bool, pnl: real)

  function Pnls(trades: seq<Trade>): (r: seq<real>)
    ensures |r| == |trades| && forall i | 0 <= i < |r| :: r[i] == trades[i].pnl
  {
    seq(|trades|, i requires 0 <= i < |trades| => trades[i].pnl)
  }

  /** The results of one side, in order. */
  function Side(trades: seq<Trade>, long: bool): seq<real> {
    if trades == [] then []
    else
      var last := trades[|trades| - 1];
      Side(trades[..|trades| - 1], long) + if last.long == long then [last.pnl] else []
  }

  /** The running result before the first trade and after each. */
  function Levels(pnls: seq<real>): (r: seq<real>)
    ensures |r| == |pnls| + 1
  {
    if pnls == [] then [0.0]
    else
      var before := Levels(pnls[..|pnls| - 1]);
      before + [before[|before| - 1] + pnls[|pnls| - 1]]
  }

  predicate NotAbove(s: seq<real>, i: int, top: real) { 0 <= i < |s| ==> s[i] <= top }

  predicate NotBelow(s: seq<real>, i: int, bottom: real) { 0 <= i < |s| ==> s[i] >= bottom }

  ghost predicate Highest(s: seq<real>, top: real) {
    top in s && forall i :: NotAbove(s, i, top)
  }

  ghost predicate Lowest(s: seq<real>, bottom: real) {
    bottom in s && forall i :: NotBelow(s, i, bottom)
  }

  predicate Falls(levels: seq<real>, j: int, i: int, depth: real) {
    0 <= j <= i < |levels| && levels[i] - levels[j] == depth
  }

  predicate FallsAtMost(levels: seq<real>, j: int, i: int, depth: real) {
    0 <= j <= i < |levels| ==> levels[i] - levels[j] >= depth
  }

  /** The deepest fall from any level to the same or a later one. */
  ghost predicate Deepest(levels: seq<real>, depth: real) {
    && (exists j, i :: Falls(levels, j, i, depth))
    && (forall j, i :: FallsAtMost(levels, j, i, depth))
  }

  lemma {:induction false} PeakStep(s: seq<real>, x: real, top: real)
    requires Highest(s, top)
    ensures Highest(s + [x], RealMax(top, x))
  {
    var more, higher := s + [x], RealMax(top, x);
    assert more[|s|] == x && forall j | 0 <= j < |s| :: more[j] == s[j];
    forall i ensures NotAbove(more, i, higher) { assert NotAbove(s, i, top); }
  }

  lemma {:induction false} BottomStep(s: seq<real>, x: real, bottom: real)
    requires Lowest(s, bottom)
    ensures Lowest(s + [x], RealMin(bottom, x))
  {
    var more, lower := s + [x], RealMin(bottom, x);
    assert more[|s|] == x && forall j | 0 <= j < |s| :: more[j] == s[j];
    forall i ensures NotBelow(more, i, lower) { assert NotBelow(s, i, bottom); }
  }

  lemma {:induction false} DrawdownStep(levels: seq<real>, level: real, peak: real, depth: real)
    requires Highest(levels, peak) && Deepest(levels, depth)
    ensures Deepest(levels + [level], RealMin(depth, level - RealMax(peak, level)))
  {
    var more, n, top := levels + [level], |levels|, RealMax(peak, level);
    PeakStep(levels, level, peak);
    assert forall j | 0 <= j < n :: more[j] == levels[j];
    var k :| 0 <= k <= n && more[k] == top;
    assert Falls(more, k, n, level - top);
    var j, i :| Falls(levels, j, i, depth);
    assert Falls(more, j, i, depth);
    var deeper := RealMin(depth, level - top);
    forall j, i ensures FallsAtMost(more, j, i, deeper) {
      assert FallsAtMost(levels, j, i, depth) && NotAbove(more, j, top);
    }
  }

  ghost predicate Greatest(pnls: seq<real>, best: real) {
    if pnls == [] then best == 0.0 else Highest(pnls, best)
  }

  ghost predicate Least(pnls: seq<real>, worst: real) {
    if pnls == [] then worst == 0.0 else Lowest(pnls, worst)
  }

  lemma {:induction false} ExtremesStep(pnls: seq<real>, pnl: real, best: real, worst: real)
    requires Greatest(pnls, best) && Least(pnls, worst)
    ensures Greatest(pnls + [pnl], if |pnls| > 0 then RealMax(best, pnl) else pnl)
    ensures Least(pnls + [pnl], if |pnls| > 0 then RealMin(worst, pnl) else pnl)
  {
    if pnls == [] {
      assert pnls + [pnl] == [pnl] && [pnl][0] == pnl;
      assert Highest([pnl], pnl) && Lowest([pnl], pnl);
    } else {
      PeakStep(pnls, pnl, best);
      BottomStep(pnls, pnl, worst);
    }
  }

  /** The running result, its peak and its deepest fall. */
  ghost predicate Follows(pnls: seq<real>, cum: real, peak: real, depth: real) {
    cum == Levels(pnls)[|pnls|] && Highest(Levels(pnls), peak) && Deepest(Levels(pnls), depth)
  }

  lemma {:induction false} FollowsStep(pnls: seq<real>, pnl: real, cum: real, peak: real, depth: real)
    requires Follows(pnls, cum, peak, depth)
    ensures var level := cum + pnl;
            Follows(pnls + [pnl], level, RealMax(peak, level), RealMin(depth, level - RealMax(peak, level)))
  {
    var more := pnls + [pnl];
    assert more[..|pnls|] == pnls && more[|pnls|] == pnl;
    assert Levels(more) == Levels(pnls) + [cum + pnl];
    PeakStep(Levels(pnls), cum + pnl, peak);
    DrawdownStep(Levels(pnls), cum + pnl, peak, depth);
  }

  class Curve {
    var cum: real
    var peak: real
    var maxDrawdown: real
    var best: real
    var worst: real
    ghost var seen: seq<real>

    ghost predicate Valid()
      reads this
    {
      Follows(seen, cum, peak, maxDrawdown) && Greatest(seen, best) && Least(seen, worst)
    }

    constructor ()
      ensures Valid() && seen == []
    {
      cum, peak, maxDrawdown, best, worst, seen := 0.0, 0.0, 0.0, 0.0, 0.0, [];
      new;
      assert Falls(Levels(seen), 0, 0, 0.0) && Levels(seen)[0] == 0.0;
    }

    method Fold(pnl: real, n: nat)
      requires Valid() && n == |seen|
      modifies this
      ensures Valid() && seen == old(seen) + [pnl]
    {
      FollowsStep(seen, pnl, cum, peak, maxDrawdown);
      ExtremesStep(seen, pnl, best, worst);
      var high := if n > 0 then RealMax(best, pnl) else pnl;
      var low := if n > 0 then RealMin(worst, pnl) else pnl;
      var level := cum + pnl;
      var top := RealMax(peak, level);
      var depth := RealMin(maxDrawdown, level - top);
      ghost var more := seen + [pnl];
      assert Follows(more, level, top, depth) && Greatest(more, high) && Least(more, low);
      best, worst, cum, peak, maxDrawdown, seen := high, low, level, top, depth, more;
    }
  }

  ghost predicate Summarized(trades: seq<Trade>, all: TradeCounts, longs: TradeCounts, shorts: TradeCounts,
                             curve: Curve)
    reads all, longs, shorts, curve
  {
    && all.Valid() && longs.Valid() && shorts.Valid() && curve.Valid()
    && all.seen == curve.seen == Pnls(trades)
    && longs.seen == Side(trades, true) && shorts.seen == Side(trades, false)
  }

  lemma {:induction false} OneMore(trades: seq<Trade>, trade: Trade)
    ensures Pnls(trades + [trade]) == Pnls(trades) + [trade.pnl]
    ensures Side(trades + [trade], trade.long) == Side(trades, trade.long) + [trade.pnl]
    ensures Side(trades + [trade], !trade.long) == Side(trades, !trade.long)
  {
    assert (trades + [trade])[..|trades|] == trades;
  }

  lemma {:induction false} NextTrade(trades: seq<Trade>, i: nat)
    requires i < |trades|
    ensures Pnls(trades[..i + 1]) == Pnls(trades[..i]) + [trades[i].pnl]
    ensures Side(trades[..i + 1], trades[i].long) == Side(trades[..i], trades[i].long) + [trades[i].pnl]
    ensures Side(trades[..i + 1], !trades[i].long) == Side(trades[..i], !trades[i].long)
  {
    assert trades[..i] + [trades[i]] == trades[..i + 1];
    OneMore(trades[..i], trades[i]);
  }

  method Step(trades: seq<Trade>, i: nat, all: TradeCounts, longs: TradeCounts, shorts: TradeCounts, curve: Curve)
    requires i < |trades| && all != longs && all != shorts && longs != shorts
    requires Summarized(trades[..i], all, longs, shorts, curve)
    modifies all, longs, shorts, curve
    ensures Summarized(trades[..i + 1], all, longs, shorts, curve)
  {
    NextTrade(trades, i);
    var trade := trades[i];
    curve.Fold(trade.pnl, all.n);
    if trade.long { longs.Fold(trade.pnl); } else { shorts.Fold(trade.pnl); }
    all.Fold(trade.pnl);
  }

  method FoldAll(trades: seq<Trade>, all: TradeCounts, longs: TradeCounts, shorts: TradeCounts, curve: Curve)
    requires all != longs && all != shorts && longs != shorts && Summarized([], all, longs, shorts, curve)
    modifies all, longs, shorts, curve
    ensures Summarized(trades, all, longs, shorts, curve)
  {
    assert trades[..0] == [];
    for i := 0 to |trades|
      invariant Summarized(trades[..i], all, longs, shorts, curve)
    {
      Step(trades, i, all, longs, shorts, curve);
    }
    assert trades[..|trades|] == trades;
  }

  /** One pass over the trades. */
  method Summarize(trades: seq<Trade>)
    returns (all: TradeCounts, longs: TradeCounts, shorts: TradeCounts, curve: Curve)
    ensures Summarized(trades, all, longs, shorts, curve)
  {
    all := new TradeCounts();
    longs := new TradeCounts();
    shorts := new TradeCounts();
    curve := new Curve();
    FoldAll(trades, all, longs, shorts, curve);
  }

  /** The groups add up: each result is counted once overall and once on its side. */
  lemma {:induction false} SidesAddUp(trades: seq<Trade>, sign: Sign)
    ensures Count(Side(trades, true), sign) + Count(Side(trades, false), sign) == Count(Pnls(trades), sign)
    ensures |Side(trades, true)| + |Side(trades, false)| == |trades|
  {
    if trades != [] {
      var init, last := trades[..|trades| - 1], trades[|trades| - 1];
      SidesAddUp(init, sign);
      assert Pnls(trades)[..|trades| - 1] == Pnls(init);
      CountMore(Side(init, last.long), last.pnl, sign);
      assert Side(trades, !last.long) == Side(init, !last.long);
      assert Side(trades, last.long) == Side(init, last.long) + [last.pnl];
    }
  }

  lemma {:induction false} CountMore(pnls: seq<real>, pnl: real, sign: Sign)
    ensures Count(pnls + [pnl], sign) == Count(pnls, sign) + if SignOf(pnl) == sign then 1 else 0
  {
    assert (pnls + [pnl])[..|pnls|] == pnls;
  }

  lemma {:induction false} SignsAddUp(pnls: seq<real>)
    ensures Count(pnls, Win) + Count(pnls, Loss) + Count(pnls, Even) == |pnls|
  {
    if pnls != [] { SignsAddUp(pnls[..|pnls| - 1]); }
  }

  /** The trades of a sign, by their places. */
  function Places(pnls: seq<real>, sign: Sign): set<nat> {
    set i | 0 <= i < |pnls| && SignOf(pnls[i]) == sign
  }

  lemma {:induction false} CountIsPlaces(pnls: seq<real>, sign: Sign)
    ensures Count(pnls, sign) == |Places(pnls, sign)|
  {
    if pnls == [] {
      assert Places(pnls, sign) == {};
    } else {
      var n := |pnls| - 1;
      CountIsPlaces(pnls[..n], sign);
      assert Places(pnls, sign) == Places(pnls[..n], sign) + (if SignOf(pnls[n]) == sign then {n} else {});
    }
  }

  /** In plain numbers: a win is above zero, a loss below, and counts are how many there are. */
  lemma {:induction false} CountsAre(pnls: seq<real>)
    ensures Count(pnls, Win) == |set i | 0 <= i < |pnls| && pnls[i] > 0.0|
    ensures Count(pnls, Loss) == |set i | 0 <= i < |pnls| && pnls[i] < 0.0|
    ensures Count(pnls, Even) == |set i | 0 <= i < |pnls| && pnls[i] == 0.0|
  {
    CountIsPlaces(pnls, Win);
    CountIsPlaces(pnls, Loss);
    CountIsPlaces(pnls, Even);
    assert Places(pnls, Win) == set i | 0 <= i < |pnls| && pnls[i] > 0.0;
    assert Places(pnls, Loss) == set i | 0 <= i < |pnls| && pnls[i] < 0.0;
    assert Places(pnls, Even) == set i | 0 <= i < |pnls| && pnls[i] == 0.0;
  }

  /** Trades i up to j are all above zero, or all below. */
  predicate AllAbove(pnls: seq<real>, i: int, j: int) {
    0 <= i <= j <= |pnls| && forall k | i <= k < j :: pnls[k] > 0.0
  }

  predicate AllBelow(pnls: seq<real>, i: int, j: int) {
    0 <= i <= j <= |pnls| && forall k | i <= k < j :: pnls[k] < 0.0
  }

  /** The longest streaks, in plain numbers. */
  lemma {:induction false} StreaksAre(pnls: seq<real>, wins: nat, losses: nat)
    requires Longest(pnls, Win, wins) && Longest(pnls, Loss, losses)
    ensures exists i, j :: AllAbove(pnls, i, j) && j - i == wins
    ensures forall i, j | AllAbove(pnls, i, j) :: j - i <= wins
    ensures exists i, j :: AllBelow(pnls, i, j) && j - i == losses
    ensures forall i, j | AllBelow(pnls, i, j) :: j - i <= losses
  {
    forall i, j ensures Run(pnls, Win, i, j) <==> AllAbove(pnls, i, j) {}
    forall i, j ensures Run(pnls, Loss, i, j) <==> AllBelow(pnls, i, j) {}
  }

  /** How many trades are of a side. */
  function OfSide(trades: seq<Trade>, long: bool): nat {
    if trades == [] then 0
    else OfSide(trades[..|trades| - 1], long) + if trades[|trades| - 1].long == long then 1 else 0
  }

  /** Each trade's result stands on its own side, behind those of the earlier trades of that side. */
  lemma {:induction false} SideIs(trades: seq<Trade>, k: nat)
    requires k < |trades|
    ensures var side, i := Side(trades, trades[k].long), OfSide(trades[..k], trades[k].long);
            i < |side| && side[i] == trades[k].pnl
    decreases |trades|
  {
    var n := |trades| - 1;
    if k < n {
      SideIs(trades[..n], k);
      assert trades[..n][..k] == trades[..k];
    } else {
      SideSize(trades[..n], trades[k].long);
    }
  }

  lemma {:induction false} SideSize(trades: seq<Trade>, long: bool)
    ensures |Side(trades, long)| == OfSide(trades, long)
  {
    if trades != [] { SideSize(trades[..|trades| - 1], long); }
  }
}
