/** Streaming decimal reader of the launcher's own procfs children file. */
module ProcChildren {
  import opened Bytes

  const INT_MAX := 0x7FFF_FFFF

  /** Numbers yielded before the end of the file, or before the fault that ended it. */
  datatype Listing = Listing(pids: seq<nat>, complete: bool)

  predicate IsSeparator(b: byte) { b == 9 || b == 10 || b == 32 }

  function Yield(pid: nat, rest: Listing): Listing {
    Listing([pid] + rest.pids, rest.complete)
  }

  /** The numbers of a text whose first word continues the digits read so far. */
  function Numbers(value: nat, digits: bool, text: seq<byte>): Listing
    decreases text
  {
    if text == [] then Listing(if digits then [value] else [], true)
    else if IsDigit(text[0]) then
      var longer := value * 10 + text[0] - 48;
      if longer > INT_MAX then Listing([], false) else Numbers(longer, true, text[1..])
    else if IsSeparator(text[0]) then
      if digits then Yield(value, Numbers(0, false, text[1..])) else Numbers(0, false, text[1..])
    else Listing([], false)
  }

  /** However the file is split into reads, exactly the numbers of its text come out. */
  method DirectChildren(chunks: seq<seq<byte>>) returns (r: Listing)
    ensures r == Numbers(0, false, Concat(chunks))
  {
    var value: nat, digits, pids: seq<nat> := 0, false, [];
    ghost var left := Concat(chunks);
    for i := 0 to |chunks|
      invariant left == Concat(chunks[i..])
      invariant !digits ==> value == 0
      invariant Numbers(0, false, Concat(chunks)) ==
                Listing(pids + Numbers(value, digits, left).pids, Numbers(value, digits, left).complete)
    {
      var chunk := chunks[i];
      ghost var after := Concat(chunks[i + 1..]);
      assert left == chunk + after;
      for j := 0 to |chunk|
        invariant left == chunk[j..] + after
        invariant !digits ==> value == 0
        invariant Numbers(0, false, Concat(chunks)) ==
                  Listing(pids + Numbers(value, digits, left).pids, Numbers(value, digits, left).complete)
      {
        var b := chunk[j];
        assert left[0] == b && left[1..] == chunk[j + 1..] + after;
        if IsDigit(b) {
          var digit := b - 48;
          if value > (INT_MAX - digit) / 10 {
            return Listing(pids, false);
          }
          value, digits := value * 10 + digit, true;
        } else if IsSeparator(b) {
          if digits {
            pids := pids + [value];
            value, digits := 0, false;
          }
        } else {
          return Listing(pids, false);
        }
        left := left[1..];
      }
      assert chunk[|chunk|..] + after == after;
    }
    if digits {
      pids := pids + [value];
    }
    r := Listing(pids, true);
  }

  /** The kernel's spelling: each number followed by a space. */
  function Render(pids: seq<nat>): seq<byte> {
    if pids == [] then [] else Decimal(pids[0]) + [32] + Render(pids[1..])
  }

  lemma {:induction false} NumbersOfDecimal(n: nat, rest: seq<byte>)
    requires n <= INT_MAX
    ensures Numbers(0, false, Decimal(n) + rest) == Numbers(n, true, rest)
  {
    if n < 10 {
      assert (Decimal(n) + rest)[1..] == rest;
    } else {
      var tail := [(48 + n % 10) as byte] + rest;
      assert Decimal(n) + rest == Decimal(n / 10) + tail;
      NumbersOfDecimal(n / 10, tail);
      assert tail[1..] == rest;
    }
  }

  /** Reading back what the kernel wrote lists exactly the children, in order. */
  lemma {:induction false} ListsEveryChild(pids: seq<nat>)
    requires forall i | 0 <= i < |pids| :: pids[i] <= INT_MAX
    ensures Numbers(0, false, Render(pids)) == Listing(pids, true)
  {
    if pids != [] {
      var rest := [32 as byte] + Render(pids[1..]);
      assert Render(pids) == Decimal(pids[0]) + rest;
      NumbersOfDecimal(pids[0], rest);
      assert rest[1..] == Render(pids[1..]);
      ListsEveryChild(pids[1..]);
    }
  }

  /** No listed number leaves the range of a process id, and a byte that is neither a decimal
      digit nor a space, tab or line feed is always a fault. */
  lemma {:induction false} ListingIsStrict(value: nat, digits: bool, text: seq<byte>)
    requires value <= INT_MAX
    ensures forall pid | pid in Numbers(value, digits, text).pids :: pid <= 2147483647
    ensures (exists b :: b in text && !(48 <= b <= 57) && b != 32 && b != 9 && b != 10) ==>
              !Numbers(value, digits, text).complete
    decreases text
  {
    if text != [] {
      var b := text[0];
      assert forall c | c in text :: c == b || c in text[1..];
      if IsDigit(b) {
        if value * 10 + b - 48 <= INT_MAX { ListingIsStrict(value * 10 + b - 48, true, text[1..]); }
      } else if IsSeparator(b) {
        ListingIsStrict(0, false, text[1..]);
      }
    }
  }

  // ----- any text of numbers and gaps

  /** A number in decimal digits, leading zeros allowed. */
  function WordValue(word: seq<byte>): int {
    if word == [] then 0 else WordValue(word[..|word| - 1]) * 10 + (word[|word| - 1] as int - 48)
  }

  ghost predicate IsWord(word: seq<byte>) {
    word != [] && (forall i | 0 <= i < |word| :: 48 <= word[i] <= 57) && 0 <= WordValue(word) <= 2147483647
  }

  ghost predicate IsGap(gap: seq<byte>) { forall i | 0 <= i < |gap| :: gap[i] == 32 || gap[i] == 9 || gap[i] == 10 }

  lemma {:induction false} WordGrows(word: seq<byte>)
    requires forall i | 0 <= i < |word| :: 48 <= word[i] <= 57
    ensures WordValue(word) >= 0
  {
    if word != [] { WordGrows(word[..|word| - 1]); }
  }

  lemma {:induction false} WordIsRead(word: seq<byte>, rest: seq<byte>)
    requires IsWord(word)
    ensures Numbers(0, false, word + rest) == Numbers(WordValue(word), true, rest)
    decreases |word|
  {
    var n := |word| - 1;
    var tail := [word[n]] + rest;
    assert word + rest == word[..n] + tail && tail[1..] == rest;
    WordGrows(word[..n]);
    if n > 0 { WordIsRead(word[..n], tail); } else { assert word[..n] == []; }
  }

  lemma {:induction false} GapIsSkipped(gap: seq<byte>, rest: seq<byte>)
    requires IsGap(gap)
    ensures Numbers(0, false, gap + rest) == Numbers(0, false, rest)
    decreases |gap|
  {
    if gap == [] {
      assert gap + rest == rest;
    } else {
      assert (gap + rest)[1..] == gap[1..] + rest;
      GapIsSkipped(gap[1..], rest);
    }
  }

  /** Words, each with a gap behind it. */
  function Spaced(words: seq<seq<byte>>, gaps: seq<seq<byte>>): seq<byte>
    requires |gaps| == |words|
  {
    if words == [] then [] else words[0] + (gaps[0] + Spaced(words[1..], gaps[1..]))
  }

  /** Whatever gaps separate them, exactly the numbers of the words are listed, in order. */
  lemma {:induction false} ListsEveryWord(lead: seq<byte>, words: seq<seq<byte>>, gaps: seq<seq<byte>>)
    requires |gaps| == |words| && IsGap(lead)
    requires forall i | 0 <= i < |words| :: IsWord(words[i]) && IsGap(gaps[i])
    requires forall i | 0 <= i < |words| - 1 :: gaps[i] != []
    ensures var r := Numbers(0, false, lead + Spaced(words, gaps));
            r.complete && |r.pids| == |words| && forall i | 0 <= i < |words| :: r.pids[i] == WordValue(words[i])
    decreases |words|
  {
    GapIsSkipped(lead, Spaced(words, gaps));
    if words != [] {
      var rest := Spaced(words[1..], gaps[1..]);
      WordIsRead(words[0], gaps[0] + rest);
      if gaps[0] == [] {
        assert gaps[0] + rest == [];
      } else {
        assert (gaps[0] + rest)[1..] == gaps[0][1..] + rest;
        ListsEveryWord(gaps[0][1..], words[1..], gaps[1..]);
      }
    }
  }
}
