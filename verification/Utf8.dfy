/** UTF-8 without overlong forms or surrogates (RFC 3629 section 4), as Python's strict codec. */
module Utf8 {
  import opened Bytes
  import opened Json
  import opened Options

  function Encode(c: point): (r: seq<byte>)
    requires !IsSurrogate(c)
    ensures r != []
  {
    if c < 0x80 then [c]
    else if c < 0x800 then [0xC0 + c / 0x40, 0x80 + c % 0x40]
    else if c < 0x10000 then [0xE0 + c / 0x1000, 0x80 + c / 0x40 % 0x40, 0x80 + c % 0x40]
    else [0xF0 + c / 0x40000, 0x80 + c / 0x1000 % 0x40, 0x80 + c / 0x40 % 0x40, 0x80 + c % 0x40]
  }

  function EncodeAll(s: Text): seq<byte>
    requires forall i | 0 <= i < |s| :: !IsSurrogate(s[i])
  {
    if s == [] then [] else Encode(s[0]) + EncodeAll(s[1..])
  }

  /** How many bytes the first one announces; 0 for a byte that starts nothing. */
  function Width(b: byte): nat {
    if b < 0x80 then 1 else if 0xC2 <= b < 0xE0 then 2 else if 0xE0 <= b < 0xF0 then 3
    else if 0xF0 <= b < 0xF5 then 4 else 0
  }

  predicate Trails(s: seq<byte>, n: nat)
    requires n <= |s|
  {
    forall i | 1 <= i < n :: 0x80 <= s[i] < 0xC0
  }

  /** What a byte carries beyond its marker bits. */
  function Bits(b: byte, marker: int): int { b as int - marker }

  function Value(s: seq<byte>, n: nat): int
    requires n <= |s|
  {
    if n == 1 then s[0]
    else if n == 2 then Bits(s[0], 0xC0) * 0x40 + Bits(s[1], 0x80)
    else if n == 3 then (Bits(s[0], 0xE0) * 0x40 + Bits(s[1], 0x80)) * 0x40 + Bits(s[2], 0x80)
    else if n == 4 then
      ((Bits(s[0], 0xF0) * 0x40 + Bits(s[1], 0x80)) * 0x40 + Bits(s[2], 0x80)) * 0x40 + Bits(s[3], 0x80)
    else -1
  }

  predicate Shortest(c: int, n: nat) {
    && 0 <= c < 0x110000 && !(0xD800 <= c <= 0xDFFF)
    && (n == 3 ==> c >= 0x800) && (n == 4 ==> c >= 0x10000)
  }

  function Decode(s: seq<byte>): Option<Text>
    decreases |s|
  {
    if s == [] then Some([])
    else
      var n := Width(s[0]);
      if n == 0 || n > |s| || !Trails(s, n) || !Shortest(Value(s, n), n) then None
      else
        match Decode(s[n..])
        case None => None
        case Some(rest) => Some([Value(s, n)] + rest)
  }

  lemma {:induction false} FirstReads(c: point, more: seq<byte>)
    requires !IsSurrogate(c)
    ensures var s, n := Encode(c) + more, |Encode(c)|;
            Width(s[0]) == n && Trails(s, n) && Value(s, n) == c && Shortest(c, n) && s[n..] == more
  {
    assert (Encode(c) + more)[|Encode(c)|..] == more;
    if 0x10000 <= c {
      assert c / 0x1000 == c / 0x40 / 0x40 && c / 0x40000 == c / 0x1000 / 0x40;
    } else if 0x800 <= c {
      assert c / 0x1000 == c / 0x40 / 0x40;
    }
  }

  lemma {:induction false} DecodeReads(s: Text)
    requires forall i | 0 <= i < |s| :: !IsSurrogate(s[i])
    ensures Decode(EncodeAll(s)) == Some(s)
  {
    if s != [] {
      FirstReads(s[0], EncodeAll(s[1..]));
      DecodeReads(s[1..]);
      assert [s[0]] + s[1..] == s;
    }
  }

  /** The bytes of one accepted character are its encoding. */
  lemma {:induction false} FirstIsEncoded(s: seq<byte>)
    requires s != []
    requires var n := Width(s[0]); 0 < n <= |s| && Trails(s, n) && Shortest(Value(s, n), n)
    ensures var n := Width(s[0]); !IsSurrogate(Value(s, n)) && Encode(Value(s, n)) == s[..n]
  {
    var n := Width(s[0]);
    if n == 2 {
      TwoBytes(s);
    } else if n == 3 {
      ThreeBytes(s);
    } else if n == 4 {
      FourBytes(s);
    }
  }

  lemma {:induction false} TwoBytes(s: seq<byte>)
    requires |s| >= 2 && Width(s[0]) == 2 && Trails(s, 2)
    ensures var c := Value(s, 2); 0x80 <= c < 0x800 && c / 0x40 == s[0] - 0xC0 && c % 0x40 == s[1] - 0x80
    ensures [0xC0 + Value(s, 2) / 0x40, 0x80 + Value(s, 2) % 0x40] == s[..2]
  {
    assert 0x80 <= s[1] < 0xC0;
  }

  lemma {:induction false} ThreeBytes(s: seq<byte>)
    requires |s| >= 3 && Width(s[0]) == 3 && Trails(s, 3) && Shortest(Value(s, 3), 3)
    ensures Encode(Value(s, 3)) == s[..3]
  {
    assert 0x80 <= s[1] < 0xC0 && 0x80 <= s[2] < 0xC0;
    var c := Value(s, 3);
    assert c / 0x40 == Bits(s[0], 0xE0) * 0x40 + Bits(s[1], 0x80) && c % 0x40 == Bits(s[2], 0x80);
    assert c / 0x1000 == c / 0x40 / 0x40;
    assert c < 0x10000;
  }

  lemma {:induction false} FourBytes(s: seq<byte>)
    requires |s| >= 4 && Width(s[0]) == 4 && Trails(s, 4) && Shortest(Value(s, 4), 4)
    ensures Encode(Value(s, 4)) == s[..4]
  {
    assert 0x80 <= s[1] < 0xC0 && 0x80 <= s[2] < 0xC0 && 0x80 <= s[3] < 0xC0;
    var c := Value(s, 4);
    var high := Bits(s[0], 0xF0) * 0x40 + Bits(s[1], 0x80);
    assert c / 0x40 == high * 0x40 + Bits(s[2], 0x80) && c % 0x40 == Bits(s[3], 0x80);
    assert c / 0x1000 == c / 0x40 / 0x40 && c / 0x40000 == c / 0x1000 / 0x40;
    assert c / 0x1000 == high && c / 0x40 % 0x40 == Bits(s[2], 0x80);
  }

  /** Strict decoding is the inverse of encoding, on bytes as well. */
  lemma {:induction false} DecodeIs(s: seq<byte>)
    requires Decode(s).Some?
    ensures forall i | 0 <= i < |Decode(s).value| :: !IsSurrogate(Decode(s).value[i])
    ensures EncodeAll(Decode(s).value) == s
    decreases |s|
  {
    if s != [] {
      var c, n := FirstDecoded(s);
      DecodeIs(s[n..]);
      EncodeMore(c, Decode(s[n..]).value);
    }
  }

  lemma {:induction false} FirstDecoded(s: seq<byte>) returns (c: point, n: nat)
    requires s != [] && Decode(s).Some?
    ensures 0 < n <= |s| && !IsSurrogate(c) && s == Encode(c) + s[n..]
    ensures Decode(s[n..]).Some? && Decode(s).value == [c] + Decode(s[n..]).value
  {
    n := Width(s[0]);
    FirstIsEncoded(s);
    c := Value(s, n);
    assert s == s[..n] + s[n..];
  }

  lemma {:induction false} EncodeMore(c: point, rest: Text)
    requires !IsSurrogate(c) && forall i | 0 <= i < |rest| :: !IsSurrogate(rest[i])
    ensures forall i | 0 <= i < |[c] + rest| :: !IsSurrogate(([c] + rest)[i])
    ensures EncodeAll([c] + rest) == Encode(c) + EncodeAll(rest)
  {
    assert ([c] + rest)[1..] == rest;
  }

  /** The bytes of a character, by their bits: a first byte that tells their number and carries the high
      bits, and then six bits in each byte from 0x80 to 0xBF, high bits first. */
  lemma {:induction false} EncodeIs(c: point)
    requires !IsSurrogate(c)
    ensures var s := Encode(c);
            && (c < 0x80 ==> s == [c])
            && (0x80 <= c < 0x800 ==>
                  |s| == 2 && 0xC2 <= s[0] <= 0xDF && c == Bits(s[0], 0xC0) * 64 + Bits(s[1], 0x80))
            && (0x800 <= c < 0x10000 ==>
                  && |s| == 3 && 0xE0 <= s[0] <= 0xEF
                  && c == Bits(s[0], 0xE0) * 4096 + Bits(s[1], 0x80) * 64 + Bits(s[2], 0x80))
            && (0x10000 <= c ==>
                  && |s| == 4 && 0xF0 <= s[0] <= 0xF4
                  && c == Bits(s[0], 0xF0) * 262144 + Bits(s[1], 0x80) * 4096 + Bits(s[2], 0x80) * 64
                          + Bits(s[3], 0x80))
            && forall i | 1 <= i < |s| :: 0x80 <= s[i] <= 0xBF
  {
    if 0x10000 <= c {
      assert c / 0x1000 == c / 0x40 / 0x40 && c / 0x40000 == c / 0x1000 / 0x40;
    } else if 0x800 <= c {
      assert c / 0x1000 == c / 0x40 / 0x40;
    }
  }
}
