/** UTF-8 as Go's decoder sees it, and what writing a string as JSON and reading it back does to it. */
module Utf8 {
  import opened ByteStrings

  predicate Continues(s: Str, n: nat, lo: int, hi: int) {
    |s| >= n && n >= 2 && lo <= s[1] as int <= hi && forall i | 2 <= i < n :: 0x80 <= s[i] as int <= 0xBF
  }

  /** The length of the well-formed character s starts with, or 0. */
  function RuneLength(s: Str): (n: nat)
    ensures n <= |s|
  {
    if s == [] then 0 else
      var b := s[0] as int;
      if b < 0x80 then 1
      else if b < 0xC2 then 0
      else if b < 0xE0 then if Continues(s, 2, 0x80, 0xBF) then 2 else 0
      else if b == 0xE0 then if Continues(s, 3, 0xA0, 0xBF) then 3 else 0
      else if b == 0xED then if Continues(s, 3, 0x80, 0x9F) then 3 else 0
      else if b < 0xF0 then if Continues(s, 3, 0x80, 0xBF) then 3 else 0
      else if b == 0xF0 then if Continues(s, 4, 0x90, 0xBF) then 4 else 0
      else if b < 0xF4 then if Continues(s, 4, 0x80, 0xBF) then 4 else 0
      else if b == 0xF4 then if Continues(s, 4, 0x80, 0x8F) then 4 else 0
      else 0
  }

  predicate Valid(s: Str) {
    s == [] || (RuneLength(s) > 0 && Valid(s[RuneLength(s)..]))
  }

  const REPLACEMENT: Str := [0xEF, 0xBF, 0xBD]

  /** Each byte that starts no well-formed character comes back as the replacement character. */
  function ThroughJson(s: Str): Str {
    if s == [] then []
    else if RuneLength(s) > 0 then s[..RuneLength(s)] + ThroughJson(s[RuneLength(s)..])
    else REPLACEMENT + ThroughJson(s[1..])
  }

  /** Exactly the valid strings survive. */
  lemma {:induction false} SurvivesIff(s: Str)
    ensures ThroughJson(s) == s <==> Valid(s)
    decreases |s|
  {
    if s != [] {
      var n := RuneLength(s);
      if n > 0 {
        var head, tail := s[..n], s[n..];
        assert s == head + tail;
        SurvivesIff(tail);
        if head + ThroughJson(tail) == s {
          assert (head + ThroughJson(tail))[n..] == ThroughJson(tail);
        }
      } else if ThroughJson(s) == s {
        ReplacementIsWhole(s, ThroughJson(s[1..]));
      }
    }
  }

  /** A string that starts with the replacement character starts with a well-formed character. */
  lemma ReplacementIsWhole(s: Str, rest: Str)
    requires s == REPLACEMENT + rest
    ensures RuneLength(s) == 3
  {
  }

  // ---------------------------------------------------------------- what is well-formed

  /** The code points that are characters: all but the surrogates. */
  predicate Scalar(c: int) {
    0 <= c < 0xD800 || 0xE000 <= c < 0x110000
  }

  /** The bytes of a character, six bits to each byte after the first (section 3 of RFC 3629). */
  function Encode(c: int): Str
    requires Scalar(c)
  {
    if c < 0x80 then [c as byte]
    else if c < 0x800 then [(0xC0 + c / 64) as byte, Low(c)]
    else if c < 0x1_0000 then [(0xE0 + c / 64 / 64) as byte, Low(c / 64), Low(c)]
    else [(0xF0 + c / 64 / 64 / 64) as byte, Low(c / 64 / 64), Low(c / 64), Low(c)]
  }

  function Low(c: nat): byte {
    (0x80 + c % 64) as byte
  }

  function EncodeAll(cs: seq<int>): Str
    requires forall c | c in cs :: Scalar(c)
  {
    if cs == [] then [] else Encode(cs[0]) + EncodeAll(cs[1..])
  }

  /** Put together from six bits more. */
  lemma LowBits(high: nat, low: nat)
    requires low < 64
    ensures (high * 64 + low) / 64 == high && (high * 64 + low) % 64 == low
  {
  }

  /** A well-formed beginning is the encoding of some character. */
  lemma RuneEncodes(s: Str) returns (c: int)
    requires RuneLength(s) > 0
    ensures Scalar(c) && Encode(c) <= s && |Encode(c)| == RuneLength(s)
  {
    var n := RuneLength(s);
    c := s[0] as int;
    if n == 2 {
      c := TwoBytes(s[0] as int, s[1] as int);
      assert Encode(c) == s[..2];
    } else if n == 3 {
      c := ThreeBytes(s[0] as int, s[1] as int, s[2] as int);
      assert Encode(c) == s[..3];
    } else if n == 4 {
      c := FourBytes(s[0] as int, s[1] as int, s[2] as int, s[3] as int);
      assert Encode(c) == s[..4];
    } else {
      assert Encode(c) == s[..1];
    }
  }

  lemma TwoBytes(b0: int, b1: int) returns (c: int)
    requires 0xC2 <= b0 < 0xE0 && 0x80 <= b1 <= 0xBF
    ensures 0x80 <= c < 0x800 && 0xC0 + c / 64 == b0 && 0x80 + c % 64 == b1
  {
    c := (b0 - 0xC0) * 64 + (b1 - 0x80);
    LowBits(b0 - 0xC0, b1 - 0x80);
  }

  lemma ThreeBytes(b0: int, b1: int, b2: int) returns (c: int)
    requires 0xE0 <= b0 < 0xF0 && 0x80 <= b1 <= 0xBF && 0x80 <= b2 <= 0xBF
    requires (b0 == 0xE0 ==> b1 >= 0xA0) && (b0 == 0xED ==> b1 <= 0x9F)
    ensures 0x800 <= c < 0x1_0000 && Scalar(c)
    ensures 0xE0 + c / 64 / 64 == b0 && 0x80 + c / 64 % 64 == b1 && 0x80 + c % 64 == b2
  {
    var top := (b0 - 0xE0) * 64 + (b1 - 0x80);
    c := top * 64 + (b2 - 0x80);
    LowBits(b0 - 0xE0, b1 - 0x80);
    LowBits(top, b2 - 0x80);
  }

  lemma FourBytes(b0: int, b1: int, b2: int, b3: int) returns (c: int)
    requires 0xF0 <= b0 <= 0xF4 && 0x80 <= b1 <= 0xBF && 0x80 <= b2 <= 0xBF && 0x80 <= b3 <= 0xBF
    requires (b0 == 0xF0 ==> b1 >= 0x90) && (b0 == 0xF4 ==> b1 <= 0x8F)
    ensures 0x1_0000 <= c < 0x11_0000
    ensures 0xF0 + c / 64 / 64 / 64 == b0 && 0x80 + c / 64 / 64 % 64 == b1
    ensures 0x80 + c / 64 % 64 == b2 && 0x80 + c % 64 == b3
  {
    var top := (b0 - 0xF0) * 64 + (b1 - 0x80);
    var mid := top * 64 + (b2 - 0x80);
    c := mid * 64 + (b3 - 0x80);
    LowBits(b0 - 0xF0, b1 - 0x80);
    LowBits(top, b2 - 0x80);
    LowBits(mid, b3 - 0x80);
  }

  /** What starts with the encoding of a character starts with a well-formed character of that length. */
  lemma EncodedIsRune(c: int, s: Str)
    requires Scalar(c) && Encode(c) <= s
    ensures RuneLength(s) == |Encode(c)|
  {
    var e := Encode(c);
    assert forall i | 0 <= i < |e| :: s[i] == e[i];
  }

  /** The valid strings are exactly the sequences of encoded characters. */
  lemma {:induction false} ValidIff(s: Str)
    ensures Valid(s) <==> exists cs: seq<int> :: (forall c | c in cs :: Scalar(c)) && s == EncodeAll(cs)
    decreases |s|
  {
    if Valid(s) {
      var cs := CharactersOf(s);
    }
    if cs: seq<int> :| (forall c | c in cs :: Scalar(c)) && s == EncodeAll(cs) {
      EncodedIsValid(cs);
    }
  }

  lemma {:induction false} CharactersOf(s: Str) returns (cs: seq<int>)
    requires Valid(s)
    ensures (forall c | c in cs :: Scalar(c)) && s == EncodeAll(cs)
    decreases |s|
  {
    hide Encode, RuneLength;
    if s == [] {
      cs := [];
    } else {
      var c := RuneEncodes(s);
      var rest := CharactersOf(s[RuneLength(s)..]);
      cs := [c] + rest;
      assert cs[1..] == rest;
      assert s == s[..RuneLength(s)] + s[RuneLength(s)..];
    }
  }

  lemma {:induction false} EncodedIsValid(cs: seq<int>)
    requires forall c | c in cs :: Scalar(c)
    ensures Valid(EncodeAll(cs))
    decreases |cs|
  {
    hide Encode;
    if cs != [] {
      EncodedIsValid(cs[1..]);
      var s, e := EncodeAll(cs), Encode(cs[0]);
      EncodedIsRune(cs[0], s);
      EncodedSome(cs[0]);
      assert s[|e|..] == EncodeAll(cs[1..]);
    }
  }

  lemma EncodedSome(c: int)
    requires Scalar(c)
    ensures |Encode(c)| > 0
  {
  }
}
