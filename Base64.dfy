/** Base64 as defined in section 4 of RFC 4648 (the alphabet of its table 1
    and `=` padding), the encoder behind `btoa`, and the forgiving decoder
    behind `atob`, which drops ASCII whitespace, accepts missing padding and
    fails on any character outside the alphabet. */
module Base64 {
  import opened Wrappers

  /** An element of a `Uint8Array`. */
  type Byte = b: int | 0 <= b < 256

  /** A six-bit value. */
  predicate IsSextet(v: int) {
    0 <= v < 64
  }

  predicate IsAlphabet(c: char) {
    ('A' <= c <= 'Z') || ('a' <= c <= 'z') || ('0' <= c <= '9') || c == '+' || c == '/'
  }

  /** The character of table 1 of RFC 4648 for the value `v`. */
  function EncodeChar(v: int): (c: char)
    requires IsSextet(v)
  {
    if v < 26 then (65 + v) as char
    else if v < 52 then (97 + v - 26) as char
    else if v < 62 then (48 + v - 52) as char
    else if v == 62 then '+'
    else '/'
  }

  /** The value of an alphabet character. */
  function DecodeChar(c: char): (v: int)
    requires IsAlphabet(c)
    ensures IsSextet(v) && EncodeChar(v) == c
  {
    if 'A' <= c <= 'Z' then c as int - 65
    else if 'a' <= c <= 'z' then c as int - 97 + 26
    else if '0' <= c <= '9' then c as int - 48 + 52
    else if c == '+' then 62
    else 63
  }

  /** Every value has a character of the alphabet, and decoding reads it back. */
  lemma DecodeEncodeChar(v: int)
    requires IsSextet(v)
    ensures IsAlphabet(EncodeChar(v)) && DecodeChar(EncodeChar(v)) == v
  {
  }

  predicate AllAlphabet(s: string) {
    forall i :: 0 <= i < |s| ==> IsAlphabet(s[i])
  }

  // The sextets of a group of three bytes, most significant bits first.
  function S0(b0: Byte): (v: int) ensures IsSextet(v) { b0 / 4 }
  function S1(b0: Byte, b1: Byte): (v: int) ensures IsSextet(v) { (b0 % 4) * 16 + b1 / 16 }
  function S2(b1: Byte, b2: Byte): (v: int) ensures IsSextet(v) { (b1 % 16) * 4 + b2 / 64 }
  function S3(b2: Byte): (v: int) ensures IsSextet(v) { b2 % 64 }

  /** The characters of the input without padding: four per group of three
      bytes, then two for a final single byte or three for a final pair
      (the missing bits are zero). */
  function EncodeUnpadded(b: seq<Byte>): (s: string)
    decreases |b|
  {
    if |b| == 0 then ""
    else if |b| == 1 then [EncodeChar(S0(b[0])), EncodeChar(S1(b[0], 0))]
    else if |b| == 2 then [EncodeChar(S0(b[0])), EncodeChar(S1(b[0], b[1])), EncodeChar(S2(b[1], 0))]
    else
      [EncodeChar(S0(b[0])), EncodeChar(S1(b[0], b[1])), EncodeChar(S2(b[1], b[2])), EncodeChar(S3(b[2]))]
      + EncodeUnpadded(b[3..])
  }

  /** The padding of the final quantum: `==` after one byte, `=` after two. */
  function Padding(b: seq<Byte>): string
    decreases |b|
  {
    if |b| == 0 then ""
    else if |b| == 1 then "=="
    else if |b| == 2 then "="
    else Padding(b[3..])
  }

  /** `btoa` on the bytes: base64 with padding. */
  function Encode(b: seq<Byte>): string {
    EncodeUnpadded(b) + Padding(b)
  }

  /** The unpadded part uses only the alphabet; the padding is at most two
      `=`, and its length is what makes the whole a multiple of four. */
  lemma {:induction false} EncodeShape(b: seq<Byte>)
    ensures AllAlphabet(EncodeUnpadded(b))
    ensures |Padding(b)| <= 2 && forall i :: 0 <= i < |Padding(b)| ==> Padding(b)[i] == '='
    ensures |Padding(b)| == 0 ==> |EncodeUnpadded(b)| % 4 == 0
    ensures |Padding(b)| == 1 ==> |EncodeUnpadded(b)| % 4 == 3
    ensures |Padding(b)| == 2 ==> |EncodeUnpadded(b)| % 4 == 2
    decreases |b|
  {
    UnpaddedLength(b);
    PaddingLength(b);
    LengthsModFour(|b|);
    if |b| == 1 {
      DecodeEncodeChar(S0(b[0]));
      DecodeEncodeChar(S1(b[0], 0));
    } else if |b| == 2 {
      DecodeEncodeChar(S0(b[0]));
      DecodeEncodeChar(S1(b[0], b[1]));
      DecodeEncodeChar(S2(b[1], 0));
    } else if |b| >= 3 {
      EncodeShape(b[3..]);
      DecodeEncodeChar(S0(b[0]));
      DecodeEncodeChar(S1(b[0], b[1]));
      DecodeEncodeChar(S2(b[1], b[2]));
      DecodeEncodeChar(S3(b[2]));
      var head := [EncodeChar(S0(b[0])), EncodeChar(S1(b[0], b[1])), EncodeChar(S2(b[1], b[2])), EncodeChar(S3(b[2]))];
      AllAlphabetConcat(head, EncodeUnpadded(b[3..]));
    }
  }

  // The number of unpadded characters and of `=` for `n` bytes.
  function UnpaddedCount(n: nat): nat {
    if n == 0 then 0 else if n == 1 then 2 else if n == 2 then 3 else 4 + UnpaddedCount(n - 3)
  }
  function PaddingCount(n: nat): nat {
    if n == 0 then 0 else if n == 1 then 2 else if n == 2 then 1 else PaddingCount(n - 3)
  }

  lemma {:induction false} UnpaddedLength(b: seq<Byte>)
    ensures |EncodeUnpadded(b)| == UnpaddedCount(|b|)
    decreases |b|
  {
    if |b| >= 3 {
      UnpaddedLength(b[3..]);
    }
  }

  lemma {:induction false} PaddingLength(b: seq<Byte>)
    ensures |Padding(b)| == PaddingCount(|b|)
    decreases |b|
  {
    if |b| >= 3 {
      PaddingLength(b[3..]);
    }
  }

  lemma {:induction false} LengthsModFour(n: nat)
    ensures PaddingCount(n) <= 2
    ensures PaddingCount(n) == 0 ==> UnpaddedCount(n) % 4 == 0
    ensures PaddingCount(n) == 1 ==> UnpaddedCount(n) % 4 == 3
    ensures PaddingCount(n) == 2 ==> UnpaddedCount(n) % 4 == 2
  {
    if n >= 3 {
      LengthsModFour(n - 3);
    }
  }

  lemma AllAlphabetConcat(a: string, b: string)
    requires AllAlphabet(a) && AllAlphabet(b)
    ensures AllAlphabet(a + b)
  {
    forall i | 0 <= i < |a + b|
      ensures IsAlphabet((a + b)[i])
    {
      if i >= |a| {
        assert (a + b)[i] == b[i - |a|];
      }
    }
  }

  /** Four characters for every three bytes, rounding up: section 4 of RFC 4648. */
  lemma EncodeLength(b: seq<Byte>)
    ensures |Encode(b)| == 4 * ((|b| + 2) / 3)
  {
    UnpaddedLength(b);
    PaddingLength(b);
    CountsTotal(|b|);
  }

  lemma {:induction false} CountsTotal(n: nat)
    ensures UnpaddedCount(n) + PaddingCount(n) == 4 * ((n + 2) / 3)
  {
    if n >= 3 {
      CountsTotal(n - 3);
    }
  }

  predicate IsAsciiWhitespace(c: char) {
    c == '\t' || c == '\n' || c == '\U{C}' || c == '\r' || c == ' '
  }

  function RemoveAsciiWhitespace(s: string): (r: string)
    ensures forall i :: 0 <= i < |r| ==> !IsAsciiWhitespace(r[i])
    decreases |s|
  {
    if |s| == 0 then ""
    else if IsAsciiWhitespace(s[0]) then RemoveAsciiWhitespace(s[1..])
    else [s[0]] + RemoveAsciiWhitespace(s[1..])
  }

  /** A string without ASCII whitespace is kept as it is. */
  lemma {:induction false} RemoveAsciiWhitespaceNone(s: string)
    requires forall i :: 0 <= i < |s| ==> !IsAsciiWhitespace(s[i])
    ensures RemoveAsciiWhitespace(s) == s
    decreases |s|
  {
    if |s| > 0 {
      RemoveAsciiWhitespaceNone(s[1..]);
    }
  }

  /** One or two trailing `=` removed. */
  function StripPadding(s: string): string {
    if |s| >= 2 && s[|s| - 2] == '=' && s[|s| - 1] == '=' then s[..|s| - 2]
    else if |s| >= 1 && s[|s| - 1] == '=' then s[..|s| - 1]
    else s
  }

  /** The bytes of unpadded alphabet characters, four characters to three
      bytes, with a final two or three characters giving one or two bytes. */
  function DecodeGroups(s: string): (b: seq<Byte>)
    requires AllAlphabet(s) && |s| % 4 != 1
    decreases |s|
  {
    if |s| == 0 then []
    else if |s| == 2 then
      var v0, v1 := DecodeChar(s[0]), DecodeChar(s[1]);
      [v0 * 4 + v1 / 16]
    else if |s| == 3 then
      var v0, v1, v2 := DecodeChar(s[0]), DecodeChar(s[1]), DecodeChar(s[2]);
      [v0 * 4 + v1 / 16, (v1 % 16) * 16 + v2 / 4]
    else
      var v0, v1, v2, v3 := DecodeChar(s[0]), DecodeChar(s[1]), DecodeChar(s[2]), DecodeChar(s[3]);
      [v0 * 4 + v1 / 16, (v1 % 16) * 16 + v2 / 4, (v2 % 4) * 64 + v3] + DecodeGroups(s[4..])
  }

  /** `atob`, the forgiving decoder: `None` where it throws. */
  function Atob(s: string): Option<seq<Byte>> {
    var d := RemoveAsciiWhitespace(s);
    var e := if |d| % 4 == 0 then StripPadding(d) else d;
    if |e| % 4 == 1 || !AllAlphabet(e) then None else Some(DecodeGroups(e))
  }

  /** A group of three bytes comes back from its four characters. */
  lemma GroupRoundTrip(b0: Byte, b1: Byte, b2: Byte)
    ensures DecodeChar(EncodeChar(S0(b0))) * 4 + DecodeChar(EncodeChar(S1(b0, b1))) / 16 == b0
    ensures (DecodeChar(EncodeChar(S1(b0, b1))) % 16) * 16 + DecodeChar(EncodeChar(S2(b1, b2))) / 4 == b1
    ensures (DecodeChar(EncodeChar(S2(b1, b2))) % 4) * 64 + DecodeChar(EncodeChar(S3(b2))) == b2
  {
    DecodeEncodeChar(S0(b0));
    DecodeEncodeChar(S1(b0, b1));
    DecodeEncodeChar(S2(b1, b2));
    DecodeEncodeChar(S3(b2));
  }

  /** The first four characters of an encoding decode to its first three bytes. */
  lemma DecodeFirstGroup(s: string, b0: Byte, b1: Byte, b2: Byte)
    requires AllAlphabet(s) && |s| % 4 != 1 && |s| >= 4
    requires s[0] == EncodeChar(S0(b0)) && s[1] == EncodeChar(S1(b0, b1))
    requires s[2] == EncodeChar(S2(b1, b2)) && s[3] == EncodeChar(S3(b2))
    ensures DecodeGroups(s) == [b0, b1, b2] + DecodeGroups(s[4..])
  {
    GroupRoundTrip(b0, b1, b2);
  }

  /** A final one or two bytes come back from their two or three characters. */
  lemma DecodeShortGroup(b: seq<Byte>)
    requires 1 <= |b| <= 2
    ensures AllAlphabet(EncodeUnpadded(b)) && |EncodeUnpadded(b)| % 4 != 1
    ensures DecodeGroups(EncodeUnpadded(b)) == b
  {
    var s := EncodeUnpadded(b);
    if |b| == 1 {
      GroupRoundTrip(b[0], 0, 0);
      DecodeEncodeChar(S0(b[0]));
      DecodeEncodeChar(S1(b[0], 0));
      assert |s| == 2;
    } else {
      GroupRoundTrip(b[0], b[1], 0);
      DecodeEncodeChar(S0(b[0]));
      DecodeEncodeChar(S1(b[0], b[1]));
      DecodeEncodeChar(S2(b[1], 0));
      assert |s| == 3;
    }
  }

  /** Decoding the unpadded characters gives the bytes back. */
  lemma {:induction false} DecodeEncodeUnpadded(b: seq<Byte>)
    ensures AllAlphabet(EncodeUnpadded(b)) && |EncodeUnpadded(b)| % 4 != 1
    ensures DecodeGroups(EncodeUnpadded(b)) == b
    decreases |b|
  {
    EncodeShape(b);
    var s := EncodeUnpadded(b);
    if |b| == 1 {
      DecodeShortGroup(b);
    } else if |b| == 2 {
      DecodeShortGroup(b);
    } else if |b| >= 3 {
      var rest := EncodeUnpadded(b[3..]);
      DecodeEncodeUnpadded(b[3..]);
      assert s[4..] == rest;
      DecodeFirstGroup(s, b[0], b[1], b[2]);
      SplitThree(b);
    }
  }

  lemma SplitThree<T>(b: seq<T>)
    requires |b| >= 3
    ensures b == [b[0], b[1], b[2]] + b[3..]
  {
  }

  /** The encoding holds no whitespace, so `atob` keeps all of it. */
  lemma EncodeNoWhitespace(b: seq<Byte>)
    ensures RemoveAsciiWhitespace(Encode(b)) == Encode(b)
  {
    var u, p := EncodeUnpadded(b), Padding(b);
    EncodeShape(b);
    var s := u + p;
    forall i | 0 <= i < |s|
      ensures !IsAsciiWhitespace(s[i])
    {
      if i < |u| {
        assert s[i] == u[i];
      } else {
        assert s[i] == p[i - |u|];
      }
    }
    RemoveAsciiWhitespaceNone(s);
  }

  /** Removing at most two `=` after alphabet characters leaves those characters. */
  lemma StripPaddingAfterAlphabet(u: string, p: string)
    requires AllAlphabet(u) && |p| <= 2 && forall i :: 0 <= i < |p| ==> p[i] == '='
    requires |p| == 1 ==> |u| >= 1
    ensures StripPadding(u + p) == u
  {
    var s := u + p;
    if |p| == 2 {
      assert s[|s| - 2] == p[0] && s[|s| - 1] == p[1];
      assert s[..|s| - 2] == u;
    } else if |p| == 1 {
      assert s[|s| - 2] == u[|u| - 1] && s[|s| - 1] == p[0];
      assert s[..|s| - 1] == u;
    } else {
      assert s == u;
      if |u| > 0 {
        assert s[|s| - 1] == u[|u| - 1];
      }
    }
  }

  /** Removing the padding of an encoding leaves its unpadded characters. */
  lemma StripEncoded(b: seq<Byte>)
    ensures |Encode(b)| % 4 == 0
    ensures StripPadding(Encode(b)) == EncodeUnpadded(b)
  {
    var u, p := EncodeUnpadded(b), Padding(b);
    EncodeShape(b);
    assert Encode(b) == u + p;
    CompletesQuantum(|u|, |p|);
    StripPaddingAfterAlphabet(u, p);
  }

  /** The padding completes the last quantum of four characters. */
  lemma CompletesQuantum(n: nat, k: nat)
    requires k <= 2
    requires k == 0 ==> n % 4 == 0
    requires k == 1 ==> n % 4 == 3
    requires k == 2 ==> n % 4 == 2
    ensures (n + k) % 4 == 0
  {
  }

  /** `atob(btoa(x))` is `x`. */
  lemma DecodeEncode(b: seq<Byte>)
    ensures Atob(Encode(b)) == Some(b)
  {
    EncodeNoWhitespace(b);
    StripEncoded(b);
    DecodeEncodeUnpadded(b);
  }
}
