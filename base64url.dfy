/**
 * Base 64 encoding with the URL- and filename-safe alphabet of section 5 of
 * RFC 4648, with `=` padding on the last group, as Python's
 * `base64.urlsafe_b64encode` produces it, and a strict decoder that is its
 * exact inverse.
 */
module Base64Url {
  import opened Wrappers

  type byte = x: int | 0 <= x < 256

  /** A value of six bits: the index of one letter of the alphabet. */
  type sextet = x: int | 0 <= x < 64

  const Pad: char := '='

  /** The 64 letters of the URL- and filename-safe alphabet. */
  predicate IsLetter(c: char) {
    ('A' <= c <= 'Z') || ('a' <= c <= 'z') || ('0' <= c <= '9') || c == '-' || c == '_'
  }

  /** Letter `v` of the alphabet `A-Z a-z 0-9 - _`. */
  function Letter(v: sextet): (c: char)
    ensures IsLetter(c) && c != Pad
  {
    if v < 26 then ('A' as int + v) as char
    else if v < 52 then ('a' as int + (v - 26)) as char
    else if v < 62 then ('0' as int + (v - 52)) as char
    else if v == 62 then '-'
    else '_'
  }

  /** The position of a letter in the alphabet. */
  function IndexOf(c: char): (v: sextet)
    requires IsLetter(c)
    ensures Letter(v) == c
  {
    if 'A' <= c <= 'Z' then c as int - 'A' as int
    else if 'a' <= c <= 'z' then c as int - 'a' as int + 26
    else if '0' <= c <= '9' then c as int - '0' as int + 52
    else if c == '-' then 62
    else 63
  }

  lemma IndexOfLetter(v: sextet)
    ensures IndexOf(Letter(v)) == v
  {
  }

  /** Three bytes become four letters. */
  function EncodeTriple(b0: byte, b1: byte, b2: byte): (g: string)
    ensures |g| == 4
  {
    [Letter(b0 / 4), Letter((b0 % 4) * 16 + b1 / 16), Letter((b1 % 16) * 4 + b2 / 64), Letter(b2 % 64)]
  }

  /** The encoding of a byte string: four characters per started group of three bytes. */
  function Encode(b: seq<byte>): (s: string)
    ensures |s| % 4 == 0
    ensures |s| == 0 <==> |b| == 0
    decreases |b|
  {
    if |b| == 0 then ""
    else if |b| == 1 then [Letter(b[0] / 4), Letter((b[0] % 4) * 16), Pad, Pad]
    else if |b| == 2 then [Letter(b[0] / 4), Letter((b[0] % 4) * 16 + b[1] / 16), Letter((b[1] % 16) * 4), Pad]
    else EncodeTriple(b[0], b[1], b[2]) + Encode(b[3..])
  }

  /** Every character is a letter of the URL-safe alphabet or the padding `=`. */
  predicate InAlphabet(s: string) {
    forall i :: 0 <= i < |s| ==> IsLetter(s[i]) || s[i] == Pad
  }

  /** Four letters without padding become three bytes. */
  function DecodeQuad(g: string): (r: Option<seq<byte>>)
    requires |g| == 4
  {
    if IsLetter(g[0]) && IsLetter(g[1]) && IsLetter(g[2]) && IsLetter(g[3]) then
      var c0, c1, c2, c3 := IndexOf(g[0]), IndexOf(g[1]), IndexOf(g[2]), IndexOf(g[3]);
      Some([c0 * 4 + c1 / 16, (c1 % 16) * 16 + c2 / 4, (c2 % 4) * 64 + c3])
    else None
  }

  /**
   * The last group: four letters, or two or three letters padded with `=`.
   * The bits that the padding discards must be zero, so that every byte
   * string has exactly one encoding.
   */
  function DecodeLast(g: string): (r: Option<seq<byte>>)
    requires |g| == 4
  {
    if IsLetter(g[0]) && IsLetter(g[1]) && g[2] == Pad && g[3] == Pad then
      var c0, c1 := IndexOf(g[0]), IndexOf(g[1]);
      if c1 % 16 == 0 then Some([c0 * 4 + c1 / 16]) else None
    else if IsLetter(g[0]) && IsLetter(g[1]) && IsLetter(g[2]) && g[3] == Pad then
      var c0, c1, c2 := IndexOf(g[0]), IndexOf(g[1]), IndexOf(g[2]);
      if c2 % 4 == 0 then Some([c0 * 4 + c1 / 16, (c1 % 16) * 16 + c2 / 4]) else None
    else DecodeQuad(g)
  }

  /** The reference decoder: `None` for anything `Encode` cannot produce. */
  function Decode(s: string): (r: Option<seq<byte>>)
    decreases |s|
  {
    if |s| == 0 then Some([])
    else if |s| < 4 then None
    else if |s| == 4 then DecodeLast(s)
    else match DecodeQuad(s[..4])
      case None => None
      case Some(head) =>
        match Decode(s[4..])
        case None => None
        case Some(tail) => Some(head + tail)
  }

  /** The first byte comes back from the first two letters. */
  lemma FirstByte(b0: byte, low: int)
    requires 0 <= low < 16
    ensures var c1 := (b0 % 4) * 16 + low; (b0 / 4) * 4 + c1 / 16 == b0 && c1 % 16 == low
  {
  }

  /** The second byte comes back from the second and third letters. */
  lemma SecondByte(b1: byte, low: int)
    requires 0 <= low < 4
    ensures var c2 := (b1 % 16) * 4 + low; (b1 / 16) * 16 + c2 / 4 == b1 && c2 % 4 == low
  {
  }

  lemma TripleRoundTrip(b0: byte, b1: byte, b2: byte)
    ensures DecodeQuad(EncodeTriple(b0, b1, b2)) == Some([b0, b1, b2])
  {
    var c0, c1, c2, c3 := b0 / 4, (b0 % 4) * 16 + b1 / 16, (b1 % 16) * 4 + b2 / 64, b2 % 64;
    IndexOfLetter(c0);
    IndexOfLetter(c1);
    IndexOfLetter(c2);
    IndexOfLetter(c3);
    FirstByte(b0, b1 / 16);
    SecondByte(b1, b2 / 64);
    assert (c2 % 4) * 64 + c3 == b2;
  }

  /** An encoding has four characters per started group of three bytes. */
  lemma {:induction false} EncodeLength(b: seq<byte>)
    ensures |Encode(b)| == 4 * ((|b| + 2) / 3)
    decreases |b|
  {
    if |b| >= 3 {
      EncodeLength(b[3..]);
      EncodeStep(b);
      var k := (|b| - 1) / 3;
      assert (|b| + 2) / 3 == k + 1;
      assert |Encode(b)| == 4 * (k + 1);
    } else {
      EncodeShort(b);
    }
  }

  /** Fewer than three bytes give no characters or one padded group. */
  lemma EncodeShort(b: seq<byte>)
    requires |b| < 3
    ensures |Encode(b)| == if |b| == 0 then 0 else 4
  {
  }

  /** An encoding holds only URL-safe letters and the padding `=`. */
  lemma {:induction false} EncodeAlphabet(b: seq<byte>)
    ensures InAlphabet(Encode(b))
    decreases |b|
  {
    if |b| >= 3 {
      EncodeAlphabet(b[3..]);
      EncodeStep(b);
      var s, rest := Encode(b), Encode(b[3..]);
      forall i | 0 <= i < |s| ensures IsLetter(s[i]) || s[i] == Pad {
        if i >= 4 { assert s[i] == rest[i - 4]; }
      }
    }
  }

  /** The first three bytes become the first group. */
  lemma EncodeStep(b: seq<byte>)
    requires |b| >= 3
    ensures Encode(b) == EncodeTriple(b[0], b[1], b[2]) + Encode(b[3..])
  {
  }

  lemma OneByteRoundTrip(b0: byte)
    ensures DecodeLast([Letter(b0 / 4), Letter((b0 % 4) * 16), Pad, Pad]) == Some([b0])
  {
    IndexOfLetter(b0 / 4);
    IndexOfLetter((b0 % 4) * 16);
    FirstByte(b0, 0);
  }

  lemma TwoBytesRoundTrip(b0: byte, b1: byte)
    ensures DecodeLast([Letter(b0 / 4), Letter((b0 % 4) * 16 + b1 / 16), Letter((b1 % 16) * 4), Pad]) == Some([b0, b1])
  {
    IndexOfLetter(b0 / 4);
    IndexOfLetter((b0 % 4) * 16 + b1 / 16);
    IndexOfLetter((b1 % 16) * 4);
    FirstByte(b0, b1 / 16);
    SecondByte(b1, 0);
  }

  /** Decoding an encoding gives back the bytes (section 5 of RFC 4648). */
  lemma {:induction false} DecodeEncode(b: seq<byte>)
    ensures Decode(Encode(b)) == Some(b)
    decreases |b|
  {
    if |b| == 1 {
      OneByteRoundTrip(b[0]);
      assert b == [b[0]];
    } else if |b| == 2 {
      TwoBytesRoundTrip(b[0], b[1]);
      assert b == [b[0], b[1]];
    } else if |b| == 3 {
      ThreeBytesRoundTrip(b);
    } else if |b| > 3 {
      DecodeEncode(b[3..]);
      LongRoundTrip(b);
    }
  }

  lemma ThreeBytesRoundTrip(b: seq<byte>)
    requires |b| == 3
    ensures Decode(Encode(b)) == Some(b)
  {
    EncodeStep(b);
    ThreeBytes(b);
    LastGroupRoundTrip(b[0], b[1], b[2]);
  }

  lemma ThreeBytes(b: seq<byte>)
    requires |b| == 3
    ensures b[3..] == [] && b == [b[0], b[1], b[2]]
  {
  }

  lemma LastGroupRoundTrip(b0: byte, b1: byte, b2: byte)
    ensures Decode(EncodeTriple(b0, b1, b2) + Encode([])) == Some([b0, b1, b2])
  {
    var head := EncodeTriple(b0, b1, b2);
    assert head + Encode([]) == head;
    TripleRoundTrip(b0, b1, b2);
    DecodeLastFull(head);
  }

  /** One step of the induction: a full first group followed by a correctly decoded rest. */
  lemma LongRoundTrip(b: seq<byte>)
    requires |b| > 3
    requires Decode(Encode(b[3..])) == Some(b[3..])
    ensures Decode(Encode(b)) == Some(b)
  {
    var s, t := Encode(b), EncodeTriple(b[0], b[1], b[2]) + Encode(b[3..]);
    assert s == t by { EncodeStep(b); }
    assert Decode(t) == Some(b) by {
      FrontGroupRoundTrip(b);
      SplitFront(b);
    }
  }

  lemma SplitFront(b: seq<byte>)
    requires |b| >= 3
    ensures [b[0], b[1], b[2]] + b[3..] == b
  {
  }

  lemma FrontGroupRoundTrip(b: seq<byte>)
    requires |b| > 3
    requires Decode(Encode(b[3..])) == Some(b[3..])
    ensures Decode(EncodeTriple(b[0], b[1], b[2]) + Encode(b[3..])) == Some([b[0], b[1], b[2]] + b[3..])
  {
    var head, rest := EncodeTriple(b[0], b[1], b[2]), Encode(b[3..]);
    TripleRoundTrip(b[0], b[1], b[2]);
    EncodeLength(b[3..]);
    DecodeGroups(head, rest, [b[0], b[1], b[2]], b[3..]);
  }

  /** A full group in front of a non-empty decodable rest. */
  lemma DecodeGroups(head: string, rest: string, h: seq<byte>, t: seq<byte>)
    requires |head| == 4 && |rest| > 0
    requires DecodeQuad(head) == Some(h) && Decode(rest) == Some(t)
    ensures Decode(head + rest) == Some(h + t)
  {
    var s := head + rest;
    assert s[..4] == head;
    assert s[4..] == rest;
  }

  /** A last group without padding decodes like any other group. */
  lemma DecodeLastFull(g: string)
    requires |g| == 4 && IsLetter(g[2]) && IsLetter(g[3])
    ensures DecodeLast(g) == DecodeQuad(g)
  {
  }

  /** Distinct byte strings have distinct encodings. */
  lemma EncodeInjective(a: seq<byte>, b: seq<byte>)
    requires Encode(a) == Encode(b)
    ensures a == b
  {
    DecodeEncode(a);
    DecodeEncode(b);
  }
}
