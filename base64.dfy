/**
 * Standard base64 (section 4 of RFC 4648): the encoding Node's
 * `buffer.toString('base64')` produces, with the alphabet A-Z a-z 0-9 + / and
 * `=` padding to a multiple of four characters. `Decode` is the strict inverse:
 * it accepts exactly the canonical encodings, and the two are proved to be
 * inverse in both directions.
 */
module Base64 {
  import opened Wrappers

  /** A byte of a Node `Buffer`. */
  type byte = x: int | 0 <= x < 256

  /** The character of the alphabet that stands for the six-bit value `i`. */
  function IndexToChar(i: int): (c: char)
    requires 0 <= i < 64
    ensures CharToIndex(c) == Some(i)
  {
    if i < 26 then ('A' as int + i) as char
    else if i < 52 then ('a' as int + (i - 26)) as char
    else if i < 62 then ('0' as int + (i - 52)) as char
    else if i == 62 then '+'
    else '/'
  }

  /** The six-bit value a character of the alphabet stands for; `None` for any other character. */
  function CharToIndex(c: char): (r: Option<int>)
    ensures r.Some? ==> 0 <= r.value < 64
  {
    if 'A' <= c <= 'Z' then Some(c as int - 'A' as int)
    else if 'a' <= c <= 'z' then Some(c as int - 'a' as int + 26)
    else if '0' <= c <= '9' then Some(c as int - '0' as int + 52)
    else if c == '+' then Some(62)
    else if c == '/' then Some(63)
    else None
  }

  /** A character that can occur in an encoding: a letter of the alphabet or the pad. */
  predicate IsEncodingChar(c: char) {
    CharToIndex(c).Some? || c == '='
  }

  /** Three bytes as four characters. */
  function EncodeTriple(b0: byte, b1: byte, b2: byte): string {
    [IndexToChar(b0 / 4), IndexToChar((b0 % 4) * 16 + b1 / 16),
     IndexToChar((b1 % 16) * 4 + b2 / 64), IndexToChar(b2 % 64)]
  }

  /** The last two bytes of the input as three characters and one pad. */
  function EncodePair(b0: byte, b1: byte): string {
    [IndexToChar(b0 / 4), IndexToChar((b0 % 4) * 16 + b1 / 16), IndexToChar((b1 % 16) * 4), '=']
  }

  /** The last byte of the input as two characters and two pads. */
  function EncodeSingle(b0: byte): string {
    [IndexToChar(b0 / 4), IndexToChar((b0 % 4) * 16), '=', '=']
  }

  /** `Buffer.from(b).toString('base64')`. */
  function Encode(b: seq<byte>): (s: string)
    ensures |s| == 4 * ((|b| + 2) / 3)
    ensures forall i :: 0 <= i < |s| ==> IsEncodingChar(s[i])
  {
    if |b| == 0 then ""
    else if |b| == 1 then EncodeSingle(b[0])
    else if |b| == 2 then EncodePair(b[0], b[1])
    else EncodeTriple(b[0], b[1], b[2]) + Encode(b[3..])
  }

  /** Four alphabet characters as three bytes; `None` if any is not in the alphabet. */
  function DecodeQuad(c0: char, c1: char, c2: char, c3: char): Option<seq<byte>> {
    if CharToIndex(c0).Some? && CharToIndex(c1).Some? && CharToIndex(c2).Some? && CharToIndex(c3).Some? then
      var v0, v1, v2, v3 := CharToIndex(c0).value, CharToIndex(c1).value, CharToIndex(c2).value, CharToIndex(c3).value;
      Some([v0 * 4 + v1 / 16, (v1 % 16) * 16 + v2 / 4, (v2 % 4) * 64 + v3])
    else None
  }

  /**
   * The final group: four alphabet characters, or three and a pad, or two and
   * two pads. Bits that padding leaves over must be zero, as in every encoding
   * `Encode` produces.
   */
  function DecodeLastQuad(c0: char, c1: char, c2: char, c3: char): Option<seq<byte>> {
    if DecodeQuad(c0, c1, c2, c3).Some? then DecodeQuad(c0, c1, c2, c3)
    else if CharToIndex(c0).Some? && CharToIndex(c1).Some? && CharToIndex(c2).Some? then
      var v0, v1, v2 := CharToIndex(c0).value, CharToIndex(c1).value, CharToIndex(c2).value;
      if c3 == '=' && v2 % 4 == 0 then Some([v0 * 4 + v1 / 16, (v1 % 16) * 16 + v2 / 4]) else None
    else if CharToIndex(c0).Some? && CharToIndex(c1).Some? then
      var v0, v1 := CharToIndex(c0).value, CharToIndex(c1).value;
      if c2 == '=' && c3 == '=' && v1 % 16 == 0 then Some([v0 * 4 + v1 / 16]) else None
    else None
  }

  /** The bytes a canonical base64 text stands for; `None` for any other text. */
  function Decode(s: string): Option<seq<byte>>
  {
    if |s| == 0 then Some([])
    else if |s| < 4 then None
    else if |s| == 4 then DecodeLastQuad(s[0], s[1], s[2], s[3])
    else
      match DecodeQuad(s[0], s[1], s[2], s[3])
      case None => None
      case Some(q) =>
        match Decode(s[4..])
        case None => None
        case Some(rest) => Some(q + rest)
  }

  lemma TripleRoundTrip(b0: byte, b1: byte, b2: byte)
    ensures var q := EncodeTriple(b0, b1, b2); DecodeQuad(q[0], q[1], q[2], q[3]) == Some([b0, b1, b2])
  {
    var v1 := (b0 % 4) * 16 + b1 / 16;
    var v2 := (b1 % 16) * 4 + b2 / 64;
    assert v1 / 16 == b0 % 4 && v1 % 16 == b1 / 16;
    assert v2 / 4 == b1 % 16 && v2 % 4 == b2 / 64;
  }

  lemma PairRoundTrip(b0: byte, b1: byte)
    ensures var q := EncodePair(b0, b1); DecodeLastQuad(q[0], q[1], q[2], q[3]) == Some([b0, b1])
  {
    var v1 := (b0 % 4) * 16 + b1 / 16;
    var v2 := (b1 % 16) * 4;
    assert v1 / 16 == b0 % 4 && v1 % 16 == b1 / 16;
    assert v2 / 4 == b1 % 16 && v2 % 4 == 0;
  }

  lemma SingleRoundTrip(b0: byte)
    ensures var q := EncodeSingle(b0); DecodeLastQuad(q[0], q[1], q[2], q[3]) == Some([b0])
  {
    var v1 := (b0 % 4) * 16;
    assert v1 / 16 == b0 % 4 && v1 % 16 == 0;
  }

  /** Decoding a full group followed by more text. */
  lemma DecodeAppend(q: string, t: string)
    requires |q| == 4 && |t| > 0
    requires DecodeQuad(q[0], q[1], q[2], q[3]).Some? && Decode(t).Some?
    ensures Decode(q + t) == Some(DecodeQuad(q[0], q[1], q[2], q[3]).value + Decode(t).value)
  {
    var s := q + t;
    assert s[0] == q[0] && s[1] == q[1] && s[2] == q[2] && s[3] == q[3];
    assert s[4..] == t;
  }

  /** Decoding an encoding gives back the bytes. */
  lemma {:induction false} DecodeEncode(b: seq<byte>)
    ensures Decode(Encode(b)) == Some(b)
  {
    if |b| == 1 {
      SingleRoundTrip(b[0]);
      assert b == [b[0]];
    } else if |b| == 2 {
      PairRoundTrip(b[0], b[1]);
      assert Encode(b) == EncodePair(b[0], b[1]) && b == [b[0], b[1]];
    } else if |b| == 3 {
      DecodeEncodeTriple(b);
    } else if |b| > 3 {
      DecodeEncode(b[3..]);
      DecodeEncodeStep(b);
    }
  }

  lemma DecodeEncodeTriple(b: seq<byte>)
    requires |b| == 3
    ensures Decode(Encode(b)) == Some(b)
  {
    var q := EncodeTriple(b[0], b[1], b[2]);
    TripleRoundTrip(b[0], b[1], b[2]);
    assert Encode(b[3..]) == [];
    assert Encode(b) == q + [] == q;
    assert b == [b[0], b[1], b[2]];
  }

  /** A group of three bytes in front of bytes that round-trip. */
  lemma DecodeEncodeStep(b: seq<byte>)
    requires |b| > 3 && Decode(Encode(b[3..])) == Some(b[3..])
    ensures Decode(Encode(b)) == Some(b)
  {
    var q := EncodeTriple(b[0], b[1], b[2]);
    var t := Encode(b[3..]);
    TripleRoundTrip(b[0], b[1], b[2]);
    EncodeUnfold(b);
    DecodeAppend(q, t);
    SplitThree(b);
  }

  lemma SplitThree(b: seq<byte>)
    requires |b| >= 3
    ensures b == [b[0], b[1], b[2]] + b[3..]
  {
  }

  /** The arithmetic of regrouping: six-bit values regrouped as bytes and back are unchanged. */
  lemma Regroup(v0: int, v1: int, v2: int, v3: int)
    requires 0 <= v0 < 64 && 0 <= v1 < 64 && 0 <= v2 < 64 && 0 <= v3 < 64
    ensures (v0 * 4 + v1 / 16) / 4 == v0 && (v0 * 4 + v1 / 16) % 4 == v1 / 16
    ensures ((v1 % 16) * 16 + v2 / 4) / 16 == v1 % 16 && ((v1 % 16) * 16 + v2 / 4) % 16 == v2 / 4
    ensures ((v2 % 4) * 64 + v3) / 64 == v2 % 4 && ((v2 % 4) * 64 + v3) % 64 == v3
    ensures (v1 / 16) * 16 + v1 % 16 == v1 && (v2 / 4) * 4 + v2 % 4 == v2
  {
  }

  lemma QuadCanonical(c0: char, c1: char, c2: char, c3: char)
    requires DecodeQuad(c0, c1, c2, c3).Some?
    ensures var q := DecodeQuad(c0, c1, c2, c3).value;
            |q| == 3 && EncodeTriple(q[0], q[1], q[2]) == [c0, c1, c2, c3]
  {
    var v0, v1, v2, v3 := CharToIndex(c0).value, CharToIndex(c1).value, CharToIndex(c2).value, CharToIndex(c3).value;
    CharToIndexInverse(c0);
    CharToIndexInverse(c1);
    CharToIndexInverse(c2);
    CharToIndexInverse(c3);
    Regroup(v0, v1, v2, v3);
    var b0, b1, b2 := v0 * 4 + v1 / 16, (v1 % 16) * 16 + v2 / 4, (v2 % 4) * 64 + v3;
    assert DecodeQuad(c0, c1, c2, c3).value == [b0, b1, b2];
    assert (b0 % 4) * 16 + b1 / 16 == v1;
    assert (b1 % 16) * 4 + b2 / 64 == v2;
  }

  lemma LastQuadCanonical(c0: char, c1: char, c2: char, c3: char)
    requires DecodeLastQuad(c0, c1, c2, c3).Some?
    ensures var q := DecodeLastQuad(c0, c1, c2, c3).value;
            1 <= |q| <= 3 && Encode(q) == [c0, c1, c2, c3]
  {
    if DecodeQuad(c0, c1, c2, c3).Some? {
      QuadCanonical(c0, c1, c2, c3);
      var q := DecodeQuad(c0, c1, c2, c3).value;
      assert Encode(q) == EncodeTriple(q[0], q[1], q[2]) + Encode(q[3..]);
    } else {
      CharToIndexInverse(c0);
      CharToIndexInverse(c1);
      var v0, v1 := CharToIndex(c0).value, CharToIndex(c1).value;
      if CharToIndex(c2).Some? {
        CharToIndexInverse(c2);
        var v2 := CharToIndex(c2).value;
        Regroup(v0, v1, v2, 0);
        var b0, b1 := v0 * 4 + v1 / 16, (v1 % 16) * 16 + v2 / 4;
        assert DecodeLastQuad(c0, c1, c2, c3).value == [b0, b1];
        assert (b0 % 4) * 16 + b1 / 16 == v1;
        assert (b1 % 16) * 4 == v2;
        assert Encode([b0, b1]) == EncodePair(b0, b1);
      } else {
        Regroup(v0, v1, 0, 0);
        var b0 := v0 * 4 + v1 / 16;
        assert DecodeLastQuad(c0, c1, c2, c3).value == [b0];
        assert (b0 % 4) * 16 == v1;
        assert Encode([b0]) == EncodeSingle(b0);
      }
    }
  }

  lemma CharToIndexInverse(c: char)
    requires CharToIndex(c).Some?
    ensures IndexToChar(CharToIndex(c).value) == c
  {
  }

  /** Every text `Decode` accepts is the encoding of what it decodes to. */
  lemma {:induction false} EncodeDecode(s: string)
    requires Decode(s).Some?
    ensures Encode(Decode(s).value) == s
  {
    if |s| == 4 {
      LastQuadCanonical(s[0], s[1], s[2], s[3]);
    } else if |s| > 4 {
      EncodeDecode(s[4..]);
      EncodeDecodeStep(s);
    }
  }

  /** A canonical group of four characters in front of a text that round-trips. */
  lemma EncodeDecodeStep(s: string)
    requires |s| > 4 && Decode(s).Some?
    requires Decode(s[4..]).Some? && Encode(Decode(s[4..]).value) == s[4..]
    ensures Encode(Decode(s).value) == s
  {
    var q := DecodeQuad(s[0], s[1], s[2], s[3]).value;
    var t := s[4..];
    var rest := Decode(t).value;
    QuadCanonical(s[0], s[1], s[2], s[3]);
    assert |rest| > 0;
    var b := q + rest;
    assert Decode(s).value == b;
    assert b[..3] == q && b[3..] == rest;
    EncodeUnfold(b);
    assert s == s[..4] + t;
  }

  lemma EncodeUnfold(b: seq<byte>)
    requires |b| > 3
    ensures Encode(b) == EncodeTriple(b[0], b[1], b[2]) + Encode(b[3..])
  {
  }

  /** A text decodes to `b` exactly when it is the encoding of `b`. */
  lemma DecodeIffEncode(s: string, b: seq<byte>)
    ensures Decode(s) == Some(b) <==> s == Encode(b)
  {
    if s == Encode(b) {
      DecodeEncode(b);
    }
    if Decode(s) == Some(b) {
      EncodeDecode(s);
    }
  }
}
