/**
 * The byte encodings behind `Buffer.from(text).toString('base64')`: UTF-8 turns the
 * text's code points into bytes, and the base 64 encoding of section 4 of RFC 4648
 * (alphabet `A-Z a-z 0-9 + /`, `=` padding) turns the bytes into text. Each comes with
 * a decoder and the proof that decoding undoes encoding.
 */
module Encoding {
  import opened Common

  type Byte = b: int | 0 <= b < 256

  /** The UTF-8 bytes of one code point: one to four bytes, by the code point's range. */
  function EncodeCodePoint(c: char): (bs: seq<Byte>)
    ensures 1 <= |bs| <= 4
  {
    var n := c as int;
    var q1 := n / 64;
    var q2 := q1 / 64;
    var q3 := q2 / 64;
    if n < 0x80 then [n]
    else if n < 0x800 then [0xC0 + q1, 0x80 + n % 64]
    else if n < 0x10000 then [0xE0 + q2, 0x80 + q1 % 64, 0x80 + n % 64]
    else [0xF0 + q3, 0x80 + q2 % 64, 0x80 + q1 % 64, 0x80 + n % 64]
  }

  /** The UTF-8 encoding of a text. */
  function Utf8Encode(s: string): (bs: seq<Byte>)
    ensures |s| <= |bs| <= 4 * |s|
  {
    if s == [] then [] else EncodeCodePoint(s[0]) + Utf8Encode(s[1..])
  }

  predicate IsContinuation(b: Byte) {
    0x80 <= b < 0xC0
  }

  predicate IsScalarValue(n: int) {
    (0 <= n < 0xD800) || (0xE000 <= n <= 0x10FFFF)
  }

  /**
   * The first code point of a byte sequence and the number of bytes it takes; None for
   * a bad lead byte, a missing or bad continuation byte, an overlong form, a surrogate
   * or a value past U+10FFFF.
   */
  function DecodeFirst(bs: seq<Byte>): (r: Option<(char, nat)>)
    ensures r.Some? ==> 1 <= r.value.1 <= |bs|
  {
    if bs == [] then None
    else if bs[0] < 0x80 then Some((bs[0] as char, 1))
    else if 0xC0 <= bs[0] < 0xE0 then
      if |bs| < 2 || !IsContinuation(bs[1]) then None
      else
        var n := (bs[0] as int - 0xC0) * 64 + (bs[1] as int - 0x80);
        if n < 0x80 then None else Some((n as char, 2))
    else if 0xE0 <= bs[0] < 0xF0 then
      if |bs| < 3 || !IsContinuation(bs[1]) || !IsContinuation(bs[2]) then None
      else
        var n := ((bs[0] as int - 0xE0) * 64 + (bs[1] as int - 0x80)) * 64 + (bs[2] as int - 0x80);
        if n < 0x800 || !IsScalarValue(n) then None else Some((n as char, 3))
    else if 0xF0 <= bs[0] < 0xF8 then
      if |bs| < 4 || !IsContinuation(bs[1]) || !IsContinuation(bs[2]) || !IsContinuation(bs[3]) then None
      else
        var n := (((bs[0] as int - 0xF0) * 64 + (bs[1] as int - 0x80)) * 64 + (bs[2] as int - 0x80)) * 64 + (bs[3] as int - 0x80);
        if n < 0x10000 || n > 0x10FFFF then None else Some((n as char, 4))
    else None
  }

  /** The text a UTF-8 byte sequence encodes, or None when it is not well-formed. */
  function Utf8Decode(bs: seq<Byte>): Option<string>
    decreases |bs|
  {
    if bs == [] then Some([])
    else match DecodeFirst(bs)
      case None => None
      case Some((c, k)) =>
        match Utf8Decode(bs[k..])
        case None => None
        case Some(rest) => Some([c] + rest)
  }

  /** The decoder reads back exactly the code point the encoder wrote, whatever follows it. */
  lemma DecodeEncodedCodePoint(c: char, rest: seq<Byte>)
    ensures DecodeFirst(EncodeCodePoint(c) + rest) == Some((c, |EncodeCodePoint(c)|))
  {
    var n := c as int;
    var q1 := n / 64;
    var q2 := q1 / 64;
    var q3 := q2 / 64;
    assert n == q1 * 64 + n % 64;
    assert q1 == q2 * 64 + q1 % 64;
    assert q2 == q3 * 64 + q2 % 64;
  }

  /** UTF-8 round trip: decoding the encoding of any text gives the text back. */
  lemma {:induction false} Utf8RoundTrip(s: string)
    ensures Utf8Decode(Utf8Encode(s)) == Some(s)
  {
    if s != [] {
      var head := EncodeCodePoint(s[0]);
      var tail := Utf8Encode(s[1..]);
      DecodeEncodedCodePoint(s[0], tail);
      assert (head + tail)[|head|..] == tail;
      Utf8RoundTrip(s[1..]);
      assert [s[0]] + s[1..] == s;
    }
  }

  /** ASCII text encodes to its code points, one byte each. */
  lemma {:induction false} Utf8OfAscii(s: string)
    requires forall i :: 0 <= i < |s| ==> s[i] as int < 0x80
    ensures |Utf8Encode(s)| == |s|
    ensures forall i :: 0 <= i < |s| ==> Utf8Encode(s)[i] == s[i] as int
  {
    if s != [] {
      Utf8OfAscii(s[1..]);
    }
  }

  /** The base 64 alphabet of Table 1 of RFC 4648. */
  function Base64Digit(v: int): (c: char)
    requires 0 <= v < 64
  {
    if v < 26 then ('A' as int + v) as char
    else if v < 52 then ('a' as int + v - 26) as char
    else if v < 62 then ('0' as int + v - 52) as char
    else if v == 62 then '+'
    else '/'
  }

  /** The value of a base 64 character; None for a character outside the alphabet (including `=`). */
  function Base64Value(c: char): (r: Option<int>)
    ensures r.Some? ==> 0 <= r.value < 64
  {
    if 'A' <= c <= 'Z' then Some(c as int - 'A' as int)
    else if 'a' <= c <= 'z' then Some(c as int - 'a' as int + 26)
    else if '0' <= c <= '9' then Some(c as int - '0' as int + 52)
    else if c == '+' then Some(62)
    else if c == '/' then Some(63)
    else None
  }

  lemma DigitValue(v: int)
    requires 0 <= v < 64
    ensures Base64Value(Base64Digit(v)) == Some(v)
    ensures Base64Digit(v) != '='
  {
  }

  /**
   * Base 64 encoding: each group of three bytes becomes four characters; a final group of
   * one or two bytes is zero-filled and padded with `==` or `=` (section 4 of RFC 4648).
   */
  function Base64Encode(bs: seq<Byte>): (s: string)
    ensures |s| == 4 * ((|bs| + 2) / 3)
    decreases |bs|
  {
    if |bs| == 0 then []
    else if |bs| == 1 then OneByteGroup(bs[0])
    else if |bs| == 2 then TwoByteGroup(bs[0], bs[1])
    else ThreeByteGroup(bs[0], bs[1], bs[2]) + Base64Encode(bs[3..])
  }

  /** A final single byte: its 8 bits and four zero bits as two digits, then `==`. */
  function OneByteGroup(b0: Byte): (g: string)
    ensures |g| == 4
  {
    [Base64Digit(b0 / 4), Base64Digit(b0 % 4 * 16), '=', '=']
  }

  /** A final pair of bytes: their 16 bits and two zero bits as three digits, then `=`. */
  function TwoByteGroup(b0: Byte, b1: Byte): (g: string)
    ensures |g| == 4
  {
    [Base64Digit(b0 / 4), Base64Digit(b0 % 4 * 16 + b1 / 16), Base64Digit(b1 % 16 * 4), '=']
  }

  /** Three bytes: their 24 bits as four 6-bit digits. */
  function ThreeByteGroup(b0: Byte, b1: Byte, b2: Byte): (g: string)
    ensures |g| == 4
  {
    [Base64Digit(b0 / 4), Base64Digit(b0 % 4 * 16 + b1 / 16), Base64Digit(b1 % 16 * 4 + b2 / 64), Base64Digit(b2 % 64)]
  }

  /** The characters of an encoding are alphabet characters, then at most two `=` at the end. */
  lemma {:induction false} Base64EncodeAlphabet(bs: seq<Byte>)
    ensures var s := Base64Encode(bs);
            forall i :: 0 <= i < |s| ==> Base64Value(s[i]).Some? || (s[i] == '=' && i >= |s| - 2)
    decreases |bs|
  {
    var s := Base64Encode(bs);
    if |bs| >= 3 {
      Base64EncodeAlphabet(bs[3..]);
      forall v | 0 <= v < 64 ensures Base64Value(Base64Digit(v)).Some? {
        DigitValue(v);
      }
      assert s[4..] == Base64Encode(bs[3..]);
    } else {
      forall v | 0 <= v < 64 ensures Base64Value(Base64Digit(v)).Some? {
        DigitValue(v);
      }
    }
  }

  /** Decoding one group of four characters, the last of which may be padded. */
  function DecodeGroup(g: string, last: bool): (r: Option<seq<Byte>>)
    requires |g| == 4
    ensures r.Some? ==> 1 <= |r.value| <= 3
  {
    var v0 := Base64Value(g[0]);
    var v1 := Base64Value(g[1]);
    if v0.None? || v1.None? then None
    else if last && g[2] == '=' && g[3] == '=' then
      Some([v0.value * 4 + v1.value / 16])
    else
      var v2 := Base64Value(g[2]);
      if v2.None? then None
      else if last && g[3] == '=' then
        Some([v0.value * 4 + v1.value / 16, v1.value % 16 * 16 + v2.value / 4])
      else
        var v3 := Base64Value(g[3]);
        if v3.None? then None
        else Some([v0.value * 4 + v1.value / 16, v1.value % 16 * 16 + v2.value / 4, v2.value % 4 * 64 + v3.value])
  }

  /** Base 64 decoding: None unless the text is whole groups of alphabet characters with padding only at the end. */
  function Base64Decode(s: string): Option<seq<Byte>>
    decreases |s|
  {
    if s == [] then Some([])
    else if |s| < 4 then None
    else match DecodeGroup(s[..4], |s| == 4)
      case None => None
      case Some(group) =>
        match Base64Decode(s[4..])
        case None => None
        case Some(rest) => Some(group + rest)
  }

  /** A final one-byte group, `xy==`, decodes back to its byte. */
  lemma DecodeOneByteGroup(b0: Byte)
    ensures DecodeGroup(OneByteGroup(b0), true) == Some([b0])
  {
    DigitValue(b0 / 4);
    DigitValue(b0 % 4 * 16);
  }

  /** A final two-byte group, `xyz=`, decodes back to its bytes. */
  lemma DecodeTwoByteGroup(b0: Byte, b1: Byte)
    ensures DecodeGroup(TwoByteGroup(b0, b1), true) == Some([b0, b1])
  {
    var v1 := b0 % 4 * 16 + b1 / 16;
    DigitValue(b0 / 4);
    DigitValue(v1);
    DigitValue(b1 % 16 * 4);
    assert v1 / 16 == b0 % 4 && v1 % 16 == b1 / 16;
  }

  /** A full group of three bytes decodes back to them, whether or not it is the last group. */
  lemma DecodeThreeByteGroup(b0: Byte, b1: Byte, b2: Byte, last: bool)
    ensures DecodeGroup(ThreeByteGroup(b0, b1, b2), last) == Some([b0, b1, b2])
  {
    var v1 := b0 % 4 * 16 + b1 / 16;
    var v2 := b1 % 16 * 4 + b2 / 64;
    DigitValue(b0 / 4);
    DigitValue(v1);
    DigitValue(v2);
    DigitValue(b2 % 64);
    assert v1 / 16 == b0 % 4 && v1 % 16 == b1 / 16;
    assert v2 / 4 == b1 % 16 && v2 % 4 == b2 / 64;
  }

  /** Base 64 round trip: decoding the encoding of any bytes gives the bytes back. */
  lemma {:induction false} Base64RoundTrip(bs: seq<Byte>)
    ensures Base64Decode(Base64Encode(bs)) == Some(bs)
    decreases |bs|
  {
    if 1 <= |bs| <= 2 {
      ShortRoundTrip(bs);
    } else if |bs| >= 3 {
      Base64RoundTrip(bs[3..]);
      RoundTripStep(bs);
    }
  }

  /** One or two bytes encode to a single padded group that decodes back to them. */
  lemma ShortRoundTrip(bs: seq<Byte>)
    requires 1 <= |bs| <= 2
    ensures Base64Decode(Base64Encode(bs)) == Some(bs)
  {
    ShortGroupOfEncoding(bs);
    DecodeLastGroup(Base64Encode(bs), bs);
  }

  /** One or two bytes encode to exactly one group, which decodes back to them. */
  lemma ShortGroupOfEncoding(bs: seq<Byte>)
    requires 1 <= |bs| <= 2
    ensures var s := Base64Encode(bs); |s| == 4 && DecodeGroup(s, true) == Some(bs)
  {
    if |bs| == 1 {
      DecodeOneByteGroup(bs[0]);
      assert bs == [bs[0]];
    } else {
      DecodeTwoByteGroup(bs[0], bs[1]);
      assert bs == [bs[0], bs[1]];
    }
  }

  /** A single group that decodes as the last group is the whole text's decoding. */
  lemma DecodeLastGroup(s: string, bs: seq<Byte>)
    requires |s| == 4 && DecodeGroup(s, true) == Some(bs)
    ensures Base64Decode(s) == Some(bs)
  {
    assert s[..4] == s && s[4..] == [];
    DecodeStep(s, bs, [], bs + []);
    AppendNothing(bs);
  }

  /** The inductive step: a full first group, then the encoding of the remaining bytes. */
  lemma RoundTripStep(bs: seq<Byte>)
    requires |bs| >= 3
    requires Base64Decode(Base64Encode(bs[3..])) == Some(bs[3..])
    ensures Base64Decode(Base64Encode(bs)) == Some(bs)
  {
    EncodingAfterFirstGroup(bs);
    FirstGroupOfEncoding(bs);
    DecodeGroupThenRest(Base64Encode(bs), bs);
  }

  /** After its first group, the encoding of three or more bytes is the encoding of the bytes after the third. */
  lemma EncodingAfterFirstGroup(bs: seq<Byte>)
    requires |bs| >= 3
    ensures var s := Base64Encode(bs); |s| >= 4 && s[4..] == Base64Encode(bs[3..])
  {
    var s := Base64Encode(bs);
    assert s == ThreeByteGroup(bs[0], bs[1], bs[2]) + Base64Encode(bs[3..]);
  }

  /** The first group of the encoding of three or more bytes decodes to the first three. */
  lemma FirstGroupOfEncoding(bs: seq<Byte>)
    requires |bs| >= 3
    ensures var s := Base64Encode(bs); |s| >= 4 && DecodeGroup(s[..4], |s| == 4) == Some([bs[0], bs[1], bs[2]])
  {
    var s := Base64Encode(bs);
    assert s[..4] == ThreeByteGroup(bs[0], bs[1], bs[2]);
    DecodeThreeByteGroup(bs[0], bs[1], bs[2], |s| == 4);
  }

  /** Text whose first group decodes to three bytes and whose remainder decodes to the rest decodes to all of them. */
  lemma DecodeGroupThenRest(s: string, bs: seq<Byte>)
    requires |bs| >= 3 && |s| >= 4
    requires DecodeGroup(s[..4], |s| == 4) == Some([bs[0], bs[1], bs[2]])
    requires Base64Decode(s[4..]) == Some(bs[3..])
    ensures Base64Decode(s) == Some(bs)
  {
    DecodeStep(s, [bs[0], bs[1], bs[2]], bs[3..], [bs[0], bs[1], bs[2]] + bs[3..]);
    SplitHead(bs);
  }

  lemma AppendNothing(bs: seq<Byte>)
    ensures bs + [] == bs
  {
  }

  lemma SplitHead(bs: seq<Byte>)
    requires |bs| >= 3
    ensures bs == [bs[0], bs[1], bs[2]] + bs[3..]
  {
  }

  /** Decoding a text is decoding its first group, then the rest. */
  lemma DecodeStep(s: string, group: seq<Byte>, rest: seq<Byte>, all: seq<Byte>)
    requires |s| >= 4 && all == group + rest
    requires DecodeGroup(s[..4], |s| == 4) == Some(group)
    requires Base64Decode(s[4..]) == Some(rest)
    ensures Base64Decode(s) == Some(all)
  {
  }
}
