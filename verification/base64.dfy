/** Base64 with the standard padded alphabet of section 4 of RFC 4648, as Go's
    `base64.StdEncoding` encodes (`EncodeToString`) and decodes (`DecodeString`). */
module Base64 {
  import opened Bytes
  import opened Errors
  import opened Optional

  /** The padding character '='. */
  const Pad: byte := 61

  /** Holds for the bytes `DecodeString` skips wherever they appear: '\n' and '\r'. */
  predicate IsNewline(c: byte) {
    c == 10 || c == 13
  }

  /** The 6-bit value of an alphabet character, or None for any other byte ('=' too). */
  function Value(c: byte): (r: Option<int>)
    ensures r.Some? ==> 0 <= r.value < 64
  {
    if 65 <= c <= 90 then Some(c - 65)
    else if 97 <= c <= 122 then Some(c - 71)
    else if 48 <= c <= 57 then Some(c + 4)
    else if c == 43 then Some(62)
    else if c == 47 then Some(63)
    else None
  }

  /** The alphabet character of a 6-bit value: A-Z, a-z, 0-9, '+', '/'. */
  function Char(v: int): (c: byte)
    requires 0 <= v < 64
    ensures Value(c) == Some(v)
    ensures c != Pad && !IsNewline(c)
  {
    if v < 26 then 65 + v
    else if v < 52 then 97 + (v - 26)
    else if v < 62 then 48 + (v - 52)
    else if v == 62 then 43
    else 47
  }

  /** The characters are exactly the alphabet: `Value` inverts `Char`. */
  lemma CharOfValue(c: byte)
    requires Value(c).Some?
    ensures Char(Value(c).value) == c
  {
  }

  /** Three bytes as four characters, most significant bits first. */
  function Quad(b0: byte, b1: byte, b2: byte): (q: GoString)
    ensures |q| == 4
  {
    [Char(b0 / 4), Char((b0 % 4) * 16 + b1 / 16), Char((b1 % 16) * 4 + b2 / 64), Char(b2 % 64)]
  }

  /** `EncodeToString`: each group of three bytes becomes four characters; a final
      group of one or two bytes is zero-filled and padded with "==" or "=". */
  function Encode(b: seq<byte>): (r: GoString)
    ensures |r| == 4 * ((|b| + 2) / 3)
    ensures forall i :: 0 <= i < |r| ==> !IsNewline(r[i])
    decreases |b|
  {
    if |b| == 0 then []
    else if |b| == 1 then [Char(b[0] / 4), Char((b[0] % 4) * 16), Pad, Pad]
    else if |b| == 2 then [Char(b[0] / 4), Char((b[0] % 4) * 16 + b[1] / 16), Char((b[1] % 16) * 4), Pad]
    else Quad(b[0], b[1], b[2]) + Encode(b[3..])
  }

  /** The final group of an encoding of `n` bytes: after one trailing byte it ends in
      "==" and its second character leaves the low four bits zero; after two it ends
      in "=" and its third character leaves the low two bits zero. Together with
      `RoundTrip` this fixes the text `EncodeToString` produces. */
  predicate ZeroFilled(r: GoString, n: nat) {
    && (n % 3 == 1 ==>
          && |r| >= 4 && r[|r| - 2] == Pad && r[|r| - 1] == Pad
          && Value(r[|r| - 3]).Some? && Value(r[|r| - 3]).value % 16 == 0)
    && (n % 3 == 2 ==>
          && |r| >= 4 && r[|r| - 1] == Pad
          && Value(r[|r| - 2]).Some? && Value(r[|r| - 2]).value % 4 == 0)
  }

  /** `s` with every '\r' and '\n' removed. */
  function StripNewlines(s: GoString): (r: GoString)
    ensures |r| <= |s|
    ensures forall i :: 0 <= i < |r| ==> !IsNewline(r[i])
    ensures (forall i :: 0 <= i < |s| ==> !IsNewline(s[i])) ==> r == s
  {
    if s == [] then []
    else (if IsNewline(s[0]) then [] else [s[0]]) + StripNewlines(s[1..])
  }

  /** Decodes one group of four characters. Only the final group (`last`) may end in
      padding, "xy==" giving one byte and "xyz=" two; the bits below the last whole
      byte are ignored, as the non-strict decoder does. */
  function DecodeQuad(q: GoString, last: bool): (r: Result<seq<byte>>)
    requires |q| == 4
    ensures r.Success? ==> 1 <= |r.value| <= 3
    ensures r.Success? && |r.value| < 3 ==> last && q[3] == Pad
    ensures r.Failure? ==> r.error == Base64Corrupt
  {
    if last && q[2] == Pad && q[3] == Pad then
      match (Value(q[0]), Value(q[1]))
      case (Some(v0), Some(v1)) => Success([v0 * 4 + v1 / 16])
      case _ => Failure(Base64Corrupt)
    else if last && q[3] == Pad then
      match (Value(q[0]), Value(q[1]), Value(q[2]))
      case (Some(v0), Some(v1), Some(v2)) => Success([v0 * 4 + v1 / 16, (v1 % 16) * 16 + v2 / 4])
      case _ => Failure(Base64Corrupt)
    else
      match (Value(q[0]), Value(q[1]), Value(q[2]), Value(q[3]))
      case (Some(v0), Some(v1), Some(v2), Some(v3)) =>
        Success([v0 * 4 + v1 / 16, (v1 % 16) * 16 + v2 / 4, (v2 % 4) * 64 + v3])
      case _ => Failure(Base64Corrupt)
  }

  /** Decodes a newline-free text group by group; a trailing fragment shorter than
      a group is corrupt (`Decode` has already rejected such lengths). */
  function DecodeQuads(t: GoString): (r: Result<seq<byte>>)
    ensures r.Success? ==> |t| == 4 * ((|r.value| + 2) / 3)
    ensures r.Failure? ==> r.error == Base64Corrupt
    decreases |t|
  {
    if |t| == 0 then Success([])
    else if |t| < 4 then Failure(Base64Corrupt)
    else
      var head :- DecodeQuad(t[..4], |t| == 4);
      var tail :- DecodeQuads(t[4..]);
      Success(head + tail)
  }

  /** `DecodeString`: newlines are skipped, the rest must be whole groups of four
      alphabet characters with padding only at the very end; anything else is
      corrupt input. */
  function Decode(s: GoString): (r: Result<seq<byte>>)
    ensures r.Success? ==> |StripNewlines(s)| == 4 * ((|r.value| + 2) / 3)
    ensures r.Failure? ==> r.error == Base64Corrupt
  {
    var t := StripNewlines(s);
    if |t| % 4 != 0 then Failure(Base64Corrupt) else DecodeQuads(t)
  }

  lemma QuadRoundTrip(b0: byte, b1: byte, b2: byte, last: bool)
    ensures DecodeQuad(Quad(b0, b1, b2), last) == Success([b0, b1, b2])
  {
    var v0, v1, v2, v3 := b0 / 4, (b0 % 4) * 16 + b1 / 16, (b1 % 16) * 4 + b2 / 64, b2 % 64;
    var q := Quad(b0, b1, b2);
    assert q == [Char(v0), Char(v1), Char(v2), Char(v3)];
    assert q[3] != Pad;
    assert Value(q[0]) == Some(v0) && Value(q[1]) == Some(v1);
    assert Value(q[2]) == Some(v2) && Value(q[3]) == Some(v3);
    SplitQuad(b0, b1, b2);
  }

  lemma SplitQuad(b0: byte, b1: byte, b2: byte)
    ensures var v0, v1, v2, v3 := b0 / 4, (b0 % 4) * 16 + b1 / 16, (b1 % 16) * 4 + b2 / 64, b2 % 64;
      && v0 * 4 + v1 / 16 == b0
      && (v1 % 16) * 16 + v2 / 4 == b1
      && (v2 % 4) * 64 + v3 == b2
  {
  }

  /** The final group of one byte, "xy==", decodes to that byte. */
  lemma PaddedTwoRoundTrip(b0: byte)
    ensures DecodeQuad([Char(b0 / 4), Char((b0 % 4) * 16), Pad, Pad], true) == Success([b0])
  {
    assert ((b0 % 4) * 16) / 16 == b0 % 4;
    assert (b0 / 4) * 4 + b0 % 4 == b0;
  }

  /** The final group of two bytes, "xyz=", decodes to those bytes. */
  lemma PaddedOneRoundTrip(b0: byte, b1: byte)
    ensures DecodeQuad([Char(b0 / 4), Char((b0 % 4) * 16 + b1 / 16), Char((b1 % 16) * 4), Pad], true)
         == Success([b0, b1])
  {
    assert ((b0 % 4) * 16 + b1 / 16) / 16 == b0 % 4;
    assert ((b0 % 4) * 16 + b1 / 16) % 16 == b1 / 16;
    assert ((b1 % 16) * 4) / 4 == b1 % 16;
    assert (b0 / 4) * 4 + b0 % 4 == b0;
    assert (b1 / 16) * 16 + b1 % 16 == b1;
  }

  /** A text of a single group decodes as that group alone. */
  lemma SingleGroup(e: GoString)
    requires |e| == 4
    ensures DecodeQuads(e) == DecodeQuad(e, true)
  {
    assert e[..4] == e && e[4..] == [];
    assert DecodeQuads(e[4..]) == Success([]);
    if DecodeQuad(e, true).Success? {
      assert DecodeQuad(e, true).value + [] == DecodeQuad(e, true).value;
    }
  }

  /** One byte encodes as a single padded group that decodes back to it. */
  lemma OneByteGroup(b0: byte)
    ensures DecodeQuads(Encode([b0])) == Success([b0])
  {
    SingleGroup(Encode([b0]));
    PaddedTwoRoundTrip(b0);
  }

  /** Two bytes encode as a single padded group that decodes back to them. */
  lemma TwoByteGroup(b0: byte, b1: byte)
    ensures DecodeQuads(Encode([b0, b1])) == Success([b0, b1])
  {
    SingleGroup(Encode([b0, b1]));
    PaddedOneRoundTrip(b0, b1);
  }

  /** A text of several groups decodes as its first group followed by the rest. */
  lemma DecodeQuadsCons(q: GoString, rest: GoString, head: seq<byte>, tail: seq<byte>)
    requires |q| == 4
    requires DecodeQuad(q, rest == []) == Success(head)
    requires DecodeQuads(rest) == Success(tail)
    ensures DecodeQuads(q + rest) == Success(head + tail)
  {
    var t := q + rest;
    assert t[..4] == q && t[4..] == rest;
  }

  lemma {:induction false} DecodeQuadsEncode(b: seq<byte>)
    ensures DecodeQuads(Encode(b)) == Success(b)
    decreases |b|
  {
    if |b| == 1 {
      var b0 := b[0];
      assert b == [b0];
      OneByteGroup(b0);
    } else if |b| == 2 {
      var b0, b1 := b[0], b[1];
      assert b == [b0, b1];
      TwoByteGroup(b0, b1);
    } else if |b| >= 3 {
      var b0, b1, b2, tail := b[0], b[1], b[2], b[3..];
      assert b == [b0, b1, b2] + tail;
      DecodeQuadsEncode(tail);
      WholeGroupStep(b0, b1, b2, tail);
    }
  }

  /** The inductive step: three leading bytes decode back ahead of a tail that does. */
  lemma WholeGroupStep(b0: byte, b1: byte, b2: byte, tail: seq<byte>)
    requires DecodeQuads(Encode(tail)) == Success(tail)
    ensures DecodeQuads(Encode([b0, b1, b2] + tail)) == Success([b0, b1, b2] + tail)
  {
    var q, rest := Quad(b0, b1, b2), Encode(tail);
    EncodeCons(b0, b1, b2, tail);
    QuadRoundTrip(b0, b1, b2, rest == []);
    DecodeQuadsCons(q, rest, [b0, b1, b2], tail);
  }

  /** Three leading bytes encode as one whole group ahead of the tail's encoding. */
  lemma EncodeCons(b0: byte, b1: byte, b2: byte, tail: seq<byte>)
    ensures Encode([b0, b1, b2] + tail) == Quad(b0, b1, b2) + Encode(tail)
  {
    var b := [b0, b1, b2] + tail;
    assert b[0] == b0 && b[1] == b1 && b[2] == b2 && b[3..] == tail;
  }

  lemma MultipleOfFour(k: nat)
    ensures (4 * k) % 4 == 0
  {
  }

  /** Decoding recovers exactly the bytes that were encoded. */
  lemma RoundTrip(b: seq<byte>)
    ensures Decode(Encode(b)) == Success(b)
  {
    var e := Encode(b);
    assert StripNewlines(e) == e;
    MultipleOfFour((|b| + 2) / 3);
    assert Decode(e) == DecodeQuads(e);
    DecodeQuadsEncode(b);
  }

  /** A whole group in front keeps the final group's fill. */
  lemma ZeroFilledCons(q: GoString, rest: GoString, n: nat)
    requires |q| == 4 && ZeroFilled(rest, n)
    ensures ZeroFilled(q + rest, n + 3)
  {
    var t := q + rest;
    if n % 3 != 0 {
      assert t[|t| - 3..] == rest[|rest| - 3..];
    }
  }

  /** The unused bits of a padded final group are zero: `EncodeToString` fills the
      missing input bytes with zeros. */
  lemma {:induction false} EncodeZeroFill(b: seq<byte>)
    ensures ZeroFilled(Encode(b), |b|)
    decreases |b|
  {
    if |b| == 1 {
      assert Value(Char((b[0] % 4) * 16)) == Some((b[0] % 4) * 16);
    } else if |b| == 2 {
      assert Value(Char((b[1] % 16) * 4)) == Some((b[1] % 16) * 4);
    } else if |b| >= 3 {
      var b0, b1, b2, tail := b[0], b[1], b[2], b[3..];
      assert b == [b0, b1, b2] + tail;
      EncodeZeroFill(tail);
      EncodeCons(b0, b1, b2, tail);
      ZeroFilledCons(Quad(b0, b1, b2), Encode(tail), |tail|);
    }
  }
}
