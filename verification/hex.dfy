/** Lowercase hexadecimal, as `fmt.Sprintf("%x", b)` renders a byte slice. */
module Hex {
  import opened Bytes
  import opened Errors
  import opened Optional

  /** '0'-'9' or 'a'-'f'. */
  predicate IsLowerHexDigit(c: byte) {
    48 <= c <= 57 || 97 <= c <= 102
  }

  /** The lowercase digit of a nibble. */
  function Digit(v: int): (c: byte)
    requires 0 <= v < 16
    ensures IsLowerHexDigit(c)
  {
    if v < 10 then 48 + v else 87 + v
  }

  /** The nibble of a lowercase digit; None for anything else, upper case included. */
  function DigitValue(c: byte): (r: Option<int>)
    ensures r.Some? <==> IsLowerHexDigit(c)
    ensures r.Some? ==> 0 <= r.value < 16 && Digit(r.value) == c
  {
    if 48 <= c <= 57 then Some(c - 48)
    else if 97 <= c <= 102 then Some(c - 87)
    else None
  }

  /** `%x`: two lowercase digits per byte, high nibble first. */
  function Lower(b: seq<byte>): (r: GoString)
    ensures |r| == 2 * |b|
    ensures forall i :: 0 <= i < |r| ==> IsLowerHexDigit(r[i])
  {
    if b == [] then [] else [Digit(b[0] / 16), Digit(b[0] % 16)] + Lower(b[1..])
  }

  /** Reads lowercase hex back into bytes; None on an odd length or a byte that is
      not a lowercase hex digit. */
  function Parse(s: GoString): (r: Option<seq<byte>>)
    ensures r.Some? ==> |s| == 2 * |r.value|
    decreases |s|
  {
    if s == [] then Some([])
    else if |s| == 1 then None
    else match (DigitValue(s[0]), DigitValue(s[1]), Parse(s[2..]))
      case (Some(h), Some(l), Some(t)) => Some([h * 16 + l] + t)
      case _ => None
  }

  /** Every byte string's rendering reads back as that byte string. */
  lemma {:induction false} ParseLower(b: seq<byte>)
    ensures Parse(Lower(b)) == Some(b)
  {
    if b != [] {
      var r := Lower(b);
      assert r[2..] == Lower(b[1..]);
      ParseLower(b[1..]);
      assert (b[0] / 16) * 16 + b[0] % 16 == b[0];
      assert [b[0]] + b[1..] == b;
    }
  }

  /** Whatever `Parse` accepts is the rendering of what it returns: the lowercase
      form is the only spelling. */
  lemma {:induction false} LowerParse(s: GoString)
    requires Parse(s).Some?
    ensures Lower(Parse(s).value) == s
    decreases |s|
  {
    if s != [] {
      var h := DigitValue(s[0]).value;
      var l := DigitValue(s[1]).value;
      var v := h * 16 + l;
      LowerParse(s[2..]);
      assert v / 16 == h && v % 16 == l;
      assert Parse(s).value[1..] == Parse(s[2..]).value;
      assert s == [s[0], s[1]] + s[2..];
    }
  }

  /** Distinct byte strings render differently. */
  lemma LowerInjective(a: seq<byte>, b: seq<byte>)
    requires Lower(a) == Lower(b)
    ensures a == b
  {
    ParseLower(a);
    ParseLower(b);
  }
}
