/** Go's primitive data: bytes, byte strings and fixed-width integers. */
module Bytes {

  /** Go's `byte` (`uint8`). */
  type byte = x: int | 0 <= x < 256

  /** Go's `int64`. Go's `int` is taken to be 64 bits wide as well (amd64, arm64). */
  type int64 = x: int | -0x8000_0000_0000_0000 <= x < 0x8000_0000_0000_0000

  /** A Go `string`: an immutable sequence of bytes, not necessarily valid UTF-8.
      `[]byte(s)` and `string(b)` are the identity on this representation. */
  type GoString = seq<byte>

  /** The bytes of an ASCII literal such as `"merchant_id"`. */
  function Ascii(s: string): (r: GoString)
    requires forall i :: 0 <= i < |s| ==> s[i] as int < 128
    ensures |r| == |s|
  {
    seq(|s|, i requires 0 <= i < |s| => s[i] as int)
  }
}
