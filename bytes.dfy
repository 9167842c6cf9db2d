/**
 * Byte buffers (`Uint8Array` contents), the write payload `string | Uint8Array`
 * that every store accepts, and the UTF-8 encoding that `TextEncoder` and
 * writable file streams apply to string payloads.
 */
module Bytes {

  /** One element of a `Uint8Array`. */
  type Byte = b: int | 0 <= b < 256

  /** The `data` argument of `writeFile`: a string or a byte buffer. */
  datatype Data = Text(text: string) | Binary(bytes: seq<Byte>)

  /** The UTF-8 encoding of one Unicode scalar value (RFC 3629 section 3). */
  function Utf8Char(c: char): (r: seq<Byte>)
    ensures 1 <= |r| <= 4
    ensures (c as int < 0x80) <==> (|r| == 1)
    ensures c as int < 0x80 ==> r == [c as int]
    ensures |r| > 1 ==> r[0] >= 0xC0 && forall i :: 1 <= i < |r| ==> 0x80 <= r[i] < 0xC0
  {
    var v := c as int;
    if v < 0x80 then [v]
    else if v < 0x800 then [0xC0 + v / 64, 0x80 + v % 64]
    else if v < 0x1_0000 then [0xE0 + v / 4096, 0x80 + (v / 64) % 64, 0x80 + v % 64]
    else [0xF0 + v / 262144 % 8, 0x80 + (v / 4096) % 64, 0x80 + (v / 64) % 64, 0x80 + v % 64]
  }

  /** `new TextEncoder().encode(s)`: the characters' encodings, in order. */
  function Utf8Encode(s: string): (r: seq<Byte>)
    ensures |s| <= |r| <= 4 * |s|
    ensures (forall i :: 0 <= i < |s| ==> s[i] as int < 0x80) ==>
              |r| == |s| && forall i :: 0 <= i < |s| ==> r[i] == s[i] as int
  {
    if |s| == 0 then [] else Utf8Char(s[0]) + Utf8Encode(s[1..])
  }

  /** The bytes a payload stands for, as a store that keeps bytes receives them. */
  function ToBytes(data: Data): (r: seq<Byte>)
    ensures data.Binary? ==> r == data.bytes
    ensures data.Text? ==> r == Utf8Encode(data.text)
  {
    match data
    case Text(s) => Utf8Encode(s)
    case Binary(b) => b
  }
}
