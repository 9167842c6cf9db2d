/**
 * The hexadecimal codec of src/Util/Hex.js, as its fallback loops compute it
 * (the native `toHex` / `fromHex` paths are not part of this model).
 */
module Hex {
  import opened Bytes

  /** A character `parseInt(_, 16)` reads as a digit. */
  predicate IsHexDigit(c: char) {
    ('0' <= c <= '9') || ('a' <= c <= 'f') || ('A' <= c <= 'F')
  }

  /** The lowercase digit `toString(16)` writes for `n`. */
  function Digit(n: int): (c: char)
    requires 0 <= n < 16
    ensures IsHexDigit(c) && !('A' <= c <= 'F')
  {
    if n < 10 then ('0' as int + n) as char else ('a' as int + n - 10) as char
  }

  /** The value of one hex digit, either case. */
  function DigitValue(c: char): (n: int)
    requires IsHexDigit(c)
    ensures 0 <= n < 16
  {
    if c <= '9' then c as int - '0' as int
    else if c <= 'F' then c as int - 'A' as int + 10
    else c as int - 'a' as int + 10
  }

  lemma DigitValueOfDigit(n: int)
    requires 0 <= n < 16
    ensures DigitValue(Digit(n)) == n
  {
  }

  /** `v.toString(16).padStart(2, '0')`: two lowercase digits, the high one first. */
  function ByteHex(b: Byte): (r: string)
    ensures |r| == 2 && IsHexDigit(r[0]) && IsHexDigit(r[1])
    ensures 16 * DigitValue(r[0]) + DigitValue(r[1]) == b
  {
    DigitValueOfDigit(b / 16);
    DigitValueOfDigit(b % 16);
    [Digit(b / 16), Digit(b % 16)]
  }

  /** `parseInt(t, 16)` of a substring of one or two hex digits. */
  function ParsePair(t: string): (b: Byte)
    requires 1 <= |t| <= 2 && forall i :: 0 <= i < |t| ==> IsHexDigit(t[i])
  {
    if |t| == 1 then DigitValue(t[0]) else 16 * DigitValue(t[0]) + DigitValue(t[1])
  }

  /** Every character is a hex digit: what the decoder asks of its input. */
  predicate AllHex(s: string) {
    forall i :: 0 <= i < |s| ==> IsHexDigit(s[i])
  }

  /** The hex text of `bytes`, byte by byte from the first. */
  function Encoded(bytes: seq<Byte>): (r: string)
    ensures |r| == 2 * |bytes|
    decreases |bytes|
  {
    if |bytes| == 0 then "" else Encoded(bytes[..|bytes| - 1]) + ByteHex(bytes[|bytes| - 1])
  }

  /** The bytes of hex text `s`: pairs of digits, with a lone last digit as its own byte. */
  function Decoded(s: string): (r: seq<Byte>)
    requires AllHex(s)
    ensures |r| == (|s| + 1) / 2
    decreases |s|
  {
    if |s| == 0 then []
    else if |s| == 1 then [ParsePair(s)]
    else [ParsePair(s[..2])] + Decoded(s[2..])
  }

  /** Byte `i` of the text is written at characters `2i` and `2i + 1`, in lowercase. */
  lemma {:induction false} EncodedAt(bytes: seq<Byte>, i: nat)
    requires i < |bytes|
    ensures Encoded(bytes)[2 * i..2 * i + 2] == ByteHex(bytes[i])
    decreases |bytes|
  {
    var n := |bytes| - 1;
    var prefix := bytes[..n];
    assert Encoded(bytes) == Encoded(prefix) + ByteHex(bytes[n]);
    if i < n {
      EncodedAt(prefix, i);
      assert Encoded(bytes)[2 * i..2 * i + 2] == Encoded(prefix)[2 * i..2 * i + 2];
    }
  }

  /** Only lowercase digits are written. */
  lemma EncodedLowercase(bytes: seq<Byte>)
    ensures AllHex(Encoded(bytes))
    ensures forall i :: 0 <= i < |Encoded(bytes)| ==> !('A' <= Encoded(bytes)[i] <= 'F')
  {
    var e := Encoded(bytes);
    forall i | 0 <= i < |e| ensures IsHexDigit(e[i]) && !('A' <= e[i] <= 'F') {
      EncodedAt(bytes, i / 2);
      assert e[i] == e[2 * (i / 2)..2 * (i / 2) + 2][i % 2];
    }
  }

  /** Output byte `i` is parsed from characters `2i` up to `2i + 2`, or to the end. */
  lemma {:induction false} DecodedAt(s: string, i: nat)
    requires AllHex(s) && i < (|s| + 1) / 2
    ensures 2 * i + 2 <= |s| ==> Decoded(s)[i] == ParsePair(s[2 * i..2 * i + 2])
    ensures 2 * i + 2 > |s| ==> Decoded(s)[i] == ParsePair(s[2 * i..])
    decreases |s|
  {
    if |s| > 1 && i > 0 {
      DecodedAt(s[2..], i - 1);
      assert s[2..][2 * (i - 1)..] == s[2 * i..];
      if 2 * i + 2 <= |s| {
        assert s[2..][2 * (i - 1)..2 * (i - 1) + 2] == s[2 * i..2 * i + 2];
      }
    }
  }

  /** With an odd number of digits the last byte is the value of the lone last digit. */
  lemma DecodedOdd(s: string)
    requires AllHex(s) && |s| % 2 == 1
    ensures Decoded(s)[|s| / 2] == DigitValue(s[|s| - 1])
  {
    DecodedAt(s, |s| / 2);
    assert s[2 * (|s| / 2)..] == [s[|s| - 1]];
  }

  /** `decode(encode(b)) == b`. */
  lemma DecodeEncode(bytes: seq<Byte>)
    ensures AllHex(Encoded(bytes)) && Decoded(Encoded(bytes)) == bytes
  {
    EncodedLowercase(bytes);
    var e := Encoded(bytes);
    forall i | 0 <= i < |bytes| ensures Decoded(e)[i] == bytes[i] {
      DecodedAt(e, i);
      EncodedAt(bytes, i);
    }
  }

  /** `Hex.encode`: the loop appending two digits per byte. */
  method Encode(input: seq<Byte>) returns (result: string)
    ensures result == Encoded(input)
  {
    result := "";
    for i := 0 to |input|
      invariant result == Encoded(input[..i])
    {
      assert input[..i + 1][..i] == input[..i];
      result := result + ByteHex(input[i]);
    }
    assert input[..|input|] == input;
  }

  /** `Hex.decode`: a buffer of `ceil(length / 2)` bytes filled by index. */
  method Decode(input: string) returns (bytes: seq<Byte>)
    requires AllHex(input)
    ensures bytes == Decoded(input)
  {
    var length := (|input| + 1) / 2;
    var result := new Byte[length];
    for i := 0 to length
      invariant forall k :: 0 <= k < i ==> result[k] == Decoded(input)[k]
    {
      DecodedAt(input, i);
      if 2 * i + 2 <= |input| {
        result[i] := ParsePair(input[2 * i..2 * i + 2]);
      } else {
        result[i] := ParsePair(input[2 * i..]);
      }
    }
    bytes := result[..];
  }
}
