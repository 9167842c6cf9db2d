/**
 * Base64 with the alphabet of section 4 of RFC 4648 and `=` padding: the codec
 * behind src/Util/Base64.js, which the snapshot store and the persisted store use
 * to keep bytes as text.
 */
module Base64 {
  import opened Wrappers
  import opened Bytes
  import ErrorFactory

  /** The digit for a six-bit value: `A`-`Z`, `a`-`z`, `0`-`9`, `+`, `/`. */
  function Letter(i: int): (c: char)
    requires 0 <= i < 64
    ensures c != '='
  {
    if i < 26 then ('A' as int + i) as char
    else if i < 52 then ('a' as int + i - 26) as char
    else if i < 62 then ('0' as int + i - 52) as char
    else if i == 62 then '+'
    else '/'
  }

  /** The six-bit value of a digit: its position in the alphabet; nothing outside it. */
  function Value(c: char): (r: Option<int>)
    ensures r.Some? ==> 0 <= r.value < 64 && Letter(r.value) == c
  {
    Find(c, 0)
  }

  /** The first position at or after `i` whose digit is `c`. */
  function Find(c: char, i: nat): (r: Option<int>)
    requires i <= 64
    ensures r.Some? ==> i <= r.value < 64 && Letter(r.value) == c
    decreases 64 - i
  {
    if i == 64 then None else if Letter(i) == c then Some(i) else Find(c, i + 1)
  }

  /** Different values have different digits. */
  lemma LetterInjective(i: int, j: int)
    requires 0 <= i < 64 && 0 <= j < 64 && i != j
    ensures Letter(i) != Letter(j)
  {
  }

  lemma {:induction false} FindLetter(i: int, k: nat)
    requires 0 <= i < 64 && k <= i
    ensures Find(Letter(i), k) == Some(i)
    decreases i - k
  {
    if k < i {
      LetterInjective(k, i);
      FindLetter(i, k + 1);
    }
  }

  lemma ValueLetter(i: int)
    requires 0 <= i < 64
    ensures Value(Letter(i)) == Some(i)
  {
    FindLetter(i, 0);
  }

  /** Encodes the bytes, three bytes to four digits, padding the last group. */
  function Encode(b: seq<Byte>): (s: string)
    ensures |b| == 0 <==> |s| == 0
    ensures 0 < |b| <= 3 <==> |s| == 4
    ensures |s| % 4 == 0
  {
    if |b| == 0 then ""
    else if |b| == 1 then Single(b[0])
    else if |b| == 2 then Pair(b[0], b[1])
    else
      var rest := Encode(b[3..]);
      Mod4Step(|rest|);
      Quad(b[0], b[1], b[2]) + rest
  }

  /** Four more digits keep a multiple of four a multiple of four. */
  lemma Mod4Step(n: nat)
    ensures (n + 4) % 4 == n % 4
  {
  }

  /** Three more bytes make one more group. */
  lemma Div3Step(n: nat)
    ensures (n + 3) / 3 == n / 3 + 1
  {
  }

  /** A last group of one byte: two digits and two `=`. */
  function Single(x: Byte): (s: string)
    ensures |s| == 4 && s[2] == '=' && s[3] == '='
  {
    var m: int := x as int * 16;
    [Letter(m / 64), Letter(m % 64), '=', '=']
  }

  /** A last group of two bytes: three digits and one `=`. */
  function Pair(x: Byte, y: Byte): (s: string)
    ensures |s| == 4 && s[2] != '=' && s[3] == '='
  {
    var m: int := (x as int * 256 + y as int) * 4;
    [Letter(m / 4096), Letter(m / 64 % 64), Letter(m % 64), '=']
  }

  /** The four digits of three bytes, most significant first. */
  function Quad(x: Byte, y: Byte, z: Byte): (s: string)
    ensures |s| == 4 && '=' !in s
  {
    var n := Group(x, y, z);
    [Letter(n / 262144), Letter(n / 4096 % 64), Letter(n / 64 % 64), Letter(n % 64)]
  }

  /** The 24-bit number whose bytes, most significant first, are `x`, `y`, `z`. */
  function Group(x: Byte, y: Byte, z: Byte): (n: int)
    ensures 0 <= n < 0x100_0000
  {
    (x as int * 256 + y as int) * 256 + z as int
  }

  /** Every three bytes, and a last group of one or two, become four digits. */
  lemma {:induction false} EncodeLength(b: seq<Byte>)
    ensures |Encode(b)| == 4 * ((|b| + 2) / 3)
    decreases |b|
  {
    if |b| > 3 {
      EncodeLength(b[3..]);
      Div3Step(|b| - 1);
      assert |b| - 3 + 2 == |b| - 1;
    }
  }

  /** Decodes padded base64; nothing when the text is not of that form. */
  function Decode(s: string): (r: Option<seq<Byte>>)
    ensures r.Some? ==> |s| % 4 == 0
    ensures r.Some? && |s| > 0 ==> |s| / 4 * 3 - 2 <= |r.value| <= |s| / 4 * 3
    decreases |s|
  {
    if |s| == 0 then Some([])
    else if |s| < 4 then None
    else if |s| == 4 then DecodeLast(s[0], s[1], s[2], s[3])
    else match DecodeQuad(s[0], s[1], s[2], s[3])
      case None => None
      case Some(q) =>
        match Decode(s[4..])
        case None => None
        case Some(rest) => Some(q + rest)
  }

  /** The three bytes of a 24-bit group, most significant first. */
  function Bytes3(n: int): (r: seq<Byte>)
    requires 0 <= n < 0x100_0000
    ensures |r| == 3
  {
    var t := n / 256;
    [t / 256, t % 256, n % 256]
  }

  /** Four digits without padding to three bytes. */
  function DecodeQuad(c0: char, c1: char, c2: char, c3: char): (r: Option<seq<Byte>>)
    ensures r.Some? ==> |r.value| == 3
  {
    match (Value(c0), Value(c1), Value(c2), Value(c3))
    case (Some(v0), Some(v1), Some(v2), Some(v3)) =>
      Some(Bytes3(((v0 * 64 + v1) * 64 + v2) * 64 + v3))
    case _ => None
  }

  /** The last group: four digits, or two or three digits and padding. */
  function DecodeLast(c0: char, c1: char, c2: char, c3: char): (r: Option<seq<Byte>>)
    ensures r.Some? ==> 1 <= |r.value| <= 3
  {
    if c2 == '=' && c3 == '=' then
      match (Value(c0), Value(c1))
      case (Some(v0), Some(v1)) => Some([(v0 * 64 + v1) / 16])
      case _ => None
    else if c3 == '=' then
      match (Value(c0), Value(c1), Value(c2))
      case (Some(v0), Some(v1), Some(v2)) =>
        var n := ((v0 * 64 + v1) * 64 + v2) / 4;
        Some([n / 256, n % 256])
      case _ => None
    else DecodeQuad(c0, c1, c2, c3)
  }

  lemma DivMod64(q: int, r: int)
    requires 0 <= r < 64
    ensures (q * 64 + r) / 64 == q && (q * 64 + r) % 64 == r
  {
  }

  lemma DivMod256(q: int, r: int)
    requires 0 <= r < 256
    ensures (q * 256 + r) / 256 == q && (q * 256 + r) % 256 == r
  {
  }

  /** Division by 64 twice is division by 4096; three times, by 262144. */
  lemma NestedDiv(n: int)
    requires 0 <= n
    ensures n / 64 / 64 == n / 4096 && n / 4096 / 64 == n / 262144
  {
    var a, r0 := n / 64, n % 64;
    var b, r1 := a / 64, a % 64;
    var c, r2 := b / 64, b % 64;
    assert n == b * 4096 + (r1 * 64 + r0);
    assert n == c * 262144 + (r2 * 4096 + r1 * 64 + r0);
  }

  /** Base-64 digits recombine to the number they came from. */
  lemma Horner(n: int)
    requires 0 <= n < 0x100_0000
    ensures n / 262144 < 64
    ensures ((n / 262144 * 64 + n / 4096 % 64) * 64 + n / 64 % 64) * 64 + n % 64 == n
    ensures n < 262144 ==> (n / 4096 * 64 + n / 64 % 64) * 64 + n % 64 == n
    ensures n < 4096 ==> n / 64 * 64 + n % 64 == n
  {
    NestedDiv(n);
    var a, r0 := n / 64, n % 64;
    var b, r1 := a / 64, a % 64;
    var c, r2 := b / 64, b % 64;
    assert n == a * 64 + r0;
    assert a == b * 64 + r1;
    assert b == c * 64 + r2;
  }

  lemma QuadRoundTrip(x: Byte, y: Byte, z: Byte)
    ensures var q := Quad(x, y, z); DecodeQuad(q[0], q[1], q[2], q[3]) == Some([x, y, z])
  {
    var n := Group(x, y, z);
    var q := Quad(x, y, z);
    ValueLetter(n / 262144); ValueLetter(n / 4096 % 64); ValueLetter(n / 64 % 64); ValueLetter(n % 64);
    assert Value(q[0]) == Some(n / 262144) && Value(q[1]) == Some(n / 4096 % 64);
    assert Value(q[2]) == Some(n / 64 % 64) && Value(q[3]) == Some(n % 64);
    Horner(n);
    DecodeAt(n, x, y, z);
  }

  /** The bytes of a 24-bit group built from three bytes are those bytes. */
  lemma DecodeAt(n: int, x: Byte, y: Byte, z: Byte)
    requires n == (x as int * 256 + y as int) * 256 + z as int
    ensures 0 <= n < 0x100_0000 && Bytes3(n) == [x, y, z]
  {
    DivMod256(x as int * 256 + y as int, z as int);
    DivMod256(x as int, y as int);
  }

  lemma PairRoundTrip(x: Byte, y: Byte)
    ensures var s := Pair(x, y); DecodeLast(s[0], s[1], s[2], s[3]) == Some([x, y])
  {
    var k: int := x as int * 256 + y as int;
    var m := k * 4;
    var s := Pair(x, y);
    var v0, v1, v2 := m / 4096, m / 64 % 64, m % 64;
    assert s == [Letter(v0), Letter(v1), Letter(v2), '='];
    ValueLetter(v0); ValueLetter(v1); ValueLetter(v2);
    DecodePadded(s[0], s[1], s[2], v0, v1, v2);
    PairDigits(k);
    DivMod256(x as int, y as int);
  }

  /** Three digits and one `=` decode to the two bytes of the 16 bits they carry. */
  lemma DecodePadded(c0: char, c1: char, c2: char, v0: int, v1: int, v2: int)
    requires c2 != '='
    requires Value(c0) == Some(v0) && Value(c1) == Some(v1) && Value(c2) == Some(v2)
    ensures var n := ((v0 * 64 + v1) * 64 + v2) / 4; DecodeLast(c0, c1, c2, '=') == Some([n / 256, n % 256])
  {
  }

  /** The three digits of sixteen bits shifted left by two recombine to those bits. */
  lemma PairDigits(k: int)
    requires 0 <= k < 65536
    ensures var m := k * 4; ((m / 4096 * 64 + m / 64 % 64) * 64 + m % 64) / 4 == k
  {
    var m := k * 4;
    Horner(m);
  }

  lemma SingleRoundTrip(x: Byte)
    ensures var s := Single(x); DecodeLast(s[0], s[1], s[2], s[3]) == Some([x])
  {
    var m: int := x as int * 16;
    ValueLetter(m / 64); ValueLetter(m % 64);
    Horner(m);
  }

  /** Decoding an encoding gives the bytes back. */
  lemma {:induction false} DecodeEncode(b: seq<Byte>)
    ensures Decode(Encode(b)) == Some(b)
    decreases |b|
  {
    if |b| == 1 {
      DecodeEncodeSingle(b);
    } else if |b| == 2 {
      DecodeEncodePair(b);
    } else if |b| == 3 {
      DecodeEncodeGroup(b);
    } else if |b| > 3 {
      DecodeEncode(b[3..]);
      DecodeEncodeMore(b);
    }
  }

  lemma DecodeEncodeSingle(b: seq<Byte>)
    requires |b| == 1
    ensures Decode(Encode(b)) == Some(b)
  {
    var s := Single(b[0]);
    SingleRoundTrip(b[0]);
    assert Encode(b) == s;
    assert Decode(s) == DecodeLast(s[0], s[1], s[2], s[3]);
    assert [b[0]] == b;
  }

  lemma DecodeEncodePair(b: seq<Byte>)
    requires |b| == 2
    ensures Decode(Encode(b)) == Some(b)
  {
    var s := Pair(b[0], b[1]);
    PairRoundTrip(b[0], b[1]);
    assert Encode(b) == s;
    assert Decode(s) == DecodeLast(s[0], s[1], s[2], s[3]);
    assert [b[0], b[1]] == b;
  }

  lemma DecodeEncodeGroup(b: seq<Byte>)
    requires |b| == 3
    ensures Decode(Encode(b)) == Some(b)
  {
    var q := Quad(b[0], b[1], b[2]);
    QuadRoundTrip(b[0], b[1], b[2]);
    assert Encode(b) == q + Encode(b[3..]);
    assert Encode(b[3..]) == "";
    assert Encode(b) == q;
    assert q[3] != '=' by { assert q[3] in q; }
    DecodeGroupLast(q, [b[0], b[1], b[2]]);
    assert [b[0], b[1], b[2]] == b;
  }

  lemma DecodeEncodeMore(b: seq<Byte>)
    requires |b| > 3 && Decode(Encode(b[3..])) == Some(b[3..])
    ensures Decode(Encode(b)) == Some(b)
  {
    var q := Quad(b[0], b[1], b[2]);
    QuadRoundTrip(b[0], b[1], b[2]);
    assert Encode(b) == q + Encode(b[3..]);
    DecodeGroupFirst(q, Encode(b[3..]), [b[0], b[1], b[2]], b[3..]);
    SplitThree(b);
  }

  lemma SplitThree(b: seq<Byte>)
    requires |b| >= 3
    ensures [b[0], b[1], b[2]] + b[3..] == b
  {
  }

  /** The last group of four digits with no padding. */
  lemma DecodeGroupLast(q: string, t: seq<Byte>)
    requires |q| == 4 && q[3] != '=' && DecodeQuad(q[0], q[1], q[2], q[3]) == Some(t)
    ensures Decode(q) == Some(t)
  {
  }

  /** A group of four digits followed by more. */
  lemma DecodeGroupFirst(q: string, rest: string, t: seq<Byte>, u: seq<Byte>)
    requires |q| == 4 && |rest| > 0
    requires DecodeQuad(q[0], q[1], q[2], q[3]) == Some(t) && Decode(rest) == Some(u)
    ensures Decode(q + rest) == Some(t + u)
  {
    var s := q + rest;
    assert s[0] == q[0] && s[1] == q[1] && s[2] == q[2] && s[3] == q[3];
    assert s[4..] == rest;
  }

  /** What `Base64.decode` throws for text that is not padded base64 (the engine's message text is not modelled). */
  const MALFORMED := ErrorFactory.Error("SyntaxError", "invalid base64")

  /** `Base64.decode(text)`: the bytes, or the error for malformed text. */
  function DecodeOrThrow(text: string): (r: ErrorFactory.Result<seq<Byte>>)
    ensures r.Ok? <==> Decode(text).Some?
    ensures r.Ok? ==> Decode(text) == Some(r.value)
    ensures r.Err? ==> r.error == MALFORMED
  {
    match Decode(text)
    case Some(b) => ErrorFactory.Ok(b)
    case None => ErrorFactory.Err(MALFORMED)
  }
}
