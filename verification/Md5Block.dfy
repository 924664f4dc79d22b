/**
 The MD5 block function on 32-bit words.
 */
module Md5Block {
  import opened Basics
  import opened Md5Rounds
  import opened Md5Stream

  type Words = State<bv32>

  function F(x: bv32, y: bv32, z: bv32): bv32 { (x & y) | (!x & z) }
  function G(x: bv32, y: bv32, z: bv32): bv32 { (x & z) | (y & !z) }
  function H(x: bv32, y: bv32, z: bv32): bv32 { x ^ y ^ z }
  function I(x: bv32, y: bv32, z: bv32): bv32 { y ^ (x | !z) }

  function RotateLeft(x: bv32, n: nat): bv32 {
    var k := n % 32;
    (x << k) | (x >> (32 - k))
  }

  /** The macros FF, GG, HH and II, which differ in their mixing function only. */
  function Op(round: nat, a: bv32, b: bv32, c: bv32, d: bv32, x: bv32, s: nat, ac: bv32): bv32 {
    var mixed := if round == 0 then F(b, c, d) else if round == 1 then G(b, c, d)
                 else if round == 2 then H(b, c, d) else I(b, c, d);
    RotateLeft(a + (mixed + x + ac), s) + b
  }

  /** The constants of the 64 steps, in their order. */
  const SINES: seq<bv32> := [
    0xd76aa478, 0xe8c7b756, 0x242070db, 0xc1bdceee,
    0xf57c0faf, 0x4787c62a, 0xa8304613, 0xfd469501,
    0x698098d8, 0x8b44f7af, 0xffff5bb1, 0x895cd7be,
    0x6b901122, 0xfd987193, 0xa679438e, 0x49b40821,
    0xf61e2562, 0xc040b340, 0x265e5a51, 0xe9b6c7aa,
    0xd62f105d, 0x2441453, 0xd8a1e681, 0xe7d3fbc8,
    0x21e1cde6, 0xc33707d6, 0xf4d50d87, 0x455a14ed,
    0xa9e3e905, 0xfcefa3f8, 0x676f02d9, 0x8d2a4c8a,
    0xfffa3942, 0x8771f681, 0x6d9d6122, 0xfde5380c,
    0xa4beea44, 0x4bdecfa9, 0xf6bb4b60, 0xbebfbc70,
    0x289b7ec6, 0xeaa127fa, 0xd4ef3085, 0x4881d05,
    0xd9d4d039, 0xe6db99e5, 0x1fa27cf8, 0xc4ac5665,
    0xf4292244, 0x432aff97, 0xab9423a7, 0xfc93a039,
    0x655b59c3, 0x8f0ccc92, 0xffeff47d, 0x85845dd1,
    0x6fa87e4f, 0xfe2ce6e0, 0xa3014314, 0x4e0811a1,
    0xf7537e82, 0xbd3af235, 0x2ad7d2bb, 0xeb86d391]

  function Add(x: bv32, y: bv32): bv32 { x + y }

  lemma SinesLength()
    ensures |SINES| == 64
  {
  }

  function Transform(s: Words, block: Block): Words {
    SinesLength();
    Compress(Op, Add, SINES, DecodeWords(block), s)
  }

  // ----- words and bytes -----

  function Word(b0: bv8, b1: bv8, b2: bv8, b3: bv8): bv32 {
    (b0 as bv32) | ((b1 as bv32) << 8) | ((b2 as bv32) << 16) | ((b3 as bv32) << 24)
  }

  function WordBytes(w: bv32): seq<bv8> {
    [(w & 0xff) as bv8, ((w >> 8) & 0xff) as bv8, ((w >> 16) & 0xff) as bv8, ((w >> 24) & 0xff) as bv8]
  }

  function DecodeWords(bs: seq<bv8>): (ws: seq<bv32>)
    requires |bs| % 4 == 0
    ensures |ws| == |bs| / 4
  {
    if bs == [] then [] else [Word(bs[0], bs[1], bs[2], bs[3])] + DecodeWords(bs[4..])
  }

  function EncodeWords(ws: seq<bv32>): (bs: seq<bv8>)
    ensures |bs| == 4 * |ws|
  {
    if ws == [] then [] else WordBytes(ws[0]) + EncodeWords(ws[1..])
  }

  function EncodeState(s: Words): (bs: seq<bv8>)
    ensures |bs| == 16
  {
    EncodeWords([s.a, s.b, s.c, s.d])
  }

  lemma WordRoundTrip(w: bv32)
    ensures var bs := WordBytes(w); Word(bs[0], bs[1], bs[2], bs[3]) == w
  {
  }

  /** Decode undoes Encode, so no two states share a digest. */
  lemma {:induction false} DecodeEncode(ws: seq<bv32>)
    ensures DecodeWords(EncodeWords(ws)) == ws
  {
    if ws != [] {
      WordRoundTrip(ws[0]);
      var bs := EncodeWords(ws);
      assert bs[..4] == WordBytes(ws[0]) && bs[4..] == EncodeWords(ws[1..]);
      DecodeEncode(ws[1..]);
    }
  }

  lemma Joined(b: bv8, c: bv32)
    requires c < 0x1000000
    ensures ((b as bv32) | (c << 8)) as nat == b as nat + 256 * (c as nat)
  {
  }

  lemma ByteAgain(b: bv8)
    ensures (b as nat) as bv8 == b && (b as bv32) as nat == b as nat < 256
  {
  }

  lemma Nested(b0: bv8, b1: bv8, b2: bv8, b3: bv8)
    ensures Word(b0, b1, b2, b3)
         == (b0 as bv32) | (((b1 as bv32) | (((b2 as bv32) | ((b3 as bv32) << 8)) << 8)) << 8)
    ensures (b3 as bv32) < 0x1000000 && ((b2 as bv32) | ((b3 as bv32) << 8)) < 0x1000000
    ensures ((b1 as bv32) | (((b2 as bv32) | ((b3 as bv32) << 8)) << 8)) < 0x1000000
  {
  }

  /** A byte in front of a number's bytes is its lowest digit. */
  lemma LowestFirst(b: bv8, digit: nat, rest: nat, size: nat)
    requires digit < 256 && digit as bv8 == b
    ensures LittleEndian(digit + 256 * rest, size + 1) == [b] + LittleEndian(rest, size)
  {
  }

  /** The length bytes that finish a message are what Encode makes of the two counter words. */
  lemma CountBytes(w: bv32)
    ensures LittleEndian(w as nat, 4) == WordBytes(w)
  {
    var bs := WordBytes(w);
    WordRoundTrip(w);
    WordValue(bs[0], bs[1], bs[2], bs[3]);
    Digits(bs, bs[0] as nat, bs[1] as nat, bs[2] as nat, bs[3] as nat, 1);
  }

  lemma WordValue(b0: bv8, b1: bv8, b2: bv8, b3: bv8)
    ensures Word(b0, b1, b2, b3) as nat == b0 as nat + 256 * (b1 as nat + 256 * (b2 as nat + 256 * (b3 as nat)))
  {
    var c3 := b3 as bv32;
    var c2 := (b2 as bv32) | (c3 << 8);
    var c1 := (b1 as bv32) | (c2 << 8);
    Nested(b0, b1, b2, b3);
    ByteAgain(b3);
    Joined(b2, c3);
    Joined(b1, c2);
    Joined(b0, c1);
  }

  lemma Digits(bs: seq<bv8>, d0: nat, d1: nat, d2: nat, d3: nat, size: nat)
    requires |bs| == 4 && size == 1 && d0 < 256 && d1 < 256 && d2 < 256 && d3 < 256
    requires d0 as bv8 == bs[0] && d1 as bv8 == bs[1] && d2 as bv8 == bs[2] && d3 as bv8 == bs[3]
    ensures LittleEndian(d0 + 256 * (d1 + 256 * (d2 + 256 * d3)), size + 3) == bs
  {
    LowestFirst(bs[3], d3, 0, size - 1);
    LowestFirst(bs[2], d2, d3, size);
    LowestFirst(bs[1], d1, d2 + 256 * d3, size + 1);
    LowestFirst(bs[0], d0, d1 + 256 * (d2 + 256 * d3), size + 2);
  }

  /** Decode: a loop over groups of four bytes. */
  method Decode(input: seq<bv8>) returns (output: seq<bv32>)
    requires |input| % 4 == 0
    ensures output == DecodeWords(input)
  {
    output := [];
    var j := 0;
    while j < |input|
      invariant j <= |input| && j % 4 == 0
      invariant DecodeWords(input) == output + DecodeWords(input[j..])
    {
      assert input[j..][4..] == input[j + 4..];
      output := output + [Word(input[j], input[j + 1], input[j + 2], input[j + 3])];
      j := j + 4;
    }
  }

  /** Encode: a loop over words. */
  method Encode(input: seq<bv32>) returns (output: seq<bv8>)
    ensures output == EncodeWords(input)
  {
    output := [];
    var i := 0;
    while i < |input|
      invariant i <= |input|
      invariant EncodeWords(input) == output + EncodeWords(input[i..])
    {
      assert input[i..][1..] == input[i + 1..];
      output := output + WordBytes(input[i]);
      i := i + 1;
    }
  }

  /** MD5Transform: the unrolled code is the block function. */
  method MD5Transform(state: Words, block: Block) returns (state': Words)
    ensures state' == Transform(state, block)
  {
    var x := Decode(block);
    SinesLength();
    state' := Unrolled(Op, Add, SINES, x, state);
  }

  const MD5: BlockHash<Words> :=
    BlockHash(State(0x67452301, 0xefcdab89, 0x98badcfe, 0x10325476), Transform, EncodeState)

  /** md5_signature: the digest of RFC 1321 of the whole key. */
  method Md5Signature(key: seq<bv8>) returns (result: seq<bv8>)
    requires |key| < TWO_32
    ensures result == Digest(MD5, key)
  {
    result := DigestOnce(MD5, key);
  }
}
