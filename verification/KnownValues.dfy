/**
 The hash values the repository's own tests expect for one key, as theorems about the models of these hashes: they fix
 the start values, the primes and the polynomial, which the code and the specification have in common.
 */
module KnownValues {
  import opened Basics
  import opened Words
  import C = Crc32
  import B = ByteHashes

  /** The first key of the tests, "apple". */
  const APPLE: seq<Byte> := [0x61, 0x70, 0x70, 0x6c, 0x65]

  // ----- exclusive or of bytes, on numbers and on bit vectors -----

  lemma HalfIsShift(v: bv8)
    ensures (v >> 1) as nat == v as nat / 2
  {
  }

  lemma ParityIs(v: bv8)
    ensures (v & 1) as nat == v as nat % 2
  {
  }

  lemma XorHalf(x: bv8, y: bv8)
    ensures (x >> 1) ^ (y >> 1) == (x ^ y) >> 1
    ensures (x & 1 == y & 1) <==> (x ^ y) & 1 == 0
    ensures (x & 1) == 0 || x & 1 == 1
  {
  }

  lemma Bits(v: bv8)
    ensures v & 1 == 0 ==> (v & 1) as nat == 0
    ensures v & 1 == 1 ==> (v & 1) as nat == 1
  {
  }

  lemma Zero(v: bv8)
    ensures v as nat == 0 <==> v == 0
  {
  }

  lemma Digit(x: nat, y: nat, z: nat)
    requires Xor(x / 2, y / 2) == z / 2 && (x % 2 == y % 2 <==> z % 2 == 0)
    ensures Xor(x, y) == z
  {
  }

  lemma LastBit(x: bv8, y: bv8)
    ensures x as nat % 2 == y as nat % 2 <==> (x ^ y) as nat % 2 == 0
  {
    ParityIs(x);
    ParityIs(y);
    ParityIs(x ^ y);
    XorHalf(x, y);
    Bits(x);
    Bits(y);
    Bits(x ^ y);
  }

  lemma Halves(x: bv8, y: bv8)
    requires Xor((x >> 1) as nat, (y >> 1) as nat) == ((x >> 1) ^ (y >> 1)) as nat
    ensures Xor(x as nat / 2, y as nat / 2) == (x ^ y) as nat / 2
  {
    HalfIsShift(x);
    HalfIsShift(y);
    HalfIsShift(x ^ y);
    XorHalf(x, y);
  }

  lemma HalfFits(v: bv8, n: nat)
    requires v as nat < Pow2(n) && n > 0
    ensures (v >> 1) as nat < Pow2(n - 1)
  {
    HalfIsShift(v);
  }

  lemma OneMore(x: bv8, y: bv8)
    requires Xor((x >> 1) as nat, (y >> 1) as nat) == ((x >> 1) ^ (y >> 1)) as nat
    ensures Xor(x as nat, y as nat) == (x ^ y) as nat
  {
    Halves(x, y);
    LastBit(x, y);
    Digit(x as nat, y as nat, (x ^ y) as nat);
  }

  lemma None(x: bv8, y: bv8)
    requires x as nat < 1 && y as nat < 1
    ensures Xor(x as nat, y as nat) == (x ^ y) as nat
  {
    Zero(x);
    Zero(y);
  }

  /** On bytes the two are the same. */
  lemma {:induction false} XorIs(x: bv8, y: bv8, n: nat)
    requires x as nat < Pow2(n) && y as nat < Pow2(n)
    ensures Xor(x as nat, y as nat) == (x ^ y) as nat
    decreases n
  {
    if n == 0 {
      None(x, y);
    } else {
      HalfFits(x, n);
      HalfFits(y, n);
      XorIs(x >> 1, y >> 1, n - 1);
      OneMore(x, y);
    }
  }

  lemma LowEight(x: nat)
    ensures LowBits(x, 8) == x % 256 && ShiftRight(x, 8) == x / 256
  {
    assert Pow2(8) == 256;
    BitsSplit(x, 8);
    DigitsOf(x, ShiftRight(x, 8), LowBits(x, 8));
  }

  lemma Split(x: nat, y: nat)
    ensures Xor(x, y) == 256 * Xor(x / 256, y / 256) + Xor(x % 256, y % 256)
  {
    LowEight(x);
    LowEight(y);
    LowEight(Xor(x, y));
    LowBitsXor(x, y, 8);
    ShiftRightXor(x, y, 8);
  }

  lemma {:induction false} XorZero(x: nat)
    ensures Xor(x, 0) == x
  {
    if x > 0 {
      XorZero(x / 2);
    }
  }

  /** A byte changes the last byte of a word only. */
  lemma XorByte(h: nat, b: nat, g: nat, x: bv8, y: bv8)
    requires h == 256 * g + x as nat && b == y as nat
    ensures Xor(h, b) == 256 * g + (x ^ y) as nat
  {
    Split(h, b);
    DigitsOf(h, g, x as nat);
    DigitsOf(b, 0, y as nat);
    XorZero(g);
    XorIs(x, y, 8);
  }

  lemma DigitsOf(h: nat, g: nat, low: nat)
    requires h == 256 * g + low && low < 256
    ensures h / 256 == g && h % 256 == low
  {
  }

  // ----- the steps of FNV on numbers -----

  lemma RemainderIs(n: nat, q: nat, r: Word)
    requires n == q * TWO_32 + r
    ensures n % TWO_32 == r
  {
  }

  lemma StepsAre(prime: nat, h: Word, b: Byte)
    requires b < 0x80
    ensures B.Fnv1Step(prime)(h, b) == Xor(h * prime % TWO_32, b)
    ensures B.Fnv1aStep(prime)(h, b) == Xor(h, b) * prime % TWO_32
  {
  }

  lemma Fnv1Moves(prime: nat, h: Word, b: Byte, q: nat, v: Word, g: nat, x: bv8, y: bv8, r: Word)
    requires h * prime == q * TWO_32 + v && v == 256 * g + x as nat
    requires b == y as nat && b < 0x80 && r == 256 * g + (x ^ y) as nat
    ensures B.Fnv1Step(prime)(h, b) == r
  {
    RemainderIs(h * prime, q, v);
    XorByte(v, b, g, x, y);
    StepsAre(prime, h, b);
  }

  lemma Fnv1aMoves(prime: nat, h: Word, b: Byte, g: nat, x: bv8, y: bv8, v: nat, q: nat, r: Word)
    requires h == 256 * g + x as nat && b == y as nat && b < 0x80
    requires v == 256 * g + (x ^ y) as nat && v * prime == q * TWO_32 + r
    ensures B.Fnv1aStep(prime)(h, b) == r
  {
    XorByte(h, b, g, x, y);
    RemainderIs(v * prime, q, r);
    StepsAre(prime, h, b);
  }

  lemma FoldFive<S>(step: (S, Byte) -> S, key: seq<Byte>, s0: S, s1: S, s2: S, s3: S, s4: S, s5: S,
                    k0: Byte, k1: Byte, k2: Byte, k3: Byte, k4: Byte)
    requires key == [k0, k1, k2, k3, k4]
    requires step(s0, k0) == s1 && step(s1, k1) == s2 && step(s2, k2) == s3 && step(s3, k3) == s4 && step(s4, k4) == s5
    ensures B.Fold(step, s0, key) == s5
  {
    B.FoldSnoc(step, s0, key, 0);
    B.FoldSnoc(step, s0, key, 1);
    B.FoldSnoc(step, s0, key, 2);
    B.FoldSnoc(step, s0, key, 3);
    B.FoldSnoc(step, s0, key, 4);
    assert key[..5] == key && key[..0] == [];
  }

  /** What the tests expect of fnv1_32. */
  lemma Fnv1Apple32()
    ensures B.Fold<Word>(B.Fnv1Step(B.FNV_32_PRIME), B.FNV_32_INIT, APPLE) == 67176023
  {
    Fnv1Moves(B.FNV_32_PRIME, 0x811c9dc5, 0x61, 0x811d69, 0x050c5d1f, 0x050c5d, 0x1f, 0x61, 0x050c5d7e);
    Fnv1Moves(B.FNV_32_PRIME, 0x050c5d7e, 0x70, 0x50c65, 0x70772d5a, 0x70772d, 0x5a, 0x70, 0x70772d2a);
    Fnv1Moves(B.FNV_32_PRIME, 0x70772d2a, 0x70, 0x7077de, 0x359c191e, 0x359c19, 0x1e, 0x70, 0x359c196e);
    Fnv1Moves(B.FNV_32_PRIME, 0x359c196e, 0x6c, 0x359c6d, 0xd2bc082a, 0xd2bc08, 0x2a, 0x6c, 0xd2bc0846);
    Fnv1Moves(B.FNV_32_PRIME, 0xd2bc0846, 0x65, 0xd2bd54, 0x04010632, 0x040106, 0x32, 0x65, 0x04010657);
    FoldFive<Word>(B.Fnv1Step(B.FNV_32_PRIME), APPLE,
      0x811c9dc5, 0x050c5d7e, 0x70772d2a, 0x359c196e, 0xd2bc0846, 0x04010657,
      0x61, 0x70, 0x70, 0x6c, 0x65);
  }

  /** What the tests expect of fnv1a_32. */
  lemma Fnv1aApple32()
    ensures B.Fold<Word>(B.Fnv1aStep(B.FNV_32_PRIME), B.FNV_32_INIT, APPLE) == 280767167
  {
    Fnv1aMoves(B.FNV_32_PRIME, 0x811c9dc5, 0x61, 0x811c9d, 0xc5, 0x61, 0x811c9da4, 0x811d68, 0xe40c292c);
    Fnv1aMoves(B.FNV_32_PRIME, 0xe40c292c, 0x70, 0xe40c29, 0x2c, 0x70, 0xe40c295c, 0xe40d90, 0x5b251bd4);
    Fnv1aMoves(B.FNV_32_PRIME, 0x5b251bd4, 0x70, 0x5b251b, 0xd4, 0x70, 0x5b251ba4, 0x5b25ab, 0x1f6a832c);
    Fnv1aMoves(B.FNV_32_PRIME, 0x1f6a832c, 0x6c, 0x1f6a83, 0x2c, 0x6c, 0x1f6a8340, 0x1f6ab4, 0xb4ac9dc0);
    Fnv1aMoves(B.FNV_32_PRIME, 0xb4ac9dc0, 0x65, 0xb4ac9d, 0xc0, 0x65, 0xb4ac9da5, 0xb4adba, 0x10bc2abf);
    FoldFive<Word>(B.Fnv1aStep(B.FNV_32_PRIME), APPLE,
      0x811c9dc5, 0xe40c292c, 0x5b251bd4, 0x1f6a832c, 0xb4ac9dc0, 0x10bc2abf,
      0x61, 0x70, 0x70, 0x6c, 0x65);
  }

  // The low halves of the 64-bit prime and the 64-bit start value.
  const LOW_PRIME: Word := 0x1b3
  const LOW_INIT: Word := 0x84222325

  lemma Fnv1LowApple()
    ensures B.Fold<Word>(B.Fnv1Step(LOW_PRIME), LOW_INIT, APPLE) == 473199127
  {
    Fnv1Moves(LOW_PRIME, 0x84222325, 0x61, 0xe0, 0x8601b7df, 0x8601b7, 0xdf, 0x61, 0x8601b7be);
    Fnv1Moves(LOW_PRIME, 0x8601b7be, 0x70, 0xe3, 0xb4eb37da, 0xb4eb37, 0xda, 0x70, 0xb4eb37aa);
    Fnv1Moves(LOW_PRIME, 0xb4eb37aa, 0x70, 0x133, 0x6baf95de, 0x6baf95, 0xde, 0x70, 0x6baf95ae);
    Fnv1Moves(LOW_PRIME, 0x6baf95ae, 0x6c, 0xb6, 0xfb5b56aa, 0xfb5b56, 0xaa, 0x6c, 0xfb5b56c6);
    Fnv1Moves(LOW_PRIME, 0xfb5b56c6, 0x65, 0x1ab, 0x1c347272, 0x1c3472, 0x72, 0x65, 0x1c347217);
    FoldFive<Word>(B.Fnv1Step(LOW_PRIME), APPLE,
      0x84222325, 0x8601b7be, 0xb4eb37aa, 0x6baf95ae, 0xfb5b56c6, 0x1c347217,
      0x61, 0x70, 0x70, 0x6c, 0x65);
  }

  lemma Fnv1aLowApple()
    ensures B.Fold<Word>(B.Fnv1aStep(LOW_PRIME), LOW_INIT, APPLE) == 1488911807
  {
    Fnv1aMoves(LOW_PRIME, 0x84222325, 0x61, 0x842223, 0x25, 0x61, 0x84222344, 0xe0, 0x8601ec8c);
    Fnv1aMoves(LOW_PRIME, 0x8601ec8c, 0x70, 0x8601ec, 0x8c, 0x70, 0x8601ecfc, 0xe3, 0xb545b034);
    Fnv1aMoves(LOW_PRIME, 0xb545b034, 0x70, 0xb545b0, 0x34, 0x70, 0xb545b044, 0x134, 0x056a838c);
    Fnv1aMoves(LOW_PRIME, 0x056a838c, 0x6c, 0x056a83, 0x8c, 0x6c, 0x056a83e0, 0x9, 0x33fe15a0);
    Fnv1aMoves(LOW_PRIME, 0x33fe15a0, 0x65, 0x33fe15, 0xa0, 0x65, 0x33fe15c5, 0x58, 0x58befdbf);
    FoldFive<Word>(B.Fnv1aStep(LOW_PRIME), APPLE,
      0x84222325, 0x8601ec8c, 0xb545b034, 0x056a838c, 0x33fe15a0, 0x58befdbf,
      0x61, 0x70, 0x70, 0x6c, 0x65);
  }

  /** What the tests expect of fnv1_64 and fnv1a_64. */
  lemma Fnv64Apple()
    ensures B.Low(B.Fold(B.Fnv1Step64, B.FNV_64_INIT, APPLE)) == 473199127
    ensures B.Low(B.Fold(B.Fnv1aStep64, B.FNV_64_INIT, APPLE)) == 1488911807
  {
    B.LowHalf(APPLE);
    assert B.FNV_64_PRIME % TWO_32 == LOW_PRIME && B.FNV_64_INIT % TWO_32 == LOW_INIT;
    Fnv1LowApple();
    Fnv1aLowApple();
  }

  // ----- CRC-32 -----

  const BYTES: seq<bv8> := [0x61, 0x70, 0x70, 0x6c, 0x65]

  lemma Fed(c: bv32, b: bv8, r: bv32)
    requires C.Eight(C.Xor(c, b as bv32)) == r
    ensures C.FeedByte(c, b) == r
  {
    C.FeedIsEight(c, b);
  }

  lemma RegisterFive<S>(feed: (S, bv8) -> S, key: seq<bv8>, s0: S, s1: S, s2: S, s3: S, s4: S, s5: S)
    requires |key| == 5 && s1 == feed(s0, key[0]) && s2 == feed(s1, key[1]) && s3 == feed(s2, key[2])
    requires s4 == feed(s3, key[3]) && s5 == feed(s4, key[4])
    ensures C.Register(feed, s0, key) == s5
  {
    RegisterSnoc(feed, s0, key, 0);
    RegisterSnoc(feed, s0, key, 1);
    RegisterSnoc(feed, s0, key, 2);
    RegisterSnoc(feed, s0, key, 3);
    RegisterSnoc(feed, s0, key, 4);
    assert key[..5] == key && key[..0] == [];
  }

  lemma RegisterSnoc<S>(feed: (S, bv8) -> S, start: S, key: seq<bv8>, i: nat)
    requires i < |key|
    ensures C.Register(feed, start, key[..i + 1]) == feed(C.Register(feed, start, key[..i]), key[i])
  {
    assert key[..i + 1][..i] == key[..i];
  }

  /** What the tests expect of crc. */
  lemma CrcApple()
    ensures (C.Crc(BYTES) >> 16) & 0x7fff == 10542
  {
    Fed(0xffffffff, 0x61, 0x174841bc);
    Fed(0x174841bc, 0x70, 0x92c5c6da);
    Fed(0x92c5c6da, 0x70, 0x36918f30);
    Fed(0x36918f30, 0x6c, 0x62eb8c50);
    Fed(0x62eb8c50, 0x65, 0x56d12faf);
    RegisterFive(C.FeedByte, BYTES,
      0xffffffff, 0x174841bc, 0x92c5c6da, 0x36918f30, 0x62eb8c50, 0x56d12faf);
  }
}
