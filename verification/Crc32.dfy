/**
 The table-driven CRC-32 of hashkit_crc32 against the bit-by-bit CRC of section 8 of RFC 1952.
 */
module Crc32 {
  import opened Basics

  // ----- a register that shifts, whatever it is made of -----

  function Iterate<S>(step: S -> S, c: S, n: nat): S
    decreases n
  {
    if n == 0 then c else Iterate(step, step(c), n - 1)
  }

  /** The last n bits of b enter the register, lowest first. */
  function Feed<S>(step: S -> S, plus: (S, S) -> S, low: S -> S, half: S -> S, c: S, b: S, n: nat): S
    decreases n
  {
    if n == 0 then c else Feed(step, plus, low, half, step(plus(c, low(b))), half(b), n - 1)
  }

  lemma {:induction false} IterateLinear<S(!new)>(step: S -> S, plus: (S, S) -> S, x: S, y: S, n: nat)
    requires forall v, w :: step(plus(v, w)) == plus(step(v), step(w))
    ensures Iterate(step, plus(x, y), n) == plus(Iterate(step, x, n), Iterate(step, y, n))
    decreases n
  {
    if n > 0 {
      IterateLinear(step, plus, step(x), step(y), n - 1);
    }
  }

  /** Bits that enter one by one may as well be added at the start. */
  lemma {:induction false} FeedAtOnce<S(!new)>(step: S -> S, plus: (S, S) -> S, low: S -> S, half: S -> S, zero: S,
                                               c: S, b: S, n: nat)
    requires forall v, w :: step(plus(v, w)) == plus(step(plus(v, low(w))), half(w))
    requires forall v :: plus(v, zero) == v
    requires Iterate(half, b, n) == zero
    ensures Iterate(step, plus(c, b), n) == Feed(step, plus, low, half, c, b, n)
    decreases n
  {
    if n > 0 {
      FeedAtOnce(step, plus, low, half, zero, step(plus(c, low(b))), half(b), n - 1);
    }
  }

  // ----- the register of RFC 1952 -----

  /** One shift of the register, with the reflected polynomial fed back when a one falls out. */
  function Step(c: bv32): bv32 {
    if c & 1 == 1 then (c >> 1) ^ 0xedb88320 else c >> 1
  }

  function Xor(x: bv32, y: bv32): bv32 { x ^ y }
  function LowBit(b: bv32): bv32 { b & 1 }
  function Half(b: bv32): bv32 { b >> 1 }

  /** The eight bits of a byte enter the register. */
  function FeedByte(c: bv32, b: bv8): bv32 {
    Feed(Step, Xor, LowBit, Half, c, b as bv32, 8)
  }

  /** A register after all the bytes of a key. */
  function Register<S>(feed: (S, bv8) -> S, start: S, key: seq<bv8>): S {
    if key == [] then start else feed(Register(feed, start, key[..|key| - 1]), key[|key| - 1])
  }

  /** The CRC-32 of section 8 of RFC 1952. */
  function Crc(key: seq<bv8>): bv32 {
    !Register(FeedByte, 0xffffffff, key)
  }

  // ----- eight steps at once -----

  function Eight(c: bv32): bv32 {
    Step(Step(Step(Step(Step(Step(Step(Step(c))))))))
  }

  lemma EvenEven(x: bv32, y: bv32)
    requires x & 1 == 0 && y & 1 == 0
    ensures Step(x ^ y) == Step(x) ^ Step(y)
  {
  }

  lemma OddEven(x: bv32, y: bv32)
    requires x & 1 == 1 && y & 1 == 0
    ensures Step(x ^ y) == Step(x) ^ Step(y) == Step(y ^ x)
  {
  }

  lemma OddOdd(x: bv32, y: bv32)
    requires x & 1 == 1 && y & 1 == 1
    ensures Step(x ^ y) == Step(x) ^ Step(y)
  {
  }

  lemma Parity(x: bv32)
    ensures x & 1 == 0 || x & 1 == 1
  {
  }

  lemma XorCommutes(x: bv32, y: bv32)
    ensures x ^ y == y ^ x
  {
  }

  lemma StepLinear(x: bv32, y: bv32)
    ensures Step(Xor(x, y)) == Xor(Step(x), Step(y))
  {
    Parity(x);
    Parity(y);
    if x & 1 == 0 && y & 1 == 0 {
      EvenEven(x, y);
    } else if x & 1 == 0 {
      OddEven(y, x);
      XorCommutes(Step(x), Step(y));
    } else if y & 1 == 0 {
      OddEven(x, y);
    } else {
      OddOdd(x, y);
    }
  }

  lemma EightIterates(c: bv32)
    ensures Iterate(Step, c, 8) == Eight(c)
  {
    IterateEight(Step, c);
  }

  lemma IterateEight<S>(f: S -> S, c: S)
    ensures Iterate(f, c, 8) == f(f(f(f(f(f(f(f(c))))))))
  {
  }

  lemma EightLinear(x: bv32, y: bv32)
    ensures Eight(Xor(x, y)) == Xor(Eight(x), Eight(y))
  {
    forall v: bv32, w: bv32
      ensures Step(Xor(v, w)) == Xor(Step(v), Step(w))
    {
      StepLinear(v, w);
    }
    IterateLinear(Step, Xor, x, y, 8);
    EightIterates(x);
    EightIterates(y);
    EightIterates(Xor(x, y));
  }

  // ----- the table -----

  const ROW_0: seq<bv32> := [
    0x00000000, 0x77073096, 0xee0e612c, 0x990951ba, 0x076dc419, 0x706af48f, 0xe963a535, 0x9e6495a3,
    0x0edb8832, 0x79dcb8a4, 0xe0d5e91e, 0x97d2d988, 0x09b64c2b, 0x7eb17cbd, 0xe7b82d07, 0x90bf1d91]
  const ROW_1: seq<bv32> := [
    0x1db71064, 0x6ab020f2, 0xf3b97148, 0x84be41de, 0x1adad47d, 0x6ddde4eb, 0xf4d4b551, 0x83d385c7,
    0x136c9856, 0x646ba8c0, 0xfd62f97a, 0x8a65c9ec, 0x14015c4f, 0x63066cd9, 0xfa0f3d63, 0x8d080df5]
  const ROW_2: seq<bv32> := [
    0x3b6e20c8, 0x4c69105e, 0xd56041e4, 0xa2677172, 0x3c03e4d1, 0x4b04d447, 0xd20d85fd, 0xa50ab56b,
    0x35b5a8fa, 0x42b2986c, 0xdbbbc9d6, 0xacbcf940, 0x32d86ce3, 0x45df5c75, 0xdcd60dcf, 0xabd13d59]
  const ROW_3: seq<bv32> := [
    0x26d930ac, 0x51de003a, 0xc8d75180, 0xbfd06116, 0x21b4f4b5, 0x56b3c423, 0xcfba9599, 0xb8bda50f,
    0x2802b89e, 0x5f058808, 0xc60cd9b2, 0xb10be924, 0x2f6f7c87, 0x58684c11, 0xc1611dab, 0xb6662d3d]
  const ROW_4: seq<bv32> := [
    0x76dc4190, 0x01db7106, 0x98d220bc, 0xefd5102a, 0x71b18589, 0x06b6b51f, 0x9fbfe4a5, 0xe8b8d433,
    0x7807c9a2, 0x0f00f934, 0x9609a88e, 0xe10e9818, 0x7f6a0dbb, 0x086d3d2d, 0x91646c97, 0xe6635c01]
  const ROW_5: seq<bv32> := [
    0x6b6b51f4, 0x1c6c6162, 0x856530d8, 0xf262004e, 0x6c0695ed, 0x1b01a57b, 0x8208f4c1, 0xf50fc457,
    0x65b0d9c6, 0x12b7e950, 0x8bbeb8ea, 0xfcb9887c, 0x62dd1ddf, 0x15da2d49, 0x8cd37cf3, 0xfbd44c65]
  const ROW_6: seq<bv32> := [
    0x4db26158, 0x3ab551ce, 0xa3bc0074, 0xd4bb30e2, 0x4adfa541, 0x3dd895d7, 0xa4d1c46d, 0xd3d6f4fb,
    0x4369e96a, 0x346ed9fc, 0xad678846, 0xda60b8d0, 0x44042d73, 0x33031de5, 0xaa0a4c5f, 0xdd0d7cc9]
  const ROW_7: seq<bv32> := [
    0x5005713c, 0x270241aa, 0xbe0b1010, 0xc90c2086, 0x5768b525, 0x206f85b3, 0xb966d409, 0xce61e49f,
    0x5edef90e, 0x29d9c998, 0xb0d09822, 0xc7d7a8b4, 0x59b33d17, 0x2eb40d81, 0xb7bd5c3b, 0xc0ba6cad]
  const ROW_8: seq<bv32> := [
    0xedb88320, 0x9abfb3b6, 0x03b6e20c, 0x74b1d29a, 0xead54739, 0x9dd277af, 0x04db2615, 0x73dc1683,
    0xe3630b12, 0x94643b84, 0x0d6d6a3e, 0x7a6a5aa8, 0xe40ecf0b, 0x9309ff9d, 0x0a00ae27, 0x7d079eb1]
  const ROW_9: seq<bv32> := [
    0xf00f9344, 0x8708a3d2, 0x1e01f268, 0x6906c2fe, 0xf762575d, 0x806567cb, 0x196c3671, 0x6e6b06e7,
    0xfed41b76, 0x89d32be0, 0x10da7a5a, 0x67dd4acc, 0xf9b9df6f, 0x8ebeeff9, 0x17b7be43, 0x60b08ed5]
  const ROW_A: seq<bv32> := [
    0xd6d6a3e8, 0xa1d1937e, 0x38d8c2c4, 0x4fdff252, 0xd1bb67f1, 0xa6bc5767, 0x3fb506dd, 0x48b2364b,
    0xd80d2bda, 0xaf0a1b4c, 0x36034af6, 0x41047a60, 0xdf60efc3, 0xa867df55, 0x316e8eef, 0x4669be79]
  const ROW_B: seq<bv32> := [
    0xcb61b38c, 0xbc66831a, 0x256fd2a0, 0x5268e236, 0xcc0c7795, 0xbb0b4703, 0x220216b9, 0x5505262f,
    0xc5ba3bbe, 0xb2bd0b28, 0x2bb45a92, 0x5cb36a04, 0xc2d7ffa7, 0xb5d0cf31, 0x2cd99e8b, 0x5bdeae1d]
  const ROW_C: seq<bv32> := [
    0x9b64c2b0, 0xec63f226, 0x756aa39c, 0x026d930a, 0x9c0906a9, 0xeb0e363f, 0x72076785, 0x05005713,
    0x95bf4a82, 0xe2b87a14, 0x7bb12bae, 0x0cb61b38, 0x92d28e9b, 0xe5d5be0d, 0x7cdcefb7, 0x0bdbdf21]
  const ROW_D: seq<bv32> := [
    0x86d3d2d4, 0xf1d4e242, 0x68ddb3f8, 0x1fda836e, 0x81be16cd, 0xf6b9265b, 0x6fb077e1, 0x18b74777,
    0x88085ae6, 0xff0f6a70, 0x66063bca, 0x11010b5c, 0x8f659eff, 0xf862ae69, 0x616bffd3, 0x166ccf45]
  const ROW_E: seq<bv32> := [
    0xa00ae278, 0xd70dd2ee, 0x4e048354, 0x3903b3c2, 0xa7672661, 0xd06016f7, 0x4969474d, 0x3e6e77db,
    0xaed16a4a, 0xd9d65adc, 0x40df0b66, 0x37d83bf0, 0xa9bcae53, 0xdebb9ec5, 0x47b2cf7f, 0x30b5ffe9]
  const ROW_F: seq<bv32> := [
    0xbdbdf21c, 0xcabac28a, 0x53b39330, 0x24b4a3a6, 0xbad03605, 0xcdd70693, 0x54de5729, 0x23d967bf,
    0xb3667a2e, 0xc4614ab8, 0x5d681b02, 0x2a6f2b94, 0xb40bbe37, 0xc30c8ea1, 0x5a05df1b, 0x2d02ef8d]

  const ROWS: seq<seq<bv32>> := [
    ROW_0, ROW_1, ROW_2, ROW_3, ROW_4, ROW_5, ROW_6, ROW_7,
    ROW_8, ROW_9, ROW_A, ROW_B, ROW_C, ROW_D, ROW_E, ROW_F]

  lemma {:induction false} FlatAt<T>(rows: seq<seq<T>>, r: nat, j: nat)
    requires forall i :: 0 <= i < |rows| ==> |rows[i]| == 16
    ensures |Flat(rows)| == 16 * |rows|
    ensures r < |rows| && j < 16 ==> Flat(rows)[16 * r + j] == rows[r][j]
    decreases |rows|
  {
    if rows != [] {
      FlatAt(rows[..|rows| - 1], r, j);
    }
  }

  const CRC32_TABLE: seq<bv32> := Flat(ROWS)

  lemma RowLengths(r: nat)
    requires r < |ROWS|
    ensures |ROWS| == 16 && |ROWS[r]| == 16
  {
  }

  lemma TableIsRows(r: nat, j: nat)
    requires r < 16 && j < 16
    ensures |ROWS| == 16 && |CRC32_TABLE| == 256 && |ROWS[r]| == 16 && CRC32_TABLE[16 * r + j] == ROWS[r][j]
  {
    assert |ROWS| == 16;
    forall i | 0 <= i < |ROWS|
      ensures |ROWS[i]| == 16
    {
      RowLengths(i);
    }
    FlatAt(ROWS, r, j);
  }

  lemma FirstRowLeft(j: nat)
    requires 0 <= j < 8
    ensures |ROW_0| == 16 && ROW_0[j] == Eight(j as bv32)
  {
    if j < 4 {
      assert j == 0 || j == 1 || j == 2 || j == 3;
    } else {
      assert j == 4 || j == 5 || j == 6 || j == 7;
    }
  }

  lemma FirstRowRight(j: nat)
    requires 8 <= j < 16
    ensures |ROW_0| == 16 && ROW_0[j] == Eight(j as bv32)
  {
  }

  lemma FirstRow(j: nat)
    requires j < 16
    ensures |ROW_0| == 16 && ROW_0[j] == Eight(j as bv32)
  {
    if j < 8 {
      FirstRowLeft(j);
    } else {
      FirstRowRight(j);
    }
  }

  lemma FirstColumnTop(r: nat)
    requires 0 <= r < 8
    ensures |ROWS| == 16 && |ROWS[r]| == 16 && ROWS[r][0] == Eight((r as bv32) << 4)
  {
  }

  lemma FirstColumnBottom(r: nat)
    requires 8 <= r < 16
    ensures |ROWS| == 16 && |ROWS[r]| == 16 && ROWS[r][0] == Eight((r as bv32) << 4)
  {
  }

  lemma FirstColumn(r: nat)
    requires r < 16
    ensures |ROWS| == 16 && |ROWS[r]| == 16 && ROWS[r][0] == Eight((r as bv32) << 4)
  {
    if r < 8 {
      FirstColumnTop(r);
    } else {
      FirstColumnBottom(r);
    }
  }

  /** A row is the first row, shifted by what it begins with. */
  ghost predicate Follows<S>(plus: (S, S) -> S, row: seq<S>, first: seq<S>) {
    |row| == 16 == |first| && forall j :: 0 <= j < 16 ==> row[j] == plus(row[0], first[j])
  }

  lemma Row0()
    ensures Follows(Xor, ROW_0, ROW_0)
  {
  }

  lemma Row1()
    ensures Follows(Xor, ROW_1, ROW_0)
  {
  }

  lemma Row2()
    ensures Follows(Xor, ROW_2, ROW_0)
  {
  }

  lemma Row3()
    ensures Follows(Xor, ROW_3, ROW_0)
  {
  }

  lemma Row4()
    ensures Follows(Xor, ROW_4, ROW_0)
  {
  }

  lemma Row5()
    ensures Follows(Xor, ROW_5, ROW_0)
  {
  }

  lemma Row6()
    ensures Follows(Xor, ROW_6, ROW_0)
  {
  }

  lemma Row7()
    ensures Follows(Xor, ROW_7, ROW_0)
  {
  }

  lemma Row8()
    ensures Follows(Xor, ROW_8, ROW_0)
  {
  }

  lemma Row9()
    ensures Follows(Xor, ROW_9, ROW_0)
  {
  }

  lemma RowA()
    ensures Follows(Xor, ROW_A, ROW_0)
  {
  }

  lemma RowB()
    ensures Follows(Xor, ROW_B, ROW_0)
  {
  }

  lemma RowC()
    ensures Follows(Xor, ROW_C, ROW_0)
  {
  }

  lemma RowD()
    ensures Follows(Xor, ROW_D, ROW_0)
  {
  }

  lemma RowE()
    ensures Follows(Xor, ROW_E, ROW_0)
  {
  }

  lemma RowF()
    ensures Follows(Xor, ROW_F, ROW_0)
  {
  }

  lemma RowShape(r: nat)
    requires r < 16
    ensures |ROWS| == 16 && Follows(Xor, ROWS[r], ROW_0)
  {
    match r {
      case 0 => Row0();
      case 1 => Row1();
      case 2 => Row2();
      case 3 => Row3();
      case 4 => Row4();
      case 5 => Row5();
      case 6 => Row6();
      case 7 => Row7();
      case 8 => Row8();
      case 9 => Row9();
      case 10 => RowA();
      case 11 => RowB();
      case 12 => RowC();
      case 13 => RowD();
      case 14 => RowE();
      case _ => RowF();
    }
  }

  lemma NibblesAsNumbers(x: bv32)
    requires x <= 0xff
    ensures (x >> 4) as nat < 16 && (x & 0xf) as nat < 16
    ensures x as nat == 16 * ((x >> 4) as nat) + ((x & 0xf) as nat)
  {
  }

  lemma ThereAndBack(x: bv32)
    ensures (x as nat) as bv32 == x
  {
  }

  lemma NibblesAsBits(x: bv32)
    requires x <= 0xff
    ensures (x >> 4) << 4 == x & 0xf0 && Xor(x & 0xf0, x & 0xf) == x
  {
  }

  /** The rows hold a linear function of the index when the first row and the first column do. */
  lemma RowEntry<S>(plus: (S, S) -> S, eight: S -> S, row: seq<S>, first: seq<S>, j: nat, high: S, low: S)
    requires Follows(plus, row, first) && j < 16
    requires row[0] == eight(high) && first[j] == eight(low)
    requires eight(plus(high, low)) == plus(eight(high), eight(low))
    ensures row[j] == eight(plus(high, low))
  {
  }

  lemma EntryIs(r: nat, j: nat)
    requires r < 16 && j < 16
    ensures |CRC32_TABLE| == 256 && CRC32_TABLE[16 * r + j] == Eight(Xor((r as bv32) << 4, j as bv32))
  {
    TableIsRows(r, j);
    RowShape(r);
    FirstRow(j);
    FirstColumn(r);
    EightLinear((r as bv32) << 4, j as bv32);
    RowEntry(Xor, Eight, ROWS[r], ROW_0, j, (r as bv32) << 4, j as bv32);
  }

  /** Every entry of a table is eight steps of its index. */
  ghost predicate Tabulates(table: seq<bv32>, eight: bv32 -> bv32) {
    |table| == 256 && forall x: bv32 :: x <= 0xff ==> table[x as nat] == eight(x)
  }

  lemma EntryOf(x: bv32)
    requires x <= 0xff
    ensures |CRC32_TABLE| == 256 && CRC32_TABLE[x as nat] == Eight(x)
  {
    NibblesAsNumbers(x);
    NibblesAsBits(x);
    ThereAndBack(x >> 4);
    ThereAndBack(x & 0xf);
    EntryIs((x >> 4) as nat, (x & 0xf) as nat);
  }

  /** The table of the source is right. */
  lemma TableIsRight()
    ensures Tabulates(CRC32_TABLE, Eight)
  {
    EntryOf(0);
    forall x: bv32 | x <= 0xff
      ensures CRC32_TABLE[x as nat] == Eight(x)
    {
      EntryOf(x);
    }
  }

  // ----- a byte at a time -----

  lemma StepEven(h: bv32)
    requires h & 1 == 0
    ensures Step(h) == h >> 1
  {
  }

  lemma HighPart(h: bv32)
    requires h & 0xff == 0
    ensures Eight(h) == h >> 8
  {
    StepEven(h);
    StepEven(h >> 1);
    StepEven(h >> 2);
    StepEven(h >> 3);
    StepEven(h >> 4);
    StepEven(h >> 5);
    StepEven(h >> 6);
    StepEven(h >> 7);
  }

  lemma HighAndLow(x: bv32)
    ensures Xor(x & 0xffffff00, x & 0xff) == x && (x & 0xffffff00) & 0xff == 0 && (x & 0xffffff00) >> 8 == x >> 8
    ensures x & 0xff <= 0xff
  {
  }

  /** Eight steps move the upper bytes down untouched and look the lowest one up. */
  lemma ByteStep(x: bv32)
    ensures x & 0xff <= 0xff
    ensures Eight(x) == Xor(x >> 8, Eight(x & 0xff))
  {
    HighAndLow(x);
    HighPart(x & 0xffffff00);
    EightLinear(x & 0xffffff00, x & 0xff);
  }

  lemma BitEnters(c: bv32, b: bv32)
    ensures Step(Xor(c, b)) == Xor(Step(Xor(c, LowBit(b))), Half(b))
  {
    StepLinear(Xor(c, LowBit(b)), b & 0xfffffffe);
    BitSplit(c, b);
    StepEven(b & 0xfffffffe);
  }

  lemma BitSplit(c: bv32, b: bv32)
    ensures Xor(Xor(c, LowBit(b)), b & 0xfffffffe) == Xor(c, b)
    ensures (b & 0xfffffffe) & 1 == 0 && (b & 0xfffffffe) >> 1 == Half(b)
  {
  }

  lemma EightHalves(b: bv8)
    ensures Iterate(Half, b as bv32, 8) == 0
  {
    IterateEight(Half, b as bv32);
    ShiftedOut(b);
  }

  lemma ShiftedOut(b: bv8)
    ensures Half(Half(Half(Half(Half(Half(Half(Half(b as bv32)))))))) == 0
  {
  }

  lemma ZeroXor()
    ensures forall v: bv32 :: Xor(v, 0) == v
  {
  }

  /** Feeding the eight bits of a byte is adding the byte and stepping eight times. */
  lemma FeedIsEight(c: bv32, b: bv8)
    ensures FeedByte(c, b) == Eight(Xor(c, b as bv32))
  {
    forall v: bv32, w: bv32
      ensures Step(Xor(v, w)) == Xor(Step(Xor(v, LowBit(w))), Half(w))
    {
      BitEnters(v, w);
    }
    ZeroXor();
    EightHalves(b);
    FeedAtOnce(Step, Xor, LowBit, Half, 0, c, b as bv32, 8);
    EightIterates(Xor(c, b as bv32));
  }

  lemma ShiftDropsByte(c: bv32, b: bv8)
    ensures Xor(c, b as bv32) >> 8 == c >> 8
  {
  }

  /** What one round of the loop computes. */
  function TableRound(table: seq<bv32>, c: bv32, b: bv8): bv32
    requires |table| == 256
  {
    Xor(c >> 8, table[(Xor(c, b as bv32) & 0xff) as nat])
  }

  lemma RoundIs<S>(plus: (S, S) -> S, eight: S -> S, s: S, high: S, low: S, entry: S)
    requires entry == eight(low) && eight(s) == plus(high, eight(low))
    ensures plus(high, entry) == eight(s)
  {
  }

  lemma TableEntry(table: seq<bv32>, eight: bv32 -> bv32, x: bv32)
    requires Tabulates(table, eight)
    ensures table[(x & 0xff) as nat] == eight(x & 0xff)
  {
    HighAndLow(x);
  }

  lemma TableRoundIsEight(table: seq<bv32>, eight: bv32 -> bv32, c: bv32, b: bv8, s: bv32, high: bv32, low: bv32)
    requires |table| == 256 && s == Xor(c, b as bv32) && high == c >> 8 && low == s & 0xff
    requires eight(s) == Xor(high, eight(low)) && table[low as nat] == eight(low)
    ensures TableRound(table, c, b) == eight(s)
  {
    RoundIs(Xor, eight, s, high, low, table[low as nat]);
  }

  ghost predicate Implements(table: seq<bv32>, feed: (bv32, bv8) -> bv32) {
    |table| == 256 && forall c: bv32, b: bv8 :: TableRound(table, c, b) == feed(c, b)
  }

  lemma TableFeeds(table: seq<bv32>)
    requires Tabulates(table, Eight)
    ensures Implements(table, FeedByte)
  {
    forall c: bv32, b: bv8
      ensures TableRound(table, c, b) == FeedByte(c, b)
    {
      var s := Xor(c, b as bv32);
      ByteStep(s);
      ShiftDropsByte(c, b);
      TableEntry(table, Eight, s);
      TableRoundIsEight(table, Eight, c, b, s, c >> 8, s & 0xff);
      FeedIsEight(c, b);
    }
  }

  method TableLoop(table: seq<bv32>, ghost feed: (bv32, bv8) -> bv32, start: bv32, key: seq<bv8>) returns (crc: bv32)
    requires Implements(table, feed)
    ensures crc == Register(feed, start, key)
  {
    crc := start;
    for x := 0 to |key|
      invariant crc == Register(feed, start, key[..x])
    {
      assert key[..x + 1][..x] == key[..x];
      assert TableRound(table, crc, key[x]) == feed(crc, key[x]);
      crc := Xor(crc >> 8, table[(Xor(crc, key[x] as bv32) & 0xff) as nat]);
    }
    assert key[..|key|] == key;
  }

  /** hashkit_crc32: bits 16 to 30 of the CRC-32 of the key. */
  method HashkitCrc32(key: seq<bv8>) returns (r: bv32)
    ensures r == (Crc(key) >> 16) & 0x7fff
  {
    TableIsRight();
    TableFeeds(CRC32_TABLE);
    var crc := TableLoop(CRC32_TABLE, FeedByte, 0xffffffff, key);
    return ((!crc) >> 16) & 0x7fff;
  }
}
