/**
 Machine words as naturals: what unsigned 32-bit and 64-bit arithmetic loses and what it keeps.
 */
module Words {
  import opened Basics

  type Long = x: nat | x < TWO_64

  function Pow2(k: nat): (p: nat)
    ensures p > 0
  {
    if k == 0 then 1 else 2 * Pow2(k - 1)
  }

  /** Bitwise exclusive or. */
  function Xor(x: nat, y: nat): nat
    decreases x + y
  {
    if x == 0 && y == 0 then 0 else (if x % 2 == y % 2 then 0 else 1) + 2 * Xor(x / 2, y / 2)
  }

  lemma {:induction false} XorTwice(x: nat, w: nat)
    ensures Xor(Xor(x, w), w) == x
    decreases x + w
  {
    if x + w > 0 {
      XorTwice(x / 2, w / 2);
      XorStep(x, w);
    }
  }

  lemma {:induction false} XorCommutes(x: nat, y: nat)
    ensures Xor(x, y) == Xor(y, x)
    decreases x + y
  {
    if x + y > 0 {
      XorCommutes(x / 2, y / 2);
    }
  }

  /** Exclusive or with a fixed word is one to one. */
  lemma XorApart(x: nat, y: nat, w: nat)
    ensures Xor(x, w) == Xor(y, w) ==> x == y
    ensures Xor(w, x) == Xor(w, y) ==> x == y
  {
    XorTwice(x, w);
    XorTwice(y, w);
    XorCommutes(x, w);
    XorCommutes(y, w);
  }

  // ----- low bits and the rest -----

  /** x >> k. */
  function ShiftRight(x: nat, k: nat): (r: nat)
    ensures r <= x
    ensures x > 0 && k > 0 ==> r < x
  {
    if k == 0 then x else ShiftRight(x / 2, k - 1)
  }

  /** The last k bits of x. */
  function LowBits(x: nat, k: nat): nat {
    if k == 0 then 0 else x % 2 + 2 * LowBits(x / 2, k - 1)
  }

  lemma {:induction false} BitsSplit(x: nat, k: nat)
    ensures x == LowBits(x, k) + ShiftRight(x, k) * Pow2(k) && LowBits(x, k) < Pow2(k)
  {
    if k > 0 {
      BitsSplit(x / 2, k - 1);
      DoubleProduct(ShiftRight(x, k), Pow2(k - 1));
    }
  }

  lemma DoubleProduct(x: nat, p: nat)
    ensures x * (2 * p) == 2 * (x * p)
  {
  }

  lemma {:induction false} Pow2Sum(j: nat, k: nat)
    ensures Pow2(j + k) == Pow2(j) * Pow2(k)
  {
    if j > 0 {
      Pow2Sum(j - 1, k);
      assert 2 * Pow2(j - 1) * Pow2(k) == 2 * (Pow2(j - 1) * Pow2(k));
    }
  }

  lemma Pow2Values()
    ensures Pow2(32) == TWO_32 && Pow2(64) == TWO_64
  {
    assert Pow2(8) == 256;
    Pow2Sum(8, 8);
    Pow2Sum(16, 16);
    Pow2Sum(32, 32);
  }

  lemma LowBitsMod(x: nat, k: nat)
    requires Pow2(k) == TWO_32
    ensures LowBits(x, k) == x % TWO_32
  {
    BitsSplit(x, k);
  }

  lemma XorStep(x: nat, y: nat)
    ensures Xor(x, y) % 2 == (if x % 2 == y % 2 then 0 else 1) && Xor(x, y) / 2 == Xor(x / 2, y / 2)
  {
  }

  lemma HalfIs(x: nat, bit: nat, half: nat)
    requires bit < 2 && x == bit + 2 * half
    ensures x % 2 == bit && x / 2 == half
  {
  }

  /** Exclusive or works on the low k bits and on the rest separately. */
  lemma {:induction false} LowBitsXor(x: nat, y: nat, k: nat)
    ensures LowBits(Xor(x, y), k) == Xor(LowBits(x, k), LowBits(y, k))
    decreases k
  {
    if k > 0 {
      var l, m := LowBits(x, k), LowBits(y, k);
      HalfIs(l, x % 2, LowBits(x / 2, k - 1));
      HalfIs(m, y % 2, LowBits(y / 2, k - 1));
      LowBitsXor(x / 2, y / 2, k - 1);
      XorStep(x, y);
      XorStep(l, m);
    }
  }

  lemma {:induction false} ShiftRightXor(x: nat, y: nat, k: nat)
    ensures ShiftRight(Xor(x, y), k) == Xor(ShiftRight(x, k), ShiftRight(y, k))
    decreases k
  {
    if k > 0 {
      ShiftRightXor(x / 2, y / 2, k - 1);
      XorStep(x, y);
    }
  }

  lemma XorMod32(x: nat, y: nat)
    ensures Xor(x, y) % TWO_32 == Xor(x % TWO_32, y % TWO_32)
  {
    Pow2Values();
    var k :| Pow2(k) == TWO_32;
    LowBitsXor(x, y, k);
    LowBitsMod(x, k);
    LowBitsMod(y, k);
    LowBitsMod(Xor(x, y), k);
  }

  lemma {:induction false} XorFits(x: nat, y: nat, k: nat)
    requires x < Pow2(k) && y < Pow2(k)
    ensures Xor(x, y) < Pow2(k)
    decreases k
  {
    if k > 0 {
      XorFits(x / 2, y / 2, k - 1);
      XorStep(x, y);
    }
  }

  function Xor32(x: Word, y: Word): Word {
    Pow2Values();
    XorFits(x, y, 32);
    Xor(x, y)
  }

  function Xor64(x: Long, y: Long): Long {
    Pow2Values();
    XorFits(x, y, 64);
    Xor(x, y)
  }

  /** v ^ (v >> k) is one to one: the shifted words agree first, and then the words do. */
  lemma {:induction false} XorShiftApart(v: nat, w: nat, k: nat)
    requires k > 0 && Xor(v, ShiftRight(v, k)) == Xor(w, ShiftRight(w, k))
    ensures v == w
    decreases v + w
  {
    if v + w > 0 {
      ShiftRightXor(v, ShiftRight(v, k), k);
      ShiftRightXor(w, ShiftRight(w, k), k);
      XorShiftApart(ShiftRight(v, k), ShiftRight(w, k), k);
      XorApart(v, w, ShiftRight(v, k));
    }
  }

  // ----- multiplication by an odd number -----

  lemma Cancel(d: int, m: int, i: int, k: int, t: int)
    requires d * m == k * TWO_32 && m * i == t * TWO_32 + 1
    ensures d == (k * i - d * t) * TWO_32
  {
    assert d * m * i == d * (m * i);
    assert d * (t * TWO_32 + 1) == d * t * TWO_32 + d;
    assert k * TWO_32 * i == k * i * TWO_32;
  }

  /** Multiplying by m loses nothing when m has an inverse. */
  lemma TimesApart(x: Word, y: Word, m: nat, inverse: nat)
    requires m * inverse % TWO_32 == 1
    ensures x * m % TWO_32 == y * m % TWO_32 ==> x == y
  {
    if x * m % TWO_32 == y * m % TWO_32 {
      assert (x - y) * m == x * m - y * m;
      Cancel(x - y, m, inverse, x * m / TWO_32 - y * m / TWO_32, m * inverse / TWO_32);
    }
  }
}
