/**
 Hashes that fold a key byte by byte: the four FNV variants and one-at-a-time.

 `char` is signed on the machines the library is built for, so a byte from 0x80 on is widened with its sign.
 */
module ByteHashes {
  import opened Basics
  import opened Words

  // ----- any such hash -----

  function Fold<S>(step: (S, Byte) -> S, start: S, key: seq<Byte>): S {
    if key == [] then start else step(Fold(step, start, key[..|key| - 1]), key[|key| - 1])
  }

  lemma FoldSnoc<S>(step: (S, Byte) -> S, start: S, key: seq<Byte>, i: nat)
    requires i < |key|
    ensures Fold(step, start, key[..i + 1]) == step(Fold(step, start, key[..i]), key[i])
  {
    assert key[..i + 1][..i] == key[..i];
  }

  /** Each step is one to one in the state for a fixed byte, and tells bytes apart for a fixed state. */
  ghost predicate Injective<S(!new)>(step: (S, Byte) -> S) {
    && (forall s: S, t: S, b: Byte :: step(s, b) == step(t, b) ==> s == t)
    && (forall s: S, b: Byte, c: Byte :: step(s, b) == step(s, c) ==> b == c)
  }

  /** The keys have the same length and differ at position i only. */
  ghost predicate DifferAt(k: seq<Byte>, l: seq<Byte>, i: nat) {
    i < |k| == |l| && k[i] != l[i] && k[..i] == l[..i] && k[i + 1..] == l[i + 1..]
  }

  /** Two keys that differ in one byte never meet. */
  lemma {:induction false} OneByteApart<S(!new)>(step: (S, Byte) -> S, start: S, k: seq<Byte>, l: seq<Byte>, i: nat)
    requires Injective(step) && DifferAt(k, l, i)
    ensures Fold(step, start, k) != Fold(step, start, l)
    decreases |k|
  {
    var n := |k| - 1;
    if i == n {
      assert k[..n] == l[..n];
    } else {
      assert k[n] == k[i + 1..][n - i - 1] && l[n] == l[i + 1..][n - i - 1];
      assert k[..n][..i] == k[..i] && l[..n][..i] == l[..i];
      assert k[..n][i + 1..] == k[i + 1..][..n - i - 1] && l[..n][i + 1..] == l[i + 1..][..n - i - 1];
      OneByteApart(step, start, k[..n], l[..n], i);
    }
  }

  /** Two folds whose states stay related. */
  lemma {:induction false} FoldRelated<S(!new), T(!new)>(f: (S, Byte) -> S, g: (T, Byte) -> T, s: S, t: T,
                                                         key: seq<Byte>, related: (S, T) -> bool)
    requires related(s, t)
    requires forall x: S, y: T, b: Byte :: related(x, y) ==> related(f(x, b), g(y, b))
    ensures related(Fold(f, s, key), Fold(g, t, key))
  {
    if key != [] {
      FoldRelated(f, g, s, t, key[..|key| - 1], related);
    }
  }

  // ----- FNV -----

  const FNV_64_INIT: Long := 0xcbf29ce484222325
  const FNV_64_PRIME: Long := 0x100000001b3
  const FNV_32_INIT: Word := 2166136261
  const FNV_32_PRIME: Word := 16777619

  function Widen32(b: Byte): Word { if b < 0x80 then b else b + 0xffffff00 }
  function Widen64(b: Byte): Long { if b < 0x80 then b else b + 0xffffffffffffff00 }
  function Low(h: Long): Word { h % TWO_32 }

  function Fnv1Step64(h: Long, b: Byte): Long { Xor64(h * FNV_64_PRIME % TWO_64, Widen64(b)) }
  function Fnv1aStep64(h: Long, b: Byte): Long { Xor64(h, Widen64(b)) * FNV_64_PRIME % TWO_64 }

  /** The steps in 32 bits, for any prime. */
  function Fnv1Step(prime: nat): (Word, Byte) -> Word { (h: Word, b: Byte) => Xor32(h * prime % TWO_32, Widen32(b)) }
  function Fnv1aStep(prime: nat): (Word, Byte) -> Word { (h: Word, b: Byte) => Xor32(h, Widen32(b)) * prime % TWO_32 }

  lemma LowXor(h: Long, b: Byte)
    ensures Low(Xor64(h, Widen64(b))) == Xor32(Low(h), Widen32(b))
  {
    XorMod32(h, Widen64(b));
    SameMod32(Widen64(b), Widen32(b), if b < 0x80 then 0 else 0xffffffff);
  }

  lemma LowProduct(h: Long)
    ensures Low(h * FNV_64_PRIME % TWO_64) == Low(h) * (FNV_64_PRIME % TWO_32) % TWO_32
  {
    LowOfMultiple(h);
    assert FNV_64_PRIME % TWO_32 == 0x1b3;
  }

  lemma LowOfMultiple(h: nat)
    ensures h * 0x100000001b3 % TWO_64 % TWO_32 == h % TWO_32 * 0x1b3 % TWO_32
  {
    var q, l := h / TWO_32, h % TWO_32;
    var a := h * 0x100000001b3;
    SameMod32(a, a % TWO_64, a / TWO_64 * TWO_32);
    SameMod32(a, l * 0x1b3, q * 0x100000001b3 + l * 256);
  }

  lemma SameMod32(x: nat, y: nat, q: nat)
    requires x == q * TWO_32 + y
    ensures x % TWO_32 == y % TWO_32
  {
  }

  /** The low half of the 64-bit loop is the 32-bit loop with the low half of the prime. */
  lemma LowHalf(key: seq<Byte>)
    ensures Low(Fold(Fnv1Step64, FNV_64_INIT, key)) ==
              Fold<Word>(Fnv1Step(FNV_64_PRIME % TWO_32), FNV_64_INIT % TWO_32, key)
    ensures Low(Fold(Fnv1aStep64, FNV_64_INIT, key)) ==
              Fold<Word>(Fnv1aStep(FNV_64_PRIME % TWO_32), FNV_64_INIT % TWO_32, key)
  {
    var p, related := FNV_64_PRIME % TWO_32, (h: Long, l: Word) => Low(h) == l;
    forall h: Long, l: Word, b: Byte | related(h, l)
      ensures related(Fnv1Step64(h, b), Fnv1Step(p)(l, b)) && related(Fnv1aStep64(h, b), Fnv1aStep(p)(l, b))
    {
      LowProduct(h);
      LowXor(h * FNV_64_PRIME % TWO_64, b);
      LowXor(h, b);
      LowProduct(Xor64(h, Widen64(b)));
    }
    FoldRelated<Long, Word>(Fnv1Step64, Fnv1Step(p), FNV_64_INIT, FNV_64_INIT % TWO_32, key, related);
    FoldRelated<Long, Word>(Fnv1aStep64, Fnv1aStep(p), FNV_64_INIT, FNV_64_INIT % TWO_32, key, related);
  }

  /** hashkit_fnv1_64: 64-bit arithmetic, truncated at the end. */
  method Fnv1_64(key: seq<Byte>) returns (r: Word)
    ensures r == Low(Fold(Fnv1Step64, FNV_64_INIT, key))
  {
    var hash: Long := FNV_64_INIT;
    for x := 0 to |key|
      invariant hash == Fold(Fnv1Step64, FNV_64_INIT, key[..x])
    {
      FoldSnoc(Fnv1Step64, FNV_64_INIT, key, x);
      hash := hash * FNV_64_PRIME % TWO_64;
      hash := Xor64(hash, Widen64(key[x]));
    }
    assert key[..|key|] == key;
    return hash % TWO_32;
  }

  /** hashkit_fnv1a_64: done in 32-bit arithmetic throughout, yet equal to the truncated 64-bit hash. */
  method Fnv1a_64(key: seq<Byte>) returns (hash: Word)
    ensures hash == Low(Fold(Fnv1aStep64, FNV_64_INIT, key))
  {
    ghost var step := Fnv1aStep(FNV_64_PRIME % TWO_32);
    hash := FNV_64_INIT % TWO_32;
    for x := 0 to |key|
      invariant hash == Fold<Word>(step, FNV_64_INIT % TWO_32, key[..x])
    {
      FoldSnoc<Word>(step, FNV_64_INIT % TWO_32, key, x);
      var val := Widen32(key[x]);
      hash := Xor32(hash, val);
      hash := hash * (FNV_64_PRIME % TWO_32) % TWO_32;
    }
    assert key[..|key|] == key;
    LowHalf(key);
  }

  /** hashkit_fnv1_32. */
  method Fnv1_32(key: seq<Byte>) returns (hash: Word)
    ensures hash == Fold(Fnv1Step(FNV_32_PRIME), FNV_32_INIT, key)
  {
    hash := FNV_32_INIT;
    for x := 0 to |key|
      invariant hash == Fold(Fnv1Step(FNV_32_PRIME), FNV_32_INIT, key[..x])
    {
      FoldSnoc(Fnv1Step(FNV_32_PRIME), FNV_32_INIT, key, x);
      var val := Widen32(key[x]);
      hash := hash * FNV_32_PRIME % TWO_32;
      hash := Xor32(hash, val);
    }
    assert key[..|key|] == key;
  }

  /** hashkit_fnv1a_32. */
  method Fnv1a_32(key: seq<Byte>) returns (hash: Word)
    ensures hash == Fold(Fnv1aStep(FNV_32_PRIME), FNV_32_INIT, key)
  {
    hash := FNV_32_INIT;
    for x := 0 to |key|
      invariant hash == Fold(Fnv1aStep(FNV_32_PRIME), FNV_32_INIT, key[..x])
    {
      FoldSnoc(Fnv1aStep(FNV_32_PRIME), FNV_32_INIT, key, x);
      var val := Widen32(key[x]);
      hash := Xor32(hash, val);
      hash := hash * FNV_32_PRIME % TWO_32;
    }
    assert key[..|key|] == key;
  }

  /** The two orders of the operations are one product apart: FNV-1a from start * prime is FNV-1 from start, times the
      prime. */
  lemma Fnv1aFromFnv1(prime: nat, start: Word, key: seq<Byte>)
    ensures Fold<Word>(Fnv1aStep(prime), start * prime % TWO_32, key) ==
              Fold<Word>(Fnv1Step(prime), start, key) * prime % TWO_32
  {
    var related := (h: Word, a: Word) => a == h * prime % TWO_32;
    FoldRelated<Word, Word>(Fnv1Step(prime), Fnv1aStep(prime), start, start * prime % TWO_32, key, related);
  }

  /** Every step with an invertible prime is one to one. */
  lemma FnvInjective(prime: nat, inverse: nat)
    requires prime * inverse % TWO_32 == 1
    ensures Injective(Fnv1Step(prime)) && Injective(Fnv1aStep(prime))
  {
    forall s: Word, t: Word, b: Byte
      ensures Fnv1Step(prime)(s, b) == Fnv1Step(prime)(t, b) ==> s == t
      ensures Fnv1aStep(prime)(s, b) == Fnv1aStep(prime)(t, b) ==> s == t
    {
      XorApart(s * prime % TWO_32, t * prime % TWO_32, Widen32(b));
      TimesApart(s, t, prime, inverse);
      XorApart(s, t, Widen32(b));
      TimesApart(Xor32(s, Widen32(b)), Xor32(t, Widen32(b)), prime, inverse);
    }
    forall s: Word, b: Byte, c: Byte
      ensures Fnv1Step(prime)(s, b) == Fnv1Step(prime)(s, c) ==> b == c
      ensures Fnv1aStep(prime)(s, b) == Fnv1aStep(prime)(s, c) ==> b == c
    {
      XorApart(Widen32(b), Widen32(c), s * prime % TWO_32);
      XorApart(Widen32(b), Widen32(c), s);
      TimesApart(Xor32(s, Widen32(b)), Xor32(s, Widen32(c)), prime, inverse);
    }
  }

  /** For any invertible prime, both 32-bit loops tell apart keys that differ in one byte. */
  lemma FnvApart(prime: nat, inverse: nat, start: Word, k: seq<Byte>, l: seq<Byte>, i: nat)
    requires prime * inverse % TWO_32 == 1 && DifferAt(k, l, i)
    ensures Fold(Fnv1Step(prime), start, k) != Fold(Fnv1Step(prime), start, l)
    ensures Fold(Fnv1aStep(prime), start, k) != Fold(Fnv1aStep(prime), start, l)
  {
    FnvInjective(prime, inverse);
    OneByteApart(Fnv1Step(prime), start, k, l, i);
    OneByteApart(Fnv1aStep(prime), start, k, l, i);
  }

  /** Two keys of the same length that differ in one byte have different FNV hashes, in all four variants. */
  lemma FnvOneByteApart(k: seq<Byte>, l: seq<Byte>, i: nat)
    requires DifferAt(k, l, i)
    ensures Low(Fold(Fnv1Step64, FNV_64_INIT, k)) != Low(Fold(Fnv1Step64, FNV_64_INIT, l))
    ensures Low(Fold(Fnv1aStep64, FNV_64_INIT, k)) != Low(Fold(Fnv1aStep64, FNV_64_INIT, l))
    ensures Fold(Fnv1Step(FNV_32_PRIME), FNV_32_INIT, k) != Fold(Fnv1Step(FNV_32_PRIME), FNV_32_INIT, l)
    ensures Fold(Fnv1aStep(FNV_32_PRIME), FNV_32_INIT, k) != Fold(Fnv1aStep(FNV_32_PRIME), FNV_32_INIT, l)
  {
    Fnv64Apart(k, l, i);
    KnownPrimeApart(FNV_32_PRIME, FNV_32_INIT, k, l, i);
  }

  lemma Fnv64Apart(k: seq<Byte>, l: seq<Byte>, i: nat)
    requires DifferAt(k, l, i)
    ensures Low(Fold(Fnv1Step64, FNV_64_INIT, k)) != Low(Fold(Fnv1Step64, FNV_64_INIT, l))
    ensures Low(Fold(Fnv1aStep64, FNV_64_INIT, k)) != Low(Fold(Fnv1aStep64, FNV_64_INIT, l))
  {
    LowHalf(k);
    LowHalf(l);
    KnownPrimeApart(FNV_64_PRIME % TWO_32, FNV_64_INIT % TWO_32, k, l, i);
  }

  lemma KnownPrimeApart(p: nat, start: Word, k: seq<Byte>, l: seq<Byte>, i: nat)
    requires (p == 0x1b3 || p == 16777619) && DifferAt(k, l, i)
    ensures Fold(Fnv1Step(p), start, k) != Fold(Fnv1Step(p), start, l)
    ensures Fold(Fnv1aStep(p), start, k) != Fold(Fnv1aStep(p), start, l)
  {
    FnvApart(p, if p == 0x1b3 then 0xaff6957b else 0x359c449b, start, k, l, i);
  }

  // ----- one at a time -----

  /** v + (v << k) for p = 2^k, where the shift drops what leaves the word. */
  function AddShifted(v: Word, p: nat): Word { (v + v * p % TWO_32) % TWO_32 }

  /** v ^ (v >> k). */
  function XorShifted(v: Word, k: nat): Word { Xor32(v, ShiftRight(v, k)) }

  function OneAtATimeStep(v: Word, b: Byte): Word {
    XorShifted(AddShifted((v + Widen32(b)) % TWO_32, 0x400), 6)
  }

  function OneAtATimeEnd(v: Word): Word { AddShifted(XorShifted(AddShifted(v, 8), 11), 0x8000) }

  /** hashkit_one_at_a_time. */
  method OneAtATime(key: seq<Byte>) returns (value: Word)
    ensures value == OneAtATimeEnd(Fold(OneAtATimeStep, 0, key))
  {
    value := 0;
    for x := 0 to |key|
      invariant value == Fold(OneAtATimeStep, 0, key[..x])
    {
      FoldSnoc(OneAtATimeStep, 0, key, x);
      var val := Widen32(key[x]);
      value := (value + val) % TWO_32;
      value := AddShifted(value, 0x400);
      value := XorShifted(value, 6);
    }
    assert key[..|key|] == key;
    value := AddShifted(value, 8);
    value := XorShifted(value, 11);
    value := AddShifted(value, 0x8000);
  }

  /** Adding a shifted copy is multiplying by 2^k + 1. */
  lemma AddShiftedApart(v: Word, w: Word, p: nat, inverse: nat)
    requires (1 + p) * inverse % TWO_32 == 1
    ensures AddShifted(v, p) == AddShifted(w, p) ==> v == w
  {
    AddShiftedIsProduct(v, p);
    AddShiftedIsProduct(w, p);
    TimesApart(v, w, 1 + p, inverse);
  }

  lemma AddShiftedIsProduct(v: Word, p: nat)
    ensures AddShifted(v, p) == v * (1 + p) % TWO_32
  {
    assert v * (1 + p) == v + v * p;
  }

  lemma StepApart(v: Word, w: Word)
    ensures XorShifted(AddShifted(v, 0x400), 6) == XorShifted(AddShifted(w, 0x400), 6) ==> v == w
  {
    AddShiftedApart(v, w, 0x400, 0xc00ffc01);
    XorShiftedApart(AddShifted(v, 0x400), AddShifted(w, 0x400), 6);
  }

  lemma XorShiftedApart(v: Word, w: Word, k: nat)
    requires k > 0
    ensures XorShifted(v, k) == XorShifted(w, k) ==> v == w
  {
    if XorShifted(v, k) == XorShifted(w, k) {
      XorShiftApart(v, w, k);
    }
  }

  lemma EndApart(v: Word, w: Word)
    requires OneAtATimeEnd(v) == OneAtATimeEnd(w)
    ensures v == w
  {
    AddShiftedApart(XorShifted(AddShifted(v, 8), 11), XorShifted(AddShifted(w, 8), 11), 0x8000, 0x3fff8001);
    XorShiftedApart(AddShifted(v, 8), AddShifted(w, 8), 11);
    AddShiftedApart(v, w, 8, 0x38e38e39);
  }

  lemma SumApart(v: Word, w: Word, x: Word)
    ensures (v + x) % TWO_32 == (w + x) % TWO_32 ==> v == w
  {
  }

  lemma WidenApart(b: Byte, c: Byte)
    ensures Widen32(b) == Widen32(c) ==> b == c
  {
  }

  lemma OneAtATimeInjective()
    ensures Injective(OneAtATimeStep)
  {
    forall s: Word, t: Word, b: Byte
      ensures OneAtATimeStep(s, b) == OneAtATimeStep(t, b) ==> s == t
    {
      SumApart(s, t, Widen32(b));
      StepApart((s + Widen32(b)) % TWO_32, (t + Widen32(b)) % TWO_32);
    }
    forall s: Word, b: Byte, c: Byte
      ensures OneAtATimeStep(s, b) == OneAtATimeStep(s, c) ==> b == c
    {
      WidenApart(b, c);
      SumApart(Widen32(b), Widen32(c), s);
      StepApart((s + Widen32(b)) % TWO_32, (s + Widen32(c)) % TWO_32);
    }
  }

  /** The same for one-at-a-time. */
  lemma OneAtATimeOneByteApart(k: seq<Byte>, l: seq<Byte>, i: nat)
    requires DifferAt(k, l, i)
    ensures OneAtATimeEnd(Fold(OneAtATimeStep, 0, k)) != OneAtATimeEnd(Fold(OneAtATimeStep, 0, l))
  {
    OneAtATimeInjective();
    OneByteApart(OneAtATimeStep, 0, k, l, i);
    if OneAtATimeEnd(Fold(OneAtATimeStep, 0, k)) == OneAtATimeEnd(Fold(OneAtATimeStep, 0, l)) {
      EndApart(Fold(OneAtATimeStep, 0, k), Fold(OneAtATimeStep, 0, l));
    }
  }
}
