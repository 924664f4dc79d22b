/**
 hashkit_jenkins reads its key as 32-bit words, 16-bit words or bytes, as the key is aligned, on a little-endian
 machine. All three paths compute one function of the key's bytes.
 */
module Jenkins {
  import opened Basics
  import opened Words

  datatype State = State(a: Word, b: Word, c: Word)

  // ----- the macros -----

  function Minus(x: Word, y: Word): Word { (x - y) % TWO_32 }
  function Plus(x: Word, y: Word): Word { (x + y) % TWO_32 }

  /** Rotation to the left, a bit at a time. */
  function Rot(x: Word, k: nat): Word
    decreases k
  {
    if k == 0 then x else Rot(x * 2 % TWO_32 + x / 0x8000_0000, k - 1)
  }

  /** The line `x -= z; x ^= rot(z, k); z += y;` of mix, as (x, z). */
  function MixLine(x: Word, y: Word, z: Word, k: nat): (Word, Word) {
    (Xor32(Minus(x, z), Rot(z, k)), Plus(z, y))
  }

  function Mix(s: State): State {
    var (a, c) := MixLine(s.a, s.b, s.c, 4);
    var (b, a) := MixLine(s.b, c, a, 6);
    var (c, b) := MixLine(c, a, b, 8);
    var (a, c) := MixLine(a, b, c, 16);
    var (b, a) := MixLine(b, c, a, 19);
    var (c, b) := MixLine(c, a, b, 4);
    State(a, b, c)
  }

  /** The step `x ^= y; x -= rot(y, k);` of final. */
  function FinalStep(x: Word, y: Word, k: nat): Word { Minus(Xor32(x, y), Rot(y, k)) }

  function Final(s: State): State {
    var c := FinalStep(s.c, s.b, 14);
    var a := FinalStep(s.a, c, 11);
    var b := FinalStep(s.b, a, 25);
    var c := FinalStep(c, b, 16);
    var a := FinalStep(a, c, 4);
    var b := FinalStep(b, a, 14);
    var c := FinalStep(c, b, 24);
    State(a, b, c)
  }

  // ----- what every path computes -----

  function ByteAt(block: seq<Byte>, i: nat): Byte { if i < |block| then block[i] else 0 }

  /** Four bytes of a block, lowest first, with zeros after its end. */
  function WordAt(block: seq<Byte>, i: nat): Word {
    ByteAt(block, i) + 0x100 * ByteAt(block, i + 1) + 0x10000 * ByteAt(block, i + 2) + 0x1000000 * ByteAt(block, i + 3)
  }

  /** A block of up to twelve bytes is added to the state. */
  function Add(s: State, block: seq<Byte>): State {
    State(Plus(s.a, WordAt(block, 0)), Plus(s.b, WordAt(block, 4)), Plus(s.c, WordAt(block, 8)))
  }

  /** Blocks of twelve bytes are mixed in; the last one, never empty unless the key is, is finished instead. */
  function Hash(mix: State -> State, fin: State -> State, s: State, key: seq<Byte>): Word
    decreases |key|
  {
    if |key| == 0 then s.c
    else if |key| <= 12 then fin(Add(s, key)).c
    else Hash(mix, fin, mix(Add(s, key[..12])), key[12..])
  }

  function Start(length: nat): State {
    var v := (0xdeadbeef + length % TWO_32 + 13) % TWO_32;
    State(v, v, v)
  }

  // ----- reading memory -----

  /** Memory holds the key and, after it, bytes that belong to someone else. */
  ghost predicate Holds(mem: seq<Byte>, k: nat, rest: seq<Byte>) {
    k + |rest| <= |mem| && mem[k..k + |rest|] == rest
  }

  /** The casts to uint32_t. */
  function Wide(b: Byte): Word { b }

  function Load16(mem: seq<Byte>, i: nat): Word
    requires i + 2 <= |mem|
  {
    Wide(mem[i]) + 0x100 * Wide(mem[i + 1])
  }

  function Load32(mem: seq<Byte>, i: nat): Word
    requires i + 4 <= |mem|
  {
    Wide(mem[i]) + 0x100 * Wide(mem[i + 1]) + 0x10000 * Wide(mem[i + 2]) + 0x1000000 * Wide(mem[i + 3])
  }

  lemma ByteRead(mem: seq<Byte>, k: nat, rest: seq<Byte>, i: nat)
    requires Holds(mem, k, rest) && i < |rest|
    ensures mem[k + i] == ByteAt(rest, i)
  {
    assert mem[k..k + |rest|][i] == mem[k + i];
  }

  /** A whole word, loaded as one, as two halves or byte by byte. */
  lemma WordRead(mem: seq<Byte>, k: nat, rest: seq<Byte>, i: nat)
    requires Holds(mem, k, rest) && i + 4 <= |rest|
    ensures Load32(mem, k + i) == WordAt(rest, i)
    ensures Load16(mem, k + i) + Load16(mem, k + i + 2) * 0x10000 == WordAt(rest, i)
    ensures WordAt(rest, i) == Wide(mem[k + i]) + 0x100 * Wide(mem[k + i + 1]) + 0x10000 * Wide(mem[k + i + 2])
                               + 0x1000000 * Wide(mem[k + i + 3])
  {
    ByteRead(mem, k, rest, i);
    ByteRead(mem, k, rest, i + 1);
    ByteRead(mem, k, rest, i + 2);
    ByteRead(mem, k, rest, i + 3);
  }

  /** The word at the end of the key, with the bytes that are not its own masked off. */
  lemma MaskedRead(mem: seq<Byte>, k: nat, rest: seq<Byte>, i: nat)
    requires Holds(mem, k, rest) && i < |rest| < i + 4 && k + i + 4 <= |mem|
    ensures |rest| == i + 1 ==> Load32(mem, k + i) % 0x100 == WordAt(rest, i) == mem[k + i]
    ensures |rest| == i + 2 ==> Load32(mem, k + i) % 0x10000 == WordAt(rest, i)
    ensures |rest| == i + 3 ==> Load32(mem, k + i) % 0x1000000 == WordAt(rest, i)
  {
    PartRead(mem, k, rest, i);
    LowParts(mem[k + i], mem[k + i + 1], mem[k + i + 2], mem[k + i + 3]);
  }

  lemma LowParts(w: Byte, x: Byte, y: Byte, z: Byte)
    ensures var v := w + 0x100 * x + 0x10000 * y + 0x1000000 * z;
            v % 0x100 == w && v % 0x10000 == w + 0x100 * x && v % 0x1000000 == w + 0x100 * x + 0x10000 * y
  {
  }

  /** The same word in parts. */
  lemma PartRead(mem: seq<Byte>, k: nat, rest: seq<Byte>, i: nat)
    requires Holds(mem, k, rest) && i < |rest| < i + 4
    ensures |rest| == i + 1 ==> mem[k + i] == WordAt(rest, i)
    ensures |rest| == i + 2 ==> Load16(mem, k + i) == Wide(mem[k + i]) + 0x100 * Wide(mem[k + i + 1]) == WordAt(rest, i)
    ensures |rest| == i + 3 ==>
      && Load16(mem, k + i) + Wide(mem[k + i + 2]) * 0x10000 == WordAt(rest, i)
      && Wide(mem[k + i]) + 0x100 * Wide(mem[k + i + 1]) + 0x10000 * Wide(mem[k + i + 2]) == WordAt(rest, i)
  {
    ByteRead(mem, k, rest, i);
    if |rest| > i + 1 { ByteRead(mem, k, rest, i + 1); }
    if |rest| > i + 2 { ByteRead(mem, k, rest, i + 2); }
  }

  /** A block has nothing beyond its end. */
  lemma NothingThere(rest: seq<Byte>, i: nat)
    requires |rest| <= i
    ensures WordAt(rest, i) == 0
  {
  }

  lemma PrefixHeld(mem: seq<Byte>, k: nat, rest: seq<Byte>)
    requires Holds(mem, k, rest) && |rest| > 12
    ensures Holds(mem, k, rest[..12]) && Holds(mem, k + 12, rest[12..])
  {
    assert mem[k..k + |rest|][..12] == mem[k..k + 12];
    assert mem[k..k + |rest|][12..] == mem[k + 12..k + |rest|];
  }

  lemma PlusPlus(v: Word, x: Word, y: Word)
    requires x + y < TWO_32
    ensures Plus(Plus(v, x), y) == Plus(v, x + y)
  {
  }

  // ----- the last block -----

  // In every case of the three switches each of the words a, b and c gets what its own four bytes give; these
  // methods are what the switches do to one word, i being its place in the block.

  /** A word begins at n. */
  predicate OnWord(n: nat) {
    if n < 4 then n == 0 else OnWord(n - 4)
  }

  lemma {:induction false} OnWordMod(n: nat)
    ensures OnWord(n) == (n % 4 == 0)
  {
    if n >= 4 {
      OnWordMod(n - 4);
    }
  }

  lemma WholeWords(size: nat, k: nat, i: nat)
    requires OnWord(size) && OnWord(k) && OnWord(i) && k + i < size
    ensures k + i + 4 <= size
  {
    OnWordMod(size);
    OnWordMod(k);
    OnWordMod(i);
  }

  lemma ThreeWordsOn(k: nat)
    requires OnWord(k)
    ensures OnWord(k + 12)
  {
  }

  /** jenkins.c:94-110: a word, with what is beyond the key masked off. */
  method MaskedWord(mem: seq<Byte>, k: nat, length: nat, i: nat, v: Word) returns (w: Word)
    requires k + length <= |mem| && OnWord(k) && OnWord(i) && OnWord(|mem|)
    ensures w == Plus(v, WordAt(mem[k..k + length], i))
  {
    ghost var rest := mem[k..k + length];
    if length >= i + 4 {
      WordRead(mem, k, rest, i);
      w := Plus(v, Load32(mem, k + i));
    } else if length <= i {
      NothingThere(rest, i);
      w := v;
    } else {
      WholeWords(|mem|, k, i);
      MaskedRead(mem, k, rest, i);
      if length == i + 3 {
        w := Plus(v, Load32(mem, k + i) % 0x1000000);
      } else if length == i + 2 {
        w := Plus(v, Load32(mem, k + i) % 0x10000);
      } else {
        w := Plus(v, Load32(mem, k + i) % 0x100);
      }
    }
  }

  /** jenkins.c:130-160: two halves, or a half and an odd byte, or a byte. */
  method HalvesOrByte(mem: seq<Byte>, k: nat, length: nat, i: nat, v: Word) returns (w: Word)
    requires k + length <= |mem|
    ensures w == Plus(v, WordAt(mem[k..k + length], i))
  {
    ghost var rest := mem[k..k + length];
    if length >= i + 4 {
      WordRead(mem, k, rest, i);
      w := Plus(v, Load16(mem, k + i) + Load16(mem, k + i + 2) * 0x10000);
    } else if length <= i {
      NothingThere(rest, i);
      w := v;
    } else {
      PartRead(mem, k, rest, i);
      if length == i + 3 {
        PlusPlus(v, Wide(mem[k + i + 2]) * 0x10000, Load16(mem, k + i));
        w := Plus(v, Wide(mem[k + i + 2]) * 0x10000);
        w := Plus(w, Load16(mem, k + i));
      } else if length == i + 2 {
        w := Plus(v, Load16(mem, k + i));
      } else {
        w := Plus(v, Wide(mem[k + i]));
      }
    }
  }

  lemma FourParts(v: Word, x0: Byte, x1: Byte, x2: Byte, x3: Byte)
    ensures Plus(Plus(Plus(Plus(v, 0x1000000 * Wide(x3)), 0x10000 * Wide(x2)), 0x100 * Wide(x1)), Wide(x0))
         == Plus(v, Wide(x0) + 0x100 * Wide(x1) + 0x10000 * Wide(x2) + 0x1000000 * Wide(x3))
         == Plus(Plus(Plus(Plus(v, Wide(x0)), 0x100 * Wide(x1)), 0x10000 * Wide(x2)), 0x1000000 * Wide(x3))
  {
    var y1, y2, y3 := 0x100 * Wide(x1), 0x10000 * Wide(x2), 0x1000000 * Wide(x3);
    PlusPlus(v, y3, y2);
    PlusPlus(v, y3 + y2, y1);
    PlusPlus(v, y3 + y2 + y1, Wide(x0));
    PlusPlus(v, Wide(x0), y1);
    PlusPlus(v, Wide(x0) + y1, y2);
    PlusPlus(v, Wide(x0) + y1 + y2, y3);
  }

  lemma PlusZero(v: Word)
    ensures Plus(v, 0) == v
  {
  }

  /** jenkins.c:189-206: bytes, from the highest that the key reaches, every case falling through to the next. */
  method FallThrough(mem: seq<Byte>, k: nat, length: nat, i: nat, v: Word) returns (w: Word)
    requires k + length <= |mem|
    ensures w == Plus(v, WordAt(mem[k..k + length], i))
  {
    ghost var rest := mem[k..k + length];
    FourParts(v, ByteAt(rest, i), ByteAt(rest, i + 1), ByteAt(rest, i + 2), ByteAt(rest, i + 3));
    w := v;
    PlusZero(w);
    if length >= i + 4 {
      ByteRead(mem, k, rest, i + 3);
      w := Plus(w, 0x1000000 * Wide(mem[k + i + 3]));
    }
    PlusZero(w);
    if length >= i + 3 {
      ByteRead(mem, k, rest, i + 2);
      w := Plus(w, 0x10000 * Wide(mem[k + i + 2]));
    }
    PlusZero(w);
    if length >= i + 2 {
      ByteRead(mem, k, rest, i + 1);
      w := Plus(w, 0x100 * Wide(mem[k + i + 1]));
    }
    PlusZero(w);
    if length >= i + 1 {
      ByteRead(mem, k, rest, i);
      w := Plus(w, Wide(mem[k + i]));
    }
  }

  // ----- the three paths -----

  /** What has been mixed in so far, and what is left of the key. */
  ghost predicate Progress(mix: State -> State, fin: State -> State, mem: seq<Byte>, key: seq<Byte>, k: nat,
                           length: nat, s: State)
  {
    && k + length == |key| <= |mem| && (length > 0 || k == 0)
    && Holds(mem, k, key[k..])
    && Hash(mix, fin, s, key[k..]) == Hash(mix, fin, Start(|key|), key)
  }

  lemma Begins(mix: State -> State, fin: State -> State, mem: seq<Byte>, key: seq<Byte>)
    requires Holds(mem, 0, key)
    ensures Progress(mix, fin, mem, key, 0, |key|, Start(|key|))
  {
    assert key[0..] == key;
  }

  /** Twelve bytes on. */
  lemma Proceeds(mix: State -> State, fin: State -> State, mem: seq<Byte>, key: seq<Byte>, k: nat, length: nat,
                 s: State)
    requires Progress(mix, fin, mem, key, k, length, s) && length > 12
    ensures k + 12 <= |mem| && Progress(mix, fin, mem, key, k + 12, length - 12, mix(Add(s, mem[k..k + 12])))
  {
    PrefixHeld(mem, k, key[k..]);
    assert key[k..][12..] == key[k + 12..];
    assert mem[k..k + 12] == key[k..][..12];
  }

  lemma Ends(mix: State -> State, fin: State -> State, mem: seq<Byte>, key: seq<Byte>, k: nat, length: nat, s: State)
    requires Progress(mix, fin, mem, key, k, length, s) && length <= 12
    ensures k + length <= |mem|
    ensures Hash(mix, fin, Start(|key|), key) == (if length == 0 then s.c else fin(Add(s, mem[k..k + length])).c)
  {
  }

  method BlockOfWords(mem: seq<Byte>, k: nat, s: State) returns (t: State)
    requires k + 12 <= |mem|
    ensures t == Add(s, mem[k..k + 12])
  {
    ghost var block := mem[k..k + 12];
    WordRead(mem, k, block, 0);
    WordRead(mem, k, block, 4);
    WordRead(mem, k, block, 8);
    t := State(Plus(s.a, Load32(mem, k)), Plus(s.b, Load32(mem, k + 4)), Plus(s.c, Load32(mem, k + 8)));
  }

  method BlockOfHalves(mem: seq<Byte>, k: nat, s: State) returns (t: State)
    requires k + 12 <= |mem|
    ensures t == Add(s, mem[k..k + 12])
  {
    ghost var block := mem[k..k + 12];
    WordRead(mem, k, block, 0);
    WordRead(mem, k, block, 4);
    WordRead(mem, k, block, 8);
    t := State(Plus(s.a, Load16(mem, k) + Load16(mem, k + 2) * 0x10000),
               Plus(s.b, Load16(mem, k + 4) + Load16(mem, k + 6) * 0x10000),
               Plus(s.c, Load16(mem, k + 8) + Load16(mem, k + 10) * 0x10000));
  }

  /** Four bytes, added one after the other. */
  method FourBytes(mem: seq<Byte>, k: nat, ghost block: seq<Byte>, i: nat, v: Word) returns (w: Word)
    requires Holds(mem, k, block) && i + 4 <= |block|
    ensures w == Plus(v, WordAt(block, i))
  {
    WordRead(mem, k, block, i);
    FourParts(v, mem[k + i], mem[k + i + 1], mem[k + i + 2], mem[k + i + 3]);
    w := Plus(v, Wide(mem[k + i]));
    w := Plus(w, 0x100 * Wide(mem[k + i + 1]));
    w := Plus(w, 0x10000 * Wide(mem[k + i + 2]));
    w := Plus(w, 0x1000000 * Wide(mem[k + i + 3]));
  }

  method BlockOfBytes(mem: seq<Byte>, k: nat, s: State) returns (t: State)
    requires k + 12 <= |mem|
    ensures t == Add(s, mem[k..k + 12])
  {
    var a := FourBytes(mem, k, mem[k..k + 12], 0, s.a);
    var b := FourBytes(mem, k, mem[k..k + 12], 4, s.b);
    var c := FourBytes(mem, k, mem[k..k + 12], 8, s.c);
    t := State(a, b, c);
  }

  /** jenkins.c:71-112. */
  method HashWords(mix: State -> State, fin: State -> State, mem: seq<Byte>, ghost key: seq<Byte>, size: nat)
    returns (r: Word)
    requires Holds(mem, 0, key) && size == |key| && OnWord(|mem|)
    ensures r == Hash(mix, fin, Start(|key|), key)
  {
    var k, length, s := 0, size, Start(size);
    Begins(mix, fin, mem, key);
    while length > 12
      invariant OnWord(k) && Progress(mix, fin, mem, key, k, length, s)
    {
      Proceeds(mix, fin, mem, key, k, length, s);
      ThreeWordsOn(k);
      s := BlockOfWords(mem, k, s);
      s, length, k := mix(s), length - 12, k + 12;
    }
    Ends(mix, fin, mem, key, k, length, s);
    if length == 0 { return s.c; }
    var a := MaskedWord(mem, k, length, 0, s.a);
    var b := MaskedWord(mem, k, length, 4, s.b);
    var c := MaskedWord(mem, k, length, 8, s.c);
    return fin(State(a, b, c)).c;
  }

  /** jenkins.c:115-162. */
  method HashHalves(mix: State -> State, fin: State -> State, mem: seq<Byte>, ghost key: seq<Byte>, size: nat)
    returns (r: Word)
    requires Holds(mem, 0, key) && size == |key|
    ensures r == Hash(mix, fin, Start(|key|), key)
  {
    var k, length, s := 0, size, Start(size);
    Begins(mix, fin, mem, key);
    while length > 12
      invariant Progress(mix, fin, mem, key, k, length, s)
    {
      Proceeds(mix, fin, mem, key, k, length, s);
      s := BlockOfHalves(mem, k, s);
      s, length, k := mix(s), length - 12, k + 12;
    }
    Ends(mix, fin, mem, key, k, length, s);
    if length == 0 { return s.c; }
    var a := HalvesOrByte(mem, k, length, 0, s.a);
    var b := HalvesOrByte(mem, k, length, 4, s.b);
    var c := HalvesOrByte(mem, k, length, 8, s.c);
    return fin(State(a, b, c)).c;
  }

  /** jenkins.c:166-206. */
  method HashBytes(mix: State -> State, fin: State -> State, mem: seq<Byte>, ghost key: seq<Byte>, size: nat)
    returns (r: Word)
    requires Holds(mem, 0, key) && size == |key|
    ensures r == Hash(mix, fin, Start(|key|), key)
  {
    var k, length, s := 0, size, Start(size);
    Begins(mix, fin, mem, key);
    while length > 12
      invariant Progress(mix, fin, mem, key, k, length, s)
    {
      Proceeds(mix, fin, mem, key, k, length, s);
      s := BlockOfBytes(mem, k, s);
      s, length, k := mix(s), length - 12, k + 12;
    }
    Ends(mix, fin, mem, key, k, length, s);
    if length == 0 { return s.c; }
    var a := FallThrough(mem, k, length, 0, s.a);
    var b := FallThrough(mem, k, length, 4, s.b);
    var c := FallThrough(mem, k, length, 8, s.c);
    return fin(State(a, b, c)).c;
  }

  /**
   hashkit_jenkins: the value depends neither on where the key lies nor on what lies after it. A key on a word boundary
   is surrounded by whole words.
   */
  method HashkitJenkins(address: nat, key: seq<Byte>, beyond: seq<Byte>) returns (r: Word)
    requires address % 4 == 0 ==> (|key| + |beyond|) % 4 == 0
    ensures r == Hash(Mix, Final, Start(|key|), key)
  {
    var mem := key + beyond;
    assert Holds(mem, 0, key);
    if address % 4 == 0 {
      OnWordMod(|mem|);
      r := HashWords(Mix, Final, mem, key, |key|);
    } else if address % 2 == 0 {
      r := HashHalves(Mix, Final, mem, key, |key|);
    } else {
      r := HashBytes(Mix, Final, mem, key, |key|);
    }
  }
}
