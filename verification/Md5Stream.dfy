/**
 Streaming a message through a block function: a context that takes the message in pieces, against the one-shot
 digest of RFC 1321.  Nothing here depends on what the block function computes.

 The 32-bit words of the counter are naturals with their wrap-around written out.
 */
module Md5Stream {
  import opened Basics

  type Block = b: seq<bv8> | |b| == 64 witness seq(64, _ => 0)

  /** The parts of the digest that streaming treats as given: start value, block function, final encoding. */
  datatype BlockHash<!S> = BlockHash(init: S, transform: (S, Block) -> S, encode: S -> seq<bv8>)

  const TWO_29: nat := 0x2000_0000

  // ----- the digest of RFC 1321 -----

  /** Section 3.4: all blocks of a whole number of blocks, in order. */
  function Absorb<S>(h: BlockHash<S>, s: S, blocks: seq<bv8>): S
    requires |blocks| % 64 == 0
    decreases |blocks|
  {
    if blocks == [] then s else Absorb(h, h.transform(s, blocks[..64]), blocks[64..])
  }

  /** Section 3.1: the least number of zero bytes after the 0x80 that leaves room for eight more. */
  function ZeroCount(n: nat): (k: nat)
    ensures k < 64 && (n + 1 + k + 8) % 64 == 0
  {
    if n % 64 < 56 then 55 - n % 64 else 119 - n % 64
  }

  function Zeros(k: nat): seq<bv8> { seq(k, _ => 0) }

  /** Little-endian bytes of a number. */
  function LittleEndian(v: nat, size: nat): (bs: seq<bv8>)
    ensures |bs| == size
  {
    if size == 0 then [] else [(v % 256) as bv8] + LittleEndian(v / 256, size - 1)
  }

  /** Sections 3.1 and 3.2: the message, the padding bits, and its length in bits modulo 2^64. */
  function Padded(m: seq<bv8>): (p: seq<bv8>)
    ensures |p| % 64 == 0
  {
    m + [0x80] + Zeros(ZeroCount(|m|)) + LittleEndian(8 * |m| % TWO_64, 8)
  }

  function Digest<S>(h: BlockHash<S>, m: seq<bv8>): seq<bv8> {
    h.encode(Absorb(h, h.init, Padded(m)))
  }

  lemma {:induction false} AbsorbConcat<S>(h: BlockHash<S>, s: S, a: seq<bv8>, b: seq<bv8>)
    requires |a| % 64 == 0 && |b| % 64 == 0
    ensures Absorb(h, s, a + b) == Absorb(h, Absorb(h, s, a), b)
    decreases |a|
  {
    if a == [] {
      assert a + b == b;
    } else {
      assert (a + b)[..64] == a[..64] && (a + b)[64..] == a[64..] + b;
      AbsorbConcat(h, h.transform(s, a[..64]), a[64..], b);
    }
  }

  lemma AbsorbOne<S>(h: BlockHash<S>, s: S, block: Block)
    ensures Absorb(h, s, block) == h.transform(s, block)
  {
    assert block[..64] == block && block[64..] == [];
  }

  /** One more whole block of a message. */
  lemma AbsorbNext<S>(h: BlockHash<S>, m: seq<bv8>, p: nat)
    requires p % 64 == 0 && p + 64 <= |m|
    ensures Absorb(h, h.init, m[..p + 64]) == h.transform(Absorb(h, h.init, m[..p]), m[p..p + 64])
  {
    assert m[..p + 64] == m[..p] + m[p..p + 64];
    AbsorbConcat(h, h.init, m[..p], m[p..p + 64]);
    AbsorbOne(h, Absorb(h, h.init, m[..p]), m[p..p + 64]);
  }

  // ----- the counter -----

  /** The two words of the counter hold the number of bits modulo 2^64. */
  ghost predicate Counts(c0: nat, c1: nat, n: nat) {
    c0 < TWO_32 && c1 < TWO_32 && c1 * TWO_32 + c0 == 8 * n % TWO_64
  }

  /** From the low word alone the code knows where it is in the block. */
  lemma CountIndex(c0: nat, c1: nat, n: nat)
    requires Counts(c0, c1, n)
    ensures (c0 / 8) % 64 == n % 64
  {
    var y := (8 * n / TWO_64) * (TWO_64 / 512) + c1 * (TWO_29 / 64);
    assert c0 == 8 * (n - 64 * y);
    Mod64(n, y);
  }

  lemma Mod64(n: nat, y: nat)
    requires 64 * y <= n
    ensures (8 * (n - 64 * y) / 8) % 64 == n % 64
  {
  }

  /** Adding a length below 2^32 with the carry test of the code keeps the count. */
  lemma CountAdd(c0: nat, c1: nat, n: nat, len: nat)
    requires Counts(c0, c1, n) && len < TWO_32
    ensures var low := 8 * len % TWO_32;
            var c0' := (c0 + low) % TWO_32;
            var carried := if c0' < low then (c1 + 1) % TWO_32 else c1;
            Counts(c0', (carried + len / TWO_29) % TWO_32, n + len)
  {
    var low, high := 8 * len % TWO_32, len / TWO_29;
    LowHigh(len);
    var c0' := (c0 + low) % TWO_32;
    var carry := if c0' < low then 1 else 0;
    assert c0 + low == carry * TWO_32 + c0';
    HighWord(c1, carry, high);
    var total := c1 + carry + high;
    var q0, q, c1' := 8 * n / TWO_64, total / TWO_32, total % TWO_32;
    assert 8 * (n + len) == (q0 + q) * TWO_64 + (c1' * TWO_32 + c0');
    ModIs(8 * (n + len), q0 + q, c1' * TWO_32 + c0');
  }

  lemma LowHigh(len: nat)
    requires len < TWO_32
    ensures 8 * len == (len / TWO_29) * TWO_32 + 8 * len % TWO_32
  {
  }

  lemma HighWord(c1: nat, carry: nat, high: nat)
    requires carry <= 1
    ensures ((if carry == 1 then (c1 + 1) % TWO_32 else c1) + high) % TWO_32 == (c1 + carry + high) % TWO_32
  {
    SameLow(c1 + 1 + high, (c1 + 1) % TWO_32 + high, (c1 + 1) / TWO_32);
  }

  lemma SameLow(x: nat, y: nat, q: nat)
    requires x == q * TWO_32 + y
    ensures x % TWO_32 == y % TWO_32
  {
  }

  lemma ModIs(x: nat, q: nat, r: nat)
    requires x == q * TWO_64 + r && r < TWO_64
    ensures x % TWO_64 == r
  {
  }

  lemma WholeBlocks(n: nat, whole: nat)
    requires whole % 64 == 0 && whole <= n < whole + 64
    ensures n % 64 == n - whole
  {
  }

  /** The test of the loop over whole blocks, at i of len bytes. */
  predicate GoesOn(i: nat, len: nat) {
    (i + 63) % TWO_32 < len
  }

  /** An update of len bytes after n others whose loop test cannot wrap around. */
  predicate Fits(n: nat, len: nat) {
    len < TWO_32 && n % 64 + len < TWO_32
  }

  lemma NoWrap(whole: nat, idx: nat, i: nat, len: nat)
    requires whole % 64 == 0 && (whole + idx + i) % 64 == 0 && i <= len && idx + len < TWO_32
    ensures i + 63 < TWO_32
  {
    assert (idx + i) % 64 == 0;
  }

  /** Any other length, with bytes buffered: the loop passes all its tests up to the last whole block and then, 63 bytes
      having wrapped around, one more for a block that reaches behind the input. */
  lemma Overrun(n: nat, len: nat)
    requires len < TWO_32 && !Fits(n, len)
    ensures var idx, i := n % 64, TWO_32 - n % 64;
            && GoesOn(i, len) && i <= len < i + 64
            && forall k :: 64 - idx <= k < i && (idx + k) % 64 == 0 ==> GoesOn(k, len)
  {
    var idx, i := n % 64, TWO_32 - n % 64;
    forall k | 64 - idx <= k < i && (idx + k) % 64 == 0
      ensures GoesOn(k, len)
    {
      assert idx + k <= TWO_32 - 64;
    }
  }

  lemma Apart(seen: seq<bv8>, input: seq<bv8>, whole: nat)
    requires whole <= |seen|
    ensures (seen + input)[..whole] == seen[..whole]
    ensures (seen + input)[whole..|seen|] == seen[whole..|seen|]
    ensures (seen + input)[|seen|..] == input
  {
  }

  lemma Window(m: seq<bv8>, n: nat, input: seq<bv8>, i: nat, len: nat)
    requires n <= |m| && m[n..] == input && i + len <= |input|
    ensures input[i..i + len] == m[n + i..n + i + len]
  {
  }

  lemma Rest(seen: seq<bv8>, input: seq<bv8>, i: nat)
    requires i <= |input|
    ensures (seen + input)[|seen| + i..] == input[i..]
  {
  }

  class Context<S> {
    const h: BlockHash<S>
    var state: S
    var count0: nat
    var count1: nat
    const buffer: array<bv8>
    ghost var seen: seq<bv8>

    /** The context has absorbed the whole blocks of what it saw, buffers the rest and counts its bits. */
    ghost predicate Valid()
      reads this, buffer
    {
      Counts(count0, count1, |seen|) && Holds(seen, |seen| - |seen| % 64, |seen| % 64)
    }

    /** The state and the first idx buffered bytes stand for the message seen so far, cut at `whole`. */
    ghost predicate Holds(m: seq<bv8>, whole: nat, idx: nat)
      reads this, buffer
    {
      && buffer.Length == 64 && whole % 64 == 0 && idx <= 64 && whole + idx <= |m|
      && state == Absorb(h, h.init, m[..whole])
      && buffer[..idx] == m[whole..whole + idx]
    }

    constructor Init(h: BlockHash<S>)
      ensures this.h == h && Valid() && fresh(buffer) && seen == []
    {
      this.h := h;
      buffer := new bv8[64](_ => 0);
      state, count0, count1, seen := h.init, 0, 0, [];
    }

    /** The memcpy into the buffer. */
    method CopyIn(idx: nat, part: seq<bv8>)
      requires buffer.Length == 64 && idx + |part| <= 64
      modifies buffer
      ensures buffer[..idx + |part|] == old(buffer[..idx]) + part
    {
      forall k | 0 <= k < |part| {
        buffer[idx + k] := part[k];
      }
    }

    /** Adds the bits of the next piece to the counter. */
    method AddBits(inputLen: nat, ghost n: nat)
      requires Counts(count0, count1, n) && inputLen < TWO_32
      modifies `count0, `count1
      ensures Counts(count0, count1, n + inputLen)
    {
      CountAdd(count0, count1, n, inputLen);
      var low := 8 * inputLen % TWO_32;
      count0 := (count0 + low) % TWO_32;
      if count0 < low {
        count1 := (count1 + 1) % TWO_32;
      }
      count1 := (count1 + inputLen / TWO_29) % TWO_32;
    }

    /** Completes the buffered block and transforms it. */
    method CompleteBlock(part: seq<bv8>, idx: nat, ghost m: seq<bv8>, ghost whole: nat)
      requires idx + |part| == 64 && Holds(m, whole, idx) && whole + 64 <= |m| && m[whole + idx..whole + 64] == part
      modifies `state, buffer
      ensures Holds(m, whole + 64, 0)
    {
      CopyIn(idx, part);
      assert buffer[..] == buffer[..64];
      assert m[whole..whole + idx] + m[whole + idx..whole + 64] == m[whole..whole + 64];
      AbsorbNext(h, m, whole);
      state := h.transform(state, buffer[..]);
    }

    /** Transforms a block of the input. */
    method TransformNext(block: seq<bv8>, ghost m: seq<bv8>, ghost whole: nat)
      requires |block| == 64 && Holds(m, whole, 0) && whole + 64 <= |m| && m[whole..whole + 64] == block
      modifies `state
      ensures Holds(m, whole + 64, 0)
    {
      AbsorbNext(h, m, whole);
      state := h.transform(state, block);
    }

    /** Completes the buffered block, then transforms every whole block that follows in the input. */
    method TransformBlocks(input: seq<bv8>, idx: nat, ghost m: seq<bv8>, ghost whole: nat) returns (i: nat)
      requires idx < 64 <= idx + |input| < TWO_32 && Holds(m, whole, idx) && m[whole + idx..] == input
      modifies `state, buffer
      ensures i <= |input| < i + 64 && Holds(m, whole + idx + i, 0)
    {
      var partLen := 64 - idx;
      Window(m, whole + idx, input, 0, partLen);
      CompleteBlock(input[..partLen], idx, m, whole);
      i := partLen;
      ghost var n := whole + idx;
      NoWrap(whole, idx, i, |input|);
      while GoesOn(i, |input|)
        invariant partLen <= i <= |input| && Holds(m, n + i, 0) && i + 63 < TWO_32
        decreases |input| - i
      {
        Window(m, n, input, i, 64);
        TransformNext(input[i..i + 64], m, n + i);
        i := i + 64;
        NoWrap(whole, idx, i, |input|);
      }
    }

    /** MD5Update: whatever the cut, the context stays valid for everything seen so far.  The loop test is in 32 bits;
        for lengths that do not fit, `Overrun` shows it goes on behind the end of the input. */
    method Update(input: seq<bv8>)
      requires Valid() && Fits(|seen|, |input|)
      modifies this, buffer
      ensures Valid() && seen == old(seen) + input
    {
      CountIndex(count0, count1, |seen|);
      var idx := (count0 / 8) % 64;
      ghost var m, whole := seen + input, |seen| - idx;
      Apart(seen, input, whole);
      AddBits(|input|, |seen|);
      var partLen := 64 - idx;
      var i := 0;
      if |input| >= partLen {
        i := TransformBlocks(input, idx, m, whole);
        whole, idx := whole + idx + i, 0;
      }
      Rest(old(seen), input, i);
      KeepRest(idx, input[i..], m, whole);
    }

    /** Buffers what is left of the input. */
    method KeepRest(idx: nat, rest: seq<bv8>, ghost m: seq<bv8>, ghost whole: nat)
      requires Counts(count0, count1, |m|) && Holds(m, whole, idx) && m[whole + idx..] == rest && idx + |rest| < 64
      modifies `seen, buffer
      ensures Valid() && seen == m
    {
      CopyIn(idx, rest);
      assert m[whole..whole + idx] + m[whole + idx..] == m[whole..] == m[whole..whole + (|m| - whole)];
      WholeBlocks(|m|, whole);
      seen := m;
    }

    // ----- MD5Final -----

    /** Section 3.1: 0x80 and the zeros up to 56 modulo 64. */
    method Pad()
      requires Valid()
      modifies this, buffer
      ensures Valid() && seen == old(seen) + [0x80] + Zeros(ZeroCount(|old(seen)|))
    {
      CountIndex(count0, count1, |seen|);
      var idx := (count0 / 8) % 64;
      var padLen := if idx < 56 then 56 - idx else 120 - idx;
      ghost var padding := [0x80] + Zeros(ZeroCount(|seen|));
      assert PADDING[..padLen] == padding;
      Update(PADDING[..padLen]);
    }

    /** With whole blocks only, nothing is left in the buffer. */
    lemma AtBlockEnd()
      requires Valid()
      ensures |seen| % 64 == 0 ==> state == Absorb(h, h.init, seen)
    {
      assert seen[..|seen|] == seen;
    }

    /** MD5Final: the digest of exactly the bytes seen. */
    method Final() returns (digest: seq<bv8>)
      requires Valid()
      modifies this, buffer
      ensures digest == Digest(h, old(seen))
    {
      ghost var m := seen;
      var bits := LittleEndian(count0, 4) + LittleEndian(count1, 4);
      PaddedIs(count0, count1, m);
      Pad();
      Update(bits);
      AtBlockEnd();
      digest := h.encode(state);
    }
  }

  lemma PaddedIs(c0: nat, c1: nat, m: seq<bv8>)
    requires Counts(c0, c1, |m|)
    ensures Padded(m) == m + [0x80] + Zeros(ZeroCount(|m|)) + (LittleEndian(c0, 4) + LittleEndian(c1, 4))
  {
    LittleEndianSplit(c0, c1);
  }

  const PADDING: seq<bv8> := [0x80] + seq(63, _ => 0)

  lemma {:induction false} LittleEndianConcat(low: nat, high: nat, a: nat, b: nat)
    requires low < Power256(a)
    ensures LittleEndian(high * Power256(a) + low, a + b) == LittleEndian(low, a) + LittleEndian(high, b)
  {
    if a == 0 {
      assert high * Power256(a) + low == high;
    } else {
      var rest := high * Power256(a - 1) + low / 256;
      assert high * Power256(a) + low == 256 * rest + low % 256;
      assert (256 * rest + low % 256) / 256 == rest && (256 * rest + low % 256) % 256 == low % 256;
      LittleEndianConcat(low / 256, high, a - 1, b);
    }
  }

  /** The eight length bytes are the two counter words one after the other. */
  lemma LittleEndianSplit(low: nat, high: nat)
    requires low < TWO_32
    ensures LittleEndian(high * TWO_32 + low, 8) == LittleEndian(low, 4) + LittleEndian(high, 4)
  {
    assert Power256(2) == 0x1_0000;
    assert Power256(4) == TWO_32;
    LittleEndianConcat(low, high, 4, 4);
  }

  /** The whole message in one update: no length of 32 bits is too long. */
  method DigestOnce<S>(h: BlockHash<S>, m: seq<bv8>) returns (digest: seq<bv8>)
    requires |m| < TWO_32
    ensures digest == Digest(h, m)
  {
    var context := new Context.Init(h);
    context.Update(m);
    assert [] + m == m;
    digest := context.Final();
  }

  /** Any split of a message into pieces gives the one-shot digest of the whole message. */
  method DigestPieces<S>(h: BlockHash<S>, pieces: seq<seq<bv8>>) returns (digest: seq<bv8>)
    requires forall x :: 0 <= x < |pieces| ==> Fits(|Flat(pieces[..x])|, |pieces[x]|)
    ensures digest == Digest(h, Flat(pieces))
  {
    var context := new Context.Init(h);
    assert Flat(pieces[..0]) == [];
    for x := 0 to |pieces|
      invariant fresh(context) && context.h == h && fresh(context.buffer) && context.Valid()
      invariant context.seen == Flat(pieces[..x])
    {
      assert pieces[..x + 1] == pieces[..x] + [pieces[x]];
      FlatSnoc(pieces[..x], pieces[x]);
      context.Update(pieces[x]);
    }
    assert pieces[..|pieces|] == pieces;
    digest := context.Final();
  }
}
