/**
 The shape of the MD5 block function: the unrolled macro calls of the code against the rounds of section 3.4 of
 RFC 1321 written as one loop of 64 steps.  Neither depends on what a macro computes, so words are a type
 parameter and the macros a function parameter.
 */
module Md5Rounds {

  datatype State<W> = State(a: W, b: W, c: W, d: W)

  /** FF, GG, HH or II, by round: registers a to d, message word, rotation, constant. */
  type Macro<!W> = (nat, W, W, W, W, W, nat, W) -> W

  /** The message word that step i of the 64 uses. */
  function WordIndex(i: nat): (k: nat)
    ensures k < 16
  {
    if i < 16 then i % 16 else if i < 32 then (5 * i + 1) % 16 else if i < 48 then (3 * i + 5) % 16 else (7 * i) % 16
  }

  /** The rotation of step i. */
  function Shift(i: nat): nat {
    var k := i % 4;
    if i < 16 then 7 + 5 * k
    else if i < 32 then [5, 9, 14, 20][k]
    else if i < 48 then [4, 11, 16, 23][k]
    else [6, 10, 15, 21][k]
  }

  /** Step i: mix into the first register, then rename the registers for the next step. */
  function Step<W>(op: Macro<W>, t: seq<W>, x: seq<W>, r: State<W>, i: nat): State<W>
    requires |x| == 16 && |t| == 64 && i < 64
  {
    State(r.d, op(i / 16, r.a, r.b, r.c, r.d, x[WordIndex(i)], Shift(i), t[i]), r.b, r.c)
  }

  function Steps<W>(op: Macro<W>, t: seq<W>, x: seq<W>, r: State<W>, n: nat): State<W>
    requires |x| == 16 && |t| == 64 && n <= 64
  {
    if n == 0 then r else Step(op, t, x, Steps(op, t, x, r, n - 1), n - 1)
  }

  /** Four consecutive macro calls, on (a,b,c,d), (d,a,b,c), (c,d,a,b) and (b,c,d,a): if their literals are those
      of steps i to i + 3 they make these steps, and every register is back under its own name. */
  method FourCalls<W>(op: Macro<W>, t: seq<W>, x: seq<W>, r0: State<W>, i: nat, round: nat,
                      w0: nat, w1: nat, w2: nat, w3: nat, s0: nat, s1: nat, s2: nat, s3: nat, ghost s: State<W>)
    returns (r: State<W>)
    requires |x| == 16 && |t| == 64 && i % 4 == 0 && i < 64 && round == i / 16 && r0 == Steps(op, t, x, s, i)
    requires w0 == WordIndex(i) && w1 == WordIndex(i + 1) && w2 == WordIndex(i + 2) && w3 == WordIndex(i + 3)
    requires s0 == Shift(i) && s1 == Shift(i + 1) && s2 == Shift(i + 2) && s3 == Shift(i + 3)
    ensures r == Steps(op, t, x, s, i + 4)
  {
    var a, b, c, d := r0.a, r0.b, r0.c, r0.d;
    a := op(round, a, b, c, d, x[w0], s0, t[i]);
    assert State(d, a, b, c) == Steps(op, t, x, s, i + 1);
    d := op(round, d, a, b, c, x[w1], s1, t[i + 1]);
    assert (i + 1) / 16 == round && State(c, d, a, b) == Steps(op, t, x, s, i + 2);
    c := op(round, c, d, a, b, x[w2], s2, t[i + 2]);
    assert (i + 2) / 16 == round && State(b, c, d, a) == Steps(op, t, x, s, i + 3);
    b := op(round, b, c, d, a, x[w3], s3, t[i + 3]);
    assert (i + 3) / 16 == round;
    r := State(a, b, c, d);
  }

  // The macro calls in the order of the code, with its word indices and rotations, round by round.

  method Round1<W>(op: Macro<W>, t: seq<W>, x: seq<W>, r0: State<W>, n: nat, ghost s: State<W>) returns (r: State<W>)
    requires |x| == 16 && |t| == 64 && n == 0 && r0 == Steps(op, t, x, s, n)
    ensures r == Steps(op, t, x, s, n + 16)
  {
    r := FourCalls(op, t, x, r0, n, 0, 0, 1, 2, 3, 7, 12, 17, 22, s);
    r := FourCalls(op, t, x, r, n + 4, 0, 4, 5, 6, 7, 7, 12, 17, 22, s);
    r := FourCalls(op, t, x, r, n + 8, 0, 8, 9, 10, 11, 7, 12, 17, 22, s);
    r := FourCalls(op, t, x, r, n + 12, 0, 12, 13, 14, 15, 7, 12, 17, 22, s);
  }

  method Round2<W>(op: Macro<W>, t: seq<W>, x: seq<W>, r0: State<W>, n: nat, ghost s: State<W>) returns (r: State<W>)
    requires |x| == 16 && |t| == 64 && n == 16 && r0 == Steps(op, t, x, s, n)
    ensures r == Steps(op, t, x, s, n + 16)
  {
    r := FourCalls(op, t, x, r0, n, 1, 1, 6, 11, 0, 5, 9, 14, 20, s);
    r := FourCalls(op, t, x, r, n + 4, 1, 5, 10, 15, 4, 5, 9, 14, 20, s);
    r := FourCalls(op, t, x, r, n + 8, 1, 9, 14, 3, 8, 5, 9, 14, 20, s);
    r := FourCalls(op, t, x, r, n + 12, 1, 13, 2, 7, 12, 5, 9, 14, 20, s);
  }

  method Round3<W>(op: Macro<W>, t: seq<W>, x: seq<W>, r0: State<W>, n: nat, ghost s: State<W>) returns (r: State<W>)
    requires |x| == 16 && |t| == 64 && n == 32 && r0 == Steps(op, t, x, s, n)
    ensures r == Steps(op, t, x, s, n + 16)
  {
    r := FourCalls(op, t, x, r0, n, 2, 5, 8, 11, 14, 4, 11, 16, 23, s);
    r := FourCalls(op, t, x, r, n + 4, 2, 1, 4, 7, 10, 4, 11, 16, 23, s);
    r := FourCalls(op, t, x, r, n + 8, 2, 13, 0, 3, 6, 4, 11, 16, 23, s);
    r := FourCalls(op, t, x, r, n + 12, 2, 9, 12, 15, 2, 4, 11, 16, 23, s);
  }

  method Round4<W>(op: Macro<W>, t: seq<W>, x: seq<W>, r0: State<W>, n: nat, ghost s: State<W>) returns (r: State<W>)
    requires |x| == 16 && |t| == 64 && n == 48 && r0 == Steps(op, t, x, s, n)
    ensures r == Steps(op, t, x, s, n + 16)
  {
    r := FourCalls(op, t, x, r0, n, 3, 0, 7, 14, 5, 6, 10, 15, 21, s);
    r := FourCalls(op, t, x, r, n + 4, 3, 12, 3, 10, 1, 6, 10, 15, 21, s);
    r := FourCalls(op, t, x, r, n + 8, 3, 8, 15, 6, 13, 6, 10, 15, 21, s);
    r := FourCalls(op, t, x, r, n + 12, 3, 4, 11, 2, 9, 6, 10, 15, 21, s);
  }

  /** The whole block function: all steps, then added to the state word by word. */
  function Compress<W>(op: Macro<W>, add: (W, W) -> W, t: seq<W>, x: seq<W>, s: State<W>): State<W>
    requires |x| == 16 && |t| == 64
  {
    var r := Steps(op, t, x, s, |t|);
    State(add(s.a, r.a), add(s.b, r.b), add(s.c, r.c), add(s.d, r.d))
  }

  /** The unrolled code is the block function. */
  method Unrolled<W>(op: Macro<W>, add: (W, W) -> W, t: seq<W>, x: seq<W>, s: State<W>) returns (s': State<W>)
    requires |x| == 16 && |t| == 64
    ensures s' == Compress(op, add, t, x, s)
  {
    var n := |t| - 64;
    var r := Round1(op, t, x, s, n, s);
    r := Round2(op, t, x, r, n + 16, s);
    r := Round3(op, t, x, r, n + 32, s);
    r := Round4(op, t, x, r, n + 48, s);
    return State(add(s.a, r.a), add(s.b, r.b), add(s.c, r.c), add(s.d, r.d));
  }
}
