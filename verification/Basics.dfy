/**
 What several parts of the program share: bytes, machine words, the size of a connection's buffers, concatenation.
 */
module Basics {

  const TWO_32: nat := 0x1_0000_0000
  const TWO_64: nat := 0x1_0000_0000_0000_0000

  type Byte = b: int | 0 <= b < 0x100
  type Word = n: int | 0 <= n < TWO_32

  /** The size of the read buffer and of the write buffer of a connection. */
  const MAX_BUFFER: nat := 8196

  function Min(a: nat, b: nat): nat { if a < b then a else b }

  function Power256(n: nat): (p: nat)
    ensures p > 0
  {
    if n == 0 then 1 else 256 * Power256(n - 1)
  }

  function Flat<T>(parts: seq<seq<T>>): seq<T> {
    if parts == [] then [] else Flat(parts[..|parts| - 1]) + parts[|parts| - 1]
  }

  lemma FlatSnoc<T>(parts: seq<seq<T>>, last: seq<T>)
    ensures Flat(parts + [last]) == Flat(parts) + last
  {
    assert (parts + [last])[..|parts|] == parts;
  }

  lemma {:induction false} FlatConcat<T>(a: seq<seq<T>>, b: seq<seq<T>>)
    ensures Flat(a + b) == Flat(a) + Flat(b)
  {
    if b == [] {
      assert a + b == a;
    } else {
      var n := |b| - 1;
      assert (a + b)[..|a + b| - 1] == a + b[..n];
      FlatConcat(a, b[..n]);
      Assoc(Flat(a), Flat(b[..n]), b[n]);
    }
  }

  lemma Assoc<T>(a: seq<T>, b: seq<T>, c: seq<T>)
    ensures a + (b + c) == (a + b) + c
    ensures a + b <= a + (b + c)
  {
  }

  /** A run of a machine. */
  function Fold<S, E>(step: (S, E) -> S, s: S, es: seq<E>): S
    decreases |es|
  {
    if es == [] then s else Fold(step, step(s, es[0]), es[1..])
  }

  lemma {:induction false} FoldSplit<S, E>(step: (S, E) -> S, s: S, a: seq<E>, b: seq<E>)
    ensures Fold(step, s, a + b) == Fold(step, Fold(step, s, a), b)
    decreases |a|
  {
    if a == [] {
      assert a + b == b;
    } else {
      assert (a + b)[1..] == a[1..] + b;
      FoldSplit(step, step(s, a[0]), a[1..], b);
    }
  }

  lemma FoldOne<S, E>(step: (S, E) -> S, s: S, e: E)
    ensures Fold(step, s, [e]) == step(s, e)
  {
    assert [e][1..] == [];
  }

  lemma FoldTwo<S, E>(step: (S, E) -> S, s: S, es: seq<E>, d: E, e: E)
    ensures Fold(step, s, es + [d, e]) == step(step(Fold(step, s, es), d), e)
  {
    assert es + [d, e] == es + [d] + [e];
    FoldSplit(step, s, es + [d], [e]);
    FoldSplit(step, s, es, [d]);
    FoldOne(step, Fold(step, s, es), d);
    FoldOne(step, Fold(step, s, es + [d]), e);
  }

  /** Every step of the run is allowed where it is taken. */
  ghost predicate Guarded<S, E>(step: (S, E) -> S, s: S, es: seq<E>, allowed: (S, E) -> bool)
    decreases |es|
  {
    es != [] ==> allowed(s, es[0]) && Guarded(step, step(s, es[0]), es[1..], allowed)
  }

  /** What every allowed step keeps, every run of allowed steps keeps. */
  lemma {:induction false} FoldKeeps<S(!new), E(!new)>(step: (S, E) -> S, s: S, es: seq<E>, good: S -> bool,
                                                        allowed: (S, E) -> bool)
    requires good(s) && Guarded(step, s, es, allowed)
    requires forall t: S, e: E :: good(t) && allowed(t, e) ==> good(step(t, e))
    ensures good(Fold(step, s, es))
    decreases |es|
  {
    if es != [] {
      FoldKeeps(step, step(s, es[0]), es[1..], good, allowed);
    }
  }

  lemma {:induction false} Unguarded<S, E>(step: (S, E) -> S, s: S, es: seq<E>, allowed: (S, E) -> bool)
    requires forall t: S, i :: 0 <= i < |es| ==> allowed(t, es[i])
    ensures Guarded(step, s, es, allowed)
    decreases |es|
  {
    if es != [] {
      Unguarded(step, step(s, es[0]), es[1..], allowed);
    }
  }

  function Total<E>(room: E -> nat, es: seq<E>): nat
    decreases |es|
  {
    if es == [] then 0 else room(es[0]) + Total(room, es[1..])
  }
}
