/**
 The arithmetic commands over whole runs: what a counter holds after any sequence of commands that spares its key.
 */
module CounterHistory {
  import opened Basics
  import opened StoreModel
  import opened CasHistory

  /** Whatever lies behind the item, the eight bytes an arithmetic command wrote are the number it reads. */
  lemma CounterReadsBack(v: nat, beyond: seq<Byte>)
    requires v < TWO_64 && |beyond| == 8
    ensures Counter(Encode(v, 8), beyond) == v
  {
    DecodeEncode64(v);
    assert (Encode(v, 8) + beyond)[..8] == Encode(v, 8);
  }

  predicate Counts(s: Store, key: Key, v: nat) {
    v < TWO_64 && key in s.items && s.items[key].data == Encode(v, 8)
  }

  predicate IsArithmetic(e: Event, key: Key) {
    (e.cmd.Increment? || e.cmd.Decrement?) && e.cmd.key == key
  }

  /** What a key holds, as far as arithmetic goes. */
  datatype Count = Absent | Counting(v: nat)

  ghost predicate Holds(s: Store, key: Key, c: Count) {
    match c
    case Absent => key !in s.items
    case Counting(v) => Counts(s, key, v)
  }

  /** The commands a counter can meet: arithmetic on it, with or without memory to be had, anything on other keys, and
      what reads or removes it. */
  predicate Tallied(e: Event, key: Key) {
    || e.cmd.Get? || e.cmd.Flush?
    || e.cmd.key != key
    || (e.cmd.Delete? && e.cmd.token == 0)
    || (IsArithmetic(e, key) && !OverrunsBuffer(e))
  }

  predicate Clears(e: Event, key: Key) {
    e.cmd.Flush? || (e.cmd.Delete? && e.cmd.key == key) || (IsArithmetic(e, key) && !e.memory)
  }

  /** The count after one command: a first one starts at the initial value, increments wrap at 2^64, decrements stop
      at 0, and arithmetic without memory loses the counter. */
  function Tally(c: Count, e: Event, key: Key): Count {
    if Clears(e, key) then Absent
    else if !IsArithmetic(e, key) then c
    else match c
      case Absent => Counting(e.cmd.initial)
      case Counting(v) =>
        if e.cmd.Increment? then Counting((v + e.cmd.delta) % TWO_64)
        else Counting(if e.cmd.delta > v then 0 else v - e.cmd.delta)
  }

  function TallyAll(c: Count, es: seq<Event>, key: Key): Count
    decreases |es|
  {
    if es == [] then c else TallyAll(Tally(c, es[0], key), es[1..], key)
  }

  lemma OneCommand(s: Store, e: Event, key: Key, c: Count)
    requires WellTyped(e.cmd) && Holds(s, key, c) && Tallied(e, key)
    ensures Holds(Apply(s, e).0, key, Tally(c, e, key))
    ensures IsArithmetic(e, key) && !e.memory ==> Apply(s, e).1.status == Enomem
    ensures IsArithmetic(e, key) && e.memory ==>
              && Apply(s, e).1.status == Success
              && Tally(c, e, key) == Counting(Apply(s, e).1.number)
              && Apply(s, e).0.items[key].flags == 0
              && Apply(s, e).0.items[key].exp == if c.Absent? then e.cmd.exp else s.items[key].exp
  {
    if IsArithmetic(e, key) {
      if c.Counting? {
        CounterReadsBack(c.v, e.cmd.beyond);
      }
      assert Apply(s, e) == ApplyArithmetic(s, e);
    }
  }

  /** Over every run of such commands the key holds the tally of the arithmetic on it, whatever happens to other keys in
      between. */
  lemma {:induction false} CounterTracks(s: Store, es: seq<Event>, key: Key, c: Count)
    requires AllWellTyped(es) && Holds(s, key, c) && forall e :: e in es ==> Tallied(e, key)
    ensures Holds(Run(s, es), key, TallyAll(c, es, key))
    decreases |es|
  {
    if es != [] {
      assert es[0] in es;
      assert forall e :: e in es[1..] ==> e in es;
      OneCommand(s, es[0], key, c);
      CounterTracks(Apply(s, es[0]).0, es[1..], key, Tally(c, es[0], key));
    }
  }

  function Sum(es: seq<Event>, key: Key): nat
    decreases |es|
  {
    if es == [] then 0 else (if IsArithmetic(es[0], key) then es[0].cmd.delta else 0) + Sum(es[1..], key)
  }

  lemma SumWraps(v: nat, d: nat, t: nat)
    ensures ((v + d) % TWO_64 + t) % TWO_64 == (v + (d + t)) % TWO_64
  {
    var q := (v + d) / TWO_64;
    SameRemainder(v + (d + t), (v + d) % TWO_64 + t, q);
  }

  lemma SameRemainder(x: nat, y: nat, q: nat)
    requires x == q * TWO_64 + y
    ensures x % TWO_64 == y % TWO_64
  {
  }

  lemma {:induction false} TallyIsSum(v: nat, es: seq<Event>, key: Key)
    requires v < TWO_64
    requires forall e :: e in es ==> !Clears(e, key) && (IsArithmetic(e, key) ==> e.cmd.Increment?)
    ensures TallyAll(Counting(v), es, key) == Counting((v + Sum(es, key)) % TWO_64)
    decreases |es|
  {
    if es != [] {
      assert es[0] in es;
      assert forall e :: e in es[1..] ==> e in es;
      TallyIsSum(Tally(Counting(v), es[0], key).v, es[1..], key);
      if IsArithmetic(es[0], key) {
        SumWraps(v, es[0].cmd.delta, Sum(es[1..], key));
      }
    }
  }

  /** Increments accumulate modulo 2^64, however often they wrap on the way. */
  lemma IncrementsAccumulate(s: Store, es: seq<Event>, key: Key, v: nat)
    requires AllWellTyped(es) && Counts(s, key, v) && forall e :: e in es ==> Tallied(e, key)
    requires forall e :: e in es ==> !Clears(e, key) && (IsArithmetic(e, key) ==> e.cmd.Increment?)
    ensures Counts(Run(s, es), key, (v + Sum(es, key)) % TWO_64)
  {
    CounterTracks(s, es, key, Counting(v));
    TallyIsSum(v, es, key);
  }

  /** A key counts one number only. */
  lemma CountsOne(s: Store, key: Key, v: nat, w: nat)
    requires Counts(s, key, v) && Counts(s, key, w)
    ensures v == w
  {
    DecodeEncode64(v);
    DecodeEncode64(w);
  }

  lemma TakenBack(v: nat, down: Event, up: Event, key: Key)
    requires v < TWO_64 && IsArithmetic(down, key) && IsArithmetic(up, key) && down.memory && up.memory
    requires down.cmd.Decrement? && up.cmd.Increment? && down.cmd.delta == up.cmd.delta < TWO_64
    ensures Tally(Tally(Counting(v), down, key), up, key) == Counting(v) <==> down.cmd.delta <= v
  {
  }

  /** A decrement that stops at 0 forgets: adding the same number again restores the counter exactly when the
      decrement did not go below 0. */
  lemma DecrementThenIncrement(s: Store, key: Key, v: nat, down: Event, s1: Store, up: Event, s2: Store)
    requires Counts(s, key, v) && WellTyped(down.cmd) && WellTyped(up.cmd) && down.memory && up.memory
    requires IsArithmetic(down, key) && IsArithmetic(up, key) && !OverrunsBuffer(up)
    requires down.cmd.Decrement? && up.cmd.Increment? && down.cmd.delta == up.cmd.delta
    requires s1 == Apply(s, down).0 && s2 == Apply(s1, up).0
    ensures Counts(s2, key, v) <==> down.cmd.delta <= v
  {
    OneCommand(s, down, key, Counting(v));
    var w := Tally(Counting(v), down, key);
    OneCommand(s1, up, key, w);
    TakenBack(v, down, up, key);
    if Counts(s2, key, v) {
      CountsOne(s2, key, v, Tally(w, up, key).v);
    }
  }
}
