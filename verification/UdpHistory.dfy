/**
 What reads return over whole runs of arrivals, buffer growth and reads, as long as no move of the buffer does harm.
 */
module UdpHistory {
  import opened Basics
  import opened UdpModel

  // ----- what every run keeps -----

  /** Only the last packet received can be short, and then it has not been entered for good. */
  ghost predicate Orderly(ps: seq<seq<Byte>>, order: seq<nat>, entered: nat) {
    && entered <= |order|
    && (forall i :: 0 <= i < |order| ==> order[i] < |ps|)
    && (forall i :: 0 <= i < |order| && (i < |order| - 1 || i < entered) ==> Size(ps, order[i]) == PAYLOAD)
  }

  /** Packets that have not been entered for good are read as they were sent. */
  ghost predicate Fresh(ps: seq<seq<Byte>>, s: State) {
    forall k, i :: 0 <= k < |ps| && 0 <= i < |ps[k]| && k !in Entered(s) ==> s.reader(k, i) == ps[k][i]
  }

  ghost predicate Inv(ps: seq<seq<Byte>>, s: State) {
    && Orderly(ps, s.order, s.entered) && Fresh(ps, s)
    && DATAGRAM <= s.size && Bytes(ps, s.order) <= s.size
    && |s.out| <= Available(ps, s.order)
  }

  lemma {:induction false} FirstAtLeast(n: nat, order: seq<nat>, c: nat, r: nat)
    requires c <= n && r <= n && forall k :: c <= k < r ==> k in order
    ensures First(n, order, c) >= r
    decreases n - c
  {
    if c < n && c in order {
      FirstAtLeast(n, order, c + 1, r);
    }
  }

  /** More packets make no less available. */
  lemma AvailableGrows(ps: seq<seq<Byte>>, order: seq<nat>, order': seq<nat>)
    requires Response(ps) && forall k :: k in order ==> k in order'
    ensures Available(ps, order) <= Available(ps, order')
  {
    FirstAtLeast(|ps|, order', 0, First(|ps|, order, 0));
  }

  lemma MemberOfMore(order: seq<nat>, m: nat, n: nat, k: nat)
    requires m <= n <= |order| && k in order[..m]
    ensures k in order[..n]
  {
    var i :| 0 <= i < m && order[..m][i] == k;
    assert order[..n][i] == k;
  }

  lemma ArrivalKeepsInv(ps: seq<seq<Byte>>, s: State, k: nat)
    requires Response(ps) && Inv(ps, s)
    ensures Inv(ps, Step(ps, s, Arrival(k)))
  {
    var t := Step(ps, s, Arrival(k));
    if t != s {
      assert Entered(t) == Entered(s);
      AvailableGrows(ps, s.order, t.order);
    }
  }

  lemma GrowKeepsInv(ps: seq<seq<Byte>>, s: State, moved: bool, freed: Reader)
    requires Inv(ps, s)
    ensures Inv(ps, Step(ps, s, Grow(moved, freed)))
  {
  }

  lemma EnterKeepsFresh(ps: seq<seq<Byte>>, s: State)
    requires Orderly(ps, s.order, s.entered) && Fresh(ps, s)
    ensures Orderly(ps, s.order, Enter(ps, s).entered) && Fresh(ps, Enter(ps, s))
  {
    var t := Enter(ps, s);
    forall k, i | 0 <= k < |ps| && 0 <= i < |ps[k]| && k !in Entered(t)
      ensures t.reader(k, i) == ps[k][i]
    {
      if k in Entered(s) {
        MemberOfMore(s.order, s.entered, t.entered, k);
      }
    }
  }

  lemma ReadKeepsInv(ps: seq<seq<Byte>>, s: State, room: nat)
    requires Inv(ps, s)
    ensures Inv(ps, Step(ps, s, Read(room)))
  {
    EnterKeepsFresh(ps, s);
    var t := Step(ps, s, Read(room));
    if s.order != [] {
      assert Entered(t) == Entered(Enter(ps, s));
    }
  }

  lemma StepKeepsInv(ps: seq<seq<Byte>>, s: State, e: Event)
    requires Response(ps) && Inv(ps, s)
    ensures Inv(ps, Step(ps, s, e))
  {
    match e
    case Arrival(k) => ArrivalKeepsInv(ps, s, k);
    case Grow(moved, freed) => GrowKeepsInv(ps, s, moved, freed);
    case Read(room) => ReadKeepsInv(ps, s, room);
  }

  lemma StartIsSane(ps: seq<seq<Byte>>)
    requires Response(ps)
    ensures Sane(ps, Start(ps))
  {
  }

  // ----- runs in which no move does harm -----

  /** The bytes read are those that were sent, in order. */
  ghost predicate True(ps: seq<seq<Byte>>, out: seq<Byte>) {
    forall p :: 0 <= p < |out| ==> out[p] == At(Sent(ps), p)
  }

  /** Every byte that is not copied yet is read as it was sent, or will be entered anew before it is read. */
  ghost predicate Intact(ps: seq<seq<Byte>>, s: State) {
    forall k, i :: 0 <= k < |ps| && Copied(ps, |s.out|, k) <= i < |ps[k]| && k !in Coming(s) ==>
      s.reader(k, i) == ps[k][i]
  }

  ghost predicate Sane(ps: seq<seq<Byte>>, s: State) {
    Inv(ps, s) && Intact(ps, s) && True(ps, s.out)
  }

  /** Every packet entered for good has been copied out, or has been received once more. */
  ghost predicate Quiet(ps: seq<seq<Byte>>, s: State) {
    forall k :: k in Entered(s) && k !in Coming(s) ==> Copied(ps, |s.out|, k) == Size(ps, k)
  }

  /** A move finds nothing pending. */
  ghost predicate Harmless(ps: seq<seq<Byte>>, s: State, e: Event) {
    e.Grow? && e.moved && Grows(ps, s) ==> Quiet(ps, s)
  }

  ghost function HarmlessTo(ps: seq<seq<Byte>>): (State, Event) -> bool {
    (s: State, e: Event) => Harmless(ps, s, e)
  }

  /** Whenever the buffer moves, nothing is pending. */
  ghost predicate Clean(ps: seq<seq<Byte>>, s: State, es: seq<Event>) {
    Guarded(Machine(ps), s, es, HarmlessTo(ps))
  }

  lemma ArrivalKeepsIntact(ps: seq<seq<Byte>>, s: State, x: nat)
    requires Inv(ps, s) && Intact(ps, s)
    ensures Intact(ps, Step(ps, s, Arrival(x)))
  {
    var t := Step(ps, s, Arrival(x));
    if t != s {
      assert Coming(t) == Coming(s) + [x];
    }
  }

  lemma GrowKeepsIntact(ps: seq<seq<Byte>>, s: State, moved: bool, freed: Reader)
    requires Inv(ps, s) && Intact(ps, s) && Harmless(ps, s, Grow(moved, freed))
    ensures Intact(ps, Step(ps, s, Grow(moved, freed)))
  {
  }

  /** After a read's entering, whatever is not copied yet is read as it was sent. */
  ghost predicate Ready(ps: seq<seq<Byte>>, n: nat, reader: Reader) {
    forall k, i :: 0 <= k < |ps| && Copied(ps, n, k) <= i < |ps[k]| ==> reader(k, i) == ps[k][i]
  }

  lemma EnterMakesReady(ps: seq<seq<Byte>>, s: State)
    requires Intact(ps, s)
    ensures Ready(ps, |s.out|, Enter(ps, s).reader)
  {
  }

  lemma NextIsTrue(ps: seq<seq<Byte>>, out: seq<Byte>, reader: Reader, c: nat, n: nat)
    requires Response(ps) && True(ps, out) && Ready(ps, |out|, reader) && c <= |ps| && |out| + n <= Extent(ps, c)
    ensures True(ps, out + Next(reader, |out|, n)) && Ready(ps, |out| + n, reader)
  {
    var out' := out + Next(reader, |out|, n);
    forall p | 0 <= p < |out'|
      ensures out'[p] == At(Sent(ps), p)
    {
      if p >= |out| {
        var k, i := p / PAYLOAD, p % PAYLOAD;
        assert p == PAYLOAD * k + i;
        assert k < c && i < |ps[k]| && Copied(ps, |out|, k) <= i;
        assert out'[p] == At(reader, p) == reader(k, i) == ps[k][i];
      }
    }
  }

  lemma ReadKeepsSane(ps: seq<seq<Byte>>, s: State, room: nat)
    requires Response(ps) && Sane(ps, s)
    ensures Sane(ps, Step(ps, s, Read(room)))
  {
    ReadKeepsInv(ps, s, room);
    if s.order != [] {
      EnterMakesReady(ps, s);
      NextIsTrue(ps, s.out, Enter(ps, s).reader, First(|ps|, s.order, 0), Count(ps, s, room));
    }
  }

  lemma StepKeepsSane(ps: seq<seq<Byte>>, s: State, e: Event)
    requires Response(ps) && Sane(ps, s) && Harmless(ps, s, e)
    ensures Sane(ps, Step(ps, s, e))
  {
    StepKeepsInv(ps, s, e);
    match e
    case Arrival(x) => ArrivalKeepsIntact(ps, s, x);
    case Grow(moved, freed) => GrowKeepsIntact(ps, s, moved, freed);
    case Read(room) => ReadKeepsSane(ps, s, room);
  }

  lemma CleanRunIsSane(ps: seq<seq<Byte>>, s: State, es: seq<Event>)
    requires Response(ps) && Sane(ps, s) && Clean(ps, s, es)
    ensures Sane(ps, Run(ps, s, es))
  {
    forall t: State, e: Event | Sane(ps, t) && HarmlessTo(ps)(t, e)
      ensures Sane(ps, Machine(ps)(t, e))
    {
      StepKeepsSane(ps, t, e);
    }
    FoldKeeps(Machine(ps), s, es, (t: State) => Sane(ps, t), HarmlessTo(ps));
  }

  /** What a sane state has returned is the response from its start. */
  lemma SaneIsPrefix(ps: seq<seq<Byte>>, s: State)
    requires Response(ps) && Sane(ps, s)
    ensures s.out <= Flat(ps)
  {
    FlatSize(ps, |ps|);
    assert ps[..|ps|] == ps;
    forall p | 0 <= p < |s.out|
      ensures p < |Flat(ps)| && s.out[p] == Flat(ps)[p]
    {
      ExtentGrows(ps, First(|ps|, s.order, 0));
      SentAt(ps, p);
    }
  }

  lemma ExtentGrows(ps: seq<seq<Byte>>, c: nat)
    requires Response(ps) && c <= |ps|
    ensures Extent(ps, c) <= Extent(ps, |ps|)
  {
  }

  /** With any arrival order, duplicates included, any capacities and any moves that find nothing pending, the bytes
      read are the response from its start. */
  lemma CleanRunConserves(ps: seq<seq<Byte>>, es: seq<Event>)
    requires Response(ps) && Clean(ps, Start(ps), es)
    ensures Run(ps, Start(ps), es).out <= Flat(ps)
  {
    StartIsSane(ps);
    CleanRunIsSane(ps, Start(ps), es);
    SaneIsPrefix(ps, Run(ps, Start(ps), es));
  }

  lemma ExtentAtLeast(ps: seq<seq<Byte>>, k: nat, c: nat)
    requires Response(ps) && k < c <= |ps|
    ensures Extent(ps, c) >= PAYLOAD * k + |ps[k]|
  {
  }

  // ----- how much a read returns -----

  /** Each read goes on where the last one stopped and returns all there is without a gap, as far as it has room. */
  lemma ReadReturns(ps: seq<seq<Byte>>, s: State, room: nat)
    requires Inv(ps, s) && s.order != []
    ensures var t := Step(ps, s, Read(room));
            s.out <= t.out && |t.out| - |s.out| == Min(room, Available(ps, s.order) - |s.out|)
  {
  }

  ghost predicate AllIn(ps: seq<seq<Byte>>, s: State) {
    forall k :: 0 <= k < |ps| ==> k in s.order
  }

  /** All packets are in, and nothing is spoiled. */
  ghost predicate Whole(ps: seq<seq<Byte>>, s: State) {
    Sane(ps, s) && AllIn(ps, s)
  }

  /** Then each read returns exactly min(room, bytes left). */
  lemma ReadWhole(ps: seq<seq<Byte>>, s: State, room: nat)
    requires Response(ps) && Whole(ps, s)
    ensures Whole(ps, Step(ps, s, Read(room))) && |s.out| <= |Flat(ps)|
    ensures Step(ps, s, Read(room)).out == Flat(ps)[..Min(|s.out| + room, |Flat(ps)|)]
  {
    assert 0 in s.order;
    assert First(|ps|, s.order, 0) == |ps| && ps[..|ps|] == ps;
    FlatSize(ps, |ps|);
    ReadReturns(ps, s, room);
    ReadKeepsSane(ps, s, room);
    SaneIsPrefix(ps, Step(ps, s, Read(room)));
  }

  function Room(e: Event): nat { if e.Read? then e.room else 0 }

  lemma RunHead(ps: seq<seq<Byte>>, s: State, es: seq<Event>)
    ensures Run(ps, s, es) == if es == [] then s else Run(ps, Step(ps, s, es[0]), es[1..])
    ensures Total(Room, es) == if es == [] then 0 else Room(es[0]) + Total(Room, es[1..])
  {
  }

  lemma AddsUp(a: nat, b: nat, c: nat, n: nat)
    requires a <= n
    ensures Min(Min(a + b, n) + c, n) == Min(a + (b + c), n)
  {
  }

  lemma {:induction false} ReadsAddUp(ps: seq<seq<Byte>>, s: State, es: seq<Event>)
    requires Response(ps) && Whole(ps, s) && forall i :: 0 <= i < |es| ==> es[i].Read?
    ensures |s.out| <= |Flat(ps)|
    ensures |Run(ps, s, es).out| == Min(|s.out| + Total(Room, es), |Flat(ps)|)
    decreases |es|
  {
    ReadWhole(ps, s, 0);
    RunHead(ps, s, es);
    if es != [] {
      ReadWhole(ps, s, es[0].room);
      ReadsAddUp(ps, Step(ps, s, es[0]), es[1..]);
      AddsUp(|s.out|, es[0].room, Total(Room, es[1..]), |Flat(ps)|);
    }
  }

  /** So the whole response is out as soon as the rooms suffice. */
  lemma RoomsSuffice(ps: seq<seq<Byte>>, s: State, es: seq<Event>)
    requires Response(ps) && Whole(ps, s) && forall i :: 0 <= i < |es| ==> es[i].Read?
    ensures |s.out| <= |Flat(ps)| && Run(ps, s, es).out == Flat(ps)[..Min(|s.out| + Total(Room, es), |Flat(ps)|)]
  {
    ReadsAddUp(ps, s, es);
    Unguarded(Machine(ps), s, es, HarmlessTo(ps));
    CleanRunIsSane(ps, s, es);
    SaneIsPrefix(ps, Run(ps, s, es));
  }
}
