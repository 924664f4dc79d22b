/**
 Runs of the code itself: each call that receives a datagram makes room, takes the datagram in, and reads.  Exactly when
 a buffer that moves does harm in such runs.
 */
module UdpCalls {
  import opened Basics
  import opened UdpModel
  import opened UdpHistory

  /** One call of ms_udp_read: what becomes of the buffer if it has to grow, the packet that comes, and the room
      there is for its bytes. */
  datatype Call = Call(moved: bool, freed: Reader, k: nat, room: nat)

  function Made(ps: seq<seq<Byte>>, s: State, c: Call): State { Step(ps, s, Grow(c.moved, c.freed)) }

  function OneCall(ps: seq<seq<Byte>>, s: State, c: Call): State {
    Step(ps, Step(ps, Made(ps, s, c), Arrival(c.k)), Read(c.room))
  }

  function Caller(ps: seq<seq<Byte>>): (State, Call) -> State {
    (s: State, c: Call) => OneCall(ps, s, c)
  }

  function Calls(ps: seq<seq<Byte>>, s: State, cs: seq<Call>): State {
    Fold(Caller(ps), s, cs)
  }

  /** The packets are those of the response, and no call is made without room. */
  ghost predicate Real(ps: seq<seq<Byte>>, cs: seq<Call>) {
    forall i :: 0 <= i < |cs| ==> cs[i].k < |ps| && cs[i].room > 0
  }

  /** The calls as events. */
  function Events(cs: seq<Call>): seq<Event> {
    if cs == [] then []
    else
      var c := cs[|cs| - 1];
      Events(cs[..|cs| - 1]) + [Grow(c.moved, c.freed), Arrival(c.k)] + [Read(c.room)]
  }

  lemma CallsSnoc(ps: seq<seq<Byte>>, s: State, cs: seq<Call>, c: Call)
    ensures Calls(ps, s, cs + [c]) == OneCall(ps, Calls(ps, s, cs), c)
  {
    FoldSplit(Caller(ps), s, cs, [c]);
    FoldOne(Caller(ps), Calls(ps, s, cs), c);
  }

  lemma {:induction false} CallsAreRuns(ps: seq<seq<Byte>>, s: State, cs: seq<Call>)
    ensures Calls(ps, s, cs) == Run(ps, s, Events(cs))
  {
    if cs != [] {
      var n := |cs| - 1;
      var c, before := cs[n], Events(cs[..n]);
      var es := before + [Grow(c.moved, c.freed), Arrival(c.k)];
      assert cs == cs[..n] + [c];
      CallsAreRuns(ps, s, cs[..n]);
      CallsSnoc(ps, s, cs[..n], c);
      FoldTwo(Machine(ps), s, before, Grow(c.moved, c.freed), Arrival(c.k));
      FoldSplit(Machine(ps), s, es, [Read(c.room)]);
      FoldOne(Machine(ps), Run(ps, s, es), Read(c.room));
    }
  }

  // ----- calls that do no harm -----

  ghost function HarmlessCall(ps: seq<seq<Byte>>): (State, Call) -> bool {
    (s: State, c: Call) => Harmless(ps, s, Grow(c.moved, c.freed))
  }

  ghost predicate CleanCalls(ps: seq<seq<Byte>>, s: State, cs: seq<Call>) {
    Guarded(Caller(ps), s, cs, HarmlessCall(ps))
  }

  lemma CallKeepsSane(ps: seq<seq<Byte>>, s: State, c: Call)
    requires Response(ps) && Sane(ps, s) && Harmless(ps, s, Grow(c.moved, c.freed))
    ensures Sane(ps, OneCall(ps, s, c))
  {
    StepKeepsSane(ps, s, Grow(c.moved, c.freed));
    StepKeepsSane(ps, Made(ps, s, c), Arrival(c.k));
    StepKeepsSane(ps, Step(ps, Made(ps, s, c), Arrival(c.k)), Read(c.room));
  }

  lemma CleanCallsAreSane(ps: seq<seq<Byte>>, s: State, cs: seq<Call>)
    requires Response(ps) && Sane(ps, s) && CleanCalls(ps, s, cs)
    ensures Sane(ps, Calls(ps, s, cs))
  {
    forall t: State, c: Call | Sane(ps, t) && HarmlessCall(ps)(t, c)
      ensures Sane(ps, Caller(ps)(t, c))
    {
      CallKeepsSane(ps, t, c);
    }
    FoldKeeps(Caller(ps), s, cs, (t: State) => Sane(ps, t), HarmlessCall(ps));
  }

  lemma MadeHasRoom(ps: seq<seq<Byte>>, s: State, c: Call)
    requires Response(ps) && Inv(ps, s)
    ensures var t := Made(ps, s, c);
            && Inv(ps, t) && !Grows(ps, t) && t.order == s.order && t.entered == s.entered && t.out == s.out
            && (t.reader == s.reader || (c.moved && Grows(ps, s)))
  {
    GrowKeepsInv(ps, s, c.moved, c.freed);
  }

  lemma Arrives(ps: seq<seq<Byte>>, s: State, c: Call)
    requires Response(ps) && Inv(ps, s) && Open(ps, s.order) && c.k < |ps|
    ensures var t := Made(ps, s, c);
            Step(ps, t, Arrival(c.k)) == t.(order := s.order + [c.k]) && Inv(ps, Step(ps, t, Arrival(c.k)))
  {
    MadeHasRoom(ps, s, c);
    ArrivalKeepsInv(ps, Made(ps, s, c), c.k);
  }

  lemma CallKeepsInv(ps: seq<seq<Byte>>, s: State, c: Call)
    requires Response(ps) && Inv(ps, s)
    ensures Inv(ps, OneCall(ps, s, c))
  {
    StepKeepsInv(ps, s, Grow(c.moved, c.freed));
    StepKeepsInv(ps, Made(ps, s, c), Arrival(c.k));
    StepKeepsInv(ps, Step(ps, Made(ps, s, c), Arrival(c.k)), Read(c.room));
  }

  /** Bytes are read only when a datagram has come: whether a response is out is settled by the room there is when its
      last packet comes. */
  lemma LastRoomDecides(ps: seq<seq<Byte>>, s: State, c: Call)
    requires Response(ps) && Sane(ps, s) && Open(ps, s.order) && Harmless(ps, s, Grow(c.moved, c.freed)) && c.k < |ps|
    requires forall j :: 0 <= j < |ps| && j != c.k ==> j in s.order
    ensures OneCall(ps, s, c).out == Flat(ps) <==> |s.out| + c.room >= |Flat(ps)|
  {
    StepKeepsSane(ps, s, Grow(c.moved, c.freed));
    MadeHasRoom(ps, s, c);
    Arrives(ps, s, c);
    var t := Step(ps, Made(ps, s, c), Arrival(c.k));
    StepKeepsSane(ps, Made(ps, s, c), Arrival(c.k));
    assert t.order[|s.order|] == c.k;
    ReadWhole(ps, t, c.room);
    assert Flat(ps)[..|Flat(ps)|] == Flat(ps);
  }

  // ----- a spoiled packet -----

  /** Bytes that differ from those that were sent. */
  function Other(ps: seq<seq<Byte>>): Reader {
    (k: nat, i: nat) => if Sent(ps)(k, i) == 0 then 1 else 0
  }

  lemma OtherDiffers(ps: seq<seq<Byte>>, k: nat, i: nat)
    requires k < |ps| && i < |ps[k]|
    ensures Other(ps)(k, i) != ps[k][i]
  {
    assert Sent(ps)(k, i) == ps[k][i];
  }

  /** The invariant of every run, as a function of the state. */
  ghost function Kept(ps: seq<seq<Byte>>): State -> bool {
    (s: State) => Inv(ps, s)
  }

  /** Byte i of packet k reads as w, and was read as w if it has been read. */
  ghost predicate Reads(s: State, k: nat, i: nat, w: Byte) {
    s.reader(k, i) == w && (|s.out| > PAYLOAD * k + i ==> s.out[PAYLOAD * k + i] == w)
  }

  ghost predicate Marked(ps: seq<seq<Byte>>, s: State, k: nat, i: nat, w: Byte) {
    Kept(ps)(s) && Open(ps, s.order) && k in s.order && k !in Coming(s) && Reads(s, k, i, w)
  }

  lemma NextAt(reader: Reader, out: seq<Byte>, n: nat, k: nat, i: nat)
    requires i < PAYLOAD && |out| <= PAYLOAD * k + i < |out| + n
    ensures (out + Next(reader, |out|, n))[PAYLOAD * k + i] == reader(k, i)
  {
    Place(PAYLOAD * k + i, k, i);
    assert Next(reader, |out|, n)[PAYLOAD * k + i - |out|] == At(reader, PAYLOAD * k + i);
  }

  /** A packet that comes again heals; any other leaves the mark. */
  lemma ArrivalKeepsMark(ps: seq<seq<Byte>>, s: State, c: Call, t: State, k: nat, i: nat, w: Byte)
    requires Response(ps) && Marked(ps, s, k, i, w) && c.k < |ps| && c.k != k && !c.moved
    requires t == Step(ps, Made(ps, s, c), Arrival(c.k))
    ensures Kept(ps)(t) && t.order == s.order + [c.k] && k !in Coming(t) && Reads(t, k, i, w)
  {
    MadeHasRoom(ps, s, c);
    Arrives(ps, s, c);
    assert Coming(t) == Coming(s) + [c.k];
  }

  /** What a read of a marked state returns. */
  lemma ReadKeepsMark(ps: seq<seq<Byte>>, t: State, u: State, room: nat, k: nat, i: nat, w: Byte)
    requires Kept(ps)(t) && t.order != [] && i < PAYLOAD && k !in Coming(t) && Reads(t, k, i, w)
    requires u == Step(ps, t, Read(room))
    ensures Kept(ps)(u) && Reads(u, k, i, w) && u.order == t.order && (Open(ps, t.order) ==> Coming(u) == [])
  {
    ReadKeepsInv(ps, t, room);
    var n := Count(ps, t, room);
    if |t.out| <= PAYLOAD * k + i < |t.out| + n {
      NextAt(Enter(ps, t).reader, t.out, n, k, i);
    }
  }

  lemma CallKeepsMark(ps: seq<seq<Byte>>, s: State, c: Call, k: nat, i: nat, w: Byte)
    requires Response(ps) && i < PAYLOAD && Marked(ps, s, k, i, w) && c.k < |ps| - 1 && c.k != k && !c.moved
    ensures Marked(ps, OneCall(ps, s, c), k, i, w) && OneCall(ps, s, c).order == s.order + [c.k]
  {
    var t := Step(ps, Made(ps, s, c), Arrival(c.k));
    ArrivalKeepsMark(ps, s, c, t, k, i, w);
    assert t.order[|s.order|] == c.k;
    ReadKeepsMark(ps, t, OneCall(ps, s, c), c.room, k, i, w);
  }

  /** The packets before k come, with room for one byte at a time. */
  function Fill(ps: seq<seq<Byte>>, k: nat): seq<Call> {
    if k == 0 then [] else Fill(ps, k - 1) + [Call(false, Other(ps), k - 1, 1)]
  }

  lemma {:induction false} FillInduct(ps: seq<seq<Byte>>, s: State, n: nat, good: (State, nat) -> bool)
    requires good(s, 0)
    requires forall t: State, j: nat :: j < n && good(t, j) ==>
              good(OneCall(ps, t, Call(false, Other(ps), j, 1)), j + 1)
    ensures good(Calls(ps, s, Fill(ps, n)), n)
  {
    if n > 0 {
      FillInduct(ps, s, n - 1, good);
      CallsSnoc(ps, s, Fill(ps, n - 1), Call(false, Other(ps), n - 1, 1));
    }
  }

  ghost predicate HasFirst(order: seq<nat>, n: nat) {
    forall j :: 0 <= j < n ==> j in order
  }

  lemma OneMoreIn(order: seq<nat>, n: nat)
    requires HasFirst(order, n)
    ensures HasFirst(order + [n], n + 1)
  {
    assert (order + [n])[|order|] == n;
  }

  lemma FillKeepsMark(ps: seq<seq<Byte>>, s: State, k: nat, i: nat, w: Byte)
    requires Response(ps) && k < |ps| && i < PAYLOAD && Marked(ps, s, k, i, w)
    ensures var t := Calls(ps, s, Fill(ps, k)); Marked(ps, t, k, i, w) && HasFirst(t.order, k)
  {
    var good := (t: State, j: nat) => Marked(ps, t, k, i, w) && HasFirst(t.order, j);
    forall t: State, j: nat | j < k && good(t, j)
      ensures good(OneCall(ps, t, Call(false, Other(ps), j, 1)), j + 1)
    {
      CallKeepsMark(ps, t, Call(false, Other(ps), j, 1), k, i, w);
      OneMoreIn(t.order, j);
    }
    FillInduct(ps, s, k, good);
  }

  /** The packets before k, and then some packet other than k, with room for all bytes up to those of k. */
  function Reveal(ps: seq<seq<Byte>>, k: nat): seq<Call> {
    Fill(ps, k) + [Call(false, Other(ps), if k == 0 then 1 else 0, PAYLOAD * (k + 1))]
  }

  /** With the packets up to k in, a read with room for them reaches every byte of k. */
  lemma ReadReaches(ps: seq<seq<Byte>>, t: State, k: nat, i: nat)
    requires Response(ps) && Kept(ps)(t) && k < |ps| && i < |ps[k]| && k in t.order && HasFirst(t.order, k)
    ensures |Step(ps, t, Read(PAYLOAD * (k + 1))).out| > PAYLOAD * k + i
  {
    FirstAtLeast(|ps|, t.order, 0, k + 1);
    ExtentAtLeast(ps, k, First(|ps|, t.order, 0));
  }

  lemma LastCallShows(ps: seq<seq<Byte>>, s: State, c: Call, k: nat, i: nat, w: Byte)
    requires Response(ps) && k < |ps| && i < |ps[k]| && Marked(ps, s, k, i, w) && HasFirst(s.order, k)
    requires c.k < |ps| && c.k != k && !c.moved && c.room == PAYLOAD * (k + 1)
    ensures var u := OneCall(ps, s, c); |u.out| > PAYLOAD * k + i && u.out[PAYLOAD * k + i] == w
  {
    var t := Step(ps, Made(ps, s, c), Arrival(c.k));
    ArrivalKeepsMark(ps, s, c, t, k, i, w);
    ReadKeepsMark(ps, t, OneCall(ps, s, c), c.room, k, i, w);
    ReadReaches(ps, t, k, i);
  }

  lemma NotAPrefix(ps: seq<seq<Byte>>, out: seq<Byte>, k: nat, i: nat)
    requires Response(ps) && k < |ps| && i < |ps[k]| && PAYLOAD * k + i < |out| && out[PAYLOAD * k + i] != ps[k][i]
    ensures !(out <= Flat(ps))
  {
    FlatAt(ps, |ps|, k, i);
    assert ps[..|ps|] == ps;
  }

  /** A wrong byte gives itself away. */
  lemma MarkShows(ps: seq<seq<Byte>>, s: State, k: nat, i: nat, w: Byte)
    requires Response(ps) && |ps| >= 2 && k < |ps| && i < |ps[k]| && Marked(ps, s, k, i, w) && w != ps[k][i]
    ensures !(Calls(ps, s, Reveal(ps, k)).out <= Flat(ps))
  {
    FillKeepsMark(ps, s, k, i, w);
    var c := Call(false, Other(ps), if k == 0 then 1 else 0, PAYLOAD * (k + 1));
    CallsSnoc(ps, s, Fill(ps, k), c);
    LastCallShows(ps, Calls(ps, s, Fill(ps, k)), c, k, i, w);
    NotAPrefix(ps, Calls(ps, s, Reveal(ps, k)).out, k, i);
  }

  // ----- the exact condition -----

  /** Whatever the first call does to the buffer, the later ones do no harm. */
  ghost predicate CleanAfterFirst(ps: seq<seq<Byte>>, s: State, cs: seq<Call>) {
    cs != [] ==> CleanCalls(ps, OneCall(ps, s, cs[0]), cs[1..])
  }

  /** The same calls with a move at the first one, after which pointers give other bytes. */
  function Moving(ps: seq<seq<Byte>>, cs: seq<Call>): seq<Call>
    requires cs != []
  {
    [cs[0].(moved := true, freed := Other(ps))] + cs[1..]
  }

  lemma MovingFirst(ps: seq<seq<Byte>>, s: State, cs: seq<Call>)
    requires Response(ps) && Inv(ps, s) && cs != []
    ensures Calls(ps, s, Moving(ps, cs)) == Calls(ps, Step(ps, s, Grow(true, Other(ps))), cs)
  {
    var c := cs[0].(moved := true, freed := Other(ps));
    MadeHasRoom(ps, s, c);
    assert Moving(ps, cs)[1..] == cs[1..];
    assert Made(ps, Made(ps, s, c), cs[0]) == Made(ps, s, c);
    assert OneCall(ps, s, c) == OneCall(ps, Made(ps, s, c), cs[0]);
  }

  lemma {:induction false} FillFacts(ps: seq<seq<Byte>>, k: nat)
    ensures forall i :: 0 <= i < |Fill(ps, k)| ==>
              !Fill(ps, k)[i].moved && Fill(ps, k)[i].k < k && Fill(ps, k)[i].room > 0
  {
    if k > 0 {
      FillFacts(ps, k - 1);
    }
  }

  lemma RevealFacts(ps: seq<seq<Byte>>, s: State, k: nat)
    requires |ps| >= 2 && k < |ps|
    ensures Real(ps, Moving(ps, Reveal(ps, k))) && CleanAfterFirst(ps, s, Moving(ps, Reveal(ps, k)))
  {
    FillFacts(ps, k);
    var cs := Reveal(ps, k);
    assert Moving(ps, cs)[1..] == cs[1..];
    Unguarded(Caller(ps), OneCall(ps, s, Moving(ps, cs)[0]), cs[1..], HarmlessCall(ps));
  }

  /** A move that finds a packet pending spoils it: for some contents of the old memory, calls that do no further harm
      return what was not sent. */
  lemma PendingMoveSpoils(ps: seq<seq<Byte>>, s: State) returns (cs: seq<Call>)
    requires Response(ps) && |ps| >= 2 && Sane(ps, s) && Open(ps, s.order) && Grows(ps, s) && !Quiet(ps, s)
    ensures Real(ps, cs) && CleanAfterFirst(ps, s, cs) && !(Calls(ps, s, cs).out <= Flat(ps))
  {
    var k :| k in Entered(s) && k !in Coming(s) && Copied(ps, |s.out|, k) != Size(ps, k);
    var i, t := Copied(ps, |s.out|, k), Step(ps, s, Grow(true, Other(ps)));
    cs := Moving(ps, Reveal(ps, k));
    RevealFacts(ps, s, k);
    GrowKeepsInv(ps, s, true, Other(ps));
    OtherDiffers(ps, k, i);
    MemberOfMore(s.order, s.entered, |s.order|, k);
    assert s.order[..|s.order|] == s.order;
    assert |s.out| <= PAYLOAD * k + i;
    assert Marked(ps, t, k, i, Other(ps)(k, i));
    MovingFirst(ps, s, Reveal(ps, k));
    MarkShows(ps, t, k, i, Other(ps)(k, i));
  }

  lemma ComingHeals(ps: seq<seq<Byte>>, t: State)
    requires |ps| == 1 && Inv(ps, t) && True(ps, t.out) && 0 in Coming(t)
    ensures Sane(ps, t)
  {
  }

  /** A response of one packet comes back whole: a datagram that follows brings the packet again. */
  lemma OnePacketHeals(ps: seq<seq<Byte>>, s: State, c: Call)
    requires Response(ps) && |ps| == 1 && Size(ps, 0) == PAYLOAD && Inv(ps, s) && True(ps, s.out) && c.k == 0
    ensures Inv(ps, OneCall(ps, s, c)) && True(ps, OneCall(ps, s, c).out)
  {
    assert Open(ps, s.order);
    Arrives(ps, s, c);
    MadeHasRoom(ps, s, c);
    var t := Step(ps, Made(ps, s, c), Arrival(c.k));
    assert Coming(t) == Coming(Made(ps, s, c)) + [0];
    ComingHeals(ps, t);
    ReadKeepsSane(ps, t, c.room);
  }

  lemma {:induction false} OnePacketIsTrue(ps: seq<seq<Byte>>, s: State, cs: seq<Call>)
    requires Response(ps) && |ps| == 1 && Size(ps, 0) == PAYLOAD && Inv(ps, s) && True(ps, s.out) && Real(ps, cs)
    ensures Inv(ps, Calls(ps, s, cs)) && True(ps, Calls(ps, s, cs).out)
    decreases |cs|
  {
    if cs != [] {
      OnePacketHeals(ps, s, cs[0]);
      OnePacketIsTrue(ps, OneCall(ps, s, cs[0]), cs[1..]);
    }
  }

  lemma QuietMoveConserves(ps: seq<seq<Byte>>, s: State, cs: seq<Call>)
    requires Response(ps) && Sane(ps, s) && Quiet(ps, s) && CleanAfterFirst(ps, s, cs)
    ensures Calls(ps, s, cs).out <= Flat(ps)
  {
    if cs != [] {
      CallKeepsSane(ps, s, cs[0]);
      CleanCallsAreSane(ps, OneCall(ps, s, cs[0]), cs[1..]);
    }
    SaneIsPrefix(ps, Calls(ps, s, cs));
  }

  /** When the buffer is about to move, all continuations that do no later harm return the response from its start, for
      any contents of the old memory, if and only if nothing is pending or the response is a single packet. */
  lemma MoveConservesIff(ps: seq<seq<Byte>>, s: State)
    requires Response(ps) && Sane(ps, s) && Open(ps, s.order) && Grows(ps, s)
    ensures Quiet(ps, s) || |ps| == 1 <==>
            forall cs :: Real(ps, cs) && CleanAfterFirst(ps, s, cs) ==> Calls(ps, s, cs).out <= Flat(ps)
  {
    if Quiet(ps, s) {
      forall cs | Real(ps, cs) && CleanAfterFirst(ps, s, cs)
        ensures Calls(ps, s, cs).out <= Flat(ps)
      {
        QuietMoveConserves(ps, s, cs);
      }
    } else if |ps| == 1 {
      forall cs | Real(ps, cs)
        ensures Calls(ps, s, cs).out <= Flat(ps)
      {
        OnePacketIsTrue(ps, s, cs);
        TrueIsPrefix(ps, Calls(ps, s, cs));
      }
    } else {
      var cs := PendingMoveSpoils(ps, s);
    }
  }

  lemma TrueIsPrefix(ps: seq<seq<Byte>>, s: State)
    requires Response(ps) && Inv(ps, s) && True(ps, s.out)
    ensures s.out <= Flat(ps)
  {
    var t := s.(entered := 0, reader := Sent(ps));
    assert Sane(ps, t);
    SaneIsPrefix(ps, t);
  }

  // ----- such a run from the start -----

  /** Packets 1 to k come, but not packet 0. */
  function Late(ps: seq<seq<Byte>>, k: nat): seq<Call> {
    if k == 0 then [] else Late(ps, k - 1) + [Call(false, Other(ps), k, PAYLOAD)]
  }

  /** Packets 1 to k have been entered for good, and nothing has been read. */
  ghost predicate Waiting(ps: seq<seq<Byte>>, s: State, k: nat) {
    && Sane(ps, s) && Open(ps, s.order) && s.out == [] && s.size == UDP_DATA_BUFFER_SIZE
    && |s.order| == s.entered == k && (forall j :: 0 <= j < k ==> s.order[j] == j + 1)
  }

  lemma OneMoreWaits(ps: seq<seq<Byte>>, s: State, k: nat)
    requires Response(ps) && Waiting(ps, s, k) && k + 1 < |ps| - 1 && k < 748
    ensures Waiting(ps, OneCall(ps, s, Call(false, Other(ps), k + 1, PAYLOAD)), k + 1)
  {
    var c := Call(false, Other(ps), k + 1, PAYLOAD);
    Arrives(ps, s, c);
    CallKeepsSane(ps, s, c);
    assert Size(ps, k + 1) == PAYLOAD && !Grows(ps, s);
    var t := Step(ps, s, Arrival(c.k));
    assert 0 !in t.order;
    assert Available(ps, t.order) == 0;
  }

  lemma {:induction false} LateWaits(ps: seq<seq<Byte>>, k: nat)
    requires Response(ps) && k < |ps| - 1 && k <= 748
    ensures Waiting(ps, Calls(ps, Start(ps), Late(ps, k)), k)
    ensures |Late(ps, k)| == k && Real(ps, Late(ps, k))
  {
    if k == 0 {
      StartIsSane(ps);
    } else {
      LateWaits(ps, k - 1);
      OneMoreWaits(ps, Calls(ps, Start(ps), Late(ps, k - 1)), k - 1);
      CallsSnoc(ps, Start(ps), Late(ps, k - 1), Call(false, Other(ps), k, PAYLOAD));
    }
  }

  /** The buffer as it is made at first has no room for a 749th full datagram. */
  lemma WaitingFillsBuffer(ps: seq<seq<Byte>>, s: State)
    requires Response(ps) && |ps| >= 750 && Waiting(ps, s, 748)
    ensures Grows(ps, s) && !Quiet(ps, s)
  {
    assert Size(ps, 748) == PAYLOAD && s.order[747] == 748;
    assert Entered(s) == s.order && Coming(s) == [];
    assert s.order[0] == 1 && 1 in Entered(s) && Copied(ps, 0, 1) == 0 && Size(ps, 1) == PAYLOAD;
  }

  /** For every response of 750 packets or more, such as that of a value of 1 MiB, some run returns what was not sent:
      packet 0 is late, and the buffer moves before the 749th datagram. */
  lemma LargeResponseSpoilt(ps: seq<seq<Byte>>) returns (cs: seq<Call>)
    requires Response(ps) && |ps| >= 750
    ensures Real(ps, cs) && !(Calls(ps, Start(ps), cs).out <= Flat(ps))
  {
    var n := 748;
    LateWaits(ps, n);
    var s := Calls(ps, Start(ps), Late(ps, n));
    WaitingFillsBuffer(ps, s);
    var more := PendingMoveSpoils(ps, s);
    cs := Late(ps, n) + more;
    FoldSplit(Caller(ps), Start(ps), Late(ps, n), more);
  }
}
