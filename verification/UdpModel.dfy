/**
 Putting a response back together from UDP datagrams: what arrivals, growing the receive buffer and reads do.

 The code keeps pointers into the receive buffer.  When the buffer is reallocated and moves, the pointers stay behind;
 what they then yield is up to the environment.
 */
module UdpModel {
  import opened Basics

  const HEADER: nat := 8
  const DATAGRAM: nat := 1400
  const PAYLOAD: nat := 1392
  const MAX_UDP_PACKET: nat := 0x1_0000
  const UDP_DATA_BUFFER_SIZE: nat := 0x10_0000

  // ----- the header of a datagram: two bytes each -----

  function SeqNum(buf: seq<Byte>, at: nat): nat
    requires at + HEADER <= |buf|
  {
    var high: nat, low: nat := buf[at + 2], buf[at + 3];
    high * 256 + low
  }

  function NumPackets(buf: seq<Byte>, at: nat): nat
    requires at + HEADER <= |buf|
  {
    var high: nat, low: nat := buf[at + 4], buf[at + 5];
    high * 256 + low
  }

  /** A response: full payloads, except that the last may be shorter. */
  ghost predicate Response(ps: seq<seq<Byte>>) {
    && 0 < |ps| < MAX_UDP_PACKET
    && (forall i :: 0 <= i < |ps| ==> |ps[i]| <= PAYLOAD)
    && (forall i :: 0 <= i < |ps| - 1 ==> |ps[i]| == PAYLOAD)
  }

  /** What reading byte i of packet k yields. */
  type Reader = (nat, nat) -> Byte

  function Sent(ps: seq<seq<Byte>>): Reader {
    (k: nat, i: nat) => if k < |ps| && i < |ps[k]| then ps[k][i] else 0
  }

  /** A datagram with packet k arrives; the buffer is enlarged if it has no room for another datagram, and if it moves
      then `freed` is what pointers into it give from now on; a read with room for some bytes. */
  datatype Event = Arrival(k: nat) | Grow(moved: bool, freed: Reader) | Read(room: nat)

  /** The packets received, how many of them have been entered into the table for good, the size of the buffer, what
      reading yields, and all bytes read so far. */
  datatype State = State(order: seq<nat>, entered: nat, size: nat, reader: Reader, out: seq<Byte>)

  function Start(ps: seq<seq<Byte>>): State { State([], 0, UDP_DATA_BUFFER_SIZE, Sent(ps), []) }

  function Size(ps: seq<seq<Byte>>, k: nat): nat { if k < |ps| then |ps[k]| else 0 }

  /** The last packet received was full, so another datagram can follow. */
  predicate Open(ps: seq<seq<Byte>>, order: seq<nat>) {
    order == [] || Size(ps, order[|order| - 1]) == PAYLOAD
  }

  /** How many bytes the buffer holds: every datagram but the last one received is full. */
  function Bytes(ps: seq<seq<Byte>>, order: seq<nat>): nat {
    if order == [] then 0 else DATAGRAM * (|order| - 1) + HEADER + Size(ps, order[|order| - 1])
  }

  predicate Grows(ps: seq<seq<Byte>>, s: State) {
    Bytes(ps, s.order) + DATAGRAM > s.size
  }

  /** The packets entered for good, and those to be entered by the next read. */
  function Entered(s: State): seq<nat> { if s.entered <= |s.order| then s.order[..s.entered] else s.order }
  function Coming(s: State): seq<nat> { if s.entered <= |s.order| then s.order[s.entered..] else [] }

  /** What reading yields once it yields g for these packets. */
  function Patched(reader: Reader, which: seq<nat>, g: Reader): Reader {
    (k: nat, i: nat) => if k in which then g(k, i) else reader(k, i)
  }

  /** The first packet from c on that is missing, or n. */
  function First(n: nat, order: seq<nat>, c: nat): (r: nat)
    requires c <= n
    ensures c <= r <= n && (r < n ==> r !in order) && forall k :: c <= k < r ==> k in order
    decreases n - c
  {
    if c < n && c in order then First(n, order, c + 1) else c
  }

  /** The number of bytes of the first c packets. */
  function Extent(ps: seq<seq<Byte>>, c: nat): nat {
    if c == 0 then 0 else PAYLOAD * (c - 1) + Size(ps, c - 1)
  }

  /** How much can be read without a gap. */
  function Available(ps: seq<seq<Byte>>, order: seq<nat>): nat {
    Extent(ps, First(|ps|, order, 0))
  }

  /** Byte p of the response, as reading yields it. */
  function At(reader: Reader, p: nat): Byte { reader(p / PAYLOAD, p % PAYLOAD) }

  function Next(reader: Reader, from: nat, n: nat): seq<Byte> {
    seq<Byte>(n, i requires 0 <= i < n => At(reader, from + i))
  }

  /** A read first enters what has come since into the table. */
  function Enter(ps: seq<seq<Byte>>, s: State): State {
    s.(reader := Patched(s.reader, Coming(s), Sent(ps)),
       entered := if Open(ps, s.order) then |s.order| else |s.order| - 1)
  }

  /** How much a read returns. */
  function Count(ps: seq<seq<Byte>>, s: State, room: nat): nat {
    if Available(ps, s.order) <= |s.out| then 0 else Min(room, Available(ps, s.order) - |s.out|)
  }

  function Step(ps: seq<seq<Byte>>, s: State, e: Event): State {
    match e
    case Arrival(k) =>
      if k < |ps| && Open(ps, s.order) && !Grows(ps, s) then s.(order := s.order + [k]) else s
    case Grow(moved, freed) =>
      if !Grows(ps, s) then s
      else s.(size := 2 * s.size, reader := if moved then Patched(s.reader, Entered(s), freed) else s.reader)
    case Read(room) =>
      if s.order == [] then s
      else
        var t := Enter(ps, s);
        t.(out := s.out + Next(t.reader, |s.out|, Count(ps, s, room)))
  }

  function Machine(ps: seq<seq<Byte>>): (State, Event) -> State {
    (s: State, e: Event) => Step(ps, s, e)
  }

  function Run(ps: seq<seq<Byte>>, s: State, es: seq<Event>): State {
    Fold(Machine(ps), s, es)
  }

  // ----- positions in the response -----

  /** How much of packet k is among the first n bytes. */
  function Copied(ps: seq<seq<Byte>>, n: nat, k: nat): nat {
    if n <= PAYLOAD * k then 0 else Min(n - PAYLOAD * k, Size(ps, k))
  }

  lemma {:induction false} FlatSize(ps: seq<seq<Byte>>, c: nat)
    requires Response(ps) && c <= |ps|
    ensures |Flat(ps[..c])| == Extent(ps, c)
  {
    if c > 0 {
      FlatSize(ps, c - 1);
      assert ps[..c][..c - 1] == ps[..c - 1];
    }
  }

  lemma {:induction false} FlatAt(ps: seq<seq<Byte>>, c: nat, k: nat, i: nat)
    requires Response(ps) && k < c <= |ps| && i < |ps[k]|
    ensures PAYLOAD * k + i < |Flat(ps[..c])| && Flat(ps[..c])[PAYLOAD * k + i] == ps[k][i]
  {
    FlatSize(ps, c - 1);
    assert ps[..c][..c - 1] == ps[..c - 1];
    if k < c - 1 {
      FlatAt(ps, c - 1, k, i);
    }
  }

  lemma Place(p: nat, k: nat, i: nat)
    requires p == PAYLOAD * k + i && i < PAYLOAD
    ensures p / PAYLOAD == k && p % PAYLOAD == i
  {
  }

  /** Byte p of the response that was sent stands in packet p / 1392. */
  lemma SentAt(ps: seq<seq<Byte>>, p: nat)
    requires Response(ps) && p < |Flat(ps)|
    ensures p / PAYLOAD < |ps| && p % PAYLOAD < |ps[p / PAYLOAD]| && At(Sent(ps), p) == Flat(ps)[p]
  {
    assert ps[..|ps|] == ps;
    FlatSize(ps, |ps|);
    FlatAt(ps, |ps|, p / PAYLOAD, p % PAYLOAD);
  }
}
