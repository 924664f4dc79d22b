/**
 The receive side of a UDP connection as the code runs it: a buffer of datagrams, a table of pointers into it, and
 copying out in sequence order.

 A pointer is an offset together with the number of the allocation it points into.  What a pointer into an allocation
 that is gone yields is an input.
 */
module UdpReassembly {
  import opened Basics
  import opened UdpModel
  import opened UdpHistory
  import UdpCalls

  /** What the code keeps per sequence number: a pointer to the data (if it is there), its size, and how much of it has
      been copied out. */
  datatype Packet = Packet(present: bool, allocation: nat, data: nat, rbytes: nat, copybytes: nat)

  // ----- datagrams in the buffer -----

  /** The i-th datagram in the buffer carries sequence number k out of n and the payload p. */
  ghost predicate Frame(buf: seq<Byte>, i: nat, k: nat, n: nat, p: seq<Byte>) {
    && DATAGRAM * i + HEADER + |p| <= |buf|
    && SeqNum(buf, DATAGRAM * i) == k && NumPackets(buf, DATAGRAM * i) == n
    && buf[DATAGRAM * i + HEADER..DATAGRAM * i + HEADER + |p|] == p
  }

  ghost predicate Framed(buf: seq<Byte>, ps: seq<seq<Byte>>, order: seq<nat>)
    requires Orderly(ps, order, 0)
  {
    |buf| == Bytes(ps, order) && forall i :: 0 <= i < |order| ==> Frame(buf, i, order[i], |ps|, ps[order[i]])
  }

  /** The number of datagrams and the size of the last one follow from the number of bytes alone. */
  lemma CountDatagrams(ps: seq<seq<Byte>>, order: seq<nat>, n: nat)
    requires Response(ps) && Orderly(ps, order, 0) && n == Bytes(ps, order)
    ensures |order| == (if n % DATAGRAM >= HEADER then n / DATAGRAM + 1 else n / DATAGRAM)
    ensures order != [] ==> |ps[order[|order| - 1]]| == if n % DATAGRAM == 0 then PAYLOAD else n % DATAGRAM - HEADER
  {
    if order != [] {
      var last := HEADER + |ps[order[|order| - 1]]|;
      assert n == DATAGRAM * (|order| - 1) + last && HEADER <= last <= DATAGRAM;
    }
  }

  /** A datagram: request id, sequence number, number of packets, two reserved bytes, payload. */
  function Datagram(k: nat, n: nat, p: seq<Byte>): seq<Byte>
    requires k < MAX_UDP_PACKET && n < MAX_UDP_PACKET
  {
    [0, 0, k / 256, k % 256, n / 256, n % 256, 0, 0] + p
  }

  lemma FrameKept(buf: seq<Byte>, more: seq<Byte>, i: nat, k: nat, n: nat, p: seq<Byte>)
    requires Frame(buf, i, k, n, p)
    ensures Frame(buf + more, i, k, n, p)
  {
    var at := DATAGRAM * i + HEADER;
    assert (buf + more)[at..at + |p|] == buf[at..at + |p|];
  }

  lemma FrameNew(buf: seq<Byte>, i: nat, k: nat, n: nat, p: seq<Byte>)
    requires |buf| == DATAGRAM * i && k < MAX_UDP_PACKET && n < MAX_UDP_PACKET
    ensures Frame(buf + Datagram(k, n, p), i, k, n, p)
  {
    var all, d := buf + Datagram(k, n, p), Datagram(k, n, p);
    assert all[|buf| + 2] == d[2] && all[|buf| + 3] == d[3] && all[|buf| + 4] == d[4] && all[|buf| + 5] == d[5];
    assert all[|buf| + HEADER..|buf| + HEADER + |p|] == d[HEADER..] == p;
  }

  /** A datagram may follow if the one before it was full. */
  lemma FramedMore(buf: seq<Byte>, ps: seq<seq<Byte>>, order: seq<nat>, k: nat)
    requires Response(ps) && Orderly(ps, order, 0) && Framed(buf, ps, order) && k < |ps| && Open(ps, order)
    ensures Orderly(ps, order + [k], 0) && Framed(buf + Datagram(k, |ps|, ps[k]), ps, order + [k])
  {
    var d, order' := Datagram(k, |ps|, ps[k]), order + [k];
    FrameNew(buf, |order|, k, |ps|, ps[k]);
    forall i | 0 <= i < |order'|
      ensures Frame(buf + d, i, order'[i], |ps|, ps[order'[i]])
    {
      if i < |order| {
        assert order'[i] == order[i];
        FrameKept(buf, d, i, order[i], |ps|, ps[order[i]]);
      }
    }
  }

  // ----- the packet table -----

  /** The table knows the packets among the first n received. */
  ghost predicate Knows(table: seq<Packet>, ps: seq<seq<Byte>>, order: seq<nat>, n: nat) {
    && |table| == MAX_UDP_PACKET && n <= |order|
    && (forall k :: 0 <= k < MAX_UDP_PACKET ==> (table[k].present <==> k in order[..n]))
    && (forall k :: 0 <= k < MAX_UDP_PACKET && table[k].present ==> k < |ps| && table[k].rbytes == |ps[k]|)
  }

  /** The first n bytes of the response have been copied out. */
  ghost predicate Copies(table: seq<Packet>, ps: seq<seq<Byte>>, n: nat) {
    forall k :: 0 <= k < |table| ==> table[k].copybytes == Copied(ps, n, k)
  }

  /** A pointer, with what it points into and what it yields if that is gone. */
  datatype Memory = Memory(buf: seq<Byte>, allocation: nat, freed: Reader)

  function Yields(m: Memory, p: Packet, k: nat, i: nat): Byte {
    if p.allocation == m.allocation then (if p.data + i < |m.buf| then m.buf[p.data + i] else 0) else m.freed(k, i)
  }

  /** Following the pointer of packet k gives what the model says, as far as it has not been copied. */
  ghost predicate Sees(m: Memory, p: Packet, k: nat, reader: Reader) {
    && p.allocation <= m.allocation && (p.allocation == m.allocation ==> p.data + p.rbytes <= |m.buf|)
    && forall i :: p.copybytes <= i < p.rbytes ==> Yields(m, p, k, i) == reader(k, i)
  }

  ghost predicate SeesAll(m: Memory, table: seq<Packet>, which: seq<nat>, reader: Reader) {
    forall k :: k in which && k < |table| ==> Sees(m, table[k], k, reader)
  }

  lemma SeesMore(m: Memory, table: seq<Packet>, which: seq<nat>, reader: Reader, more: seq<Byte>)
    requires SeesAll(m, table, which, reader)
    ensures SeesAll(m.(buf := m.buf + more), table, which, reader)
  {
    var m' := m.(buf := m.buf + more);
    forall k | k in which && k < |table|
      ensures Sees(m', table[k], k, reader)
    {
      var p := table[k];
      assert Sees(m, p, k, reader);
      forall i | p.copybytes <= i < p.rbytes
        ensures Yields(m', p, k, i) == reader(k, i)
      {
        assert Yields(m, p, k, i) == reader(k, i);
      }
    }
  }

  /** After a move every pointer is left behind. */
  lemma SeesMoved(m: Memory, table: seq<Packet>, which: seq<nat>, reader: Reader, freed: Reader)
    requires SeesAll(m, table, which, reader)
    ensures SeesAll(m.(allocation := m.allocation + 1, freed := freed), table, which, Patched(reader, which, freed))
  {
    forall k | k in which && k < |table|
      ensures Sees(m.(allocation := m.allocation + 1, freed := freed), table[k], k, Patched(reader, which, freed))
    {
      assert Sees(m, table[k], k, reader);
    }
  }

  /** A new entry points at the datagram it was made for. */
  lemma SeesNew(m: Memory, ps: seq<seq<Byte>>, i: nat, k: nat, p: Packet)
    requires k < |ps| && Frame(m.buf, i, k, |ps|, ps[k])
    requires p.allocation == m.allocation && p.data == DATAGRAM * i + HEADER && p.rbytes == |ps[k]|
    ensures Sees(m, p, k, Sent(ps))
  {
    var at := DATAGRAM * i + HEADER;
    forall j | p.copybytes <= j < p.rbytes
      ensures Yields(m, p, k, j) == Sent(ps)(k, j)
    {
      assert m.buf[at..at + |ps[k]|][j] == m.buf[at + j];
    }
  }

  /** Entering the i-th datagram received, e of them having been entered before. */
  lemma EnterOne(m: Memory, table: seq<Packet>, ps: seq<seq<Byte>>, order: seq<nat>, e: nat, i: nat, reader: Reader,
                 p: Packet)
    requires e <= i < |order| && order[i] < |ps| && order[i] < |table|
    requires SeesAll(m, table, order[..i], Patched(reader, order[e..i], Sent(ps)))
    requires Sees(m, p, order[i], Sent(ps))
    ensures SeesAll(m, table[order[i] := p], order[..i + 1], Patched(reader, order[e..i + 1], Sent(ps)))
  {
    assert order[..i + 1] == order[..i] + [order[i]] && order[e..i + 1] == order[e..i] + [order[i]];
    var before, after := Patched(reader, order[e..i], Sent(ps)), Patched(reader, order[e..i + 1], Sent(ps));
    var upto, table' := order[..i + 1], table[order[i] := p];
    forall k | k in upto && k < |table|
      ensures Sees(m, table'[k], k, after)
    {
      if k == order[i] {
        assert forall j :: after(k, j) == Sent(ps)(k, j);
      } else {
        assert Sees(m, table[k], k, before);
        assert forall j :: after(k, j) == before(k, j);
      }
    }
  }

  lemma KnowsOne(table: seq<Packet>, ps: seq<seq<Byte>>, order: seq<nat>, n: nat, i: nat, p: Packet)
    requires Knows(table, ps, order, n) && i < |order| && i <= n && order[i] < |ps| <= |table|
    requires p.present && p.rbytes == |ps[order[i]]|
    ensures Knows(table[order[i] := p], ps, order, if i < n then n else i + 1)
  {
    if i < n {
      assert order[..n][i] == order[i];
    } else {
      assert order[..i + 1] == order[..i] + [order[i]];
    }
  }

  // ----- reading on -----

  lemma NextAppended(reader: Reader, was: seq<Byte>, buf: seq<Byte>, chunk: seq<Byte>)
    requires buf == Next(reader, |was|, |buf|) && chunk == Next(reader, |was + buf|, |chunk|)
    ensures was + buf + chunk == was + (buf + chunk) && buf + chunk == Next(reader, |was|, |buf + chunk|)
  {
  }

  /** Bytes c to c + len of packet k are the next ones after 1392 k + c. */
  lemma NextIs(reader: Reader, n: nat, k: nat, c: nat, chunk: seq<Byte>)
    requires n == PAYLOAD * k + c && c + |chunk| <= PAYLOAD
    requires forall i :: 0 <= i < |chunk| ==> chunk[i] == reader(k, c + i)
    ensures chunk == Next(reader, n, |chunk|)
  {
    forall i | 0 <= i < |chunk|
      ensures chunk[i] == Next(reader, n, |chunk|)[i]
    {
      Place(n + i, k, c + i);
      assert Next(reader, n, |chunk|)[i] == At(reader, n + i);
    }
  }

  /** Copying further into packet k. */
  lemma CopiesMore(table: seq<Packet>, ps: seq<seq<Byte>>, n: nat, k: nat, len: nat)
    requires Copies(table, ps, n) && k < |ps| && k < |table| && Response(ps)
    requires PAYLOAD * k <= n && n - PAYLOAD * k + len <= |ps[k]|
    ensures Copies(table[k := table[k].(copybytes := table[k].copybytes + len)], ps, n + len)
  {
  }

  lemma SeesCopied(m: Memory, table: seq<Packet>, which: seq<nat>, reader: Reader, k: nat, c: nat)
    requires SeesAll(m, table, which, reader) && k < |table| && c >= table[k].copybytes
    ensures SeesAll(m, table[k := table[k].(copybytes := c)], which, reader)
  {
  }

  /** At a packet that is missing, or short and copied already, or behind all that were received, there is nothing left
      to copy. */
  lemma Exhausted(table: seq<Packet>, ps: seq<seq<Byte>>, order: seq<nat>, n: nat, k: nat)
    requires Response(ps) && Orderly(ps, order, 0) && Knows(table, ps, order, |order|) && Copies(table, ps, n)
    requires PAYLOAD * k <= n < PAYLOAD * (k + 1) && n <= Available(ps, order)
    requires k >= |order| || !table[k].present || table[k].copybytes >= table[k].rbytes
    ensures n == Available(ps, order)
  {
    var c := First(|ps|, order, 0);
    assert order[..|order|] == order;
    NoMoreThanReceived(order, c);
  }

  lemma {:induction false} NoMoreThanReceived(order: seq<nat>, c: nat)
    requires forall k :: 0 <= k < c ==> k in order
    ensures c <= |order|
  {
    Inject(seq(c, x => x), order);
  }

  /** Distinct numbers that all occur in b are no more than b is long. */
  lemma {:induction false} Inject(a: seq<nat>, b: seq<nat>)
    requires forall i, j :: 0 <= i < j < |a| ==> a[i] != a[j]
    requires forall x :: x in a ==> x in b
    ensures |a| <= |b|
  {
    if a != [] {
      var n := |a| - 1;
      assert a[n] in a;
      var j :| 0 <= j < |b| && b[j] == a[n];
      var rest := b[..j] + b[j + 1..];
      forall x | x in a[..n]
        ensures x in rest
      {
        var i :| 0 <= i < n && a[..n][i] == x;
        assert a[i] in a && a[i] != a[n];
        assert b == b[..j] + [b[j]] + b[j + 1..];
      }
      Inject(a[..n], rest);
    }
  }

  // ----- what the fields say together -----

  datatype Fields = Fields(m: Memory, table: seq<Packet>, ps: seq<seq<Byte>>, s: State, packets: nat, recvpkt: nat,
                           ordcurr: nat)

  /** The buffer holds what was received, and the counters fit it. */
  ghost predicate Received(f: Fields) {
    && Orderly(f.ps, f.s.order, f.s.entered) && Orderly(f.ps, f.s.order, 0) && Framed(f.m.buf, f.ps, f.s.order)
    && f.s.entered <= f.recvpkt <= |f.s.order| && (f.packets == 0 || f.packets == |f.ps|)
  }

  /** What has been copied ends in packet ordcurr. */
  ghost predicate Located(ps: seq<seq<Byte>>, s: State, ordcurr: nat) {
    PAYLOAD * ordcurr <= |s.out| < PAYLOAD * (ordcurr + 1) && |s.out| <= Available(ps, s.order)
  }

  ghost predicate Consistent(f: Fields) {
    && Response(f.ps) && Received(f) && Located(f.ps, f.s, f.ordcurr)
    && Knows(f.table, f.ps, f.s.order, f.recvpkt) && Copies(f.table, f.ps, |f.s.out|)
    && SeesAll(f.m, f.table, Entered(f.s), f.s.reader)
  }

  /** Consistency as a value, so that it is handed on whole. */
  ghost function Law(): Fields -> bool {
    (f: Fields) => Consistent(f)
  }

  lemma StartLaw(ps: seq<seq<Byte>>, freed: Reader)
    requires Response(ps)
    ensures var table := seq(MAX_UDP_PACKET, _ => Packet(false, 0, 0, 0, 0));
            Law()(Fields(Memory([], 0, freed), table, ps, Start(ps), 0, 0, 0))
  {
  }

  lemma ArrivalReceived(f: Fields, g: Fields, k: nat)
    requires Response(f.ps) && Received(f) && k < |f.ps| && Open(f.ps, f.s.order)
    requires g == f.(m := f.m.(buf := f.m.buf + Datagram(k, |f.ps|, f.ps[k])), s := f.s.(order := f.s.order + [k]))
    ensures Received(g)
  {
    FramedMore(f.m.buf, f.ps, f.s.order, k);
  }

  lemma KnowsStill(table: seq<Packet>, ps: seq<seq<Byte>>, order: seq<nat>, n: nat, k: nat)
    requires Knows(table, ps, order, n)
    ensures Knows(table, ps, order + [k], n)
  {
    assert (order + [k])[..n] == order[..n];
  }

  lemma ArrivalStays(f: Fields, k: nat)
    requires Law()(f) && k < |f.ps| < MAX_UDP_PACKET && Open(f.ps, f.s.order) && !Grows(f.ps, f.s)
    ensures Law()(f.(m := f.m.(buf := f.m.buf + Datagram(k, |f.ps|, f.ps[k])), s := Step(f.ps, f.s, Arrival(k))))
  {
    var t := f.s.(order := f.s.order + [k]);
    var g := f.(m := f.m.(buf := f.m.buf + Datagram(k, |f.ps|, f.ps[k])), s := t);
    assert Step(f.ps, f.s, Arrival(k)) == t;
    ArrivalReceived(f, g, k);
    AvailableGrows(f.ps, f.s.order, t.order);
    KnowsStill(f.table, f.ps, f.s.order, f.recvpkt, k);
    SeesMore(f.m, f.table, Entered(f.s), f.s.reader, Datagram(k, |f.ps|, f.ps[k]));
    assert Entered(t) == Entered(f.s);
    assert Consistent(g);
  }

  lemma SizeIs(f: Fields)
    requires Law()(f)
    ensures |f.m.buf| == Bytes(f.ps, f.s.order)
  {
  }

  /** Where the buffer is after it has been enlarged. */
  function Enlarged(m: Memory, moved: bool, freed: Reader): Memory {
    if moved then m.(allocation := m.allocation + 1, freed := freed) else m
  }

  lemma GrowStays(f: Fields, moved: bool, freed: Reader)
    requires Law()(f) && Grows(f.ps, f.s)
    ensures Law()(f.(m := Enlarged(f.m, moved, freed), s := Step(f.ps, f.s, Grow(moved, freed))))
  {
    SeesMoved(f.m, f.table, Entered(f.s), f.s.reader, freed);
  }

  // ----- while datagrams are entered into the table -----

  /** The datagrams from the e-th to the i-th have been entered, on top of the first `before` known already. */
  ghost predicate Entering(f: Fields, e: nat, i: nat, before: nat) {
    && Response(f.ps) && Received(f) && Located(f.ps, f.s, f.ordcurr)
    && e == f.s.entered <= i <= |f.s.order| && before <= |f.s.order|
    && Knows(f.table, f.ps, f.s.order, if i < before then before else i) && Copies(f.table, f.ps, |f.s.out|)
    && SeesAll(f.m, f.table, f.s.order[..i], Patched(f.s.reader, f.s.order[e..i], Sent(f.ps)))
  }

  ghost function EnteringLaw(e: nat, i: nat, before: nat): Fields -> bool {
    (f: Fields) => Entering(f, e, i, before)
  }

  lemma EnteringBegins(f: Fields)
    requires Law()(f)
    ensures f.s.entered <= |f.s.order| && f.recvpkt <= |f.s.order|
    ensures f.s.entered == |f.s.order| ==> Open(f.ps, f.s.order)
    ensures EnteringLaw(f.s.entered, f.s.entered, f.recvpkt)(f.(packets := |f.ps|, recvpkt := |f.s.order|))
  {
    var e := f.s.entered;
    assert f.s.order[e..e] == [];
    SeesSame(f.m, f.table, Entered(f.s), f.s.reader, Patched(f.s.reader, [], Sent(f.ps)));
  }

  lemma SeesSame(m: Memory, table: seq<Packet>, which: seq<nat>, a: Reader, b: Reader)
    requires SeesAll(m, table, which, a) && forall k, i :: k in which ==> a(k, i) == b(k, i)
    ensures SeesAll(m, table, which, b)
  {
    forall k | k in which && k < |table|
      ensures Sees(m, table[k], k, b)
    {
      assert Sees(m, table[k], k, a);
    }
  }

  /** What the number of bytes and the first datagram say. */
  ghost predicate FirstFacts(f: Fields) {
    && f.s.order != [] && f.s.entered <= |f.s.order| && (f.s.entered == |f.s.order| ==> Open(f.ps, f.s.order))
    && HEADER <= |f.m.buf| && NumPackets(f.m.buf, 0) == |f.ps| && (f.packets != 0 ==> f.packets == |f.ps|)
    && |f.s.order| == var n := |f.m.buf|; if n % DATAGRAM >= HEADER then n / DATAGRAM + 1 else n / DATAGRAM
  }

  lemma FirstHeader(f: Fields)
    requires Law()(f) && f.s.order != []
    ensures FirstFacts(f)
  {
    assert Frame(f.m.buf, 0, f.s.order[0], |f.ps|, f.ps[f.s.order[0]]);
    CountDatagrams(f.ps, f.s.order, |f.m.buf|);
  }

  /** What the i-th datagram in the buffer says. */
  lemma DatagramAt(f: Fields, e: nat, i: nat, before: nat)
    requires EnteringLaw(e, i, before)(f) && i < |f.s.order|
    ensures f.s.order[i] < |f.ps| < |f.table| == MAX_UDP_PACKET && DATAGRAM * i + HEADER <= |f.m.buf|
    ensures SeqNum(f.m.buf, DATAGRAM * i) == f.s.order[i] && NumPackets(f.m.buf, DATAGRAM * i) == |f.ps|
    ensures |f.ps[f.s.order[i]]|
         == if i == |f.s.order| - 1 && |f.m.buf| % DATAGRAM != 0 then |f.m.buf| % DATAGRAM - HEADER else PAYLOAD
    ensures i == |f.s.order| - 1 && |f.m.buf| % DATAGRAM != 0 <==> i == |f.s.order| - 1 && !Open(f.ps, f.s.order)
  {
    assert Frame(f.m.buf, i, f.s.order[i], |f.ps|, f.ps[f.s.order[i]]);
    CountDatagrams(f.ps, f.s.order, |f.m.buf|);
  }

  lemma EnterNext(f: Fields, e: nat, i: nat, before: nat, p: Packet)
    requires EnteringLaw(e, i, before)(f) && i < |f.s.order| && f.s.order[i] < |f.ps| && f.s.order[i] < |f.table|
    requires p == Packet(true, f.m.allocation, DATAGRAM * i + HEADER, |f.ps[f.s.order[i]]|,
                         f.table[f.s.order[i]].copybytes)
    ensures EnteringLaw(e, i + 1, before)(f.(table := f.table[f.s.order[i] := p]))
  {
    var k := f.s.order[i];
    assert Frame(f.m.buf, i, k, |f.ps|, f.ps[k]);
    SeesNew(f.m, f.ps, i, k, p);
    EnterOne(f.m, f.table, f.ps, f.s.order, e, i, f.s.reader, p);
    KnowsOne(f.table, f.ps, f.s.order, if i < before then before else i, i, p);
  }

  // ----- what entering needs of a law -----

  ghost predicate DatagramFacts(f: Fields, i: nat)
    requires i < |f.s.order|
  {
    && f.s.order[i] < |f.ps| < |f.table| && DATAGRAM * i + HEADER <= |f.m.buf|
    && SeqNum(f.m.buf, DATAGRAM * i) == f.s.order[i]
    && |f.ps[f.s.order[i]]|
       == (if i == |f.s.order| - 1 && |f.m.buf| % DATAGRAM != 0 then |f.m.buf| % DATAGRAM - HEADER else PAYLOAD)
    && (i == |f.s.order| - 1 ==> (|f.m.buf| % DATAGRAM != 0 <==> !Open(f.ps, f.s.order)))
  }

  /** A table entry for the i-th datagram. */
  ghost predicate NewEntry(f: Fields, i: nat, p: Packet)
    requires i < |f.s.order|
  {
    && f.s.order[i] < |f.ps| && f.s.order[i] < |f.table|
    && p == Packet(true, f.m.allocation, DATAGRAM * i + HEADER, |f.ps[f.s.order[i]]|,
                         f.table[f.s.order[i]].copybytes)
  }

  ghost predicate EnterLaws(law: (nat, Fields) -> bool) {
    && (forall i: nat, f: Fields :: law(i, f) && i < |f.s.order| ==> DatagramFacts(f, i))
    && (forall i: nat, f: Fields, p: Packet :: law(i, f) && i < |f.s.order| && NewEntry(f, i, p) ==>
          law(i + 1, f.(table := f.table[f.s.order[i] := p])))
  }

  ghost function EnteringFrom(e: nat, before: nat): (nat, Fields) -> bool {
    (i: nat, f: Fields) => EnteringLaw(e, i, before)(f)
  }

  lemma EnteringObeys(e: nat, before: nat)
    ensures EnterLaws(EnteringFrom(e, before))
  {
    forall i: nat, f: Fields | EnteringFrom(e, before)(i, f) && i < |f.s.order|
      ensures DatagramFacts(f, i)
    {
      DatagramAt(f, e, i, before);
    }
    forall i: nat, f: Fields, p: Packet | EnteringFrom(e, before)(i, f) && i < |f.s.order| && NewEntry(f, i, p)
      ensures EnteringFrom(e, before)(i + 1, f.(table := f.table[f.s.order[i] := p]))
    {
      EnterNext(f, e, i, before, p);
    }
  }

  // ----- while packets are copied out -----

  /** Everything received is in the table, for good or not. */
  ghost predicate Registered(f: Fields) {
    && Consistent(f) && f.recvpkt == |f.s.order| && f.packets == |f.ps|
    && SeesAll(f.m, f.table, f.s.order, f.s.reader)
  }

  ghost function RegisteredLaw(): Fields -> bool {
    (f: Fields) => Registered(f)
  }

  lemma RegisteredIsLawful(f: Fields)
    requires RegisteredLaw()(f)
    ensures Law()(f)
  {
  }

  lemma SeesFewer(m: Memory, table: seq<Packet>, order: seq<nat>, n: nat, reader: Reader)
    requires SeesAll(m, table, order, reader) && n <= |order|
    ensures SeesAll(m, table, order[..n], reader)
  {
    var fewer := order[..n];
    forall k | k in fewer && k < |table|
      ensures Sees(m, table[k], k, reader)
    {
      assert k in order;
    }
  }

  lemma EnteringEnds(f: Fields, e: nat, before: nat)
    requires f.s.order != [] && EnteringLaw(e, |f.s.order|, before)(f)
    requires f.packets == |f.ps| && f.recvpkt == |f.s.order|
    ensures RegisteredLaw()(f.(s := Enter(f.ps, f.s)))
  {
    var t := Enter(f.ps, f.s);
    var g := f.(s := t);
    assert f.s.order[..|f.s.order|] == f.s.order && f.s.order[e..|f.s.order|] == Coming(f.s);
    assert SeesAll(f.m, f.table, f.s.order, t.reader);
    SeesFewer(f.m, f.table, f.s.order, t.entered, t.reader);
    EnterOrderly(f.ps, f.s);
    assert Received(g);
    assert Registered(g);
  }

  lemma EnterOrderly(ps: seq<seq<Byte>>, s: State)
    requires Orderly(ps, s.order, s.entered) && s.order != []
    ensures Orderly(ps, s.order, Enter(ps, s).entered)
  {
  }

  /** Where copying stands within the current packet. */
  lemma CopiedHere(ps: seq<seq<Byte>>, order: seq<nat>, n: nat, k: nat)
    requires Response(ps) && PAYLOAD * k <= n < PAYLOAD * (k + 1) && n <= Available(ps, order) && k < |ps| && k in order
    ensures n == PAYLOAD * k + Copied(ps, n, k) && Copied(ps, n, k) <= |ps[k]| <= PAYLOAD
    ensures PAYLOAD * k + |ps[k]| <= Available(ps, order)
  {
    var c := First(|ps|, order, 0);
    assert k < c;
    ExtentAtLeast(ps, k, c);
  }

  /** What there is to copy from the current packet. */
  lemma CurrentIs(f: Fields)
    requires RegisteredLaw()(f) && f.ordcurr < |f.table| && f.table[f.ordcurr].present
    ensures f.ordcurr < |f.ps| && f.ordcurr in f.s.order
    ensures var p := f.table[f.ordcurr];
            && p.copybytes <= p.rbytes == |f.ps[f.ordcurr]| <= PAYLOAD && |f.s.out| == PAYLOAD * f.ordcurr + p.copybytes
            && Sees(f.m, p, f.ordcurr, f.s.reader)
            && PAYLOAD * f.ordcurr + p.rbytes <= Available(f.ps, f.s.order)
  {
    assert f.s.order[..|f.s.order|] == f.s.order;
    CopiedHere(f.ps, f.s.order, |f.s.out|, f.ordcurr);
  }

  /** The fields once a chunk of the current packet has been copied. */
  function Further(f: Fields, chunk: seq<Byte>): Fields
    requires f.ordcurr < |f.table|
  {
    var p := f.table[f.ordcurr];
    var c := p.copybytes + |chunk|;
    f.(table := f.table[f.ordcurr := p.(copybytes := c)], s := f.s.(out := f.s.out + chunk),
       ordcurr := if c == p.rbytes == PAYLOAD then f.ordcurr + 1 else f.ordcurr)
  }

  lemma KnowsCopied(table: seq<Packet>, ps: seq<seq<Byte>>, order: seq<nat>, n: nat, k: nat, c: nat)
    requires Knows(table, ps, order, n) && k < |table|
    ensures Knows(table[k := table[k].(copybytes := c)], ps, order, n)
  {
  }

  lemma CopiedStillLocated(f: Fields, chunk: seq<Byte>)
    requires RegisteredLaw()(f) && f.ordcurr < |f.table| && f.table[f.ordcurr].present
    requires f.table[f.ordcurr].copybytes + |chunk| <= f.table[f.ordcurr].rbytes
    ensures Located(f.ps, Further(f, chunk).s, Further(f, chunk).ordcurr)
  {
    CurrentIs(f);
  }

  lemma CopiesFurther(f: Fields, chunk: seq<Byte>)
    requires RegisteredLaw()(f) && f.ordcurr < |f.table| && f.table[f.ordcurr].present
    requires f.table[f.ordcurr].copybytes + |chunk| <= f.table[f.ordcurr].rbytes
    ensures Copies(Further(f, chunk).table, f.ps, |Further(f, chunk).s.out|)
  {
    CurrentIs(f);
    CopiesMore(f.table, f.ps, |f.s.out|, f.ordcurr, |chunk|);
  }

  lemma Assemble(f: Fields)
    requires Response(f.ps) && Received(f) && Located(f.ps, f.s, f.ordcurr) && f.recvpkt == |f.s.order|
    requires Knows(f.table, f.ps, f.s.order, f.recvpkt) && Copies(f.table, f.ps, |f.s.out|) && f.packets == |f.ps|
    requires SeesAll(f.m, f.table, f.s.order, f.s.reader)
    ensures RegisteredLaw()(f)
  {
    SeesFewer(f.m, f.table, f.s.order, f.s.entered, f.s.reader);
  }

  lemma CopiedStillReceived(f: Fields, chunk: seq<Byte>)
    requires RegisteredLaw()(f) && f.ordcurr < |f.table| && f.table[f.ordcurr].present
    requires f.table[f.ordcurr].copybytes + |chunk| <= f.table[f.ordcurr].rbytes
    ensures var g := Further(f, chunk);
            Response(g.ps) && Received(g) && g.recvpkt == |g.s.order| && g.packets == |g.ps|
  {
  }

  lemma CopiedStillSees(f: Fields, chunk: seq<Byte>)
    requires RegisteredLaw()(f) && f.ordcurr < |f.table| && f.table[f.ordcurr].present
    requires f.table[f.ordcurr].copybytes + |chunk| <= f.table[f.ordcurr].rbytes
    ensures var g := Further(f, chunk);
            Knows(g.table, g.ps, g.s.order, g.recvpkt) && SeesAll(g.m, g.table, g.s.order, g.s.reader)
  {
    var c := f.table[f.ordcurr].copybytes + |chunk|;
    KnowsCopied(f.table, f.ps, f.s.order, f.recvpkt, f.ordcurr, c);
    SeesCopied(f.m, f.table, f.s.order, f.s.reader, f.ordcurr, c);
  }

  lemma CopyStays(f: Fields, chunk: seq<Byte>)
    requires RegisteredLaw()(f) && f.ordcurr < |f.table| && f.table[f.ordcurr].present
    requires f.table[f.ordcurr].copybytes + |chunk| <= f.table[f.ordcurr].rbytes
    ensures RegisteredLaw()(Further(f, chunk))
  {
    CopiedStillReceived(f, chunk);
    CopiedStillSees(f, chunk);
    CopiedStillLocated(f, chunk);
    CopiesFurther(f, chunk);
    Assemble(Further(f, chunk));
  }

  /** A chunk read through a sound pointer is what comes next. */
  lemma NextFrom(m: Memory, p: Packet, k: nat, reader: Reader, n: nat, chunk: seq<Byte>)
    requires Sees(m, p, k, reader) && n == PAYLOAD * k + p.copybytes && p.copybytes + |chunk| <= p.rbytes <= PAYLOAD
    requires forall j :: 0 <= j < |chunk| ==> chunk[j] == Yields(m, p, k, p.copybytes + j)
    ensures chunk == Next(reader, n, |chunk|)
  {
    forall j | 0 <= j < |chunk|
      ensures chunk[j] == reader(k, p.copybytes + j)
    {
      assert Yields(m, p, k, p.copybytes + j) == reader(k, p.copybytes + j);
    }
    NextIs(reader, n, k, p.copybytes, chunk);
  }

  lemma CurrentInTable(f: Fields)
    requires RegisteredLaw()(f)
    ensures f.ordcurr < |f.table| && f.recvpkt == |f.s.order| && f.packets == |f.ps|
  {
    ExtentGrows(f.ps, First(|f.ps|, f.s.order, 0));
  }

  /** At a packet that has nothing more to copy, all that is available is out. */
  lemma NothingLeft(f: Fields)
    requires RegisteredLaw()(f)
    requires f.ordcurr >= |f.s.order| || f.ordcurr >= |f.table| || !f.table[f.ordcurr].present
             || f.table[f.ordcurr].copybytes >= f.table[f.ordcurr].rbytes
    ensures |f.s.out| == Available(f.ps, f.s.order)
  {
    if f.ordcurr < |f.table| {
      Exhausted(f.table, f.ps, f.s.order, |f.s.out|, f.ordcurr);
    }
  }

  /** A pointer that does not reach behind what it points into. */
  predicate Sound(m: Memory, p: Packet) {
    p.copybytes <= p.rbytes && (p.allocation == m.allocation ==> p.data + p.rbytes <= |m.buf|)
  }

  /** The memcpy: the next bytes that a pointer yields, as far as they fit. */
  method Follow(m: Memory, p: Packet, k: nat, room: nat) returns (chunk: seq<Byte>)
    requires Sound(m, p)
    ensures |chunk| == Min(room, p.rbytes - p.copybytes)
    ensures forall j :: 0 <= j < |chunk| ==> chunk[j] == Yields(m, p, k, p.copybytes + j)
  {
    var len := p.rbytes - p.copybytes;
    if len > room {
      len := room;
    }
    if p.allocation == m.allocation {
      chunk := m.buf[p.data + p.copybytes..p.data + p.copybytes + len];
    } else {
      chunk := seq<Byte>(len, j requires 0 <= j < len => m.freed(k, p.copybytes + j));
    }
  }

  // ----- what registering needs of its laws -----

  /** Entering can begin at f, keeps to its law, and ends with everything registered. */
  ghost predicate RegisterLaws(f: Fields, entering: (nat, Fields) -> bool, registered: Fields -> bool) {
    && EnterLaws(entering)
    && entering(f.s.entered, f.(packets := |f.ps|, recvpkt := |f.s.order|))
    && forall g: Fields :: g.s == f.s && entering(|g.s.order|, g) && g.packets == |g.ps| && g.recvpkt == |g.s.order| ==>
         registered(g.(s := Enter(g.ps, g.s)))
  }

  lemma Prepare(f: Fields) returns (entering: (nat, Fields) -> bool, registered: Fields -> bool)
    requires Law()(f) && f.s.order != []
    ensures FirstFacts(f) && RegisterLaws(f, entering, registered) && CopyLaws(registered)
    ensures forall g: Fields :: registered(g) ==> Law()(g)
  {
    var e, before := f.s.entered, f.recvpkt;
    entering, registered := EnteringFrom(e, before), RegisteredLaw();
    FirstHeader(f);
    EnteringBegins(f);
    EnteringObeys(e, before);
    forall g: Fields | g.s == f.s && entering(|g.s.order|, g) && g.packets == |g.ps| && g.recvpkt == |g.s.order|
      ensures registered(g.(s := Enter(g.ps, g.s)))
    {
      EnteringEnds(g, e, before);
    }
    RegisteredObeys();
    forall g: Fields | registered(g)
      ensures Law()(g)
    {
      RegisteredIsLawful(g);
    }
  }

  // ----- what copying needs of a law -----

  ghost predicate AtPacket(f: Fields) {
    f.ordcurr < |f.table| && f.table[f.ordcurr].present
  }

  /** The chunk is what the pointer of the current packet yields next. */
  ghost predicate Fits(f: Fields, chunk: seq<Byte>) {
    && AtPacket(f) && f.table[f.ordcurr].copybytes + |chunk| <= f.table[f.ordcurr].rbytes
    && forall j :: 0 <= j < |chunk| ==>
         chunk[j] == Yields(f.m, f.table[f.ordcurr], f.ordcurr, f.table[f.ordcurr].copybytes + j)
  }

  /** Nothing more to copy at the current packet. */
  ghost predicate Done(f: Fields) {
    f.ordcurr >= |f.s.order| || !AtPacket(f) || f.table[f.ordcurr].copybytes >= f.table[f.ordcurr].rbytes
  }

  ghost predicate AllOut(f: Fields) {
    |f.s.out| == Available(f.ps, f.s.order)
  }

  /** With room to spare the current packet is done, and if it is short, or the last one received, so are all. */
  ghost predicate EndsWell(f: Fields, chunk: seq<Byte>)
    requires AtPacket(f)
  {
    var g := Further(f, chunk);
    var p := g.table[f.ordcurr];
    p.copybytes == p.rbytes ==>
      && (p.rbytes == PAYLOAD ==> g.ordcurr == f.ordcurr + 1 < |f.table|)
      && (p.rbytes < PAYLOAD ==> AllOut(g) && f.ordcurr + 1 == |f.ps|)
      && (f.ordcurr == |f.s.order| - 1 ==> AllOut(g))
  }

  ghost predicate CopyLaws(law: Fields -> bool) {
    && (forall f: Fields :: law(f) ==> f.ordcurr < |f.table| && f.recvpkt == |f.s.order| && f.packets == |f.ps|)
    && (forall f: Fields :: law(f) && AtPacket(f) ==> Current(f))
    && (forall f: Fields :: law(f) && Done(f) ==> AllOut(f))
    && (forall f: Fields, chunk: seq<Byte> :: law(f) && Fits(f, chunk) ==>
          law(Further(f, chunk)) && chunk == Next(f.s.reader, |f.s.out|, |chunk|) && EndsWell(f, chunk))
  }

  /** What the law says of the current packet. */
  ghost predicate Current(f: Fields) {
    && AtPacket(f) && Sees(f.m, f.table[f.ordcurr], f.ordcurr, f.s.reader) && f.table[f.ordcurr].rbytes <= PAYLOAD
    && |f.s.out| == PAYLOAD * f.ordcurr + f.table[f.ordcurr].copybytes && Sound(f.m, f.table[f.ordcurr])
  }

  lemma ChunkReads(f: Fields, chunk: seq<Byte>)
    requires Current(f) && Fits(f, chunk)
    ensures chunk == Next(f.s.reader, |f.s.out|, |chunk|)
  {
    NextFrom(f.m, f.table[f.ordcurr], f.ordcurr, f.s.reader, |f.s.out|, chunk);
  }

  lemma ChunkEndsWell(f: Fields, chunk: seq<Byte>)
    requires RegisteredLaw()(f) && Fits(f, chunk)
    ensures EndsWell(f, chunk)
  {
    var g := Further(f, chunk);
    CurrentIs(f);
    CopyStays(f, chunk);
    var p := g.table[f.ordcurr];
    if p.copybytes == p.rbytes && (g.ordcurr == f.ordcurr || f.ordcurr == |f.s.order| - 1) {
      NothingLeft(g);
    }
  }

  lemma RegisteredObeys()
    ensures CopyLaws(RegisteredLaw())
  {
    forall f: Fields | RegisteredLaw()(f)
      ensures f.ordcurr < |f.table| && f.recvpkt == |f.s.order| && f.packets == |f.ps|
    {
      CurrentInTable(f);
    }
    forall f: Fields | RegisteredLaw()(f) && AtPacket(f)
      ensures Current(f)
    {
      CurrentIs(f);
    }
    forall f: Fields | RegisteredLaw()(f) && Done(f)
      ensures AllOut(f)
    {
      NothingLeft(f);
    }
    forall f: Fields, chunk: seq<Byte> | RegisteredLaw()(f) && Fits(f, chunk)
      ensures RegisteredLaw()(Further(f, chunk)) && chunk == Next(f.s.reader, |f.s.out|, |chunk|) && EndsWell(f, chunk)
    {
      CopyStays(f, chunk);
      ChunkReads(f, chunk);
      ChunkEndsWell(f, chunk);
    }
  }

  class Connection {
    var rudpbuf: seq<Byte>
    var rudpsize: nat
    const udppkt: array<Packet>
    var packets: nat
    var recvpkt: nat
    var pktcurr: nat
    var ordcurr: nat

    // the environment: which allocation the buffer is, and what pointers into earlier ones yield
    var allocation: nat
    var freed: Reader

    ghost var payloads: seq<seq<Byte>>  // the response on its way
    ghost var order: seq<nat>           // what has been received
    ghost var reader: Reader            // what reading yields
    ghost var delivered: seq<Byte>      // what all calls together have copied out

    ghost function View(): State
      reads `order, `pktcurr, `rudpsize, `reader, `delivered
    {
      State(order, pktcurr, rudpsize, reader, delivered)
    }

    function Here(): Memory
      reads `rudpbuf, `allocation, `freed
    {
      Memory(rudpbuf, allocation, freed)
    }

    ghost function All(): Fields
      reads this, udppkt
    {
      Fields(Here(), udppkt[..], payloads, View(), packets, recvpkt, ordcurr)
    }

    ghost predicate Valid()
      reads this, udppkt
    {
      Law()(All())
    }

    constructor (ghost payloads: seq<seq<Byte>>)
      requires Response(payloads)
      ensures Valid() && fresh(udppkt) && this.payloads == payloads && View() == Start(payloads)
    {
      udppkt := new Packet[MAX_UDP_PACKET](_ => Packet(false, 0, 0, 0, 0));
      rudpbuf, rudpsize, packets, recvpkt, pktcurr, ordcurr := [], UDP_DATA_BUFFER_SIZE, 0, 0, 0, 0;
      allocation, freed := 0, Sent([]);
      this.payloads, order, reader, delivered := payloads, [], Sent(payloads), [];
      new;
      StartLaw(payloads, freed);
      assert udppkt[..] == seq(MAX_UDP_PACKET, _ => Packet(false, 0, 0, 0, 0));
    }

    /** The environment delivers a datagram into the receive buffer, behind a full one and where there is room. */
    method Receive(k: nat, payload: seq<Byte>, total: nat)
      requires Valid() && k < |payloads| == total < MAX_UDP_PACKET && payload == payloads[k]
      requires Open(payloads, order) && !Grows(payloads, View())
      modifies `rudpbuf, `order
      ensures Valid() && View() == Step(payloads, old(View()), Arrival(k))
    {
      ArrivalStays(All(), k);
      rudpbuf := rudpbuf + Datagram(k, total, payload);
      order := order + [k];
    }

    /** ms_udp_read makes room for one more datagram: realloc may move the buffer, and nobody tells the table. */
    method MakeRoom(moved: bool, freed': Reader)
      requires Valid()
      modifies `rudpsize, `allocation, `freed, `reader
      ensures Valid() && View() == Step(payloads, old(View()), Grow(moved, freed'))
    {
      ghost var m, t := Enlarged(Here(), moved, freed'), Step(payloads, View(), Grow(moved, freed'));
      SizeIs(All());
      if |rudpbuf| + DATAGRAM > rudpsize {
        GrowStays(All(), moved, freed');
        if moved {
          reader := Patched(reader, Entered(View()), freed');
          allocation, freed := allocation + 1, freed';
        }
        rudpsize := 2 * rudpsize;
        assert Here() == m && View() == t;
      }
    }

    // ----- ms_sort_udp_packet -----

    /** Enters the i-th datagram into the table; s is the state before the first one was. */
    method EnterPacket(i: nat, size: nat, ghost s: State, ghost law: (nat, Fields) -> bool)
      requires EnterLaws(law) && law(i, All().(s := s)) && s.order == order
      requires i < |order| && size == Size(payloads, order[i])
      modifies udppkt
      ensures law(i + 1, All().(s := s))
    {
      ghost var f := All().(s := s);
      assert DatagramFacts(f, i);
      var header := DATAGRAM * i;
      var seqNum := SeqNum(rudpbuf, header);
      var p := Packet(true, allocation, header + HEADER, size, udppkt[seqNum].copybytes);
      assert NewEntry(f, i, p);
      udppkt[seqNum] := p;
      assert udppkt[..] == old(udppkt[..])[seqNum := p];
      assert All().(s := s) == f.(table := f.table[f.s.order[i] := p]);
    }

    /** The first loop: enters every datagram from pktcurr on, and counts those that are full. */
    method EnterPackets(ghost s: State, ghost law: (nat, Fields) -> bool)
      requires EnterLaws(law) && s == View() && order != [] && pktcurr <= |order| == recvpkt
      requires law(pktcurr, All().(s := s)) && (pktcurr == |order| ==> Open(payloads, order))
      modifies `pktcurr, udppkt
      ensures law(|order|, All().(s := s)) && pktcurr == Enter(payloads, s).entered
    {
      var i := pktcurr;
      while i < recvpkt
        invariant i <= |order| && law(i, All().(s := s))
        invariant pktcurr == if i < |order| then i else Enter(payloads, s).entered
      {
        assert DatagramFacts(All().(s := s), i);
        var size := PAYLOAD;
        if i == recvpkt - 1 && |rudpbuf| % DATAGRAM != 0 {
          size := |rudpbuf| % DATAGRAM - HEADER;
        } else {
          pktcurr := pktcurr + 1;
        }
        EnterPacket(i, size, s, law);
        i := i + 1;
      }
    }

    /** Counts the datagrams. */
    method CountPackets()
      requires FirstFacts(All())
      modifies `packets, `recvpkt
      ensures packets == |payloads| && recvpkt == |order|
    {
      recvpkt := if |rudpbuf| % DATAGRAM >= HEADER then |rudpbuf| / DATAGRAM + 1 else |rudpbuf| / DATAGRAM;
      if packets == 0 {
        packets := NumPackets(rudpbuf, 0);
      }
    }

    /** Counts the datagrams, and enters what is new. */
    method RegisterPackets(ghost entering: (nat, Fields) -> bool, ghost registered: Fields -> bool)
      requires FirstFacts(All()) && RegisterLaws(All(), entering, registered)
      modifies `packets, `recvpkt, `pktcurr, `reader, udppkt
      ensures registered(All()) && View() == Enter(payloads, old(View()))
    {
      ghost var f := All();
      CountPackets();
      EnterPackets(f.s, entering);
      ghost var g := All().(s := f.s);
      reader := Enter(payloads, f.s).reader;
      assert All() == g.(s := Enter(payloads, f.s));
    }

    /** Copies from packet `ordcurr` as much as there is and as fits. */
    method CopyCurrent(room: nat) returns (chunk: seq<Byte>)
      requires ordcurr < udppkt.Length && udppkt[ordcurr].present && Sound(Here(), udppkt[ordcurr])
      modifies `ordcurr, `delivered, udppkt
      ensures Fits(old(All()), chunk) && All() == Further(old(All()), chunk)
      ensures |chunk| == Min(room, old(udppkt[ordcurr].rbytes - udppkt[ordcurr].copybytes))
    {
      var i, p := ordcurr, udppkt[ordcurr];
      chunk := Follow(Here(), p, i, room);
      var copied := p.copybytes + |chunk|;
      udppkt[i] := p.(copybytes := copied);
      assert udppkt[..] == old(udppkt[..])[i := p.(copybytes := copied)];
      delivered := delivered + chunk;
      if copied == p.rbytes == PAYLOAD {
        ordcurr := ordcurr + 1;
      }
    }

    /** One round of the second loop, with the tests of the code that end it. */
    method CopyRound(room: nat, ghost law: Fields -> bool) returns (chunk: seq<Byte>, more: bool)
      requires CopyLaws(law) && law(All()) && ordcurr < recvpkt && ordcurr < udppkt.Length
      modifies `ordcurr, `delivered, udppkt
      ensures law(All()) && delivered == old(delivered) + chunk && |chunk| <= room
      ensures chunk == Next(reader, |old(delivered)|, |chunk|)
      ensures more ==> ordcurr == old(ordcurr) + 1
      ensures !more ==> |chunk| == room || AllOut(All())
    {
      chunk, more := [], false;
      ghost var f := All();
      var i := ordcurr;
      if !(udppkt[i].present && udppkt[i].copybytes < udppkt[i].rbytes) {
        assert Done(f);
        return;
      }
      assert AtPacket(f);
      chunk := CopyCurrent(room);
      assert law(Further(f, chunk)) && EndsWell(f, chunk);
      if recvpkt == packets && i == recvpkt - 1 && udppkt[i].copybytes == udppkt[i].rbytes {
        return;
      }
      if |chunk| >= room {
        return;
      }
      more := !(i != recvpkt - 1 && udppkt[i].rbytes < PAYLOAD);
    }

    /** The second loop: copies packets out in sequence order until the room, or what is there, runs out. */
    method CopyOut(rbytes: nat, ghost law: Fields -> bool) returns (buf: seq<Byte>)
      requires CopyLaws(law) && law(All())
      modifies `ordcurr, `delivered, udppkt
      ensures law(All()) && delivered == old(delivered) + buf && |buf| <= rbytes
      ensures buf == Next(reader, |old(delivered)|, |buf|)
      ensures |buf| == rbytes || AllOut(All())
    {
      buf := [];
      var i := ordcurr;
      ghost var was := delivered;
      while i < recvpkt
        invariant law(All()) && i == ordcurr && delivered == was + buf && |buf| <= rbytes
        invariant buf == Next(reader, |was|, |buf|)
        decreases recvpkt - i
      {
        var chunk, more := CopyRound(rbytes - |buf|, law);
        NextAppended(reader, was, buf, chunk);
        buf := buf + chunk;
        if !more {
          return;
        }
        i := i + 1;
      }
      assert Done(All());
    }

    /** ms_sort_udp_packet: enters what has come, then copies out in sequence order what there is and what fits. */
    method SortUdpPacket(rbytes: nat) returns (buf: seq<Byte>)
      requires Valid() && order != []
      modifies `packets, `recvpkt, `pktcurr, `reader, `ordcurr, `delivered, udppkt
      ensures Valid() && View() == Step(payloads, old(View()), Read(rbytes)) && delivered == old(delivered) + buf
    {
      ghost var s := View();
      ghost var entering, registered := Prepare(All());
      RegisterPackets(entering, registered);
      buf := CopyOut(rbytes, registered);
      StepIsRead(payloads, s, rbytes, buf);
    }
  }

  /** Entering, and then copying as much as there is and fits, is a read. */
  lemma StepIsRead(ps: seq<seq<Byte>>, s: State, rbytes: nat, buf: seq<Byte>)
    requires s.order != [] && |s.out| <= Available(ps, s.order) && |buf| <= rbytes
    requires buf == Next(Enter(ps, s).reader, |s.out|, |buf|) && |s.out| + |buf| <= Available(ps, s.order)
    requires |buf| == rbytes || |s.out| + |buf| == Available(ps, s.order)
    ensures Step(ps, s, Read(rbytes)) == Enter(ps, s).(out := s.out + buf)
  {
  }

  method OnEvent(c: Connection, ps: seq<seq<Byte>>, order: seq<nat>, e: Event)
    returns (buf: seq<Byte>, order': seq<nat>)
    requires c.Valid() && c.payloads == ps && c.order == order && |ps| < MAX_UDP_PACKET
    modifies c, c.udppkt
    ensures c.Valid() && c.payloads == ps && c.order == order'
    ensures c.View() == Step(ps, old(c.View()), e) && c.delivered == old(c.delivered) + buf
  {
    buf, order' := [], order;
    match e {
      case Arrival(k) =>
        if k < |ps| && Open(ps, order) && Bytes(ps, order) + DATAGRAM <= c.rudpsize {
          c.Receive(k, ps[k], |ps|);
          order' := order + [k];
        }
      case Grow(moved, freed) =>
        c.MakeRoom(moved, freed);
      case Read(room) =>
        if order != [] {
          buf := c.SortUdpPacket(room);
        }
    }
  }

  /** ms_udp_read when a datagram comes: makes room, takes it in, and sorts. */
  method UdpRead(c: Connection, ps: seq<seq<Byte>>, order: seq<nat>, call: UdpCalls.Call) returns (buf: seq<Byte>)
    requires c.Valid() && c.payloads == ps && c.order == order && UdpCalls.Kept(ps)(c.View())
    requires Response(ps) && Open(ps, order) && call.k < |ps|
    modifies c, c.udppkt
    ensures c.Valid() && c.payloads == ps && UdpCalls.Kept(ps)(c.View())
    ensures c.View() == UdpCalls.OneCall(ps, old(c.View()), call) && c.delivered == old(c.delivered) + buf
  {
    ghost var s := c.View();
    UdpCalls.MadeHasRoom(ps, s, call);
    c.MakeRoom(call.moved, call.freed);
    assert c.View() == UdpCalls.Made(ps, s, call);
    c.Receive(call.k, ps[call.k], |ps|);
    buf := c.SortUdpPacket(call.room);
    UdpCalls.CallKeepsInv(ps, s, call);
  }

  lemma RunOneMore(ps: seq<seq<Byte>>, s: State, events: seq<Event>, n: nat)
    requires n < |events|
    ensures Run(ps, s, events[..n + 1]) == Step(ps, Run(ps, s, events[..n]), events[n])
  {
    assert events[..n + 1] == events[..n] + [events[n]];
    FoldSplit(Machine(ps), s, events[..n], [events[n]]);
    FoldOne(Machine(ps), Run(ps, s, events[..n]), events[n]);
  }

  /** Over every run of arrivals, buffer growth and reads: what is accepted, and what the reads return one after the
      other, is what the model says; without harmful moves that is the response from its start. */
  method RunAll(ps: seq<seq<Byte>>, events: seq<Event>) returns (out: seq<Byte>, order: seq<nat>)
    requires Response(ps)
    ensures out == Run(ps, Start(ps), events).out && order == Run(ps, Start(ps), events).order
    ensures Clean(ps, Start(ps), events) ==> out <= Flat(ps)
  {
    var c := new Connection(ps);
    out, order := [], [];
    for n := 0 to |events|
      invariant fresh(c) && fresh(c.udppkt) && c.Valid() && c.payloads == ps && c.order == order
      invariant out == c.delivered && c.View() == Run(ps, Start(ps), events[..n])
    {
      RunOneMore(ps, Start(ps), events, n);
      var buf;
      buf, order := OnEvent(c, ps, order, events[n]);
      out := out + buf;
    }
    assert events[..|events|] == events;
    if Clean(ps, Start(ps), events) {
      CleanRunConserves(ps, events);
    }
  }
}
