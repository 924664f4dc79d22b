/**
 The iovec and message lists of a connection, kept up to date in place, and sending from them.

 A message is a msghdr whose iovec pointer is an index into a numbered allocation of the iovec list, since a
 reallocation leaves pointers into the old one behind.
 */
module ScatterGather {
  import opened Basics
  import opened GatherModel

  datatype Message = Message(allocation: nat, start: nat, iovlen: nat)

  /** A message lies within the list. */
  predicate Within(m: Message, n: nat) { m.start + m.iovlen <= n }

  /** The fragments of a message. */
  function Slice(iov: seq<Fragment>, m: Message): seq<Fragment>
    requires Within(m, |iov|)
  {
    iov[m.start..m.start + m.iovlen]
  }

  /** Each message starts at the sum of the lengths before it, and the list is used up to the end of the last. */
  ghost predicate Tight(ms: seq<Message>, used: nat) {
    if ms == [] then used == 0
    else
      var n := |ms| - 1;
      used == ms[n].start + ms[n].iovlen && Tight(ms[..n], ms[n].start)
  }

  lemma {:induction false} TightWithin(ms: seq<Message>, used: nat)
    requires Tight(ms, used)
    ensures forall i :: 0 <= i < |ms| ==> Within(ms[i], used)
  {
    if ms != [] {
      TightWithin(ms[..|ms| - 1], ms[|ms| - 1].start);
      assert forall i :: 0 <= i < |ms| - 1 ==> ms[i] == ms[..|ms| - 1][i];
    }
  }

  lemma {:induction false} TightNext(ms: seq<Message>, used: nat, i: nat)
    requires Tight(ms, used) && i < |ms|
    ensures ms[i].start + ms[i].iovlen == (if i + 1 < |ms| then ms[i + 1].start else used)
    ensures i == 0 ==> ms[i].start == 0
  {
    if i + 1 < |ms| {
      var n := |ms| - 1;
      TightNext(ms[..n], ms[n].start, i);
    } else if i == 0 {
      assert ms[..0] == [];
    }
  }

  lemma {:induction false} TightSame(ms: seq<Message>, ms': seq<Message>, used: nat)
    requires Tight(ms, used) && |ms'| == |ms|
    requires forall i :: 0 <= i < |ms| ==> ms'[i].start == ms[i].start && ms'[i].iovlen == ms[i].iovlen
    ensures Tight(ms', used)
  {
    if ms != [] {
      TightSame(ms[..|ms| - 1], ms'[..|ms| - 1], ms[|ms| - 1].start);
    }
  }

  lemma {:induction false} TightOrdered(ms: seq<Message>, used: nat)
    requires Tight(ms, used)
    ensures forall i, j :: 0 <= i < j < |ms| ==> ms[i].start + ms[i].iovlen <= ms[j].start
  {
    if ms != [] {
      var n := |ms| - 1;
      TightOrdered(ms[..n], ms[n].start);
      TightWithin(ms[..n], ms[n].start);
      forall i, j | 0 <= i < j < |ms|
        ensures ms[i].start + ms[i].iovlen <= ms[j].start
      {
        assert ms[..n][i] == ms[i];
        if j < n {
          assert ms[..n][j] == ms[j];
        } else {
          assert Within(ms[..n][i], ms[n].start);
        }
      }
    }
  }

  /** The messages, laid out one behind the other in the list, have these fragments. */
  ghost predicate Layout(iov: seq<Fragment>, ms: seq<Message>, used: nat, parts: seq<seq<Fragment>>) {
    && Tight(ms, used) && used <= |iov| && |parts| == |ms|
    && forall i :: 0 <= i < |ms| ==> Within(ms[i], used) && Slice(iov, ms[i]) == parts[i]
  }

  lemma LayoutNew(iov: seq<Fragment>, ms: seq<Message>, used: nat, parts: seq<seq<Fragment>>, m: Message)
    requires Layout(iov, ms, used, parts) && m.start == used && m.iovlen == 0
    ensures Layout(iov, ms + [m], used, parts + [[]])
  {
    assert (ms + [m])[..|ms|] == ms;
  }

  /** One more fragment at the end of the last message. */
  lemma LayoutMore(iov: seq<Fragment>, ms: seq<Message>, used: nat, parts: seq<seq<Fragment>>, f: Fragment)
    requires Layout(iov, ms, used, parts) && ms != [] && used < |iov|
    ensures var n := |ms| - 1;
            Layout(iov[used := f], ms[n := ms[n].(iovlen := ms[n].iovlen + 1)], used + 1, Grown(parts, f))
  {
    var n := |ms| - 1;
    var ms' := ms[n := ms[n].(iovlen := ms[n].iovlen + 1)];
    assert ms'[..n] == ms[..n];
    TightWithin(ms, used);
    TightNext(ms, used, n);
    forall i | 0 <= i < |ms'|
      ensures Within(ms'[i], used + 1) && Slice(iov[used := f], ms'[i]) == Grown(parts, f)[i]
    {
      var a, b := ms[i].start, ms[i].start + ms[i].iovlen;
      assert iov[used := f][a..b] == iov[a..b];
      if i == n {
        assert iov[used := f][a..b + 1] == iov[a..b] + [f];
      }
    }
  }

  lemma SliceOfPrefix(fs: seq<Fragment>, used: nat, a: nat, b: nat)
    requires a <= b <= used <= |fs|
    ensures fs[a..b] == fs[..used][a..b]
  {
  }

  /** Moving the list to a larger allocation, every message pointing into it at the same place. */
  lemma LayoutMoved(iov: seq<Fragment>, ms: seq<Message>, used: nat, parts: seq<seq<Fragment>>,
                    iov': seq<Fragment>, ms': seq<Message>)
    requires Layout(iov, ms, used, parts) && used <= |iov'| && iov'[..used] == iov[..used] && |ms'| == |ms|
    requires forall i :: 0 <= i < |ms| ==> ms'[i].start == ms[i].start && ms'[i].iovlen == ms[i].iovlen
    ensures Layout(iov', ms', used, parts)
  {
    TightSame(ms, ms', used);
    forall i | 0 <= i < |ms|
      ensures Slice(iov', ms'[i]) == parts[i]
    {
      var a, b := ms[i].start, ms[i].start + ms[i].iovlen;
      SliceOfPrefix(iov, used, a, b);
      SliceOfPrefix(iov', used, a, b);
    }
  }

  /** Every message points into this allocation. */
  ghost predicate Pointing(ms: seq<Message>, allocation: nat) {
    forall i :: 0 <= i < |ms| ==> ms[i].allocation == allocation
  }

  lemma PointingMore(ms: seq<Message>, allocation: nat, m: Message)
    requires Pointing(ms, allocation) && ms != [] && m.allocation == allocation
    ensures Pointing(ms[|ms| - 1 := m], allocation)
  {
  }

  /** The messages occupy separate stretches of the list, in order, and have these fragments. */
  ghost predicate Apart(iov: seq<Fragment>, ms: seq<Message>, parts: seq<seq<Fragment>>) {
    && |parts| == |ms|
    && (forall i :: 0 <= i < |ms| ==> Within(ms[i], |iov|) && Slice(iov, ms[i]) == parts[i])
    && forall i, j :: 0 <= i < j < |ms| ==> ms[i].start + ms[i].iovlen <= ms[j].start
  }

  /** m is a later part of the message m0. */
  ghost predicate Inside(m: Message, m0: Message) {
    m.allocation == m0.allocation && m0.start <= m.start && m.start + m.iovlen == m0.start + m0.iovlen
  }

  /** The list with the head of one fragment cut off. */
  function Cut(iov: seq<Fragment>, at: nat, res: nat): seq<Fragment>
    requires res > 0 ==> at < |iov| && res <= |iov[at]|
  {
    if res > 0 then iov[at := iov[at][res..]] else iov
  }

  /** Shrinking one message from the front, and cutting the head of its first fragment, touches no other. */
  lemma ApartShrunk(iov: seq<Fragment>, ms: seq<Message>, parts: seq<seq<Fragment>>, k: nat, m: Message, res: nat)
    requires Apart(iov, ms, parts) && k < |ms| && Inside(m, ms[k])
    requires if m.iovlen > 0 then res < |iov[m.start]| else res == 0
    ensures Apart(Cut(iov, m.start, res), ms[k := m], parts[k := Drop(Slice(iov, m), res)])
  {
    var iov' := Cut(iov, m.start, res);
    forall i | 0 <= i < |ms| && i != k
      ensures Slice(iov', ms[i]) == parts[i]
    {
      var a, b := ms[i].start, ms[i].start + ms[i].iovlen;
      assert iov'[a..b] == iov[a..b];
    }
    assert Slice(iov', m) == Drop(Slice(iov, m), res);
  }

  /** The loop that drops the iovecs that are done: what is left of the message, and how much of its first fragment
      has been sent. */
  method SkipSent(iov: seq<Fragment>, m0: Message, sent: nat) returns (m: Message, res: nat)
    requires Within(m0, |iov|) && sent <= |Flat(Slice(iov, m0))|
    ensures Inside(m, m0) && Drop(Slice(iov, m0), sent) == Drop(Slice(iov, m), res)
    ensures if m.iovlen > 0 then res < |iov[m.start]| else res == 0
  {
    m, res := m0, sent;
    while m.iovlen > 0 && res >= |iov[m.start]|
      invariant Inside(m, m0) && res <= |Flat(Slice(iov, m))|
      invariant Drop(Slice(iov, m0), sent) == Drop(Slice(iov, m), res)
      decreases m.iovlen
    {
      var next := m.(start := m.start + 1, iovlen := m.iovlen - 1);
      FlatHead(Slice(iov, m));
      assert Slice(iov, m)[1..] == Slice(iov, next);
      res := res - |iov[m.start]|;
      m := next;
    }
  }

  const IOV_LIST_INITIAL: nat := 400
  const MSG_LIST_INITIAL: nat := 10

  /** Other bytes for the first fragment of one message. */
  lemma LayoutHeaded(iov: seq<Fragment>, ms: seq<Message>, used: nat, parts: seq<seq<Fragment>>, k: nat, f: Fragment)
    requires Layout(iov, ms, used, parts) && k < |ms| && parts[k] != []
    ensures ms[k].start < used
    ensures Layout(iov[ms[k].start := f], ms, used, parts[k := parts[k][0 := f]])
  {
    TightOrdered(ms, used);
    var iov' := iov[ms[k].start := f];
    assert Within(ms[k], used) && ms[k].iovlen == |parts[k]|;
    forall i | 0 <= i < |ms|
      ensures Slice(iov', ms[i]) == parts[k := parts[k][0 := f]][i]
    {
      var a, b := ms[i].start, ms[i].start + ms[i].iovlen;
      if i == k {
        assert iov'[a..b] == iov[a..b][0 := f];
      } else {
        assert iov'[a..b] == iov[a..b];
      }
    }
  }

  class Connection {
    const udp: bool
    var iov: seq<Fragment>   // the current allocation, iovsize entries
    var allocation: nat
    var iovused: nat
    var msglist: seq<Message>
    var msgsize: nat
    var msgcurr: nat
    var msgbytes: nat
    var hdrsize: nat         // how many headers there is memory for
    var wire: seq<Byte>      // the environment: all bytes sendmsg ever took

    ghost var parts: seq<seq<Fragment>>  // the fragments of each message

    /** The lists are consistent and every message points into the current allocation. */
    ghost predicate Shape()
      reads `iov, `allocation, `iovused, `msglist, `msgsize, `parts
    {
      && iov != [] && 0 < msgsize && |msglist| <= msgsize
      && Layout(iov, msglist, iovused, parts)
      && Pointing(msglist, allocation)
    }

    ghost predicate Valid()
      reads this
    {
      Shape() && (parts != [] ==> msgbytes == |Flat(parts[|parts| - 1])|)
    }

    constructor (udp: bool)
      ensures Valid() && this.udp == udp && parts == [] && wire == [] && msgcurr == 0
    {
      this.udp := udp;
      iov, allocation, iovused := seq(IOV_LIST_INITIAL, _ => []), 0, 0;
      msglist, msgsize, msgcurr, msgbytes, hdrsize := [], MSG_LIST_INITIAL, 0, 0, 0;
      parts, wire := [], [];
    }

    /** Points all messages at the new allocation: the running sum of their lengths is where each of them starts. */
    method Repoint()
      requires Tight(msglist, iovused)
      modifies `msglist
      ensures |msglist| == |old(msglist)|
      ensures forall i :: 0 <= i < |msglist| ==> msglist[i] == old(msglist)[i].(allocation := allocation)
    {
      var iovnum := 0;
      ghost var before := msglist;
      if msglist != [] {
        TightNext(before, iovused, 0);
      }
      for i := 0 to |msglist|
        invariant |msglist| == |before|
        invariant forall j :: 0 <= j < |msglist| ==>
                    msglist[j] == if j < i then before[j].(allocation := allocation) else before[j]
        invariant iovnum == if i < |before| then before[i].start else iovused
      {
        TightNext(before, iovused, i);
        msglist := msglist[i := Message(allocation, iovnum, msglist[i].iovlen)];
        iovnum := iovnum + msglist[i].iovlen;
      }
    }

    /** ms_ensure_iov_space. */
    method EnsureIovSpace()
      requires Shape()
      modifies `iov, `allocation, `msglist
      ensures Shape() && iovused < |iov| && |msglist| == |old(msglist)|
    {
      if iovused >= |iov| {
        iov, allocation := iov + seq(|iov|, _ => []), allocation + 1;
        Repoint();
        LayoutMoved(old(iov), old(msglist), iovused, parts, iov, msglist);
      }
    }

    /** Puts a fragment behind the last one of the last message. */
    method PutFragment(f: Fragment)
      requires Valid() && iovused < |iov| && msglist != []
      modifies `iov, `iovused, `msglist, `msgbytes, `parts
      ensures Valid() && parts == Grown(old(parts), f)
    {
      var n := |msglist| - 1;
      var m := msglist[n];
      var at, longer := m.start + m.iovlen, m.(iovlen := m.iovlen + 1);
      TightNext(msglist, iovused, n);
      assert at == iovused;
      LayoutMore(iov, msglist, iovused, parts, f);
      PointingMore(msglist, allocation, longer);
      FlatSnoc(parts[n], f);
      parts := Grown(parts, f);
      iov, msglist := iov[at := f], msglist[n := longer];
      msgbytes, iovused := msgbytes + |f|, iovused + 1;
    }

    /** The msghdr itself, with no fragment yet. */
    method PushMessage()
      requires Shape()
      modifies `msglist, `msgsize, `msgbytes, `parts
      ensures Valid() && parts == old(parts) + [[]]
    {
      if msgsize == |msglist| {
        msgsize := msgsize * 2;
      }
      LayoutNew(iov, msglist, iovused, parts, Message(allocation, iovused, 0));
      msglist, parts := msglist + [Message(allocation, iovused, 0)], parts + [[]];
      msgbytes := 0;
    }

    /** ms_add_msghdr: a new message, which for UDP starts with room for the header. */
    method AddMsghdr()
      requires Valid()
      modifies this
      ensures Valid() && wire == old(wire) && msgcurr == old(msgcurr) && parts == old(parts) + [Header(udp)]
    {
      PushMessage();
      if udp {
        EnsureIovSpace();
        PutFragment(HEADER_SPACE);
        GrownNew(old(parts), HEADER_SPACE);
      }
    }

    /** Starts a new message if the last one is full, and makes sure of one more iovec. */
    method MakeRoom()
      requires Valid() && msglist != []
      modifies this
      ensures Valid() && wire == old(wire) && msgcurr == old(msgcurr)
      ensures iovused < |iov| && parts == Ready(udp, old(parts))
    {
      var m := msglist[|msglist| - 1];
      assert |parts[|parts| - 1]| == m.iovlen;
      if m.iovlen == IOV_MAX || (udp && msgbytes >= UDP_MAX_SEND_PAYLOAD_SIZE) {
        AddMsghdr();
      }
      EnsureIovSpace();
    }

    /** One round of ms_add_iov: as much of the piece as the last message takes. */
    method AddPart(rest: seq<Byte>) returns (len: nat, leftover: bool)
      requires Valid() && msglist != []
      modifies this
      ensures Valid() && msglist != [] && wire == old(wire) && msgcurr == old(msgcurr)
      ensures len <= |rest| && leftover == (len < |rest|) && (leftover ==> len > 0)
      ensures parts == Grown(Ready(udp, old(parts)), rest[..len])
      ensures Gather(udp, old(parts), rest) == if leftover then Gather(udp, parts, rest[len..]) else parts
    {
      NewIsNotFull(udp);
      MakeRoom();
      len := |rest|;
      leftover := udp && len + msgbytes > UDP_MAX_SEND_PAYLOAD_SIZE;
      if leftover {
        len := UDP_MAX_SEND_PAYLOAD_SIZE - msgbytes;
      }
      GatherRound(udp, old(parts), rest, len);
      PutFragment(rest[..len]);
    }

    /** ms_add_iov: the piece goes into as many messages as it takes. */
    method AddIov(buf: seq<Byte>)
      requires Valid() && msglist != []
      modifies this
      ensures Valid() && wire == old(wire) && msgcurr == old(msgcurr) && parts == Gather(udp, old(parts), buf)
    {
      var rest, leftover := buf, true;
      while leftover
        invariant Valid() && msglist != [] && wire == old(wire) && msgcurr == old(msgcurr)
        invariant (if leftover then Gather(udp, parts, rest) else parts) == Gather(udp, old(parts), buf)
        decreases leftover, |rest|
      {
        var len;
        len, leftover := AddPart(rest);
        rest := rest[len..];
      }
    }

    /** Points the first iovec of a message at its header. */
    method PutHeader(i: nat, h: Fragment)
      requires Valid() && i < |parts| && parts[i] != [] && |parts[i][0]| == |h|
      modifies `iov, `parts
      ensures Valid() && parts == old(parts)[i := old(parts)[i][0 := h]]
    {
      LayoutHeaded(iov, msglist, iovused, parts, i, h);
      SameLength(parts[i], h);
      iov := iov[msglist[i].start := h];
      parts := parts[i := parts[i][0 := h]];
    }

    /** ms_build_udp_headers: refuses a request of several messages, otherwise fills in the headers. */
    method BuildUdpHeaders(id: nat) returns (ok: bool)
      requires Valid() && udp && forall i :: 0 <= i < |parts| ==> parts[i] != [] && |parts[i][0]| == UDP_HEADER_SIZE
      modifies `hdrsize, `iov, `parts
      ensures ok == (|old(parts)| <= 1)
      ensures ok ==> Valid() && parts == Headed(old(parts), id)
    {
      if |msglist| > hdrsize {
        hdrsize := |msglist| * 2;
      }
      if udp && |msglist| > 1 {
        return false;
      }
      ghost var was := parts;
      for i := 0 to |msglist|
        invariant Valid() && |parts| == |was|
        invariant forall j :: 0 <= j < |was| ==>
                    parts[j] == if j < i then was[j][0 := HeaderBytes(id, j, |was|)] else was[j]
      {
        PutHeader(i, HeaderBytes(id, i, |msglist|));
      }
      assert parts == Headed(was, id);
      ok := true;
    }

    // ----- transmission -----

    /** While sending, `parts` is what is left of each message. */
    ghost predicate Sending()
      reads this
    {
      Apart(iov, msglist, parts)
    }

    lemma ReadyToSend()
      requires Valid()
      ensures Sending()
    {
      TightOrdered(msglist, iovused);
    }

    ghost function View(): Sender
      reads this
    {
      Sender(parts, msgcurr, wire)
    }

    /** sendmsg took k bytes of the current message: they are on the wire and off the message. */
    method Advance(bytes: seq<Byte>, k: nat)
      requires Sending() && msgcurr < |msglist| && bytes == Flat(parts[msgcurr]) && k <= |bytes|
      modifies `iov, `msglist, `parts, `wire
      ensures Sending() && wire == old(wire) + bytes[..k]
      ensures parts == old(parts)[msgcurr := Drop(old(parts)[msgcurr], k)]
    {
      wire := wire + bytes[..k];
      var m, res := SkipSent(iov, msglist[msgcurr], k);
      ApartShrunk(iov, msglist, parts, msgcurr, m, res);
      parts := parts[msgcurr := Drop(Slice(iov, m), res)];
      msglist := msglist[msgcurr := m];
      if res > 0 {
        iov := iov[m.start := iov[m.start][res..]];
      }
    }

    /** ms_transmit. */
    method Transmit(send: Send) returns (r: TransmitResult)
      requires Sending()
      modifies `msgcurr, `iov, `msglist, `parts, `wire
      ensures Sending() && (View(), r) == Step(old(View()), send)
    {
      if msgcurr < |msglist| && msglist[msgcurr].iovlen == 0 {
        assert Slice(iov, msglist[msgcurr]) == [];
        msgcurr := msgcurr + 1;
      }
      if msgcurr >= |msglist| {
        return Complete;
      }
      match send
      case Took(n) =>
        var bytes := Flat(Slice(iov, msglist[msgcurr]));
        var k := Min(n, |bytes|);
        if k == 0 {
          return HardError;
        }
        Advance(bytes, k);
        return Incomplete;
      case WouldBlock(updated) =>
        return if updated then SoftError else HardError;
      case Failed =>
        return HardError;
    }

    /** ms_transmit over a schedule. */
    method TransmitAll(schedule: seq<Send>) returns (r: TransmitResult)
      requires Sending()
      modifies `msgcurr, `iov, `msglist, `parts, `wire
      ensures Sending() && (View(), r) == SendAll(old(View()), schedule)
    {
      r := Incomplete;
      for n := 0 to |schedule|
        invariant Sending() && (View(), r) == SendAll(old(View()), schedule[..n])
      {
        assert schedule[..n + 1][..n] == schedule[..n];
        r := Transmit(schedule[n]);
      }
      assert schedule[..|schedule|] == schedule;
    }
  }

  /** The messages of a command: a first one, then piece after piece. */
  method GatherRequest(udp: bool, pieces: seq<seq<Byte>>) returns (c: Connection)
    ensures fresh(c) && c.Valid() && c.udp == udp && c.msgcurr == 0 && c.wire == []
    ensures c.parts == GatherAll(udp, pieces)
  {
    c := new Connection(udp);
    c.AddMsghdr();
    assert c.parts == [Header(udp)] == GatherAll(udp, pieces[..0]);
    for n := 0 to |pieces|
      invariant fresh(c) && c.Valid() && c.udp == udp && c.msgcurr == 0 && c.wire == []
      invariant c.parts == GatherAll(udp, pieces[..n])
    {
      assert pieces[..n + 1][..n] == pieces[..n];
      c.AddIov(pieces[n]);
    }
    assert pieces[..|pieces|] == pieces;
  }

  /** A whole request: its messages, for UDP the header, then sending until the schedule ends.  `wire` is what sendmsg
      took. */
  method SendRequest(udp: bool, id: nat, pieces: seq<seq<Byte>>, schedule: seq<Send>)
    returns (o: Outcome, wire: seq<Byte>)
    ensures (wire, o) == Request(udp, id, pieces, schedule)
    ensures o == Refused <==> udp && !FitsOne(pieces)
    ensures wire <= Payload(udp, id, pieces)
    ensures o == Refused ==> wire == []
    ensures o == Transmitted(Complete) ==> wire == Payload(udp, id, pieces)
  {
    RequestConserves(udp, id, pieces, schedule);
    GatherAllCarries(udp, pieces);
    var c := GatherRequest(udp, pieces);
    if udp {
      var ok := c.BuildUdpHeaders(id);
      if !ok {
        return Refused, c.wire;
      }
    }
    assert c.parts == Messages(udp, id, pieces);
    c.ReadyToSend();
    var r := c.TransmitAll(schedule);
    return Transmitted(r), c.wire;
  }
}
