/**
 Gathering and sending as functions: how the pieces of a request become messages, and what a schedule of partial sends
 puts on the wire.
 */
module GatherModel {
  import opened Basics
  import UdpModel

  /** An iovec, with the bytes it points at. */
  type Fragment = seq<Byte>

  const IOV_MAX: nat := 1024
  const UDP_MAX_SEND_PAYLOAD_SIZE: nat := 1400
  const UDP_HEADER_SIZE: nat := 8
  const HEADER_SPACE: seq<Byte> := [0, 0, 0, 0, 0, 0, 0, 0]

  // ----- gathering -----

  /** What a new message holds: for UDP, room for the header. */
  function Header(udp: bool): seq<Fragment> {
    if udp then [HEADER_SPACE] else []
  }

  function Grown(ms: seq<seq<Fragment>>, f: Fragment): seq<seq<Fragment>>
    requires ms != []
  {
    ms[|ms| - 1 := ms[|ms| - 1] + [f]]
  }

  predicate Full(udp: bool, m: seq<Fragment>) {
    |m| == IOV_MAX || (udp && |Flat(m)| >= UDP_MAX_SEND_PAYLOAD_SIZE)
  }

  /** A full last message is followed by a new one. */
  function Ready(udp: bool, ms: seq<seq<Fragment>>): seq<seq<Fragment>>
    requires ms != []
  {
    if Full(udp, ms[|ms| - 1]) then ms + [Header(udp)] else ms
  }

  lemma NewIsNotFull(udp: bool)
    ensures |Flat(Header(udp))| == Skip(udp) && !Full(udp, Header(udp))
  {
    FlatOne(HEADER_SPACE);
  }

  lemma FlatOne(f: Fragment)
    ensures Flat([f]) == f
  {
    FlatSnoc([], f);
    assert [] + [f] == [f] && [] + f == f;
  }

  /** How much of a piece goes into the last message. */
  function Share(udp: bool, ms: seq<seq<Fragment>>, buf: seq<Byte>): nat
    requires ms != [] && !Full(udp, ms[|ms| - 1])
  {
    var used := |Flat(ms[|ms| - 1])|;
    if udp && |buf| + used > UDP_MAX_SEND_PAYLOAD_SIZE then UDP_MAX_SEND_PAYLOAD_SIZE - used else |buf|
  }

  /** A piece is spread over as many messages as it takes. */
  function Gather(udp: bool, ms: seq<seq<Fragment>>, buf: seq<Byte>): (r: seq<seq<Fragment>>)
    requires ms != []
    ensures r != []
    decreases |buf|
  {
    NewIsNotFull(udp);
    var now := Ready(udp, ms);
    var n := Share(udp, now, buf);
    if n < |buf| then Gather(udp, Grown(now, buf[..n]), buf[n..]) else Grown(now, buf)
  }

  lemma GatherRound(udp: bool, ms: seq<seq<Fragment>>, buf: seq<Byte>, n: nat)
    requires ms != [] && !Full(udp, Ready(udp, ms)[|Ready(udp, ms)| - 1]) && n == Share(udp, Ready(udp, ms), buf)
    ensures n <= |buf|
    ensures var now := Grown(Ready(udp, ms), buf[..n]);
            Gather(udp, ms, buf) == if n < |buf| then Gather(udp, now, buf[n..]) else now
  {
    if n == |buf| {
      assert buf[..n] == buf;
    }
  }

  lemma GrownNew(ms: seq<seq<Fragment>>, f: Fragment)
    ensures Grown(ms + [[]], f) == ms + [[f]]
  {
    assert [] + [f] == [f];
  }

  function GatherAll(udp: bool, pieces: seq<seq<Byte>>): (r: seq<seq<Fragment>>)
    ensures r != []
  {
    if pieces == [] then [Header(udp)] else Gather(udp, GatherAll(udp, pieces[..|pieces| - 1]), pieces[|pieces| - 1])
  }

  function Skip(udp: bool): nat { if udp then UDP_HEADER_SIZE else 0 }

  /** All bytes of the messages, each without its first `skip` ones. */
  function Joined(ms: seq<seq<Fragment>>, skip: nat): seq<Byte>
    requires forall i :: 0 <= i < |ms| ==> |Flat(ms[i])| >= skip
  {
    if ms == [] then [] else Joined(ms[..|ms| - 1], skip) + Flat(ms[|ms| - 1])[skip..]
  }

  ghost predicate Sound(udp: bool, m: seq<Fragment>) {
    && |m| <= IOV_MAX && |Flat(m)| >= Skip(udp)
    && (udp ==> |Flat(m)| <= UDP_MAX_SEND_PAYLOAD_SIZE && m != [] && m[0] == HEADER_SPACE)
  }

  /** Every message respects its limits, every datagram begins with its header, and together they carry the data. */
  ghost predicate Carry(udp: bool, ms: seq<seq<Fragment>>, data: seq<Byte>) {
    && ms != [] && (forall i :: 0 <= i < |ms| ==> Sound(udp, ms[i]))
    && Joined(ms, Skip(udp)) == data
  }

  lemma ReadyCarries(udp: bool, ms: seq<seq<Fragment>>, data: seq<Byte>)
    requires Carry(udp, ms, data)
    ensures Carry(udp, Ready(udp, ms), data)
  {
    NewIsNotFull(udp);
    var all := ms + [Header(udp)];
    assert all[..|all| - 1] == ms;
    assert Flat(Header(udp))[Skip(udp)..] == [];
  }

  lemma GrownCarries(udp: bool, ms: seq<seq<Fragment>>, data: seq<Byte>, f: Fragment)
    requires Carry(udp, ms, data) && |ms[|ms| - 1]| < IOV_MAX
    requires udp ==> |Flat(ms[|ms| - 1])| + |f| <= UDP_MAX_SEND_PAYLOAD_SIZE
    ensures Carry(udp, Grown(ms, f), data + f)
  {
    var n, skip := |ms| - 1, Skip(udp);
    var all := Grown(ms, f);
    FlatSnoc(ms[n], f);
    assert all[..n] == ms[..n];
    assert Flat(all[n])[skip..] == Flat(ms[n])[skip..] + f;
    Assoc(Joined(ms[..n], skip), Flat(ms[n])[skip..], f);
  }

  lemma RoundCarries(udp: bool, ms: seq<seq<Fragment>>, data: seq<Byte>, buf: seq<Byte>, n: nat)
    requires Carry(udp, ms, data) && n <= |buf|
    requires !Full(udp, Ready(udp, ms)[|Ready(udp, ms)| - 1]) && n == Share(udp, Ready(udp, ms), buf)
    ensures Carry(udp, Grown(Ready(udp, ms), buf[..n]), data + buf[..n])
  {
    ReadyCarries(udp, ms, data);
    GrownCarries(udp, Ready(udp, ms), data, buf[..n]);
  }

  lemma CutAnywhere(data: seq<Byte>, buf: seq<Byte>, n: nat)
    requires n <= |buf|
    ensures data + buf[..n] + buf[n..] == data + buf
  {
  }

  /** Nothing of a piece is lost, repeated or moved. */
  lemma {:induction false} GatherCarries(udp: bool, ms: seq<seq<Fragment>>, data: seq<Byte>, buf: seq<Byte>)
    requires Carry(udp, ms, data)
    ensures Carry(udp, Gather(udp, ms, buf), data + buf)
    decreases |buf|
  {
    NewIsNotFull(udp);
    var now := Ready(udp, ms);
    var n := Share(udp, now, buf);
    RoundCarries(udp, ms, data, buf, n);
    GatherRound(udp, ms, buf, n);
    var grown := Grown(now, buf[..n]);
    if n < |buf| {
      GatherCarries(udp, grown, data + buf[..n], buf[n..]);
      CutAnywhere(data, buf, n);
    } else {
      assert buf[..n] == buf;
    }
  }

  lemma {:induction false} GatherAllCarries(udp: bool, pieces: seq<seq<Byte>>)
    ensures Carry(udp, GatherAll(udp, pieces), Flat(pieces))
  {
    if pieces == [] {
      NewIsNotFull(udp);
      assert [Header(udp)][..0] == [];
      assert Flat(Header(udp))[Skip(udp)..] == [];
    } else {
      var n := |pieces| - 1;
      GatherAllCarries(udp, pieces[..n]);
      GatherCarries(udp, GatherAll(udp, pieces[..n]), Flat(pieces[..n]), pieces[n]);
    }
  }

  // ----- sending -----

  /** What sendmsg does: takes up to n bytes, would block (and the event may be updated), or fails. */
  datatype Send = Took(n: nat) | WouldBlock(updated: bool) | Failed
  datatype TransmitResult = Complete | Incomplete | SoftError | HardError

  /** What is left of each message, the message being sent, and all bytes sent. */
  datatype Sender = Sender(left: seq<seq<Fragment>>, current: nat, wire: seq<Byte>)

  /** A message without its first k bytes; fragments that are done are dropped. */
  function Drop(m: seq<Fragment>, k: nat): seq<Fragment> {
    if m == [] then []
    else if k >= |m[0]| then Drop(m[1..], k - |m[0]|)
    else [m[0][k..]] + m[1..]
  }

  function Step(s: Sender, send: Send): (Sender, TransmitResult) {
    var current := if s.current < |s.left| && s.left[s.current] == [] then s.current + 1 else s.current;
    var t := s.(current := current);
    if current >= |s.left| then (t, Complete)
    else
      match send
      case Took(n) =>
        var bytes := Flat(s.left[current]);
        var k := Min(n, |bytes|);
        if k == 0 then (t, HardError)
        else (Sender(s.left[current := Drop(s.left[current], k)], current, s.wire + bytes[..k]), Incomplete)
      case WouldBlock(updated) => (t, if updated then SoftError else HardError)
      case Failed => (t, HardError)
  }

  /** A schedule, and the result of its last step. */
  function SendAll(s: Sender, schedule: seq<Send>): (Sender, TransmitResult) {
    if schedule == [] then (s, Incomplete)
    else Step(SendAll(s, schedule[..|schedule| - 1]).0, schedule[|schedule| - 1])
  }

  /** Messages before the current one are done. */
  ghost predicate Ordered(s: Sender) {
    s.current <= |s.left| && forall i :: 0 <= i < s.current ==> s.left[i] == []
  }

  lemma FlatHead(m: seq<Fragment>)
    requires m != []
    ensures Flat(m) == m[0] + Flat(m[1..])
  {
    assert m == [m[0]] + m[1..];
    FlatConcat([m[0]], m[1..]);
    FlatOne(m[0]);
  }

  lemma {:induction false} DropFlat(m: seq<Fragment>, k: nat)
    requires k <= |Flat(m)|
    ensures Flat(Drop(m, k)) == Flat(m)[k..]
  {
    if m != [] {
      FlatHead(m);
      if k >= |m[0]| {
        DropFlat(m[1..], k - |m[0]|);
        assert Flat(m)[k..] == Flat(m[1..])[k - |m[0]|..];
      } else {
        var rest := [m[0][k..]] + m[1..];
        FlatHead(rest);
        assert rest[1..] == m[1..];
        assert Flat(m)[k..] == m[0][k..] + Flat(m[1..]);
      }
    }
  }

  lemma {:induction false} JoinedNone(ms: seq<seq<Fragment>>)
    requires forall i :: 0 <= i < |ms| ==> ms[i] == []
    ensures Joined(ms, 0) == []
  {
    if ms != [] {
      JoinedNone(ms[..|ms| - 1]);
    }
  }

  /** Taking the first k bytes off the first message that has any. */
  lemma {:induction false} JoinedDrop(ms: seq<seq<Fragment>>, n: nat, k: nat)
    requires n < |ms| && k <= |Flat(ms[n])| && forall i :: 0 <= i < n ==> ms[i] == []
    ensures Flat(ms[n])[..k] + Joined(ms[n := Drop(ms[n], k)], 0) == Joined(ms, 0)
  {
    var last, ms' := |ms| - 1, ms[n := Drop(ms[n], k)];
    DropFlat(ms[n], k);
    if n == last {
      JoinedNone(ms[..last]);
      assert ms'[..last] == ms[..last];
      assert Flat(ms[n])[..k] + Flat(ms[n])[k..] == Flat(ms[n]);
    } else {
      assert ms'[..last] == ms[..last][n := Drop(ms[n], k)];
      JoinedDrop(ms[..last], n, k);
      Assoc(Flat(ms[n])[..k], Joined(ms'[..last], 0), Flat(ms[last])[0..]);
    }
  }

  /** The bytes sent and the bytes pending stay the bytes queued, and the answer COMPLETE is given exactly when the last
      message is done; then nothing is pending. */
  lemma StepConserves(s: Sender, send: Send)
    requires Ordered(s)
    ensures var (t, r) := Step(s, send);
            && Ordered(t) && |t.left| == |s.left| && t.wire + Joined(t.left, 0) == s.wire + Joined(s.left, 0)
            && (r == Complete <==> t.current == |t.left|) && (r == Complete ==> Joined(t.left, 0) == [])
            && s.wire <= t.wire && (r != Incomplete ==> t.wire == s.wire)
  {
    var (t, r) := Step(s, send);
    if t.current == |t.left| {
      JoinedNone(t.left);
    } else if r == Incomplete {
      var bytes, k := Flat(s.left[t.current]), |t.wire| - |s.wire|;
      JoinedDrop(s.left, t.current, k);
      Assoc(s.wire, bytes[..k], Joined(t.left, 0));
    }
  }

  lemma {:induction false} SendAllConserves(s: Sender, schedule: seq<Send>)
    requires Ordered(s)
    ensures var (t, r) := SendAll(s, schedule);
            && Ordered(t) && t.wire + Joined(t.left, 0) == s.wire + Joined(s.left, 0)
            && (r == Complete ==> Joined(t.left, 0) == [])
  {
    if schedule != [] {
      var n := |schedule| - 1;
      SendAllConserves(s, schedule[..n]);
      StepConserves(SendAll(s, schedule[..n]).0, schedule[n]);
    }
  }

  // ----- UDP headers -----

  /** Request number, number of the datagram and number of datagrams, each in two bytes, and two fixed bytes. */
  function HeaderBytes(id: nat, i: nat, n: nat): (h: Fragment)
    ensures |h| == UDP_HEADER_SIZE
  {
    [id / 256 % 256, id % 256, i / 256 % 256, i % 256, n / 256 % 256, n % 256, 1, 0]
  }

  /** The receiving side reads from it the number of the datagram and of datagrams; the first two bytes are the
      number of the request, the last two fixed. */
  lemma HeaderReadsBack(id: nat, i: nat, n: nat)
    requires i < 0x1_0000 && n < 0x1_0000
    ensures var h := HeaderBytes(id, i, n);
            var high: nat, low: nat := h[0], h[1];
            && UdpModel.SeqNum(h, 0) == i && UdpModel.NumPackets(h, 0) == n
            && h[2..6] == [i / 0x100, i % 0x100, n / 0x100, n % 0x100]
            && high * 0x100 + low == id % 0x1_0000 && h[6..] == [1, 0]
  {
    assert i / 256 % 256 == i / 256 && n / 256 % 256 == n / 256;
    assert id / 256 % 256 * 256 + id % 256 == id % 0x1_0000;
  }

  /** The room for the header of each message, filled in. */
  function Headed(ms: seq<seq<Fragment>>, id: nat): seq<seq<Fragment>>
    requires forall i :: 0 <= i < |ms| ==> ms[i] != []
  {
    seq(|ms|, i requires 0 <= i < |ms| => ms[i][0 := HeaderBytes(id, i, |ms|)])
  }

  lemma SameLength(m: seq<Fragment>, f: Fragment)
    requires m != [] && |m[0]| == |f|
    ensures |f| <= |Flat(m)| == |Flat(m[0 := f])|
    ensures Flat(m[0 := f]) == f + Flat(m)[|f|..]
  {
    FlatHead(m);
    FlatHead(m[0 := f]);
    assert m[0 := f][1..] == m[1..];
    assert Flat(m)[|f|..] == Flat(m[1..]);
  }

  /** The request fits one datagram: an iovec for each piece besides the header, no more bytes than fit, and no piece,
      not even an empty one, behind a full datagram. */
  predicate FitsOne(pieces: seq<seq<Byte>>) {
    && |pieces| < IOV_MAX && |Flat(pieces)| <= UDP_MAX_SEND_PAYLOAD_SIZE - UDP_HEADER_SIZE
    && (pieces != [] ==> |Flat(pieces[..|pieces| - 1])| < UDP_MAX_SEND_PAYLOAD_SIZE - UDP_HEADER_SIZE)
  }

  lemma {:induction false} GatherAdds(udp: bool, ms: seq<seq<Fragment>>, buf: seq<Byte>)
    requires ms != []
    ensures |Gather(udp, ms, buf)| >= |Ready(udp, ms)| >= |ms|
    decreases |buf|
  {
    NewIsNotFull(udp);
    var now := Ready(udp, ms);
    var n := Share(udp, now, buf);
    GatherRound(udp, ms, buf, n);
    if n < |buf| {
      GatherAdds(udp, Grown(now, buf[..n]), buf[n..]);
    }
  }

  /** One more piece for a single datagram. */
  lemma OneMorePiece(m: seq<Fragment>, buf: seq<Byte>)
    ensures |Gather(true, [m], buf)| == 1 <==>
            !Full(true, m) && |Flat(m)| + |buf| <= UDP_MAX_SEND_PAYLOAD_SIZE
    ensures |Gather(true, [m], buf)| == 1 ==> Gather(true, [m], buf) == [m + [buf]]
  {
    NewIsNotFull(true);
    if Full(true, m) {
      GatherAdds(true, [m], buf);
    } else {
      var n := Share(true, [m], buf);
      GatherRound(true, [m], buf, n);
      if n < |buf| {
        var grown := m + [buf[..n]];
        FlatSnoc(m, buf[..n]);
        assert Grown([m], buf[..n]) == [grown];
        assert Full(true, grown);
        GatherAdds(true, [grown], buf[n..]);
      } else {
        assert buf[..n] == buf;
      }
    }
  }

  lemma FitsMore(pieces: seq<seq<Byte>>, last: seq<Byte>)
    ensures FitsOne(pieces + [last]) ==> FitsOne(pieces)
    ensures FitsOne(pieces) ==>
              (FitsOne(pieces + [last]) <==>
               && !Full(true, [HEADER_SPACE] + pieces)
               && |Flat([HEADER_SPACE] + pieces)| + |last| <= UDP_MAX_SEND_PAYLOAD_SIZE)
  {
    var all := pieces + [last];
    assert all[..|all| - 1] == pieces && all[|pieces|] == last;
    if pieces != [] {
      FlatGrows(pieces);
    }
    FlatConcat([HEADER_SPACE], pieces);
    FlatOne(HEADER_SPACE);
  }

  lemma SingleStep(ms: seq<seq<Fragment>>, pieces: seq<seq<Byte>>, last: seq<Byte>)
    requires ms != [] && (|ms| == 1 <==> FitsOne(pieces)) && (FitsOne(pieces) ==> ms == [[HEADER_SPACE] + pieces])
    ensures |Gather(true, ms, last)| == 1 <==> FitsOne(pieces + [last])
    ensures FitsOne(pieces + [last]) ==> Gather(true, ms, last) == [[HEADER_SPACE] + (pieces + [last])]
  {
    FitsMore(pieces, last);
    if FitsOne(pieces) {
      OneMorePiece([HEADER_SPACE] + pieces, last);
      assert [HEADER_SPACE] + pieces + [last] == [HEADER_SPACE] + (pieces + [last]);
    } else {
      GatherAdds(true, ms, last);
    }
  }

  /** A UDP request makes a single message exactly when it fits one datagram. */
  lemma {:induction false} SingleIff(pieces: seq<seq<Byte>>)
    ensures |GatherAll(true, pieces)| == 1 <==> FitsOne(pieces)
    ensures FitsOne(pieces) ==> GatherAll(true, pieces) == [[HEADER_SPACE] + pieces]
  {
    if pieces == [] {
      assert [HEADER_SPACE] + pieces == [HEADER_SPACE];
    } else {
      var n := |pieces| - 1;
      SingleIff(pieces[..n]);
      SingleStep(GatherAll(true, pieces[..n]), pieces[..n], pieces[n]);
      assert pieces == pieces[..n] + [pieces[n]];
    }
  }

  lemma FlatGrows(pieces: seq<seq<Byte>>)
    requires pieces != []
    ensures |Flat(pieces[..|pieces| - 1])| <= |Flat(pieces)|
  {
  }

  // ----- a whole request -----

  /** A UDP request of several messages is refused; otherwise it is sent until the schedule ends. */
  datatype Outcome = Refused | Transmitted(result: TransmitResult)

  /** The messages as they are sent. */
  function Messages(udp: bool, id: nat, pieces: seq<seq<Byte>>): seq<seq<Fragment>> {
    GatherAllCarries(udp, pieces);
    if udp then Headed(GatherAll(udp, pieces), id) else GatherAll(udp, pieces)
  }

  /** A whole request: from its pieces to the wire. */
  function Request(udp: bool, id: nat, pieces: seq<seq<Byte>>, schedule: seq<Send>): (seq<Byte>, Outcome) {
    if udp && |GatherAll(udp, pieces)| > 1 then ([], Refused)
    else
      var (t, r) := SendAll(Sender(Messages(udp, id, pieces), 0, []), schedule);
      (t.wire, Transmitted(r))
  }

  /** What a request that is not refused puts on the wire: its pieces, over UDP behind the header of the one
      datagram. */
  function Payload(udp: bool, id: nat, pieces: seq<seq<Byte>>): seq<Byte> {
    (if udp then HeaderBytes(id, 0, 1) else []) + Flat(pieces)
  }

  lemma MessagesCarry(udp: bool, id: nat, pieces: seq<seq<Byte>>)
    requires udp ==> FitsOne(pieces)
    ensures Joined(Messages(udp, id, pieces), 0) == Payload(udp, id, pieces)
  {
    GatherAllCarries(udp, pieces);
    if udp {
      SingleIff(pieces);
      var m := [HEADER_SPACE] + pieces;
      var h := HeaderBytes(id, 0, 1);
      SameLength(m, h);
      FlatConcat([HEADER_SPACE], pieces);
      FlatOne(HEADER_SPACE);
      var ms := Messages(udp, id, pieces);
      assert ms == [m[0 := h]] && ms[..0] == [];
    } else {
      assert [] + Flat(pieces) == Flat(pieces);
    }
  }

  /** Exactly a UDP request that does not fit one datagram is refused, and sends nothing.  Otherwise, whatever sendmsg
      takes, the wire has a beginning of the request, and all of it when the request is complete. */
  lemma RequestConserves(udp: bool, id: nat, pieces: seq<seq<Byte>>, schedule: seq<Send>)
    ensures var (wire, o) := Request(udp, id, pieces, schedule);
            && (o == Refused <==> udp && !FitsOne(pieces)) && (o == Refused ==> wire == [])
            && wire <= Payload(udp, id, pieces)
            && (o == Transmitted(Complete) ==> wire == Payload(udp, id, pieces))
  {
    GatherAllCarries(udp, pieces);
    SingleIff(pieces);
    if !udp || FitsOne(pieces) {
      var s := Sender(Messages(udp, id, pieces), 0, []);
      MessagesCarry(udp, id, pieces);
      SendAllConserves(s, schedule);
      var (t, r) := SendAll(s, schedule);
      assert [] + Joined(s.left, 0) == Joined(s.left, 0);
      assert t.wire <= t.wire + Joined(t.left, 0);
    }
  }

  // ----- when sending completes -----

  /** What a call answers: it is over, it took something, it may be tried again, or the connection is lost. */
  lemma StepAnswers(s: Sender, send: Send)
    requires Ordered(s)
    ensures var (t, r) := Step(s, send);
            var over := t.current == |t.left|;
            && (r == Complete <==> over)
            && (r == Incomplete <==> !over && send.Took? && |t.wire| > |s.wire|)
            && (r == SoftError <==> !over && send == WouldBlock(true))
            && (!over && send.Took? ==>
                  |t.wire| - |s.wire| == Min(send.n, |Flat(s.left[t.current])|) && s.wire <= t.wire)
  {
  }

  /** From message k on everything is still to be sent, and it has no bytes. */
  ghost predicate Empty(s: Sender, k: nat) {
    s.current <= k < |s.left| && s.left[k] != [] && Flat(s.left[k]) == []
  }

  /** A message without bytes is never done with: sendmsg takes nothing, and that is a hard error. */
  lemma {:induction false} EmptyMessageStops(s: Sender, schedule: seq<Send>, k: nat)
    requires Empty(s, k)
    ensures Empty(SendAll(s, schedule).0, k) && SendAll(s, schedule).1 != Complete
  {
    if schedule != [] {
      EmptyMessageStops(s, schedule[..|schedule| - 1], k);
    }
  }

  ghost predicate AllHaveBytes(ms: seq<seq<Fragment>>) {
    forall i :: 0 <= i < |ms| ==> Flat(ms[i]) != []
  }

  /** The message being sent is done or has bytes, and the later ones have bytes. */
  ghost predicate Lively(s: Sender) {
    && Ordered(s)
    && forall i :: s.current <= i < |s.left| ==> Flat(s.left[i]) != [] || (i == s.current && s.left[i] == [])
  }

  predicate Goes(send: Send) {
    match send
    case Took(n) => n > 0
    case WouldBlock(updated) => updated
    case Failed => false
  }

  function Tooks(schedule: seq<Send>): nat {
    if schedule == [] then 0
    else Tooks(schedule[..|schedule| - 1]) + (if schedule[|schedule| - 1].Took? then 1 else 0)
  }

  lemma DropLively(m: seq<Fragment>, k: nat)
    requires k <= |Flat(m)|
    ensures Drop(m, k) == [] || Flat(Drop(m, k)) != []
    decreases m
  {
    if m != [] {
      FlatHead(m);
      if k >= |m[0]| {
        DropLively(m[1..], k - |m[0]|);
      } else {
        FlatHead([m[0][k..]] + m[1..]);
      }
    }
  }

  lemma StepKeepsLively(s: Sender, send: Send)
    requires Lively(s) && Goes(send)
    ensures var (t, r) := Step(s, send);
            && Lively(t)
            && (r == Complete || |Joined(t.left, 0)| + (if send.Took? then 1 else 0) <= |Joined(s.left, 0)|)
  {
    var (t, r) := Step(s, send);
    StepConserves(s, send);
    if r == Incomplete {
      DropLively(s.left[t.current], |t.wire| - |s.wire|);
      assert |t.wire| + |Joined(t.left, 0)| == |s.wire| + |Joined(s.left, 0)|;
    }
  }

  lemma {:induction false} SendsCount(s: Sender, schedule: seq<Send>)
    requires Lively(s) && forall i :: 0 <= i < |schedule| ==> Goes(schedule[i])
    ensures var (t, r) := SendAll(s, schedule);
            && Lively(t) && (schedule != [] ==> (r == Complete <==> t.current == |t.left|))
            && (t.current == |t.left| || |Joined(t.left, 0)| + Tooks(schedule) <= |Joined(s.left, 0)|)
  {
    if schedule != [] {
      var n := |schedule| - 1;
      var t := SendAll(s, schedule[..n]).0;
      SendsCount(s, schedule[..n]);
      StepKeepsLively(t, schedule[n]);
      StepConserves(t, schedule[n]);
    }
  }

  /** As long as nothing fails, one more send than there are bytes is always enough. */
  lemma EnoughSends(s: Sender, schedule: seq<Send>)
    requires Lively(s) && forall i :: 0 <= i < |schedule| ==> Goes(schedule[i])
    requires Tooks(schedule) > |Joined(s.left, 0)|
    ensures SendAll(s, schedule).1 == Complete
  {
    SendsCount(s, schedule);
  }

  function Generous(n: nat): seq<Send> {
    if n == 0 then [] else Generous(n - 1) + [Took(1)]
  }

  lemma {:induction false} GenerousGoes(n: nat)
    ensures |Generous(n)| == n == Tooks(Generous(n)) && forall i :: 0 <= i < n ==> Goes(Generous(n)[i])
  {
    if n > 0 {
      GenerousGoes(n - 1);
      assert Generous(n)[..n - 1] == Generous(n - 1);
    }
  }

  /** The messages can be sent at all exactly when each of them has bytes. */
  lemma CanCompleteIff(ms: seq<seq<Fragment>>)
    requires forall i :: 0 <= i < |ms| ==> ms[i] != []
    ensures (exists schedule :: SendAll(Sender(ms, 0, []), schedule).1 == Complete) <==> AllHaveBytes(ms)
  {
    var s := Sender(ms, 0, []);
    if AllHaveBytes(ms) {
      var n := |Joined(ms, 0)| + 1;
      GenerousGoes(n);
      EnoughSends(s, Generous(n));
    } else {
      var k :| 0 <= k < |ms| && Flat(ms[k]) == [];
      forall schedule
        ensures SendAll(s, schedule).1 != Complete
      {
        EmptyMessageStops(s, schedule, k);
      }
    }
  }

  /** The first n messages hold something. */
  ghost predicate Filled(ms: seq<seq<Fragment>>, n: int) {
    n <= |ms| && forall i :: 0 <= i < n ==> ms[i] != []
  }

  lemma {:induction false} GatherFills(udp: bool, ms: seq<seq<Fragment>>, buf: seq<Byte>)
    requires ms != [] && Filled(ms, |ms| - 1)
    ensures Filled(Gather(udp, ms, buf), |Gather(udp, ms, buf)|)
    decreases |buf|
  {
    NewIsNotFull(udp);
    var now := Ready(udp, ms);
    var n := Share(udp, now, buf);
    GatherRound(udp, ms, buf, n);
    if n < |buf| {
      GatherFills(udp, Grown(now, buf[..n]), buf[n..]);
    }
  }

  lemma {:induction false} GatherAllFills(udp: bool, pieces: seq<seq<Byte>>)
    ensures var r := GatherAll(udp, pieces); Filled(r, if pieces == [] then |r| - 1 else |r|)
  {
    if pieces != [] {
      var n := |pieces| - 1;
      var before := GatherAll(udp, pieces[..n]);
      GatherAllFills(udp, pieces[..n]);
      assert Filled(before, |before| - 1);
      GatherFills(udp, before, pieces[n]);
    }
  }

  lemma SentOrNot(udp: bool, id: nat, pieces: seq<seq<Byte>>)
    requires udp ==> FitsOne(pieces)
    ensures forall schedule ::
              Request(udp, id, pieces, schedule).1 == Transmitted(Complete) <==>
              SendAll(Sender(Messages(udp, id, pieces), 0, []), schedule).1 == Complete
  {
    if udp {
      SingleIff(pieces);
    }
  }

  /** Over UDP a request that is not refused can always be sent. */
  lemma DatagramCanComplete(id: nat, pieces: seq<seq<Byte>>)
    requires FitsOne(pieces)
    ensures exists schedule :: Request(true, id, pieces, schedule).1 == Transmitted(Complete)
  {
    GatherAllCarries(true, pieces);
    SingleIff(pieces);
    SentOrNot(true, id, pieces);
    var ms := Messages(true, id, pieces);
    FlatHead(ms[0]);
    CanCompleteIff(ms);
  }

  /** Over TCP it can exactly when none of its messages is without bytes. */
  lemma StreamCanComplete(id: nat, pieces: seq<seq<Byte>>)
    requires pieces != []
    ensures (exists schedule :: Request(false, id, pieces, schedule).1 == Transmitted(Complete)) <==>
            AllHaveBytes(GatherAll(false, pieces))
  {
    GatherAllFills(false, pieces);
    CanCompleteIff(GatherAll(false, pieces));
    SentOrNot(false, id, pieces);
    if AllHaveBytes(GatherAll(false, pieces)) {
      var schedule :| SendAll(Sender(GatherAll(false, pieces), 0, []), schedule).1 == Complete;
      assert Request(false, id, pieces, schedule).1 == Transmitted(Complete);
    } else {
      forall schedule
        ensures Request(false, id, pieces, schedule).1 != Transmitted(Complete)
      {
        assert SendAll(Sender(GatherAll(false, pieces), 0, []), schedule).1 != Complete;
      }
    }
  }
}
