/**
 When writing succeeds: in terms of what the network takes and of the sizes of the flushes alone.
 */
module WriteProgress {
  import opened Basics
  import opened WriteModel

  /** How many bytes a write(2) could take. */
  function Takes(a: Attempt): nat { if a.Sent? then a.n else 0 }

  function TakesAll(attempts: seq<Attempt>): nat {
    if attempts == [] then 0 else Takes(attempts[0]) + TakesAll(attempts[1..])
  }

  /** A hard error, or a wait that comes to nothing, with no answer to read in the meantime. */
  predicate Stops(a: Attempt) {
    a.Broken? || (a.Again? && !a.repacked && !a.waited)
  }

  /** The first p attempts, and no fewer, take n bytes, and none of them stops. */
  ghost predicate Reaches(attempts: seq<Attempt>, p: nat, n: nat) {
    && p <= |attempts| && (forall i :: 0 <= i < p ==> !Stops(attempts[i]))
    && TakesAll(attempts[..p]) >= n && forall q :: 0 <= q < p ==> TakesAll(attempts[..q]) < n
  }

  lemma TakesHead(attempts: seq<Attempt>, q: nat)
    requires 0 < q <= |attempts|
    ensures TakesAll(attempts[..q]) == Takes(attempts[0]) + TakesAll(attempts[1..][..q - 1])
  {
    assert attempts[..q][1..] == attempts[1..][..q - 1];
  }

  lemma ReachesNothing(attempts: seq<Attempt>, p: nat)
    ensures Reaches(attempts, p, 0) <==> p == 0
  {
    assert p > 0 && p <= |attempts| ==> TakesAll(attempts[..0]) >= 0;
  }

  /** The first attempt, and what is left for the others. */
  lemma ReachesHead(attempts: seq<Attempt>, p: nat, n: nat)
    requires n > 0
    ensures Reaches(attempts, p, n) <==>
              && p > 0 && attempts != [] && !Stops(attempts[0])
              && Reaches(attempts[1..], p - 1, n - Min(Takes(attempts[0]), n))
  {
    if 0 < p <= |attempts| {
      var tail, m := attempts[1..], n - Min(Takes(attempts[0]), n);
      TakesHead(attempts, p);
      assert forall i :: 0 <= i < p - 1 ==> tail[i] == attempts[i + 1];
      if Reaches(attempts, p, n) {
        forall q | 0 <= q < p - 1
          ensures TakesAll(tail[..q]) < m
        {
          TakesHead(attempts, q + 1);
          assert TakesAll(attempts[..q + 1]) < n;
        }
      } else if Reaches(tail, p - 1, m) && !Stops(attempts[0]) {
        forall q | 0 <= q < p
          ensures TakesAll(attempts[..q]) < n
        {
          if q > 0 {
            TakesHead(attempts, q);
            assert TakesAll(tail[..q - 1]) < m;
          }
        }
      }
    }
  }

  /** What is left of the attempts once n bytes are out. */
  datatype Rest = Out | Left(attempts: seq<Attempt>)

  function SendOne(attempts: seq<Attempt>, n: nat): Rest {
    if n == 0 then Left(attempts)
    else if attempts == [] || Stops(attempts[0]) then Out
    else SendOne(attempts[1..], n - Min(Takes(attempts[0]), n))
  }

  lemma {:induction false} SendOneAt(attempts: seq<Attempt>, p: nat, n: nat)
    requires Reaches(attempts, p, n)
    ensures SendOne(attempts, n) == Left(attempts[p..])
  {
    if n == 0 {
      ReachesNothing(attempts, p);
    } else {
      ReachesHead(attempts, p, n);
      SendOneAt(attempts[1..], p - 1, n - Min(Takes(attempts[0]), n));
    }
  }

  lemma {:induction false} SendOneFinds(attempts: seq<Attempt>, n: nat) returns (p: nat)
    requires SendOne(attempts, n).Left?
    ensures Reaches(attempts, p, n)
  {
    if n == 0 {
      p := 0;
      ReachesNothing(attempts, 0);
    } else {
      p := SendOneFinds(attempts[1..], n - Min(Takes(attempts[0]), n));
      p := p + 1;
      ReachesHead(attempts, p, n);
    }
  }

  /** The bytes get out exactly when the attempts before the first that stops take them all. */
  lemma SendOneIff(attempts: seq<Attempt>, n: nat)
    ensures SendOne(attempts, n).Left? <==> exists p: nat :: Reaches(attempts, p, n)
    ensures forall p: nat :: Reaches(attempts, p, n) ==> SendOne(attempts, n) == Left(attempts[p..])
  {
    if SendOne(attempts, n).Left? {
      var p := SendOneFinds(attempts, n);
    }
    forall p: nat | Reaches(attempts, p, n)
      ensures SendOne(attempts, n) == Left(attempts[p..])
    {
      SendOneAt(attempts, p, n);
    }
  }

  // ----- one flush -----

  /** No purge can come of a wait in the loop: none would fire, or there is no wait. */
  ghost predicate Unpurged(c: Link, n: nat) {
    Undisturbed(c, n) || forall i :: 0 <= i < |c.attempts| ==> c.attempts[i].Again? ==> c.attempts[i].repacked
  }

  /** The link once these bytes, the rest of its buffer, are on the wire. */
  function Emptied(c: Link, bytes: seq<Byte>, attempts: seq<Attempt>): Link {
    Progress(c, bytes).(attempts := attempts, pending := [])
  }

  lemma ProgressTwice(c: Link, a: seq<Byte>, b: seq<Byte>)
    ensures Progress(Progress(c, a), b) == Progress(c, a + b)
  {
    assert c.wire + a + b == c.wire + (a + b);
    assert ((c.sent + |a|) % TWO_32 + |b|) % TWO_32 == (c.sent + |a| + |b|) % TWO_32;
  }

  lemma UnpurgedHead(c: Link, n: nat, bytes: seq<Byte>)
    requires Unpurged(c, n) && c.attempts != [] && |bytes| <= n
    ensures Unpurged(Progress(c.(attempts := c.attempts[1..]), bytes), n - |bytes|)
  {
    var c1 := c.(attempts := c.attempts[1..]);
    if Undisturbed(c, n) {
      SameUndisturbed(c, c1, n);
      ProgressUndisturbed(c1, bytes, n);
    }
  }

  lemma AgainHead(c: Link, rest: seq<Byte>)
    requires Unpurged(c, |rest|) && rest != [] && c.attempts != [] && c.attempts[0].Again?
    ensures var a, c1 := c.attempts[0], c.(attempts := c.attempts[1..]);
            if Stops(a) then !Transmit(c, rest).1 else Transmit(c, rest) == Transmit(c1, rest)
  {
    var a, c1 := c.attempts[0], c.(attempts := c.attempts[1..]);
    if Undisturbed(c, |rest|) {
      assert !FiresAfter(c, 0);
    }
    assert Blocked(c1, a.repacked, a.waited).1 == !Stops(a);
    assert !Stops(a) ==> Blocked(c1, a.repacked, a.waited).0 == c1;
  }

  /** One turn of the loop. */
  lemma TransmitHead(c: Link, rest: seq<Byte>)
    requires Unpurged(c, |rest|) && rest != [] && c.attempts != []
    ensures var a, c1 := c.attempts[0], c.(attempts := c.attempts[1..]);
            var k := Min(Takes(a), |rest|);
            if Stops(a) then !Transmit(c, rest).1
            else Transmit(c, rest) == Transmit(Progress(c1, rest[..k]), rest[k..])
  {
    var c1 := c.(attempts := c.attempts[1..]);
    match c.attempts[0]
    case Sent(n) =>
    case Again(_, _) =>
      AgainHead(c, rest);
      NoProgress(c1, rest);
    case NoBuffers => NoProgress(c1, rest);
    case Broken =>
  }

  lemma NoProgress(c: Link, rest: seq<Byte>)
    ensures Progress(c, rest[..0]) == c && rest[0..] == rest
  {
  }

  lemma EmptiedTwice(c: Link, others: seq<Attempt>, rest: seq<Byte>, k: nat, left: seq<Attempt>)
    requires k <= |rest|
    ensures Emptied(Progress(c.(attempts := others), rest[..k]), rest[k..], left) == Emptied(c, rest, left)
  {
    ProgressTwice(c.(attempts := others), rest[..k], rest[k..]);
    assert rest[..k] + rest[k..] == rest;
  }

  /** The send loop gets through exactly when the attempts let the bytes out; it has then put them on the wire, used
      those attempts, and left everything else alone. */
  lemma {:induction false} TransmitIs(c: Link, rest: seq<Byte>)
    requires Unpurged(c, |rest|)
    ensures Transmit(c, rest).1 <==> SendOne(c.attempts, |rest|).Left?
    ensures Transmit(c, rest).1 ==> Transmit(c, rest).0 == Emptied(c, rest, SendOne(c.attempts, |rest|).attempts)
    decreases |c.attempts|
  {
    if rest == [] {
      assert Progress(c, []) == c;
    } else if c.attempts != [] && !Stops(c.attempts[0]) {
      var k := Min(Takes(c.attempts[0]), |rest|);
      var c1 := Progress(c.(attempts := c.attempts[1..]), rest[..k]);
      TransmitHead(c, rest);
      UnpurgedHead(c, |rest|, rest[..k]);
      TransmitIs(c1, rest[k..]);
      var sent := SendOne(c1.attempts, |rest[k..]|);
      assert SendOne(c.attempts, |rest|) == sent;
      if sent.Left? {
        EmptiedTwice(c, c.attempts[1..], rest, k, sent.attempts);
      }
    } else if c.attempts != [] {
      TransmitHead(c, rest);
    }
  }

  /** The send loop, put in terms of the schedule. */
  lemma TransmitSucceedsIff(c: Link, rest: seq<Byte>)
    requires Unpurged(c, |rest|)
    ensures Transmit(c, rest).1 <==> exists p: nat :: Reaches(c.attempts, p, |rest|)
  {
    TransmitIs(c, rest);
    SendOneIff(c.attempts, |rest|);
  }

  lemma FlushIs(c: Link)
    requires !FiresAt(c, c.sent) && Unpurged(c, |c.pending|)
    ensures Flush(c).1 <==> SendOne(c.attempts, |c.pending|).Left?
    ensures Flush(c).1 ==> Flush(c).0 == Emptied(c, c.pending, SendOne(c.attempts, |c.pending|).attempts)
  {
    TransmitIs(c, c.pending);
    if c.pending == [] {
      assert Progress(c, []) == c;
    }
  }

  /** A purge at the start of the flush gets through exactly when the buffer gets out and the answers can be read. */
  lemma PurgedFlushIs(c: Link)
    requires FiresAt(c, c.sent)
    ensures Flush(c).1 <==>
            && SendOne(c.attempts, |c.pending|).Left?
            && (c.responses == 1 || (c.drains != [] && c.drains[0].ok))
  {
    var inner := c.(purging := true);
    assert forall k :: 0 <= k < |c.pending| ==> !FiresAfter(inner, k);
    FlushIs(inner);
  }

  /** A safe flush succeeds exactly when the attempts before the first that stops take the whole buffer, and, if a purge
      fires at its start, the answers that are due can be read. */
  lemma FlushSucceedsIff(c: Link)
    requires Safe(c)
    ensures Flush(c).1 <==>
            && (exists p: nat :: Reaches(c.attempts, p, |c.pending|))
            && (FiresAt(c, c.sent) ==> c.responses == 1 || (c.drains != [] && c.drains[0].ok))
  {
    SendOneIff(c.attempts, |c.pending|);
    if FiresAt(c, c.sent) {
      PurgedFlushIs(c);
    } else {
      FlushIs(c);
    }
  }

  // ----- a whole write -----

  function SendSizes(attempts: seq<Attempt>, sizes: seq<nat>): Rest
    decreases |sizes|
  {
    if sizes == [] then Left(attempts)
    else
      match SendOne(attempts, sizes[0])
      case Out => Out
      case Left(others) => SendSizes(others, sizes[1..])
  }

  lemma {:induction false} SizesConcat(attempts: seq<Attempt>, a: seq<nat>, b: seq<nat>)
    ensures SendSizes(attempts, a + b) == match SendSizes(attempts, a)
                                          case Out => Out
                                          case Left(others) => SendSizes(others, b)
    decreases |a|
  {
    if a == [] {
      assert a + b == b;
    } else {
      assert (a + b)[1..] == a[1..] + b;
      var sent := SendOne(attempts, a[0]);
      if sent.Left? {
        SizesConcat(sent.attempts, a[1..], b);
      }
    }
  }

  lemma SizesOne(attempts: seq<Attempt>, n: nat)
    ensures SendSizes(attempts, [n]) == SendOne(attempts, n)
  {
    assert [n][1..] == [];
  }

  /** The flushes that n bytes make behind `buffered` others: one for each time the buffer fills up. */
  function FullFlushes(buffered: nat, n: nat): seq<nat> {
    seq((buffered + n) / MAX_BUFFER, _ => MAX_BUFFER)
  }

  function Leftover(buffered: nat, n: nat): nat { (buffered + n) % MAX_BUFFER }

  /** No purge fires before that many more bytes are out, or just then. */
  ghost predicate Calm(c: Link, n: nat) {
    Undisturbed(c, n + 1)
  }

  lemma CalmLess(c: Link, n: nat, m: nat)
    requires Calm(c, n) && m <= n
    ensures Calm(c, m)
  {
  }

  lemma CalmFlush(c: Link, n: nat)
    requires Calm(c, n) && |c.pending| <= n
    ensures !FiresAt(c, c.sent) && Unpurged(c, |c.pending|)
  {
    assert !FiresAfter(c, 0);
  }

  lemma CalmAfter(c: Link, n: nat, bytes: seq<Byte>, left: seq<Attempt>)
    requires Calm(c, n) && |bytes| <= n
    ensures Calm(Emptied(c, bytes, left), n - |bytes|)
  {
    ProgressUndisturbed(c, bytes, n + 1);
    SameUndisturbed(Progress(c, bytes), Emptied(c, bytes, left), n - |bytes| + 1);
  }

  /** What a successful write leaves: some bytes buffered, the others out, nothing else changed. */
  ghost predicate Wrote(c: Link, c': Link, n: nat, buffered: nat, left: Rest) {
    && left == Left(c'.attempts) && |c'.pending| == buffered <= |c.pending| + n
    && c'.sent == (c.sent + (|c.pending| + n - buffered)) % TWO_32
    && c'.(pending := c.pending, wire := c.wire, sent := c.sent, attempts := c.attempts) == c
  }

  lemma WroteTwice(c: Link, c1: Link, c2: Link, n: nat, m: nat, b1: nat, b2: nat, left: Rest)
    requires Wrote(c, c1, n, b1, Left(c1.attempts)) && Wrote(c1, c2, m, b2, left)
    ensures Wrote(c, c2, n + m, b2, left)
  {
  }

  lemma OneMoreFull(buffered: nat, n: nat)
    requires buffered < MAX_BUFFER <= buffered + n
    ensures var m: nat := buffered + n - MAX_BUFFER;
            FullFlushes(buffered, n) == [MAX_BUFFER] + FullFlushes(0, m) && Leftover(buffered, n) == Leftover(0, m)
  {
    var m: nat := buffered + n - MAX_BUFFER;
    assert (buffered + n) / MAX_BUFFER == m / MAX_BUFFER + 1;
  }

  lemma CalmWith(c: Link, n: nat, pending: seq<Byte>)
    requires Calm(c, n)
    ensures Calm(c.(pending := pending), n)
  {
    SameUndisturbed(c, c.(pending := pending), n + 1);
  }

  /** A flush behind which `more` bytes follow. */
  lemma FlushWrote(c: Link, more: nat)
    requires Calm(c, |c.pending| + more)
    ensures var sent := SendOne(c.attempts, |c.pending|);
            && (Flush(c).1 <==> sent.Left?)
            && (Flush(c).1 ==> Wrote(c, Flush(c).0, 0, 0, sent) && Calm(Flush(c).0, more))
  {
    CalmFlush(c, |c.pending| + more);
    FlushIs(c);
    if Flush(c).1 {
      CalmAfter(c, |c.pending| + more, c.pending, SendOne(c.attempts, |c.pending|).attempts);
    }
  }

  lemma Buffers(c: Link, part: seq<Byte>)
    ensures var c1 := c.(pending := c.pending + part); Wrote(c, c1, |part|, |c.pending| + |part|, Left(c1.attempts))
  {
  }

  /** The buffer fills up and is flushed. */
  lemma FillRound(c: Link, data: seq<Byte>, more: nat) returns (c2: Link)
    requires |c.pending| < MAX_BUFFER <= |c.pending| + |data| && Calm(c, |c.pending| + |data| + more)
    ensures var (k, sent) := (MAX_BUFFER - |c.pending|, SendOne(c.attempts, MAX_BUFFER));
            && (if sent.Left? then c2.pending == [] && Fill(c, data) == Fill(c2, data[k..]) else !Fill(c, data).1)
            && (sent.Left? ==> Wrote(c, c2, k, 0, sent) && Calm(c2, |data| - k + more))
  {
    var k := MAX_BUFFER - |c.pending|;
    var c1 := c.(pending := c.pending + data[..k]);
    Buffers(c, data[..k]);
    CalmWith(c, |c.pending| + |data| + more, c1.pending);
    FlushWrote(c1, |data| - k + more);
    c2 := Flush(c1).0;
    if Flush(c1).1 {
      WroteTwice(c, c1, c2, k, 0, MAX_BUFFER, 0, SendOne(c.attempts, MAX_BUFFER));
    }
  }

  /** Filling the buffer succeeds exactly when all the flushes it makes on the way get out. */
  lemma {:induction false} FillIs(c: Link, data: seq<Byte>, more: nat)
    requires |c.pending| < MAX_BUFFER && Calm(c, |c.pending| + |data| + more)
    ensures var left := SendSizes(c.attempts, FullFlushes(|c.pending|, |data|));
            var (c', ok) := Fill(c, data);
            && (ok <==> left.Left?)
            && (ok ==> Wrote(c, c', |data|, Leftover(|c.pending|, |data|), left)
                       && Calm(c', Leftover(|c.pending|, |data|) + more))
    decreases |data|
  {
    var b, n := |c.pending|, |data|;
    if b + n < MAX_BUFFER {
      Buffers(c, data);
      CalmWith(c, b + n + more, c.pending + data);
      FillRest(c, data);
    } else {
      var k, sent := MAX_BUFFER - b, SendOne(c.attempts, MAX_BUFFER);
      OneMoreFull(b, n);
      var c2 := FillRound(c, data, more);
      if sent.Left? {
        FillIs(c2, data[k..], more);
        if Fill(c2, data[k..]).1 {
          var left := SendSizes(c2.attempts, FullFlushes(0, n - k));
          WroteTwice(c, c2, Fill(c2, data[k..]).0, k, n - k, 0, Leftover(0, n - k), left);
        }
      }
    }
  }

  lemma FillRest(c: Link, data: seq<Byte>)
    requires |c.pending| + |data| < MAX_BUFFER
    ensures Fill(c, data) == (c.(pending := c.pending + data), true)
    ensures FullFlushes(|c.pending|, |data|) == [] && Leftover(|c.pending|, |data|) == |c.pending| + |data|
  {
    if data == [] {
      assert c.pending + data == c.pending;
    } else {
      assert data[..|data|] == data && data[|data|..] == [];
      assert Fill(c.(pending := c.pending + data), []) == (c.(pending := c.pending + data), true);
    }
  }

  /** The sizes of the flushes of a write: one buffer for each time it fills up, and with a final flush what is left. */
  function WriteSizes(buffered: nat, n: nat, flush: bool): seq<nat> {
    FullFlushes(buffered, n) + (if flush then [Leftover(buffered, n)] else [])
  }

  function WriteLeaves(buffered: nat, n: nat, flush: bool): nat {
    if flush then 0 else Leftover(buffered, n)
  }

  /** A write succeeds exactly when all its flushes get out, one after the other. */
  lemma WriteSucceedsIff(c: Link, data: seq<Byte>, flush: bool)
    requires |c.pending| < MAX_BUFFER && Calm(c, |c.pending| + |data|)
    ensures var left := SendSizes(c.attempts, WriteSizes(|c.pending|, |data|, flush));
            var (c', ok) := Write(c, data, flush);
            && (ok <==> left.Left?)
            && (ok ==> Wrote(c, c', |data|, WriteLeaves(|c.pending|, |data|, flush), left))
  {
    var b, n := |c.pending|, |data|;
    FillIs(c, data, 0);
    var (c1, ok) := Fill(c, data);
    if ok && flush {
      SizesConcat(c.attempts, FullFlushes(b, n), [Leftover(b, n)]);
      SizesOne(c1.attempts, Leftover(b, n));
      FlushWrote(c1, 0);
      if Flush(c1).1 {
        WroteTwice(c, c1, Flush(c1).0, n, 0, Leftover(b, n), 0, SendOne(c1.attempts, Leftover(b, n)));
      }
    } else {
      assert FullFlushes(b, n) + [] == FullFlushes(b, n);
      SizesConcat(c.attempts, FullFlushes(b, n), if flush then [Leftover(b, n)] else []);
    }
  }

  // ----- a whole session -----

  /** No purge fires in any of the calls. */
  ghost predicate CalmSession(c: Link, calls: seq<Call>)
    requires |c.pending| < MAX_BUFFER
    decreases |calls|
  {
    calls == [] ||
    var c0 := Resume(c, calls[0].traffic);
    && Calm(c0, |c0.pending| + |calls[0].data|)
    && (FillBounded(c0, calls[0].data);
        Serve(c, calls[0]).1 ==> CalmSession(Serve(c, calls[0]).0, calls[1..]))
  }

  function SessionSizes(buffered: nat, calls: seq<Call>): seq<nat>
    decreases |calls|
  {
    if calls == [] then []
    else
      var call := calls[0];
      WriteSizes(buffered, |call.data|, call.flush)
      + SessionSizes(WriteLeaves(buffered, |call.data|, call.flush), calls[1..])
  }

  /** A session succeeds exactly when all its flushes get out; their sizes depend on the calls alone. */
  lemma {:induction false} SessionSucceedsIff(c: Link, calls: seq<Call>)
    requires |c.pending| < MAX_BUFFER && CalmSession(c, calls)
    ensures Session(c, calls).1 <==> SendSizes(c.attempts, SessionSizes(|c.pending|, calls)).Left?
    decreases |calls|
  {
    if calls != [] {
      var call, c0 := calls[0], Resume(c, calls[0].traffic);
      FillBounded(c0, call.data);
      WriteSucceedsIff(c0, call.data, call.flush);
      var sizes := WriteSizes(|c.pending|, |call.data|, call.flush);
      var leaves := WriteLeaves(|c.pending|, |call.data|, call.flush);
      SizesConcat(c.attempts, sizes, SessionSizes(leaves, calls[1..]));
      var (c1, ok) := Serve(c, call);
      if ok {
        SessionSucceedsIff(c1, calls[1..]);
      }
    }
  }

  lemma IdleIsCalm(c: Link, n: nat)
    requires Idle(c)
    ensures Calm(c, n)
  {
    forall k | 0 <= k < n + 1
      ensures !FiresAfter(c, k)
    {
    }
  }

  /** So does the session of a client that waits for each answer. */
  lemma {:induction false} IdleSessionIsCalm(c: Link, calls: seq<Call>)
    requires |c.pending| < MAX_BUFFER && Idle(c)
    requires forall i :: 0 <= i < |calls| ==> IdleTraffic(calls[i].traffic, c.msgMark)
    ensures CalmSession(c, calls)
    decreases |calls|
  {
    if calls != [] {
      var call, c0 := calls[0], Resume(c, calls[0].traffic);
      IdleIsCalm(c0, |c0.pending| + |call.data|);
      IdleWrite(c0, call);
      FillBounded(c0, call.data);
      var (c1, ok) := Serve(c, call);
      if ok {
        IdleSessionIsCalm(c1, calls[1..]);
      }
    }
  }

  // ----- failures -----

  /** A call that fails leaves nothing to send and no answer due: the server has been quit. */
  predicate Quitted(c: Link) { c.pending == [] && c.responses == 0 }

  lemma {:induction false} FailedTransmitQuits(c: Link, rest: seq<Byte>)
    ensures !Transmit(c, rest).1 ==> Quitted(Transmit(c, rest).0)
    decreases |c.attempts|
  {
    if rest != [] && c.attempts != [] {
      var c1 := c.(attempts := c.attempts[1..]);
      match c.attempts[0]
      case Sent(n) =>
        var k := Min(n, |rest|);
        FailedTransmitQuits(Progress(c1, rest[..k]), rest[k..]);
      case NoBuffers => FailedTransmitQuits(c1, rest);
      case Again(repacked, waited) =>
        var (c2, ok) := Blocked(c1, repacked, waited);
        if ok {
          FailedTransmitQuits(c2, rest);
        }
      case Broken =>
    }
  }

  lemma NestedFlush(c: Link)
    requires c.purging
    ensures Flush(c) == Transmit(c, c.pending)
  {
    assert Purge(c) == (c, true);
    if c.pending == [] {
      assert c.(pending := []) == c;
    }
  }

  lemma FailedPurgeQuits(c: Link)
    ensures !Purge(c).1 ==> Quitted(Purge(c).0)
  {
    if FiresAt(c, c.sent) {
      NestedFlush(c.(purging := true));
      FailedTransmitQuits(c.(purging := true), c.pending);
    }
  }

  lemma FailedFlushQuits(c: Link)
    ensures !Flush(c).1 ==> Quitted(Flush(c).0)
  {
    FailedPurgeQuits(c);
    FailedTransmitQuits(Purge(c).0, Purge(c).0.pending);
  }

  /** A purge whose own flush fails leaves the flag set, and with it no purge ever fires again. */
  lemma FailedPurgeSticks(c: Link)
    requires FiresAt(c, c.sent) && !SendOne(c.attempts, |c.pending|).Left?
    ensures var (c', ok) := Purge(c); !ok && c'.purging && forall n: Word :: !FiresAt(c', n)
  {
    var inner := c.(purging := true);
    assert forall k :: 0 <= k < |c.pending| ==> !FiresAfter(inner, k);
    FlushIs(inner);
  }

  // ----- what purging bounds -----

  /** When a purge fires: from two responses on, and below the byte watermark only from the message watermark on. */
  lemma FiresWhen(c: Link, sent: Word)
    ensures FiresAt(c, sent) <==>
            !c.purging && (if sent < c.byteMark then c.responses >= c.msgMark else c.responses >= 2)
  {
  }

  /** Reading the answers that are due leaves one at most. */
  predicate Settles(drains: seq<Drain>) {
    forall i :: 0 <= i < |drains| ==> drains[i].ok ==> drains[i].responses <= 1
  }

  ghost predicate Bounded(c: Link) {
    && Settles(c.drains)
    && (c.purging || c.responses < 2 || c.responses < c.msgMark)
  }

  lemma {:induction false} NestedKeeps(c: Link, rest: seq<Byte>)
    requires c.purging
    ensures var c' := Transmit(c, rest).0; Transmit(c, rest).1 ==>
              c'.purging && c'.drains == c.drains && c'.msgMark == c.msgMark && c'.byteMark == c.byteMark
  {
    assert forall k :: 0 <= k < |rest| ==> !FiresAfter(c, k);
    TransmitIs(c, rest);
  }

  /** After a purge that gets through, few responses are due: fewer than two, or fewer than the message watermark, and
      then fewer bytes are out than the byte watermark. */
  lemma PurgeBounds(c: Link)
    requires !c.purging && Settles(c.drains)
    ensures var (c', ok) := Purge(c); ok ==>
              && Bounded(c') && c'.msgMark == c.msgMark && !c'.purging
              && (c'.responses < 2 || (c'.responses < c.msgMark && c'.sent < c.byteMark))
  {
    if FiresAt(c, c.sent) {
      NestedFlush(c.(purging := true));
      NestedKeeps(c.(purging := true), c.pending);
    }
  }

  lemma {:induction false} TransmitBounds(c: Link, rest: seq<Byte>)
    requires Bounded(c) && !c.purging
    ensures var (c', ok) := Transmit(c, rest); ok ==> Bounded(c') && !c'.purging && c'.msgMark == c.msgMark
    decreases |c.attempts|
  {
    if rest != [] && c.attempts != [] {
      var c1 := c.(attempts := c.attempts[1..]);
      match c.attempts[0]
      case Sent(n) =>
        var k := Min(n, |rest|);
        TransmitBounds(Progress(c1, rest[..k]), rest[k..]);
      case NoBuffers => TransmitBounds(c1, rest);
      case Again(repacked, waited) =>
        PurgeBounds(c1);
        var (c2, ok) := Blocked(c1, repacked, waited);
        if ok {
          TransmitBounds(c2, rest);
        }
      case Broken =>
    }
  }

  /** So the answers that can pile up are bounded by the message watermark, whatever is sent. */
  lemma FlushBounds(c: Link)
    requires !c.purging && Settles(c.drains)
    ensures var (c', ok) := Flush(c); ok ==> c'.responses < 2 || c'.responses < c.msgMark
  {
    PurgeBounds(c);
    if Purge(c).1 {
      TransmitBounds(Purge(c).0, Purge(c).0.pending);
    }
  }
}
