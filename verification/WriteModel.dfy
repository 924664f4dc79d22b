/**
 The write side of one TCP connection as a transition function of the environment's choices.

 The environment decides, for every write(2), how many bytes it took or how it failed, and what reading the
 outstanding responses did.  Every finite schedule of such choices is an input; when it runs out the
 connection breaks.
 */
module WriteModel {
  import opened Basics

  /** The outcome of one write(2).  After EAGAIN the code first tries to refill its input buffer; only if that
      read nothing does it wait, which may purge first, and `waited` tells whether poll came back usable. */
  datatype Attempt = Sent(n: nat) | NoBuffers | Again(repacked: bool, waited: bool) | Broken

  /** What reading the outstanding responses did to the counters. */
  datatype Drain = Drain(ok: bool, responses: nat, sent: Word)

  datatype Link = Link(
    pending: seq<Byte>,       // the first write_buffer_offset bytes of the write buffer
    wire: seq<Byte>,          // everything write(2) ever took
    sent: Word,               // io_bytes_sent since the last read
    responses: nat,           // outstanding responses
    purging: bool,
    msgMark: nat,
    byteMark: nat,
    attempts: seq<Attempt>,
    drains: seq<Drain>)

  /** The watermark test of purge, for a given number of bytes sent. */
  predicate FiresAt(c: Link, sent: Word) {
    && !c.purging
    && !(c.responses < c.msgMark && sent < c.byteMark)
    && !(sent >= c.byteMark && c.responses < 2)
  }

  function Quit(c: Link): Link { c.(pending := [], responses := 0) }

  /** write(2) took these bytes. */
  function Progress(c: Link, bytes: seq<Byte>): Link {
    c.(wire := c.wire + bytes, sent := (c.sent + |bytes|) % TWO_32)
  }

  /** memcached_purge: force the buffer out, then read all responses but one. */
  function Purge(c: Link): (r: (Link, bool))
    ensures |r.0.attempts| <= |c.attempts| && (r.1 || c.purging ==> r.0.purging == c.purging)
    ensures r.1 ==> r.0.pending == c.pending || r.0.pending == []
    decreases if c.purging then 0 else 1, |c.attempts|, 0
  {
    if !FiresAt(c, c.sent) then (c, true)
    else
      var (c1, ok) := Flush(c.(purging := true));
      if !ok then (c1, false)
      else if c1.responses == 1 then (c1.(purging := false), true)
      else if c1.drains == [] || !c1.drains[0].ok then (Quit(c1).(purging := false), false)
      else
        var d := c1.drains[0];
        (c1.(purging := false, responses := d.responses, sent := d.sent, drains := c1.drains[1..]), true)
  }

  /** io_flush: maybe purge, then send what is buffered now. */
  function Flush(c: Link): (r: (Link, bool))
    ensures |r.0.attempts| <= |c.attempts| && (r.1 || c.purging ==> r.0.purging == c.purging)
    ensures r.1 ==> r.0.pending == []
    decreases if c.purging then 0 else 1, |c.attempts|, 2
  {
    var (c1, ok) := Purge(c);
    if !ok then (c1, false)
    else if c1.pending == [] then (c1, true)
    else Transmit(c1, c1.pending)
  }

  /** The send loop of io_flush; `rest` is what lies between its local pointer and the end it remembered. */
  function Transmit(c: Link, rest: seq<Byte>): (r: (Link, bool))
    ensures |r.0.attempts| <= |c.attempts| && (r.1 || c.purging ==> r.0.purging == c.purging)
    ensures r.1 ==> r.0.pending == []
    decreases if c.purging then 0 else 1, |c.attempts|, 1
  {
    if rest == [] then (c.(pending := []), true)
    else if c.attempts == [] then (Quit(c), false)
    else
      var c1 := c.(attempts := c.attempts[1..]);
      match c.attempts[0]
      case Sent(n) =>
        var k := Min(n, |rest|);
        Transmit(Progress(c1, rest[..k]), rest[k..])
      case NoBuffers => Transmit(c1, rest)
      case Again(repacked, waited) =>
        var (c2, ok) := Blocked(c1, repacked, waited);
        if ok then Transmit(c2, rest) else (c2, false)
      case Broken => (Quit(c1), false)
  }

  /** What io_flush does about EAGAIN before it tries again. */
  function Blocked(c: Link, repacked: bool, waited: bool): (r: (Link, bool))
    ensures |r.0.attempts| <= |c.attempts| && (r.1 || c.purging ==> r.0.purging == c.purging)
    decreases if c.purging then 0 else 1, |c.attempts|, 1
  {
    if repacked then (c, true)
    else
      var (c1, ok) := Purge(c);
      if ok && waited then (c1, true) else (Quit(c1), false)
  }

  /** The copying loop of _io_write: fill the buffer, flush whenever it is full. */
  function Fill(c: Link, data: seq<Byte>): (Link, bool)
    requires |c.pending| < MAX_BUFFER
    decreases |data|
  {
    if data == [] then (c, true)
    else
      var k := Min(MAX_BUFFER - |c.pending|, |data|);
      var c1 := c.(pending := c.pending + data[..k]);
      if |c1.pending| < MAX_BUFFER then Fill(c1, data[k..])
      else
        var (c2, ok) := Flush(c1);
        if ok then Fill(c2, data[k..]) else (c2, false)
  }

  function Write(c: Link, data: seq<Byte>, flush: bool): (Link, bool)
    requires |c.pending| < MAX_BUFFER
  {
    var (c1, ok) := Fill(c, data);
    if ok && flush then Flush(c1) else (c1, ok)
  }

  // ----- conservation -----

  /** The purge test once k more bytes are out. */
  predicate FiresAfter(c: Link, k: nat) { FiresAt(c, (c.sent + k) % TWO_32) }

  /** No partial progress of the send loop can make a purge fire. */
  ghost predicate Undisturbed(c: Link, n: nat) {
    forall k :: 0 <= k < n ==> !FiresAfter(c, k)
  }

  lemma ProgressUndisturbed(c: Link, bytes: seq<Byte>, n: nat)
    requires Undisturbed(c, n) && |bytes| <= n
    ensures Undisturbed(Progress(c, bytes), n - |bytes|)
  {
    forall j | 0 <= j < n - |bytes|
      ensures !FiresAfter(Progress(c, bytes), j)
    {
      assert !FiresAfter(c, |bytes| + j);
      assert ((c.sent + |bytes|) % TWO_32 + j) % TWO_32 == (c.sent + |bytes| + j) % TWO_32;
    }
  }

  lemma SameUndisturbed(c: Link, d: Link, n: nat)
    requires Undisturbed(c, n) && d.sent == c.sent && d.purging == c.purging && d.responses == c.responses
    requires d.msgMark == c.msgMark && d.byteMark == c.byteMark
    ensures Undisturbed(d, n)
  {
    forall k | 0 <= k < n
      ensures !FiresAfter(d, k)
    {
      assert !FiresAfter(c, k);
    }
  }

  lemma {:induction false} TransmitConserves(c: Link, rest: seq<Byte>)
    requires Undisturbed(c, |rest|)
    ensures var (c', ok) := Transmit(c, rest); ok ==> c'.wire == c.wire + rest
    decreases |c.attempts|
  {
    if rest != [] && c.attempts != [] {
      var c1 := c.(attempts := c.attempts[1..]);
      SameUndisturbed(c, c1, |rest|);
      match c.attempts[0]
      case Sent(n) =>
        var k := Min(n, |rest|);
        ProgressUndisturbed(c1, rest[..k], |rest|);
        TransmitConserves(Progress(c1, rest[..k]), rest[k..]);
        assert c.wire + rest == c.wire + rest[..k] + rest[k..];
      case NoBuffers =>
        TransmitConserves(c1, rest);
      case Again(repacked, waited) =>
        assert !FiresAfter(c1, 0);
        assert Blocked(c1, repacked, waited).1 ==> Blocked(c1, repacked, waited).0 == c1;
        TransmitConserves(c1, rest);
      case Broken =>
    }
  }

  /** While a purge is in progress no other starts, so its nested flush always conserves. */
  lemma NestedFlushConserves(c: Link)
    requires c.purging
    ensures var (c', ok) := Flush(c); ok ==> c'.wire == c.wire + c.pending && c'.pending == []
  {
    assert forall k :: 0 <= k < |c.pending| ==> !FiresAfter(c, k);
    TransmitConserves(c, c.pending);
  }

  /** A flush is safe when the purge at its start fires (and empties the buffer) or when no purge can fire
      before its last byte is out.  All of this is known before the call. */
  ghost predicate Safe(c: Link) {
    FiresAt(c, c.sent) || Undisturbed(c, |c.pending|)
  }

  /** Every schedule: a safe flush that succeeds puts exactly the buffered bytes on the wire, once, in order. */
  lemma FlushConserves(c: Link)
    requires Safe(c)
    ensures var (c', ok) := Flush(c); ok ==> c'.wire == c.wire + c.pending && c'.pending == []
  {
    if FiresAt(c, c.sent) {
      NestedFlushConserves(c.(purging := true));
    } else {
      TransmitConserves(c, c.pending);
    }
  }

  lemma TransmitSent(c: Link, rest: seq<Byte>, n: nat)
    requires rest != [] && c.attempts != [] && c.attempts[0] == Sent(n) && n <= |rest|
    ensures Transmit(c, rest) == Transmit(Progress(c.(attempts := c.attempts[1..]), rest[..n]), rest[n..])
  {
  }

  lemma TransmitNothing(c: Link)
    ensures Transmit(c, []) == (c.(pending := []), true)
  {
  }

  lemma LastSent(c: Link, rest: seq<Byte>, c1: Link)
    requires rest != [] && c.attempts != [] && c.attempts[0] == Sent(|rest|)
    requires c1 == Progress(c.(attempts := c.attempts[1..]), rest)
    ensures Transmit(c, rest) == Transmit(c1, [])
  {
    assert rest[..|rest|] == rest && rest[|rest|..] == [];
    TransmitSent(c, rest, |rest|);
  }

  lemma ProgressTail(c: Link, bytes: seq<Byte>, left: seq<Attempt>)
    ensures Progress(c.(attempts := left), bytes).(pending := []) ==
            Progress(c, bytes).(attempts := left, pending := [])
  {
  }

  /** Sending everything in one go. */
  lemma TransmitAtOnce(c: Link, rest: seq<Byte>)
    requires rest != [] && c.attempts != [] && c.attempts[0] == Sent(|rest|)
    ensures Transmit(c, rest) == (Progress(c, rest).(attempts := c.attempts[1..], pending := []), true)
  {
    var c1 := Progress(c.(attempts := c.attempts[1..]), rest);
    LastSent(c, rest, c1);
    TransmitNothing(c1);
    ProgressTail(c, rest, c.attempts[1..]);
  }

  /** The purge inside the wait sends the whole buffer. */
  lemma PurgeSendsAll(c: Link)
    requires FiresAt(c, c.sent) && c.pending != [] && |c.attempts| > 0 && c.attempts[0] == Sent(|c.pending|)
    requires c.drains == [Drain(true, 1, 0)]
    ensures var (c', ok) := Purge(c); ok && c'.wire == c.wire + c.pending && c'.attempts == c.attempts[1..]
  {
    var inner := c.(purging := true);
    TransmitAtOnce(inner, c.pending);
    assert Flush(inner) == Transmit(inner, c.pending);
  }

  /** Otherwise some schedule makes the flush succeed and yet send bytes twice: the wait after a partial
      write purges, the purge flushes the whole buffer, and the outer loop then goes on where it was. */
  lemma UnsafeFlushDuplicates(c: Link) returns (attempts: seq<Attempt>, drains: seq<Drain>)
    requires !Safe(c)
    ensures var (c', ok) := Flush(c.(attempts := attempts, drains := drains));
            ok && |c'.wire| > |c.wire + c.pending|
  {
    var k :| 0 <= k < |c.pending| && FiresAfter(c, k);
    assert k > 0;
    var all, rest := c.pending, c.pending[k..];
    attempts := [Sent(k), Again(false, true), Sent(|all|), Sent(|rest|)];
    drains := [Drain(true, 1, 0)];
    var c0 := c.(attempts := attempts, drains := drains);
    var c1 := Progress(c0.(attempts := attempts[1..]), all[..k]);
    assert Flush(c0) == Transmit(c0, all) == Transmit(c1, rest);
    var c2 := c1.(attempts := c1.attempts[1..]);
    assert c2.attempts == [Sent(|all|), Sent(|rest|)];
    PurgeSendsAll(c2);
    var (c3, ok) := Purge(c2);
    assert Transmit(c1, rest) == Transmit(c3, rest);
    TransmitAtOnce(c3, rest);
  }

  /** The exact condition: all schedules conserve if and only if the state before the call is safe. */
  lemma FlushConservesIff(c: Link)
    ensures Safe(c) <==>
            forall a, d :: var (c', ok) := Flush(c.(attempts := a, drains := d));
                           ok ==> c'.wire == c.wire + c.pending
  {
    if Safe(c) {
      forall a, d
        ensures var (c', ok) := Flush(c.(attempts := a, drains := d)); ok ==> c'.wire == c.wire + c.pending
      {
        if !FiresAt(c, c.sent) {
          SameUndisturbed(c, c.(attempts := a, drains := d), |c.pending|);
        }
        FlushConserves(c.(attempts := a, drains := d));
      }
    } else {
      var a, d := UnsafeFlushDuplicates(c);
    }
  }

  // ----- whole sessions -----

  /** What happened to the counters since the last call: requests counted, answers read. */
  datatype Traffic = Unchanged | Now(responses: nat, sent: Word)

  datatype Call = Call(data: seq<Byte>, flush: bool, traffic: Traffic)

  function Resume(c: Link, t: Traffic): Link {
    if t.Now? then c.(responses := t.responses, sent := t.sent) else c
  }

  /** Every flush that filling the buffer makes starts in a safe state. */
  ghost predicate FillSafe(c: Link, data: seq<Byte>)
    requires |c.pending| < MAX_BUFFER
    decreases |data|
  {
    data == [] ||
    var k := Min(MAX_BUFFER - |c.pending|, |data|);
    var c1 := c.(pending := c.pending + data[..k]);
    if |c1.pending| < MAX_BUFFER then FillSafe(c1, data[k..])
    else Safe(c1) && (Flush(c1).1 ==> FillSafe(Flush(c1).0, data[k..]))
  }

  ghost predicate WriteSafe(c: Link, call: Call)
    requires |c.pending| < MAX_BUFFER
  {
    && FillSafe(c, call.data)
    && (call.flush && Fill(c, call.data).1 ==> Safe(Fill(c, call.data).0))
  }

  lemma {:induction false} FillBounded(c: Link, data: seq<Byte>)
    requires |c.pending| < MAX_BUFFER
    ensures var (c', ok) := Fill(c, data); ok ==> |c'.pending| < MAX_BUFFER
    decreases |data|
  {
    if data != [] {
      var k := Min(MAX_BUFFER - |c.pending|, |data|);
      var c1 := c.(pending := c.pending + data[..k]);
      if |c1.pending| < MAX_BUFFER {
        FillBounded(c1, data[k..]);
      } else if Flush(c1).1 {
        FillBounded(Flush(c1).0, data[k..]);
      }
    }
  }

  lemma {:induction false} FillConserves(c: Link, data: seq<Byte>)
    requires |c.pending| < MAX_BUFFER && FillSafe(c, data)
    ensures var (c', ok) := Fill(c, data); ok ==> c'.wire + c'.pending == c.wire + c.pending + data
    decreases |data|
  {
    if data != [] {
      var k := Min(MAX_BUFFER - |c.pending|, |data|);
      var c1 := c.(pending := c.pending + data[..k]);
      assert c.wire + c.pending + data == c1.wire + c1.pending + data[k..];
      if |c1.pending| < MAX_BUFFER {
        FillConserves(c1, data[k..]);
      } else {
        FlushConserves(c1);
        if Flush(c1).1 {
          FillConserves(Flush(c1).0, data[k..]);
        }
      }
    }
  }

  lemma WriteConserves(c: Link, call: Call)
    requires |c.pending| < MAX_BUFFER && WriteSafe(c, call)
    ensures var (c', ok) := Write(c, call.data, call.flush);
            ok ==> |c'.pending| < MAX_BUFFER && c'.wire + c'.pending == c.wire + c.pending + call.data
                   && (call.flush ==> c'.pending == [])
  {
    FillBounded(c, call.data);
    FillConserves(c, call.data);
    if Fill(c, call.data).1 && call.flush {
      FlushConserves(Fill(c, call.data).0);
    }
  }

  function Serve(c: Link, call: Call): (Link, bool)
    requires |c.pending| < MAX_BUFFER
  {
    Write(Resume(c, call.traffic), call.data, call.flush)
  }

  /** A session stops at its first failing call. */
  function Session(c: Link, calls: seq<Call>): (Link, bool)
    requires |c.pending| < MAX_BUFFER
    decreases |calls|
  {
    if calls == [] then (c, true)
    else
      var (c1, ok) := Serve(c, calls[0]);
      FillBounded(Resume(c, calls[0].traffic), calls[0].data);
      if ok then Session(c1, calls[1..]) else (c1, false)
  }

  ghost predicate SessionSafe(c: Link, calls: seq<Call>)
    requires |c.pending| < MAX_BUFFER
    decreases |calls|
  {
    calls == [] ||
    (&& WriteSafe(Resume(c, calls[0].traffic), calls[0])
     && (FillBounded(Resume(c, calls[0].traffic), calls[0].data);
         Serve(c, calls[0]).1 ==> SessionSafe(Serve(c, calls[0]).0, calls[1..])))
  }

  function AllData(calls: seq<Call>): seq<Byte> {
    if calls == [] then [] else calls[0].data + AllData(calls[1..])
  }

  /** After every sequence of calls that all succeed, whatever requests and answers come between them, the bytes on
      the wire followed by the buffered ones are exactly the bytes handed in, in order. */
  lemma {:induction false} SessionConserves(c: Link, calls: seq<Call>)
    requires |c.pending| < MAX_BUFFER && SessionSafe(c, calls)
    ensures var (c', ok) := Session(c, calls);
            ok ==> c'.wire + c'.pending == c.wire + c.pending + AllData(calls)
    decreases |calls|
  {
    if calls != [] {
      var c0 := Resume(c, calls[0].traffic);
      WriteConserves(c0, calls[0]);
      FillBounded(c0, calls[0].data);
      var (c1, ok) := Serve(c, calls[0]);
      if ok {
        SessionConserves(c1, calls[1..]);
      }
    }
  }

  /** With at most one response outstanding (and a message watermark above that), no purge ever fires. */
  ghost predicate Idle(c: Link) {
    c.purging || (c.responses < 2 && c.responses < c.msgMark)
  }

  lemma {:induction false} IdleTransmit(c: Link, rest: seq<Byte>)
    requires Idle(c)
    ensures var (c', ok) := Transmit(c, rest); ok ==> Idle(c') && c'.msgMark == c.msgMark
    decreases |c.attempts|
  {
    if rest != [] && c.attempts != [] {
      var c1 := c.(attempts := c.attempts[1..]);
      match c.attempts[0]
      case Sent(n) =>
        var k := Min(n, |rest|);
        IdleTransmit(Progress(c1, rest[..k]), rest[k..]);
      case Again(repacked, waited) =>
        assert Blocked(c1, repacked, waited).1 ==> Blocked(c1, repacked, waited).0 == c1;
        IdleTransmit(c1, rest);
      case _ => IdleTransmit(c1, rest);
    }
  }

  lemma IdleFlush(c: Link)
    requires Idle(c)
    ensures Safe(c) && (Flush(c).1 ==> Idle(Flush(c).0) && Flush(c).0.msgMark == c.msgMark)
  {
    IdleTransmit(c, c.pending);
  }

  lemma {:induction false} IdleFill(c: Link, data: seq<Byte>)
    requires |c.pending| < MAX_BUFFER && Idle(c)
    ensures FillSafe(c, data) && (Fill(c, data).1 ==> Idle(Fill(c, data).0) && Fill(c, data).0.msgMark == c.msgMark)
    decreases |data|
  {
    if data != [] {
      var k := Min(MAX_BUFFER - |c.pending|, |data|);
      var c1 := c.(pending := c.pending + data[..k]);
      if |c1.pending| < MAX_BUFFER {
        IdleFill(c1, data[k..]);
      } else {
        IdleFlush(c1);
        if Flush(c1).1 {
          IdleFill(Flush(c1).0, data[k..]);
        }
      }
    }
  }

  /** The counters a call finds leave no response but one outstanding. */
  predicate IdleTraffic(t: Traffic, msgMark: nat) {
    t.Now? ==> t.responses < 2 && t.responses < msgMark
  }

  lemma IdleWrite(c: Link, call: Call)
    requires |c.pending| < MAX_BUFFER && Idle(c)
    ensures WriteSafe(c, call)
    ensures var (c', ok) := Write(c, call.data, call.flush); ok ==> Idle(c') && c'.msgMark == c.msgMark
  {
    IdleFill(c, call.data);
    if Fill(c, call.data).1 {
      IdleFlush(Fill(c, call.data).0);
    }
  }

  /** So a client that waits for each answer before its next request loses and repeats nothing, whatever it
      writes and whatever the network does. */
  lemma {:induction false} IdleSessionIsSafe(c: Link, calls: seq<Call>)
    requires |c.pending| < MAX_BUFFER && Idle(c)
    requires forall i :: 0 <= i < |calls| ==> IdleTraffic(calls[i].traffic, c.msgMark)
    ensures SessionSafe(c, calls)
    decreases |calls|
  {
    if calls != [] {
      var call, c0 := calls[0], Resume(c, calls[0].traffic);
      IdleWrite(c0, call);
      FillBounded(c0, call.data);
      var (c1, ok) := Serve(c, call);
      if ok {
        IdleSessionIsSafe(c1, calls[1..]);
      }
    }
  }
}
