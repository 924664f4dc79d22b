/**
 The write side of a connection as the code runs it: a fixed buffer, an offset, and loops over partial writes.
 */
module WriteBuffer {
  import opened Basics
  import opened WriteModel
  import opened WriteProgress

  class Server {
    const writeBuffer: array<Byte>
    const msgMark: nat
    const byteMark: nat
    var writeBufferOffset: nat
    var ioBytesSent: Word
    var responses: nat
    var purging: bool

    // the environment: bytes taken so far, and what it will do next
    var wire: seq<Byte>
    var attempts: seq<Attempt>
    var drains: seq<Drain>

    ghost predicate Valid()
      reads this
    {
      writeBuffer.Length == MAX_BUFFER && writeBufferOffset <= MAX_BUFFER
    }

    ghost function View(): Link
      requires Valid()
      reads this, writeBuffer
    {
      Link(writeBuffer[..writeBufferOffset], wire, ioBytesSent, responses, purging, msgMark, byteMark, attempts, drains)
    }

    constructor (msgMark: nat, byteMark: nat, attempts: seq<Attempt>, drains: seq<Drain>)
      ensures Valid() && fresh(writeBuffer)
      ensures View() == Link([], [], 0, 0, false, msgMark, byteMark, attempts, drains)
    {
      writeBuffer := new Byte[MAX_BUFFER](_ => 0);
      this.msgMark, this.byteMark := msgMark, byteMark;
      writeBufferOffset, ioBytesSent, responses, purging := 0, 0, 0, false;
      wire, this.attempts, this.drains := [], attempts, drains;
    }

    /** memcached_quit_server, as far as the write side goes. */
    method QuitServer()
      requires Valid()
      modifies `writeBufferOffset, `responses
      ensures Valid() && View() == Quit(old(View()))
    {
      writeBufferOffset, responses := 0, 0;
    }

    method MemcachedPurge() returns (ok: bool)
      requires Valid()
      modifies this
      ensures Valid() && (View(), ok) == Purge(old(View()))
      decreases if purging then 0 else 1, |attempts|, 0
    {
      if purging
         || (responses < msgMark && ioBytesSent < byteMark)
         || (ioBytesSent >= byteMark && responses < 2) {
        return true;
      }
      purging := true;
      ok := IoFlush();  // memcached_io_write with nothing to add
      if !ok {
        purging := true;  // as in the source: a failed purge never clears the flag
        return false;
      }
      if responses != 1 {
        if drains == [] || !drains[0].ok {
          QuitServer();
          ok := false;
        } else {
          responses, ioBytesSent, drains := drains[0].responses, drains[0].sent, drains[1..];
        }
      }
      purging := false;
    }

    method IoFlush() returns (ok: bool)
      requires Valid()
      modifies this
      ensures Valid() && (View(), ok) == Flush(old(View()))
      decreases if purging then 0 else 1, |attempts|, 3
    {
      ok := MemcachedPurge();
      if !ok {
        return false;
      }
      if writeBufferOffset == 0 {
        return true;
      }
      ok := SendLoop();
    }

    /** One write(2) on `length` bytes at `from`: the environment takes a prefix of them. */
    method TakeSome(from: nat, length: nat, n: nat) returns (k: nat)
      requires Valid() && from + length <= MAX_BUFFER
      modifies `wire, `ioBytesSent
      ensures Valid() && k == Min(n, length)
      ensures View() == Progress(old(View()), writeBuffer[..][from..from + length][..k])
      ensures writeBuffer[..][from + k..from + length] == writeBuffer[..][from..from + length][k..]
    {
      k := Min(n, length);
      assert writeBuffer[..][from..from + length][..k] == writeBuffer[from..from + k];
      wire := wire + writeBuffer[from..from + k];
      ioBytesSent := (ioBytesSent + k) % TWO_32;
    }

    /** EAGAIN: go on if the input buffer took something in, otherwise purge and poll. */
    method WaitToWrite(repacked: bool, waited: bool) returns (ok: bool)
      requires Valid()
      modifies this
      ensures Valid() && (View(), ok) == Blocked(old(View()), repacked, waited)
      decreases if purging then 0 else 1, |attempts|, 1
    {
      if repacked {
        return true;
      }
      ok := MemcachedPurge();
      ok := ok && waited;
      if !ok {
        QuitServer();
      }
    }

    /** One turn of the loop of io_flush, on the writeLength bytes at localWritePtr; `more` if the loop goes on. */
    method SendOnce(localWritePtr: nat, writeLength: nat) returns (ptr: nat, length: nat, more: bool)
      requires Valid() && 0 < writeLength && localWritePtr + writeLength <= MAX_BUFFER
      modifies this
      ensures Valid() && ptr + length <= MAX_BUFFER && (more ==> purging == old(purging))
      ensures |attempts| <= |old(attempts)| && (more ==> |attempts| < |old(attempts)|)
      ensures var before := Transmit(old(View()), writeBuffer[..][localWritePtr..localWritePtr + writeLength]);
              if more then Transmit(View(), writeBuffer[..][ptr..ptr + length]) == before else (View(), false) == before
      decreases if purging then 0 else 1, |attempts|, 1
    {
      ptr, length, more := localWritePtr, writeLength, true;
      if attempts == [] {
        QuitServer();
        more := false;
        return;
      }
      var attempt := attempts[0];
      attempts := attempts[1..];
      match attempt {
        case Sent(n) =>
          ghost var rest := writeBuffer[..][ptr..ptr + length];
          var k := TakeSome(ptr, length, n);
          ptr, length := ptr + k, length - k;
          assert writeBuffer[..][ptr..ptr + length] == rest[k..];
        case NoBuffers =>
        case Again(repacked, waited) =>
          more := WaitToWrite(repacked, waited);
        case Broken =>
          QuitServer();
          more := false;
      }
    }

    /** The loop of io_flush. */
    method SendLoop() returns (ok: bool)
      requires Valid()
      modifies this
      ensures Valid() && (View(), ok) == Transmit(old(View()), old(View()).pending)
      decreases if purging then 0 else 1, |attempts|, 2
    {
      var localWritePtr: nat, writeLength: nat := 0, writeBufferOffset;
      ghost var start, buf := View(), writeBuffer[..];
      assert buf[0..writeBufferOffset] == start.pending;
      while writeLength > 0
        invariant writeBuffer[..] == buf
        invariant Valid() && localWritePtr + writeLength <= MAX_BUFFER
        invariant purging == start.purging && |attempts| <= |start.attempts|
        invariant Transmit(View(), buf[localWritePtr..localWritePtr + writeLength]) == Transmit(start, start.pending)
        decreases |attempts|
      {
        localWritePtr, writeLength, ok := SendOnce(localWritePtr, writeLength);
        if !ok {
          return;
        }
      }
      assert buf[localWritePtr..localWritePtr + writeLength] == [];
      writeBufferOffset := 0;
      ok := true;
    }

    /** The memcpy of _io_write. */
    method CopyIn(part: seq<Byte>)
      requires Valid() && writeBufferOffset + |part| <= MAX_BUFFER
      modifies `writeBufferOffset, writeBuffer
      ensures Valid() && View() == old(View()).(pending := old(View()).pending + part)
    {
      forall i | 0 <= i < |part| {
        writeBuffer[writeBufferOffset + i] := part[i];
      }
      writeBufferOffset := writeBufferOffset + |part|;
    }

    /** _io_write: copy into the buffer, flushing whenever it fills up, and once more if asked to. */
    method IoWrite(buffer: seq<Byte>, withFlush: bool) returns (ok: bool)
      requires Valid() && writeBufferOffset < MAX_BUFFER
      modifies this, writeBuffer
      ensures Valid() && (View(), ok) == Write(old(View()), buffer, withFlush)
      ensures ok ==> writeBufferOffset < MAX_BUFFER
    {
      var bufferPtr: nat, length: nat := 0, |buffer|;
      ghost var start := View();
      FillBounded(start, buffer);
      assert buffer[0..] == buffer;
      while length > 0
        invariant Valid() && writeBufferOffset < MAX_BUFFER && bufferPtr + length == |buffer|
        invariant Fill(View(), buffer[bufferPtr..]) == Fill(start, buffer)
      {
        var shouldWrite := Min(MAX_BUFFER - writeBufferOffset, length);
        CopyIn(buffer[bufferPtr..][..shouldWrite]);
        assert buffer[bufferPtr..][shouldWrite..] == buffer[bufferPtr + shouldWrite..];
        bufferPtr, length := bufferPtr + shouldWrite, length - shouldWrite;
        if writeBufferOffset == MAX_BUFFER {
          ok := IoFlush();
          if !ok {
            return;
          }
        }
      }
      assert buffer[bufferPtr..] == [];
      ok := true;
      if withFlush {
        ok := IoFlush();
      }
    }

    /** memcached_io_writev: the vectors one after the other, then one flush. */
    method IoWritev(vector: seq<seq<Byte>>, withFlush: bool) returns (ok: bool)
      requires Valid() && writeBufferOffset < MAX_BUFFER
      modifies this, writeBuffer
      ensures Valid()
      ensures old(SessionSafe(View(), VectorCalls(vector, withFlush))) && ok ==>
                wire + writeBuffer[..writeBufferOffset] ==
                old(wire) + old(writeBuffer[..writeBufferOffset]) + AllData(VectorCalls(vector, withFlush))
      ensures (View(), ok) == Session(old(View()), VectorCalls(vector, withFlush))
    {
      ghost var calls := VectorCalls(vector, withFlush);
      ghost var start := View();
      if SessionSafe(start, calls) {
        SessionConserves(start, calls);
      }
      assert calls[0..] == calls;
      for x := 0 to |vector|
        invariant Valid() && writeBufferOffset < MAX_BUFFER
        invariant Session(View(), calls[x..]) == Session(start, calls)
      {
        assert calls[x] == Call(vector[x], false, Unchanged) && calls[x..][1..] == calls[x + 1..];
        FillBounded(View(), vector[x]);
        ok := IoWrite(vector[x], false);
        if !ok {
          return;
        }
      }
      ok := true;
      if withFlush {
        assert calls[|vector|..] == [Call([], true, Unchanged)];
        FillBounded(View(), []);
        ok := IoWrite([], true);
      } else {
        assert calls[|vector|..] == [];
      }
    }

    /** Requests are counted and answers read between calls. */
    method Exchange(t: Traffic)
      requires Valid()
      modifies `responses, `ioBytesSent
      ensures Valid() && View() == Resume(old(View()), t)
    {
      if t.Now? {
        responses, ioBytesSent := t.responses, t.sent;
      }
    }

    /** A whole session of memcached_io_write calls: in safe states wire plus buffer grows by exactly the bytes given,
        over any number of requests. */
    method WriteAll(calls: seq<Call>) returns (ok: bool)
      requires Valid() && writeBufferOffset < MAX_BUFFER
      modifies this, writeBuffer
      ensures Valid() && (View(), ok) == Session(old(View()), calls)
      ensures old(SessionSafe(View(), calls)) && ok ==>
                wire + writeBuffer[..writeBufferOffset] ==
                old(wire) + old(writeBuffer[..writeBufferOffset]) + AllData(calls)
      ensures old(CalmSession(View(), calls)) ==>
                (ok <==> SendSizes(old(attempts), SessionSizes(old(writeBufferOffset), calls)).Left?)
    {
      ghost var start := View();
      if SessionSafe(start, calls) {
        SessionConserves(start, calls);
      }
      if CalmSession(start, calls) {
        SessionSucceedsIff(start, calls);
      }
      assert calls[0..] == calls;
      for x := 0 to |calls|
        invariant Valid() && writeBufferOffset < MAX_BUFFER
        invariant Session(View(), calls[x..]) == Session(start, calls)
      {
        assert calls[x..][1..] == calls[x + 1..];
        Exchange(calls[x].traffic);
        FillBounded(View(), calls[x].data);
        ok := IoWrite(calls[x].data, calls[x].flush);
        if !ok {
          return;
        }
      }
      ok := true;
    }
  }

  /** The calls that a gathered write amounts to. */
  function VectorCalls(vector: seq<seq<Byte>>, withFlush: bool): seq<Call> {
    seq(|vector|, i requires 0 <= i < |vector| => Call(vector[i], false, Unchanged))
    + (if withFlush then [Call([], true, Unchanged)] else [])
  }
}
