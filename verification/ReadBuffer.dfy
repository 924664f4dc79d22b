/**
 The read side of a connection: a fixed buffer refilled by partial reads, from which callers take bytes and lines.

 The peer's bytes not read yet are `incoming`; `arrivals` says how each read(2) will go.
 */
module ReadBuffer {
  import opened Basics

  const NEWLINE: Byte := 10

  /** The outcome of one read(2): at most n bytes, EAGAIN or EINTR followed by a wait, or a hard error.
      No byte at all means that the peer closed the connection. */
  datatype Arrival = Got(n: nat) | Blocked(waited: bool) | Failed

  /** Endless stands for a call that never returns. */
  datatype Result = Success | ReadFailure | ProtocolError | Endless

  ghost predicate NoNewline(s: seq<Byte>) {
    NEWLINE !in s
  }

  /** `line` is a run of bytes that ends in its only newline if `complete`, and has none otherwise. */
  ghost predicate Scanned(line: seq<Byte>, complete: bool) {
    if complete then line != [] && line[|line| - 1] == NEWLINE && NoNewline(line[..|line| - 1])
    else NoNewline(line)
  }

  lemma ScannedMore(a: seq<Byte>, b: seq<Byte>, complete: bool)
    requires Scanned(a, false) && Scanned(b, complete)
    ensures Scanned(a + b, complete)
  {
    if complete {
      assert (a + b)[..|a + b| - 1] == a + b[..|b| - 1];
    }
  }

  /** Some newline comes before position n of the stream. */
  ghost predicate NewlineBefore(stream: seq<Byte>, n: int) {
    exists p :: 0 <= p < n && p < |stream| && stream[p] == NEWLINE
  }

  /** There is room, or something to look at before the first read. */
  predicate Usable(size: nat, buffered: nat) {
    size > 0 || buffered > 0
  }

  lemma LineOutcome(stream: seq<Byte>, line: seq<Byte>, complete: bool, size: nat)
    requires line <= stream && |line| <= size
    requires if complete then |line| < size && Scanned(line, true)
             else |line| == size && (size > 0 ==> NoNewline(line[..size - 1]))
    ensures complete <==> NewlineBefore(stream, size - 1)
  {
    if complete {
      assert stream[|line| - 1] == line[|line| - 1];
    } else {
      assert forall p :: 0 <= p < size - 1 ==> stream[p] == line[..size - 1][p];
    }
  }

  // ----- what the network brings -----

  /** How many bytes a read(2) into the empty buffer could bring. */
  function Brings(a: Arrival): nat { if a.Got? then Min(a.n, MAX_BUFFER) else 0 }

  /** A hard error, a wait that comes to nothing, or the end of the stream. */
  predicate Ends(a: Arrival) {
    a.Failed? || a == Blocked(false) || a == Got(0)
  }

  /** What the arrivals before the first that ends it could bring. */
  function Coming(arrivals: seq<Arrival>): nat {
    if arrivals == [] || Ends(arrivals[0]) then 0 else Brings(arrivals[0]) + Coming(arrivals[1..])
  }

  /** That is the sum over some number of arrivals that do not end it, and no such sum is larger. */
  lemma {:induction false} ComingIs(arrivals: seq<Arrival>) returns (p: nat)
    ensures p <= |arrivals| && (forall i :: 0 <= i < p ==> !Ends(arrivals[i])) && (p < |arrivals| ==> Ends(arrivals[p]))
    ensures Coming(arrivals) == Total(Brings, arrivals[..p])
  {
    if arrivals == [] || Ends(arrivals[0]) {
      p := 0;
    } else {
      var q := ComingIs(arrivals[1..]);
      p := q + 1;
      assert arrivals[..p][1..] == arrivals[1..][..q];
    }
  }

  /** How many bytes of the stream a line of at most `size` bytes takes: up to its newline, or all it may. */
  ghost function LineNeeds(stream: seq<Byte>, size: nat): (m: nat)
    ensures m <= size && (size > 0 ==> m > 0)
  {
    if size == 0 then 0
    else if stream != [] && stream[0] == NEWLINE then 1
    else 1 + LineNeeds(if stream == [] then [] else stream[1..], size - 1)
  }

  lemma NewlineEnds(line: seq<Byte>, complete: bool)
    requires Scanned(line, complete) && line != []
    ensures line[0] != NEWLINE || (complete && |line| == 1)
  {
    if complete && |line| > 1 {
      assert line[0] == line[..|line| - 1][0];
    }
  }

  /** Without a newline a line takes what it may; with one, it ends there. */
  lemma {:induction false} LineNeedsIs(stream: seq<Byte>, line: seq<Byte>, complete: bool, size: nat)
    requires line <= stream && |line| <= size && Scanned(line, complete)
    ensures complete ==> LineNeeds(stream, size) == |line|
    ensures !complete && (|line| == size || line == stream) ==> LineNeeds(stream, size) == size
    ensures !complete && |line| < size ==> LineNeeds(stream, size) > |line|
    decreases |line|
  {
    if line == [] {
      if stream == [] {
        NoLine(size);
      }
    } else if stream[0] == NEWLINE {
      assert line[0] == NEWLINE;
      NewlineEnds(line, complete);
    } else {
      if complete {
        assert line[1..][..|line| - 2] == line[..|line| - 1][1..];
      }
      LineNeedsIs(stream[1..], line[1..], complete, size - 1);
    }
  }

  lemma {:induction false} NoLine(size: nat)
    ensures LineNeeds([], size) == size
  {
    if size > 0 {
      NoLine(size - 1);
    }
  }

  class Server {
    const readBuffer: array<Byte>
    var readPtr: nat
    var readBufferLength: nat
    var readDataLength: nat
    var incoming: seq<Byte>
    var arrivals: seq<Arrival>

    ghost predicate Valid()
      reads this
    {
      readBuffer.Length == MAX_BUFFER && readPtr + readBufferLength == readDataLength <= MAX_BUFFER
    }

    ghost function Buffered(): seq<Byte>
      requires Valid()
      reads this, readBuffer
    {
      readBuffer[readPtr..readPtr + readBufferLength]
    }

    /** All bytes of the stream that no caller has received yet, in order. */
    ghost function Unread(): seq<Byte>
      requires Valid()
      reads this, readBuffer
    {
      Buffered() + incoming
    }

    constructor (incoming: seq<Byte>, arrivals: seq<Arrival>)
      ensures Valid() && fresh(readBuffer) && Unread() == incoming
    {
      readBuffer := new Byte[MAX_BUFFER](_ => 0);
      readPtr, readBufferLength, readDataLength := 0, 0, 0;
      this.incoming, this.arrivals := incoming, arrivals;
    }

    /** The environment's read(2) into the buffer at `start`: the next bytes of the stream, as many as it likes. */
    method ReadInto(start: nat, n: nat) returns (k: nat)
      requires readBuffer.Length == MAX_BUFFER && start <= MAX_BUFFER
      modifies `incoming, readBuffer
      ensures k == Min(n, Min(MAX_BUFFER - start, |old(incoming)|))
      ensures readBuffer[..start] == old(readBuffer[..start])
      ensures readBuffer[start..start + k] == old(incoming)[..k] && incoming == old(incoming)[k..]
    {
      k := Min(n, Min(MAX_BUFFER - start, |incoming|));
      forall i | 0 <= i < k {
        readBuffer[start + i] := incoming[i];
      }
      assert readBuffer[start..start + k] == incoming[..k];
      incoming := incoming[k..];
    }

    method MoveToFront()
      requires Valid()
      modifies `readPtr, `readDataLength, readBuffer
      ensures Valid() && readPtr == 0 && Buffered() == old(Buffered())
    {
      if readPtr != 0 {
        forall i | 0 <= i < readBufferLength {
          readBuffer[i] := readBuffer[readPtr + i];
        }
        readPtr := 0;
        readDataLength := readBufferLength;
      }
    }

    /** Reads into the room behind what is buffered at the front. */
    method ReadBehind(n: nat) returns (k: nat)
      requires Valid() && readPtr == 0
      modifies `incoming, `readDataLength, `readBufferLength, readBuffer
      ensures Valid() && readPtr == 0 && Unread() == old(Unread())
      ensures k == Min(n, Min(MAX_BUFFER - old(readBufferLength), |old(incoming)|))
      ensures readBufferLength == old(readBufferLength) + k
    {
      k := ReadInto(readDataLength, n);
      assert readBuffer[..readDataLength + k] ==
             readBuffer[..readDataLength] + readBuffer[readDataLength..readDataLength + k];
      if k > 0 {
        readDataLength, readBufferLength := readDataLength + k, readBufferLength + k;
      }
    }

    /** Reads into the empty buffer. */
    method ReadFresh(n: nat) returns (k: nat)
      requires Valid() && readBufferLength == 0
      modifies `incoming, `readPtr, `readDataLength, `readBufferLength, readBuffer
      ensures Valid() && Unread() == old(Unread())
      ensures k == readBufferLength == Min(n, Min(MAX_BUFFER, |old(incoming)|)) && |incoming| == |old(incoming)| - k
    {
      k := ReadInto(0, n);
      if k > 0 {
        readDataLength, readBufferLength, readPtr := k, k, 0;
      }
    }

    /** repack_input_buffer: move the unread bytes to the front and read once into the room behind them. */
    method RepackInputBuffer() returns (progress: bool)
      requires Valid()
      modifies this, readBuffer
      ensures Valid() && readPtr == 0
      ensures Unread() == old(Unread())
      ensures progress <==> readBufferLength > old(readBufferLength)
      ensures old(readBufferLength < MAX_BUFFER && arrivals != []) ==>
                && arrivals == old(arrivals)[1..]
                && readBufferLength == old(readBufferLength + Room(arrivals[0], MAX_BUFFER - readBufferLength))
    {
      MoveToFront();
      progress := false;
      if readBufferLength != MAX_BUFFER && arrivals != [] {
        var arrival := arrivals[0];
        arrivals := arrivals[1..];
        if arrival.Got? {
          var k := ReadBehind(arrival.n);
          progress := k > 0;
        }
      }
    }

    /** What read(2) brings into that much room. */
    ghost function Room(a: Arrival, room: nat): nat
      reads this
    {
      if a.Got? then Min(a.n, Min(room, |incoming|)) else 0
    }

    /** How many bytes can be had in all: those buffered, and those of the stream that come. */
    ghost function Supply(): nat
      reads this
    {
      readBufferLength + Min(Coming(arrivals), |incoming|)
    }

    /** The next read(2) brings more than one byte. */
    ghost predicate Burst()
      reads this
    {
      arrivals != [] && arrivals[0].Got? && arrivals[0].n >= 2 && |incoming| >= 2
    }

    /** The refill loop of memcached_io_read. */
    method Refill() returns (rc: Result)
      requires Valid() && readBufferLength == 0
      modifies this, readBuffer
      ensures (rc == Success || rc == ReadFailure) && |arrivals| <= |old(arrivals)|
      ensures rc == Success ==>
                Valid() && readBufferLength > 0 && Unread() == old(Unread()) && |arrivals| < |old(arrivals)|
      ensures Supply() == old(Supply()) || rc == ReadFailure
      ensures rc == ReadFailure ==> old(Supply()) == 0
      ensures old(Burst()) ==> rc == Success && readBufferLength >= 2
    {
      while true
        invariant Valid() && readBufferLength == 0 && incoming == old(incoming) && |arrivals| <= |old(arrivals)|
        invariant Supply() == old(Supply())
        invariant old(Burst()) ==> arrivals == old(arrivals)
        decreases |arrivals|
      {
        if arrivals == [] {
          return ReadFailure;
        }
        var arrival := arrivals[0];
        arrivals := arrivals[1..];
        match arrival
        case Got(n) =>
          var k := ReadFresh(n);
          return if k == 0 then ReadFailure else Success;
        case Blocked(waited) =>
          if !waited {
            return ReadFailure;
          }
        case Failed =>
          return ReadFailure;
      }
    }

    /** Hands the next n buffered bytes to the caller. */
    method Take(n: nat) returns (bytes: seq<Byte>)
      requires Valid() && n <= readBufferLength
      modifies `readPtr, `readBufferLength
      ensures Valid() && readBufferLength == old(readBufferLength) - n
      ensures |bytes| == n && old(Unread()) == bytes + Unread() && Supply() == old(Supply()) - n
    {
      bytes := readBuffer[readPtr..readPtr + n];
      readPtr, readBufferLength := readPtr + n, readBufferLength - n;
    }

    /** memcached_io_read: success delivers exactly the next `length` bytes of the stream and takes no others. */
    method IoRead(length: nat) returns (rc: Result, buffer: seq<Byte>)
      requires Valid()
      modifies this, readBuffer
      ensures (rc == Success || rc == ReadFailure) && |buffer| <= length && buffer <= old(Unread())
      ensures |arrivals| <= |old(arrivals)|
      ensures rc == Success && length > 0 && old(readBufferLength) == 0 ==> |arrivals| < |old(arrivals)|
      ensures rc == ReadFailure ==> |buffer| < length
      ensures rc == Success <==> length <= old(Supply())
      ensures rc == Success ==> Supply() == old(Supply()) - length
      ensures length == 1 && old(readBufferLength) == 0 && old(Burst()) ==> rc == Success && readBufferLength > 0
      ensures rc == Success ==> Valid() && |buffer| == length && old(Unread()) == buffer + Unread()
    {
      buffer := [];
      ghost var stream := Unread();
      while |buffer| < length
        invariant Valid() && |buffer| <= length && stream == buffer + Unread() && |arrivals| <= |old(arrivals)|
        invariant Supply() == old(Supply()) - |buffer|
        invariant old(readBufferLength) == 0 ==>
                    if buffer == [] then readBufferLength == 0 else |arrivals| < |old(arrivals)|
        invariant length == 1 && old(readBufferLength) == 0 && old(Burst()) ==>
                    if buffer == [] then Burst() else readBufferLength > 0
        decreases length - |buffer|
      {
        if readBufferLength == 0 {
          rc := Refill();
          if rc != Success {
            return;
          }
        }
        var left := length - |buffer|;
        var part := Take(if left > 1 then Min(left, readBufferLength) else 1);
        Assoc(buffer, part, Unread());
        buffer := buffer + part;
      }
      rc := Success;
    }

    /** The inner loop of memcached_io_readline: copies buffered bytes until a newline, the end of the buffered
        bytes or the size limit. */
    method CopyLine(size: nat) returns (complete: bool, buffer: seq<Byte>)
      requires Valid()
      modifies `readPtr, `readBufferLength
      ensures Valid() && |buffer| <= size && old(Unread()) == buffer + Unread()
      ensures Scanned(buffer, complete) && Supply() == old(Supply()) - |buffer|
      ensures complete || readBufferLength == 0 || |buffer| == size
    {
      complete, buffer := false, [];
      ghost var stream := Unread();
      while readBufferLength > 0 && |buffer| < size && !complete
        invariant Valid() && |buffer| <= size && stream == buffer + Unread()
        invariant Scanned(buffer, complete) && Supply() == old(Supply()) - |buffer|
        decreases readBufferLength
      {
        var part := Take(1);
        complete := part[0] == NEWLINE;
        ScannedMore(buffer, part, complete);
        Assoc(buffer, part, Unread());
        buffer := buffer + part;
      }
    }

    /** One round of the outer loop, `total` bytes into the line: one byte by way of memcached_io_read if nothing is
        buffered, then the buffered bytes.  Behind `size` a round with bytes buffered changes nothing. */
    method LineRound(size: nat, total: nat) returns (rc: Result, complete: bool, part: seq<Byte>)
      requires Valid()
      modifies this, readBuffer
      ensures rc == Success || (rc == ReadFailure && part == [] && old(readBufferLength) == 0)
      ensures rc == ReadFailure ==> old(Supply()) == 0
      ensures rc == Success ==> Valid() && old(Unread()) == part + Unread() && Scanned(part, complete)
      ensures rc == Success ==> Supply() == old(Supply()) - |part|
      ensures rc == Success && total < size ==> part != [] && |part| <= size - total
      ensures rc == Success && total >= size && old(readBufferLength) == 0 ==>
                |part| == 1 && |arrivals| < |old(arrivals)|
      ensures total >= size && old(readBufferLength) == 0 && old(Burst()) ==> rc == Success && readBufferLength > 0
      ensures total >= size && old(readBufferLength) > 0 ==>
                && rc == Success && part == [] && !complete
                && Untouched(old(readPtr), old(readBufferLength), old(incoming))
                && arrivals == old(arrivals) && readBuffer[..] == old(readBuffer[..])
    {
      rc, complete, part := Success, false, [];
      if readBufferLength == 0 {
        rc, part := IoRead(1);
        if rc != Success {
          return;
        }
        complete := part[0] == NEWLINE;
      }
      if !complete && total + |part| < size {
        var more;
        complete, more := CopyLine(size - total - |part|);
        ScannedMore(part, more, complete);
        Assoc(part, more, Unread());
        part := part + more;
      }
    }

    ghost predicate Untouched(ptr: nat, length: nat, stream: seq<Byte>)
      reads this
    {
      readPtr == ptr && readBufferLength == length && incoming == stream
    }

    /** memcached_io_readline: takes bytes up to and including the first newline.  With room, or with something
        buffered, it succeeds only if that newline comes before position size - 1, reports a protocol error only if it
        does not, consumes and stores exactly the bytes it looked at, and never writes at or behind `size`.  With
        size 0 and nothing buffered it stores every byte it reads, and as soon as a byte that is no newline leaves
        others buffered behind it, every further round is one that changes nothing. */
    method IoReadline(size: nat) returns (rc: Result, buffer: seq<Byte>)
      requires Valid()
      modifies this, readBuffer
      ensures buffer <= old(Unread())
      ensures |buffer| <= size <==> !(size == 0 && old(readBufferLength) == 0 && buffer != [])
      ensures rc != ReadFailure ==> Valid() && old(Unread()) == buffer + Unread()
      ensures Usable(size, old(readBufferLength)) ==> rc != Endless
      ensures Usable(size, old(readBufferLength)) && rc != ReadFailure ==>
                (rc == Success <==> NewlineBefore(old(Unread()), size - 1))
      ensures rc == Success ==> Scanned(buffer, true) && (Usable(size, old(readBufferLength)) ==> |buffer| < size)
      ensures rc == ProtocolError ==>
                Usable(size, old(readBufferLength)) && |buffer| == size && (size > 0 ==> NoNewline(buffer[..size - 1]))
      ensures rc == ReadFailure ==> Scanned(buffer, false) && (size > 0 ==> |buffer| < size)
      ensures Usable(size, old(readBufferLength)) ==>
                (rc == ReadFailure <==> old(LineNeeds(Unread(), size) > Supply()))
      ensures rc == Endless ==> buffer != [] && NoNewline(buffer) && readBufferLength > 0
      ensures size == 0 && old(readBufferLength) == 0 && old(Burst() && incoming[0] != NEWLINE) ==> rc == Endless
    {
      var lineComplete := false;
      buffer := [];
      ghost var stream := Unread();
      while !lineComplete
        invariant Valid() && stream == buffer + Unread() && Supply() == old(Supply()) - |buffer|
        invariant size > 0 ==> |buffer| < size
        invariant size == 0 ==> if old(readBufferLength) > 0 then buffer == [] && readBufferLength > 0
                                else buffer != [] || readBufferLength == 0
        invariant size == 0 && old(readBufferLength) > 0 ==> !lineComplete
        invariant lineComplete ==> buffer != []
        invariant Scanned(buffer, lineComplete)
        invariant size == 0 && old(readBufferLength) == 0 && old(Burst() && incoming[0] != NEWLINE) ==>
                    if buffer == [] then Burst() && readBufferLength == 0 && Unread()[0] != NEWLINE && !lineComplete
                    else readBufferLength > 0 && !lineComplete
        decreases !lineComplete, if size > 0 then size - |buffer| else |arrivals|
      {
        var part;
        rc, lineComplete, part := LineRound(size, |buffer|);
        if rc != Success {
          if size > 0 {
            LineNeedsIs(stream, buffer, false, size);
          }
          return;
        }
        ScannedMore(buffer, part, lineComplete);
        Assoc(buffer, part, Unread());
        var stuck := part == [] && buffer != [];
        buffer := buffer + part;
        if |buffer| == size {
          assert size > 0 ==> NoNewline(buffer[..size - 1]);
          LineOutcome(stream, buffer, false, size);
          return ProtocolError, buffer;
        }
        if stuck {
          return Endless, buffer;
        }
      }
      if size > 0 {
        LineOutcome(stream, buffer, true, size);
        LineNeedsIs(stream, buffer, true, size);
      }
      rc := Success;
    }

    /** memcached_safe_read: the same for a whole buffer, in as many reads as it takes. */
    method SafeRead(size: nat) returns (rc: Result, data: seq<Byte>)
      requires Valid()
      modifies this, readBuffer
      ensures rc == Success || rc == ReadFailure
      ensures rc == Success ==> Valid() && |data| == size && old(Unread()) == data + Unread()
      ensures rc == Success <==> size <= old(Supply())
    {
      data := [];
      ghost var stream := Unread();
      while |data| < size
        invariant Valid() && |data| <= size && stream == data + Unread() && Supply() == old(Supply()) - |data|
      {
        var part;
        rc, part := IoRead(size - |data|);
        if rc != Success {
          return;
        }
        Assoc(data, part, Unread());
        data := data + part;
      }
      rc := Success;
    }
  }
}
