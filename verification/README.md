# Verified model of the bundled libmemcached core

A Dafny model of the parts of libmemcached (as bundled under `src/libmemcached`) whose correctness spans many calls,
with proofs over every input, every run and every choice of the environment. `dafny verify dfyconfig.toml` checks
everything.

* **Item store and command handlers.** `Storage` is the circular, doubly linked list with a moving root; `Rows` reads it
  as rows in list order; `StoreModel` is the same store as a map with one pure transition per protocol command.
  `HandlersV1` and `HandlersV0` are the two binary handler sets, each proved to make exactly the map transition, so over
  every sequence of calls the list stays a ring with distinct keys. `ItemHistory` proves what a key holds after any run and
  what a get returns, `CasHistory` what a CAS token promises, `CounterHistory` what a counter holds.
* **Byte-stream buffering.** `WriteModel` and `WriteBuffer`: the write buffer, `io_flush`, and purge re-entering it;
  `WriteProgress`: when flushes, writes and sessions succeed. `ReadBuffer`: refilling, repacking, exact reads and lines. `GatherModel` and `ScatterGather`: iovec lists, datagram
  splitting, UDP headers, partial `sendmsg`. `UdpModel`, `UdpHistory`, `UdpCalls` and `UdpReassembly`: putting a response
  together from datagrams in any order, with pointers into a buffer that may move. The environment (how many bytes a call
  took, EAGAIN, what came in, whether memory moved) is an input, so each result holds for every schedule.
* **Consistent hashing and routing.** `ContinuumModel`, `ClientModel` and `Continuum`: building and sorting the
  continuum, weighted point counts, binary-search dispatch, and a client over time, with connections that fail or succeed,
  ejection, servers that are added and the rebuilds that come of it. `ServerHistory`: failures and retry times over runs.
  `MultiGet`: one command line per server.
  `ReplicaModel`, `ReplicaReach`, `ReplicaExact`, `ReplicaMget`: fan-out over replicas under any pattern of failures.
* **Hash kernels.** `Md5Rounds`, `Md5Stream`, `Md5Block`: streaming MD5 against RFC 1321. `Jenkins`: three read paths.
  `Crc32`: the table against the bit-by-bit CRC. `Words`, `ByteHashes`: FNV and one-at-a-time. `KnownValues`: the values
  that the repository's tests expect of five of the hashes for one key.

Code that changes things step by step is a class or a method with loops; its `ensures` ties the new state to a function
of the old one, and the lemmas are about that function. In-place state is kept in fields (`seq` and `array`), sockets,
clocks, allocation results and random numbers are parameters.

## What the proofs turned up

* `io_flush` conserves bytes under every schedule if and only if no purge can fire between its first and its last byte
  (`WriteModel.Safe`, a test on the counters before the call). Otherwise a purge inside `io_wait` flushes the whole buffer
  again and some schedule makes the flush succeed with bytes sent twice (`WriteModel.UnsafeFlushDuplicates`). A purge that
  fails leaves the purging flag set (purge.c:27), which the model keeps.
* In a multi-get over replicas a key can be left unsent although one of its replicas is alive, because a skipped dead
  server does not clear `success` (get.c:499-500). Take start s (0 without random starts), n servers and R replicas. No
  failures whatever can bring that about if and only if the call has no keys, or these two hold: s is a multiple of n or
  at most R + 1 - n (`ReplicaExact.Covering`), and no two keys have primary servers d apart with 1 <= d < min(R, n - 1)
  (`ReplicaExact.PromiseIff`). So with fewer replicas than servers no key is safe under a random start other than 0.
* With a random start s > 0 a key's own server is tried if and only if there are at least as many replicas as servers and
  the last offset that wraps around to it is among those tried (`ReplicaReach.OwnServerTried`).
* `ms_udp_read` reallocates the receive buffer without telling the packet table. When the buffer is about to move, all
  continuations return the response and nothing else if and only if every packet entered for good has been copied out or received once
  more, or the response is a single packet (`UdpCalls.MoveConservesIff`). Every response of 750 packets or more has a run
  from the start that returns what was not sent (`UdpCalls.LargeResponseSpoilt`). Since bytes are copied out only when a
  datagram has come (ms_conn.c:1610-1622), what has no room when the last packet comes stays behind
  (`UdpCalls.LastRoomDecides`).
* A UDP request that does not fit one datagram is refused (ms_conn.c:2197-2202): `GatherModel.FitsOne` says exactly which,
  and an empty piece behind 1392 full bytes is enough.
* In exact arithmetic, a live server in weighted mode has no point at all exactly when 40 * live * weight < total weight.
* Switching to weighted mode keeps an array made for 100 points a server. In exact arithmetic a rebuild with L live
  servers then writes behind its end exactly when the labels of the live servers, floor(40 L w / W) each, are more than
  25 per server the array was made for (`ContinuumModel.SwitchOverflows`); no weighting does so exactly while 8 L is at
  most 5 times that number of servers (`ContinuumModel.NoWeightingOverflows`).
* A server that fails alone is never ejected, however often and in whatever way it fails, unless a rebuild is asked for or
  a server added: a connect to it does nothing before its retry time, and after that the rebuild takes it for live
  (`ClientModel.LoneFailureStays`). Servers are ejected by the rebuilds that other failing servers bring about
  (`ClientModel.EjectionComesBack`). A closed server at its failure limit is never connected to again and its retry time
  never changes, so once that has passed every rebuild puts it on the continuum (`ClientModel.StuckForever`).
* Arithmetic on an item with no data reads through a null pointer, and an increment whose key is longer than 1024 bytes
  overruns a local buffer (interface_v1.c:119-122, 218, 231-232). `StoreModel.UndefinedIff` says exactly when, and
  `HandlersV1.Serve` serves a run up to such a command.
* A conditional set on a key that is gone succeeds: the token protects present keys only.
* `memcached_io_readline` with size 0 and nothing buffered stores every byte it reads, and never returns once a byte that
  is no newline leaves others buffered behind it (`ReadBuffer.Server.IoReadline`).
* `MD5Update` tests its loop in 32 bits: with b bytes buffered it is right if and only if b plus the length is below 2^32
  (`Md5Stream.Fits`); otherwise it goes on behind the input (`Md5Stream.Overrun`).

* `memcached_mget` forgets failures: each key that begins a line sets the return code anew (get.c:239-256), so the call
  succeeds exactly when some key has begun a line, no later one has failed, and all lines could be ended. If the server of
  the first key is down and the other keys go elsewhere, the call succeeds without that key (`MultiGet.FailureForgotten`).
* A purge whose own flush fails leaves the purging flag set, and with it no purge fires any more
  (`WriteProgress.FailedPurgeSticks`).
* In the benchmark client a message that gathers no bytes can never be sent: `sendmsg` takes nothing, and that counts as a
  hard error (ms_conn.c:2245-2287). A TCP request can be sent exactly when none of its messages is like that
  (`GatherModel.StreamCanComplete`); over UDP the header keeps this from happening (`GatherModel.DatagramCanComplete`).

## Model

| member | source | states |
|---|---|---|
| StoreModel.DecodeEncode | src/libmemcached/example/interface_v1.c:203-241 | storing a number and reading it back gives the number, for every width |
| StoreModel.EncodeAt | src/libmemcached/example/interface_v1.c:203-241 | a stored number has its lowest byte first |
| CounterHistory.CounterReadsBack | src/libmemcached/example/interface_v1.c:203-241 | the eight bytes an arithmetic command wrote are the number the next one reads, whatever lies behind the item |
| CounterHistory.OneCommand | src/libmemcached/example/interface_v1.c:104-241 | a command leaves and reports the tally: a first one the initial value, plus modulo 2^64, minus stopping at 0; flags become 0 and the expiry is kept; without memory the counter is lost |
| CounterHistory.CounterTracks | src/libmemcached/example/interface_v1.c:104-241 | over every run of arithmetic, reads, removals and commands on other keys the key holds the tally, from a free key on |
| CounterHistory.IncrementsAccumulate | src/libmemcached/example/interface_v1.c:203-241 | increments accumulate modulo 2^64 over every run that does not lose the counter |
| CounterHistory.DecrementThenIncrement | src/libmemcached/example/interface_v1.c:104-241 | a decrement and the same increment restore the counter if and only if the decrement did not go below 0 |
| ItemHistory.GetReturns | src/libmemcached/example/interface_v1.c:28-378 | over every run a get returns the data of the last set, add or replace on the key, with all pieces appended since behind it in order and all pieces prepended since in front, the latest first; flags and expiry are those of that command |
| ItemHistory.GetSucceedsIff | src/libmemcached/example/interface_v1.c:28-378 | and it finds the key if and only if nothing took it away since: a flush, a delete, or a command that deleted the item and then found no memory |
| ItemHistory.AnswerIs | src/libmemcached/example/interface_v1.c:28-378 | KEY_EEXISTS, KEY_ENOENT and ENOMEM each exactly under its condition on presence, token and memory |
| StoreModel.OverwriteAfterRemoval | src/libmemcached/example/interface_v1.c:341-378 | deleting the old item before storing makes no difference to the final map, CAS number or reply |
| StoreModel.UndefinedIff | src/libmemcached/example/interface_v1.c:117-234 | a command has no defined outcome if and only if it is arithmetic on an item without data, or an increment that makes an item for a key longer than 1024 bytes |
| StoreModel.RunStaysDefined | src/libmemcached/example/storage.c:72-106 | if nothing empty is ever stored and no incremented key is longer than 1024 bytes, every command of every run has a defined outcome |
| StoreModel.RunSnoc | src/libmemcached/example/interface_v1.c:28-378 | a run followed by one more command is the transition of that command on the run's result |
| Rows.MapOfFirst | src/libmemcached/example/storage.c:50-70 | walking the rows finds the first row with the key, and nothing exactly when there is none |
| Rows.MapOfRotated | src/libmemcached/example/storage.c:108-139 | dropping a row and reading the rest from behind it removes exactly its key from the map, whatever the new start |
| Rows.DistinctRotated | src/libmemcached/example/storage.c:108-139 | rotation by a deletion keeps keys pairwise distinct |
| Rows.DistinctAfterPut | src/libmemcached/example/storage.c:29-48 | a new first row with a free key keeps keys distinct and binds just that key |
| Storage.Storage.GetItem | src/libmemcached/example/storage.c:50-70 | returns the first entry from the root on with the key; null if and only if the map has no such key |
| Storage.Storage.PutItem | src/libmemcached/example/storage.c:29-48 | the ring stays well formed with the entry in front, numbered with the next CAS value |
| Storage.Storage.LinkFirst | src/libmemcached/example/storage.c:33-47 | the pointer surgery makes a circular doubly linked ring of the entry and the old ring |
| Storage.Storage.Unlink | src/libmemcached/example/storage.c:116-130 | the pointer surgery leaves the ring of all other entries, read from behind the removed one |
| Storage.Storage.DeleteItem | src/libmemcached/example/storage.c:108-139 | the ring and its rows are the old ones rotated to behind the first entry with the key; untouched if there is none |
| Storage.Storage.CreateAndPut | src/libmemcached/example/storage.c:72-106 | binds a free key in the map, keeping ring and distinct keys |
| Storage.Storage.Remove | src/libmemcached/example/storage.c:108-139 | removes the binding from the map, if there is one, keeping ring and distinct keys |
| Storage.Storage.Flush | src/libmemcached/example/storage.c:141-161 | the walk over the cut ring ends with an empty store and the CAS counter unchanged |
| HandlersV1.GetHandler | src/libmemcached/example/interface_v1.c:184-201 | returns the item the map holds, or KEY_ENOENT, and changes nothing |
| HandlersV1.AddHandler | src/libmemcached/example/interface_v1.c:28-60 | exactly the map transition of add, including exists and out-of-memory |
| HandlersV1.SetHandler | src/libmemcached/example/interface_v1.c:341-378 | exactly the map transition of set with its CAS test |
| HandlersV1.ReplaceHandler | src/libmemcached/example/interface_v1.c:299-339 | exactly the map transition of replace with its CAS test |
| HandlersV1.AppendHandler | src/libmemcached/example/interface_v1.c:62-102 | exactly the map transition of append, which puts the new data behind the old (`ItemHistory.GetReturns`) and keeps flags and expiry; the old item stays when there is no memory |
| HandlersV1.PrependHandler | src/libmemcached/example/interface_v1.c:248-292 | new data then old data, flags and expiry kept; the old item stays when there is no memory |
| HandlersV1.IncrementHandler | src/libmemcached/example/interface_v1.c:203-241 | adds modulo 2^64 or stores the initial value; drops flags, keeps expiry; undefined on an item without data and for a key longer than 1024 bytes |
| HandlersV1.DecrementHandler | src/libmemcached/example/interface_v1.c:104-144 | subtracts, stopping at 0, or stores the initial value; drops flags, keeps expiry; undefined on an item without data |
| HandlersV1.DeleteHandler | src/libmemcached/example/interface_v1.c:146-173 | removes the key unless the token disagrees; ENOENT when absent |
| HandlersV1.FlushHandler | src/libmemcached/example/interface_v1.c:176-182 | empties the map and keeps the counter |
| HandlersV1.Serve | src/libmemcached/example/interface_v1.c:28-378 | over every sequence of calls, up to the first one without a defined outcome if there is one, the list is a ring with distinct keys, is the map run, and every reply is the map's reply |
| HandlersV0.SetCommandHandler | src/libmemcached/example/interface_v0.c:333-394 | the map transition of set, with the reply conveyed silently only on a quiet success |
| HandlersV0.AddCommandHandler | src/libmemcached/example/interface_v0.c:396-446 | the map transition of add and how its reply reaches the client |
| HandlersV0.ReplaceCommandHandler | src/libmemcached/example/interface_v0.c:448-502 | the map transition of replace and how its reply reaches the client |
| HandlersV0.ConcatCommandHandler | src/libmemcached/example/interface_v0.c:265-331 | the map transition of append and prepend; failures are returned, not answered |
| HandlersV0.ConcatIs | src/libmemcached/example/interface_v0.c:265-331 | what APPEND and PREPEND do in terms of the request: which side the value goes to, and each refusal |
| HandlersV0.SetIs | src/libmemcached/example/interface_v0.c:333-394 | what SET does in terms of the request: its token test, then the item with its value, flags and expiry |
| HandlersV0.AddIs | src/libmemcached/example/interface_v0.c:396-446 | what ADD does in terms of the request |
| HandlersV0.ReplaceIs | src/libmemcached/example/interface_v0.c:448-502 | what REPLACE does in terms of the request |
| HandlersV0.BothLevels | src/libmemcached/example/interface_v0.c:265-502 | from equal contents both handler sets leave equal contents and CAS counters and report the same status, however their rings are ordered |
| CasHistory.ApplyKeepsCasInv | src/libmemcached/example/storage.c:163-166 | one command keeps present CAS values distinct and at most the counter |
| CasHistory.RunKeepsCasInv | src/libmemcached/example/storage.c:163-166 | so does every run whose stores cannot exhaust the 64-bit counter, and the counter counts the stores |
| CasHistory.NeverReissued | src/libmemcached/example/storage.c:163-166 | once a key is gone or renumbered, no later run gives it an old number |
| CasHistory.TokenTracksStores | src/libmemcached/example/interface_v1.c:62-102 | after any run a still-present key carries its old number if and only if nothing was stored under it since; then the item is the old one |
| CasHistory.ConditionalWrite | src/libmemcached/example/interface_v1.c:62-378 | after any run, set, replace, append, prepend and delete with a token are refused with KEY_EEXISTS, changing nothing, if and only if the key is present and was stored since; otherwise they act as without a token, so a set on a key that is gone succeeds |
| CasHistory.NumberTold | src/libmemcached/example/interface_v1.c:28-378 | the number in the answer to a store is that of the item the next get shows |
| WriteModel.TransmitConserves | src/libmemcached/libmemcached/io.c:602-661 | for every schedule of partial writes and retries without a purge, a successful send loop puts exactly the remaining bytes on the wire |
| WriteModel.NestedFlushConserves | src/libmemcached/libmemcached/purge.c:9-31 | the flush that purge makes always conserves, since no second purge starts |
| WriteModel.FlushConserves | src/libmemcached/libmemcached/io.c:561-674 | a safe flush that succeeds sends the buffered bytes once and in order, including when purge empties the buffer first |
| WriteModel.UnsafeFlushDuplicates | src/libmemcached/libmemcached/io.c:26-112 | from every unsafe state some schedule makes the flush succeed with more bytes on the wire than were buffered |
| WriteModel.FlushConservesIff | src/libmemcached/libmemcached/io.c:561-674 | all schedules conserve if and only if the state before the call is safe |
| WriteModel.FillConserves | src/libmemcached/libmemcached/io.c:374-417 | the copy loop keeps wire plus buffer equal to all bytes given, across any number of flushes |
| WriteModel.WriteConserves | src/libmemcached/libmemcached/io.c:357-432 | the same for a whole write with or without its final flush |
| WriteModel.SessionConserves | src/libmemcached/libmemcached/io.c:357-466 | after every sequence of successful calls, with any requests counted and answers read between them, wire plus buffer is the concatenation of all buffers passed in |
| WriteModel.IdleSessionIsSafe | src/libmemcached/libmemcached/do.c:39-48 | if every call finds at most one response outstanding, and fewer than the message watermark, the whole session is safe, whatever is written and whatever the network does |
| WriteProgress.SendOneIff | src/libmemcached/libmemcached/io.c:602-661 | bytes get out if and only if the attempts before the first hard error or failed wait take them all; ENOBUFS, and EAGAIN with an answer read or a wait that succeeds, stop nothing |
| WriteProgress.TransmitSucceedsIff | src/libmemcached/libmemcached/io.c:602-661 | if no purge can come of a wait, the send loop succeeds if and only if that is so for its bytes |
| WriteProgress.TransmitIs | src/libmemcached/libmemcached/io.c:602-661 | and has then put them on the wire, used just those attempts and changed nothing else |
| WriteProgress.PurgedFlushIs | src/libmemcached/libmemcached/purge.c:3-31 | a flush that begins with a purge succeeds if and only if the buffer gets out and the answers due can be read |
| WriteProgress.FlushSucceedsIff | src/libmemcached/libmemcached/io.c:561-674 | a safe flush succeeds if and only if the attempts let the buffer out and, where a purge fires at its start, the answers due can be read |
| WriteProgress.WriteSucceedsIff | src/libmemcached/libmemcached/io.c:357-432 | where no purge fires, a write succeeds if and only if its flushes get out one after another: one for each time the buffer fills up, and a last one if asked for |
| WriteProgress.SessionSucceedsIff | src/libmemcached/libmemcached/io.c:357-466 | so does a session; the sizes of its flushes depend on the calls alone |
| WriteProgress.IdleSessionIsCalm | src/libmemcached/libmemcached/do.c:39-48 | the sessions of a client that waits for each answer are of that kind |
| WriteProgress.FailedFlushQuits | src/libmemcached/libmemcached/io.c:641-660 | a flush that fails leaves nothing to send and no answer due |
| WriteProgress.FailedPurgeSticks | src/libmemcached/libmemcached/purge.c:9-31 | a purge whose flush fails leaves the flag set, and no purge fires any more |
| WriteProgress.PurgeBounds | src/libmemcached/libmemcached/purge.c:3-31 | after a purge that gets through fewer than two responses are due, or fewer than the message watermark with fewer bytes out than the byte watermark |
| WriteProgress.FlushBounds | src/libmemcached/libmemcached/io.c:561-674 | after every flush that succeeds, with purges at any wait, fewer than two responses are due or fewer than the message watermark |
| WriteBuffer.Server.MemcachedPurge | src/libmemcached/libmemcached/purge.c:3-31 | the guard, nested flush and drain on the real fields are the model's purge |
| WriteBuffer.Server.IoFlush | src/libmemcached/libmemcached/io.c:561-674 | purge first, then the loop: the model's flush |
| WriteBuffer.Server.SendOnce | src/libmemcached/libmemcached/io.c:603-660 | one turn of the loop on the buffer between local pointer and remembered end |
| WriteBuffer.Server.SendLoop | src/libmemcached/libmemcached/io.c:580-666 | the loop over partial writes is the model's transmission of what was pending at its start |
| WriteBuffer.Server.IoWrite | src/libmemcached/libmemcached/io.c:357-432 | copying into the fixed buffer with flushes when full is the model's write |
| WriteBuffer.Server.IoWritev | src/libmemcached/libmemcached/io.c:440-466 | a gathered write is the session of its vectors; in safe states wire plus buffer grows by exactly the vectors |
| WriteBuffer.Server.WriteAll | src/libmemcached/libmemcached/do.c:39-48 | any number of requests, with traffic between them, is a session of the model; in safe states wire plus buffer grows by exactly the bytes given; where no purge fires all succeed if and only if the attempts let the flushes of the model out |
| ReadBuffer.Server.RepackInputBuffer | src/libmemcached/libmemcached/io.c:120-148 | moving and reading more never alters the unread bytes; reads once, as much as there is room for; reports progress exactly when more were read |
| ReadBuffer.Server.Refill | src/libmemcached/libmemcached/io.c:272-328 | on success something is buffered and the unread stream is unchanged; fails only if nothing more comes |
| ReadBuffer.Server.IoRead | src/libmemcached/libmemcached/io.c:263-355 | succeeds if and only if what is buffered and what the arrivals before the first that ends the stream bring is enough; then delivers exactly the next bytes asked for and takes no others; on failure a prefix |
| ReadBuffer.LineOutcome | src/libmemcached/libmemcached/io.c:709-754 | a scanned line is complete within the size if and only if some newline comes before position size - 1 |
| ReadBuffer.ComingIs | src/libmemcached/libmemcached/io.c:272-328 | what comes is the sum of the arrivals up to the first hard error, failed wait or end of stream, successful waits skipped |
| ReadBuffer.LineNeedsIs | src/libmemcached/libmemcached/io.c:709-754 | a line takes the bytes up to its newline, or without one all it may |
| ReadBuffer.Server.LineRound | src/libmemcached/libmemcached/io.c:716-751 | one round takes bytes up to the first newline or the size limit; behind the limit a round with bytes buffered changes nothing |
| ReadBuffer.Server.IoReadline | src/libmemcached/libmemcached/io.c:709-754 | with room or bytes buffered: never stores beyond size, fails to read if and only if fewer bytes come than the line takes, succeeds if and only if a newline comes before position size - 1, consumes exactly the line it returns; otherwise stores all it reads, and is endless when a burst begins with no newline |
| ReadBuffer.Server.SafeRead | src/libmemcached/libmemcached/io.c:688-707 | succeeds if and only if enough comes, for every size; the data is then exactly the next size bytes of the stream |
| Md5Rounds.FourCalls | src/libmemcached/libhashkit/md5.c:230-310 | four macro calls with rotated registers are four steps of section 3.4 of RFC 1321 |
| Md5Rounds.Unrolled | src/libmemcached/libhashkit/md5.c:230-319 | the unrolled block function is the 64-step loop with the RFC's word order and shifts |
| Md5Stream.AbsorbConcat | src/libmemcached/libhashkit/md5.c:159-195 | absorbing whole blocks is a homomorphism over concatenation |
| Md5Stream.CountIndex | src/libmemcached/libhashkit/md5.c:166-168 | the low counter word alone gives the position in the block, also after 2^64 bits wrapped |
| Md5Stream.CountAdd | src/libmemcached/libhashkit/md5.c:170-175 | adding a length below 2^32 with the carry test keeps the 64-bit bit count |
| Md5Stream.LittleEndianSplit | src/libmemcached/libhashkit/md5.c:201-226 | the eight length bytes are those of the two counter words |
| Md5Stream.Context.Update | src/libmemcached/libhashkit/md5.c:159-195 | state, buffer and count stand for everything seen so far, wherever the input is cut, for every length whose loop test cannot wrap |
| Md5Stream.Overrun | src/libmemcached/libhashkit/md5.c:184-185 | for every other length the loop passes its test once more for a block that reaches behind the input |
| Md5Stream.Context.Pad | src/libmemcached/libhashkit/md5.c:201-226 | adds 0x80 and the least number of zeros of section 3.1 |
| Md5Stream.Context.Final | src/libmemcached/libhashkit/md5.c:201-226 | returns the digest of exactly the bytes seen |
| Md5Stream.DigestPieces | src/libmemcached/libhashkit/md5.c:132-226 | any split of a message into updates gives the one-shot digest of the whole |
| Md5Stream.DigestOnce | src/libmemcached/libhashkit/md5.c:132-139 | one update of any length below 2^32 gives the digest |
| Md5Block.DecodeEncode | src/libmemcached/libhashkit/md5.c:324-353 | decoding undoes encoding for every sequence of words |
| Md5Block.Decode | src/libmemcached/libhashkit/md5.c:343-353 | the loop computes the little-endian words |
| Md5Block.Encode | src/libmemcached/libhashkit/md5.c:324-337 | the loop computes the little-endian bytes |
| Md5Block.CountBytes | src/libmemcached/libhashkit/md5.c:208-218 | the length bytes are what encoding makes of the counter words |
| Md5Block.MD5Transform | src/libmemcached/libhashkit/md5.c:230-319 | the unrolled code on 32-bit words is the block function of RFC 1321 |
| Md5Block.Md5Signature | src/libmemcached/libhashkit/md5.c:132-139 | the RFC 1321 digest of the whole key |
| ContinuumModel.PointsAreLive | src/libmemcached/libmemcached/hosts.c:182-287 | a point is on the continuum if and only if it is one of a live server's own |
| ContinuumModel.BuildIsLabels | src/libmemcached/libmemcached/hosts.c:182-287 | a point is on the continuum if and only if it is the hash of label t at position x of a live server, with t below its number of labels and x below the entries per label |
| ContinuumModel.EntryWritten | src/libmemcached/libmemcached/hosts.c:182-287 | every such label and position is written, at its own place |
| ContinuumModel.PlaceOf | src/libmemcached/libmemcached/hosts.c:182-287 | and every place is that of such a label and position |
| ContinuumModel.OnePlaceEach | src/libmemcached/libmemcached/hosts.c:182-287 | no two of them share a place |
| ContinuumModel.PlainCount | src/libmemcached/libmemcached/hosts.c:182-287 | without weights 100 points per live server are written |
| ContinuumModel.WeightedCount | src/libmemcached/libmemcached/hosts.c:187-191 | in exact arithmetic the written points lag behind the exact share by less than four per live server |
| ContinuumModel.BuildSize | src/libmemcached/libmemcached/hosts.c:150-190 | with L live servers, 100 L points, or in weighted mode more than 156 L and at most 160 L |
| ContinuumModel.SwitchOverflows | src/libmemcached/libmemcached/hosts.c:150-191 | an array kept from unweighted mode for `count` servers overflows if and only if the live servers' labels, floor(40 L w / W) each, are more than 25 count |
| ContinuumModel.NoWeightingOverflows | src/libmemcached/libmemcached/hosts.c:150-191 | no weights of the same servers make it overflow if and only if 8 L <= 5 count |
| ContinuumModel.PointlessServer | src/libmemcached/libmemcached/hosts.c:187-191 | a live server has no point if and only if its weight is below total / (40 L) in weighted mode |
| ContinuumModel.OwnerIsUnique | src/libmemcached/libmemcached/hash.c:33-51 | with distinct values a hash has one owner |
| ContinuumModel.EjectedBuild | src/libmemcached/libmemcached/hosts.c:182-287 | rebuilding without server s takes away exactly the points of s |
| ContinuumModel.AppendedBuild | src/libmemcached/libmemcached/hosts.c:306-350 | a server appended to the list adds its own points, if it is live, and changes no others |
| ContinuumModel.JoiningMovesOnlyToItself | src/libmemcached/libmemcached/hosts.c:306-350 | a hash that an appended server makes change hands goes to that server |
| ContinuumModel.MinimalDisruption | src/libmemcached/libmemcached/hash.c:33-51 | removing or adding the points of s changes only hashes that s owns |
| Continuum.SortSorts | src/libmemcached/libmemcached/hosts.c:87-100 | sorting gives an ordered permutation |
| Continuum.QSort | src/libmemcached/libmemcached/hosts.c:293-293 | in place: the used part is sorted and a permutation, the rest untouched |
| Continuum.DispatchHost | src/libmemcached/libmemcached/hash.c:25-51 | the binary search returns the first point at or after the hash, or the first point of all on wrap-around |
| ClientModel.EarliestIsLeast | src/libmemcached/libmemcached/hosts.c:127-142 | the rebuild time of the loop is the least retry time of the dead servers, or 0 if there is none |
| ClientModel.StepKeepsWatched | src/libmemcached/libmemcached/connect.c:465-553 | lookups, connects, failures, closed connections, added servers and rebuilds all keep: the rebuild time is not later than the retry time of any server that was dead at the last rebuild, and every other server has points |
| ClientModel.LookupIsFresh | src/libmemcached/libmemcached/hash.c:94-120 | after a lookup at `now` every server without points was, at the last rebuild, not to be retried before `now` |
| ClientModel.RunIsNeverStale | src/libmemcached/libmemcached/hash.c:94-120 | so after every lookup of every run |
| ClientModel.RunIsNeverLate | src/libmemcached/libmemcached/connect.c:472-553 | with a clock that never goes back, after every lookup of every run a server without points has its present retry time at or after `now`, unless `now` is the very second up to which it was put off |
| ClientModel.LoneFailureStays | src/libmemcached/libmemcached/connect.c:472-553 | over every run with a clock that never goes back in which only server s fails, no server is added and no rebuild asked for, s is never ejected and keeps its points |
| ClientModel.StuckForever | src/libmemcached/libmemcached/connect.c:490-505 | over every run a closed server at its failure limit stays so with its retry time unchanged, and every rebuild from that time on takes it for live |
| ServerHistory.FailuresCounted | src/libmemcached/libmemcached/connect.c:465-553 | after every run the failure count of a server is the number of attempts that came to nothing and connections that broke since it was last reached, answered, was closed on purpose or was added |
| ServerHistory.RetryTimeKept | src/libmemcached/libmemcached/connect.c:425-440 | its retry time is that of the last event that set one: 0 when reached, the time of the failure plus the retry timeout when not |
| ServerHistory.TriedIff | src/libmemcached/libmemcached/connect.c:465-505 | a connect to a server that is not connected is tried if and only if the retry time last set has come, or none is set or wanted, and the failures since are below the limit, if there is one |
| ServerHistory.OnConnection | src/libmemcached/libmemcached/connect.c:465-553 | a server is connected after an event exactly when that event reached it, or it was connected and neither lost nor closed |
| ClientModel.EjectionComesBack | src/libmemcached/libmemcached/connect.c:429-553 | from a new client, a run in which a failed server is ejected by another server's connect, stays out for lookups up to the very second of its retry time, and is back after the lookup one second later |
| Continuum.Memcached.CountLiveServers | src/libmemcached/libmemcached/hosts.c:127-142 | counts the live servers and computes that rebuild time |
| Continuum.Memcached.TotalWeight | src/libmemcached/libmemcached/hosts.c:169-180 | weights of 0 become 1, all others stay, and the total is over live servers |
| Continuum.Memcached.WritePoints | src/libmemcached/libmemcached/hosts.c:182-287 | the nested loops write exactly the points of the live servers and count them |
| Continuum.Memcached.Grow | src/libmemcached/libmemcached/hosts.c:155-167 | reallocation makes room and keeps the points |
| Continuum.Fits | src/libmemcached/libmemcached/hosts.c:150-167 | what a rebuild writes fits the array allocated under the same weighting |
| Continuum.Memcached.UpdateContinuum | src/libmemcached/libmemcached/hosts.c:102-303 | the continuum is a sorted permutation of the live servers' points and names no ejected server; kept when nobody is live |
| Continuum.Memcached.RunDistribution | src/libmemcached/libmemcached/hosts.c:51-73 | is the rebuild of the model; an empty continuum stays empty only if nobody is live |
| Continuum.Memcached.MemcachedConnect | src/libmemcached/libmemcached/connect.c:465-553 | left alone before the retry time, rebuilt over at the failure limit, otherwise tried: the connect step of the model |
| Continuum.Memcached.QuitServer | src/libmemcached/libmemcached/quit.c:55-80 | a lost connection counts as a failure, one closed on purpose wipes the failures out |
| Continuum.Memcached.ServerAdd | src/libmemcached/libmemcached/hosts.c:410-440 | the new server and the rebuild are the step of the model; past the first retry time the continuum is not empty |
| Continuum.Memcached.GenerateHashWithRedistribution | src/libmemcached/libmemcached/hash.c:94-120 | the owner of the hash is returned on the continuum rebuilt if its time has passed, and ejection is not stale then |
| Continuum.EjectionMovesOnlyItsOwn | src/libmemcached/libmemcached/hosts.c:182-293 | two rebuilds with and without s agree on every hash that does not go to s |
| Continuum.Run | src/libmemcached/libmemcached/hash.c:94-120 | over every run of lookups, connects that fail or succeed, lost and closed connections, added servers and rebuilds, every lookup is answered by the owner of its hash on the continuum the events so far have made, the client ends as the events say, and after every lookup ejection is not stale |
| Continuum.NewClientRun | src/libmemcached/libmemcached/hosts.c:410-440 | the same from a new client on, with a first server added once it may be tried; with a clock that never goes back also in terms of the present retry times |
| UdpHistory.StepKeepsSane | src/libmemcached/clients/ms_conn.c:1426-1629 | every arrival, harmless growth and read keeps: bytes read are those sent, and whatever is not copied yet will be read as sent |
| UdpHistory.CleanRunConserves | src/libmemcached/clients/ms_conn.c:1426-1629 | with any arrival order, duplicates included, any capacities and moves that find nothing pending, the bytes read are a prefix of the response |
| UdpHistory.ReadReturns | src/libmemcached/clients/ms_conn.c:1492-1547 | each read returns exactly min(room, what is there without a gap) |
| UdpHistory.ReadWhole | src/libmemcached/clients/ms_conn.c:1492-1547 | once all packets are in each read returns exactly min(room, bytes left) of the response |
| UdpHistory.RoomsSuffice | src/libmemcached/clients/ms_conn.c:1492-1547 | the whole response is out as soon as the rooms of the reads add up to it |
| UdpCalls.CallsAreRuns | src/libmemcached/clients/ms_conn.c:1561-1629 | calls that make room, take a datagram in and read are runs of the model |
| UdpCalls.LastRoomDecides | src/libmemcached/clients/ms_conn.c:1610-1622 | when the last missing packet comes the response is out if and only if the room covers what is left |
| UdpCalls.PendingMoveSpoils | src/libmemcached/clients/ms_conn.c:1572-1582 | a move that finds a packet pending has a continuation by such calls, with no further harmful move, that returns what was not sent |
| UdpCalls.MoveConservesIff | src/libmemcached/clients/ms_conn.c:1561-1629 | all continuations by such calls conserve, for any contents of the old memory, if and only if nothing is pending at the move or the response is one packet |
| UdpCalls.LargeResponseSpoilt | src/libmemcached/clients/ms_conn.c:1561-1629 | every response of 750 packets or more has calls from the start that return what was not sent |
| UdpReassembly.CountDatagrams | src/libmemcached/clients/ms_conn.c:1440-1449 | the byte count alone gives the number of datagrams and the size of the last |
| UdpReassembly.Exhausted | src/libmemcached/clients/ms_conn.c:1492-1545 | where the loop stops for lack of data, all before the first missing packet is out |
| UdpReassembly.EnterOne | src/libmemcached/clients/ms_conn.c:1458-1490 | entering a datagram makes its packet read as sent and no other read differently |
| UdpReassembly.EnteringObeys | src/libmemcached/clients/ms_conn.c:1458-1490 | the first loop keeps its law from one datagram to the next |
| UdpReassembly.RegisteredObeys | src/libmemcached/clients/ms_conn.c:1492-1545 | copying what the current pointer yields keeps the law of the second loop and is what comes next |
| UdpReassembly.GrowStays | src/libmemcached/clients/ms_conn.c:1572-1583 | after a move all pointers are left behind and yield what the environment says |
| UdpReassembly.Connection.MakeRoom | src/libmemcached/clients/ms_conn.c:1572-1583 | doubling the buffer, moved or in place, is the growth step of the model |
| UdpReassembly.Connection.RegisterPackets | src/libmemcached/clients/ms_conn.c:1440-1490 | counting and entering the datagrams is the entering step of the model |
| UdpReassembly.Connection.CopyOut | src/libmemcached/clients/ms_conn.c:1492-1545 | copies what the pointers yield, in sequence order, until the room or what is there runs out |
| UdpReassembly.Connection.SortUdpPacket | src/libmemcached/clients/ms_conn.c:1426-1548 | a call is exactly a read of the model |
| UdpReassembly.UdpRead | src/libmemcached/clients/ms_conn.c:1561-1629 | one call that receives a datagram, on the real fields, is a call of the model |
| UdpReassembly.RunAll | src/libmemcached/clients/ms_conn.c:1561-1629 | over every run the packets accepted and the bytes returned are those of the model, and a prefix of the response in runs without harmful moves |
| GatherModel.GatherCarries | src/libmemcached/clients/ms_conn.c:2110-2163 | adding a piece keeps every message within its limits and adds exactly the piece to what they carry |
| GatherModel.GatherAllCarries | src/libmemcached/clients/ms_conn.c:2017-2163 | the messages of a request carry exactly its pieces; no datagram exceeds 1400 bytes and each begins with its header |
| GatherModel.StepConserves | src/libmemcached/clients/ms_conn.c:2236-2297 | sent plus pending stays the queued bytes; COMPLETE if and only if the last message is done, and then nothing is pending |
| GatherModel.SendAllConserves | src/libmemcached/clients/ms_conn.c:2236-2297 | the same over every schedule of partial sends |
| GatherModel.StepAnswers | src/libmemcached/clients/ms_conn.c:2236-2297 | COMPLETE, INCOMPLETE and SOFT ERROR each exactly when messages are over, bytes were taken, or the socket would block and the event could be set |
| GatherModel.EnoughSends | src/libmemcached/clients/ms_conn.c:2236-2297 | while nothing fails, more sends than there are bytes always complete the request |
| GatherModel.CanCompleteIff | src/libmemcached/clients/ms_conn.c:2236-2297 | some schedule completes the messages if and only if each of them has bytes |
| GatherModel.StreamCanComplete | src/libmemcached/clients/ms_conn.c:2110-2297 | a TCP request can be completed if and only if none of the messages it gathers is without bytes |
| GatherModel.DatagramCanComplete | src/libmemcached/clients/ms_conn.c:2110-2297 | a UDP request that is not refused can always be completed |
| GatherModel.HeaderReadsBack | src/libmemcached/clients/ms_conn.c:2204-2220 | the receiving side reads from a header the number of the datagram and of datagrams that were written |
| GatherModel.SingleIff | src/libmemcached/clients/ms_conn.c:2017-2163 | a UDP request makes a single message if and only if it has fewer than 1024 pieces of at most 1392 bytes together, and less than that before the last one |
| GatherModel.RequestConserves | src/libmemcached/clients/ms_conn.c:2017-2297 | a UDP request that does not fit one datagram, and no other, is refused and sends nothing; otherwise the wire has a beginning of the pieces, over UDP behind the filled-in header, and all of it when complete |
| ScatterGather.TightNext | src/libmemcached/clients/ms_conn.c:2071-2097 | each message starts at the sum of the lengths before it |
| ScatterGather.LayoutMore | src/libmemcached/clients/ms_conn.c:2110-2163 | one more fragment extends the last message and no other |
| ScatterGather.LayoutMoved | src/libmemcached/clients/ms_conn.c:2071-2097 | messages keep their fragments across reallocation when they keep their offsets |
| ScatterGather.Connection.Repoint | src/libmemcached/clients/ms_conn.c:2088-2093 | the running sum points every message at its old place in the new list |
| ScatterGather.Connection.EnsureIovSpace | src/libmemcached/clients/ms_conn.c:2071-2097 | room for one more iovec, all messages intact |
| ScatterGather.Connection.AddMsghdr | src/libmemcached/clients/ms_conn.c:2017-2060 | a new message behind the others, with header room for UDP |
| ScatterGather.Connection.AddIov | src/libmemcached/clients/ms_conn.c:2110-2163 | the lists come to hold the messages that gathering the piece makes, across reallocations |
| ScatterGather.SkipSent | src/libmemcached/clients/ms_conn.c:2257-2264 | dropping finished iovecs leaves exactly the unsent bytes of the message |
| ScatterGather.ApartShrunk | src/libmemcached/clients/ms_conn.c:2257-2273 | shrinking one message touches no other |
| ScatterGather.Connection.BuildUdpHeaders | src/libmemcached/clients/ms_conn.c:2173-2223 | refuses exactly a request of several messages, otherwise fills in the header of each message and keeps everything else |
| ScatterGather.Connection.Transmit | src/libmemcached/clients/ms_conn.c:2236-2297 | one call on the lists is one sending step of the model, with its result |
| ScatterGather.Connection.TransmitAll | src/libmemcached/clients/ms_conn.c:2236-2297 | a schedule on the lists is that schedule in the model |
| ScatterGather.SendRequest | src/libmemcached/clients/ms_conn.c:2017-2297 | outcome and bytes sent are those of the pieces and the schedule in the model: refused with nothing sent, or a beginning of header and pieces, all when complete |
| MultiGet.OwnedPartition | src/libmemcached/libmemcached/get.c:214-228 | a key is in a server's list if and only if it was dispatched there; lists are in caller order |
| MultiGet.QuietAcceptsAll | src/libmemcached/libmemcached/get.c:239-263 | a server without failures accepts all its keys |
| MultiGet.AcceptedIsTail | src/libmemcached/libmemcached/get.c:239-263 | whatever fails, a connection holds all keys of its server from some key on |
| MultiGet.BodySplits | src/libmemcached/libmemcached/get.c:230-236 | splitting a line at spaces gives back the prefixed keys |
| MultiGet.ServerReads | src/libmemcached/libmemcached/get.c:139-286 | whatever fails, a server that receives anything receives one line ended by CRLF, and reads it as gets with CAS on and get otherwise, then one word for each accepted key in caller order: the prefix followed by the key |
| MultiGet.ServerReadsAll | src/libmemcached/libmemcached/get.c:139-286 | without failures it reads all keys that it owns |
| MultiGet.SuccessIff | src/libmemcached/libmemcached/get.c:239-263 | the loop over the keys ends in success if and only if some key began a line and no later one failed |
| MultiGet.FailureForgotten | src/libmemcached/libmemcached/get.c:239-256 | a key whose server is down is not sent and the call succeeds, if a later key begins a line elsewhere |
| MultiGet.SendKey | src/libmemcached/libmemcached/get.c:214-264 | one key changes the line of its owner only, with the return code of each branch |
| MultiGet.EndLines | src/libmemcached/libmemcached/get.c:269-282 | every open line is ended by one CRLF and no other server is written to; some errors if and only if one of them could not be |
| MultiGet.MgetByKeyReal | src/libmemcached/libmemcached/get.c:139-286 | each server receives the one line its keys make and has one response due, others nothing; the return code is exact |
| MultiGet.OneLineEach | src/libmemcached/libmemcached/get.c:214-282 | without failures that line is the command, all its keys in order, and CRLF |
| ReplicaModel.AttemptKeeps | src/libmemcached/libmemcached/get.c:487-552 | one turn keeps the invariant tying hash[], dead_servers[] and response counts to the events |
| ReplicaModel.AttemptSettlesNext | src/libmemcached/libmemcached/get.c:487-552 | after its turn a key is sent or its server of this round is dead, and nothing earlier is undone |
| ReplicaModel.WhoKilled | src/libmemcached/libmemcached/get.c:506-549 | every dead server was reached by some key of the call in an earlier round, and failed it |
| ReplicaModel.RoundSettles | src/libmemcached/libmemcached/get.c:479-557 | a round settles every key for one more offset; a successful round adds no dead server |
| ReplicaModel.RunIsSafe | src/libmemcached/libmemcached/get.c:464-560 | for every failure pattern: no key sent twice, nothing sent to a dead server, the dead set grows, an unsent key met dead servers only |
| ReplicaModel.RoundSendsIff | src/libmemcached/libmemcached/get.c:487-552 | a round sends a key if and only if, at its turn, its server is alive, is connected or can be, and can be written to |
| ReplicaModel.UnsentWasFailed | src/libmemcached/libmemcached/get.c:464-560 | a key left unsent met, in every round, a server that had failed some key |
| ReplicaModel.FaultlessRun | src/libmemcached/libmemcached/get.c:464-560 | without failures one round sends every key to its first server |
| ReplicaReach.OffsetsTried | src/libmemcached/libmemcached/get.c:475-494 | with random start s an offset j is tried if and only if j >= s or j > replicas - s |
| ReplicaReach.SentToReplica | src/libmemcached/libmemcached/get.c:490-497 | a key goes to (h + j) mod n with 0 <= j <= replicas |
| ReplicaReach.OwnServerTried | src/libmemcached/libmemcached/get.c:475-497 | with a random start other than 0 the own server is tried if and only if replicas >= servers and the largest multiple of servers up to replicas is a tried offset |
| ReplicaExact.MeetingIsClose | src/libmemcached/libmemcached/get.c:490-500 | two keys meet at a server in different rounds only if their primaries are close |
| ReplicaExact.SpreadRunReachesAll | src/libmemcached/libmemcached/get.c:464-560 | if the start covers and no two keys are close, whatever fails an unsent key has all its replicas dead |
| ReplicaExact.CrossingRunGivesUp | src/libmemcached/libmemcached/get.c:499-556 | when one key's next server is the one where another key has just failed, the run ends with the key unsent and its next server alive |
| ReplicaExact.CloseRunGivesUp | src/libmemcached/libmemcached/get.c:499-556 | if the start covers and two keys are close, there are failures after which one is unsent although a replica is alive |
| ReplicaExact.UncoveredRunGivesUp | src/libmemcached/libmemcached/get.c:475-556 | if the start does not cover, every key of every call has failures that leave it unsent although a replica is alive |
| ReplicaExact.PromiseIff | src/libmemcached/libmemcached/get.c:464-560 | for every start: whatever fails, unsent keys have all their replicas dead, if and only if there are no keys, or the start covers and no two keys are close |
| ReplicaMget.TargetServer | src/libmemcached/libmemcached/get.c:490-497 | the subtraction loop computes the wrapped target |
| ReplicaMget.Turn | src/libmemcached/libmemcached/get.c:487-552 | one turn on the arrays is one transition of the model |
| ReplicaMget.DoRound | src/libmemcached/libmemcached/get.c:481-553 | one round on the arrays is one round of the model |
| ReplicaMget.ReplicationBinaryMget | src/libmemcached/libmemcached/get.c:464-560 | the loops compute the model's run and end in its invariant |
| Jenkins.MaskedRead | src/libmemcached/libhashkit/jenkins.c:94-110 | masking an aligned word leaves the key's bytes, whatever lies beyond the key |
| Jenkins.MaskedWord | src/libmemcached/libhashkit/jenkins.c:94-110 | what the first switch adds to one word is the zero-padded word of the key |
| Jenkins.HalvesOrByte | src/libmemcached/libhashkit/jenkins.c:130-160 | so is what the second switch adds |
| Jenkins.FallThrough | src/libmemcached/libhashkit/jenkins.c:189-206 | so is what the falling-through byte cases add |
| Jenkins.HashWords | src/libmemcached/libhashkit/jenkins.c:69-112 | the 32-bit path computes the block hash of the key's bytes |
| Jenkins.HashHalves | src/libmemcached/libhashkit/jenkins.c:113-162 | the 16-bit path computes the same |
| Jenkins.HashBytes | src/libmemcached/libhashkit/jenkins.c:163-206 | the byte path computes the same |
| Jenkins.HashkitJenkins | src/libmemcached/libhashkit/jenkins.c:59-213 | the value depends neither on where the key lies nor on what follows it |
| Crc32.TableIsRight | src/libmemcached/libhashkit/crc32.c:9-74 | every entry of the table is eight reflected polynomial steps of its index |
| Crc32.EightLinear | src/libmemcached/libhashkit/crc32.c:76-85 | eight steps are linear over exclusive or |
| Crc32.ByteStep | src/libmemcached/libhashkit/crc32.c:81-82 | eight steps shift the upper bytes down and look up the lowest |
| Crc32.FeedIsEight | src/libmemcached/libhashkit/crc32.c:81-82 | feeding a byte bit by bit is adding it and stepping eight times |
| Crc32.TableFeeds | src/libmemcached/libhashkit/crc32.c:81-82 | one round of the loop feeds the eight bits of the byte |
| Crc32.TableLoop | src/libmemcached/libhashkit/crc32.c:76-85 | the loop computes the bitwise register of the key |
| Crc32.HashkitCrc32 | src/libmemcached/libhashkit/crc32.c:76-85 | the result is bits 16 to 30 of the CRC-32 of section 8 of RFC 1952 |
| Words.XorShiftApart | src/libmemcached/libhashkit/one_at_a_time.c:26-29 | v ^ (v >> k) is one to one for every shift |
| Words.TimesApart | src/libmemcached/libhashkit/fnv.c:17-71 | multiplication by a number with an inverse is one to one on words |
| ByteHashes.OneByteApart | src/libmemcached/libhashkit/fnv.c:17-71 | any fold whose steps are one to one tells apart keys that differ in one byte |
| ByteHashes.LowHalf | src/libmemcached/libhashkit/fnv.c:31-43 | the low half of the 64-bit loops is the 32-bit loop with the low half of prime and start |
| ByteHashes.Fnv1_64 | src/libmemcached/libhashkit/fnv.c:17-29 | the 64-bit loop, truncated at the end |
| ByteHashes.Fnv1a_64 | src/libmemcached/libhashkit/fnv.c:31-43 | 32-bit arithmetic throughout, equal to the truncated 64-bit hash |
| ByteHashes.Fnv1_32 | src/libmemcached/libhashkit/fnv.c:45-57 | the fold of multiply then exclusive or |
| ByteHashes.Fnv1a_32 | src/libmemcached/libhashkit/fnv.c:59-71 | the fold of exclusive or then multiply |
| ByteHashes.Fnv1aFromFnv1 | src/libmemcached/libhashkit/fnv.c:45-71 | the two orders of the operations differ by one multiplication: FNV-1a from start * prime is FNV-1 from start, times the prime |
| ByteHashes.FnvOneByteApart | src/libmemcached/libhashkit/fnv.c:17-71 | in all four variants keys of one length that differ in one byte never collide |
| ByteHashes.OneAtATime | src/libmemcached/libhashkit/one_at_a_time.c:16-33 | the fold of the loop followed by the three final mixing steps |
| ByteHashes.OneAtATimeOneByteApart | src/libmemcached/libhashkit/one_at_a_time.c:16-33 | keys of one length that differ in one byte never collide |
| KnownValues.CrcApple | src/libmemcached/tests/hash_results.h:61-64 | the CRC hash of "apple" is the value the tests expect |
| KnownValues.Fnv1Apple32 | src/libmemcached/tests/hash_results.h:82-88 | so is its FNV-1 hash in 32 bits |
| KnownValues.Fnv1aApple32 | src/libmemcached/tests/hash_results.h:90-97 | and FNV-1a in 32 bits |
| KnownValues.Fnv64Apple | src/libmemcached/tests/hash_results.h:66-80 | and both FNV hashes in 64 bits, truncated |

## Left out

- The Perl layer, ppport.h, command-line clients, SASL, DNS, socket set-up, poll, corking and libevent: no core logic.
- response.c: what reading responses did is an input of the write side. How a connection attempt ends, and when the clock says so, is an input of routing.
- storage_innodb.c, ms_task.c and statistics; the hsieh, murmur and byteorder files would only add easy members.
- Item expiry and the `when` of a delayed flush, which storage.c:144 ignores.
- Allocation: whether memory for an item can be had is an input of each command (`memory`); other allocations succeed.
- Arithmetic handlers read eight bytes of any item that has data; the bytes behind a shorter item are an input (`beyond`). After a command without a defined outcome the run ends.
- The v0 arithmetic and delete handlers: they differ from v1 (flags kept, CAS ignored).
- UDP on the io.c side, message ids, and the callbacks of `process_input_buffer`; write-side results are for TCP.
- memcached_quit_server beyond resetting counts and offsets: buffer contents after a failed read or a quit are not specified.
- ReadBuffer.Server.IoRead: the caller's buffer is the returned sequence, not an array written in place; the same holds for the line and safe reads.
- Md5Stream.Context.Update: what a block behind the end of the input holds is not modelled; `Overrun` only shows that it is read.
- Md5Stream.Context.Final: the wiping of the context at the end is not modelled.
- ContinuumModel.BuildSize: the float rounding of the weighted quota (hosts.c:189-190) is replaced by exact division; the quota is a parameter everywhere else.
- ContinuumModel.WeightedCount: exact division, as above.
- ContinuumModel.PointlessServer: exact division, as above.
- ContinuumModel.SwitchOverflows: exact division, as above.
- ContinuumModel.NoWeightingOverflows: exact division, as above.
- Continuum.Fits: exact division, as above, in weighted mode.
- Continuum.Memcached.UpdateContinuum: exact division, as above, in weighted mode; the weighting is that under which the array was made (`SwitchOverflows` is about the other case).
- Continuum.Memcached.RunDistribution: exact division, as above, in weighted mode; host sorting and the modula and random distributions are not modelled.
- Continuum.Memcached.GenerateHashWithRedistribution: exact division, as above, in weighted mode.
- Continuum.Run: exact division, as above, in weighted mode; in that mode a live server may have no point, so "not stale" speaks of servers that were dead at the last rebuild only.
- Continuum.NewClientRun: as `Continuum.Run`.
- ContinuumModel.EjectedBuild: label formatting and the digest of a label are one parameter `hash`.
- Continuum.QSort: the C library's qsort is stood in for by an insertion sort; its contract promises only a sorted permutation, so nothing proved depends on the order of ties.
- UdpReassembly.Connection.SortUdpPacket: every datagram but the last one received is full; the assertion on the header of a packet (ms_conn.c:1506), which would also follow a pointer that was left behind, is not modelled, nor are request ids, failing reallocations and `ms_reset_conn`.
- ScatterGather.Connection.AddIov: the iovec list is a sequence with an allocation number instead of memory; adding to a message that is already partly sent is not covered.
- MultiGet.MgetByKeyReal: key validation and the draining of earlier responses come before the call; a write that fails closes the connection, and what it held counts as lost.
- ReplicaMget.ReplicationBinaryMget: the return code (the caller ignores it) and 32-bit overflow of server numbers are not modelled; a write counts as sent when it succeeds.
- Known values of md5, jenkins and one-at-a-time: their constants are those of the code, and no value for a key is proved.
- Jenkins.HashkitJenkins: little-endian machines only; for a key on a word boundary the memory read past its end is inside its last word.
