# LSProxy, verified

LSProxy is an event-driven reverse proxy. A connection starts in fast mode, where bytes are forwarded as
they come. A connection that looks suspicious goes through a transition into slow mode, where a whole
request is buffered before it is forwarded and the reply is buffered before it is delivered. Either mode
can end in "reply-only". There is no way back to fast mode.

The project models three parts and proves what they keep.

* **The connection state machine.** `Machine` says what each event handler does to the mode flags, the
  objects a connection owns, the four event bits and the buffers, and keeps a ledger of every byte that
  crossed a socket. A handler that would use an absent object or trip an assertion ends in `Crash`.
  `Invariants` and `Preservation` carry one invariant through every step; `Safety`, `Theorems` and
  `RequestLoss` state what follows for every run, every parser and every way the streams are cut into
  chunks. `Events`, `Arming`, `Progress` and `Monitoring` pin down every step from outside, over the ledgers
  and the parsed streams: when a connection ends, when servers and parsers come and go, when writes are
  armed, which bytes cross the sockets, and what the monitor decides. `Witnesses` gives concrete runs in
  which a promise fails.
* **The code that runs it.** `Sockets`, `Parsing`, `Files`, `Hybrid`, `Copying`, `Ring` and `Connections` are
  imperative: loops, a ring in an array, files with cursors, handlers that update flags and buffers in
  place. Sockets record the outcome of every system call. Each buffer refines a plain byte sequence, and
  `Refinement` shows that each handler takes exactly the step of the state machine for the event that the
  kernel's answers make, with the ledgers equal to what the sockets saw.
* **Shared resources.** `Pooling` covers admission and the pool of history buffers, `Addresses` the cyclic
  generator of local addresses and the probing loop.

The HTTP parser is an arbitrary deterministic automaton over bytes that may report, for each byte, that a
message is complete; every theorem holds for all such automata. The kernel is nondeterministic: reads and
writes return any count, and any of them may fail with nothing read or written, at any time.

## Assumptions

* A write to a temporary file completes within its ten tries (`reliable`). `FileWrite` itself is proved
  without it: whatever is written is a prefix, and bytes are given up only after the tenth try or when the
  process ends.
* Byte counters and sizes do not reach 2^64. The 32- and 64-bit arithmetic of `Hybridbuf::rewind` and the
  32-bit arithmetic of the address generator are modelled with their wrap-around.

## Where the code does less than it promises

The model follows the code. In the cases marked *exact*, the condition under which the promise holds is
proved in both directions, for all runs or all inputs.

* *Exact.* A client reset makes a fast-mode read return nothing without end of file. If nothing was queued
  for the server, the server's write event is armed over an empty queue; a switch then frees that queue,
  and the next writable event dereferences it. Runs without such a read do not crash, whatever their other
  reads return, and after any such read, the first event of a fresh connection included, a switch and a
  writable server crash (`NoCrash`, `CrashRunIff`, `ResetCrashes`).
* *Exact.* Server bytes read together with end of file during the transition are dropped, and so is the
  queue of a reply-only connection that is switched. Nothing else loses, repeats or reorders a response
  (`HoleIffDropped`, `ResponseLedger`, `LostInTransition`, `StrandedBySwitch`).
* *Exact.* Request bytes still queued when the fast-mode server goes are left unsent. The retrieved history
  makes up for them if and only if it is at least as long; a complete request that was waiting in the queue
  is not part of it and reaches no server. The guard at the end of the transition compares the sizes of
  the server's queue and the request buffer (`UnsentIff`, `CoveredIff`, `TransitionEndsSafelyIff`,
  `RequestLost`).
* *Exact.* If a slow-mode response ends before the "done forwarding" step, the buffer swap is skipped: the
  next request is written over the old one from the cursor on, and what was already forwarded is forwarded
  again in front of it (`LedgerSurvivesIff`, `SkippedSwapRepeats`, `RequestForwardedTwice`).
* *Exact.* The parse of the client's stream goes on across a switch, except when a reply-only connection
  that had read something is switched: then it starts again (`RestartedIff`).
* *Exact.* `Hybridbuf::rewind(amount)` goes back by `amount` from the end of the data, and from elsewhere
  only under the condition of `RewindExactIff`; an amount far beyond the data wraps and leaves the cursor
  past the bytes in memory (`RewindStaysValidIff`). The code calls it only with zero.
* *Exact.* The switch does not arm the client write. Bytes that a partial write left in the client queue
  then stay in the response buffer until the next stored response bytes, or malformed request bytes, arm it
  (`StuckIff`, `ReplyStuck`).
* *Exact.* The monitor counts bytes to the client only when the handler of a server read writes them. Bytes
  that drain through the client's write event do not count, so a fast reader can be dropped as too slow
  (`CountersAre`, `MonitorIff`, `DrainedButDropped`).
* Slow-mode handlers do not count traffic, so a connection that is out of fast mode at one monitor tick is
  dropped by the next one, however fast it is (`SlowModeDroppedByNextTick`).
* The specification budgets five buffer descriptors a connection, 5n. Between events 4n + n/4 are enough,
  within a switch one more, because it makes the slow buffers before it gives the history back; both bounds
  are reached (`DescriptorBound`, `PeakBound`, `DescriptorBoundIsTight`, `PeakBoundIsTight`).

## Model

| member | source | states |
|---|---|---|
| `Safety.HandlerSafety` | src/server.cpp:83-138 | in every reachable state, every event the loop may fire finds the parser, server, queue and file buffers its handler uses, except a writable server in a transition whose queue is gone |
| `Safety.CrashIff` | src/server.cpp:126-132 | a run crashes exactly when its last event is such a write |
| `Safety.EmptyReadIsTheCause` | src/connection.cpp:44-76 | while every armed server write has something to write nothing crashes, and exactly a fast-mode client read that gets nothing over an empty queue ends this |
| `Safety.NoCrash` | src/client.cpp:117-164 | no run without such a read dereferences an absent object or trips an assertion, whatever all other reads return |
| `Safety.EmptyReadHollows` | src/client.cpp:117-136 | such a read arms the server write over an empty queue from any state, the first event of a connection included |
| `Safety.HollowCrashes` | src/connection.cpp:25-32 | a switch in that state frees the queue under the armed event, and the writable server dereferences it |
| `Safety.CrashRunIff` | src/connection.cpp:71-76 | after a run without such a read, the next event is one if and only if a switch and a writable server may follow it and crash |
| `Theorems.BackpressurePairing` | src/connection.cpp:71-76 | in every reachable fast-mode state with a server, exactly one of client read and server write and exactly one of server read and client write is armed |
| `Theorems.OneRequestInFlight` | src/client.cpp:47-80 | in every reachable slow or transition state a live server means client reading is off |
| `Frames.NoWayBack` | src/ls_proxy.h:108-109 | no event brings back fast mode, and a finished transition stays finished |
| `Theorems.HistoryExactness` | src/client.cpp:103-115 | the history is exactly the stream's suffix after its last message end, and the parser stands where one uninterrupted parse would, for every chunking |
| `Theorems.HoleOpens` | src/server.cpp:97-103 | a step loses server bytes exactly when it is the transition read with end of file or the switch of a reply-only connection, and only once |
| `Theorems.HoleIffDropped` | src/connection.cpp:15-23 | over a whole run, a live connection misses response bytes exactly when one of those two steps happened |
| `Theorems.ResponseLedger` | src/connection.cpp:82-105 | bytes read from servers are the bytes written to the client, then the client queue, then the unread response buffer, in order, around at most one hole; equality exactly without a hole |
| `Theorems.ResponsesIntact` | src/client.cpp:86-101 | runs without the two losing steps deliver responses without loss, repetition or reordering across all modes |
| `RequestLoss.FastRequestLedger` | src/connection.cpp:44-66 | client bytes of fast mode are the bytes written to the server, then its queue, then what was left unsent; nothing is left on runs without the steps of the next row |
| `RequestLoss.UnsentIff` | src/server.cpp:90-103 | over a whole run, a live connection has unsent request bytes exactly when its fast-mode server went with bytes queued or a malformed chunk ended the exchange |
| `RequestLoss.CoveredIff` | src/connection.cpp:33-36 | after the transition the fast-mode server has a prefix of the fast-mode stream and the first slow-mode request begins with a suffix of it, with no gap between them if and only if no more was left unsent than was retrieved |
| `RequestLoss.TransitionEndsSafelyIff` | src/server.cpp:91-102 | a step that ends the transition leaves no such gap if and only if the server's queue is no longer than the request buffer |
| `Theorems.SkippedIff` | src/server.cpp:53-60 | the ledger's mark is set exactly on runs in which a response ended before its request was done forwarding |
| `Theorems.SlowRequestLedger` | src/server.cpp:63-81 | without such a step, bytes forwarded, then the unforwarded request buffer, then the overflow buffer are the retrieved history followed by all slow-mode client bytes, through every swap and short write; after a malformed chunk freed the parser, what was forwarded is still a prefix of them |
| `Theorems.LedgerSurvivesIff` | src/server.cpp:73-79 | a step that ends a response keeps the request ledger and its buffer cursors exactly when it finds the server write disarmed |
| `Theorems.SkippedSwapRepeats` | src/client.cpp:60-71 | after a skipped swap the next complete request is written over the request buffer from the old cursor on, and forwarding starts again at the first byte of the old request |
| `Theorems.SwitchTransparency` | src/connection.cpp:25-41 | the first request a slow-mode server gets is byte for byte the message of the client's whole stream under way at the switch, from the last message end before it to the next one after it; only after a restart is it cut from the slow-mode stream alone |
| `Theorems.TransitionAgreement` | src/client.cpp:60-83 | until that request is complete, the request buffer and the parser agree with one uninterrupted parse of the client's whole stream, or of the slow-mode stream after a restart |
| `Theorems.RestartedIff` | src/connection.cpp:15-23 | over a whole run, the parse covers the client's whole stream, unless a reply-only connection that had read something was switched, and then exactly what came after |
| `Theorems.FirstRequestIsAMessage` | src/client.cpp:60-70 | history plus the bytes up to the next reported end are one message of the joined stream, with no message end inside |
| `Theorems.FirstTickSpares` | src/ls_proxy.cpp:236-260 | the first monitor tick a connection meets neither drops nor demotes it, whatever its traffic |
| `Theorems.SlowModeDroppedByNextTick` | src/ls_proxy.cpp:245-259 | a connection out of fast mode after a tick does not survive the next tick |
| `Theorems.CountersGrow` | src/connection.cpp:48-86 | between ticks the counters never shrink, and outside fast mode they do not move |
| `Events.EndsIff` | src/connection.cpp:44-105 | exactly the events that end a live connection, in every mode: client gone, server unreachable, malformed bytes or server end with nothing left to deliver, the last delivery of a reply-only connection, too slow |
| `Events.EndsDelivered` | src/client.cpp:94-100 | a connection that is not aborted by its client, the connect or the monitor ends with everything delivered, but for the hole |
| `Events.ServerIff` | src/server.cpp:53-60 | exactly when a live connection has a server and a parser after an event |
| `Events.ModeIff` | src/connection.cpp:7-24 | fast mode ends exactly with a switch; a transition starts with the switch of a running connection and ends exactly when its server closes or is silent |
| `Arming.BackpressureIff` | src/connection.cpp:99-104 | over whole runs, a fast-mode write is armed, and the read behind it is off, exactly if the last attempt to write in its direction took nothing |
| `Arming.BackpressureStep` | src/connection.cpp:71-76 | after a read, the opposite write is armed if and only if the peer's ledger did not grow; a writable peer is disarmed; nothing else changes either |
| `Arming.StoredArms` | src/server.cpp:35-37 | whenever server bytes were stored outside fast mode and the connection lives, the client write is armed |
| `Arming.StaysArmed` | src/client.cpp:86-101 | it stays armed until a step finds nothing unread, and exactly then it is disarmed |
| `Arming.StuckIff` | src/connection.cpp:38-41 | exactly the runs after which stored bytes wait for the client without an armed write: left over by a switch, and nothing stored since |
| `Progress.LedgersRecord` | src/ls_proxy.cpp:54-71 | every byte a step reads enters the ledger of its socket, and no other, for the last step of a connection too |
| `Progress.NextBytesWritten` | src/ls_proxy.cpp:73-87 | what a step writes is the next part of the stream for that peer, as long as the peer takes it, for the last step too |
| `Progress.ParserTakesTurns` | src/client.cpp:60-73 | in every live state the parser stands where one uninterrupted parse since its last reset would: requests and responses take turns |
| `Progress.ChunksDoNotMatter` | src/server.cpp:41-60 | a chunk is rejected, or completes a request or a response, exactly if the whole turn so far does |
| `Monitoring.CountersAre` | src/connection.cpp:48-86 | in every live state the counters are the bytes since the monitor's last visit, but for those that drained through a writable client or in slow mode |
| `Monitoring.MonitorIff` | src/ls_proxy.cpp:236-260 | a visit drops a connection exactly if it is not the first and less than 1000 bytes came and less than 1000 counted bytes went since the last; it demotes exactly below 20480 in sum |
| `Preservation.StepKeeps` | src/client.cpp:117-164 | every event but that one write finishes, and every event that finishes keeps the invariant of shape, response, request, history and switch |
| `Preservation.RunKeeps` | src/ls_proxy.h:106-129 | the invariant holds in every state a run from acceptance reaches |
| `Preservation.SetSlowKeeps` | src/connection.cpp:7-42 | the switch keeps the whole invariant from either kind of fast-mode state |
| `Preservation.SlowReceiveKeeps` | src/client.cpp:40-84 | receiving in slow mode keeps it, through malformed bytes, failed connects and split chunks |
| `Preservation.SlowResponseKeeps` | src/server.cpp:33-61 | buffering a response keeps it, in each of the three endings |
| `Preservation.SlowSendKeeps` | src/server.cpp:63-81 | forwarding a request keeps it, through short writes and the swap |
| `Witnesses.ResetCrashes` | src/connection.cpp:67-76 | a concrete run of three events that crashes: a new client resets, a switch, a writable server |
| `Witnesses.RequestLost` | src/server.cpp:91-94 | a concrete run in which a complete fast-mode request reaches no server |
| `Witnesses.RequestForwardedTwice` | src/server.cpp:53-79 | a concrete run in which a client sends two bytes of requests and the servers get three |
| `Witnesses.LostInTransition` | src/server.cpp:97-103 | a concrete run in which the transition drops a response byte |
| `Witnesses.ReplyStuck` | src/connection.cpp:38-41 | a concrete run after which a reply byte waits and no event is armed that could deliver it |
| `Witnesses.DrainedButDropped` | src/client.cpp:151-159 | a concrete run in which a client took 2000 bytes since the last visit and is dropped as too slow |
| `Witnesses.StrandedBySwitch` | src/connection.cpp:15-23 | a concrete run in which the switch of a reply-only connection strands a response byte |
| `Parsing.ScanConcat` | src/ls_proxy.cpp:19-27 | parsing two chunks in turn is parsing their concatenation, with end offsets shifted |
| `Parsing.ScanWalks` | src/ls_proxy.cpp:19-27 | a parsed chunk is a walk of the automaton, one step a byte, and messages end exactly where a step completes one |
| `Parsing.WalkParses` | src/ls_proxy.cpp:19-27 | every such walk is a parse that ends in its last state |
| `Parsing.ScanFindsEnds` | src/ls_proxy.cpp:301-306 | the two recorded offsets are the least and the greatest message end of the chunk |
| `Parsing.FirstEndIsLeast` | src/ls_proxy.cpp:304-305 | the first message end is an end and no end precedes it |
| `Parsing.FirstEndOfScan` | src/ls_proxy.h:194-195 | on parsed streams it is the offset the parser records first |
| `Parsing.HttpParser.DoParse` | src/ls_proxy.cpp:19-27 | fails exactly on malformed chunks and otherwise leaves the state and both end offsets of the scan |
| `Parsing.HttpParser.MessageComplete` | src/ls_proxy.cpp:301-306 | the first end is set once, the last end always |
| `Sockets.Socket.ReadAll` | src/ls_proxy.cpp:54-71 | returns what was received, short exactly if the kernel's last answer was end of file or an error, and reports which |
| `Sockets.Socket.WriteAll` | src/ls_proxy.cpp:73-87 | sends exactly the counted prefix and reports an error exactly when bytes are left, which is exactly when the kernel's last answer was a refusal |
| `Files.FileWrite` | src/buffer.cpp:36-52 | at most ten tries write a prefix at the cursor; bytes are given up only after the tenth or when a hard error ends the process; a reliable disk takes everything |
| `Files.Filebuf.Store` | src/buffer.h:16-16 | writes at the cursor, overwriting or extending |
| `Files.Filebuf.Rewind` | src/buffer.h:37-41 | zero goes to the start, a positive amount back by exactly that much, more than the cursor fails |
| `Files.FIFOfilebuf.Store` | src/buffer.h:98-100 | appends behind everything stored without moving the reader |
| `Files.FIFOfilebuf.Fetch` | src/buffer.h:102-104 | takes a prefix of the unread bytes, nothing only when there are none |
| `Files.FIFOfilebuf.Rewind` | src/buffer.cpp:117-127 | a positive amount moves only the reader; zero restarts both cursors |
| `Hybrid.RewindLands` | src/buffer.cpp:74-88 | where the wrapping arithmetic of a partial rewind ends up, from any cursor |
| `Hybrid.RewindFromEnd` | src/buffer.cpp:74-88 | from the end of the data a partial rewind is exact on either side of the memory boundary |
| `Hybrid.RewindExactIff` | src/buffer.cpp:78-87 | from any cursor, exactly when a partial rewind goes back by its amount |
| `Hybrid.RewindStaysValidIff` | src/buffer.h:68-80 | for every 64-bit amount, exactly when a rewind succeeds, and exactly when it keeps the memory cursor within the bytes in memory, so that the unsigned subtraction does not wrap |
| `Hybrid.Hybridbuf.Store` | src/buffer.cpp:56-63 | appends, from memory over into the file |
| `Hybrid.Hybridbuf.Fetch` | src/buffer.cpp:65-72 | returns the stored bytes at the cursor, nothing only at the end |
| `Hybrid.Hybridbuf.Rewind` | src/buffer.cpp:74-88 | takes the step of the arithmetic model for every 64-bit amount; zero goes to the first stored byte |
| `Hybrid.Hybridbuf.Clear` | src/buffer.cpp:13-25 | leaves an empty buffer ready for appending, from any cursor |
| `Copying.CopyData` | src/buffer.cpp:27-34 | between any two distinct buffers of any of the three kinds: terminates, the destination equals the whole source and is ready for appending; a queue as source ends with its writer at the start |
| `Ring.Circularbuf.CopyFrom` | src/buffer.cpp:131-159 | appends exactly the first min(size, N-1-length) bytes for every capacity N |
| `Ring.Circularbuf.ReadAllFrom` | src/buffer.cpp:161-169 | appends everything read and reports the kernel's end of file or error; the copy-count assertion holds |
| `Ring.Circularbuf.WriteAllTo` | src/buffer.cpp:171-199 | sends and removes exactly the counted prefix in one or two segments; an error exactly when bytes remain, after a refusal by the kernel; the inner assertion holds |
| `Ring.Circularbuf.DumpTo` | src/buffer.cpp:201-222 | moves everything queued, in order, to the end of a buffer of any kind |
| `Connections.Connection.TrackHistory` | src/client.cpp:103-115 | clears at the last message end and keeps the bytes behind it, or appends the chunk |
| `Connections.Connection.ForwardRequest` | src/connection.cpp:44-80 | read, parse, queue and write with the flags that result |
| `Connections.Connection.ForwardResponse` | src/connection.cpp:82-105 | read into the client queue and write what the client takes, with the flags that result |
| `Connections.Connection.FillBuffers` | src/connection.cpp:34-41 | the request buffer holds the history with its cursor at the end, the response buffer the drained client queue |
| `Connections.Connection.SetSlowMode` | src/connection.cpp:7-32 | switches fast-mode connections only, with the flags, parser and buffers of the running or the idle case |
| `Connections.Connection.StoreRequest` | src/client.cpp:60-70 | the first message goes to the request buffer, the rest to the overflow buffer, then the rewind |
| `Connections.Connection.SlowSend` | src/server.cpp:63-81 | sends a prefix of the unread request and rewinds by the rest, or swaps and clears at its end |
| `Connections.Connection.SlowReply` | src/client.cpp:86-101 | sends a prefix of the unread response and rewinds by the rest; the amount is never zero |
| `Connections.Connection.Monitor` | src/ls_proxy.cpp:236-260 | drops, demotes with all that the switch makes, or spares, and resets the counters of survivors |
| `Refinement.FastClientReadable` | src/connection.cpp:44-80 | the handler takes the step of the state machine for what the kernel answered, and reports whether it ended the connection; ledger growth is what the sockets saw |
| `Refinement.FirstClientReadable` | src/client.cpp:120-133 | the same for the first event, which creates parser, server and queues, or ends the connection when the server cannot be reached |
| `Refinement.FastServerReadable` | src/connection.cpp:82-105 | the same for forwarding a response |
| `Refinement.FastClientWritable` | src/client.cpp:141-159 | the same for a writable client in fast mode, with and without a server |
| `Refinement.FastServerWritable` | src/server.cpp:118-124 | the same for a writable server in fast mode |
| `Refinement.Switch` | src/connection.cpp:7-42 | the same for the switch, of a running connection and of one without a parser, buffers included |
| `Refinement.MonitorVisit` | src/ls_proxy.cpp:236-260 | the same for a monitor tick, with everything a demoted connection gets |
| `Refinement.TransitionServerReadable` | src/server.cpp:90-108 | the same for a server read in transition |
| `Refinement.TransitionServerWritable` | src/server.cpp:126-134 | the same for feeding the old queue to the server |
| `Refinement.SlowClientReadable` | src/client.cpp:40-84 | the same for receiving a request |
| `Refinement.SlowServerReadable` | src/server.cpp:33-61 | the same for buffering a response |
| `Refinement.SlowServerWritable` | src/server.cpp:63-81 | the same for forwarding a request |
| `Refinement.SlowClientWritable` | src/client.cpp:86-101 | the same for sending a response |
| `Pooling.PoolOwnership` | src/client.cpp:16-22 | over every run of accepts, switches and closes no buffer is pooled twice, held twice or both; every open connection holds a history or is slow; pool, connections and pooled plus held stay within their bounds |
| `Pooling.DescriptorBound` | src/ls_proxy.h:135-141 | between events, live buffers need at most 4n + n/4 descriptors, within the documented 5n |
| `Pooling.DescriptorBoundIsTight` | src/ls_proxy.h:135-141 | a reachable state that needs exactly that many |
| `Pooling.PeakBound` | src/connection.cpp:12-36 | at any moment of any step at most one more |
| `Pooling.PeakBoundIsTight` | src/connection.cpp:12-36 | the last of n connections to be switched needs exactly that one |
| `Pooling.PeakIsHighest` | src/connection.cpp:12-36 | the moment counted is the highest of the step, before and after included |
| `Pooling.Admission.constructor` | src/ls_proxy.cpp:380-383 | a full pool of distinct, empty buffers |
| `Pooling.Admission.Accept` | src/connection.cpp:107-125 | refuses exactly at the limit; otherwise the new history is empty, is the oldest pooled buffer or a new one, and no other buffer changes |
| `Pooling.Admission.Release` | src/client.h:57-63 | clears and pools the buffer, or frees it when the pool is full |
| `Pooling.Admission.Switch` | src/connection.cpp:19-36 | gives the history back once and keeps ownership and bounds |
| `Pooling.Admission.Close` | src/connection.h:20-22 | gives the history back if there is one, uncounts the connection and keeps ownership and bounds |
| `Addresses.EndiansAgree` | src/ls_proxy.cpp:148-156 | the 32-bit modular addition and the big-endian branch put the same next address on the wire and never host 0 |
| `Addresses.FullCycle` | src/ls_proxy.cpp:139-159 | from any state, the next 255*61001 calls give every address exactly once |
| `Addresses.CycleCloses` | src/ls_proxy.cpp:139-159 | after those calls the generator is back where it was |
| `Addresses.Generator.NextLocalAddr` | src/ls_proxy.cpp:139-159 | advances the static variables to the next address in either byte order |
| `Addresses.Generator.Probe` | src/ls_proxy.cpp:114-130 | reports exhaustion exactly when every address is busy, after trying each once; otherwise takes the first free one |

## Left out

- The HTTP parser library itself, and with it body-length rules; only the automaton's interface is modelled.
- Message framing of bytes a slow-mode client sends past the end of a request: the parser is reset between requests, so only byte conservation is claimed for them.
- Liveness: the source says that data may stay in a queue, and only safety and ledgers are stated.
- Socket set-up, name resolution, signals, graceful-close timers, the resource limit, the 503 reply, `main`, and logging with the expressions inside log statements. One of these is reached after each drained transition queue: src/server.cpp:133-134 reads the size of the queue that line 131 freed. No theorem here covers it.
- The process ending on failed system calls on temporary files, and read errors on them.
- How `Connection`, `Client` and `Server` point at each other: a handler of `Connections` gets the objects it works on as arguments and owns only the flags, so dangling pointers inside one handler are not captured; presence and absence of the objects is a matter of `Machine`.
- Which connections the switch-to-slow signal and the monitor visit, and in which order; `SetSlow` and `Tick` are events of one connection.
- The event loop's timeout on a server read outside the transition.
- The total of all descriptors (sockets that linger after close are not counted); only buffers are.
- Files.Filebuf.Store: on an unreliable disk a hard error ends the process inside the call, which the contract does not show; `FileWrite` does.
