/** One connection as a state machine: what every event handler does to the mode flags, the objects,
    the armed events and the buffers (src/connection.cpp, src/client.cpp, src/server.cpp). */
module Machine {
  import opened Base
  import opened Control
  import opened Files
  import opened Parsing

  const RING_ROOM: nat := SOCK_IO_BUF_SIZE - 1

  /** The response buffer: everything stored, and how much of it the reader has taken. */
  datatype Fifo = Fifo(content: Bytes, readerPos: nat) {
    function Unread(): Bytes
      requires readerPos <= |content|
    {
      content[readerPos..]
    }

    function Store(data: Bytes): Fifo {
      Fifo(content + data, readerPos)
    }
  }

  /** What crossed the sockets of the connection, and what became of bytes that went no further.

      `cinFast`, `cinSlow`   read from the client before and after the switch to slow mode
      `soutFast`, `soutSlow` written to the fast-mode server and to the slow-mode servers
      `sin`, `cout`          read from servers, written to the client
      `unsent`               read for the fast-mode server but not written when it was freed
      `retrieved`            the history copied to the request buffer by the switch
      `parseFrom`            offset in the client stream where the current parse began
      `hole`, `holeAt`       server bytes that skip delivery, and their place in the delivered stream
      `served`               slow-mode servers created so far
      `swapSkipped`          some slow response ended before its request was done forwarding */
  datatype Ledger = Ledger(
    cinFast: Bytes, cinSlow: Bytes,
    soutFast: Bytes, soutSlow: Bytes,
    sin: Bytes, cout: Bytes,
    unsent: Bytes, retrieved: Bytes, parseFrom: nat,
    hole: Bytes, holeAt: nat,
    served: nat, swapSkipped: bool)

  datatype Conn = Conn(
    alive: bool, flags: Flags,
    parser: Option<nat>, server: bool,
    clientQueue: Option<Bytes>, serverQueue: Option<Bytes>, history: Option<Bytes>,
    requestBuf: Option<File>, requestTmpBuf: Option<File>, responseBuf: Option<Fifo>,
    ledger: Ledger)

  const NEW_LEDGER := Ledger([], [], [], [], [], [], [], [], 0, [], 0, 0, false)

  /** As left by `accept_new`. */
  const NEW_CONN := Conn(
    true, NEW_FLAGS, None, false, None, None, Some([]), None, None, None, NEW_LEDGER)

  /** An event with what the environment made of it: bytes and end of file read, bytes the peer
      accepted, whether connecting to the server worked, whether the client socket is broken. */
  datatype Event =
    | ClientReadable(data: Bytes, eof: bool, connected: bool, written: nat)
    | ClientWritable(written: nat, broken: bool)
    | ServerReadable(data: Bytes, eof: bool, written: nat)
    | ServerTimeout
    | ServerWritable(written: nat)
    | SetSlow
    | Tick

  /** A handler finishes, or it dereferences an absent object or trips an assertion. */
  datatype Outcome = Done(conn: Conn) | Crash

  /** The destructor: every object goes, the ledger stays. */
  function Delete(c: Conn): Conn {
    c.(alive := false, flags := c.flags.Disarmed(), parser := None, server := false,
       clientQueue := None, serverQueue := None, history := None,
       requestBuf := None, requestTmpBuf := None, responseBuf := None)
  }

  /** The server goes; what was queued for it is written down as unsent. */
  function FreeServer(c: Conn): Conn {
    c.(server := false, serverQueue := None,
       ledger := c.ledger.(unsent := c.ledger.unsent + c.serverQueue.GetOr([])))
  }

  /** What the ring takes of a chunk. */
  function Enqueue(queue: Bytes, data: Bytes): Bytes {
    queue + data[..Min(|data|, if |queue| <= RING_ROOM then RING_ROOM - |queue| else 0)]
  }

  // ---------------------------------------------------------------- fast mode

  ghost function ForwardRequest(h: Http, c: Conn, data: Bytes, eof: bool, written: nat): Outcome {
    if !c.server || c.serverQueue.None? || c.parser.None? || c.history.None? || c.clientQueue.None? then Crash
    else
      var pending := c.clientQueue.value != [];
      match Scan(h, c.parser.value, data)
      case Malformed =>
        var c1 := FreeServer(c).(
          parser := None, flags := c.flags.AfterRequest(|data|, false, pending, eof, 0),
          ledger := c.ledger.(cinFast := c.ledger.cinFast + data,
                              unsent := c.ledger.unsent + c.serverQueue.value + data));
        Done(if pending then c1 else Delete(c1))
      case Parsed(state, _, last) =>
        var queue := Enqueue(c.serverQueue.value, data);
        var n := Min(written, |queue|);
        var c1 := c.(
          parser := Some(state),
          history := Some(if last.Some? then data[last.value..] else c.history.value + data),
          serverQueue := Some(queue[n..]),
          flags := c.flags.AfterRequest(|data|, true, pending, eof, n),
          ledger := c.ledger.(cinFast := c.ledger.cinFast + data, soutFast := c.ledger.soutFast + queue[..n]));
        Done(if eof then Delete(c1) else c1)
  }

  function ForwardResponse(c: Conn, data: Bytes, eof: bool, written: nat): Outcome {
    if c.clientQueue.None? || !c.server then Crash
    else
      var queue := Enqueue(c.clientQueue.value, data);
      var n := Min(written, |queue|);
      var c1 := c.(
        clientQueue := Some(queue[n..]), flags := c.flags.AfterResponse(eof, n < |queue|, n),
        ledger := c.ledger.(sin := c.ledger.sin + data, cout := c.ledger.cout + queue[..n]));
      if !eof then Done(c1)
      else if n < |queue| then Done(FreeServer(c1).(parser := None))
      else Done(Delete(FreeServer(c1)))
  }

  // --------------------------------------------------------- the switch to slow mode

  /** Bytes that reached the client or are queued for it, in order. */
  ghost function Delivered(c: Conn): Bytes {
    c.ledger.cout
    + (if c.flags.fastMode then c.clientQueue.GetOr([]) else [])
    + (if c.responseBuf.Some? && c.responseBuf.value.readerPos <= |c.responseBuf.value.content|
       then c.responseBuf.value.Unread() else [])
  }

  ghost function SetSlowMode(h: Http, c: Conn): Outcome {
    if !c.flags.fastMode || c.flags.inTransition then Done(c)
    else if c.parser.None? then
      Done(c.(flags := c.flags.AfterSwitch(false, false),
              requestBuf := Some(EMPTY_FILE), requestTmpBuf := Some(EMPTY_FILE),
              responseBuf := Some(Fifo([], 0)),
              parser := Some(h.start), history := None,
              ledger := c.ledger.(
                parseFrom := |c.ledger.cinFast|,
                hole := c.clientQueue.GetOr([]), holeAt := |c.ledger.cout|)))
    else if !c.server || c.serverQueue.None? || c.history.None? || c.clientQueue.None? then Crash
    else
      var hist := c.history.value;
      Done(c.(flags := c.flags.AfterSwitch(true, c.serverQueue.value != []),
              requestBuf := Some(File(hist, |hist|)), requestTmpBuf := Some(EMPTY_FILE),
              responseBuf := Some(Fifo(c.clientQueue.value, 0)),
              serverQueue := if c.serverQueue.value != [] then c.serverQueue else None,
              history := None, clientQueue := None,
              ledger := c.ledger.(retrieved := hist)))
  }

  // ---------------------------------------------------------------- transition

  function EndTransition(c: Conn): Conn {
    FreeServer(c).(flags := c.flags.AfterTransition())
  }

  ghost function TransitionReadable(c: Conn, data: Bytes, eof: bool): Outcome {
    if c.responseBuf.None? || !c.server then Crash
    else if eof then
      Done(EndTransition(c.(
        ledger := if data == [] then c.ledger
                  else c.ledger.(sin := c.ledger.sin + data, hole := data, holeAt := |Delivered(c)|))))
    else
      Done(c.(responseBuf := Some(c.responseBuf.value.Store(data)),
              flags := c.flags.(clientWrite := true),
              ledger := c.ledger.(sin := c.ledger.sin + data)))
  }

  function TransitionWritable(c: Conn, written: nat): Outcome {
    if !c.server || c.serverQueue.None? then Crash
    else
      var queue := c.serverQueue.value;
      var n := Min(written, |queue|);
      Done(c.(serverQueue := if n == |queue| then None else Some(queue[n..]),
              flags := c.flags.AfterQueueWrite(n == |queue|),
              ledger := c.ledger.(soutFast := c.ledger.soutFast + queue[..n])))
  }

  // ---------------------------------------------------------------- slow mode

  ghost function SlowReceive(h: Http, c: Conn, data: Bytes, eof: bool, connected: bool): Outcome {
    var c1 := c.(ledger := c.ledger.(cinSlow := c.ledger.cinSlow + data));
    if eof then Done(Delete(c1))
    else if c.parser.None? || c.requestBuf.None? || c.requestTmpBuf.None? || c.responseBuf.None? then Crash
    else if !c.requestBuf.value.Valid() || !c.requestTmpBuf.value.Valid() then Crash
    else
      var pending := c.responseBuf.value.content != [];
      match Scan(h, c.parser.value, data)
      case Malformed =>
        if c.server then Crash
        else
          var c2 := c1.(parser := None, flags := c.flags.AfterSlowReceive(false, false, pending, false, connected));
          Done(if pending then c2 else Delete(c2))
      case Parsed(state, first, _) =>
        var flags := c.flags.AfterSlowReceive(false, true, pending, first.Some?, connected);
        if first.None? then
          Done(c1.(requestBuf := Some(c.requestBuf.value.Write(data)), parser := Some(state), flags := flags))
        else if !connected then
          Done(Delete(c1))
        else
          var rest := data[first.value..];
          Done(c1.(
            requestBuf := Some(c.requestBuf.value.Write(data[..first.value]).(pos := 0)),
            requestTmpBuf := if rest != [] then Some(c.requestTmpBuf.value.Write(rest)) else c.requestTmpBuf,
            parser := Some(h.toResponse(state)), flags := flags,
            server := true, serverQueue := None,
            ledger := c1.ledger.(served := c1.ledger.served + 1)))
  }

  ghost function SlowResponse(h: Http, c: Conn, data: Bytes, eof: bool): Outcome {
    if c.responseBuf.None? || c.parser.None? || !c.server then Crash
    else
      var content := c.responseBuf.value.content + data;
      var c1 := c.(responseBuf := Some(c.responseBuf.value.Store(data)),
                   ledger := c.ledger.(sin := c.ledger.sin + data));
      match Scan(h, c.parser.value, data)
      case Malformed =>
        var c2 := FreeServer(c1).(parser := None, flags := c.flags.AfterSlowResponse(false, content != [], false));
        Done(if content != [] then c2 else Delete(c2))
      case Parsed(state, _, last) =>
        var complete := eof || last.Some?;
        var flags := c.flags.AfterSlowResponse(true, content != [], complete);
        if !complete then Done(c1.(parser := Some(state), flags := flags))
        else
          var c2 := FreeServer(c1);
          Done(c2.(
            parser := Some(h.toRequest(state)), flags := flags,
            ledger := c2.ledger.(swapSkipped := c.ledger.swapSkipped || c.flags.serverWrite)))
  }

  function SlowSend(c: Conn, written: nat): Outcome {
    if !c.server || c.requestBuf.None? || c.requestTmpBuf.None? then Crash
    else if !c.requestBuf.value.Valid() then Crash
    else
      var f := c.requestBuf.value;
      var n := Min(written, |f.Unread()|);
      if f.AtEnd() then
        Done(c.(flags := c.flags.AfterQueueWrite(true),
                requestBuf := c.requestTmpBuf, requestTmpBuf := Some(EMPTY_FILE)))
      else
        Done(c.(requestBuf := Some(f.(pos := f.pos + n)),
                ledger := c.ledger.(soutSlow := c.ledger.soutSlow + f.Unread()[..n])))
  }

  function SlowReply(c: Conn, written: nat): Outcome {
    if c.responseBuf.None? then Crash
    else if c.responseBuf.value.readerPos > |c.responseBuf.value.content| then Crash
    else
      var q := c.responseBuf.value;
      var n := Min(written, |q.Unread()|);
      if q.readerPos < |q.content| then
        Done(c.(responseBuf := Some(q.(readerPos := q.readerPos + n)),
                ledger := c.ledger.(cout := c.ledger.cout + q.Unread()[..n])))
      else if c.parser.None? then Done(Delete(c))
      else Done(c.(flags := c.flags.(clientWrite := false)))
  }

  // ---------------------------------------------------------------- the callbacks

  function Connect(h: Http, c: Conn): Conn {
    c.(parser := Some(h.start), server := true, serverQueue := Some([]), clientQueue := Some([]),
       flags := c.flags.(serverRead := true))
  }

  ghost function OnClientReadable(h: Http, c: Conn, data: Bytes, eof: bool, connected: bool, written: nat): Outcome {
    if !c.flags.fastMode then SlowReceive(h, c, data, eof, connected)
    else if c.parser.Some? then ForwardRequest(h, c, data, eof, written)
    else if !connected then Done(Delete(c))
    else ForwardRequest(h, Connect(h, c), data, eof, written)
  }

  function OnClientWritable(c: Conn, written: nat, broken: bool): Outcome {
    if !c.flags.fastMode then SlowReply(c, written)
    else if c.clientQueue.None? then Crash
    else
      var queue := c.clientQueue.value;
      var n := Min(written, |queue|);
      var c1 := c.(clientQueue := Some(queue[n..]),
                   ledger := c.ledger.(cout := c.ledger.cout + queue[..n]));
      if c.server then Done(c1.(flags := c.flags.(serverRead := true, clientWrite := false)))
      else if broken || n == |queue| then Done(Delete(c1))
      else Done(c1)
  }

  ghost function OnServerReadable(h: Http, c: Conn, data: Bytes, eof: bool, written: nat): Outcome {
    if c.flags.fastMode then ForwardResponse(c, data, eof, written)
    else if c.flags.inTransition then TransitionReadable(c, data, eof)
    else SlowResponse(h, c, data, eof)
  }

  function OnServerWritable(c: Conn, written: nat): Outcome {
    if !c.server then Crash
    else if !c.flags.fastMode then
      (if c.flags.inTransition then TransitionWritable(c, written) else SlowSend(c, written))
    else if c.serverQueue.None? then Crash
    else
      var queue := c.serverQueue.value;
      var n := Min(written, |queue|);
      Done(c.(flags := c.flags.(clientRead := true, serverWrite := false), serverQueue := Some(queue[n..]),
              ledger := c.ledger.(soutFast := c.ledger.soutFast + queue[..n])))
  }

  /** The data-rate monitor visits one connection. */
  ghost function OnTick(h: Http, c: Conn): Outcome {
    match c.flags.Verdict()
    case Drop => Done(Delete(c))
    case Demote =>
      var r := SetSlowMode(h, c);
      if r.Crash? then Crash else Done(r.conn.(flags := r.conn.flags.ResetCounters()))
    case Spare => Done(c.(flags := c.flags.ResetCounters()))
  }

  ghost function Step(h: Http, c: Conn, e: Event): Outcome {
    match e
    case ClientReadable(data, eof, connected, written) => OnClientReadable(h, c, data, eof, connected, written)
    case ClientWritable(written, broken) => OnClientWritable(c, written, broken)
    case ServerReadable(data, eof, written) => OnServerReadable(h, c, data, eof, written)
    case ServerTimeout => if !c.server then Crash else if c.flags.inTransition then Done(EndTransition(c)) else Done(c)
    case ServerWritable(written) => OnServerWritable(c, written)
    case SetSlow => SetSlowMode(h, c)
    case Tick => OnTick(h, c)
  }

  /** Room left for a fast-mode read from the client. */
  function RequestRoom(c: Conn): nat {
    var used := |c.serverQueue.GetOr([])|;
    if used <= RING_ROOM then RING_ROOM - used else 0
  }

  function ResponseRoom(c: Conn): nat {
    var used := |c.clientQueue.GetOr([])|;
    if used <= RING_ROOM then RING_ROOM - used else 0
  }

  /** A read of at most `room` bytes. It may fail with nothing read; end of file leaves room. */
  predicate LegalRead(data: Bytes, eof: bool, room: nat) {
    |data| <= room && (eof ==> |data| < room)
  }

  /** What the event loop and the kernel may do to a live connection. */
  predicate Enabled(c: Conn, e: Event) {
    && c.alive
    && match e
       case ClientReadable(data, eof, connected, written) =>
         && c.flags.clientRead
         && LegalRead(data, eof, if c.flags.fastMode then RequestRoom(c) else SOCK_IO_BUF_SIZE)
       case ClientWritable(written, broken) => c.flags.clientWrite
       case ServerReadable(data, eof, written) =>
         && c.server && c.flags.serverRead
         && LegalRead(data, eof, if c.flags.fastMode then ResponseRoom(c) else SOCK_IO_BUF_SIZE)
       case ServerTimeout => c.server && c.flags.serverRead && c.flags.inTransition
       case ServerWritable(written) => c.server && c.flags.serverWrite
       case SetSlow => true
       case Tick => true
  }

  /** The event makes a fast-mode connection slow. */
  predicate Switches(c: Conn, e: Event) {
    c.flags.fastMode && (e.SetSlow? || (e.Tick? && c.flags.Verdict().Demote?))
  }

  /** The outcome of a whole run of events from acceptance on. */
  ghost function Run(h: Http, events: seq<Event>): Outcome {
    if |events| == 0 then Done(NEW_CONN)
    else
      var before := Run(h, events[..|events| - 1]);
      if before.Crash? then Crash else Step(h, before.conn, events[|events| - 1])
  }

  /** Every event of the run was possible when it happened; the last one may have crashed. */
  ghost predicate Feasible(h: Http, events: seq<Event>) {
    |events| == 0 ||
    (var before := Run(h, events[..|events| - 1]);
     && Feasible(h, events[..|events| - 1])
     && before.Done?
     && Enabled(before.conn, events[|events| - 1]))
  }
}
