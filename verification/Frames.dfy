/** What each handler leaves alone. */
module Frames {
  import opened Base
  import opened Files
  import opened Parsing
  import opened Control
  import opened Machine
  import opened Invariants

  /** What most handlers leave alone: the mode and the record of lost bytes. Counters never shrink, and
      outside fast mode they do not move at all. */
  predicate Undisturbed(c: Conn, r: Outcome) {
    r.Done? ==>
      && r.conn.flags.fastMode == c.flags.fastMode && r.conn.flags.inTransition == c.flags.inTransition
      && SameParse(c, r.conn)
      && r.conn.ledger.hole == c.ledger.hole && r.conn.ledger.swapSkipped == c.ledger.swapSkipped
      && (if c.flags.fastMode then CountersGrew(c.flags, r.conn.flags) else SameCounters(c.flags, r.conn.flags))
  }

  /** The parse of the client's stream goes on where it was. */
  predicate SameParse(c: Conn, r: Conn) {
    r.ledger.parseFrom == c.ledger.parseFrom
  }

  predicate SameCounters(f: Flags, g: Flags) {
    g.readCount == f.readCount && g.writeCount == f.writeCount
  }

  predicate CountersGrew(f: Flags, g: Flags) {
    g.readCount >= f.readCount && g.writeCount >= f.writeCount
  }

  lemma ForwardRequestFrame(h: Http, c: Conn, data: Bytes, eof: bool, written: nat)
    requires Shape(c) && c.alive && c.flags.fastMode && c.server
    ensures Undisturbed(c, ForwardRequest(h, c, data, eof, written))
  {
  }

  lemma ForwardResponseFrame(c: Conn, data: Bytes, eof: bool, written: nat)
    requires c.flags.fastMode
    ensures Undisturbed(c, ForwardResponse(c, data, eof, written))
  {
    var r := ForwardResponse(c, data, eof, written);
    if r.Done? {
      var queue := Enqueue(c.clientQueue.value, data);
      var n := Min(written, |queue|);
      ResponseFlagsFrame(c.flags, eof, n < |queue|, n);
      ResponseLedgerFrame(c, data, eof, written);
    }
  }

  lemma ResponseFlagsFrame(f: Flags, eof: bool, pending: bool, written: nat)
    ensures var g := f.AfterResponse(eof, pending, written);
            && g.fastMode == f.fastMode && g.inTransition == f.inTransition
            && g.readCount == f.readCount && g.writeCount == f.writeCount + written
  {
  }

  lemma ResponseLedgerFrame(c: Conn, data: Bytes, eof: bool, written: nat)
    requires ForwardResponse(c, data, eof, written).Done?
    ensures var r := ForwardResponse(c, data, eof, written).conn;
            && r.ledger == c.ledger.(sin := r.ledger.sin, cout := r.ledger.cout, unsent := r.ledger.unsent)
            && var queue := Enqueue(c.clientQueue.value, data);
               var n := Min(written, |queue|);
               var f := c.flags.AfterResponse(eof, n < |queue|, n);
               r.flags == f || r.flags == f.Disarmed()
  {
  }

  lemma SlowReceiveFrame(h: Http, c: Conn, data: Bytes, eof: bool, connected: bool)
    requires Shape(c) && c.alive && !c.flags.fastMode && c.flags.clientRead
    ensures Undisturbed(c, SlowReceive(h, c, data, eof, connected))
  {
  }

  lemma FastWritableFrame(c: Conn, written: nat, broken: bool)
    requires Shape(c) && c.alive && c.flags.fastMode
    ensures Undisturbed(c, OnClientWritable(c, written, broken))
  {
  }

  lemma ReplyFrame(c: Conn, written: nat)
    requires Shape(c) && c.alive && !c.flags.fastMode
    ensures Undisturbed(c, SlowReply(c, written))
  {
  }

  lemma FastServerWritableFrame(c: Conn, written: nat)
    requires Shape(c) && c.alive && c.flags.fastMode && c.server
    ensures Undisturbed(c, OnServerWritable(c, written))
  {
  }

  lemma TransitionWritableFrame(c: Conn, written: nat)
    requires Shape(c) && c.alive && !c.flags.fastMode && c.flags.inTransition
    ensures Undisturbed(c, TransitionWritable(c, written))
  {
  }

  lemma SlowSendFrame(c: Conn, written: nat)
    requires Shape(c) && c.alive && !c.flags.fastMode && c.server
    ensures Undisturbed(c, SlowSend(c, written))
  {
  }

  /** Outside fast mode no counter moves. */
  predicate StillSlow(c: Conn, r: Conn) {
    !r.flags.fastMode && SameParse(c, r) && SameCounters(c.flags, r.flags)
  }

  lemma SlowResponseFrame(h: Http, c: Conn, data: Bytes, eof: bool)
    requires Shape(c) && c.alive && !c.flags.fastMode && !c.flags.inTransition && c.server
    ensures var r := SlowResponse(h, c, data, eof);
            r.Done? && StillSlow(c, r.conn) && !r.conn.flags.inTransition && r.conn.ledger.hole == c.ledger.hole
    ensures SlowResponse(h, c, data, eof).conn.ledger.swapSkipped <==>
            c.ledger.swapSkipped || SkipsSwap(h, c, ServerReadable(data, eof, 0))
  {
  }

  lemma TransitionFrame(c: Conn, data: Bytes, eof: bool)
    requires Shape(c) && c.alive && c.flags.inTransition
    ensures var r := TransitionReadable(c, data, eof);
            && r.Done? && StillSlow(c, r.conn)
            && r.conn.ledger.swapSkipped == c.ledger.swapSkipped
            && r.conn.ledger.hole == if eof && data != [] then data else c.ledger.hole
  {
  }

  /** The server's response is complete or cut off. */
  ghost predicate EndsResponse(h: Http, c: Conn, e: Event) {
    && e.ServerReadable? && !c.flags.fastMode && !c.flags.inTransition && c.parser.Some?
    && var p := Scan(h, c.parser.value, e.data);
       p.Parsed? && (e.eof || p.last.Some?)
  }

  /** ... and the request was not done forwarding. */
  ghost predicate SkipsSwap(h: Http, c: Conn, e: Event) {
    EndsResponse(h, c, e) && c.flags.serverWrite
  }

  predicate Plain(c: Conn, e: Event) {
    e.ClientReadable? || e.ClientWritable? || e.ServerWritable? || (e.ServerReadable? && c.flags.fastMode)
  }

  lemma PlainFrame(h: Http, c: Conn, e: Event)
    requires Shape(c) && Enabled(c, e) && Plain(c, e)
    ensures Undisturbed(c, Step(h, c, e))
  {
    match e
    case ClientReadable(data, eof, connected, written) =>
      if !c.flags.fastMode {
        SlowReceiveFrame(h, c, data, eof, connected);
      } else if c.parser.Some? {
        ForwardRequestFrame(h, c, data, eof, written);
      } else if connected {
        ForwardRequestFrame(h, Connect(h, c), data, eof, written);
      }
    case ClientWritable(written, broken) =>
      if c.flags.fastMode {
        FastWritableFrame(c, written, broken);
      } else {
        ReplyFrame(c, written);
      }
    case ServerReadable(data, eof, written) =>
      ForwardResponseFrame(c, data, eof, written);
    case ServerWritable(written) =>
      if c.flags.fastMode {
        FastServerWritableFrame(c, written);
      } else if c.flags.inTransition {
        TransitionWritableFrame(c, written);
      } else {
        SlowSendFrame(c, written);
      }
  }

  // ---------------------------------------------------------------- consequences

  /** There is no way back to fast mode, and a transition ends once. */
  lemma NoWayBack(h: Http, c: Conn, e: Event)
    requires Shape(c) && Enabled(c, e) && Step(h, c, e).Done? && !c.flags.fastMode
    ensures !Step(h, c, e).conn.flags.fastMode
    ensures !c.flags.inTransition ==> !Step(h, c, e).conn.flags.inTransition
  {
    if Plain(c, e) {
      PlainFrame(h, c, e);
    } else if e.ServerReadable? {
      if c.flags.inTransition {
        TransitionFrame(c, e.data, e.eof);
      } else {
        SlowResponseFrame(h, c, e.data, e.eof);
      }
    }
  }
}
