/** What each event does to a connection, stated over the ledgers and the parser: when it ends the
    connection, when it changes the mode, when servers and parsers come and go. */
module Events {
  import opened Base
  import opened Files
  import opened Parsing
  import opened Control
  import opened Machine
  import opened Invariants
  import opened Preservation
  import opened Frames

  // ---------------------------------------------------------------- what the parser says

  /** The event hands bytes to the parser. In a transition nobody parses, and a slow-mode client's bytes
      are not parsed when they come with its end of file. */
  predicate Parses(c: Conn, e: Event) {
    match e
    case ClientReadable(_, eof, connected, _) => if c.flags.fastMode then c.parser.Some? || connected else !eof
    case ServerReadable(_, _, _) => !c.flags.fastMode && !c.flags.inTransition
    case _ => false
  }

  ghost function ParseOf(h: Http, c: Conn, e: Event): Parse
    requires Parses(c, e)
  {
    Scan(h, c.parser.GetOr(h.start), e.data)
  }

  ghost predicate Rejects(h: Http, c: Conn, e: Event) {
    Parses(c, e) && ParseOf(h, c, e).Malformed?
  }

  /** A slow-mode request is complete. */
  ghost predicate CompletesRequest(h: Http, c: Conn, e: Event) {
    && e.ClientReadable? && !c.flags.fastMode && Parses(c, e)
    && ParseOf(h, c, e).Parsed? && ParseOf(h, c, e).first.Some?
  }

  /** A slow-mode response is complete or cut off. */
  ghost predicate CompletesResponse(h: Http, c: Conn, e: Event) {
    && e.ServerReadable? && Parses(c, e)
    && ParseOf(h, c, e).Parsed? && (e.eof || ParseOf(h, c, e).last.Some?)
  }

  // ---------------------------------------------------------------- the mode

  predicate EndsTransition(e: Event) {
    e.ServerTimeout? || (e.ServerReadable? && e.eof)
  }

  /** Fast mode ends with a switch and in no other way; a transition starts with the switch of a running
      connection and ends when the server closes or is silent. */
  lemma ModeIff(h: Http, c: Conn, e: Event, r: Conn)
    requires Inv(h, c) && Enabled(c, e) && Step(h, c, e) == Done(r)
    ensures r.flags.fastMode <==> c.flags.fastMode && !Switches(c, e)
    ensures r.alive ==> (r.flags.inTransition <==>
              (Switches(c, e) && c.parser.Some?) || (c.flags.inTransition && !EndsTransition(e)))
  {
    if Plain(c, e) {
      PlainFrame(h, c, e);
    } else if e.ServerReadable? {
      if c.flags.inTransition {
        TransitionFrame(c, e.data, e.eof);
        TransitionMode(c, e.data, e.eof);
      } else {
        SlowResponseFrame(h, c, e.data, e.eof);
      }
    }
  }

  lemma TransitionMode(c: Conn, data: Bytes, eof: bool)
    requires c.server && c.responseBuf.Some? && c.flags.inTransition
    ensures TransitionReadable(c, data, eof).Done?
    ensures TransitionReadable(c, data, eof).conn.flags.inTransition == !eof
  {
  }

  // ---------------------------------------------------------------- the end of a connection

  /** Bytes read from the fast-mode server and not written to the client. */
  function Undelivered(l: Ledger): int {
    |l.sin| - |l.cout|
  }

  /** Stored for the client and not written to it, outside fast mode. */
  function Unread(c: Conn): Bytes {
    if c.responseBuf.Some? && c.responseBuf.value.readerPos <= |c.responseBuf.value.content|
    then c.responseBuf.value.Unread() else []
  }

  /** Exactly the events that end a live connection. */
  ghost predicate Ends(h: Http, c: Conn, e: Event) {
    match e
    case ClientReadable(data, eof, connected, _) =>
      if c.flags.fastMode then
        || (c.parser.None? && !connected)
        || (if Rejects(h, c, e) then Undelivered(c.ledger) == 0 else eof)
      else
        || eof
        || (Rejects(h, c, e) && c.responseBuf == Some(Fifo([], 0)))
        || (CompletesRequest(h, c, e) && !connected)
    case ClientWritable(written, broken) =>
      if c.flags.fastMode then !c.server && (broken || Undelivered(c.ledger) <= written)
      else c.parser.None? && Unread(c) == []
    case ServerReadable(data, eof, written) =>
      c.flags.fastMode && eof && Undelivered(c.ledger) + |data| <= written
    case Tick => c.flags.readCount < 1000 && c.flags.writeCount < 1000
    case _ => false
  }

  lemma FastUndelivered(c: Conn)
    requires Shape(c) && ResponseInv(c) && c.alive && c.flags.fastMode
    ensures Undelivered(c.ledger) == |c.clientQueue.GetOr([])|
    ensures c.ledger.sin == c.ledger.cout + c.clientQueue.GetOr([])
  {
    NoHole(c.ledger.sin, Delivered(c));
  }

  lemma ForwardRequestEnds(h: Http, c: Conn, data: Bytes, eof: bool, written: nat)
    requires Shape(c) && ResponseInv(c) && c.alive && c.flags.fastMode && c.server
    ensures ForwardRequest(h, c, data, eof, written).Done?
    ensures ForwardRequest(h, c, data, eof, written).conn.alive <==>
            !(if Scan(h, c.parser.value, data).Malformed? then Undelivered(c.ledger) == 0 else eof)
  {
    FastUndelivered(c);
  }

  lemma ForwardResponseEnds(c: Conn, data: Bytes, eof: bool, written: nat)
    requires Shape(c) && ResponseInv(c) && CanForwardResponse(c, data, eof)
    ensures ForwardResponse(c, data, eof, written).Done?
    ensures ForwardResponse(c, data, eof, written).conn.alive <==>
            !(eof && Undelivered(c.ledger) + |data| <= written)
  {
    FastUndelivered(c);
    EnqueueAll(c.clientQueue.value, data);
  }

  lemma SlowReceiveEnds(h: Http, c: Conn, data: Bytes, eof: bool, connected: bool)
    requires Shape(c) && CanReceive(c)
    ensures SlowReceive(h, c, data, eof, connected).Done?
    ensures var p := Scan(h, c.parser.value, data);
            SlowReceive(h, c, data, eof, connected).conn.alive <==>
              !(eof || (p.Malformed? && c.responseBuf.value.content == [])
                    || (p.Parsed? && p.first.Some? && !connected))
  {
  }

  lemma ClientReadableEnds(h: Http, c: Conn, e: Event, r: Conn)
    requires Inv(h, c) && Enabled(c, e) && e.ClientReadable? && Step(h, c, e) == Done(r)
    ensures r.alive <==> !Ends(h, c, e)
  {
    if !c.flags.fastMode {
      SlowReceiveEnds(h, c, e.data, e.eof, e.connected);
    } else if c.parser.Some? {
      ForwardRequestEnds(h, c, e.data, e.eof, e.written);
    } else if e.connected {
      ConnectKeeps(h, c);
      ForwardRequestEnds(h, Connect(h, c), e.data, e.eof, e.written);
    }
  }

  lemma ClientWritableEnds(h: Http, c: Conn, written: nat, broken: bool)
    requires Inv(h, c) && Enabled(c, ClientWritable(written, broken))
    ensures OnClientWritable(c, written, broken).Done?
    ensures OnClientWritable(c, written, broken).conn.alive <==> !Ends(h, c, ClientWritable(written, broken))
  {
    if c.flags.fastMode {
      FastUndelivered(c);
    }
  }

  lemma ServerReadableEnds(h: Http, c: Conn, data: Bytes, eof: bool, written: nat)
    requires Inv(h, c) && Enabled(c, ServerReadable(data, eof, written))
    ensures OnServerReadable(h, c, data, eof, written).Done?
    ensures OnServerReadable(h, c, data, eof, written).conn.alive <==> !Ends(h, c, ServerReadable(data, eof, written))
  {
    if c.flags.fastMode {
      ForwardResponseEnds(c, data, eof, written);
    } else if !c.flags.inTransition {
      SlowResponseLives(h, c, data, eof);
    }
  }

  /** A malformed chunk is stored before it is parsed, so something is left to deliver. */
  lemma SlowResponseLives(h: Http, c: Conn, data: Bytes, eof: bool)
    requires Shape(c) && CanRespond(c)
    ensures SlowResponse(h, c, data, eof).Done? && SlowResponse(h, c, data, eof).conn.alive
  {
    if data == [] {
      assert Scan(h, c.parser.value, data).Parsed?;
    }
  }

  lemma SwitchLives(h: Http, c: Conn)
    requires SetSlowMode(h, c).Done?
    ensures SetSlowMode(h, c).conn.alive == c.alive
  {
  }

  lemma TickEnds(h: Http, c: Conn)
    requires c.alive && SetSlowMode(h, c).Done?
    ensures OnTick(h, c).Done?
    ensures OnTick(h, c).conn.alive <==> !(c.flags.readCount < 1000 && c.flags.writeCount < 1000)
  {
    SwitchLives(h, c);
  }

  lemma TimeoutLives(c: Conn)
    ensures EndTransition(c).alive == c.alive
  {
  }

  lemma ServerWritableLives(c: Conn, written: nat)
    requires OnServerWritable(c, written).Done?
    ensures OnServerWritable(c, written).conn.alive == c.alive
  {
  }

  lemma OtherEnds(h: Http, c: Conn, e: Event, r: Conn)
    requires Inv(h, c) && Enabled(c, e) && Step(h, c, e) == Done(r)
    requires e.SetSlow? || e.Tick? || e.ServerTimeout? || e.ServerWritable?
    ensures r.alive <==> !Ends(h, c, e)
  {
    if e.SetSlow? {
      SwitchLives(h, c);
    } else if e.Tick? {
      SetSlowKeeps(h, c);
      TickEnds(h, c);
    } else if e.ServerTimeout? {
      TimeoutLives(c);
    } else {
      ServerWritableLives(c, e.written);
    }
  }

  /** An event ends a live connection if and only if it is one of `Ends`. */
  lemma EndsIff(h: Http, c: Conn, e: Event, r: Conn)
    requires Reachable(h, c) && Enabled(c, e) && Step(h, c, e) == Done(r)
    ensures r.alive <==> !Ends(h, c, e)
  {
    ReachableInv(h, c);
    if e.ClientReadable? {
      ClientReadableEnds(h, c, e, r);
    } else if e.ClientWritable? {
      ClientWritableEnds(h, c, e.written, e.broken);
    } else if e.ServerReadable? {
      ServerReadableEnds(h, c, e.data, e.eof, e.written);
    } else {
      OtherEnds(h, c, e, r);
    }
  }

  /** The client is gone, the server cannot be reached, or the monitor ends the connection. */
  predicate Aborts(c: Conn, e: Event) {
    match e
    case ClientReadable(_, eof, connected, _) => eof || !connected
    case ClientWritable(_, broken) => broken
    case Tick => true
    case _ => false
  }

  /** A connection that ends in any other way has delivered everything its servers sent, but for the
      hole. */
  lemma EndsDelivered(h: Http, c: Conn, e: Event, r: Conn)
    requires Reachable(h, c) && Enabled(c, e) && Step(h, c, e) == Done(r) && !r.alive && !Aborts(c, e)
    ensures WithHole(r.ledger.sin, r.ledger.cout, r.ledger.holeAt, r.ledger.hole)
  {
    ReachableInv(h, c);
    EndsIff(h, c, e, r);
    if c.flags.fastMode {
      FastUndelivered(c);
      if e.ClientReadable? {
        RejectedDelivered(h, c, e, r);
      } else if e.ClientWritable? {
        LastWritten(c, e.written);
      } else {
        LastRead(c, e.data, e.written);
      }
    } else {
      SlowEndDelivered(h, c, e, r);
    }
  }

  lemma AllDelivered(l: Ledger)
    requires l.sin == l.cout && l.hole == [] && l.holeAt == 0
    ensures WithHole(l.sin, l.cout, l.holeAt, l.hole)
  {
    assert l.cout[..0] + [] + l.cout[0..] == l.cout;
  }

  lemma RejectedDelivered(h: Http, c: Conn, e: Event, r: Conn)
    requires Inv(h, c) && c.alive && c.flags.fastMode && Undelivered(c.ledger) == 0
    requires e.ClientReadable? && Rejects(h, c, e) && e.connected && Step(h, c, e) == Done(r)
    requires c.server || c.parser.None?
    ensures WithHole(r.ledger.sin, r.ledger.cout, r.ledger.holeAt, r.ledger.hole)
  {
    FastUndelivered(c);
    assert c.clientQueue.GetOr([]) == [];
    assert r.ledger.sin == c.ledger.sin && r.ledger.cout == c.ledger.cout;
    assert r.ledger.hole == c.ledger.hole && r.ledger.holeAt == c.ledger.holeAt;
    AllDelivered(r.ledger);
  }

  lemma LastWritten(c: Conn, written: nat)
    requires Shape(c) && ResponseInv(c) && c.alive && c.flags.fastMode && c.clientQueue.Some?
    requires OnClientWritable(c, written, false).Done? && Undelivered(c.ledger) <= written
    ensures var l := OnClientWritable(c, written, false).conn.ledger;
            WithHole(l.sin, l.cout, l.holeAt, l.hole)
  {
    FastUndelivered(c);
    var queue := c.clientQueue.value;
    assert queue[..|queue|] == queue;
    AllDelivered(OnClientWritable(c, written, false).conn.ledger);
  }

  lemma LastRead(c: Conn, data: Bytes, written: nat)
    requires Shape(c) && ResponseInv(c) && CanForwardResponse(c, data, true)
    requires Undelivered(c.ledger) + |data| <= written
    ensures ForwardResponse(c, data, true, written).Done?
    ensures var l := ForwardResponse(c, data, true, written).conn.ledger;
            WithHole(l.sin, l.cout, l.holeAt, l.hole)
  {
    FastUndelivered(c);
    var queue := c.clientQueue.value + data;
    EnqueueAll(c.clientQueue.value, data);
    assert queue[..|queue|] == queue;
    assert c.ledger.cout + queue == c.ledger.cout + c.clientQueue.value + data;
    AllDelivered(ForwardResponse(c, data, true, written).conn.ledger);
  }

  lemma SlowEndDelivered(h: Http, c: Conn, e: Event, r: Conn)
    requires Inv(h, c) && Enabled(c, e) && Step(h, c, e) == Done(r) && !c.flags.fastMode
    requires (e.ClientReadable? && !e.eof && e.connected && Rejects(h, c, e) && c.responseBuf == Some(Fifo([], 0)))
             || (e.ClientWritable? && Unread(c) == [])
    ensures WithHole(r.ledger.sin, r.ledger.cout, r.ledger.holeAt, r.ledger.hole)
  {
    DeliveredSlow(c);
    assert c.ledger.cout + [] == c.ledger.cout;
    assert r.ledger.sin == c.ledger.sin && r.ledger.cout == c.ledger.cout;
    assert r.ledger.hole == c.ledger.hole && r.ledger.holeAt == c.ledger.holeAt;
  }

  // ---------------------------------------------------------------- servers and parsers

  /** A server is connected for the first byte of a fast-mode client, or for a complete slow-mode request. */
  ghost predicate ServerComes(h: Http, c: Conn, e: Event) {
    && e.ClientReadable? && e.connected && !Rejects(h, c, e)
    && if c.flags.fastMode then c.parser.None? else CompletesRequest(h, c, e)
  }

  /** It goes when it closes, when it stays silent in a transition, when its slow-mode response is
      complete, and when bytes are malformed. */
  ghost predicate ServerGoes(h: Http, c: Conn, e: Event) {
    e.ServerTimeout? || (e.ServerReadable? && e.eof) || Rejects(h, c, e) || CompletesResponse(h, c, e)
  }

  ghost predicate ParserComes(c: Conn, e: Event) {
    c.parser.None? && (Switches(c, e) || (e.ClientReadable? && c.flags.fastMode))
  }

  /** It goes with malformed bytes, or with a fast-mode server. */
  ghost predicate ParserGoes(h: Http, c: Conn, e: Event) {
    Rejects(h, c, e) || (e.ServerReadable? && c.flags.fastMode && e.eof)
  }

  ghost predicate PeersIff(h: Http, c: Conn, e: Event, r: Conn) {
    r.alive ==>
      && (r.server <==> ServerComes(h, c, e) || (c.server && !ServerGoes(h, c, e)))
      && (r.parser.Some? <==> (ParserComes(c, e) && !Rejects(h, c, e)) || (c.parser.Some? && !ParserGoes(h, c, e)))
  }

  lemma ForwardRequestPeers(h: Http, c: Conn, data: Bytes, eof: bool, written: nat)
    requires Shape(c) && c.alive && c.flags.fastMode && c.server
    ensures ForwardRequest(h, c, data, eof, written).Done?
    ensures var r := ForwardRequest(h, c, data, eof, written).conn;
            r.alive ==> r.server == r.parser.Some? == Scan(h, c.parser.value, data).Parsed?
  {
  }

  lemma ClientReadablePeers(h: Http, c: Conn, e: Event, r: Conn)
    requires Inv(h, c) && Enabled(c, e) && e.ClientReadable? && Step(h, c, e) == Done(r)
    ensures PeersIff(h, c, e, r)
  {
    if !c.flags.fastMode {
      SlowReceivePeers(h, c, e);
    } else if c.parser.Some? {
      ForwardRequestPeers(h, c, e.data, e.eof, e.written);
    } else if e.connected {
      ConnectKeeps(h, c);
      ForwardRequestPeers(h, Connect(h, c), e.data, e.eof, e.written);
    }
  }

  lemma SlowReceivePeers(h: Http, c: Conn, e: Event)
    requires Shape(c) && CanReceive(c) && e.ClientReadable?
    ensures SlowReceive(h, c, e.data, e.eof, e.connected).Done?
    ensures PeersIff(h, c, e, SlowReceive(h, c, e.data, e.eof, e.connected).conn)
  {
  }

  lemma ServerReadablePeers(h: Http, c: Conn, e: Event, r: Conn)
    requires Inv(h, c) && Enabled(c, e) && e.ServerReadable? && Step(h, c, e) == Done(r)
    ensures PeersIff(h, c, e, r)
  {
    if c.flags.fastMode {
      ForwardResponsePeers(h, c, e);
    } else if c.flags.inTransition {
      TransitionPeers(h, c, e);
    } else {
      SlowResponsePeers(h, c, e);
    }
  }

  lemma ForwardResponsePeers(h: Http, c: Conn, e: Event)
    requires Shape(c) && c.alive && c.flags.fastMode && c.server && e.ServerReadable?
    ensures ForwardResponse(c, e.data, e.eof, e.written).Done?
    ensures PeersIff(h, c, e, ForwardResponse(c, e.data, e.eof, e.written).conn)
  {
  }

  lemma TransitionPeers(h: Http, c: Conn, e: Event)
    requires Shape(c) && c.alive && c.flags.inTransition && e.ServerReadable?
    ensures TransitionReadable(c, e.data, e.eof).Done?
    ensures PeersIff(h, c, e, TransitionReadable(c, e.data, e.eof).conn)
  {
  }

  lemma SlowResponsePeers(h: Http, c: Conn, e: Event)
    requires Shape(c) && CanRespond(c) && e.ServerReadable?
    ensures SlowResponse(h, c, e.data, e.eof).Done?
    ensures PeersIff(h, c, e, SlowResponse(h, c, e.data, e.eof).conn)
  {
  }

  lemma OtherPeers(h: Http, c: Conn, e: Event, r: Conn)
    requires Inv(h, c) && Enabled(c, e) && Step(h, c, e) == Done(r)
    requires e.ClientWritable? || e.ServerWritable? || e.ServerTimeout?
    ensures PeersIff(h, c, e, r)
  {
    if e.ClientWritable? {
      assert r.alive ==> r.server == c.server && r.parser == c.parser;
    } else if e.ServerWritable? {
      assert r.server == c.server && r.parser == c.parser;
    } else {
      assert !r.server && r.parser == c.parser;
    }
  }

  lemma SwitchPeers(h: Http, c: Conn)
    requires SetSlowMode(h, c).Done?
    ensures var r := SetSlowMode(h, c).conn;
            && r.server == c.server && r.alive == c.alive
            && (r.parser.Some? <==> c.parser.Some? || (c.flags.fastMode && !c.flags.inTransition))
  {
  }

  lemma DemotionPeers(h: Http, c: Conn, e: Event, r: Conn)
    requires Inv(h, c) && Enabled(c, e) && Step(h, c, e) == Done(r) && (e.SetSlow? || e.Tick?)
    ensures PeersIff(h, c, e, r)
  {
    DemotionStep(h, c, e, r);
    SwitchPeers(h, c);
  }

  /** A switch or a tick: the switched connection, or the old one, up to the counters. */
  lemma DemotionStep(h: Http, c: Conn, e: Event, r: Conn)
    requires Inv(h, c) && c.alive && Step(h, c, e) == Done(r) && (e.SetSlow? || e.Tick?)
    ensures SetSlowMode(h, c).Done?
    ensures r.alive ==> DemotedTo(if Switches(c, e) then SetSlowMode(h, c).conn else c, r)
  {
    SetSlowKeeps(h, c);
    if e.SetSlow? {
      SetSlowStep(h, c, r);
    } else {
      TickStep(h, c);
    }
  }

  predicate DemotedTo(s: Conn, r: Conn) {
    r == s.(flags := s.flags.(readCount := r.flags.readCount, writeCount := r.flags.writeCount))
  }

  lemma SetSlowStep(h: Http, c: Conn, r: Conn)
    requires Step(h, c, SetSlow) == Done(r) && (c.flags.fastMode ==> !c.flags.inTransition)
    ensures SetSlowMode(h, c) == Done(r)
    ensures !c.flags.fastMode ==> r == c
  {
  }

  lemma TickStep(h: Http, c: Conn)
    requires SetSlowMode(h, c).Done?
    ensures OnTick(h, c).Done?
    ensures OnTick(h, c) == match c.flags.Verdict()
                            case Drop => Done(Delete(c))
                            case Demote => Done(SetSlowMode(h, c).conn.(
                                             flags := SetSlowMode(h, c).conn.flags.ResetCounters()))
                            case Spare => Done(c.(flags := c.flags.ResetCounters()))
  {
  }

  /** Exactly when a live connection has a server and a parser after an event. */
  lemma ServerIff(h: Http, c: Conn, e: Event, r: Conn)
    requires Reachable(h, c) && Enabled(c, e) && Step(h, c, e) == Done(r) && r.alive
    ensures r.server <==> ServerComes(h, c, e) || (c.server && !ServerGoes(h, c, e))
    ensures r.parser.Some? <==> (ParserComes(c, e) && !Rejects(h, c, e)) || (c.parser.Some? && !ParserGoes(h, c, e))
  {
    ReachableInv(h, c);
    PeersStep(h, c, e, r);
  }

  lemma PeersStep(h: Http, c: Conn, e: Event, r: Conn)
    requires Inv(h, c) && Enabled(c, e) && Step(h, c, e) == Done(r)
    ensures PeersIff(h, c, e, r)
  {
    if e.ClientReadable? {
      ClientReadablePeers(h, c, e, r);
    } else if e.ServerReadable? {
      ServerReadablePeers(h, c, e, r);
    } else if e.SetSlow? || e.Tick? {
      DemotionPeers(h, c, e, r);
    } else {
      OtherPeers(h, c, e, r);
    }
  }
}
