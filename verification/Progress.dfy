/** What crosses the sockets in one step, and what the parser has been fed since its last turn. These hold
    for the last step of a connection too. */
module Progress {
  import opened Base
  import opened Files
  import opened Parsing
  import opened Control
  import opened Machine
  import opened Invariants
  import opened Preservation
  import opened Events
  import opened Theorems

  // ---------------------------------------------------------------- reads

  /** The event's bytes enter the ledger of the socket they were read from, and nothing else does. */
  ghost predicate ReadsRecorded(c: Conn, e: Event, r: Conn) {
    && r.ledger.cinFast
       == c.ledger.cinFast + (if e.ClientReadable? && c.flags.fastMode && Parses(c, e) then e.data else [])
    && r.ledger.cinSlow == c.ledger.cinSlow + (if e.ClientReadable? && !c.flags.fastMode then e.data else [])
    && r.ledger.sin == c.ledger.sin + (if e.ServerReadable? then e.data else [])
  }

  lemma ForwardRequestReads(h: Http, c: Conn, data: Bytes, eof: bool, written: nat)
    requires ForwardRequest(h, c, data, eof, written).Done?
    ensures var l := ForwardRequest(h, c, data, eof, written).conn.ledger;
            l.cinFast == c.ledger.cinFast + data && l.cinSlow == c.ledger.cinSlow && l.sin == c.ledger.sin
  {
  }

  lemma SlowReceiveReads(h: Http, c: Conn, data: Bytes, eof: bool, connected: bool)
    requires SlowReceive(h, c, data, eof, connected).Done?
    ensures var l := SlowReceive(h, c, data, eof, connected).conn.ledger;
            l.cinFast == c.ledger.cinFast && l.cinSlow == c.ledger.cinSlow + data && l.sin == c.ledger.sin
  {
  }

  lemma ServerReads(h: Http, c: Conn, data: Bytes, eof: bool, written: nat)
    requires OnServerReadable(h, c, data, eof, written).Done?
    ensures var l := OnServerReadable(h, c, data, eof, written).conn.ledger;
            l.cinFast == c.ledger.cinFast && l.cinSlow == c.ledger.cinSlow && l.sin == c.ledger.sin + data
  {
    assert c.ledger.sin + [] == c.ledger.sin;
  }

  lemma WritableReads(h: Http, c: Conn, e: Event)
    requires (e.ClientWritable? || e.ServerWritable? || e.ServerTimeout?) && Step(h, c, e).Done?
    ensures var l := Step(h, c, e).conn.ledger;
            l.cinFast == c.ledger.cinFast && l.cinSlow == c.ledger.cinSlow && l.sin == c.ledger.sin
  {
  }

  /** A switch moves bytes between buffers, not across sockets. */
  lemma SwitchLedger(h: Http, c: Conn)
    requires SetSlowMode(h, c).Done?
    ensures SameTraffic(c.ledger, SetSlowMode(h, c).conn.ledger)
  {
  }

  predicate SameTraffic(l: Ledger, m: Ledger) {
    && m.cinFast == l.cinFast && m.cinSlow == l.cinSlow && m.sin == l.sin
    && m.cout == l.cout && m.soutFast == l.soutFast && m.soutSlow == l.soutSlow
  }

  lemma TickLedger(h: Http, c: Conn)
    requires SetSlowMode(h, c).Done? && OnTick(h, c).Done?
    ensures SameTraffic(c.ledger, OnTick(h, c).conn.ledger)
  {
    SwitchLedger(h, c);
  }

  lemma DemotionLedger(h: Http, c: Conn, e: Event, r: Conn)
    requires Inv(h, c) && c.alive && Step(h, c, e) == Done(r) && (e.SetSlow? || e.Tick?)
    ensures SameTraffic(c.ledger, r.ledger)
  {
    SetSlowKeeps(h, c);
    if e.SetSlow? {
      SwitchLedger(h, c);
      assert r == SetSlowMode(h, c).conn;
    } else {
      TickLedger(h, c);
      assert r == OnTick(h, c).conn;
    }
  }

  lemma LedgersRecord(h: Http, c: Conn, e: Event, r: Conn)
    requires Reachable(h, c) && Enabled(c, e) && Step(h, c, e) == Done(r)
    ensures ReadsRecorded(c, e, r)
  {
    ReachableInv(h, c);
    ReadsStep(h, c, e, r);
  }

  lemma ReadsStep(h: Http, c: Conn, e: Event, r: Conn)
    requires Inv(h, c) && Enabled(c, e) && Step(h, c, e) == Done(r)
    ensures ReadsRecorded(c, e, r)
  {
    assert forall s: Bytes :: s + [] == s;
    if e.ClientReadable? {
      if !c.flags.fastMode {
        SlowReceiveReads(h, c, e.data, e.eof, e.connected);
      } else if c.parser.Some? {
        ForwardRequestReads(h, c, e.data, e.eof, e.written);
      } else if e.connected {
        ForwardRequestReads(h, Connect(h, c), e.data, e.eof, e.written);
      }
    } else if e.ServerReadable? {
      ServerReads(h, c, e.data, e.eof, e.written);
    } else if e.SetSlow? || e.Tick? {
      DemotionLedger(h, c, e, r);
    } else {
      WritableReads(h, c, e);
    }
  }

  // ---------------------------------------------------------------- writes

  /** `out` grows by the next `n` bytes of `whole`, or by all that is left of it. */
  predicate Advances(out: Bytes, out': Bytes, whole: Bytes, n: nat) {
    out <= whole && out' == whole[..Min(|out| + n, |whole|)]
  }

  /** Whatever the peer takes is the next part of what was read for it, to the last byte it takes. */
  ghost predicate WritesTaken(h: Http, c: Conn, e: Event, r: Conn) {
    match e
    case ClientReadable(_, _, _, written) =>
      && r.ledger.cout == c.ledger.cout && r.ledger.soutSlow == c.ledger.soutSlow
      && if c.flags.fastMode && Parses(c, e) && !Rejects(h, c, e)
         then Advances(c.ledger.soutFast, r.ledger.soutFast, r.ledger.cinFast, written)
         else r.ledger.soutFast == c.ledger.soutFast
    case ServerReadable(_, _, written) =>
      && r.ledger.soutFast == c.ledger.soutFast && r.ledger.soutSlow == c.ledger.soutSlow
      && if c.flags.fastMode then Advances(c.ledger.cout, r.ledger.cout, r.ledger.sin, written)
         else r.ledger.cout == c.ledger.cout
    case ClientWritable(written, _) =>
      && r.ledger.soutFast == c.ledger.soutFast && r.ledger.soutSlow == c.ledger.soutSlow
      && if c.flags.fastMode then Advances(c.ledger.cout, r.ledger.cout, r.ledger.sin, written)
         else r.ledger.cout == c.ledger.cout + Unread(c)[..Min(written, |Unread(c)|)]
    case ServerWritable(written) =>
      && r.ledger.cout == c.ledger.cout
      && if c.flags.fastMode || c.flags.inTransition
         then r.ledger.soutSlow == c.ledger.soutSlow
              && Advances(c.ledger.soutFast, r.ledger.soutFast, r.ledger.cinFast, written)
         else r.ledger.soutFast == c.ledger.soutFast && c.requestBuf.Some? && c.requestBuf.value.Valid() &&
              var unread := c.requestBuf.value.Unread();
              r.ledger.soutSlow == c.ledger.soutSlow + unread[..Min(written, |unread|)]
    case _ =>
      && r.ledger.cout == c.ledger.cout
      && r.ledger.soutFast == c.ledger.soutFast && r.ledger.soutSlow == c.ledger.soutSlow
  }

  lemma QueueAdvances(out: Bytes, queue: Bytes, whole: Bytes, n: nat)
    requires whole == out + queue
    ensures Advances(out, out + queue[..Min(n, |queue|)], whole, n)
  {
    assert out == whole[..|out|];
  }

  lemma RequestQueue(c: Conn)
    requires Shape(c) && FastInv(c) && c.alive && c.server && (c.flags.fastMode || c.flags.inTransition)
    ensures c.ledger.cinFast == c.ledger.soutFast + c.serverQueue.GetOr([])
  {
    assert c.ledger.soutFast + c.serverQueue.GetOr([]) + [] == c.ledger.soutFast + c.serverQueue.GetOr([]);
  }

  lemma ForwardRequestWrites(h: Http, c: Conn, data: Bytes, eof: bool, written: nat)
    requires Shape(c) && FastInv(c) && CanForwardRequest(c, data, eof)
    ensures ForwardRequest(h, c, data, eof, written).Done?
    ensures var l := ForwardRequest(h, c, data, eof, written).conn.ledger;
            && l.cout == c.ledger.cout && l.soutSlow == c.ledger.soutSlow
            && if Scan(h, c.parser.value, data).Parsed?
               then Advances(c.ledger.soutFast, l.soutFast, l.cinFast, written)
               else l.soutFast == c.ledger.soutFast
  {
    RequestQueue(c);
    EnqueueAll(c.serverQueue.value, data);
    Regroup(c.ledger.soutFast, c.serverQueue.value, data);
    QueueAdvances(c.ledger.soutFast, c.serverQueue.value + data, c.ledger.cinFast + data, written);
  }

  lemma ForwardResponseWrites(c: Conn, data: Bytes, eof: bool, written: nat)
    requires Shape(c) && ResponseInv(c) && CanForwardResponse(c, data, eof)
    ensures ForwardResponse(c, data, eof, written).Done?
    ensures var l := ForwardResponse(c, data, eof, written).conn.ledger;
            && l.soutFast == c.ledger.soutFast && l.soutSlow == c.ledger.soutSlow
            && Advances(c.ledger.cout, l.cout, l.sin, written)
  {
    FastUndelivered(c);
    EnqueueAll(c.clientQueue.value, data);
    Regroup(c.ledger.cout, c.clientQueue.value, data);
    QueueAdvances(c.ledger.cout, c.clientQueue.value + data, c.ledger.sin + data, written);
  }

  lemma ServerReadableWrites(h: Http, c: Conn, e: Event, r: Conn)
    requires Inv(h, c) && Enabled(c, e) && Step(h, c, e) == Done(r) && e.ServerReadable?
    ensures WritesTaken(h, c, e, r)
  {
    if c.flags.fastMode {
      ForwardResponseWrites(c, e.data, e.eof, e.written);
    } else {
      SlowServerReadWrites(h, c, e.data, e.eof, e.written);
    }
  }

  lemma SlowClientReadableWrites(h: Http, c: Conn, e: Event, r: Conn)
    requires Inv(h, c) && Enabled(c, e) && Step(h, c, e) == Done(r) && e.ClientReadable? && !c.flags.fastMode
    ensures WritesTaken(h, c, e, r)
  {
    SlowReceiveWrites(h, c, e.data, e.eof, e.connected);
  }

  lemma FastClientReadableWrites(h: Http, c: Conn, e: Event, r: Conn)
    requires Inv(h, c) && Enabled(c, e) && Step(h, c, e) == Done(r) && e.ClientReadable? && c.flags.fastMode
    ensures WritesTaken(h, c, e, r)
  {
    if c.parser.Some? {
      ForwardRequestWrites(h, c, e.data, e.eof, e.written);
      assert r == ForwardRequest(h, c, e.data, e.eof, e.written).conn;
    } else if e.connected {
      ConnectKeeps(h, c);
      ForwardRequestWrites(h, Connect(h, c), e.data, e.eof, e.written);
      assert r == ForwardRequest(h, Connect(h, c), e.data, e.eof, e.written).conn;
    } else {
      assert r == Delete(c);
    }
  }

  lemma SlowReceiveWrites(h: Http, c: Conn, data: Bytes, eof: bool, connected: bool)
    requires SlowReceive(h, c, data, eof, connected).Done?
    ensures var l := SlowReceive(h, c, data, eof, connected).conn.ledger;
            l.cout == c.ledger.cout && l.soutFast == c.ledger.soutFast && l.soutSlow == c.ledger.soutSlow
  {
  }

  lemma SlowServerReadWrites(h: Http, c: Conn, data: Bytes, eof: bool, written: nat)
    requires !c.flags.fastMode && OnServerReadable(h, c, data, eof, written).Done?
    ensures var l := OnServerReadable(h, c, data, eof, written).conn.ledger;
            l.cout == c.ledger.cout && l.soutFast == c.ledger.soutFast && l.soutSlow == c.ledger.soutSlow
  {
  }

  lemma ClientWritableWrites(h: Http, c: Conn, e: Event, r: Conn)
    requires Inv(h, c) && Enabled(c, e) && Step(h, c, e) == Done(r) && e.ClientWritable?
    ensures WritesTaken(h, c, e, r)
  {
    if c.flags.fastMode {
      FastUndelivered(c);
      QueueAdvances(c.ledger.cout, c.clientQueue.value, c.ledger.sin, e.written);
    } else {
      assert c.ledger.cout + [] == c.ledger.cout;
    }
  }

  lemma ServerWritableWrites(h: Http, c: Conn, e: Event, r: Conn)
    requires Inv(h, c) && Enabled(c, e) && Step(h, c, e) == Done(r) && e.ServerWritable?
    ensures WritesTaken(h, c, e, r)
  {
    if c.flags.fastMode || c.flags.inTransition {
      RequestQueue(c);
      QueueAdvances(c.ledger.soutFast, c.serverQueue.value, c.ledger.cinFast, e.written);
    } else {
      assert c.ledger.soutSlow + [] == c.ledger.soutSlow;
    }
  }

  lemma TimeoutWrites(h: Http, c: Conn, r: Conn)
    requires Step(h, c, ServerTimeout) == Done(r)
    ensures SameTraffic(c.ledger, r.ledger)
  {
  }

  lemma NextBytesWritten(h: Http, c: Conn, e: Event, r: Conn)
    requires Reachable(h, c) && Enabled(c, e) && Step(h, c, e) == Done(r)
    ensures WritesTaken(h, c, e, r)
  {
    ReachableInv(h, c);
    if e.ClientReadable? {
      if c.flags.fastMode {
        FastClientReadableWrites(h, c, e, r);
      } else {
        SlowClientReadableWrites(h, c, e, r);
      }
    } else if e.ServerReadable? {
      ServerReadableWrites(h, c, e, r);
    } else if e.ClientWritable? {
      ClientWritableWrites(h, c, e, r);
    } else if e.ServerWritable? {
      ServerWritableWrites(h, c, e, r);
    } else if e.ServerTimeout? {
      TimeoutWrites(h, c, r);
    } else {
      DemotionLedger(h, c, e, r);
    }
  }

  // ---------------------------------------------------------------- turns of the parser

  /** The state the parser was last reset to, and everything it was fed since. */
  datatype Turn = Turn(start: nat, fed: Bytes)

  /** A message of the turn ends inside `data`. */
  ghost predicate EndsIn(h: Http, t: Turn, data: Bytes) {
    exists k: nat :: |t.fed| < k && EndsAt(h, t.start, t.fed + data, k)
  }

  /** Requests and responses take turns: a complete slow-mode request resets the parser for the response,
      and a response that is complete or cut off resets it for the next request. */
  ghost function NextTurn(h: Http, t: Turn, c: Conn, e: Event): Turn {
    if !Parses(c, e) then
      if Switches(c, e) && c.parser.None? then Turn(h.start, []) else t
    else match Scan(h, t.start, t.fed + e.data)
      case Malformed => t
      case Parsed(state, _, _) =>
        if c.flags.fastMode then Turn(t.start, t.fed + e.data)
        else if e.ClientReadable? then
          if EndsIn(h, t, e.data) then Turn(h.toResponse(state), []) else Turn(t.start, t.fed + e.data)
        else
          if e.eof || EndsIn(h, t, e.data) then Turn(h.toRequest(state), []) else Turn(t.start, t.fed + e.data)
  }

  ghost function TurnOf(h: Http, events: seq<Event>): Turn {
    if |events| == 0 then Turn(h.start, [])
    else
      var before := events[..|events| - 1];
      if Run(h, before).Crash? then TurnOf(h, before)
      else NextTurn(h, TurnOf(h, before), Run(h, before).conn, events[|events| - 1])
  }

  /** The parser stands where one parse of the turn would. */
  ghost predicate InTurn(h: Http, c: Conn, t: Turn) {
    && (c.parser.Some? ==> Scan(h, t.start, t.fed).Parsed? && c.parser.value == Scan(h, t.start, t.fed).state)
    && (c.parser.None? && c.flags.fastMode && c.clientQueue.None? ==> t == Turn(h.start, []))
  }

  /** Parsing a chunk is parsing the turn on. */
  lemma ChunkOfTurn(h: Http, t: Turn, data: Bytes)
    requires Scan(h, t.start, t.fed).Parsed?
    ensures var p := Scan(h, Scan(h, t.start, t.fed).state, data);
            var q := Scan(h, t.start, t.fed + data);
            && p.Parsed? == q.Parsed?
            && (p.Parsed? ==> p.state == q.state)
            && (p.Parsed? ==> (p.first.Some? <==> EndsIn(h, t, data)))
  {
    ScanConcat(h, t.start, t.fed, data);
    var s := Scan(h, t.start, t.fed).state;
    var p := Scan(h, s, data);
    if p.Parsed? {
      if p.first.Some? {
        ScanFindsEnds(h, s, data, p.first.value);
        EndsAtConcat(h, t.start, t.fed, data, p.first.value);
      }
      if EndsIn(h, t, data) {
        var k: nat :| |t.fed| < k && EndsAt(h, t.start, t.fed + data, k);
        var i := k - |t.fed|;
        assert k == |t.fed| + i;
        EndsAtConcat(h, t.start, t.fed, data, i);
        ScanFindsEnds(h, s, data, i);
      }
    }
  }

  /** The parser after a step, by what it was handed. */
  ghost predicate ParserMoves(h: Http, c: Conn, e: Event, r: Conn) {
    r.alive && r.parser.Some? ==>
      if !Parses(c, e) then
        r.parser.value == if Switches(c, e) && c.parser.None? then h.start else c.parser.GetOr(h.start)
      else
        && ParseOf(h, c, e).Parsed?
        && r.parser.value == if CompletesRequest(h, c, e) then h.toResponse(ParseOf(h, c, e).state)
                             else if CompletesResponse(h, c, e) then h.toRequest(ParseOf(h, c, e).state)
                             else ParseOf(h, c, e).state
  }

  lemma SlowReceiveMoves(h: Http, c: Conn, e: Event)
    requires Shape(c) && CanReceive(c) && e.ClientReadable?
    ensures SlowReceive(h, c, e.data, e.eof, e.connected).Done?
    ensures ParserMoves(h, c, e, SlowReceive(h, c, e.data, e.eof, e.connected).conn)
  {
  }

  lemma SlowResponseMoves(h: Http, c: Conn, e: Event)
    requires Shape(c) && CanRespond(c) && e.ServerReadable?
    ensures SlowResponse(h, c, e.data, e.eof).Done?
    ensures ParserMoves(h, c, e, SlowResponse(h, c, e.data, e.eof).conn)
  {
  }

  lemma ForwardRequestMoves(h: Http, c: Conn, data: Bytes, eof: bool, written: nat)
    requires Shape(c) && c.alive && c.flags.fastMode && c.server
    ensures ForwardRequest(h, c, data, eof, written).Done?
    ensures var r := ForwardRequest(h, c, data, eof, written).conn;
            var p := Scan(h, c.parser.value, data);
            r.alive && r.parser.Some? ==> p.Parsed? && r.parser.value == p.state
  {
  }

  lemma QuietMoves(h: Http, c: Conn, e: Event, r: Conn)
    requires Inv(h, c) && Enabled(c, e) && Step(h, c, e) == Done(r) && r.alive
    requires e.ServerReadable? && (c.flags.fastMode || c.flags.inTransition)
    ensures r.parser.Some? ==> r.parser == c.parser
  {
  }

  lemma WritableMoves(h: Http, c: Conn, e: Event, r: Conn)
    requires Inv(h, c) && Enabled(c, e) && Step(h, c, e) == Done(r) && r.alive
    requires e.ClientWritable? || e.ServerWritable? || e.ServerTimeout?
    ensures r.parser == c.parser
  {
  }

  lemma SwitchMoves(h: Http, c: Conn)
    requires SetSlowMode(h, c).Done?
    ensures SetSlowMode(h, c).conn.parser
            == if c.flags.fastMode && !c.flags.inTransition && c.parser.None? then Some(h.start) else c.parser
  {
  }

  lemma ParserStep(h: Http, c: Conn, e: Event, r: Conn)
    requires Inv(h, c) && Enabled(c, e) && Step(h, c, e) == Done(r)
    ensures ParserMoves(h, c, e, r)
  {
    if r.alive {
      if e.ClientReadable? {
        if !c.flags.fastMode {
          SlowReceiveMoves(h, c, e);
        } else if c.parser.Some? {
          ForwardRequestMoves(h, c, e.data, e.eof, e.written);
        } else if e.connected {
          ConnectKeeps(h, c);
          ForwardRequestMoves(h, Connect(h, c), e.data, e.eof, e.written);
        }
      } else if e.ServerReadable? {
        if c.flags.fastMode || c.flags.inTransition {
          QuietMoves(h, c, e, r);
        } else {
          SlowResponseMoves(h, c, e);
        }
      } else if e.SetSlow? || e.Tick? {
        DemotionStep(h, c, e, r);
        SwitchMoves(h, c);
      } else {
        WritableMoves(h, c, e, r);
      }
    }
  }

  /** In every live state of a run the parser stands where one uninterrupted parse of its turn would: the
      bytes of one side only, from the last reset on, however they were cut into chunks. */
  lemma {:induction false} ParserTakesTurns(h: Http, events: seq<Event>, c: Conn)
    requires Feasible(h, events) && Run(h, events) == Done(c) && c.alive
    ensures InTurn(h, c, TurnOf(h, events))
  {
    if |events| > 0 {
      var before, e := events[..|events| - 1], events[|events| - 1];
      var b := Run(h, before).conn;
      RunKeeps(h, before);
      RunKeeps(h, events);
      ParserTakesTurns(h, before, b);
      ParserStep(h, b, e, c);
      TurnStep(h, b, e, c, TurnOf(h, before));
    }
  }

  lemma TurnStep(h: Http, b: Conn, e: Event, c: Conn, t: Turn)
    requires Inv(h, b) && Inv(h, c) && Enabled(b, e) && Step(h, b, e) == Done(c) && c.alive
    requires InTurn(h, b, t) && ParserMoves(h, b, e, c)
    ensures InTurn(h, c, NextTurn(h, t, b, e))
  {
    if c.parser.None? {
      StillFresh(h, b, e, c, t);
    } else if Parses(b, e) {
      TurnGoesOn(h, b, e, c, t);
    } else {
      PeersStep(h, b, e, c);
    }
  }

  lemma StillFresh(h: Http, b: Conn, e: Event, c: Conn, t: Turn)
    requires Inv(h, b) && Inv(h, c) && Enabled(b, e) && Step(h, b, e) == Done(c) && c.alive && c.parser.None?
    requires InTurn(h, b, t)
    ensures InTurn(h, c, NextTurn(h, t, b, e))
  {
    PeersStep(h, b, e, c);
    ModeIff(h, b, e, c);
    assert c.flags.fastMode && c.clientQueue.None? ==> e.SetSlow? || e.Tick?;
  }

  lemma TurnGoesOn(h: Http, b: Conn, e: Event, c: Conn, t: Turn)
    requires Shape(b) && Enabled(b, e) && Parses(b, e) && c.alive && c.parser.Some?
    requires InTurn(h, b, t) && ParserMoves(h, b, e, c)
    ensures InTurn(h, c, NextTurn(h, t, b, e))
  {
    assert b.parser.GetOr(h.start) == Scan(h, t.start, t.fed).state;
    ChunkOfTurn(h, t, e.data);
    assert Scan(h, t.start, t.fed + e.data).Parsed?;
  }

  /** So what a step makes of a chunk is what one parse of the turn would. */
  lemma ChunksDoNotMatter(h: Http, events: seq<Event>, c: Conn, e: Event)
    requires Feasible(h, events) && Run(h, events) == Done(c) && Enabled(c, e) && Parses(c, e)
    ensures var t := TurnOf(h, events);
            && (Rejects(h, c, e) <==> Scan(h, t.start, t.fed + e.data).Malformed?)
            && (!Rejects(h, c, e) && e.ClientReadable? && !c.flags.fastMode ==>
                  (CompletesRequest(h, c, e) <==> EndsIn(h, t, e.data)))
            && (!Rejects(h, c, e) && e.ServerReadable? ==>
                  (CompletesResponse(h, c, e) <==> e.eof || EndsIn(h, t, e.data)))
  {
    var t := TurnOf(h, events);
    RunKeeps(h, events);
    ParserTakesTurns(h, events, c);
    if c.parser.None? {
      assert FreshShape(c);
      assert t == Turn(h.start, []);
    }
    assert c.parser.GetOr(h.start) == Scan(h, t.start, t.fed).state;
    ChunkOfTurn(h, t, e.data);
  }
}
