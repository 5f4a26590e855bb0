/** Fast-mode request bytes that no server gets: which steps lose them, and when a slow-mode server makes
    up for it. */
module RequestLoss {
  import opened Base
  import opened Files
  import opened Parsing
  import opened Control
  import opened Machine
  import opened Invariants
  import opened Preservation

  // ---------------------------------------------------------------- which steps

  /** The fast-mode server goes. */
  predicate FreesFastServer(c: Conn, e: Event) {
    e.ServerTimeout? || (e.ServerReadable? && e.eof && (c.flags.fastMode || c.flags.inTransition))
  }

  /** A chunk that the fast-mode parser rejects. */
  ghost predicate Rejected(h: Http, c: Conn, e: Event) {
    && e.ClientReadable? && c.flags.fastMode
    && if c.parser.Some? then Scan(h, c.parser.value, e.data).Malformed?
       else e.connected && Scan(h, h.start, e.data).Malformed?
  }

  /** The steps that leave request bytes unsent: the server goes while bytes are queued for it, or a
      malformed chunk ends the exchange. */
  ghost predicate LeavesUnsent(h: Http, c: Conn, e: Event) {
    Rejected(h, c, e) || (FreesFastServer(c, e) && c.serverQueue.GetOr([]) != [])
  }

  ghost predicate UnsentAsItShould(h: Http, c: Conn, e: Event, r: Conn) {
    r.alive ==> (r.ledger.unsent != [] <==> c.ledger.unsent != [] || LeavesUnsent(h, c, e))
  }

  lemma ForwardRequestUnsent(h: Http, c: Conn, data: Bytes, eof: bool, written: nat)
    requires Shape(c) && FastInv(c) && CanForwardRequest(c, data, eof)
    ensures ForwardRequest(h, c, data, eof, written).Done?
    ensures var r := ForwardRequest(h, c, data, eof, written).conn;
            r.alive ==> (r.ledger.unsent != [] <==> Scan(h, c.parser.value, data).Malformed?)
  {
    var r := ForwardRequest(h, c, data, eof, written).conn;
    match Scan(h, c.parser.value, data)
    case Malformed =>
      assert data != [];
      assert r.alive ==> r.ledger.unsent == c.ledger.unsent + (c.serverQueue.value + data);
      assert |c.ledger.unsent + (c.serverQueue.value + data)| > 0;
    case Parsed(_, _, _) =>
      assert r.alive ==> r.ledger.unsent == c.ledger.unsent == [];
  }

  lemma FreeServerUnsent(c: Conn)
    ensures FreeServer(c).ledger.unsent != [] <==> c.ledger.unsent != [] || c.serverQueue.GetOr([]) != []
  {
  }

  lemma ClientReadableUnsent(h: Http, c: Conn, e: Event)
    requires Inv(h, c) && Enabled(c, e) && e.ClientReadable? && Step(h, c, e).Done?
    ensures UnsentAsItShould(h, c, e, Step(h, c, e).conn)
  {
    if !c.flags.fastMode {
      SlowReceiveShape(h, c, e.data, e.eof, e.connected);
    } else if c.parser.Some? {
      ForwardRequestUnsent(h, c, e.data, e.eof, e.written);
    } else if e.connected {
      ConnectKeeps(h, c);
      ForwardRequestUnsent(h, Connect(h, c), e.data, e.eof, e.written);
    }
  }

  lemma ServerReadableUnsent(h: Http, c: Conn, e: Event)
    requires Shape(c) && Enabled(c, e) && e.ServerReadable? && Step(h, c, e).Done?
    ensures UnsentAsItShould(h, c, e, Step(h, c, e).conn)
  {
    FreeServerUnsent(c);
    var r := Step(h, c, e).conn;
    if r.alive {
      if FreesFastServer(c, e) {
        assert r.ledger.unsent == FreeServer(c).ledger.unsent;
      } else if c.flags.fastMode || c.flags.inTransition {
        assert r.ledger.unsent == c.ledger.unsent;
      } else {
        assert c.serverQueue.None?;
        assert r.ledger.unsent == c.ledger.unsent || r.ledger.unsent == c.ledger.unsent + [];
      }
    }
  }

  lemma WritableUnsent(h: Http, c: Conn, e: Event)
    requires (e.ClientWritable? || e.ServerWritable?) && Step(h, c, e).Done?
    ensures UnsentAsItShould(h, c, e, Step(h, c, e).conn)
  {
    if e.ClientWritable? {
      ClientWritableUnsent(c, e.written, e.broken);
    } else {
      ServerWritableUnsent(c, e.written);
    }
  }

  lemma DemotionUnsent(h: Http, c: Conn, e: Event)
    requires (e.SetSlow? || e.Tick?) && Step(h, c, e).Done?
    ensures UnsentAsItShould(h, c, e, Step(h, c, e).conn)
  {
    if e.SetSlow? {
      SwitchUnsent(h, c);
    } else {
      TickUnsent(h, c);
    }
  }

  lemma TimeoutUnsent(h: Http, c: Conn)
    requires Step(h, c, ServerTimeout).Done? && c.flags.inTransition
    ensures UnsentAsItShould(h, c, ServerTimeout, Step(h, c, ServerTimeout).conn)
  {
    FreeServerUnsent(c);
    assert Step(h, c, ServerTimeout).conn.ledger.unsent == FreeServer(c).ledger.unsent;
  }

  lemma StepUnsent(h: Http, c: Conn, e: Event)
    requires Inv(h, c) && Enabled(c, e) && Step(h, c, e).Done?
    ensures UnsentAsItShould(h, c, e, Step(h, c, e).conn)
  {
    if e.ClientReadable? {
      ClientReadableUnsent(h, c, e);
    } else if e.ServerReadable? {
      ServerReadableUnsent(h, c, e);
    } else if e.ServerTimeout? {
      TimeoutUnsent(h, c);
    } else if e.SetSlow? || e.Tick? {
      DemotionUnsent(h, c, e);
    } else {
      WritableUnsent(h, c, e);
    }
  }

  lemma ClientWritableUnsent(c: Conn, written: nat, broken: bool)
    requires OnClientWritable(c, written, broken).Done?
    ensures OnClientWritable(c, written, broken).conn.ledger.unsent == c.ledger.unsent
  {
  }

  lemma ServerWritableUnsent(c: Conn, written: nat)
    requires OnServerWritable(c, written).Done?
    ensures OnServerWritable(c, written).conn.ledger.unsent == c.ledger.unsent
  {
  }

  lemma SwitchUnsent(h: Http, c: Conn)
    requires SetSlowMode(h, c).Done?
    ensures SetSlowMode(h, c).conn.ledger.unsent == c.ledger.unsent
  {
  }

  lemma TickUnsent(h: Http, c: Conn)
    requires OnTick(h, c).Done?
    ensures OnTick(h, c).conn.ledger.unsent == c.ledger.unsent
  {
    if c.flags.Verdict().Demote? {
      SwitchUnsent(h, c);
    }
  }

  ghost predicate EverLeftUnsent(h: Http, events: seq<Event>) {
    |events| > 0 &&
    (var before := events[..|events| - 1];
     || EverLeftUnsent(h, before)
     || (Run(h, before).Done? && LeavesUnsent(h, Run(h, before).conn, events[|events| - 1])))
  }

  /** A live connection has request bytes that were left unsent exactly when one of those steps happened. */
  lemma {:induction false} UnsentIff(h: Http, events: seq<Event>)
    requires Feasible(h, events) && Run(h, events).Done? && Run(h, events).conn.alive
    ensures Run(h, events).conn.ledger.unsent != [] <==> EverLeftUnsent(h, events)
  {
    if |events| > 0 {
      var before := events[..|events| - 1];
      UnsentIff(h, before);
      RunKeeps(h, before);
      StepUnsent(h, Run(h, before).conn, events[|events| - 1]);
    }
  }

  /** Client bytes of fast mode: written to its server, then queued, then left when it was freed. On runs
      without those steps nothing is left. */
  lemma FastRequestLedger(h: Http, events: seq<Event>, c: Conn)
    requires Feasible(h, events) && Run(h, events) == Done(c) && c.alive
    ensures c.ledger.cinFast == c.ledger.soutFast + c.serverQueue.GetOr([]) + c.ledger.unsent
    ensures !EverLeftUnsent(h, events) ==> c.ledger.cinFast == c.ledger.soutFast + c.serverQueue.GetOr([])
    ensures c.server && (c.flags.fastMode || c.flags.inTransition) ==> c.ledger.unsent == []
  {
    RunKeeps(h, events);
    UnsentIff(h, events);
  }

  // ---------------------------------------------------------------- when it is made up for

  /** What the fast-mode server got and the retrieved history, with which the first slow-mode request
      begins, leave no gap in the fast-mode stream. */
  ghost predicate Covered(l: Ledger) {
    exists k :: ContinuesAt(l, k)
  }

  predicate ContinuesAt(l: Ledger, k: int) {
    0 <= k <= |l.retrieved| && l.cinFast == l.soutFast + l.retrieved[k..]
  }

  lemma CoveredBySize(l: Ledger)
    requires l.cinFast == l.soutFast + l.unsent && |l.retrieved| <= |l.cinFast|
    requires l.retrieved == l.cinFast[|l.cinFast| - |l.retrieved|..]
    ensures Covered(l) <==> |l.unsent| <= |l.retrieved|
  {
    if |l.unsent| <= |l.retrieved| {
      var k := |l.retrieved| - |l.unsent|;
      assert l.retrieved[k..] == l.cinFast[|l.soutFast|..] == l.unsent;
      assert ContinuesAt(l, k);
    }
  }

  lemma IncompleteIsSuffix(h: Http, l: Ledger)
    requires Scan(h, h.start, ParsedPart(l)).Parsed? && l.retrieved == Incomplete(h, ParsedPart(l))
    ensures |l.retrieved| <= |l.cinFast| && l.retrieved == l.cinFast[|l.cinFast| - |l.retrieved|..]
  {
    var part := ParsedPart(l);
    var k := Scan(h, h.start, part).last.GetOr(0);
    IncompleteFrom(h, part, k);
    if l.parseFrom <= |l.cinFast| {
      DropMore(l.cinFast, l.parseFrom, k);
    }
  }

  /** After the transition the fast-mode server has a prefix of the fast-mode stream, the retrieved history
      is a suffix of it and the head of the first slow-mode request, and between them nothing is missing
      if and only if no more was left unsent than was retrieved. */
  lemma CoveredIff(h: Http, c: Conn)
    requires Reachable(h, c) && c.alive && !c.flags.fastMode && !c.flags.inTransition
    ensures |c.ledger.retrieved| <= |c.ledger.cinFast|
    ensures c.ledger.soutFast <= c.ledger.cinFast
    ensures c.ledger.retrieved == c.ledger.cinFast[|c.ledger.cinFast| - |c.ledger.retrieved|..]
    ensures c.ledger.retrieved <= FirstSlowRequest(h, c.ledger)
    ensures Covered(c.ledger) <==> |c.ledger.unsent| <= |c.ledger.retrieved|
  {
    ReachableInv(h, c);
    CoveredInv(h, c);
  }

  lemma CoveredInv(h: Http, c: Conn)
    requires Inv(h, c) && c.alive && !c.flags.fastMode && !c.flags.inTransition
    ensures |c.ledger.retrieved| <= |c.ledger.cinFast| && c.ledger.soutFast <= c.ledger.cinFast
    ensures c.ledger.retrieved == c.ledger.cinFast[|c.ledger.cinFast| - |c.ledger.retrieved|..]
    ensures c.ledger.retrieved <= FirstSlowRequest(h, c.ledger)
    ensures Covered(c.ledger) <==> |c.ledger.unsent| <= |c.ledger.retrieved|
  {
    AfterTransition(h, c);
    LedgerCovered(h, c.ledger);
  }

  lemma LedgerCovered(h: Http, l: Ledger)
    requires l.cinFast == l.soutFast + l.unsent
    requires Scan(h, h.start, ParsedPart(l)).Parsed? && l.retrieved == Incomplete(h, ParsedPart(l))
    ensures |l.retrieved| <= |l.cinFast| && l.soutFast <= l.cinFast
    ensures l.retrieved == l.cinFast[|l.cinFast| - |l.retrieved|..]
    ensures Covered(l) <==> |l.unsent| <= |l.retrieved|
  {
    IncompleteIsSuffix(h, l);
    CoveredBySize(l);
  }

  lemma AfterTransition(h: Http, c: Conn)
    requires Inv(h, c) && c.alive && !c.flags.fastMode && !c.flags.inTransition
    ensures c.ledger.cinFast == c.ledger.soutFast + c.ledger.unsent
    ensures Scan(h, h.start, ParsedPart(c.ledger)).Parsed?
    ensures c.ledger.retrieved == Incomplete(h, ParsedPart(c.ledger))
    ensures c.ledger.retrieved <= FirstSlowRequest(h, c.ledger)
  {
    assert c.serverQueue.None?;
    assert c.ledger.soutFast + [] == c.ledger.soutFast;
  }

  /** The guard at the end of the transition: nothing is lost if and only if the server's queue is no
      longer than the request buffer. */
  lemma TransitionEndsSafelyIff(h: Http, c: Conn, e: Event)
    requires Reachable(h, c) && Enabled(c, e) && c.flags.inTransition && FreesFastServer(c, e)
    ensures Step(h, c, e).Done? && c.requestBuf.Some?
    ensures Covered(Step(h, c, e).conn.ledger) <==>
            |c.serverQueue.GetOr([])| <= |c.requestBuf.value.content|
  {
    ReachableInv(h, c);
    TransitionEnds(h, c, e);
    ReachableStep(h, c, e, Step(h, c, e).conn);
    CoveredIff(h, Step(h, c, e).conn);
  }

  lemma TransitionEnds(h: Http, c: Conn, e: Event)
    requires Inv(h, c) && Enabled(c, e) && c.flags.inTransition && FreesFastServer(c, e)
    ensures c.requestBuf.Some? && |c.requestBuf.value.content| == |c.ledger.retrieved|
    ensures Step(h, c, e).Done?
    ensures var r := Step(h, c, e).conn;
            && r.alive && !r.flags.fastMode && !r.flags.inTransition
            && |r.ledger.unsent| == |c.serverQueue.GetOr([])| && r.ledger.retrieved == c.ledger.retrieved
  {
    InTransition(h, c);
    EndedTransition(c, e.ServerReadable?, if e.ServerReadable? then e.data else []);
    assert Step(h, c, e) == if e.ServerReadable? then TransitionReadable(c, e.data, true) else Done(EndTransition(c));
  }

  lemma InTransition(h: Http, c: Conn)
    requires Inv(h, c) && c.alive && c.flags.inTransition
    ensures !c.flags.fastMode && c.server && c.responseBuf.Some? && c.ledger.unsent == []
    ensures c.requestBuf.Some? && c.requestBuf.value.content == c.ledger.retrieved
  {
    assert AwaitingFirst(h, c);
    assert c.ledger.cinSlow == [] && c.ledger.retrieved + [] == c.ledger.retrieved;
  }

  lemma EndedTransition(c: Conn, readable: bool, data: Bytes)
    requires c.alive && !c.flags.fastMode && c.server && c.responseBuf.Some?
    ensures TransitionReadable(c, data, true).Done?
    ensures var r := if readable then TransitionReadable(c, data, true).conn else EndTransition(c);
            && r.alive && !r.flags.fastMode && !r.flags.inTransition
            && r.ledger.unsent == c.ledger.unsent + c.serverQueue.GetOr([]) && r.ledger.retrieved == c.ledger.retrieved
  {
  }
}
