/** Concrete runs in which a promise fails, so that the conditions of the theorems are not idle. */
module Witnesses {
  import opened Base
  import opened Files
  import opened Parsing
  import opened Control
  import opened Machine
  import opened Invariants
  import opened Preservation
  import opened Safety
  import opened RequestLoss
  import opened Events
  import opened Monitoring

  /** A parser that accepts every byte; a line feed completes a message. */
  ghost const LINES := Http(0, s => s, s => s, (s, b) => Next(0, b == 10))

  const LF: Bytes := [10]

  lemma ScanLine()
    ensures Scan(LINES, 0, LF) == Parsed(0, Some(1), Some(1))
  {
    assert LF[..0] == [];
  }

  /** A slow-mode connection between events, as far as requests go. */
  ghost predicate Stage(c: Conn, server: bool, request: File, received: Bytes, sent: Bytes) {
    && c.alive && !c.flags.fastMode && !c.flags.inTransition
    && c.parser == Some(0) && c.server == server
    && (if server then c.flags.serverRead && c.flags.serverWrite else c.flags.clientRead)
    && c.requestBuf == Some(request) && c.requestTmpBuf == Some(EMPTY_FILE) && c.responseBuf.Some?
    && c.ledger.cinFast == [] && c.ledger.soutFast == []
    && c.ledger.cinSlow == received && c.ledger.soutSlow == sent
  }

  lemma Enter() returns (c: Conn)
    ensures Reachable(LINES, c) && Stage(c, false, EMPTY_FILE, [], [])
  {
    c := SetSlowMode(LINES, NEW_CONN).conn;
    ReachableStart(LINES);
    ReachableStep(LINES, NEW_CONN, SetSlow, c);
  }

  /** The client completes a request of one byte. */
  lemma Ask(c: Conn, request: File, received: Bytes, sent: Bytes) returns (e: Event, r: Conn)
    requires Stage(c, false, request, received, sent) && request.AtEnd()
    ensures Enabled(c, e) && Step(LINES, c, e) == Done(r)
    ensures Stage(r, true, File(request.content + LF, 0), received + LF, sent)
  {
    e := ClientReadable(LF, false, true, 0);
    ScanLine();
    WriteAtEnd(request, LF);
    assert LF[..1] == LF && LF[1..] == [];
    r := SlowReceive(LINES, c, LF, false, true).conn;
  }

  /** The server takes all of the request buffer. */
  lemma Forward(c: Conn, request: File, received: Bytes, sent: Bytes) returns (e: Event, r: Conn)
    requires Stage(c, true, request, received, sent) && request.Valid() && !request.AtEnd()
    ensures Enabled(c, e) && Step(LINES, c, e) == Done(r)
    ensures Stage(r, true, request.(pos := |request.content|), received, sent + request.Unread())
  {
    var n := |request.Unread()|;
    assert request.Unread()[..n] == request.Unread();
    e := ServerWritable(n);
    r := SlowSend(c, n).conn;
  }

  /** The server answers before its next write event. */
  lemma Answer(c: Conn, request: File, received: Bytes, sent: Bytes) returns (e: Event, r: Conn)
    requires Stage(c, true, request, received, sent)
    ensures Enabled(c, e) && Step(LINES, c, e) == Done(r)
    ensures Stage(r, false, request, received, sent)
  {
    e := ServerReadable(LF, false, 0);
    ScanLine();
    r := SlowResponse(LINES, c, LF, false).conn;
  }

  /** A request forwarded to its last byte and answered at once: the request stays in its buffer. */
  lemma Round(c: Conn, received: Bytes, sent: Bytes) returns (r: Conn)
    requires Reachable(LINES, c) && Stage(c, false, EMPTY_FILE, received, sent)
    ensures Reachable(LINES, r) && Stage(r, false, File(LF, 1), received + LF, sent + LF)
  {
    var e1, r1 := Ask(c, EMPTY_FILE, received, sent);
    ReachableStep(LINES, c, e1, r1);
    assert EMPTY_FILE.content + LF == LF && LF[0..] == LF;
    var e2, r2 := Forward(r1, File(LF, 0), received + LF, sent);
    ReachableStep(LINES, r1, e2, r2);
    var e3, r3 := Answer(r2, File(LF, 1), received + LF, sent + LF);
    ReachableStep(LINES, r2, e3, r3);
    r := r3;
  }

  lemma SecondRequest(c: Conn, received: Bytes, sent: Bytes) returns (r: Conn)
    requires Reachable(LINES, c) && Stage(c, false, File(LF, 1), received, sent)
    ensures Reachable(LINES, r) && Stage(r, true, File(LF + LF, 2), received + LF, sent + (LF + LF))
  {
    var e1, r1 := Ask(c, File(LF, 1), received, sent);
    ReachableStep(LINES, c, e1, r1);
    var e2, r2 := Forward(r1, File(LF + LF, 0), received + LF, sent);
    assert (LF + LF)[0..] == LF + LF;
    ReachableStep(LINES, r1, e2, r2);
    r := r2;
  }

  /** A client sends two requests of one byte each; the servers get three bytes. */
  lemma RequestForwardedTwice() returns (c: Conn)
    ensures Reachable(LINES, c) && c.alive
    ensures c.ledger.cinFast + c.ledger.cinSlow == [10, 10]
    ensures c.ledger.soutFast + c.ledger.soutSlow == [10, 10, 10]
  {
    c := Enter();
    c := Round(c, [], []);
    c := SecondRequest(c, [] + LF, [] + LF);
  }

  // ---------------------------------------------------------------- responses that are lost

  const LETTER: Bytes := [65]

  /** One byte went to a fast-mode server and nothing came back yet. */
  ghost predicate Started(c: Conn) {
    && c.alive && c.flags.fastMode && !c.flags.inTransition && c.server && c.parser == Some(0)
    && c.flags.serverRead && !c.flags.clientWrite
    && c.clientQueue == Some([]) && c.serverQueue == Some([]) && c.history.Some? && c.responseBuf.None?
    && c.ledger.sin == [] && c.ledger.cout == []
  }

  lemma FirstByte() returns (e: Event, c: Conn)
    ensures Enabled(NEW_CONN, e) && Step(LINES, NEW_CONN, e) == Done(c) && Started(c)
    ensures c.flags.clientRead && c.flags.readCount >= COUNTER_INIT
  {
    e := ClientReadable(LETTER, false, true, 1);
    var c0 := Connect(LINES, NEW_CONN);
    assert Scan(LINES, 0, LETTER) == Parsed(0, None, None) by {
      assert LETTER[..0] == [];
    }
    EnqueueAll([], LETTER);
    assert c0.serverQueue == Some([]) && c0.flags.clientRead;
    assert Step(LINES, NEW_CONN, e) == ForwardRequest(LINES, c0, LETTER, false, 1);
    assert Enqueue([], LETTER)[1..] == [];
    c := ForwardRequest(LINES, c0, LETTER, false, 1).conn;
  }

  lemma Start() returns (c: Conn)
    ensures Reachable(LINES, c) && Started(c) && c.flags.clientRead
  {
    var e;
    e, c := FirstByte();
    ReachableStart(LINES);
    ReachableStep(LINES, NEW_CONN, e, c);
  }

  /** A client that connects and resets, a switch, and a writable server. */
  lemma ResetCrashes()
    ensures var run := [ClientReadable([], false, true, 0)] + [SetSlow] + [ServerWritable(0)];
            Feasible(LINES, run) && Run(LINES, run).Crash?
  {
    var e := ClientReadable([], false, true, 0);
    Last(LINES, [], e);
    assert [] + [e] == [e];
    CrashRunIff(LINES, [], e, 0);
  }

  /** The server's last byte comes with its end of file during the transition, and is lost. */
  lemma LostInTransition() returns (c: Conn)
    ensures Reachable(LINES, c) && c.alive && c.ledger.sin == LETTER && Delivered(c) == []
  {
    var c0 := Start();
    var c1 := SetSlowMode(LINES, c0).conn;
    ReachableStep(LINES, c0, SetSlow, c1);
    c := LastByte(c1);
  }

  lemma LastByte(c: Conn) returns (r: Conn)
    requires Reachable(LINES, c) && c.alive && !c.flags.fastMode && c.flags.inTransition && c.server
    requires c.flags.serverRead && c.responseBuf == Some(Fifo([], 0)) && c.ledger.sin == [] && c.ledger.cout == []
    ensures Reachable(LINES, r) && r.alive && r.ledger.sin == LETTER && Delivered(r) == []
  {
    r := TransitionReadable(c, LETTER, true).conn;
    ReachableStep(LINES, c, ServerReadable(LETTER, true, 0), r);
  }

  /** A reply-only connection with one byte queued is switched, and the byte stays behind. */
  lemma StrandedBySwitch() returns (c: Conn)
    ensures Reachable(LINES, c) && c.alive && c.ledger.sin == LETTER && Delivered(c) == []
  {
    var c0 := Start();
    var c1 := LeftToReply(c0);
    c := SetSlowMode(LINES, c1).conn;
    ReachableStep(LINES, c1, SetSlow, c);
  }

  lemma LeftToReply(c: Conn) returns (r: Conn)
    requires Reachable(LINES, c) && Started(c)
    ensures Reachable(LINES, r) && r.alive && r.flags.fastMode && !r.flags.inTransition && r.parser.None?
    ensures r.ledger.sin == LETTER && r.ledger.cout == []
  {
    EnqueueAll([], LETTER);
    r := ForwardResponse(c, LETTER, true, 0).conn;
    ReachableStep(LINES, c, ServerReadable(LETTER, true, 0), r);
  }

  // ---------------------------------------------------------------- a request that is lost

  /** A complete request waits for the server, the switch retrieves nothing of it, and the transition
      times out: no server ever gets it. */
  lemma RequestLost() returns (c: Conn)
    ensures Reachable(LINES, c) && c.alive && !c.flags.fastMode && !c.flags.inTransition
    ensures c.ledger.cinFast == LF && c.ledger.soutFast == [] && c.ledger.retrieved == [] && c.ledger.unsent == LF
    ensures c.ledger.hole == [] && !c.ledger.swapSkipped && !Covered(c.ledger)
  {
    var c1 := NotTaken();
    var c2 := SetSlowMode(LINES, c1).conn;
    ReachableStep(LINES, c1, SetSlow, c2);
    c := EndTransition(c2);
    ReachableStep(LINES, c2, ServerTimeout, c);
    assert [] + LF == LF;
  }

  lemma NotTaken() returns (c: Conn)
    ensures Reachable(LINES, c) && c.alive && c.flags.fastMode && !c.flags.inTransition && c.server && c.parser.Some?
    ensures c.serverQueue == Some(LF) && c.history == Some([]) && c.clientQueue.Some?
    ensures c.ledger == NEW_LEDGER.(cinFast := LF)
  {
    var e := ClientReadable(LF, false, true, 0);
    var c0 := Connect(LINES, NEW_CONN);
    ScanLine();
    EnqueueAll([], LF);
    assert LF[1..] == [] && [] + LF == LF;
    assert Step(LINES, NEW_CONN, e) == ForwardRequest(LINES, c0, LF, false, 0);
    c := ForwardRequest(LINES, c0, LF, false, 0).conn;
    assert LF[0..] == LF && LF[..0] == [];
    ReachableStart(LINES);
    ReachableStep(LINES, NEW_CONN, e, c);
  }

  // ---------------------------------------------------------------- a reply that stays behind

  /** The client takes one byte of two, a switch stores the other without arming the client write, and the
      server stays silent: nothing but a new request will deliver it. */
  lemma ReplyStuck() returns (c: Conn)
    ensures Reachable(LINES, c) && c.alive && !c.flags.fastMode && !c.flags.inTransition && !c.server
    ensures c.ledger.sin == TWO && c.ledger.cout == [65] && Unread(c) == [66] && !c.flags.clientWrite
  {
    var c1 := HalfTaken();
    var c2 := SetSlowMode(LINES, c1).conn;
    ReachableStep(LINES, c1, SetSlow, c2);
    c := EndTransition(c2);
    ReachableStep(LINES, c2, ServerTimeout, c);
  }

  const TWO: Bytes := [65, 66]

  lemma HalfTaken() returns (c: Conn)
    ensures Reachable(LINES, c) && c.alive && c.flags.fastMode && !c.flags.inTransition && c.server && c.parser.Some?
    ensures c.clientQueue == Some([66]) && c.serverQueue == Some([]) && c.history.Some?
    ensures c.ledger.sin == TWO && c.ledger.cout == [65] && !c.flags.clientWrite
  {
    var c0 := Start();
    EnqueueAll([], TWO);
    assert [] + TWO == TWO && TWO[..1] == [65] && TWO[1..] == [66];
    c := ForwardResponse(c0, TWO, false, 1).conn;
    ReachableStep(LINES, c0, ServerReadable(TWO, false, 1), c);
  }

  // ---------------------------------------------------------------- bytes that are not counted

  /** A run, where it leads, and what went through since the last visit. */
  ghost predicate At(events: seq<Event>, c: Conn, i: Interval) {
    Feasible(LINES, events) && Run(LINES, events) == Done(c) && Since(LINES, events) == i
  }

  lemma Extend(events: seq<Event>, e: Event, c: Conn, i: Interval, r: Conn)
    requires At(events, c, i) && Enabled(c, e) && Step(LINES, c, e) == Done(r)
    ensures e.Tick? ==> At(events + [e], r, Interval(0, 0, 0, false))
    ensures e.ClientWritable? || (e.ServerReadable? && r.ledger.cout == c.ledger.cout) ==>
      var grown := |r.ledger.cout| - |c.ledger.cout|;
      At(events + [e], r, Interval(i.read + |r.ledger.cinFast| - |c.ledger.cinFast|,
                                   i.written + grown, i.uncounted + grown, i.first))
    ensures Feasible(LINES, events + [e]) && Run(LINES, events + [e]) == Done(r)
  {
    assert (events + [e])[..|events|] == events;
  }

  /** After the monitor's visit a client takes 2000 bytes through its write event, and the next visit drops
      it as too slow. */
  lemma DrainedButDropped(bulk: Bytes) returns (events: seq<Event>, c: Conn)
    requires |bulk| == 2000
    ensures Feasible(LINES, events) && Run(LINES, events) == Done(c) && c.alive
    ensures Since(LINES, events) == Interval(0, 2000, 2000, false)
    ensures Step(LINES, c, Tick) == Done(Delete(c))
  {
    var visited, c2 := FirstVisit();
    var e3, c3 := Refused(c2, bulk);
    Extend(visited, e3, c2, Interval(0, 0, 0, false), c3);
    var held := visited + [e3];
    var e4, c4 := Drained(c3, bulk);
    Extend(held, e4, c3, Interval(0, 0, 0, false), c4);
    events, c := held + [e4], c4;
  }

  lemma FirstVisit() returns (events: seq<Event>, c: Conn)
    ensures At(events, c, Interval(0, 0, 0, false)) && Idle(c)
  {
    var e1, c1 := FirstByte();
    assert At([], NEW_CONN, Interval(0, 0, 0, true));
    Extend([], e1, NEW_CONN, Interval(0, 0, 0, true), c1);
    var started := [] + [e1];
    c := Visited(c1);
    Extend(started, Tick, c1, Since(LINES, started), c);
    events := started + [Tick];
  }

  ghost predicate Idle(c: Conn) {
    Started(c) && c.flags.readCount == 0 && c.flags.writeCount == 0
  }

  lemma Visited(c: Conn) returns (r: Conn)
    requires Started(c) && c.flags.readCount >= COUNTER_INIT
    ensures Step(LINES, c, Tick) == Done(r) && Enabled(c, Tick) && Idle(r)
  {
    r := c.(flags := c.flags.ResetCounters());
  }

  lemma Refused(c: Conn, bulk: Bytes) returns (e: Event, r: Conn)
    requires Idle(c) && |bulk| == 2000
    ensures Enabled(c, e) && Step(LINES, c, e) == Done(r) && e.ServerReadable?
    ensures Holding(r, bulk) && r.ledger == c.ledger.(sin := bulk)
  {
    e := ServerReadable(bulk, false, 0);
    EnqueueAll([], bulk);
    assert [] + bulk == bulk && bulk[0..] == bulk && bulk[..0] == [];
    r := ForwardResponse(c, bulk, false, 0).conn;
  }

  ghost predicate Holding(c: Conn, bulk: Bytes) {
    && c.alive && c.flags.fastMode && c.server && c.clientQueue == Some(bulk) && c.flags.clientWrite
    && c.flags.readCount == 0 && c.flags.writeCount == 0 && c.ledger.cout == []
  }

  lemma Drained(c: Conn, bulk: Bytes) returns (e: Event, r: Conn)
    requires Holding(c, bulk) && |bulk| == 2000
    ensures Enabled(c, e) && Step(LINES, c, e) == Done(r) && e.ClientWritable?
    ensures r.alive && r.ledger == c.ledger.(cout := bulk) && Step(LINES, r, Tick) == Done(Delete(r))
  {
    e := ClientWritable(2000, false);
    assert bulk[..2000] == bulk && [] + bulk == bulk;
    r := OnClientWritable(c, 2000, false).conn;
  }
}
