/** When a handler crashes: exactly which runs do, and what leads there. */
module Safety {
  import opened Base
  import opened Files
  import opened Parsing
  import opened Control
  import opened Machine
  import opened Invariants
  import opened Preservation

  // ---------------------------------------------------------------- the crashing step

  /** In a reachable state, every event the loop may fire finds the objects its handler uses and trips
      no assertion, but for one case: a transition's server that is writable after its queue went. */
  lemma HandlerSafety(h: Http, c: Conn, e: Event)
    requires Reachable(h, c) && Enabled(c, e)
    ensures Step(h, c, e).Crash? <==> HollowWrite(c, e)
  {
    ReachableInv(h, c);
    StepKeeps(h, c, e);
  }

  /** A run crashes exactly when its last event is such a write. */
  lemma CrashIff(h: Http, events: seq<Event>)
    requires Feasible(h, events) && |events| > 0
    ensures Run(h, events).Crash? <==> HollowWrite(Run(h, events[..|events| - 1]).conn, events[|events| - 1])
  {
    RunKeeps(h, events[..|events| - 1]);
    StepKeeps(h, Run(h, events[..|events| - 1]).conn, events[|events| - 1]);
  }

  // ---------------------------------------------------------------- what leads there

  /** A fast-mode read from the client that gets nothing, no end of file either, while nothing is queued
      for the server: a client reset. */
  predicate EmptyRead(c: Conn, e: Event) {
    && e.ClientReadable? && c.flags.fastMode && (c.parser.Some? || e.connected)
    && e.data == [] && !e.eof && c.serverQueue.GetOr([]) == []
  }

  /** An armed server write has something to write. */
  predicate Primed(c: Conn) {
    c.alive && c.server && c.flags.serverWrite ==>
      && (c.flags.fastMode ==> c.serverQueue != Some([]))
      && (c.flags.inTransition ==> c.serverQueue.Some?)
  }

  lemma ForwardRequestPrimed(h: Http, c: Conn, data: Bytes, eof: bool, written: nat)
    requires Shape(c) && CanForwardRequest(c, data, eof)
    ensures ForwardRequest(h, c, data, eof, written).Done?
    ensures var r := ForwardRequest(h, c, data, eof, written).conn;
            r.alive ==> (Primed(r) <==> data != [] || eof || c.serverQueue.value != [])
  {
    var r := ForwardRequest(h, c, data, eof, written).conn;
    var queue := c.serverQueue.value;
    EnqueueAll(queue, data);
    match Scan(h, c.parser.value, data)
    case Malformed =>
      assert !r.server && data != [];
    case Parsed(_, _, _) =>
      var n := Min(written, |queue + data|);
      if eof {
        assert !r.alive;
      } else if n == 0 {
        assert r.flags.serverWrite && r.flags.fastMode && r.server && !r.flags.inTransition;
        assert r.serverQueue == Some(queue + data);
      } else {
        assert !r.flags.serverWrite && |queue + data| > 0;
      }
  }

  lemma SwitchPrimed(h: Http, c: Conn)
    requires Shape(c) && c.alive && Primed(c)
    ensures SetSlowMode(h, c).Done? && Primed(SetSlowMode(h, c).conn)
  {
  }

  lemma ClientEventPrimed(h: Http, c: Conn, e: Event)
    requires Inv(h, c) && Enabled(c, e) && Primed(c) && e.ClientReadable?
    ensures Step(h, c, e).Done?
    ensures Step(h, c, e).conn.alive ==> (Primed(Step(h, c, e).conn) <==> !EmptyRead(c, e))
  {
    if !c.flags.fastMode {
      SlowReceiveShape(h, c, e.data, e.eof, e.connected);
    } else if c.parser.Some? {
      ForwardRequestPrimed(h, c, e.data, e.eof, e.written);
    } else if e.connected {
      ConnectKeeps(h, c);
      ForwardRequestPrimed(h, Connect(h, c), e.data, e.eof, e.written);
    }
  }

  lemma OtherEventPrimed(h: Http, c: Conn, e: Event)
    requires Inv(h, c) && Enabled(c, e) && Primed(c) && !e.ClientReadable?
    ensures Step(h, c, e).Done? && Primed(Step(h, c, e).conn)
  {
    StepKeeps(h, c, e);
    match e
    case ClientWritable(written, broken) => ClientWritablePrimed(c, written, broken);
    case ServerReadable(data, eof, written) => ServerReadablePrimed(h, c, data, eof, written);
    case ServerWritable(written) => ServerWritablePrimed(c, written);
    case ServerTimeout =>
    case SetSlow => SwitchPrimed(h, c);
    case Tick => SwitchPrimed(h, c);
  }

  lemma ClientWritablePrimed(c: Conn, written: nat, broken: bool)
    requires Shape(c) && Primed(c) && c.alive && OnClientWritable(c, written, broken).Done?
    ensures Primed(OnClientWritable(c, written, broken).conn)
  {
  }

  lemma ServerReadablePrimed(h: Http, c: Conn, data: Bytes, eof: bool, written: nat)
    requires Shape(c) && Primed(c) && c.alive && c.server && OnServerReadable(h, c, data, eof, written).Done?
    ensures Primed(OnServerReadable(h, c, data, eof, written).conn)
  {
    var r := OnServerReadable(h, c, data, eof, written).conn;
    if r.alive && r.server {
      assert r.serverQueue == c.serverQueue;
      if c.flags.fastMode {
        assert r.flags.serverWrite ==> c.flags.serverWrite;
      } else if c.flags.inTransition {
        assert r.flags.serverWrite ==> c.flags.serverWrite;
      } else {
        assert !r.flags.inTransition && !r.flags.fastMode;
      }
    }
  }

  lemma ServerWritablePrimed(c: Conn, written: nat)
    requires Shape(c) && Primed(c) && c.alive && c.server && OnServerWritable(c, written).Done?
    ensures Primed(OnServerWritable(c, written).conn)
  {
  }

  /** While every armed server write has something to write nothing crashes, and the only step that
      ends this is an empty read. */
  lemma EmptyReadIsTheCause(h: Http, c: Conn, e: Event)
    requires Inv(h, c) && Enabled(c, e) && Primed(c)
    ensures Step(h, c, e).Done?
    ensures Step(h, c, e).conn.alive ==> (Primed(Step(h, c, e).conn) <==> !EmptyRead(c, e))
  {
    if e.ClientReadable? {
      ClientEventPrimed(h, c, e);
    } else {
      OtherEventPrimed(h, c, e);
    }
  }

  ghost predicate EverEmptyRead(h: Http, events: seq<Event>) {
    |events| > 0 &&
    (var before := events[..|events| - 1];
     || EverEmptyRead(h, before)
     || (Run(h, before).Done? && EmptyRead(Run(h, before).conn, events[|events| - 1])))
  }

  /** A run without an empty read does not crash, whatever its other reads return. */
  lemma {:induction false} NoCrash(h: Http, events: seq<Event>)
    requires Feasible(h, events) && !EverEmptyRead(h, events)
    ensures Run(h, events).Done? && Primed(Run(h, events).conn)
  {
    if |events| > 0 {
      var before := events[..|events| - 1];
      NoCrash(h, before);
      RunKeeps(h, before);
      EmptyReadIsTheCause(h, Run(h, before).conn, events[|events| - 1]);
    }
  }

  // ---------------------------------------------------------------- and that it does lead there

  /** Running, nothing queued for the server, and its write event armed. */
  predicate Hollow(c: Conn) {
    && c.alive && c.flags.fastMode && !c.flags.inTransition && c.server && c.parser.Some?
    && c.serverQueue == Some([]) && c.flags.serverWrite
  }

  /** From any state, the first event of a fresh connection included, a switch after an empty read frees
      the server's queue under an armed write event, and the writable server dereferences it. */
  lemma EmptyReadHollows(h: Http, c: Conn, e: Event)
    requires Inv(h, c) && Enabled(c, e) && EmptyRead(c, e)
    ensures Step(h, c, e).Done? && Hollow(Step(h, c, e).conn) && Inv(h, Step(h, c, e).conn)
  {
    StepKeeps(h, c, e);
    if c.parser.Some? {
      NothingForwarded(h, c, e.written);
    } else {
      NothingForwarded(h, Connect(h, c), e.written);
    }
  }

  lemma NothingForwarded(h: Http, c: Conn, written: nat)
    requires c.alive && c.flags.fastMode && !c.flags.inTransition && c.server
    requires c.parser.Some? && c.history.Some? && c.clientQueue.Some? && c.serverQueue == Some([])
    ensures ForwardRequest(h, c, [], false, written).Done? && Hollow(ForwardRequest(h, c, [], false, written).conn)
  {
    assert Enqueue([], []) == [];
    assert Scan(h, c.parser.value, []) == Parsed(c.parser.value, None, None);
  }

  lemma HollowCrashes(h: Http, c: Conn, written: nat)
    requires Inv(h, c) && Hollow(c)
    ensures Enabled(c, SetSlow) && Step(h, c, SetSlow).Done?
    ensures var s := Step(h, c, SetSlow).conn;
            Enabled(s, ServerWritable(written)) && Step(h, s, ServerWritable(written)).Crash?
  {
  }

  /** The condition is exact. In a run without an empty read so far, the next event is one if and only if
      a switch and a writable server may follow it and crash the proxy. */
  lemma CrashRunIff(h: Http, events: seq<Event>, e: Event, written: nat)
    requires Feasible(h, events + [e]) && !EverEmptyRead(h, events)
    ensures var run := events + [e] + [SetSlow] + [ServerWritable(written)];
            EmptyRead(Run(h, events).conn, e) <==> Feasible(h, run) && Run(h, run).Crash?
  {
    var one := events + [e];
    var two := one + [SetSlow];
    var three := two + [ServerWritable(written)];
    Last(h, events, e);
    Last(h, one, SetSlow);
    Last(h, two, ServerWritable(written));
    if EmptyRead(Run(h, events).conn, e) {
      RunKeeps(h, events);
      EmptyReadHollows(h, Run(h, events).conn, e);
      HollowCrashes(h, Run(h, one).conn, written);
    } else {
      assert !EverEmptyRead(h, three);
      if Feasible(h, three) {
        NoCrash(h, three);
      }
    }
  }

  lemma Last(h: Http, events: seq<Event>, e: Event)
    ensures Run(h, events + [e]) == if Run(h, events).Crash? then Crash else Step(h, Run(h, events).conn, e)
    ensures Feasible(h, events + [e]) <==>
            Feasible(h, events) && Run(h, events).Done? && Enabled(Run(h, events).conn, e)
    ensures EverEmptyRead(h, events + [e]) <==>
            EverEmptyRead(h, events) || (Run(h, events).Done? && EmptyRead(Run(h, events).conn, e))
  {
    assert (events + [e])[..|events|] == events;
  }
}
