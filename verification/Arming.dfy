/** When the write events are armed: backpressure in fast mode, delivery of stored responses afterwards. */
module Arming {
  import opened Base
  import opened Files
  import opened Parsing
  import opened Control
  import opened Machine
  import opened Invariants
  import opened Preservation
  import opened Events

  // ---------------------------------------------------------------- backpressure

  lemma ForwardRequestArms(h: Http, c: Conn, data: Bytes, eof: bool, written: nat)
    requires Shape(c) && CanForwardRequest(c, data, eof)
    ensures ForwardRequest(h, c, data, eof, written).Done?
    ensures var r := ForwardRequest(h, c, data, eof, written).conn;
            r.alive && r.server ==>
              && (r.flags.serverWrite <==> r.ledger.soutFast == c.ledger.soutFast)
              && r.flags.clientWrite == c.flags.clientWrite
  {
    var queue := Enqueue(c.serverQueue.value, data);
    Grew(c.ledger.soutFast, queue, Min(written, |queue|));
  }

  lemma Grew(a: Bytes, b: Bytes, n: nat)
    requires n <= |b|
    ensures a + b[..n] == a <==> n == 0
  {
    if n == 0 {
      assert b[..n] == [];
    } else {
      assert |a + b[..n]| > |a|;
    }
  }

  lemma ForwardResponseArms(c: Conn, data: Bytes, eof: bool, written: nat)
    requires Shape(c) && CanForwardResponse(c, data, eof)
    ensures ForwardResponse(c, data, eof, written).Done?
    ensures var r := ForwardResponse(c, data, eof, written).conn;
            r.alive && r.server ==>
              && (r.flags.clientWrite <==> r.ledger.cout == c.ledger.cout)
              && r.flags.serverWrite == c.flags.serverWrite
  {
    var queue := Enqueue(c.clientQueue.value, data);
    Grew(c.ledger.cout, queue, Min(written, |queue|));
  }

  /** In fast mode, after `e` led from `c` to `r`: a read from the server arms the client write exactly if
      the client took nothing, a read from the client arms the server write exactly if the server took
      nothing, a writable peer is disarmed, and nothing else changes the two. */
  ghost predicate ArmedAfter(c: Conn, e: Event, r: Conn) {
    && (r.flags.clientWrite <==>
          match e
          case ServerReadable(_, _, _) => r.ledger.cout == c.ledger.cout
          case ClientWritable(_, _) => false
          case _ => c.flags.clientWrite)
    && (r.flags.serverWrite <==>
          match e
          case ClientReadable(_, _, _, _) => r.ledger.soutFast == c.ledger.soutFast
          case ServerWritable(_) => false
          case _ => c.flags.serverWrite)
  }

  lemma FastReadArms(h: Http, c: Conn, e: Event, r: Conn)
    requires Inv(h, c) && Enabled(c, e) && Step(h, c, e) == Done(r) && (e.ClientReadable? || e.ServerReadable?)
    requires r.alive && c.flags.fastMode && r.server
    ensures ArmedAfter(c, e, r)
  {
    if e.ServerReadable? {
      ForwardResponseArms(c, e.data, e.eof, e.written);
    } else if c.parser.Some? {
      ForwardRequestArms(h, c, e.data, e.eof, e.written);
    } else {
      ConnectKeeps(h, c);
      ForwardRequestArms(h, Connect(h, c), e.data, e.eof, e.written);
    }
  }

  lemma FastWriteArms(h: Http, c: Conn, e: Event, r: Conn)
    requires Inv(h, c) && Enabled(c, e) && Step(h, c, e) == Done(r) && (e.ClientWritable? || e.ServerWritable?)
    requires r.alive && c.flags.fastMode && r.server
    ensures ArmedAfter(c, e, r)
  {
  }

  lemma BackpressureStep(h: Http, c: Conn, e: Event, r: Conn)
    requires Inv(h, c) && Enabled(c, e) && Step(h, c, e) == Done(r)
    requires r.alive && c.flags.fastMode && r.flags.fastMode && r.server
    ensures ArmedAfter(c, e, r)
  {
    if e.ClientReadable? || e.ServerReadable? {
      FastReadArms(h, c, e, r);
    } else if e.ClientWritable? || e.ServerWritable? {
      FastWriteArms(h, c, e, r);
    } else if e.SetSlow? || e.Tick? {
      DemotionStep(h, c, e, r);
      ModeIff(h, c, e, r);
    }
  }

  /** The last event between server and client was a read of which the client took nothing. */
  ghost predicate ClientBlocked(h: Http, events: seq<Event>) {
    |events| > 0 &&
    var before := events[..|events| - 1];
    match events[|events| - 1]
    case ServerReadable(_, _, _) =>
      Run(h, before).Done? && Run(h, events).Done? && Run(h, events).conn.ledger.cout == Run(h, before).conn.ledger.cout
    case ClientWritable(_, _) => false
    case _ => ClientBlocked(h, before)
  }

  ghost predicate ServerBlocked(h: Http, events: seq<Event>) {
    |events| > 0 &&
    var before := events[..|events| - 1];
    match events[|events| - 1]
    case ClientReadable(_, _, _, _) =>
      && Run(h, before).Done? && Run(h, events).Done?
      && Run(h, events).conn.ledger.soutFast == Run(h, before).conn.ledger.soutFast
    case ServerWritable(_) => false
    case _ => ServerBlocked(h, before)
  }

  /** Connected in fast mode, or not yet. */
  predicate Flowing(c: Conn) {
    c.alive && c.flags.fastMode && (c.server || c.clientQueue.None?)
  }

  /** Over whole runs, while a fast-mode server lives: a write is armed exactly if the last attempt to
      write in its direction took nothing, and the read it holds back is armed exactly if not. */
  lemma {:induction false} BackpressureIff(h: Http, events: seq<Event>, c: Conn)
    requires Feasible(h, events) && Run(h, events) == Done(c) && Flowing(c)
    ensures c.flags.clientWrite <==> ClientBlocked(h, events)
    ensures c.flags.serverWrite <==> ServerBlocked(h, events)
    ensures c.server ==> c.flags.serverRead == !ClientBlocked(h, events)
    ensures c.server ==> c.flags.clientRead == !ServerBlocked(h, events)
  {
    RunKeeps(h, events);
    if |events| > 0 {
      var before, e := events[..|events| - 1], events[|events| - 1];
      var b := Run(h, before).conn;
      RunKeeps(h, before);
      StillFlowing(h, b, e, c);
      BackpressureIff(h, before, b);
      if c.server {
        BackpressureStep(h, b, e, c);
      } else {
        NotYetConnected(h, b, e, c);
      }
    }
  }

  lemma StillFlowing(h: Http, b: Conn, e: Event, c: Conn)
    requires Inv(h, b) && Inv(h, c) && Enabled(b, e) && Step(h, b, e) == Done(c) && Flowing(c)
    ensures Flowing(b)
  {
    ModeIff(h, b, e, c);
    if !b.server && b.clientQueue.Some? {
      assert FastReplyShape(b);
      PeersStep(h, b, e, c);
      ReplyStays(h, b, e, c);
    }
  }

  /** A reply-only connection keeps its queue. */
  lemma ReplyStays(h: Http, b: Conn, e: Event, c: Conn)
    requires Shape(b) && b.flags.fastMode && !b.server && b.clientQueue.Some? && FastReplyShape(b)
    requires Enabled(b, e) && Step(h, b, e) == Done(c) && c.alive
    ensures c.clientQueue.Some?
  {
  }

  lemma NotYetConnected(h: Http, b: Conn, e: Event, c: Conn)
    requires Inv(h, b) && Inv(h, c) && Enabled(b, e) && Step(h, b, e) == Done(c)
    requires Flowing(b) && Flowing(c) && !c.server
    ensures e.SetSlow? || e.Tick?
    ensures c.flags.clientWrite == b.flags.clientWrite && c.flags.serverWrite == b.flags.serverWrite
  {
    ModeIff(h, b, e, c);
    assert FreshShape(c);
    if e.SetSlow? || e.Tick? {
      DemotionStep(h, b, e, c);
    } else {
      PeersStep(h, b, e, c);
    }
  }

  // ---------------------------------------------------------------- delivery of stored responses

  /** Server bytes go to the response buffer. */
  predicate Stores(c: Conn, e: Event) {
    e.ServerReadable? && !c.flags.fastMode && (c.flags.inTransition ==> !e.eof)
  }

  /** After server bytes were stored, the client write is armed. */
  lemma StoredArms(h: Http, c: Conn, e: Event, r: Conn)
    requires Inv(h, c) && Enabled(c, e) && Step(h, c, e) == Done(r) && Stores(c, e) && r.alive
    ensures r.flags.clientWrite
  {
    if c.flags.inTransition {
      TransitionArms(c, e.data);
    } else {
      SlowResponseArms(h, c, e.data, e.eof);
    }
  }

  lemma TransitionArms(c: Conn, data: Bytes)
    requires TransitionReadable(c, data, false).Done?
    ensures TransitionReadable(c, data, false).conn.flags.clientWrite
  {
  }

  lemma SlowResponseArms(h: Http, c: Conn, data: Bytes, eof: bool)
    requires SlowResponse(h, c, data, eof).Done? && SlowResponse(h, c, data, eof).conn.alive
    ensures SlowResponse(h, c, data, eof).conn.flags.clientWrite
  {
  }

  /** Outside fast mode, no other step touches the unread bytes or the client write, but for a writable
      client, which is disarmed exactly when nothing is unread, and malformed request bytes, which leave
      the connection to reply only. */
  ghost predicate ReplySide(h: Http, c: Conn, e: Event, r: Conn) {
    if e.ClientWritable? then
      if Unread(c) == [] then Unread(r) == [] && !r.flags.clientWrite
      else r.flags.clientWrite == c.flags.clientWrite
    else
      Unread(r) == Unread(c) && r.flags.clientWrite == (c.flags.clientWrite || (e.ClientReadable? && Rejects(h, c, e)))
  }

  lemma SlowReceiveReply(h: Http, c: Conn, e: Event, r: Conn)
    requires Shape(c) && CanReceive(c) && e.ClientReadable? && r.alive
    requires SlowReceive(h, c, e.data, e.eof, e.connected) == Done(r)
    ensures ReplySide(h, c, e, r)
  {
  }

  lemma SlowReplyReply(h: Http, c: Conn, e: Event, r: Conn)
    requires Shape(c) && c.alive && !c.flags.fastMode && e.ClientWritable? && r.alive
    requires SlowReply(c, e.written) == Done(r)
    ensures ReplySide(h, c, e, r)
  {
  }

  lemma SlowServerWritableReply(h: Http, c: Conn, e: Event, r: Conn)
    requires Shape(c) && c.alive && !c.flags.fastMode && e.ServerWritable? && r.alive
    requires OnServerWritable(c, e.written) == Done(r)
    ensures ReplySide(h, c, e, r)
  {
  }

  lemma TransitionEndReply(h: Http, c: Conn, e: Event, r: Conn)
    requires Shape(c) && c.alive && c.flags.inTransition && r.alive
    requires (e.ServerTimeout? && r == EndTransition(c))
             || (e.ServerReadable? && e.eof && TransitionReadable(c, e.data, true) == Done(r))
    ensures ReplySide(h, c, e, r)
  {
  }

  lemma ReplyStep(h: Http, c: Conn, e: Event, r: Conn)
    requires Inv(h, c) && Enabled(c, e) && Step(h, c, e) == Done(r) && r.alive && !c.flags.fastMode && !Stores(c, e)
    ensures ReplySide(h, c, e, r)
  {
    if e.ClientReadable? {
      SlowReceiveReply(h, c, e, r);
    } else if e.ClientWritable? {
      SlowReplyReply(h, c, e, r);
    } else if e.ServerWritable? {
      SlowServerWritableReply(h, c, e, r);
    } else if e.SetSlow? || e.Tick? {
      DemotionStep(h, c, e, r);
    } else {
      TransitionEndReply(h, c, e, r);
    }
  }

  /** Once armed, the client write stays armed until a step finds nothing unread. */
  lemma StaysArmed(h: Http, c: Conn, e: Event, r: Conn)
    requires Reachable(h, c) && Enabled(c, e) && Step(h, c, e) == Done(r) && r.alive && !c.flags.fastMode
    ensures Stores(c, e) ==> r.flags.clientWrite
    ensures c.flags.clientWrite ==> (r.flags.clientWrite <==> !(e.ClientWritable? && Unread(c) == []))
  {
    ReachableInv(h, c);
    if Stores(c, e) {
      StoredArms(h, c, e, r);
    } else {
      ReplyStep(h, c, e, r);
    }
  }

  /** The switch moved bytes to the response buffer while the client write was not armed, and nothing has
      armed it since. */
  ghost predicate Stuck(h: Http, events: seq<Event>) {
    |events| > 0 &&
    var before, e := events[..|events| - 1], events[|events| - 1];
    Run(h, before).Done? &&
    var c := Run(h, before).conn;
    if Switches(c, e) then c.parser.Some? && !c.flags.clientWrite && Undelivered(c.ledger) > 0
    else !Stores(c, e) && !(e.ClientReadable? && Rejects(h, c, e)) && Stuck(h, before)
  }

  /** Exactly the runs after which stored bytes wait for the client without an armed write. */
  lemma {:induction false} StuckIff(h: Http, events: seq<Event>, c: Conn)
    requires Feasible(h, events) && Run(h, events) == Done(c) && c.alive && !c.flags.fastMode
    ensures Unread(c) != [] && !c.flags.clientWrite <==> Stuck(h, events)
  {
    if |events| > 0 {
      var before, e := events[..|events| - 1], events[|events| - 1];
      var b := Run(h, before).conn;
      RunKeeps(h, before);
      ModeIff(h, b, e, c);
      if b.flags.fastMode {
        SwitchStuck(h, b, e, c);
      } else {
        StuckIff(h, before, b);
        if Stores(b, e) {
          StoredArms(h, b, e, c);
        } else {
          ReplyStep(h, b, e, c);
        }
      }
    }
  }

  lemma SwitchStuck(h: Http, b: Conn, e: Event, c: Conn)
    requires Inv(h, b) && Enabled(b, e) && Step(h, b, e) == Done(c) && c.alive && Switches(b, e)
    ensures Unread(c) != [] && !c.flags.clientWrite <==>
            b.parser.Some? && !b.flags.clientWrite && Undelivered(b.ledger) > 0
  {
    DemotionStep(h, b, e, c);
    FastUndelivered(b);
    SwitchUnread(h, b);
  }

  lemma SwitchUnread(h: Http, b: Conn)
    requires Shape(b) && b.alive && b.flags.fastMode && SetSlowMode(h, b).Done?
    ensures var r := SetSlowMode(h, b).conn;
            && r.flags.clientWrite == b.flags.clientWrite
            && Unread(r) == if b.parser.Some? then b.clientQueue.value else []
  {
  }
}
