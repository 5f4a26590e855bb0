/** Each handler, fired in a state that satisfies the invariant, finishes and keeps it. */
module Preservation {
  import opened Base
  import opened Files
  import opened Parsing
  import opened Control
  import opened Machine
  import opened Invariants

  // ---------------------------------------------------------------- sequences

  lemma HoleGrows(whole: Bytes, part: Bytes, k: nat, hole: Bytes, more: Bytes)
    requires WithHole(whole, part, k, hole)
    ensures WithHole(whole + more, part + more, k, hole)
  {
    assert (part + more)[..k] == part[..k];
    assert (part + more)[k..] == part[k..] + more;
    assert part[..k] + hole + (part[k..] + more) == part[..k] + hole + part[k..] + more;
  }

  lemma Split(s: Bytes, n: nat)
    requires n <= |s|
    ensures s[..n] + s[n..] == s
  {
  }

  lemma AppendBoth(out: Bytes, owed: Bytes, before: Bytes, input: Bytes, data: Bytes)
    requires out + owed == before + input
    ensures out + (owed + data) == before + (input + data)
  {
    assert out + (owed + data) == out + owed + data;
    assert before + (input + data) == before + input + data;
  }

  lemma HeadOf(out: Bytes, owed: Bytes, before: Bytes, input: Bytes, data: Bytes)
    requires out + owed == before + input
    ensures out <= before + input && out <= before + (input + data)
  {
    assert before + (input + data) == before + input + data;
  }

  /** `n` bytes move from the head of the pending bytes to the output. */
  lemma HeadMoves(out: Bytes, pending: Bytes, n: nat, rest: Bytes)
    requires n <= |pending|
    ensures (out + pending[..n]) + (pending[n..] + rest) == out + (pending + rest)
    ensures out + pending[..n] + pending[n..] == out + pending
  {
    Split(pending, n);
    assert (out + pending[..n]) + (pending[n..] + rest) == out + (pending[..n] + pending[n..] + rest);
    assert out + pending[..n] + pending[n..] == out + (pending[..n] + pending[n..]);
  }

  lemma DropMore(s: Bytes, pos: nat, n: nat)
    requires pos + n <= |s|
    ensures s[pos..][n..] == s[pos + n..]
    ensures s[..pos] + s[pos..][..n] == s[..pos + n]
  {
  }

  lemma TakeJoined(r: Bytes, a: Bytes, b: Bytes, k: nat)
    requires k <= |b|
    ensures r + (a + b)[..|a| + k] == r + a + b[..k]
  {
    assert (a + b)[..|a| + k] == a + b[..k];
    assert r + (a + b[..k]) == r + a + b[..k];
  }

  lemma EnqueueAll(queue: Bytes, data: Bytes)
    requires |queue| + |data| <= RING_ROOM
    ensures Enqueue(queue, data) == queue + data
  {
    assert data[..|data|] == data;
  }

  // ---------------------------------------------------------------- what most steps leave alone

  /** Nothing that the response invariant speaks of differs. */
  ghost predicate SameResponseSide(c: Conn, r: Conn) {
    && c.alive && r.alive && r.flags.fastMode == c.flags.fastMode && (r.flags.inTransition ==> c.flags.inTransition)
    && r.clientQueue.GetOr([]) == c.clientQueue.GetOr([]) && r.responseBuf == c.responseBuf
    && r.ledger.sin == c.ledger.sin && r.ledger.cout == c.ledger.cout
    && r.ledger.hole == c.ledger.hole && r.ledger.holeAt == c.ledger.holeAt
  }

  lemma SameResponses(c: Conn, r: Conn)
    requires ResponseInv(c) && SameResponseSide(c, r)
    ensures ResponseInv(r)
  {
    assert Delivered(r) == Delivered(c);
  }

  /** Nothing that the request invariants speak of differs. */
  ghost predicate SameRequestSide(c: Conn, r: Conn) {
    && r.alive == c.alive && r.parser == c.parser && r.server == c.server && r.serverQueue == c.serverQueue
    && r.requestBuf == c.requestBuf && r.requestTmpBuf == c.requestTmpBuf && r.history == c.history
    && r.flags == c.flags.(clientWrite := r.flags.clientWrite)
    && r.ledger == c.ledger.(sin := r.ledger.sin, cout := r.ledger.cout,
                             hole := r.ledger.hole, holeAt := r.ledger.holeAt)
  }

  lemma SameRequests(h: Http, c: Conn, r: Conn)
    requires Shape(c) && Shape(r) && SameRequestSide(c, r)
    requires FastInv(c) && SlowInv(c) && HistoryInv(h, c) && SwitchInv(h, c)
    ensures FastInv(r) && SlowInv(r) && HistoryInv(h, r) && SwitchInv(h, r)
  {
    assert ParsedPart(r.ledger) == ParsedPart(c.ledger);
    assert FirstSlowRequest(h, r.ledger) == FirstSlowRequest(h, c.ledger);
    assert Forwarding(r) == Forwarding(c);
  }

  // ---------------------------------------------------------------- fast mode

  lemma ConnectShape(h: Http, c: Conn)
    requires Shape(c) && c.alive && c.flags.fastMode && c.parser.None? && c.flags.clientRead
    ensures FreshShape(c) && Shape(Connect(h, c))
    ensures Connect(h, c).server && Connect(h, c).flags.clientRead && RequestRoom(Connect(h, c)) == RequestRoom(c)
  {
  }

  lemma NothingParsed(h: Http)
    ensures Scan(h, h.start, []) == Parsed(h.start, None, None)
    ensures Incomplete(h, []) == [] && StateAfter(h, []) == h.start
  {
  }

  lemma ConnectKeeps(h: Http, c: Conn)
    requires Inv(h, c) && c.alive && c.flags.fastMode && c.parser.None? && c.flags.clientRead
    ensures Inv(h, Connect(h, c)) && Connect(h, c).server && Connect(h, c).flags.clientRead
    ensures RequestRoom(Connect(h, c)) == RequestRoom(c)
  {
    ConnectShape(h, c);
    SameResponses(c, Connect(h, c));
    Connected(h, Connect(h, c));
  }

  /** A running connection that has read nothing yet. */
  lemma Connected(h: Http, r: Conn)
    requires Shape(r) && r.alive && r.flags.fastMode && r.server && r.ledger == NEW_LEDGER
    requires r.parser == Some(h.start) && r.history == Some([]) && r.serverQueue == Some([])
    ensures FastInv(r) && HistoryInv(h, r) && SlowInv(r) && SwitchInv(h, r)
  {
    NothingSentYet(r);
    NothingTracked(h, r);
  }

  lemma NothingSentYet(r: Conn)
    requires r.flags.fastMode && r.ledger == NEW_LEDGER && r.serverQueue == Some([])
    ensures FastInv(r)
  {
    assert r.serverQueue.GetOr([]) == [];
  }

  lemma NothingTracked(h: Http, r: Conn)
    requires Shape(r) && r.ledger.cinFast == [] && r.parser == Some(h.start) && r.history == Some([])
    ensures HistoryInv(h, r)
  {
    NothingParsed(h);
  }

  ghost predicate CanForwardRequest(c: Conn, data: Bytes, eof: bool) {
    c.alive && c.flags.fastMode && c.server && c.flags.clientRead && LegalRead(data, eof, RequestRoom(c))
  }

  lemma ForwardRequestShape(h: Http, c: Conn, data: Bytes, eof: bool, written: nat)
    requires Shape(c) && CanForwardRequest(c, data, eof)
    ensures ForwardRequest(h, c, data, eof, written).Done?
    ensures Shape(ForwardRequest(h, c, data, eof, written).conn)
  {
    EnqueueAll(c.serverQueue.value, data);
  }

  lemma ForwardRequestResponses(h: Http, c: Conn, data: Bytes, eof: bool, written: nat)
    requires Shape(c) && ResponseInv(c) && CanForwardRequest(c, data, eof)
    requires ForwardRequest(h, c, data, eof, written).Done?
    ensures ResponseInv(ForwardRequest(h, c, data, eof, written).conn)
  {
    var r := ForwardRequest(h, c, data, eof, written).conn;
    if r.alive {
      SameResponses(c, r);
    }
  }

  /** out + queue is kept when `data` joins the queue and `n` bytes of it leave. */
  lemma QueueMoves(input: Bytes, out: Bytes, queue: Bytes, data: Bytes, n: nat)
    requires input == out + queue && n <= |queue + data|
    ensures input + data == (out + (queue + data)[..n]) + (queue + data)[n..]
  {
    var q := queue + data;
    assert q[..n] + q[n..] == q;
    assert out + queue + data == out + q;
    assert out + (q[..n] + q[n..]) == out + q[..n] + q[n..];
  }

  lemma ForwardRequestRequests(h: Http, c: Conn, data: Bytes, eof: bool, written: nat)
    requires Shape(c) && FastInv(c) && CanForwardRequest(c, data, eof)
    requires ForwardRequest(h, c, data, eof, written).Done?
    ensures FastInv(ForwardRequest(h, c, data, eof, written).conn)
  {
    var r := ForwardRequest(h, c, data, eof, written).conn;
    var l, queue := c.ledger, c.serverQueue.value;
    assert l.cinFast == l.soutFast + queue by {
      assert l.soutFast + queue + [] == l.soutFast + queue;
    }
    match Scan(h, c.parser.value, data)
    case Malformed =>
      if r.alive {
        QueueMoves(l.cinFast, l.soutFast, queue, data, 0);
        assert r.ledger.unsent == queue + data;
        assert r.ledger.soutFast + [] + (queue + data) == l.cinFast + data;
      }
    case Parsed(_, _, _) =>
      if r.alive {
        EnqueueAll(queue, data);
        var n := Min(written, |queue + data|);
        QueueMoves(l.cinFast, l.soutFast, queue, data, n);
        assert r.serverQueue.GetOr([]) + [] == (queue + data)[n..];
      }
  }

  lemma ForwardRequestHistory(h: Http, c: Conn, data: Bytes, eof: bool, written: nat)
    requires Shape(c) && HistoryInv(h, c) && CanForwardRequest(c, data, eof)
    requires ForwardRequest(h, c, data, eof, written).Done?
    requires Shape(ForwardRequest(h, c, data, eof, written).conn)
    ensures HistoryInv(h, ForwardRequest(h, c, data, eof, written).conn)
  {
    if Scan(h, c.parser.value, data).Parsed? {
      HistoryExtends(h, c.ledger.cinFast, data);
    }
  }

  /** Tracking one more chunk keeps the incomplete tail of the stream. */
  lemma HistoryExtends(h: Http, stream: Bytes, data: Bytes)
    requires Scan(h, h.start, stream).Parsed?
    requires Scan(h, StateAfter(h, stream), data).Parsed?
    ensures Scan(h, h.start, stream + data).Parsed?
    ensures var p := Scan(h, StateAfter(h, stream), data);
            && StateAfter(h, stream + data) == p.state
            && Incomplete(h, stream + data)
               == if p.last.Some? then data[p.last.value..] else Incomplete(h, stream) + data
  {
    var a := Scan(h, h.start, stream);
    var p := Scan(h, a.state, data);
    ScanConcat(h, h.start, stream, data);
    JoinParsed(a, |stream|, p);
    if p.last.Some? {
      IncompleteFrom(h, stream + data, |stream| + p.last.value);
      TailBeyond(stream, data, p.last.value);
    } else {
      var k := a.last.GetOr(0);
      IncompleteFrom(h, stream, k);
      IncompleteFrom(h, stream + data, k);
      TailAcross(stream, data, k);
    }
  }

  lemma JoinParsed(a: Parse, n: nat, p: Parse)
    requires a.Parsed? && p.Parsed?
    ensures Join(a, n, p).Parsed? && Join(a, n, p).state == p.state
    ensures Join(a, n, p).last == if p.last.Some? then Some(n + p.last.value) else a.last
  {
  }

  lemma IncompleteFrom(h: Http, stream: Bytes, k: nat)
    requires Scan(h, h.start, stream).Parsed? && Scan(h, h.start, stream).last.GetOr(0) == k
    ensures k <= |stream| && Incomplete(h, stream) == stream[k..]
  {
  }

  lemma TailBeyond(a: Bytes, b: Bytes, k: nat)
    requires k <= |b|
    ensures (a + b)[|a| + k..] == b[k..]
  {
  }

  lemma TailAcross(a: Bytes, b: Bytes, k: nat)
    requires k <= |a|
    ensures (a + b)[k..] == a[k..] + b
  {
  }

  lemma ForwardRequestKeeps(h: Http, c: Conn, data: Bytes, eof: bool, written: nat)
    requires Inv(h, c) && CanForwardRequest(c, data, eof)
    ensures ForwardRequest(h, c, data, eof, written).Done?
    ensures Inv(h, ForwardRequest(h, c, data, eof, written).conn)
  {
    ForwardRequestShape(h, c, data, eof, written);
    ForwardRequestResponses(h, c, data, eof, written);
    ForwardRequestRequests(h, c, data, eof, written);
    ForwardRequestHistory(h, c, data, eof, written);
  }

  ghost predicate CanForwardResponse(c: Conn, data: Bytes, eof: bool) {
    c.alive && c.flags.fastMode && c.server && c.flags.serverRead && LegalRead(data, eof, ResponseRoom(c))
  }

  lemma ForwardResponseShape(c: Conn, data: Bytes, eof: bool, written: nat)
    requires Shape(c) && CanForwardResponse(c, data, eof)
    ensures ForwardResponse(c, data, eof, written).Done?
    ensures Shape(ForwardResponse(c, data, eof, written).conn)
  {
    EnqueueAll(c.clientQueue.value, data);
  }

  lemma ForwardResponseDelivers(c: Conn, data: Bytes, eof: bool, written: nat)
    requires Shape(c) && ResponseInv(c) && CanForwardResponse(c, data, eof)
    requires ForwardResponse(c, data, eof, written).Done?
    ensures ResponseInv(ForwardResponse(c, data, eof, written).conn)
  {
    var r := ForwardResponse(c, data, eof, written).conn;
    if r.alive {
      var queue, out := c.clientQueue.value, c.ledger.cout;
      EnqueueAll(queue, data);
      QueueMoves(out + queue, out, queue, data, Min(written, |queue + data|));
      assert Delivered(c) == out + queue;
      assert Delivered(r) == Delivered(c) + data;
      HoleGrows(c.ledger.sin, Delivered(c), c.ledger.holeAt, c.ledger.hole, data);
    }
  }

  /** Freeing a server files its unsent queue away. */
  lemma FreeServerKeepsFast(c: Conn)
    requires FastInv(c) && (c.serverQueue.None? || c.ledger.unsent == [])
    ensures FastInv(FreeServer(c))
  {
    if c.alive {
      UnsentMoves(c.ledger.soutFast, c.serverQueue.GetOr([]), c.ledger.unsent);
    }
  }

  lemma UnsentMoves(out: Bytes, queue: Bytes, unsent: Bytes)
    requires queue == [] || unsent == []
    ensures out + queue + unsent == out + [] + (unsent + queue)
  {
  }

  lemma ForwardResponseKeeps(h: Http, c: Conn, data: Bytes, eof: bool, written: nat)
    requires Inv(h, c) && CanForwardResponse(c, data, eof)
    ensures ForwardResponse(c, data, eof, written).Done?
    ensures Inv(h, ForwardResponse(c, data, eof, written).conn)
  {
    ForwardResponseShape(c, data, eof, written);
    ForwardResponseDelivers(c, data, eof, written);
    FreeServerKeepsFast(c);
  }

  lemma FastClientWritableKeeps(h: Http, c: Conn, written: nat, broken: bool)
    requires Inv(h, c) && c.alive && c.flags.fastMode && c.flags.clientWrite
    ensures OnClientWritable(c, written, broken).Done?
    ensures Inv(h, OnClientWritable(c, written, broken).conn)
  {
    var r := OnClientWritable(c, written, broken).conn;
    var queue, out := c.clientQueue.value, c.ledger.cout;
    if r.alive {
      QueueMoves(out + queue, out, queue, [], Min(written, |queue|));
      assert queue + [] == queue;
      assert Delivered(r) == Delivered(c);
    }
  }

  lemma FastServerWritableKeeps(h: Http, c: Conn, written: nat)
    requires Inv(h, c) && c.alive && c.flags.fastMode && c.server && c.flags.serverWrite
    ensures OnServerWritable(c, written).Done?
    ensures Inv(h, OnServerWritable(c, written).conn)
  {
    var queue := c.serverQueue.value;
    QueueDrains(c.ledger.soutFast, queue, Min(written, |queue|));
    SameResponses(c, OnServerWritable(c, written).conn);
  }

  lemma QueueDrains(out: Bytes, queue: Bytes, n: nat)
    requires n <= |queue|
    ensures out + queue + [] == out + queue[..n] + queue[n..] + []
  {
    assert queue[..n] + queue[n..] == queue;
  }

  // ---------------------------------------------------------------- the switch

  lemma SetSlowFresh(h: Http, c: Conn)
    requires Inv(h, c) && c.alive && c.flags.fastMode && c.parser.None?
    ensures SetSlowMode(h, c).Done? && Inv(h, SetSlowMode(h, c).conn)
  {
    var r := SetSlowMode(h, c).conn;
    var out, queue := c.ledger.cout, c.clientQueue.GetOr([]);
    assert Delivered(c) == out + queue;
    assert Delivered(r) == out;
    assert out[..|out|] == out && out[|out|..] == [];
    assert c.ledger.sin == out + queue;
    assert ParsedPart(r.ledger) == [];
  }

  lemma SetSlowRunning(h: Http, c: Conn)
    requires Inv(h, c) && c.alive && c.flags.fastMode && c.parser.Some?
    ensures SetSlowMode(h, c).Done? && Inv(h, SetSlowMode(h, c).conn)
  {
    var r := SetSlowMode(h, c).conn;
    assert Delivered(c) == c.ledger.cout + c.clientQueue.value == Delivered(r);
    assert ParsedPart(r.ledger) == c.ledger.cinFast;
    var hist := c.history.value;
    assert hist + [] == [] + hist == hist;
  }

  lemma SetSlowKeeps(h: Http, c: Conn)
    requires Inv(h, c) && c.alive
    ensures SetSlowMode(h, c).Done? && Inv(h, SetSlowMode(h, c).conn)
  {
    if c.flags.fastMode {
      if c.parser.None? {
        SetSlowFresh(h, c);
      } else {
        SetSlowRunning(h, c);
      }
    }
  }

  // ---------------------------------------------------------------- transition

  lemma EndTransitionKeeps(h: Http, c: Conn)
    requires Inv(h, c) && c.alive && c.flags.inTransition
    ensures Inv(h, EndTransition(c))
  {
    var r := EndTransition(c);
    FreeServerKeepsFast(c);
    SameResponses(c, r);
    assert ParsedPart(r.ledger) == ParsedPart(c.ledger);
  }

  lemma TransitionReadableKeeps(h: Http, c: Conn, data: Bytes, eof: bool)
    requires Inv(h, c) && c.alive && c.flags.inTransition
    ensures TransitionReadable(c, data, eof).Done?
    ensures Inv(h, TransitionReadable(c, data, eof).conn)
  {
    var r := TransitionReadable(c, data, eof).conn;
    if eof {
      EndTransitionKeeps(h, c);
      HoleAtEnd(c, data);
      SameRequests(h, EndTransition(c), r);
    } else {
      StoreDelivers(c, r, data);
      SameRequests(h, c, r);
    }
  }

  /** Bytes that skip delivery at the end of everything delivered. */
  lemma HoleAtEnd(c: Conn, data: Bytes)
    requires Shape(c) && ResponseInv(c) && c.alive && c.flags.inTransition
    ensures Shape(TransitionReadable(c, data, true).conn)
    ensures ResponseInv(TransitionReadable(c, data, true).conn)
  {
    var r := TransitionReadable(c, data, true).conn;
    var d := Delivered(c);
    assert Delivered(r) == d;
    NoHole(c.ledger.sin, d);
    if data != [] {
      HoleLast(d, data);
    }
  }

  lemma NoHole(whole: Bytes, part: Bytes)
    requires WithHole(whole, part, 0, [])
    ensures whole == part
  {
  }

  lemma HoleLast(part: Bytes, hole: Bytes)
    ensures WithHole(part + hole, part, |part|, hole)
  {
    assert part[..|part|] == part;
    assert part + hole + [] == part + hole;
  }

  /** Server bytes join the response buffer. */
  lemma StoreDelivers(c: Conn, r: Conn, data: Bytes)
    requires Shape(c) && ResponseInv(c) && c.alive && !c.flags.fastMode
    requires r.alive ==>
      && !r.flags.fastMode && (r.flags.inTransition ==> c.flags.inTransition)
      && r.responseBuf == Some(c.responseBuf.value.Store(data))
      && r.ledger.sin == c.ledger.sin + data && r.ledger.cout == c.ledger.cout
      && r.ledger.hole == c.ledger.hole && r.ledger.holeAt == c.ledger.holeAt
    ensures ResponseInv(r)
  {
    if r.alive {
      var q := c.responseBuf.value;
      DeliveredSlow(c);
      DeliveredSlow(r);
      TailAcross(q.content, data, q.readerPos);
      Regroup(c.ledger.cout, q.Unread(), data);
      HoleGrows(c.ledger.sin, Delivered(c), c.ledger.holeAt, c.ledger.hole, data);
    }
  }

  lemma DeliveredSlow(c: Conn)
    requires !c.flags.fastMode && c.responseBuf.Some? && c.responseBuf.value.readerPos <= |c.responseBuf.value.content|
    ensures Delivered(c) == c.ledger.cout + c.responseBuf.value.Unread()
  {
  }

  lemma TransitionWritableKeeps(h: Http, c: Conn, written: nat)
    requires Inv(h, c) && c.alive && c.flags.inTransition && c.serverQueue.Some?
    ensures TransitionWritable(c, written).Done?
    ensures Inv(h, TransitionWritable(c, written).conn)
  {
    var r := TransitionWritable(c, written).conn;
    TransitionWritableFast(c, written);
    SameResponses(c, r);
    TransitionWritableSwitch(h, c, r);
  }

  lemma TransitionWritableFast(c: Conn, written: nat)
    requires Shape(c) && FastInv(c) && c.alive && c.flags.inTransition && c.serverQueue.Some?
    ensures TransitionWritable(c, written).Done?
    ensures Shape(TransitionWritable(c, written).conn) && FastInv(TransitionWritable(c, written).conn)
  {
    var queue := c.serverQueue.value;
    QueueDrains(c.ledger.soutFast, queue, Min(written, |queue|));
  }

  /** A transition goes on; only its queue moves. */
  lemma TransitionWritableSwitch(h: Http, c: Conn, r: Conn)
    requires Shape(c) && Shape(r) && c.alive && c.flags.inTransition
    requires r == c.(serverQueue := r.serverQueue, flags := c.flags.(serverWrite := r.flags.serverWrite),
                     ledger := c.ledger.(soutFast := r.ledger.soutFast))
    requires SlowInv(c) && HistoryInv(h, c) && SwitchInv(h, c)
    ensures SlowInv(r) && HistoryInv(h, r) && SwitchInv(h, r)
  {
    assert ParsedPart(r.ledger) == ParsedPart(c.ledger);
    assert FirstSlowRequest(h, r.ledger) == FirstSlowRequest(h, c.ledger);
    assert Forwarding(r) == Forwarding(c);
  }

  // ---------------------------------------------------------------- slow mode

  ghost predicate CanReceive(c: Conn) {
    c.alive && !c.flags.fastMode && c.flags.clientRead
  }

  lemma SlowReceiveShape(h: Http, c: Conn, data: Bytes, eof: bool, connected: bool)
    requires Shape(c) && CanReceive(c)
    ensures SlowReceive(h, c, data, eof, connected).Done?
    ensures Shape(SlowReceive(h, c, data, eof, connected).conn)
  {
  }

  lemma SlowReceiveLedger(h: Http, c: Conn, data: Bytes, eof: bool, connected: bool)
    requires Shape(c) && SlowInv(c) && CanReceive(c)
    requires SlowReceive(h, c, data, eof, connected).Done?
    requires Shape(SlowReceive(h, c, data, eof, connected).conn)
    ensures SlowInv(SlowReceive(h, c, data, eof, connected).conn)
  {
    var r := SlowReceive(h, c, data, eof, connected).conn;
    if r.alive && r.parser.None? && !r.ledger.swapSkipped {
      HeadOf(c.ledger.soutSlow, Owed(c), c.ledger.retrieved, c.ledger.cinSlow, data);
    } else if r.alive && !r.ledger.swapSkipped {
      var first := Scan(h, c.parser.value, data).first;
      var l, f := c.ledger, c.requestBuf.value;
      AppendBoth(l.soutSlow, f.content, l.retrieved, l.cinSlow, data);
      if first.Some? {
        StoredRequest(f, data, first.value);
        assert r.requestBuf.value.Unread() == f.Write(data[..first.value]).content;
        assert Owed(r) == f.content + data;
      } else {
        WriteAtEnd(f, data);
      }
    }
  }

  /** A chunk cut at a message end: the head completes the request buffer, the rest waits. */
  lemma StoredRequest(f: File, data: Bytes, k: nat)
    requires f.Valid() && f.AtEnd() && 1 <= k <= |data|
    ensures f.Write(data[..k]).content == f.content + data[..k] != []
    ensures EMPTY_FILE.Write(data[k..]) == File(data[k..], |data[k..]|)
    ensures f.content + data[..k] + data[k..] == f.content + data
  {
    WriteAtEnd(f, data[..k]);
    WriteEmpty(data[k..]);
    JoinCut(f.content, data, k);
    assert |f.content + data[..k]| > 0;
  }

  lemma WriteEmpty(data: Bytes)
    ensures EMPTY_FILE.Write(data) == File(data, |data|)
  {
    WriteAtEnd(EMPTY_FILE, data);
    assert [] + data == data;
  }

  lemma JoinCut(a: Bytes, b: Bytes, k: nat)
    requires k <= |b|
    ensures a + b[..k] + b[k..] == a + b
  {
    Split(b, k);
    Regroup(a, b[..k], b[k..]);
  }

  /** Parsing on from a stretch without message ends. */
  lemma ParseOn(h: Http, s: nat, a: Bytes, b: Bytes)
    requires Scan(h, s, a).Parsed? && Scan(h, s, a).first.None?
    requires Scan(h, Scan(h, s, a).state, b).Parsed?
    ensures var p := Scan(h, Scan(h, s, a).state, b);
            var q := Scan(h, s, a + b);
            && q.Parsed? && q.state == p.state
            && q.first == (if p.first.Some? then Some(|a| + p.first.value) else None)
            && FirstEnd(h, s, a + b) == q.first
  {
    ScanConcat(h, s, a, b);
    FirstEndOfScan(h, s, a + b);
  }

  /** What receiving `data` leaves of the ledger and the mode. */
  ghost predicate Received(c: Conn, r: Conn, data: Bytes) {
    && r.alive && !r.flags.fastMode && !r.flags.inTransition
    && r.ledger == c.ledger.(cinSlow := c.ledger.cinSlow + data, served := r.ledger.served)
    && (if r.server then r.ledger.served == c.ledger.served + 1 else r.ledger.served == c.ledger.served)
    && (r.flags.serverWrite ==> r.server)
  }

  ghost predicate ReceivedBytes(h: Http, c: Conn, r: Conn, data: Bytes)
    requires CanReceive(c) && c.parser.Some? && c.requestBuf.Some? && c.requestBuf.value.Valid()
  {
    match Scan(h, c.parser.value, data)
    case Malformed => !r.server && r.parser.None?
    case Parsed(state, first, _) =>
      if first.None? then
        !r.server && r.parser == Some(state) && r.requestBuf == Some(c.requestBuf.value.Write(data))
      else
        r.server && r.parser.Some? && r.flags.serverWrite
        && r.requestBuf == Some(c.requestBuf.value.Write(data[..first.value]).(pos := 0))
  }

  /** Bytes that complete no message leave the connection waiting for its first slow request. */
  lemma AwaitMore(h: Http, c: Conn, r: Conn, data: Bytes)
    requires Shape(c) && CanReceive(c) && AwaitingFirst(h, c) && Shape(r) && Received(c, r, data)
    requires var p := Scan(h, c.parser.value, data);
             p.Parsed? && p.first.None? && r.parser == Some(p.state)
    requires r.requestBuf == Some(c.requestBuf.value.Write(data))
    ensures AwaitingFirst(h, r)
  {
    var l := c.ledger;
    WriteAtEnd(c.requestBuf.value, data);
    assert ParsedPart(r.ledger) == ParsedPart(l);
    ParseOn(h, StateAfter(h, ParsedPart(l)), l.cinSlow, data);
    Regroup(l.retrieved, l.cinSlow, data);
  }

  lemma Regroup(a: Bytes, b: Bytes, c: Bytes)
    ensures a + b + c == a + (b + c)
  {
  }

  /** The chunk that completes the first slow request. */
  lemma FirstCompletes(h: Http, c: Conn, data: Bytes, l': Ledger)
    requires Shape(c) && CanReceive(c) && AwaitingFirst(h, c)
    requires c.ledger.retrieved == Incomplete(h, ParsedPart(c.ledger))
    requires var p := Scan(h, c.parser.value, data); p.Parsed? && p.first.Some?
    requires l'.cinSlow == c.ledger.cinSlow + data
    requires l'.cinFast == c.ledger.cinFast && l'.parseFrom == c.ledger.parseFrom
    ensures FirstEnd(h, StateAfter(h, ParsedPart(l')), l'.cinSlow).Some?
    ensures c.requestBuf.value.Write(data[..Scan(h, c.parser.value, data).first.value]).content
            == FirstSlowRequest(h, l')
  {
    var l, k := c.ledger, Scan(h, c.parser.value, data).first.value;
    ParseOn(h, StateAfter(h, ParsedPart(l)), l.cinSlow, data);
    WriteAtEnd(c.requestBuf.value, data[..k]);
    TakeJoined(l.retrieved, l.cinSlow, data, k);
  }

  /** More client bytes do not change what the first slow request was. */
  lemma FirstRequestStable(h: Http, l: Ledger, l': Ledger, data: Bytes)
    requires FirstEnd(h, StateAfter(h, ParsedPart(l)), l.cinSlow).Some?
    requires l'.cinSlow == l.cinSlow + data && l'.cinFast == l.cinFast && l'.parseFrom == l.parseFrom
    ensures FirstEnd(h, StateAfter(h, ParsedPart(l')), l'.cinSlow).Some?
    ensures FirstSlowRequest(h, l') == FirstSlowRequest(h, l)
  {
    var s := StateAfter(h, ParsedPart(l));
    FirstEndStable(h, s, l.cinSlow, data);
    var k := FirstEnd(h, s, l.cinSlow).value;
    assert (l.cinSlow + data)[..k] == l.cinSlow[..k];
  }

  lemma SlowReceiveAfter(h: Http, c: Conn, data: Bytes, eof: bool, connected: bool)
    requires Shape(c) && CanReceive(c) && c.parser.Some?
    ensures var r := SlowReceive(h, c, data, eof, connected);
            r.Done? && (r.conn.alive ==> Received(c, r.conn, data) && ReceivedBytes(h, c, r.conn, data))
  {
  }

  lemma SlowReceiveSwitch(h: Http, c: Conn, data: Bytes, eof: bool, connected: bool)
    requires Shape(c) && SwitchInv(h, c) && CanReceive(c)
    requires SlowReceive(h, c, data, eof, connected).Done?
    requires Shape(SlowReceive(h, c, data, eof, connected).conn)
    ensures SwitchInv(h, SlowReceive(h, c, data, eof, connected).conn)
  {
    var r := SlowReceive(h, c, data, eof, connected).conn;
    SlowReceiveAfter(h, c, data, eof, connected);
    if r.alive {
      ReceivedSwitch(h, c, r, data);
    }
  }

  lemma ReceivedSwitch(h: Http, c: Conn, r: Conn, data: Bytes)
    requires Shape(c) && SwitchInv(h, c) && CanReceive(c) && Shape(r)
    requires Received(c, r, data) && ReceivedBytes(h, c, r, data)
    ensures SwitchInv(h, r)
  {
    var p := Scan(h, c.parser.value, data);
    assert ParsedPart(r.ledger) == ParsedPart(c.ledger);
    if c.ledger.served > 0 {
      FirstRequestStable(h, c.ledger, r.ledger, data);
      LaterReceived(h, c, r, data);
    } else if p.Malformed? {
      assert r.ledger.served == 0;
    } else if p.first.None? {
      AwaitMore(h, c, r, data);
    } else {
      FirstCompletes(h, c, data, r.ledger);
      assert FirstServed(h, r);
    }
  }

  /** A connection that was served before goes on receiving. */
  lemma LaterReceived(h: Http, c: Conn, r: Conn, data: Bytes)
    requires Shape(c) && CanReceive(c) && FirstServed(h, c)
    requires Shape(r) && r.alive && !r.flags.fastMode && r.ledger.soutSlow == c.ledger.soutSlow
    requires r.ledger.swapSkipped == c.ledger.swapSkipped
    requires FirstSlowRequest(h, r.ledger) == FirstSlowRequest(h, c.ledger)
    requires FirstEnd(h, StateAfter(h, ParsedPart(r.ledger)), r.ledger.cinSlow).Some?
    requires c.ledger.served > 0 && c.parser.Some?
    requires if r.server then r.ledger.served == c.ledger.served + 1 else r.ledger.served == c.ledger.served
    requires !r.server ==> !r.flags.serverWrite
    ensures FirstServed(h, r)
  {
  }

  lemma SlowReceiveKeeps(h: Http, c: Conn, data: Bytes, eof: bool, connected: bool)
    requires Inv(h, c) && CanReceive(c)
    ensures SlowReceive(h, c, data, eof, connected).Done?
    ensures Inv(h, SlowReceive(h, c, data, eof, connected).conn)
  {
    SlowReceiveShape(h, c, data, eof, connected);
    SlowReceiveLedger(h, c, data, eof, connected);
    SlowReceiveSwitch(h, c, data, eof, connected);
    var r := SlowReceive(h, c, data, eof, connected).conn;
    if r.alive {
      SameResponses(c, r);
    }
  }

  ghost predicate CanRespond(c: Conn) {
    c.alive && !c.flags.fastMode && !c.flags.inTransition && c.server
  }

  lemma SlowResponseShape(h: Http, c: Conn, data: Bytes, eof: bool)
    requires Shape(c) && CanRespond(c)
    ensures SlowResponse(h, c, data, eof).Done?
    ensures Shape(SlowResponse(h, c, data, eof).conn)
  {
  }

  lemma SlowResponseDelivers(h: Http, c: Conn, data: Bytes, eof: bool)
    requires Shape(c) && ResponseInv(c) && FastInv(c) && CanRespond(c)
    requires SlowResponse(h, c, data, eof).Done?
    ensures ResponseInv(SlowResponse(h, c, data, eof).conn) && FastInv(SlowResponse(h, c, data, eof).conn)
  {
    StoreDelivers(c, SlowResponse(h, c, data, eof).conn, data);
    assert c.ledger.unsent + [] == c.ledger.unsent;
  }

  /** What a response leaves of the request side, by how it went on or ended. */
  ghost predicate AfterResponse(c: Conn, r: Conn) {
    && r.alive && !r.flags.fastMode && !r.flags.inTransition
    && r.requestBuf == c.requestBuf && r.requestTmpBuf == c.requestTmpBuf
    && r.ledger == c.ledger.(sin := r.ledger.sin, unsent := r.ledger.unsent, swapSkipped := r.ledger.swapSkipped)
    && (if r.server then r.parser.Some? && r.flags.serverWrite == c.flags.serverWrite else !r.flags.serverWrite)
    && (r.ledger.swapSkipped <==> c.ledger.swapSkipped || (r.parser.Some? && !r.server && c.flags.serverWrite))
  }

  lemma SlowResponseAfter(h: Http, c: Conn, data: Bytes, eof: bool)
    requires Shape(c) && CanRespond(c)
    ensures SlowResponse(h, c, data, eof).Done?
    ensures SlowResponse(h, c, data, eof).conn.alive ==> AfterResponse(c, SlowResponse(h, c, data, eof).conn)
  {
  }

  lemma AfterResponseLedger(c: Conn, r: Conn)
    requires Shape(c) && Shape(r) && SlowInv(c) && CanRespond(c) && AfterResponse(c, r)
    ensures SlowInv(r)
  {
    if !r.ledger.swapSkipped {
      if r.parser.None? {
        HeadOf(c.ledger.soutSlow, Owed(c), c.ledger.retrieved, c.ledger.cinSlow, []);
      } else {
        assert Forwarding(r) == Forwarding(c);
        assert Owed(r) == Owed(c);
      }
    }
  }

  lemma AfterResponseSwitch(h: Http, c: Conn, r: Conn)
    requires Shape(c) && Shape(r) && SwitchInv(h, c) && CanRespond(c) && AfterResponse(c, r)
    ensures SwitchInv(h, r)
  {
    assert ParsedPart(r.ledger) == ParsedPart(c.ledger);
    assert FirstSlowRequest(h, r.ledger) == FirstSlowRequest(h, c.ledger);
    assert FirstServed(h, c);
    assert FirstServed(h, r);
  }

  lemma SlowResponseRequests(h: Http, c: Conn, data: Bytes, eof: bool)
    requires Shape(c) && SlowInv(c) && SwitchInv(h, c) && CanRespond(c)
    requires SlowResponse(h, c, data, eof).Done? && Shape(SlowResponse(h, c, data, eof).conn)
    ensures SlowInv(SlowResponse(h, c, data, eof).conn) && SwitchInv(h, SlowResponse(h, c, data, eof).conn)
  {
    var r := SlowResponse(h, c, data, eof).conn;
    SlowResponseAfter(h, c, data, eof);
    if r.alive {
      AfterResponseLedger(c, r);
      AfterResponseSwitch(h, c, r);
    }
  }

  lemma SlowResponseKeeps(h: Http, c: Conn, data: Bytes, eof: bool)
    requires Inv(h, c) && CanRespond(c)
    ensures SlowResponse(h, c, data, eof).Done?
    ensures Inv(h, SlowResponse(h, c, data, eof).conn)
  {
    SlowResponseShape(h, c, data, eof);
    SlowResponseDelivers(h, c, data, eof);
    SlowResponseRequests(h, c, data, eof);
  }

  lemma SlowSendShape(c: Conn, written: nat)
    requires Shape(c) && c.alive && Forwarding(c)
    ensures SlowSend(c, written).Done? && Shape(SlowSend(c, written).conn)
  {
  }

  lemma SlowSendLedger(c: Conn, written: nat)
    requires Shape(c) && c.alive && Forwarding(c) && RequestLedger(c)
    requires SlowSend(c, written).Done? && Shape(SlowSend(c, written).conn)
    ensures RequestLedger(SlowSend(c, written).conn)
  {
    var r := SlowSend(c, written).conn;
    var f, t := c.requestBuf.value, c.requestTmpBuf.value.content;
    if f.Unread() != [] {
      var n := Min(written, |f.Unread()|);
      DropMore(f.content, f.pos, n);
      HeadMoves(c.ledger.soutSlow, f.Unread(), n, t);
      assert Owed(r) == f.Unread()[n..] + t;
    } else {
      assert Owed(c) == t == Owed(r);
    }
  }

  lemma SlowSendSwitch(h: Http, c: Conn, written: nat)
    requires Shape(c) && SwitchInv(h, c) && c.alive && Forwarding(c)
    requires SlowSend(c, written).Done? && Shape(SlowSend(c, written).conn)
    ensures SwitchInv(h, SlowSend(c, written).conn)
  {
    var r := SlowSend(c, written).conn;
    var f := c.requestBuf.value;
    var n := Min(written, |f.Unread()|);
    assert ParsedPart(r.ledger) == ParsedPart(c.ledger);
    if f.Unread() != [] {
      DropMore(f.content, f.pos, n);
    } else {
      assert f.content[..f.pos] == f.content;
    }
  }

  lemma SlowSendKeeps(h: Http, c: Conn, written: nat)
    requires Inv(h, c) && c.alive && Forwarding(c)
    ensures SlowSend(c, written).Done?
    ensures Inv(h, SlowSend(c, written).conn)
  {
    SlowSendShape(c, written);
    if c.parser.Some? && !c.ledger.swapSkipped {
      SlowSendLedger(c, written);
    }
    SlowSendSwitch(h, c, written);
    SameResponses(c, SlowSend(c, written).conn);
  }

  lemma SlowReplyDelivers(c: Conn, written: nat)
    requires Shape(c) && c.alive && !c.flags.fastMode
    ensures SlowReply(c, written).Done?
    ensures SlowReply(c, written).conn.alive ==> Delivered(SlowReply(c, written).conn) == Delivered(c)
  {
    var q := c.responseBuf.value;
    var r := SlowReply(c, written).conn;
    DeliveredSlow(c);
    if r.alive {
      DeliveredSlow(r);
      if q.readerPos < |q.content| {
        ReaderMoves(c.ledger.cout, q.content, q.readerPos, Min(written, |q.Unread()|));
      }
    }
  }

  lemma ReaderMoves(out: Bytes, content: Bytes, pos: nat, n: nat)
    requires pos + n <= |content|
    ensures out + content[pos..][..n] + content[pos + n..] == out + content[pos..]
  {
    DropMore(content, pos, n);
    JoinCut(out, content[pos..], n);
  }

  lemma SlowReplyKeeps(h: Http, c: Conn, written: nat)
    requires Inv(h, c) && c.alive && !c.flags.fastMode && c.flags.clientWrite
    ensures SlowReply(c, written).Done?
    ensures Inv(h, SlowReply(c, written).conn)
  {
    SlowReplyDelivers(c, written);
    var r := SlowReply(c, written).conn;
    if r.alive {
      SlowReplyAside(c, written);
      assert ResponseInv(r);
      SameRequests(h, c, r);
    }
  }

  lemma SlowReplyAside(c: Conn, written: nat)
    requires Shape(c) && c.alive && !c.flags.fastMode && c.flags.clientWrite
    ensures SlowReply(c, written).Done?
    ensures var r := SlowReply(c, written).conn;
            r.alive ==> Shape(r) && SameRequestSide(c, r) && r.ledger == c.ledger.(cout := r.ledger.cout)
  {
    var q := c.responseBuf.value;
    if q.readerPos < |q.content| {
      assert SameRequestSide(c, SlowReply(c, written).conn);
    } else if c.parser.Some? {
      assert SameRequestSide(c, SlowReply(c, written).conn);
    }
  }

  // ---------------------------------------------------------------- every step

  /** No invariant speaks of the counters. */
  lemma CountersAside(h: Http, c: Conn)
    requires Inv(h, c)
    ensures Inv(h, c.(flags := c.flags.ResetCounters()))
  {
    if c.alive {
      SameResponses(c, c.(flags := c.flags.ResetCounters()));
    }
  }

  lemma TickKeeps(h: Http, c: Conn)
    requires Inv(h, c) && c.alive
    ensures OnTick(h, c).Done? && Inv(h, OnTick(h, c).conn)
  {
    match c.flags.Verdict()
    case Drop =>
      assert OnTick(h, c) == Done(Delete(c));
    case Demote =>
      SetSlowKeeps(h, c);
      var r := SetSlowMode(h, c).conn;
      CountersAside(h, r);
      assert OnTick(h, c) == Done(r.(flags := r.flags.ResetCounters()));
    case Spare =>
      CountersAside(h, c);
      assert OnTick(h, c) == Done(c.(flags := c.flags.ResetCounters()));
  }

  /** A transition's server is writable and its queue is gone. */
  predicate HollowWrite(c: Conn, e: Event) {
    e.ServerWritable? && !c.flags.fastMode && c.flags.inTransition && c.serverQueue.None?
  }

  lemma ClientReadableKeeps(h: Http, c: Conn, data: Bytes, eof: bool, connected: bool, written: nat)
    requires Inv(h, c) && Enabled(c, ClientReadable(data, eof, connected, written))
    ensures OnClientReadable(h, c, data, eof, connected, written).Done?
    ensures Inv(h, OnClientReadable(h, c, data, eof, connected, written).conn)
  {
    if !c.flags.fastMode {
      SlowReceiveKeeps(h, c, data, eof, connected);
    } else if c.parser.Some? {
      ForwardRequestKeeps(h, c, data, eof, written);
    } else if connected {
      ConnectKeeps(h, c);
      ForwardRequestKeeps(h, Connect(h, c), data, eof, written);
    } else {
      DeleteKeeps(h, c);
    }
  }

  lemma DeleteKeeps(h: Http, c: Conn)
    ensures Inv(h, Delete(c))
  {
  }

  lemma ClientWritableKeeps(h: Http, c: Conn, written: nat, broken: bool)
    requires Inv(h, c) && Enabled(c, ClientWritable(written, broken))
    ensures OnClientWritable(c, written, broken).Done?
    ensures Inv(h, OnClientWritable(c, written, broken).conn)
  {
    if c.flags.fastMode {
      FastClientWritableKeeps(h, c, written, broken);
    } else {
      SlowReplyKeeps(h, c, written);
    }
  }

  lemma ServerReadableKeeps(h: Http, c: Conn, data: Bytes, eof: bool, written: nat)
    requires Inv(h, c) && Enabled(c, ServerReadable(data, eof, written))
    ensures OnServerReadable(h, c, data, eof, written).Done?
    ensures Inv(h, OnServerReadable(h, c, data, eof, written).conn)
  {
    if c.flags.fastMode {
      ForwardResponseKeeps(h, c, data, eof, written);
    } else if c.flags.inTransition {
      TransitionReadableKeeps(h, c, data, eof);
    } else {
      SlowResponseKeeps(h, c, data, eof);
    }
  }

  lemma ServerWritableKeeps(h: Http, c: Conn, written: nat)
    requires Inv(h, c) && Enabled(c, ServerWritable(written))
    ensures OnServerWritable(c, written).Crash? <==> HollowWrite(c, ServerWritable(written))
    ensures OnServerWritable(c, written).Done? ==> Inv(h, OnServerWritable(c, written).conn)
  {
    if c.flags.fastMode {
      FastServerWritableKeeps(h, c, written);
    } else if !c.flags.inTransition {
      SlowSendKeeps(h, c, written);
    } else if c.serverQueue.Some? {
      TransitionWritableKeeps(h, c, written);
    }
  }

  /** Handler safety and preservation at once: but for a hollow write, an armed event's handler finds
      every object it uses, trips no assertion, and leaves the invariant standing. */
  lemma StepKeeps(h: Http, c: Conn, e: Event)
    requires Inv(h, c) && Enabled(c, e)
    ensures Step(h, c, e).Crash? <==> HollowWrite(c, e)
    ensures Step(h, c, e).Done? ==> Inv(h, Step(h, c, e).conn)
  {
    match e
    case ClientReadable(data, eof, connected, written) =>
      ClientReadableKeeps(h, c, data, eof, connected, written);
    case ClientWritable(written, broken) =>
      ClientWritableKeeps(h, c, written, broken);
    case ServerReadable(data, eof, written) =>
      ServerReadableKeeps(h, c, data, eof, written);
    case ServerTimeout =>
      EndTransitionKeeps(h, c);
    case ServerWritable(written) =>
      ServerWritableKeeps(h, c, written);
    case SetSlow =>
      SetSlowKeeps(h, c);
    case Tick =>
      TickKeeps(h, c);
  }

  lemma NewConnInv(h: Http)
    ensures Inv(h, NEW_CONN)
  {
    assert Delivered(NEW_CONN) == [];
  }

  /** Every state that a run reaches satisfies the invariant. */
  lemma {:induction false} RunKeeps(h: Http, events: seq<Event>)
    requires Feasible(h, events) && Run(h, events).Done?
    ensures Inv(h, Run(h, events).conn)
  {
    if |events| == 0 {
      NewConnInv(h);
    } else {
      RunKeeps(h, events[..|events| - 1]);
      StepKeeps(h, Run(h, events[..|events| - 1]).conn, events[|events| - 1]);
    }
  }

  ghost predicate Leads(h: Http, events: seq<Event>, c: Conn) {
    Feasible(h, events) && Run(h, events) == Done(c)
  }

  /** The states some feasible run leads to. */
  ghost predicate Reachable(h: Http, c: Conn) {
    exists events :: Leads(h, events, c)
  }

  lemma ReachableInv(h: Http, c: Conn)
    requires Reachable(h, c)
    ensures Inv(h, c)
  {
    var events :| Leads(h, events, c);
    RunKeeps(h, events);
  }

  lemma ReachableStart(h: Http)
    ensures Reachable(h, NEW_CONN)
  {
    assert Leads(h, [], NEW_CONN);
  }

  lemma ReachableStep(h: Http, c: Conn, e: Event, r: Conn)
    requires Reachable(h, c) && Enabled(c, e) && Step(h, c, e) == Done(r)
    ensures Reachable(h, r)
  {
    var events :| Leads(h, events, c);
    LeadsOn(h, events, c, e, r);
  }

  lemma LeadsOn(h: Http, events: seq<Event>, c: Conn, e: Event, r: Conn)
    requires Leads(h, events, c) && Enabled(c, e) && Step(h, c, e) == Done(r)
    ensures Leads(h, events + [e], r)
  {
    assert (events + [e])[..|events|] == events;
  }
}
