/** What holds in every run of a connection. */
module Theorems {
  import opened Base
  import opened Files
  import opened Parsing
  import opened Control
  import opened Machine
  import opened Invariants
  import opened Preservation
  import opened Frames

  // ---------------------------------------------------------------- backpressure, one request in flight

  /** While a fast-mode server lives, exactly one of client-read and server-write and exactly one of
      server-read and client-write is armed. */
  lemma BackpressurePairing(h: Http, c: Conn)
    requires Reachable(h, c) && c.alive && c.flags.fastMode && c.server
    ensures c.flags.clientRead != c.flags.serverWrite
    ensures c.flags.serverRead != c.flags.clientWrite
  {
    ReachableInv(h, c);
  }

  /** Outside fast mode a live server means the client is not read, so a request is never received
      while another is with a server. */
  lemma OneRequestInFlight(h: Http, c: Conn)
    requires Reachable(h, c) && c.alive && !c.flags.fastMode && c.server
    ensures !c.flags.clientRead
  {
    ReachableInv(h, c);
  }

  // ---------------------------------------------------------------- history

  /** In fast mode the history is exactly the stream's suffix after its last message end, however the
      stream was cut into chunks. */
  lemma HistoryExactness(h: Http, c: Conn) returns (k: nat)
    requires Reachable(h, c) && c.alive && c.flags.fastMode && c.server
    ensures k <= |c.ledger.cinFast| && c.history == Some(c.ledger.cinFast[k..])
    ensures k == 0 || EndsAt(h, h.start, c.ledger.cinFast, k)
    ensures forall j: nat :: EndsAt(h, h.start, c.ledger.cinFast, j) ==> j <= k
    ensures Scan(h, h.start, c.ledger.cinFast).Parsed?
    ensures c.parser == Some(Scan(h, h.start, c.ledger.cinFast).state)
  {
    ReachableInv(h, c);
    k := LastEnd(h, c.ledger.cinFast);
  }

  lemma LastEnd(h: Http, stream: Bytes) returns (k: nat)
    requires Scan(h, h.start, stream).Parsed?
    ensures k <= |stream| && Incomplete(h, stream) == stream[k..]
    ensures k == 0 || EndsAt(h, h.start, stream, k)
    ensures k == Scan(h, h.start, stream).last.GetOr(0)
    ensures forall j: nat :: EndsAt(h, h.start, stream, j) ==> j <= k
  {
    k := Scan(h, h.start, stream).last.GetOr(0);
    ScanFindsEnds(h, h.start, stream, k);
    forall j: nat | EndsAt(h, h.start, stream, j)
      ensures j <= k
    {
      ScanFindsEnds(h, h.start, stream, j);
    }
  }

  // ---------------------------------------------------------------- the response ledger

  /** The two steps that drop server bytes: the transition read that also meets end of file, and the
      switch of a reply-only connection. */
  ghost predicate DropsResponse(c: Conn, e: Event) {
    || (e.ServerReadable? && !c.flags.fastMode && c.flags.inTransition && e.eof && e.data != [])
    || (Switches(c, e) && c.parser.None? && c.clientQueue.GetOr([]) != [])
  }

  ghost predicate EverDropped(h: Http, events: seq<Event>) {
    |events| > 0 &&
    (var before := events[..|events| - 1];
     || EverDropped(h, before)
     || (Run(h, before).Done? && DropsResponse(Run(h, before).conn, events[|events| - 1])))
  }

  ghost predicate HoleOpensRightly(c: Conn, e: Event, r: Conn) {
    r.alive ==>
      if DropsResponse(c, e) then c.ledger.hole == [] && r.ledger.hole != []
      else r.ledger.hole == c.ledger.hole
  }

  /** A step opens a hole exactly when it is one of the two, and never opens a second one. */
  lemma HoleOpens(h: Http, c: Conn, e: Event)
    requires Inv(h, c) && Enabled(c, e) && Step(h, c, e).Done?
    ensures HoleOpensRightly(c, e, Step(h, c, e).conn)
  {
    if Plain(c, e) {
      PlainFrame(h, c, e);
    } else if e.ServerReadable? {
      if c.flags.inTransition {
        TransitionFrame(c, e.data, e.eof);
      } else {
        SlowResponseFrame(h, c, e.data, e.eof);
      }
    }
  }

  /** A live connection has a hole in its response stream exactly when one of the two steps happened. */
  lemma {:induction false} HoleIffDropped(h: Http, events: seq<Event>)
    requires Feasible(h, events) && Run(h, events).Done?
    ensures Run(h, events).conn.alive ==> (Run(h, events).conn.ledger.hole != [] <==> EverDropped(h, events))
  {
    RunKeeps(h, events);
    if |events| > 0 {
      var before := events[..|events| - 1];
      HoleIffDropped(h, before);
      RunKeeps(h, before);
      HoleOpens(h, Run(h, before).conn, events[|events| - 1]);
    }
  }

  /** While a connection lives, the bytes read from servers are the bytes written to the client, then
      the client queue, then the unread part of the response buffer, around at most one hole. */
  lemma ResponseLedger(h: Http, c: Conn)
    requires Reachable(h, c) && c.alive
    ensures WithHole(c.ledger.sin, Delivered(c), c.ledger.holeAt, c.ledger.hole)
    ensures c.ledger.sin == Delivered(c) <==> c.ledger.hole == []
    ensures c.flags.fastMode || c.flags.inTransition ==> c.ledger.sin == Delivered(c)
  {
    ReachableInv(h, c);
    var d, k := Delivered(c), c.ledger.holeAt;
    Split(d, k);
    assert d[..k] + [] + d[k..] == d;
    assert |d[..k] + c.ledger.hole + d[k..]| == |d| + |c.ledger.hole|;
  }

  /** A run without the two steps loses, repeats and reorders nothing on its way to the client. */
  lemma ResponsesIntact(h: Http, events: seq<Event>, c: Conn)
    requires Feasible(h, events) && Run(h, events) == Done(c) && c.alive && !EverDropped(h, events)
    ensures c.ledger.sin == Delivered(c)
  {
    HoleIffDropped(h, events);
    assert Leads(h, events, c);
    ResponseLedger(h, c);
  }

  // ---------------------------------------------------------------- the request ledgers

  ghost predicate EverSkipped(h: Http, events: seq<Event>) {
    |events| > 0 &&
    (var before := events[..|events| - 1];
     || EverSkipped(h, before)
     || (Run(h, before).Done? && SkipsSwap(h, Run(h, before).conn, events[|events| - 1])))
  }

  lemma SkipRecorded(h: Http, c: Conn, e: Event)
    requires Inv(h, c) && Enabled(c, e) && Step(h, c, e).Done?
    ensures Step(h, c, e).conn.ledger.swapSkipped <==> c.ledger.swapSkipped || SkipsSwap(h, c, e)
  {
    if Plain(c, e) {
      PlainFrame(h, c, e);
    } else if e.ServerReadable? {
      if c.flags.inTransition {
        TransitionFrame(c, e.data, e.eof);
      } else {
        SlowResponseFrame(h, c, e.data, e.eof);
      }
    }
  }

  lemma {:induction false} SkippedIff(h: Http, events: seq<Event>)
    requires Feasible(h, events) && Run(h, events).Done?
    ensures Run(h, events).conn.ledger.swapSkipped <==> EverSkipped(h, events)
  {
    RunKeeps(h, events);
    if |events| > 0 {
      var before := events[..|events| - 1];
      SkippedIff(h, before);
      RunKeeps(h, before);
      SkipRecorded(h, Run(h, before).conn, events[|events| - 1]);
    }
  }

  /** On runs where every response ends after its request is done forwarding: bytes forwarded to
      slow-mode servers, then the unforwarded request buffer, then the overflow buffer, are the
      retrieved history followed by everything read from the client in slow mode. Once malformed bytes
      have freed the parser, what was forwarded is still a prefix of that. */
  lemma SlowRequestLedger(h: Http, events: seq<Event>, c: Conn)
    requires Feasible(h, events) && Run(h, events) == Done(c) && !EverSkipped(h, events)
    requires c.alive && !c.flags.fastMode
    ensures c.requestBuf.Some? && c.requestBuf.value.Valid() && c.requestTmpBuf.Some?
    ensures c.parser.Some? ==> c.ledger.soutSlow + Owed(c) == c.ledger.retrieved + c.ledger.cinSlow
    ensures c.ledger.soutSlow <= c.ledger.retrieved + c.ledger.cinSlow
  {
    SkippedIff(h, events);
    RunKeeps(h, events);
  }

  /** The condition is exact: of the steps that end a response, those that keep the request ledger are
      the ones that find the server write disarmed. */
  lemma LedgerSurvivesIff(h: Http, c: Conn, e: Event)
    requires Inv(h, c) && Enabled(c, e) && EndsResponse(h, c, e) && !c.ledger.swapSkipped
    ensures Step(h, c, e).Done?
    ensures var r := Step(h, c, e).conn;
            && r.requestBuf.Some? && r.requestBuf.value.Valid() && r.requestTmpBuf.Some?
            && (RequestLedger(r) <==> !c.flags.serverWrite)
  {
    StepKeeps(h, c, e);
  }

  /** `data` over the bytes of `f` from its cursor on, with the cursor at the beginning. */
  function Overwritten(f: File, data: Bytes): File
    requires f.Valid()
  {
    File(f.content[..f.pos] + data + f.content[Min(f.pos + |data|, |f.content|)..], 0)
  }

  /** What goes wrong when the response ends before the step that would notice the request is done: the
      next request is written over the request buffer from the old cursor on, and the server gets the
      whole of it, starting with what was already forwarded. */
  lemma SkippedSwapRepeats(h: Http, c: Conn, e: Event, r: Conn, data: Bytes)
    requires Inv(h, c) && Enabled(c, e) && SkipsSwap(h, c, e) && Step(h, c, e) == Done(r) && r.parser.Some?
    requires var p := Scan(h, r.parser.value, data); p.Parsed? && p.first.Some?
    ensures var next := SlowReceive(h, r, data, false, true);
            var request := data[..Scan(h, r.parser.value, data).first.value];
            next.Done? && next.conn.requestBuf == Some(Overwritten(c.requestBuf.value, request))
  {
    EndedEarly(h, c, e);
    NextRequestStored(h, r, c.requestBuf.value, data);
  }

  lemma EndedEarly(h: Http, c: Conn, e: Event)
    requires Shape(c) && Enabled(c, e) && SkipsSwap(h, c, e)
    ensures Step(h, c, e).Done?
    ensures var r := Step(h, c, e).conn;
            !r.flags.fastMode && !r.server && r.requestBuf == c.requestBuf && r.responseBuf.Some? &&
            r.requestTmpBuf == c.requestTmpBuf
  {
  }

  lemma NextRequestStored(h: Http, r: Conn, f: File, data: Bytes)
    requires r.requestBuf == Some(f) && f.Valid() && r.requestTmpBuf.Some? && r.requestTmpBuf.value.Valid()
    requires r.responseBuf.Some? && r.parser.Some?
    requires var p := Scan(h, r.parser.value, data); p.Parsed? && p.first.Some?
    ensures var k := Scan(h, r.parser.value, data).first.value;
            var q := SlowReceive(h, r, data, false, true);
            q.Done? && q.conn.requestBuf == Some(f.Write(data[..k]).(pos := 0))
  {
  }

  // ---------------------------------------------------------------- switch transparency

  /** Message ends of a continued stream are those of its continuation. */
  lemma EndsAtConcat(h: Http, s: nat, a: Bytes, b: Bytes, k: nat)
    requires Scan(h, s, a).Parsed? && k >= 1
    ensures EndsAt(h, s, a + b, |a| + k) <==> EndsAt(h, Scan(h, s, a).state, b, k)
  {
    if k <= |b| {
      assert (a + b)[..|a| + k - 1] == a + b[..k - 1];
      ScanConcat(h, s, a, b[..k - 1]);
    }
  }

  lemma EndsAtPrefix(h: Http, s: nat, a: Bytes, b: Bytes, k: nat)
    requires k <= |a|
    ensures EndsAt(h, s, a + b, k) <==> EndsAt(h, s, a, k)
  {
    if k >= 1 {
      assert (a + b)[..k - 1] == a[..k - 1];
    }
  }

  /** `from` and `to` cut out the one message of `stream` that is under way at offset `cut`. */
  ghost predicate MessageAround(h: Http, stream: Bytes, cut: nat, from: nat, to: nat) {
    && from <= cut < to <= |stream|
    && (from == 0 || EndsAt(h, h.start, stream, from))
    && EndsAt(h, h.start, stream, to)
    && (forall j: nat :: from < j < to ==> !EndsAt(h, h.start, stream, j))
  }

  lemma FirstRequestIsAMessage(h: Http, part: Bytes, rest: Bytes) returns (from: nat, to: nat)
    requires Scan(h, h.start, part).Parsed?
    requires FirstEnd(h, StateAfter(h, part), rest).Some?
    ensures MessageAround(h, part + rest, |part|, from, to)
    ensures Incomplete(h, part) + rest[..FirstEnd(h, StateAfter(h, part), rest).value] == (part + rest)[from..to]
  {
    var s := StateAfter(h, part);
    var k := FirstEnd(h, s, rest).value;
    from := LastEnd(h, part);
    to := |part| + k;
    FirstEndIsLeast(h, s, rest);
    EndsAtPrefix(h, h.start, part, rest, from);
    EndsAtConcat(h, h.start, part, rest, k);
    forall j: nat | from < j < to
      ensures !EndsAt(h, h.start, part + rest, j)
    {
      NoEndBetween(h, part, rest, from, k, j);
    }
    SliceAcross(part, rest, from, k);
  }

  lemma NoEndBetween(h: Http, part: Bytes, rest: Bytes, from: nat, k: nat, j: nat)
    requires Scan(h, h.start, part).Parsed? && from <= |part| && from < j < |part| + k && k <= |rest|
    requires EndsAt(h, h.start, part, j) ==> j <= from
    requires forall i: nat :: EndsAt(h, StateAfter(h, part), rest, i) ==> k <= i
    ensures !EndsAt(h, h.start, part + rest, j)
  {
    if j <= |part| {
      EndsAtPrefix(h, h.start, part, rest, j);
    } else {
      var i := j - |part|;
      assert StateAfter(h, part) == Scan(h, h.start, part).state;
      assert !EndsAt(h, StateAfter(h, part), rest, i);
      EndsAtConcat(h, h.start, part, rest, i);
      assert |part| + i == j;
    }
  }

  lemma SliceAcross(a: Bytes, b: Bytes, i: nat, k: nat)
    requires i <= |a| && k <= |b|
    ensures (a + b)[i..|a| + k] == a[i..] + b[..k]
  {
  }

  /** What the client sent, from the start of the current parse on. */
  ghost function ClientStream(l: Ledger): Bytes {
    ParsedPart(l) + l.cinSlow
  }

  /** A reply-only connection that has read something is switched: its parse starts again. */
  ghost predicate Restarts(c: Conn, e: Event) {
    Switches(c, e) && c.parser.None? && c.ledger.cinFast != []
  }

  ghost predicate EverRestarted(h: Http, events: seq<Event>) {
    |events| > 0 &&
    (var before := events[..|events| - 1];
     || EverRestarted(h, before)
     || (Run(h, before).Done? && Restarts(Run(h, before).conn, events[|events| - 1])))
  }

  lemma RestartRecorded(h: Http, c: Conn, e: Event)
    requires Inv(h, c) && Enabled(c, e) && Step(h, c, e).Done? && Step(h, c, e).conn.alive
    ensures Step(h, c, e).conn.ledger.parseFrom != 0 <==> c.ledger.parseFrom != 0 || Restarts(c, e)
  {
    if Plain(c, e) {
      PlainFrame(h, c, e);
    } else if e.ServerReadable? {
      if c.flags.inTransition {
        TransitionFrame(c, e.data, e.eof);
      } else {
        SlowResponseFrame(h, c, e.data, e.eof);
      }
    }
  }

  /** The current parse covers the client's whole stream, or nothing that came before a switch that
      restarted it. */
  lemma {:induction false} RestartedIff(h: Http, events: seq<Event>)
    requires Feasible(h, events) && Run(h, events).Done? && Run(h, events).conn.alive
    ensures var l := Run(h, events).conn.ledger;
            && (l.parseFrom != 0 <==> EverRestarted(h, events))
            && ClientStream(l) == if EverRestarted(h, events) then l.cinSlow else l.cinFast + l.cinSlow
  {
    RunKeeps(h, events);
    var c := Run(h, events).conn;
    if |events| > 0 {
      var before := events[..|events| - 1];
      RestartedIff(h, before);
      RunKeeps(h, before);
      RestartRecorded(h, Run(h, before).conn, events[|events| - 1]);
    }
    FastParsesAll(h, c);
    ParseCovers(c.ledger);
  }

  lemma FastParsesAll(h: Http, c: Conn)
    requires Inv(h, c) && c.alive
    ensures c.ledger.parseFrom != 0 ==> c.ledger.parseFrom == |c.ledger.cinFast|
  {
  }

  lemma ParseCovers(l: Ledger)
    requires l.parseFrom != 0 ==> l.parseFrom == |l.cinFast|
    ensures ClientStream(l) == if l.parseFrom != 0 then l.cinSlow else l.cinFast + l.cinSlow
  {
    assert l.parseFrom != 0 ==> ParsedPart(l) == [];
    assert l.parseFrom == 0 ==> ParsedPart(l) == l.cinFast;
    assert [] + l.cinSlow == l.cinSlow;
  }

  /** The switch is transparent: the first request that reaches a slow-mode server is, byte for byte,
      the message that was under way in the client's stream when the switch happened, cut out by one
      uninterrupted parse. The server gets it from its first byte on; when it is done forwarding it
      has all of it, and on runs without a skipped swap it stays at the head of what slow-mode servers
      got. Only the switch of a reply-only connection starts the parse anywhere but at the first byte,
      and then it starts at the first byte after the switch. */
  lemma SwitchTransparency(h: Http, events: seq<Event>, c: Conn) returns (from: nat, to: nat)
    requires Feasible(h, events) && Run(h, events) == Done(c)
    requires c.alive && !c.flags.fastMode && c.ledger.served >= 1
    ensures var restarted := EverRestarted(h, events);
            var stream := if restarted then c.ledger.cinSlow else c.ledger.cinFast + c.ledger.cinSlow;
            var cut := if restarted then 0 else |c.ledger.cinFast|;
            && MessageAround(h, stream, cut, from, to)
            && (c.ledger.served == 1 ==> c.ledger.soutSlow <= stream[from..to])
            && (c.ledger.served == 1 && Forwarding(c) ==>
                  c.requestBuf == Some(File(stream[from..to], |c.ledger.soutSlow|)))
            && (!c.ledger.swapSkipped && !Forwarding(c) && c.parser.Some? ==>
                  stream[from..to] <= c.ledger.soutSlow)
  {
    RunKeeps(h, events);
    RestartedIff(h, events);
    from, to := FirstRequestCut(h, c);
  }

  lemma FirstRequestCut(h: Http, c: Conn) returns (from: nat, to: nat)
    requires Inv(h, c) && c.alive && !c.flags.fastMode && c.ledger.served >= 1
    ensures MessageAround(h, ClientStream(c.ledger), |ParsedPart(c.ledger)|, from, to)
    ensures c.ledger.parseFrom == 0 ==> |ParsedPart(c.ledger)| == |c.ledger.cinFast|
    ensures c.ledger.parseFrom != 0 ==> |ParsedPart(c.ledger)| == 0
    ensures var request := ClientStream(c.ledger)[from..to];
            && (c.ledger.served == 1 ==> c.ledger.soutSlow <= request)
            && (c.ledger.served == 1 && Forwarding(c) ==> c.requestBuf == Some(File(request, |c.ledger.soutSlow|)))
            && (!c.ledger.swapSkipped && !Forwarding(c) && c.parser.Some? ==> request <= c.ledger.soutSlow)
  {
    from, to := FirstRequestIsAMessage(h, ParsedPart(c.ledger), c.ledger.cinSlow);
    assert FirstSlowRequest(h, c.ledger) == ClientStream(c.ledger)[from..to];
  }

  /** The request buffer holds `stream` from its last message end on, with the cursor at the end, and the
      parser stands where one uninterrupted parse of `stream` would. */
  ghost predicate Agree(h: Http, c: Conn, stream: Bytes, from: nat) {
    && from <= |stream|
    && c.requestBuf == Some(File(stream[from..], |stream| - from))
    && Scan(h, h.start, stream).Parsed? && c.parser == Some(Scan(h, h.start, stream).state)
    && (from == 0 || EndsAt(h, h.start, stream, from))
    && (forall j: nat :: EndsAt(h, h.start, stream, j) ==> j <= from)
  }

  /** Before that, the request buffer and the parser agree on the stream so far. */
  lemma TransitionAgreement(h: Http, events: seq<Event>, c: Conn) returns (from: nat)
    requires Feasible(h, events) && Run(h, events) == Done(c)
    requires c.alive && !c.flags.fastMode && c.ledger.served == 0 && c.parser.Some?
    ensures var stream := if EverRestarted(h, events) then c.ledger.cinSlow else c.ledger.cinFast + c.ledger.cinSlow;
            Agree(h, c, stream, from)
  {
    RunKeeps(h, events);
    RestartedIff(h, events);
    from := Waiting(h, c);
  }

  lemma Waiting(h: Http, c: Conn) returns (from: nat)
    requires Inv(h, c) && c.alive && !c.flags.fastMode && c.ledger.served == 0 && c.parser.Some?
    ensures Agree(h, c, ClientStream(c.ledger), from)
  {
    from := WaitingTail(h, ParsedPart(c.ledger), c.ledger.cinSlow);
  }

  lemma WaitingTail(h: Http, part: Bytes, rest: Bytes) returns (from: nat)
    requires Scan(h, h.start, part).Parsed?
    requires Scan(h, StateAfter(h, part), rest).Parsed? && Scan(h, StateAfter(h, part), rest).first.None?
    ensures from <= |part| && Incomplete(h, part) + rest == (part + rest)[from..]
    ensures Scan(h, h.start, part + rest).Parsed?
    ensures Scan(h, h.start, part + rest).state == Scan(h, StateAfter(h, part), rest).state
    ensures from == 0 || EndsAt(h, h.start, part + rest, from)
    ensures forall j: nat :: EndsAt(h, h.start, part + rest, j) ==> j <= from
  {
    HistoryExtends(h, part, rest);
    ScanConcat(h, h.start, part, rest);
    from := LastEnd(h, part + rest);
  }

  // ---------------------------------------------------------------- the monitor

  lemma CountersGrow(h: Http, c: Conn, e: Event)
    requires Inv(h, c) && Enabled(c, e) && !e.Tick? && Step(h, c, e).Done?
    ensures var r := Step(h, c, e).conn;
            && r.flags.readCount >= c.flags.readCount && r.flags.writeCount >= c.flags.writeCount
            && (!c.flags.fastMode ==> SameCounters(c.flags, r.flags))
  {
    if Plain(c, e) {
      PlainFrame(h, c, e);
    } else if e.ServerReadable? {
      if c.flags.inTransition {
        TransitionFrame(c, e.data, e.eof);
      } else {
        SlowResponseFrame(h, c, e.data, e.eof);
      }
    }
  }

  /** First pass: the first monitor tick a connection meets leaves it alive and in its mode, whatever
      its traffic was. */
  lemma FirstTickSpares(h: Http, events: seq<Event>)
    requires Feasible(h, events) && (forall i :: 0 <= i < |events| ==> !events[i].Tick?)
    requires Run(h, events).Done? && Run(h, events).conn.alive
    ensures var c := Run(h, events).conn;
            OnTick(h, c) == Done(c.(flags := c.flags.ResetCounters()))
  {
    CountersStayHigh(h, events);
  }

  lemma {:induction false} CountersStayHigh(h: Http, events: seq<Event>)
    requires Feasible(h, events) && Run(h, events).Done?
    requires forall i :: 0 <= i < |events| ==> !events[i].Tick?
    ensures Run(h, events).conn.flags.readCount >= COUNTER_INIT && Run(h, events).conn.flags.writeCount >= COUNTER_INIT
  {
    RunKeeps(h, events);
    if |events| > 0 {
      var before := events[..|events| - 1];
      CountersStayHigh(h, before);
      RunKeeps(h, before);
      CountersGrow(h, Run(h, before).conn, events[|events| - 1]);
    }
  }

  /** Slow-mode handlers do not count traffic: a connection that is out of fast mode after one tick (the
      event at `i`) does not survive the next one, however fast it transfers in between. */
  lemma SlowModeDroppedByNextTick(h: Http, events: seq<Event>, i: nat)
    requires Feasible(h, events) && i < |events| && events[i].Tick?
    requires forall k :: i < k < |events| ==> !events[k].Tick?
    requires Run(h, events).Done? && Run(h, events[..i + 1]).Done? && !Run(h, events[..i + 1]).conn.flags.fastMode
    ensures Run(h, events).conn.alive ==> OnTick(h, Run(h, events).conn) == Done(Delete(Run(h, events).conn))
  {
    CountersStayZero(h, events, i);
  }

  lemma {:induction false} CountersStayZero(h: Http, events: seq<Event>, i: nat)
    requires Feasible(h, events) && i < |events| && events[i].Tick?
    requires forall k :: i < k < |events| ==> !events[k].Tick?
    requires Run(h, events).Done? && Run(h, events[..i + 1]).Done? && !Run(h, events[..i + 1]).conn.flags.fastMode
    ensures var c := Run(h, events).conn;
            !c.flags.fastMode && (c.alive ==> c.flags.readCount == c.flags.writeCount == 0)
    decreases |events|
  {
    RunKeeps(h, events);
    var before := events[..|events| - 1];
    if |events| == i + 1 {
      assert events[..i + 1] == events;
    } else {
      assert before[..i + 1] == events[..i + 1];
      CountersStayZero(h, before, i);
      RunKeeps(h, before);
      CountersGrow(h, Run(h, before).conn, events[|events| - 1]);
      NoWayBack(h, Run(h, before).conn, events[|events| - 1]);
    }
  }
}
