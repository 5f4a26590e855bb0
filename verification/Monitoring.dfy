/** What the data-rate monitor decides, stated over the bytes that crossed the sockets since its last
    visit (src/ls_proxy.cpp:236-260). */
module Monitoring {
  import opened Base
  import opened Files
  import opened Parsing
  import opened Control
  import opened Machine
  import opened Invariants
  import opened Preservation
  import opened Events
  import opened Progress

  /** Since the monitor's last visit, or since acceptance when it is the `first`: fast-mode bytes from the
      client, bytes to the client, and how many of the latter were written by any other handler than
      that of a fast-mode server read. */
  datatype Interval = Interval(read: int, written: int, uncounted: int, first: bool)

  ghost function Since(h: Http, events: seq<Event>): Interval {
    if |events| == 0 then Interval(0, 0, 0, true)
    else
      var before, e := events[..|events| - 1], events[|events| - 1];
      var i := Since(h, before);
      if Run(h, before).Crash? || Run(h, events).Crash? then i
      else if e.Tick? then Interval(0, 0, 0, false)
      else
        var c, r := Run(h, before).conn, Run(h, events).conn;
        var grown := |r.ledger.cout| - |c.ledger.cout|;
        Interval(i.read + |r.ledger.cinFast| - |c.ledger.cinFast|,
                 i.written + grown,
                 i.uncounted + (if e.ServerReadable? && c.flags.fastMode then 0 else grown),
                 i.first)
  }

  /** The counters a connection starts with. */
  function Credit(i: Interval): int {
    if i.first then 21480 else 0
  }

  ghost predicate Counted(c: Conn, i: Interval) {
    && c.flags.readCount == Credit(i) + i.read
    && c.flags.writeCount == Credit(i) + i.written - i.uncounted
  }

  lemma ForwardRequestCounts(h: Http, c: Conn, data: Bytes, eof: bool, written: nat)
    requires ForwardRequest(h, c, data, eof, written).Done?
    ensures var r := ForwardRequest(h, c, data, eof, written).conn;
            && r.flags.readCount == c.flags.readCount + |data| && r.flags.writeCount == c.flags.writeCount
  {
  }

  lemma ForwardResponseCounts(c: Conn, data: Bytes, eof: bool, written: nat)
    requires ForwardResponse(c, data, eof, written).Done?
    ensures var r := ForwardResponse(c, data, eof, written).conn;
            && r.flags.readCount == c.flags.readCount
            && r.flags.writeCount == c.flags.writeCount + |r.ledger.cout| - |c.ledger.cout|
  {
  }

  /** No other handler counts. */
  lemma OthersDoNotCount(h: Http, c: Conn, e: Event, r: Conn)
    requires Inv(h, c) && Enabled(c, e) && Step(h, c, e) == Done(r) && !e.Tick?
    requires !(c.flags.fastMode && (e.ClientReadable? || e.ServerReadable?))
    ensures r.flags.readCount == c.flags.readCount && r.flags.writeCount == c.flags.writeCount
  {
    if e.ClientReadable? {
      SlowReceiveCounts(h, c, e.data, e.eof, e.connected);
    } else if e.ServerReadable? {
      SlowServerReadCounts(h, c, e.data, e.eof, e.written);
    }
  }

  lemma SlowReceiveCounts(h: Http, c: Conn, data: Bytes, eof: bool, connected: bool)
    requires SlowReceive(h, c, data, eof, connected).Done?
    ensures var r := SlowReceive(h, c, data, eof, connected).conn;
            r.flags.readCount == c.flags.readCount && r.flags.writeCount == c.flags.writeCount
  {
    var r := SlowReceive(h, c, data, eof, connected).conn;
    if r.alive {
      var p := Scan(h, c.parser.value, data);
      assert r.flags == c.flags.AfterSlowReceive(
          false, p.Parsed?, c.responseBuf.value.content != [], p.Parsed? && p.first.Some?, connected);
    }
  }

  lemma SlowServerReadCounts(h: Http, c: Conn, data: Bytes, eof: bool, written: nat)
    requires !c.flags.fastMode && OnServerReadable(h, c, data, eof, written).Done?
    ensures var r := OnServerReadable(h, c, data, eof, written).conn;
            r.flags.readCount == c.flags.readCount && r.flags.writeCount == c.flags.writeCount
  {
  }

  lemma CounterStep(h: Http, c: Conn, e: Event, r: Conn)
    requires Inv(h, c) && Enabled(c, e) && Step(h, c, e) == Done(r) && !e.Tick?
    ensures r.flags.readCount == c.flags.readCount + |r.ledger.cinFast| - |c.ledger.cinFast|
    ensures r.flags.writeCount == c.flags.writeCount
              + if e.ServerReadable? && c.flags.fastMode then |r.ledger.cout| - |c.ledger.cout| else 0
  {
    ReadsStep(h, c, e, r);
    if c.flags.fastMode && e.ServerReadable? {
      ForwardResponseCounts(c, e.data, e.eof, e.written);
    } else if c.flags.fastMode && e.ClientReadable? {
      if c.parser.Some? {
        ForwardRequestCounts(h, c, e.data, e.eof, e.written);
      } else if e.connected {
        ForwardRequestCounts(h, Connect(h, c), e.data, e.eof, e.written);
      }
    } else {
      OthersDoNotCount(h, c, e, r);
    }
  }

  lemma TickResets(h: Http, c: Conn)
    requires SetSlowMode(h, c).Done? && OnTick(h, c).Done? && OnTick(h, c).conn.alive && c.alive
    ensures OnTick(h, c).conn.flags.readCount == OnTick(h, c).conn.flags.writeCount == 0
  {
    TickStep(h, c);
  }

  /** In every live state of a run the counters are what went through since the last visit, but for the
      bytes that drained through a writable client or in slow mode. */
  lemma {:induction false} CountersAre(h: Http, events: seq<Event>, c: Conn)
    requires Feasible(h, events) && Run(h, events) == Done(c) && c.alive
    ensures Counted(c, Since(h, events))
  {
    if |events| > 0 {
      var before, e := events[..|events| - 1], events[|events| - 1];
      var b := Run(h, before).conn;
      RunKeeps(h, before);
      if e.Tick? {
        SetSlowKeeps(h, b);
        TickResets(h, b);
      } else {
        CountersAre(h, before, b);
        CounterStep(h, b, e, c);
      }
    }
  }

  /** The monitor drops a connection exactly if it met it before, and since then less than 1000 bytes came
      from the client and less than 1000 counted bytes went to it. It demotes a fast-mode connection
      that it does not drop exactly if the two together are less than 20480. */
  lemma MonitorIff(h: Http, events: seq<Event>, c: Conn, r: Conn)
    requires Feasible(h, events) && Run(h, events) == Done(c) && c.alive && Step(h, c, Tick) == Done(r)
    ensures var i := Since(h, events);
            var counted := i.written - i.uncounted;
            && (r.alive <==> i.first || i.read >= 1000 || counted >= 1000)
            && (r.alive ==> (r.flags.fastMode <==> c.flags.fastMode && (i.first || i.read + counted >= 20480)))
            && (r.alive ==> r.flags.readCount == r.flags.writeCount == 0)
  {
    RunKeeps(h, events);
    CountersAre(h, events, c);
    NeverNegative(h, events, c);
    TickDecides(h, c, r);
  }

  lemma TickDecides(h: Http, c: Conn, r: Conn)
    requires Inv(h, c) && c.alive && Step(h, c, Tick) == Done(r)
    ensures r.alive <==> c.flags.readCount >= 1000 || c.flags.writeCount >= 1000
    ensures r.alive ==> (r.flags.fastMode <==> c.flags.fastMode && c.flags.readCount + c.flags.writeCount >= 20480)
    ensures r.alive ==> r.flags.readCount == r.flags.writeCount == 0
  {
    SetSlowKeeps(h, c);
    TickEnds(h, c);
    if r.alive {
      TickResets(h, c);
      TickMode(h, c);
    }
  }

  lemma TickMode(h: Http, c: Conn)
    requires SetSlowMode(h, c).Done? && OnTick(h, c).Done? && OnTick(h, c).conn.alive && c.alive
    requires c.flags.fastMode ==> !c.flags.inTransition
    ensures OnTick(h, c).conn.flags.fastMode <==>
            c.flags.fastMode && c.flags.readCount + c.flags.writeCount >= 20480
  {
    TickStep(h, c);
  }

  /** The ledgers only grow. */
  lemma {:induction false} NeverNegative(h: Http, events: seq<Event>, c: Conn)
    requires Feasible(h, events) && Run(h, events) == Done(c) && c.alive
    ensures Since(h, events).read >= 0 && Since(h, events).written >= Since(h, events).uncounted >= 0
  {
    if |events| > 0 {
      var before, e := events[..|events| - 1], events[|events| - 1];
      var b := Run(h, before).conn;
      NeverNegative(h, before, b);
      RunKeeps(h, before);
      ReadsStep(h, b, e, c);
      LeadsHere(h, before, b);
      NextBytesWritten(h, b, e, c);
      CoutGrows(h, b, e, c);
    }
  }

  lemma LeadsHere(h: Http, events: seq<Event>, c: Conn)
    requires Feasible(h, events) && Run(h, events) == Done(c)
    ensures Reachable(h, c)
  {
    assert Leads(h, events, c);
  }

  lemma CoutGrows(h: Http, b: Conn, e: Event, c: Conn)
    requires WritesTaken(h, b, e, c)
    ensures |c.ledger.cout| >= |b.ledger.cout|
  {
  }
}
