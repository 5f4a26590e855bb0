/** What every handler keeps. */
module Invariants {
  import opened Base
  import opened Files
  import opened Parsing
  import opened Control
  import opened Machine

  // ------------------------------------------------------- which objects and events exist when

  /** Accepted, nothing read yet. */
  predicate FreshShape(c: Conn) {
    && c.parser.None? && c.serverQueue.None? && c.history == Some([]) && c.ledger == NEW_LEDGER
    && c.flags.clientRead && !c.flags.clientWrite && !c.flags.serverRead && !c.flags.serverWrite
  }

  /** Forwarding: exactly one of each pair is armed, so neither direction goes deaf. */
  predicate FastShape(c: Conn) {
    && c.parser.Some? && c.clientQueue.Some? && c.serverQueue.Some?
    && |c.clientQueue.value| <= RING_ROOM && |c.serverQueue.value| <= RING_ROOM
    && c.flags.clientRead != c.flags.serverWrite
    && c.flags.serverRead != c.flags.clientWrite
  }

  /** The fast-mode server is gone and its last bytes are on their way. */
  predicate FastReplyShape(c: Conn)
    requires c.clientQueue.Some?
  {
    && c.parser.None? && c.serverQueue.None?
    && c.clientQueue.value != [] && |c.clientQueue.value| <= RING_ROOM
    && !c.flags.clientRead && c.flags.clientWrite && !c.flags.serverRead && !c.flags.serverWrite
  }

  predicate TransitionShape(c: Conn) {
    && c.parser.Some? && c.server && c.clientQueue.None?
    && !c.flags.clientRead && c.flags.serverRead
    && (c.serverQueue.Some? ==> c.flags.serverWrite)
    && (c.serverQueue.Some? ==> 0 < |c.serverQueue.value| <= RING_ROOM)
  }

  /** A slow-mode request is with its server. */
  predicate ServingShape(c: Conn) {
    c.parser.Some? && c.serverQueue.None? && !c.flags.clientRead && c.flags.serverRead
  }

  predicate ReceivingShape(c: Conn) {
    c.serverQueue.None? && c.flags.clientRead && !c.flags.serverRead && !c.flags.serverWrite
  }

  predicate SlowReplyShape(c: Conn) {
    c.serverQueue.None? && !c.flags.clientRead && c.flags.clientWrite && !c.flags.serverRead && !c.flags.serverWrite
  }

  predicate Shape(c: Conn) {
    c.alive ==>
      if c.flags.fastMode then
        && !c.flags.inTransition && c.history.Some?
        && c.requestBuf.None? && c.requestTmpBuf.None? && c.responseBuf.None?
        && (if c.server then FastShape(c)
            else if c.clientQueue.Some? then FastReplyShape(c)
            else FreshShape(c))
      else
        && c.history.None?
        && c.requestBuf.Some? && c.requestBuf.value.Valid()
        && c.requestTmpBuf.Some? && c.requestTmpBuf.value.Valid()
        && c.responseBuf.Some? && c.responseBuf.value.readerPos <= |c.responseBuf.value.content|
        && (if c.flags.inTransition then TransitionShape(c)
            else if c.server then ServingShape(c)
            else if c.parser.Some? then ReceivingShape(c)
            else SlowReplyShape(c))
  }

  // ------------------------------------------------------- where the bytes are

  /** `whole` is `part` with `hole` put in at offset `k`. */
  predicate WithHole(whole: Bytes, part: Bytes, k: nat, hole: Bytes) {
    k <= |part| && whole == part[..k] + hole + part[k..]
  }

  /** Server bytes: delivered ones in order, around at most one hole. */
  ghost predicate ResponseInv(c: Conn) {
    c.alive ==>
      && WithHole(c.ledger.sin, Delivered(c), c.ledger.holeAt, c.ledger.hole)
      && (c.flags.fastMode || c.flags.inTransition ==> c.ledger.hole == [] && c.ledger.holeAt == 0)
  }

  /** Client bytes read in fast mode: written to the server, queued for it, or left when it was freed. */
  predicate FastInv(c: Conn) {
    c.alive ==>
      && c.ledger.cinFast == c.ledger.soutFast + c.serverQueue.GetOr([]) + c.ledger.unsent
      && (c.server && (c.flags.fastMode || c.flags.inTransition) ==> c.ledger.unsent == [])
      && (c.flags.fastMode ==> c.ledger.soutSlow == c.ledger.retrieved == [] && c.ledger.parseFrom == 0)
      && (c.flags.fastMode || c.flags.inTransition ==>
            c.ledger.cinSlow == [] && c.ledger.served == 0 && !c.ledger.swapSkipped)
  }

  predicate Forwarding(c: Conn) {
    !c.flags.fastMode && !c.flags.inTransition && c.server && c.flags.serverWrite
  }

  /** Request bytes the proxy still owes to slow-mode servers. */
  ghost function Owed(c: Conn): Bytes
    requires c.requestBuf.Some? && c.requestBuf.value.Valid() && c.requestTmpBuf.Some?
  {
    if Forwarding(c) then c.requestBuf.value.Unread() + c.requestTmpBuf.value.content
    else c.requestBuf.value.content
  }

  /** The slow-mode request buffers are where the next step expects them. */
  predicate CursorsReady(c: Conn)
    requires c.requestBuf.Some? && c.requestTmpBuf.Some?
  {
    && c.requestTmpBuf.value.AtEnd()
    && if Forwarding(c) then c.requestBuf.value.content != []
       else c.requestBuf.value.AtEnd() && c.requestTmpBuf.value == EMPTY_FILE
  }

  ghost predicate RequestLedger(c: Conn)
    requires c.requestBuf.Some? && c.requestBuf.value.Valid() && c.requestTmpBuf.Some?
  {
    && CursorsReady(c)
    && c.ledger.soutSlow + Owed(c) == c.ledger.retrieved + c.ledger.cinSlow
  }

  /** Once malformed bytes have freed the parser nothing more is forwarded. */
  ghost predicate SlowInv(c: Conn)
    requires Shape(c)
  {
    c.alive && !c.flags.fastMode && !c.ledger.swapSkipped ==>
      if c.parser.Some? then RequestLedger(c)
      else c.ledger.soutSlow <= c.ledger.retrieved + c.ledger.cinSlow
  }

  // ------------------------------------------------------- parser state and history

  /** The part of the fast-mode stream covered by the current parse. */
  ghost function ParsedPart(l: Ledger): Bytes {
    if l.parseFrom <= |l.cinFast| then l.cinFast[l.parseFrom..] else []
  }

  /** The bytes after the last message end of a stream. */
  ghost function Incomplete(h: Http, stream: Bytes): Bytes {
    match Scan(h, h.start, stream)
    case Malformed => []
    case Parsed(_, _, last) => stream[last.GetOr(0)..]
  }

  ghost function StateAfter(h: Http, stream: Bytes): nat {
    match Scan(h, h.start, stream)
    case Malformed => h.start
    case Parsed(state, _, _) => state
  }

  /** The request in progress at the switch, completed by what the client sent afterwards. */
  ghost function FirstSlowRequest(h: Http, l: Ledger): Bytes {
    var k := FirstEnd(h, StateAfter(h, ParsedPart(l)), l.cinSlow);
    Incomplete(h, ParsedPart(l)) + (if k.Some? then l.cinSlow[..k.value] else l.cinSlow)
  }

  ghost predicate HistoryInv(h: Http, c: Conn)
    requires Shape(c)
  {
    c.alive && c.flags.fastMode && c.server ==>
      && Scan(h, h.start, c.ledger.cinFast).Parsed?
      && c.parser == Some(StateAfter(h, c.ledger.cinFast))
      && c.history == Some(Incomplete(h, c.ledger.cinFast))
  }

  /** Until the first slow-mode request is complete, parser and request buffer agree on one
      uninterrupted parse of the client's stream. */
  ghost predicate AwaitingFirst(h: Http, c: Conn)
    requires Shape(c) && c.alive && !c.flags.fastMode
  {
    var q := Scan(h, StateAfter(h, ParsedPart(c.ledger)), c.ledger.cinSlow);
    && q.Parsed? && q.first.None?
    && c.parser == Some(q.state)
    && c.requestBuf.value.content == c.ledger.retrieved + c.ledger.cinSlow
    && c.requestBuf.value.AtEnd()
  }

  ghost predicate FirstServed(h: Http, c: Conn)
    requires Shape(c) && c.alive && !c.flags.fastMode
  {
    var request := FirstSlowRequest(h, c.ledger);
    && FirstEnd(h, StateAfter(h, ParsedPart(c.ledger)), c.ledger.cinSlow).Some?
    && (c.ledger.served == 1 ==> c.ledger.soutSlow <= request)
    && (c.ledger.served == 1 && Forwarding(c) ==>
          && c.requestBuf.value.content == request
          && c.ledger.soutSlow == request[..c.requestBuf.value.pos])
    && (c.ledger.served == 1 && !Forwarding(c) && c.parser.Some? && !c.ledger.swapSkipped ==>
          c.ledger.soutSlow == request)
    && (c.ledger.served > 1 && !c.ledger.swapSkipped ==> request <= c.ledger.soutSlow)
  }

  ghost predicate SwitchInv(h: Http, c: Conn)
    requires Shape(c)
  {
    c.alive && !c.flags.fastMode ==>
      && c.ledger.parseFrom <= |c.ledger.cinFast|
      && (c.ledger.parseFrom != 0 ==> c.ledger.parseFrom == |c.ledger.cinFast|)
      && Scan(h, h.start, ParsedPart(c.ledger)).Parsed?
      && c.ledger.retrieved == Incomplete(h, ParsedPart(c.ledger))
      && (c.ledger.served == 0 && c.parser.Some? ==> c.ledger.soutSlow == [] && AwaitingFirst(h, c))
      && (c.ledger.served == 0 ==> !c.server || c.flags.inTransition)
      && (c.ledger.served > 0 ==> FirstServed(h, c))
  }

  ghost predicate Inv(h: Http, c: Conn) {
    Shape(c) && ResponseInv(c) && FastInv(c) && SlowInv(c) && HistoryInv(h, c) && SwitchInv(h, c)
  }
}
