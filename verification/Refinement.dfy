/** Every handler takes the step of the state machine: if flags and objects stand for a state `c` when it
    starts, they stand for the state after the step when it returns. */
module Refinement {
  import opened Base
  import opened Control
  import opened Sockets
  import opened Files
  import opened Hybrid
  import opened Ring
  import opened Parsing
  import opened Machine
  import opened Connections

  // Each method returns the event that happened, the state after it, the bytes it wrote to the peer, and
  // whether it ended the connection; then nothing is left to stand for. The event says what the kernel
  // said: the bytes and the end of file that its reads met, and the bytes that its writes took.

  method FastClientReadable(conn: Connection, ghost h: Http, ghost c: Conn, client: Socket, server: Socket,
                            clientQueue: Circularbuf, serverQueue: Circularbuf, parser: HttpParser, history: Hybridbuf)
    returns (ghost e: Event, ghost c': Conn, ghost out: Bytes, closed: bool)
    requires c.alive && conn.flags == c.flags && c.flags.fastMode && parser.http == h
    requires c.server && c.parser == Some(parser.state) && c.history == Some(history.contents)
    requires c.serverQueue == Some(serverQueue.contents) && c.clientQueue == Some(clientQueue.contents)
    requires clientQueue.Valid() && serverQueue.Valid() && serverQueue.data.Length == SOCK_IO_BUF_SIZE
    requires history.Appending() && history.reliable
    requires client != server && clientQueue != serverQueue && clientQueue.data != serverQueue.data
    requires serverQueue.data != history.mem && clientQueue.data != history.mem
    modifies conn, client, server, serverQueue, serverQueue.data, parser, history, history.mem
    ensures e.ClientReadable? && e.connected && LegalRead(e.data, e.eof, RequestRoom(c)) && Step(h, c, e) == Done(c')
    ensures client.ReadUpTo(e.data, e.eof, RequestRoom(c))
    ensures if Scan(h, c.parser.value, e.data).Parsed?
            then server.Wrote(Enqueue(c.serverQueue.value, e.data), e.written) else server.Untouched()
    ensures server.sent == old(server.sent) + out && c'.ledger.soutFast == c.ledger.soutFast + out
    ensures closed <==> !c'.alive
    ensures c'.alive ==> conn.flags == c'.flags
    ensures c'.parser.Some? ==> c'.parser.value == parser.state
    ensures c'.history.Some? ==> c'.history.value == history.contents
    ensures c'.serverQueue.Some? ==> c'.serverQueue.value == serverQueue.contents
  {
    var data, stat, ok, n;
    data, stat, ok, n, closed := conn.ForwardRequest(client, server, clientQueue, serverQueue, parser, history);
    e := ClientReadable(data, stat.hasEof, true, n);
    c' := ForwardRequest(h, c, data, stat.hasEof, n).conn;
    out := if ok then Enqueue(c.serverQueue.value, data)[..n] else [];
  }

  /** The first event of a connection: parser, server and queues come into being, unless the server
      cannot be reached, which ends the connection. */
  method FirstClientReadable(conn: Connection, h: Http, ghost c: Conn, client: Socket, history: Hybridbuf,
                             connected: bool)
    returns (ghost e: Event, ghost c': Conn, ghost out: Bytes, closed: bool,
             server: Socket, clientQueue: Circularbuf, serverQueue: Circularbuf, parser: HttpParser)
    requires c.alive && conn.flags == c.flags && c.flags.fastMode && c.parser.None? && c.serverQueue.None?
    requires c.history == Some(history.contents) && history.Appending() && history.reliable
    modifies conn, client, history, history.mem
    ensures e.ClientReadable? && e.connected == connected && LegalRead(e.data, e.eof, RequestRoom(c))
    ensures Step(h, c, e) == Done(c') && (!connected ==> c' == Delete(c))
    ensures if connected then client.ReadUpTo(e.data, e.eof, RequestRoom(c)) else client.Untouched()
    ensures server.sent == out && c'.ledger.soutFast == c.ledger.soutFast + out
    ensures closed <==> !c'.alive
    ensures c'.alive || !connected ==> conn.flags == c'.flags
    ensures c'.parser.Some? ==> c'.parser.value == parser.state
    ensures c'.history.Some? ==> c'.history.value == history.contents
    ensures c'.serverQueue.Some? ==> c'.serverQueue.value == serverQueue.contents
    ensures c'.clientQueue.Some? ==> c'.clientQueue.value == clientQueue.contents
  {
    server, clientQueue, serverQueue, parser := NewPeers(h);
    if connected {
      conn.flags := conn.flags.(serverRead := true);
      e, c', out, closed := FastClientReadable(conn, h, Connect(h, c), client, server, clientQueue, serverQueue,
                                               parser, history);
      FirstStep(h, c, e);
    } else {
      conn.flags := conn.flags.Disarmed();
      e, c', out, closed := ClientReadable([], false, false, 0), Delete(c), [], true;
    }
  }

  method NewPeers(h: Http)
    returns (server: Socket, clientQueue: Circularbuf, serverQueue: Circularbuf, parser: HttpParser)
    ensures fresh(server) && server.sent == [] && server.received == []
    ensures fresh(clientQueue) && fresh(clientQueue.data) && clientQueue.Valid() && clientQueue.contents == []
    ensures fresh(serverQueue) && fresh(serverQueue.data) && serverQueue.Valid() && serverQueue.contents == []
    ensures serverQueue.data.Length == SOCK_IO_BUF_SIZE
    ensures clientQueue != serverQueue && clientQueue.data != serverQueue.data
    ensures fresh(parser) && parser.http == h && parser.state == h.start
  {
    parser := new HttpParser(h);
    server := new Socket();
    serverQueue := new Circularbuf(SOCK_IO_BUF_SIZE);
    clientQueue := new Circularbuf(SOCK_IO_BUF_SIZE);
  }

  lemma FirstStep(h: Http, c: Conn, e: Event)
    requires c.flags.fastMode && c.parser.None? && c.serverQueue.None? && e.ClientReadable? && e.connected
    ensures Step(h, c, e) == Step(h, Connect(h, c), e) && RequestRoom(c) == RequestRoom(Connect(h, c))
  {
  }

  method FastServerReadable(conn: Connection, ghost h: Http, ghost c: Conn, client: Socket, server: Socket,
                            clientQueue: Circularbuf)
    returns (ghost e: Event, ghost c': Conn, ghost out: Bytes, closed: bool)
    requires c.alive && conn.flags == c.flags && c.flags.fastMode && c.server
    requires c.clientQueue == Some(clientQueue.contents)
    requires clientQueue.Valid() && clientQueue.data.Length == SOCK_IO_BUF_SIZE && client != server
    modifies conn, client, server, clientQueue, clientQueue.data
    ensures e.ServerReadable? && LegalRead(e.data, e.eof, ResponseRoom(c)) && Step(h, c, e) == Done(c')
    ensures server.ReadUpTo(e.data, e.eof, ResponseRoom(c)) && c'.ledger.sin == c.ledger.sin + e.data
    ensures client.Wrote(Enqueue(c.clientQueue.value, e.data), e.written)
    ensures closed <==> !c'.alive
    ensures client.sent == old(client.sent) + out && c'.ledger.cout == c.ledger.cout + out
    ensures c'.alive ==> conn.flags == c'.flags
    ensures c'.clientQueue.Some? ==> c'.clientQueue.value == clientQueue.contents
  {
    var stat, n;
    ghost var data;
    data, stat, n, closed := conn.ForwardResponse(client, server, clientQueue);
    e := ServerReadable(data, stat.hasEof, n);
    c' := ForwardResponse(c, data, stat.hasEof, n).conn;
    out := Enqueue(c.clientQueue.value, data)[..n];
  }

  method FastClientWritable(conn: Connection, ghost h: Http, ghost c: Conn, client: Socket, queue: Circularbuf,
                            serverThere: bool)
    returns (ghost e: Event, ghost c': Conn, ghost out: Bytes, closed: bool)
    requires c.alive && conn.flags == c.flags && c.flags.fastMode && c.server == serverThere
    requires c.clientQueue == Some(queue.contents) && queue.Valid()
    modifies conn, client, queue
    ensures e.ClientWritable? && Step(h, c, e) == Done(c')
    ensures client.Wrote(c.clientQueue.value, e.written) && (e.broken <==> client.Broke(|old(client.writeLog)|))
    ensures client.sent == old(client.sent) + out && c'.ledger.cout == c.ledger.cout + out
    ensures closed <==> !c'.alive
    ensures c'.alive ==> conn.flags == c'.flags && c'.clientQueue == Some(queue.contents)
  {
    var n, broken;
    n, broken, closed := conn.ClientWritable(client, queue, serverThere);
    e := ClientWritable(n, broken);
    c' := OnClientWritable(c, n, broken).conn;
    out := c.clientQueue.value[..n];
  }

  method FastServerWritable(conn: Connection, ghost h: Http, ghost c: Conn, server: Socket, queue: Circularbuf)
    returns (ghost e: Event, ghost c': Conn, ghost out: Bytes)
    requires conn.flags == c.flags && c.flags.fastMode && c.server
    requires c.serverQueue == Some(queue.contents) && queue.Valid()
    modifies conn, server, queue
    ensures e.ServerWritable? && Step(h, c, e) == Done(c') && c'.alive == c.alive
    ensures server.Wrote(c.serverQueue.value, e.written)
    ensures server.sent == old(server.sent) + out && c'.ledger.soutFast == c.ledger.soutFast + out
    ensures conn.flags == c'.flags && c'.serverQueue == Some(queue.contents)
  {
    var n := conn.ServerWritable(server, queue);
    e := ServerWritable(n);
    c' := OnServerWritable(c, n).conn;
    out := c.serverQueue.value[..n];
  }

  // ---------------------------------------------------------------- the switch and the transition

  /** The objects that a connection in fast mode may have stand for a state. */
  ghost predicate StandFor(c: Conn, parser: HttpParser?, history: Hybridbuf?,
                           clientQueue: Circularbuf?, serverQueue: Circularbuf?)
    reads parser, history, clientQueue, serverQueue
    reads if history != null then {history.mem} else {}
    reads if clientQueue != null then {clientQueue.data} else {}
    reads if serverQueue != null then {serverQueue.data} else {}
  {
    && c.parser == (if parser != null then Some(parser.state) else None)
    && (c.flags.fastMode ==> !c.flags.inTransition && ReadyToSwitch(parser, history, clientQueue, serverQueue))
    && (c.flags.fastMode && parser != null ==>
          && c.server && c.history == Some(history.contents)
          && c.clientQueue == Some(clientQueue.contents) && c.serverQueue == Some(serverQueue.contents))
  }

  ghost predicate BuffersStandFor(c: Conn, b: SlowBuffers)
    reads b.request, b.tmp, b.response
  {
    && b.Valid() && c.requestBuf == Some(b.request.file) && c.requestTmpBuf == Some(b.tmp.file)
    && c.responseBuf == Some(Fifo(b.response.file.content, b.response.readerPos))
  }

  /** The switch, of a running connection as of one without a parser. */
  method Switch(conn: Connection, h: Http, ghost c: Conn, parser: HttpParser?, history: Hybridbuf?,
                clientQueue: Circularbuf?, serverQueue: Circularbuf?)
    returns (ghost c': Conn, buffers: Option<SlowBuffers>, parser': HttpParser?, freeQueue: bool)
    requires conn.flags == c.flags && StandFor(c, parser, history, clientQueue, serverQueue)
    modifies conn, history, clientQueue
    ensures Step(h, c, SetSlow) == Done(c') && conn.flags == c'.flags && c'.alive == c.alive
    ensures buffers.None? ==> c' == c && parser' == parser
    ensures buffers.Some? ==>
      && BuffersStandFor(c', buffers.value) && parser' != null && c'.parser == Some(parser'.state)
      && (parser != null ==>
            serverQueue != null && c'.serverQueue == if freeQueue then None else Some(serverQueue.contents))
  {
    buffers, parser', freeQueue := conn.SetSlowMode(h, parser, history, clientQueue, serverQueue);
    c' := SetSlowMode(h, c).conn;
  }

  /** The monitor's visit, with everything a demoted connection gets. */
  method MonitorVisit(conn: Connection, h: Http, ghost c: Conn, parser: HttpParser?, history: Hybridbuf?,
                      clientQueue: Circularbuf?, serverQueue: Circularbuf?)
    returns (ghost c': Conn, dropped: bool, buffers: Option<SlowBuffers>, parser': HttpParser?, freeQueue: bool)
    requires c.alive && conn.flags == c.flags && StandFor(c, parser, history, clientQueue, serverQueue)
    modifies conn, history, clientQueue
    ensures Step(h, c, Tick) == Done(c') && conn.flags == c'.flags
    ensures (dropped <==> !c'.alive) && (dropped ==> c' == Delete(c))
    ensures !dropped && buffers.None? ==> c' == c.(flags := c'.flags) && parser' == parser
    ensures buffers.Some? ==>
      && BuffersStandFor(c', buffers.value) && parser' != null && c'.parser == Some(parser'.state)
      && (parser != null ==>
            serverQueue != null && c'.serverQueue == if freeQueue then None else Some(serverQueue.contents))
  {
    dropped, buffers, parser', freeQueue := conn.Monitor(h, parser, history, clientQueue, serverQueue);
    c' := OnTick(h, c).conn;
  }

  method TransitionServerReadable(conn: Connection, ghost h: Http, ghost c: Conn, server: Socket,
                                  responseBuf: FIFOfilebuf)
    returns (ghost e: Event, ghost c': Conn)
    requires conn.flags == c.flags && !c.flags.fastMode && c.flags.inTransition && c.server
    requires c.responseBuf == Some(Fifo(responseBuf.file.content, responseBuf.readerPos))
    requires responseBuf.Valid() && responseBuf.reliable
    modifies conn, server, responseBuf
    ensures e.ServerReadable? && LegalRead(e.data, e.eof, SOCK_IO_BUF_SIZE) && Step(h, c, e) == Done(c')
    ensures server.ReadUpTo(e.data, e.eof, SOCK_IO_BUF_SIZE) && c'.alive == c.alive
    ensures responseBuf.Valid() && conn.flags == c'.flags
    ensures c'.responseBuf == Some(Fifo(responseBuf.file.content, responseBuf.readerPos))
  {
    var data, stat := conn.TransitionReadable(server, responseBuf);
    e := ServerReadable(data, stat.hasEof, 0);
    c' := TransitionReadable(c, data, stat.hasEof).conn;
    assert c.responseBuf.value.content + [] == c.responseBuf.value.content;
  }

  method TransitionServerWritable(conn: Connection, ghost h: Http, ghost c: Conn, server: Socket, queue: Circularbuf)
    returns (ghost e: Event, ghost c': Conn, ghost out: Bytes, emptied: bool)
    requires conn.flags == c.flags && !c.flags.fastMode && c.flags.inTransition && c.server
    requires c.serverQueue == Some(queue.contents) && queue.Valid()
    modifies conn, server, queue
    ensures e.ServerWritable? && Step(h, c, e) == Done(c') && c'.alive == c.alive
    ensures server.Wrote(c.serverQueue.value, e.written)
    ensures server.sent == old(server.sent) + out && c'.ledger.soutFast == c.ledger.soutFast + out
    ensures conn.flags == c'.flags && c'.serverQueue == if emptied then None else Some(queue.contents)
  {
    var n;
    n, emptied := conn.TransitionWritable(server, queue);
    e := ServerWritable(n);
    c' := TransitionWritable(c, n).conn;
    out := c.serverQueue.value[..n];
  }

  // ---------------------------------------------------------------- slow mode

  method SlowClientReadable(conn: Connection, ghost h: Http, ghost c: Conn, client: Socket, parser: HttpParser,
                            requestBuf: Filebuf, requestTmpBuf: Filebuf, responseBuf: FIFOfilebuf, connected: bool)
    returns (ghost e: Event, ghost c': Conn, closed: bool)
    requires c.alive && conn.flags == c.flags && !c.flags.fastMode && !c.server && parser.http == h
    requires c.parser == Some(parser.state)
    requires c.requestBuf == Some(requestBuf.file) && c.requestTmpBuf == Some(requestTmpBuf.file)
    requires c.responseBuf == Some(Fifo(responseBuf.file.content, responseBuf.readerPos)) && responseBuf.Valid()
    requires requestBuf.Valid() && requestTmpBuf.Valid() && requestBuf != requestTmpBuf
    requires requestBuf.reliable && requestTmpBuf.reliable
    modifies conn, client, parser, requestBuf, requestTmpBuf
    ensures e.ClientReadable? && e.connected == connected && LegalRead(e.data, e.eof, SOCK_IO_BUF_SIZE)
    ensures Step(h, c, e) == Done(c') && (closed <==> !c'.alive)
    ensures client.ReadUpTo(e.data, e.eof, SOCK_IO_BUF_SIZE)
    ensures c'.alive ==> conn.flags == c'.flags
    ensures c'.parser.Some? ==> c'.parser.value == parser.state
    ensures c'.requestBuf.Some? ==> c'.requestBuf.value == requestBuf.file
    ensures c'.requestTmpBuf.Some? ==> c'.requestTmpBuf.value == requestTmpBuf.file
  {
    var data, stat, ok;
    data, stat, ok, closed := conn.SlowReceive(client, parser, requestBuf, requestTmpBuf, responseBuf, connected);
    e := ClientReadable(data, stat.hasEof, connected, 0);
    c' := SlowReceive(h, c, data, stat.hasEof, connected).conn;
  }

  method SlowServerReadable(conn: Connection, ghost h: Http, ghost c: Conn, server: Socket, parser: HttpParser,
                            responseBuf: FIFOfilebuf)
    returns (ghost e: Event, ghost c': Conn, closed: bool)
    requires c.alive && conn.flags == c.flags && !c.flags.fastMode && !c.flags.inTransition && c.server
    requires parser.http == h
    requires c.parser == Some(parser.state) && responseBuf.Valid() && responseBuf.reliable
    requires c.responseBuf == Some(Fifo(responseBuf.file.content, responseBuf.readerPos))
    modifies conn, server, parser, responseBuf
    ensures e.ServerReadable? && LegalRead(e.data, e.eof, SOCK_IO_BUF_SIZE) && Step(h, c, e) == Done(c')
    ensures server.ReadUpTo(e.data, e.eof, SOCK_IO_BUF_SIZE) && responseBuf.Valid()
    ensures closed <==> !c'.alive
    ensures c'.alive ==> conn.flags == c'.flags
    ensures c'.parser.Some? ==> c'.parser.value == parser.state
    ensures c'.responseBuf.Some? ==> c'.responseBuf.value == Fifo(responseBuf.file.content, responseBuf.readerPos)
  {
    var data, stat, ok, complete;
    data, stat, ok, complete, closed := conn.SlowResponse(server, parser, responseBuf);
    e := ServerReadable(data, stat.hasEof, 0);
    c' := SlowResponse(h, c, data, stat.hasEof).conn;
  }

  method SlowServerWritable(conn: Connection, ghost h: Http, ghost c: Conn, server: Socket,
                            requestBuf: Filebuf, requestTmpBuf: Filebuf)
    returns (ghost e: Event, ghost c': Conn, ghost out: Bytes, request': Filebuf, tmp': Filebuf)
    requires conn.flags == c.flags && !c.flags.fastMode && !c.flags.inTransition && c.server
    requires c.requestBuf == Some(requestBuf.file) && c.requestTmpBuf == Some(requestTmpBuf.file)
    requires requestBuf.Valid() && requestTmpBuf.Valid() && requestBuf != requestTmpBuf
    modifies conn, server, requestBuf
    ensures e.ServerWritable? && Step(h, c, e) == Done(c') && c'.alive == c.alive && e.written == |out|
    ensures server.sent == old(server.sent) + out && c'.ledger.soutSlow == c.ledger.soutSlow + out
    ensures if c.requestBuf.value.AtEnd() then server.Untouched()
            else out != [] || server.Refused(|old(server.writeLog)|)
    ensures conn.flags == c'.flags
    ensures c'.requestBuf == Some(request'.file) && c'.requestTmpBuf == Some(tmp'.file)
  {
    var n, done;
    n, done, request', tmp' := conn.SlowSend(server, requestBuf, requestTmpBuf);
    e := ServerWritable(n);
    c' := SlowSend(c, n).conn;
    out := c.requestBuf.value.Unread()[..n];
  }

  method SlowClientWritable(conn: Connection, ghost h: Http, ghost c: Conn, client: Socket, responseBuf: FIFOfilebuf,
                            parserThere: bool)
    returns (ghost e: Event, ghost c': Conn, ghost out: Bytes, closed: bool)
    requires c.alive && conn.flags == c.flags && !c.flags.fastMode && c.parser.Some? == parserThere
    requires responseBuf.Valid()
    requires c.responseBuf == Some(Fifo(responseBuf.file.content, responseBuf.readerPos))
    modifies conn, client, responseBuf
    ensures e.ClientWritable? && Step(h, c, e) == Done(c') && (closed <==> !c'.alive) && e.written == |out|
    ensures client.sent == old(client.sent) + out && c'.ledger.cout == c.ledger.cout + out
    ensures if c.responseBuf.value.Unread() == [] then client.Untouched()
            else out != [] || client.Refused(|old(client.writeLog)|)
    ensures responseBuf.Valid()
    ensures c'.alive ==>
      conn.flags == c'.flags && c'.responseBuf == Some(Fifo(responseBuf.file.content, responseBuf.readerPos))
  {
    var n;
    n, closed := conn.SlowReply(client, responseBuf, parserThere);
    e := ClientWritable(n, false);
    c' := SlowReply(c, n).conn;
    out := c.responseBuf.value.Unread()[..n];
  }
}
