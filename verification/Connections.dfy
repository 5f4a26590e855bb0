/** The event handlers as the source runs them: imperative code over sockets, parser and buffers that
    change in place. Module Refinement shows that each takes the step of the state machine. */
module Connections {
  import opened Base
  import opened Sockets
  import opened Files
  import opened Hybrid
  import opened Copying
  import opened Ring
  import opened Parsing
  import opened Control
  import opened Machine

  /** The file buffers of a slow-mode connection. */
  datatype SlowBuffers = SlowBuffers(request: Filebuf, tmp: Filebuf, response: FIFOfilebuf) {
    ghost predicate Valid()
      reads request, tmp, response
    {
      && request.Valid() && tmp.Valid() && response.Valid() && request != tmp
      && request.reliable && tmp.reliable && response.reliable
    }

    /** As the switch leaves them: `hist` retrieved, `pending` waiting for the client. */
    ghost predicate Hold(hist: Bytes, pending: Bytes)
      reads request, tmp, response
    {
      && Valid() && request.file == File(hist, |hist|) && tmp.file == EMPTY_FILE
      && response.file.content == pending && response.readerPos == 0
    }
  }

  /** What a switch needs of the objects of a fast-mode connection. */
  ghost predicate ReadyToSwitch(parser: HttpParser?, history: Hybridbuf?,
                                clientQueue: Circularbuf?, serverQueue: Circularbuf?)
    reads history, clientQueue, serverQueue
    reads if history != null then {history.mem} else {}
    reads if clientQueue != null then {clientQueue.data} else {}
    reads if serverQueue != null then {serverQueue.data} else {}
  {
    parser != null ==>
      && history != null && history.Valid() && clientQueue != null && clientQueue.Valid()
      && serverQueue != null && serverQueue.Valid() && clientQueue != serverQueue
      && clientQueue.data != serverQueue.data
      && clientQueue.data != history.mem && serverQueue.data != history.mem
  }

  class Connection {
    var flags: Flags

    constructor ()
      ensures flags == NEW_FLAGS
    {
      flags := NEW_FLAGS;
    }

    // ------------------------------------------------------------------------------ fast mode

    /** `keep_track_request_history`; `ok` is false where it throws. */
    static method TrackHistory(parser: HttpParser, history: Hybridbuf, data: Bytes) returns (ok: bool)
      requires history.Appending() && history.reliable
      modifies parser, history, history.mem
      ensures history.Appending()
      ensures ok <==> Scan(parser.http, old(parser.state), data).Parsed?
      ensures ok ==>
        var p := Scan(parser.http, old(parser.state), data);
        && parser.state == p.state
        && history.contents == if p.last.Some? then data[p.last.value..] else old(history.contents) + data
      ensures !ok ==> history.contents == old(history.contents)
    {
      ok := parser.DoParse(data);
      if ok {
        var n;
        if parser.lastEom.Some? {
          history.Clear();
          n := history.Store(data[parser.lastEom.value..]);
        } else {
          n := history.Store(data);
        }
      }
    }

    /** The bytes of one `fast_forward` from client to server: read, parse, queue, write what it takes. */
    static method MoveRequest(client: Socket, server: Socket, queue: Circularbuf,
                              parser: HttpParser, history: Hybridbuf)
      returns (data: Bytes, stat: IoStat, ok: bool, written: nat)
      requires client != server && queue.Valid() && queue.data.Length == SOCK_IO_BUF_SIZE
      requires history.Appending() && history.reliable && queue.data != history.mem
      modifies client, server, queue, queue.data, parser, history, history.mem
      ensures queue.Valid() && history.Appending()
      ensures client.ReadUpTo(data, stat.hasEof, RING_ROOM - |old(queue.contents)|)
      ensures ok <==> Scan(parser.http, old(parser.state), data).Parsed?
      ensures ok ==>
        var p := Scan(parser.http, old(parser.state), data);
        var q := Enqueue(old(queue.contents), data);
        && parser.state == p.state
        && history.contents == (if p.last.Some? then data[p.last.value..] else old(history.contents) + data)
        && server.Wrote(q, written) && queue.contents == q[written..]
      ensures !ok ==>
        && written == 0 && queue.contents == old(queue.contents) && server.Untouched()
        && history.contents == old(history.contents)
    {
      data, stat := client.ReadAll(queue.RemainingSpace());
      ok := TrackHistory(parser, history, data);
      written := 0;
      if ok {
        var count := queue.CopyFrom(data);
        var out := queue.WriteAllTo(server);
        written := out.nbytes;
      }
    }

    /** ... and what they mean for the events: a server that takes nothing stops the client, bytes that
        do not parse end the exchange. */
    method ForwardRequest(client: Socket, server: Socket, clientQueue: Circularbuf, serverQueue: Circularbuf,
                          parser: HttpParser, history: Hybridbuf)
      returns (data: Bytes, stat: IoStat, ok: bool, written: nat, closed: bool)
      requires clientQueue.Valid() && serverQueue.Valid() && serverQueue.data.Length == SOCK_IO_BUF_SIZE
      requires history.Appending() && history.reliable
      requires client != server && clientQueue != serverQueue && clientQueue.data != serverQueue.data
      requires serverQueue.data != history.mem && clientQueue.data != history.mem
      modifies this, client, server, serverQueue, serverQueue.data, parser, history, history.mem
      ensures serverQueue.Valid() && clientQueue.Valid() && history.Appending()
      ensures flags == old(flags).AfterRequest(|data|, ok, clientQueue.contents != [], stat.hasEof, written)
      ensures closed <==> if ok then stat.hasEof else clientQueue.contents == []
      ensures client.ReadUpTo(data, stat.hasEof, RING_ROOM - |old(serverQueue.contents)|)
      ensures ok <==> Scan(parser.http, old(parser.state), data).Parsed?
      ensures ok ==>
        var p := Scan(parser.http, old(parser.state), data);
        var q := Enqueue(old(serverQueue.contents), data);
        && parser.state == p.state
        && history.contents == (if p.last.Some? then data[p.last.value..] else old(history.contents) + data)
        && server.Wrote(q, written) && serverQueue.contents == q[written..]
      ensures !ok ==>
        && serverQueue.contents == old(serverQueue.contents) && server.Untouched()
        && history.contents == old(history.contents)
    {
      data, stat, ok, written := MoveRequest(client, server, serverQueue, parser, history);
      closed := SettleRequest(|data|, ok, clientQueue.DataSize() > 0, stat.hasEof, written);
    }

    method SettleRequest(nbytes: nat, ok: bool, replyPending: bool, eof: bool, written: nat) returns (closed: bool)
      modifies this
      ensures flags == old(flags).AfterRequest(nbytes, ok, replyPending, eof, written)
      ensures closed <==> if ok then eof else !replyPending
    {
      closed := false;
      flags := flags.(readCount := flags.readCount + nbytes);
      if !ok {
        flags := flags.ServerGone();
        closed := !replyPending;
        flags := if replyPending then flags.ReplyOnly() else flags.Disarmed();
      } else if eof {
        flags, closed := flags.Disarmed(), true;
      } else if written == 0 {
        flags := flags.(clientRead := false, serverWrite := true);
      }
    }

    /** Read from the server into the client's queue and write what the client takes. */
    method ForwardResponse(client: Socket, server: Socket, queue: Circularbuf)
      returns (ghost data: Bytes, stat: IoStat, written: nat, closed: bool)
      requires client != server && queue.Valid() && queue.data.Length == SOCK_IO_BUF_SIZE
      modifies this, client, server, queue, queue.data
      ensures queue.Valid() && server.ReadUpTo(data, stat.hasEof, RING_ROOM - |old(queue.contents)|)
      ensures flags == old(flags).AfterResponse(stat.hasEof, queue.contents != [], written)
      ensures closed <==> stat.hasEof && queue.contents == []
      ensures var q := Enqueue(old(queue.contents), data);
              client.Wrote(q, written) && queue.contents == q[written..]
    {
      stat, data := queue.ReadAllFrom(server);
      assert data[..|data|] == data;
      var out := queue.WriteAllTo(client);
      written := out.nbytes;
      closed := SettleResponse(stat.hasEof, queue.DataSize() > 0, written);
    }

    method SettleResponse(eof: bool, replyPending: bool, written: nat) returns (closed: bool)
      modifies this
      ensures flags == old(flags).AfterResponse(eof, replyPending, written)
      ensures closed <==> eof && !replyPending
    {
      closed := eof && !replyPending;
      flags := flags.(writeCount := flags.writeCount + written);
      if eof {
        flags := flags.ServerGone();
        flags := if replyPending then flags.ReplyOnly() else flags.Disarmed();
      } else if written == 0 {
        flags := flags.(serverRead := false, clientWrite := true);
      }
    }

    /** Writing resumed: the client queue drains, and the server is read again or the connection ends. */
    method ClientWritable(client: Socket, queue: Circularbuf, serverThere: bool)
      returns (written: nat, broken: bool, closed: bool)
      requires queue.Valid()
      modifies this, client, queue
      ensures queue.Valid() && client.Wrote(old(queue.contents), written)
      ensures queue.contents == old(queue.contents)[written..]
      ensures broken <==> client.Broke(|old(client.writeLog)|)
      ensures closed <==> !serverThere && (broken || queue.contents == [])
      ensures flags == if serverThere then old(flags).(serverRead := true, clientWrite := false)
                       else if closed then old(flags).Disarmed() else old(flags)
    {
      var out := queue.WriteAllTo(client);
      written := out.nbytes;
      broken := out.hasError && client.hardError;
      closed := !serverThere && (broken || queue.DataSize() == 0);
      if serverThere {
        flags := flags.(serverRead := true, clientWrite := false);
      } else if closed {
        flags := flags.Disarmed();
      }
    }

    method ServerWritable(server: Socket, queue: Circularbuf) returns (written: nat)
      requires queue.Valid()
      modifies this, server, queue
      ensures queue.Valid() && server.Wrote(old(queue.contents), written)
      ensures queue.contents == old(queue.contents)[written..]
      ensures flags == old(flags).(clientRead := true, serverWrite := false)
    {
      flags := flags.(clientRead := true, serverWrite := false);
      var out := queue.WriteAllTo(server);
      written := out.nbytes;
    }

    // ------------------------------------------------------------------------------ the switch

    static method EmptyBuffers() returns (b: SlowBuffers)
      ensures b.Hold([], []) && b.response.file == EMPTY_FILE
      ensures fresh(b.request) && fresh(b.tmp) && fresh(b.response)
    {
      var request := new Filebuf(true);
      var tmp := new Filebuf(true);
      var response := new FIFOfilebuf(true);
      b := SlowBuffers(request, tmp, response);
    }

    /** The buffers of a running connection: the history is retrieved into the request buffer, and what
        waits for the client moves to the response buffer. */
    static method FillBuffers(b: SlowBuffers, history: Hybridbuf, clientQueue: Circularbuf)
      requires b.Hold([], []) && history.Valid() && clientQueue.Valid() && clientQueue.data != history.mem
      modifies history, clientQueue, b.request, b.response
      ensures b.Hold(old(history.contents), old(clientQueue.contents))
    {
      CopyData(Spilling(history), Plain(b.request));
      ghost var hist := old(history.contents);
      while clientQueue.DataSize() > 0
        invariant clientQueue.Valid() && b.Hold(hist, b.response.file.content)
        invariant b.response.file.content + clientQueue.contents == old(clientQueue.contents)
        decreases |clientQueue.contents|
      {
        clientQueue.DumpTo(Queue(b.response));
      }
    }

    /** What the switch means for the events. Reading stops until the server has finished; without a parser
        there is nothing to wait for. `freeQueue` tells that the server's queue is empty and goes at once. */
    method SettleSwitch(running: bool, queued: bool) returns (freeQueue: bool)
      modifies this
      ensures flags == old(flags).AfterSwitch(running, queued)
      ensures freeQueue <==> running && !queued
    {
      freeQueue := false;
      flags := flags.(fastMode := false, inTransition := true);
      if !running {
        flags := flags.(clientRead := true, inTransition := false);
      } else {
        flags := flags.(clientRead := false, serverRead := true);
        if queued {
          flags := flags.(serverWrite := true);
        } else {
          freeQueue := true;
        }
      }
    }

    /** A connection that is not in fast mode stays as it is. One without a parser gets a new one. */
    method SetSlowMode(http: Http, parser: HttpParser?, history: Hybridbuf?,
                       clientQueue: Circularbuf?, serverQueue: Circularbuf?)
      returns (buffers: Option<SlowBuffers>, parser': HttpParser?, freeQueue: bool)
      requires flags.fastMode ==> ReadyToSwitch(parser, history, clientQueue, serverQueue)
      modifies this, history, clientQueue
      ensures buffers.Some? <==> old(flags).fastMode && !old(flags).inTransition
      ensures buffers.None? ==> flags == old(flags) && parser' == parser && !freeQueue
      ensures buffers.Some? && parser == null ==>
        && flags == old(flags).AfterSwitch(false, false) && !freeQueue && buffers.value.Hold([], [])
        && parser' != null && parser'.http == http && parser'.state == http.start
      ensures buffers.Some? && parser != null ==>
        && flags == old(flags).AfterSwitch(true, serverQueue.contents != []) && parser' == parser
        && freeQueue == (serverQueue.contents == [])
        && buffers.value.Hold(old(history.contents), old(clientQueue.contents))
    {
      buffers, parser', freeQueue := None, parser, false;
      if !flags.fastMode || flags.inTransition {
        return;
      }
      var b := EmptyBuffers();
      if parser == null {
        parser' := new HttpParser(http);
        freeQueue := SettleSwitch(false, false);
      } else {
        freeQueue := SettleSwitch(true, serverQueue.DataSize() > 0);
        FillBuffers(b, history, clientQueue);
      }
      buffers := Some(b);
    }

    /** One visit of the data-rate monitor: a connection slow both ways is dropped, one below the threshold
        in sum leaves fast mode, and the counters of the others start again. */
    method Monitor(http: Http, parser: HttpParser?, history: Hybridbuf?,
                   clientQueue: Circularbuf?, serverQueue: Circularbuf?)
      returns (dropped: bool, buffers: Option<SlowBuffers>, parser': HttpParser?, freeQueue: bool)
      requires flags.fastMode ==> ReadyToSwitch(parser, history, clientQueue, serverQueue)
      modifies this, history, clientQueue
      ensures dropped <==> old(flags).Verdict() == Drop
      ensures dropped ==> flags == old(flags).Disarmed() && buffers.None?
      ensures buffers.Some? <==> old(flags).Verdict() == Demote && !old(flags).inTransition
      ensures buffers.None? ==> parser' == parser && !freeQueue && (!dropped ==> flags == old(flags).ResetCounters())
      ensures buffers.Some? && parser == null ==>
        && flags == old(flags).AfterSwitch(false, false).ResetCounters() && !freeQueue
        && buffers.value.Hold([], [])
        && parser' != null && parser'.http == http && parser'.state == http.start
      ensures buffers.Some? && parser != null ==>
        && flags == old(flags).AfterSwitch(true, serverQueue.contents != []).ResetCounters() && parser' == parser
        && freeQueue == (serverQueue.contents == [])
        && buffers.value.Hold(old(history.contents), old(clientQueue.contents))
    {
      dropped, buffers, parser', freeQueue := false, None, parser, false;
      var read, write := flags.readCount, flags.writeCount;
      if write < MIN_DOWN && read < MIN_DOWN {
        flags, dropped := flags.Disarmed(), true;
        return;
      }
      if flags.fastMode && read + write < MIN_DTR {
        buffers, parser', freeQueue := SetSlowMode(http, parser, history, clientQueue, serverQueue);
      }
      flags := flags.(readCount := 0, writeCount := 0);
    }

    // ------------------------------------------------------------------------------ transition

    /** Bytes are stored, unless the same call met end of file. */
    method TransitionReadable(server: Socket, responseBuf: FIFOfilebuf) returns (data: Bytes, stat: IoStat)
      requires responseBuf.Valid() && responseBuf.reliable
      modifies this, server, responseBuf
      ensures responseBuf.Valid() && server.ReadUpTo(data, stat.hasEof, SOCK_IO_BUF_SIZE)
      ensures responseBuf.readerPos == old(responseBuf.readerPos)
      ensures responseBuf.file.content == old(responseBuf.file.content) + (if stat.hasEof then [] else data)
      ensures flags == if stat.hasEof then old(flags).AfterTransition() else old(flags).(clientWrite := true)
    {
      data, stat := server.ReadAll(SOCK_IO_BUF_SIZE);
      if stat.hasEof {
        flags := flags.ServerGone();
        flags := flags.(clientRead := true, inTransition := false);
      } else {
        var n := responseBuf.Store(data);
        flags := flags.(clientWrite := true);
      }
    }

    method TransitionWritable(server: Socket, queue: Circularbuf) returns (written: nat, emptied: bool)
      requires queue.Valid()
      modifies this, server, queue
      ensures queue.Valid() && server.Wrote(old(queue.contents), written)
      ensures queue.contents == old(queue.contents)[written..]
      ensures emptied <==> written == |old(queue.contents)|
      ensures flags == old(flags).AfterQueueWrite(emptied)
    {
      var out := queue.WriteAllTo(server);
      written := out.nbytes;
      emptied := queue.DataSize() == 0;
      if emptied {
        flags := flags.(serverWrite := false);
      }
    }

    // ------------------------------------------------------------------------------ slow mode

    /** Stores one parsed chunk: up to the first message end in the request buffer, the rest behind it in
        the overflow buffer, and then the request buffer is rewound. */
    static method StoreRequest(data: Bytes, end: Option<nat>, requestBuf: Filebuf, requestTmpBuf: Filebuf)
      requires requestBuf.Valid() && requestTmpBuf.Valid() && requestBuf != requestTmpBuf
      requires requestBuf.reliable && requestTmpBuf.reliable
      requires end.Some? ==> end.value <= |data|
      modifies requestBuf, requestTmpBuf
      ensures requestBuf.file == (if end.Some? then old(requestBuf.file).Write(data[..end.value]).(pos := 0)
                                  else old(requestBuf.file).Write(data))
      ensures requestTmpBuf.file == if end.Some? && data[end.value..] != []
                                    then old(requestTmpBuf.file).Write(data[end.value..]) else old(requestTmpBuf.file)
    {
      var n;
      if end.Some? {
        n := requestBuf.Store(data[..end.value]);
        if |data| - end.value > 0 {
          n := requestTmpBuf.Store(data[end.value..]);
        }
        var ok := requestBuf.Rewind(0);
      } else {
        n := requestBuf.Store(data);
      }
    }

    method SlowReceive(client: Socket, parser: HttpParser, requestBuf: Filebuf, requestTmpBuf: Filebuf,
                       responseBuf: FIFOfilebuf, connected: bool)
      returns (data: Bytes, stat: IoStat, ok: bool, closed: bool)
      requires requestBuf.Valid() && requestTmpBuf.Valid() && requestBuf != requestTmpBuf
      requires requestBuf.reliable && requestTmpBuf.reliable && responseBuf.Valid()
      modifies this, client, parser, requestBuf, requestTmpBuf
      ensures client.ReadUpTo(data, stat.hasEof, SOCK_IO_BUF_SIZE)
      ensures closed <==> stat.hasEof || (if ok then parser.firstEom.Some? && !connected else responseBuf.dataSize == 0)
      ensures stat.hasEof || !ok ==>
        requestBuf.file == old(requestBuf.file) && requestTmpBuf.file == old(requestTmpBuf.file)
      ensures !stat.hasEof ==> (ok <==> Scan(parser.http, old(parser.state), data).Parsed?)
      ensures !stat.hasEof && ok ==>
        var p := Scan(parser.http, old(parser.state), data);
        && parser.state == (if p.first.Some? then parser.http.toResponse(p.state) else p.state)
        && requestBuf.file == (if p.first.Some? then old(requestBuf.file).Write(data[..p.first.value]).(pos := 0)
                               else old(requestBuf.file).Write(data))
        && requestTmpBuf.file == (if p.first.Some? && data[p.first.value..] != []
                                  then old(requestTmpBuf.file).Write(data[p.first.value..])
                                  else old(requestTmpBuf.file))
      ensures flags == old(flags).AfterSlowReceive(stat.hasEof, ok, responseBuf.dataSize > 0,
                                                   parser.firstEom.Some?, connected)
      ensures !stat.hasEof && ok ==> parser.firstEom == Scan(parser.http, old(parser.state), data).first
    {
      data, stat := client.ReadAll(SOCK_IO_BUF_SIZE);
      ok, closed := false, false;
      if stat.hasEof {
        flags, closed := flags.Disarmed(), true;
        return;
      }
      ok := parser.DoParse(data);
      if !ok {
        closed := responseBuf.dataSize == 0;
        flags := if responseBuf.dataSize > 0 then flags.ReplyOnly() else flags.Disarmed();
        return;
      }
      StoreRequest(data, parser.firstEom, requestBuf, requestTmpBuf);
      if parser.firstEom.Some? {
        parser.SwitchToResponseMode();
        flags, closed := flags.(clientRead := false), !connected;
        flags := if connected then flags.(serverRead := true, serverWrite := true) else flags.Disarmed();
      }
    }

    method SlowResponse(server: Socket, parser: HttpParser, responseBuf: FIFOfilebuf)
      returns (data: Bytes, stat: IoStat, ok: bool, complete: bool, closed: bool)
      requires responseBuf.Valid() && responseBuf.reliable
      modifies this, server, parser, responseBuf
      ensures responseBuf.Valid() && server.ReadUpTo(data, stat.hasEof, SOCK_IO_BUF_SIZE)
      ensures responseBuf.readerPos == old(responseBuf.readerPos)
      ensures responseBuf.file.content == old(responseBuf.file.content) + data
      ensures ok <==> Scan(parser.http, old(parser.state), data).Parsed?
      ensures ok ==>
        var p := Scan(parser.http, old(parser.state), data);
        && (complete <==> stat.hasEof || p.last.Some?)
        && parser.state == (if complete then parser.http.toRequest(p.state) else p.state)
      ensures !ok ==> !complete
      ensures closed <==> !ok && responseBuf.file.content == []
      ensures flags == old(flags).AfterSlowResponse(ok, responseBuf.file.content != [], complete)
    {
      data, stat := server.ReadAll(SOCK_IO_BUF_SIZE);
      var n := responseBuf.Store(data);
      var f := flags.(clientWrite := true);
      ok := parser.DoParse(data);
      complete := ok && (stat.hasEof || parser.lastEom.Some?);
      closed := !ok && responseBuf.dataSize == 0;
      if !ok {
        f := if responseBuf.dataSize > 0 then f.ServerGone().ReplyOnly() else f.Disarmed();
      } else if complete {
        parser.SwitchToRequestMode();
        f := f.ServerGone().(clientRead := true);
      }
      flags := f;
    }

    /** One round of fetch, write and, after a short write, rewind by what was not taken. The rewind amount
        is never zero, so it never means the beginning. At the end of the data the two buffers are
        swapped and the old one is cleared. */
    method SlowSend(server: Socket, requestBuf: Filebuf, requestTmpBuf: Filebuf)
      returns (written: nat, done: bool, request': Filebuf, tmp': Filebuf)
      requires requestBuf.Valid() && requestTmpBuf.Valid() && requestBuf != requestTmpBuf
      modifies this, server, requestBuf
      ensures done <==> old(requestBuf.file).AtEnd()
      ensures written <= |old(requestBuf.file).Unread()|
      ensures server.sent == old(server.sent) + old(requestBuf.file).Unread()[..written]
      ensures server.received == old(server.received) && server.readLog == old(server.readLog)
      ensures if done then server.Untouched() else written > 0 || server.Refused(|old(server.writeLog)|)
      ensures !done ==>
        && request' == requestBuf && tmp' == requestTmpBuf
        && requestBuf.file == old(requestBuf.file).(pos := old(requestBuf.file).pos + written)
      ensures done ==> written == 0 && request' == requestTmpBuf && tmp' == requestBuf && tmp'.file == EMPTY_FILE
      ensures flags == old(flags).AfterQueueWrite(done)
    {
      request', tmp', written := requestBuf, requestTmpBuf, 0;
      ghost var unread := requestBuf.file.Unread();
      var data := requestBuf.Fetch(SOCK_IO_BUF_SIZE);
      done := data == [];
      if !done {
        var stat := server.WriteAll(data);
        written := stat.nbytes;
        assert data[..written] == unread[..written];
        if stat.nbytes < |data| {
          var ok := requestBuf.Rewind(|data| - stat.nbytes);
          assert ok;
        }
      } else {
        flags := flags.(serverWrite := false);
        request', tmp' := requestTmpBuf, requestBuf;
        requestBuf.Clear();
      }
    }

    /** The same round for the response buffer, with its own reader. */
    method SlowReply(client: Socket, responseBuf: FIFOfilebuf, parserThere: bool) returns (written: nat, closed: bool)
      requires responseBuf.Valid()
      modifies this, client, responseBuf
      ensures responseBuf.Valid() && responseBuf.file == old(responseBuf.file)
      ensures written <= |old(responseBuf.Unread())|
      ensures client.sent == old(client.sent) + old(responseBuf.Unread())[..written]
      ensures client.received == old(client.received) && client.readLog == old(client.readLog)
      ensures if old(responseBuf.Unread()) == [] then client.Untouched()
              else written > 0 || client.Refused(|old(client.writeLog)|)
      ensures responseBuf.readerPos == old(responseBuf.readerPos) + written
      ensures closed <==> old(responseBuf.Unread()) == [] && !parserThere
      ensures flags == if old(responseBuf.Unread()) != [] then old(flags)
                       else if closed then old(flags).Disarmed() else old(flags).(clientWrite := false)
    {
      written, closed := 0, false;
      ghost var unread := responseBuf.Unread();
      var data := responseBuf.Fetch(SOCK_IO_BUF_SIZE);
      if data != [] {
        var stat := client.WriteAll(data);
        written := stat.nbytes;
        assert data[..written] == unread[..written];
        if stat.nbytes < |data| {
          var ok := responseBuf.Rewind(|data| - stat.nbytes);
          assert ok;
        }
      } else {
        closed := !parserThere;
        flags := if closed then flags.Disarmed() else flags.(clientWrite := false);
      }
    }
  }
}
