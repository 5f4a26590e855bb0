/** Nonblocking sockets and the two loops that drain or fill them (src/ls_proxy.cpp:54-87). */
module Sockets {
  import opened Base

  datatype IoStat = IoStat(nbytes: nat, hasError: bool, hasEof: bool)

  /** What one `read` system call reported. */
  datatype ReadResult = Data(bytes: Bytes) | Eof | Failed {
    predicate Legal(max: nat) {
      Data? ==> 0 < |bytes| <= max
    }
  }

  /** What one `write` system call reported. */
  datatype WriteResult = Took(count: nat) | WouldBlock | Broken

  /** One end of a TCP connection. `received` and `sent` are the ledgers of every byte that crossed it,
      `readLog` and `writeLog` the outcomes of every system call on it; `hardError` is what `errno` says about
      the last call that failed. */
  class Socket {
    ghost var received: Bytes
    ghost var sent: Bytes
    ghost var readLog: seq<ReadResult>
    ghost var writeLog: seq<WriteResult>
    var hardError: bool

    /** The last of the calls after the first `since` found end of file. */
    ghost predicate MetEof(since: nat)
      reads this
    {
      |readLog| > since && readLog[|readLog| - 1].Eof?
    }

    ghost predicate MetError(since: nat)
      reads this
    {
      |readLog| > since && readLog[|readLog| - 1].Failed?
    }

    ghost predicate Refused(since: nat)
      reads this
    {
      |writeLog| > since && !writeLog[|writeLog| - 1].Took?
    }

    ghost predicate Broke(since: nat)
      reads this
    {
      |writeLog| > since && writeLog[|writeLog| - 1].Broken?
    }

    /** Read until `max` bytes arrived or the kernel reported end of file or an error. */
    twostate predicate ReadUpTo(data: Bytes, eof: bool, max: nat)
      reads this
    {
      && received == old(received) + data && |data| <= max
      && (eof <==> MetEof(|old(readLog)|))
      && (|data| < max <==> MetEof(|old(readLog)|) || MetError(|old(readLog)|))
      && old(readLog) <= readLog && sent == old(sent) && writeLog == old(writeLog)
    }

    /** Written until all of `offered` was out or the kernel refused more; `n` bytes went. */
    twostate predicate Wrote(offered: Bytes, n: nat)
      reads this
    {
      && n <= |offered| && sent == old(sent) + offered[..n]
      && (n < |offered| <==> Refused(|old(writeLog)|))
      && old(writeLog) <= writeLog && received == old(received) && readLog == old(readLog)
    }

    twostate predicate Untouched()
      reads this
    {
      received == old(received) && sent == old(sent) && readLog == old(readLog) && writeLog == old(writeLog)
    }

    constructor ()
      ensures received == [] && sent == [] && readLog == [] && writeLog == []
    {
      received, sent, readLog, writeLog, hardError := [], [], [], [], false;
    }

    /** The kernel chooses the outcome. */
    method Read(max: nat) returns (r: ReadResult)
      requires 0 < max
      modifies this
      ensures r.Legal(max)
      ensures received == old(received) + (if r.Data? then r.bytes else [])
      ensures readLog == old(readLog) + [r]
      ensures sent == old(sent) && writeLog == old(writeLog)
    {
      var outcome: ReadResult := *;
      r := if outcome.Legal(max) then outcome else Eof;
      received := received + (if r.Data? then r.bytes else []);
      readLog := readLog + [r];
      if r.Failed? {
        hardError := *;
      }
    }

    /** The kernel accepts a prefix of `data`; nothing accepted is reported as a count of zero or less. */
    method Write(data: Bytes) returns (count: int)
      modifies this
      ensures count <= |data|
      ensures sent == old(sent) + (if count > 0 then data[..count] else [])
      ensures writeLog == old(writeLog) + [if count > 0 then Took(count) else if hardError then Broken else WouldBlock]
      ensures received == old(received) && readLog == old(readLog)
    {
      count := *;
      if count > |data| {
        count := |data|;
      }
      if count <= 0 {
        hardError := *;
      }
      sent := sent + (if count > 0 then data[..count] else []);
      writeLog := writeLog + [if count > 0 then Took(count) else if hardError then Broken else WouldBlock];
    }

    /** Reads until `max` bytes arrived, end of file or an error. */
    method ReadAll(max: nat) returns (data: Bytes, stat: IoStat)
      modifies this
      ensures ReadUpTo(data, stat.hasEof, max) && stat.nbytes == |data|
      ensures stat.hasError <==> MetError(|old(readLog)|)
    {
      data, stat := [], IoStat(0, false, false);
      var stopped := false;
      while |data| < max && !stopped
        invariant |data| <= max && stat.nbytes == 0
        invariant received == old(received) + data && sent == old(sent) && writeLog == old(writeLog)
        invariant old(readLog) <= readLog
        invariant stat.hasEof <==> MetEof(|old(readLog)|)
        invariant stat.hasError <==> MetError(|old(readLog)|)
        invariant stopped <==> stat.hasEof || stat.hasError
        invariant stopped ==> |data| < max
        decreases max - |data|, !stopped
      {
        var r := Read(max - |data|);
        if r.Data? {
          data := data + r.bytes;
        } else {
          stat := if r.Eof? then stat.(hasEof := true) else stat.(hasError := true);
          stopped := true;
        }
      }
      stat := stat.(nbytes := |data|);
    }

    /** Writes until everything is out or the socket refuses: an error is reported exactly when bytes
        are left over. */
    method WriteAll(data: Bytes) returns (stat: IoStat)
      modifies this
      ensures Wrote(data, stat.nbytes)
      ensures stat.hasError <==> stat.nbytes < |data|
      ensures stat.hasError ==> (hardError <==> Broke(|old(writeLog)|))
      ensures !stat.hasEof
    {
      var done, failed := 0, false;
      while done < |data| && !failed
        invariant done <= |data| && old(writeLog) <= writeLog
        invariant sent == old(sent) + data[..done]
        invariant received == old(received) && readLog == old(readLog)
        invariant failed <==> Refused(|old(writeLog)|)
        invariant failed ==> done < |data| && (hardError <==> Broke(|old(writeLog)|))
        decreases |data| - done, !failed
      {
        var count := Write(data[done..]);
        if count > 0 {
          assert data[..done] + data[done..][..count] == data[..done + count];
          done := done + count;
        } else {
          failed := true;
        }
      }
      stat := IoStat(done, failed, false);
    }
  }
}
