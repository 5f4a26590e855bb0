/** How each handler changes the mode of a connection, the armed events and the counters. */
module Control {
  import opened Base

  const MIN_DTR: nat := DTR_THRESHOLD * MONITOR_INTERVAL
  const MIN_DOWN: nat := MIN_DOWNLOAD_SPEED * MONITOR_INTERVAL

  /** Mode flags, armed events and counters of a connection, its client and its server. */
  datatype Flags = Flags(
    fastMode: bool, inTransition: bool,
    clientRead: bool, clientWrite: bool, serverRead: bool, serverWrite: bool,
    readCount: nat, writeCount: nat)
  {
    /** Everything disarmed, as by the destructor. */
    function Disarmed(): Flags {
      this.(clientRead := false, clientWrite := false, serverRead := false, serverWrite := false)
    }

    function ReplyOnly(): Flags {
      this.(clientRead := false, clientWrite := true)
    }

    function ServerGone(): Flags {
      this.(serverRead := false, serverWrite := false)
    }

    function AfterRequest(nbytes: nat, ok: bool, replyPending: bool, eof: bool, written: nat): Flags {
      var f := this.(readCount := readCount + nbytes);
      if !ok then (if replyPending then f.ServerGone().ReplyOnly() else f.Disarmed())
      else if eof then f.Disarmed()
      else if written == 0 then f.(clientRead := false, serverWrite := true)
      else f
    }

    function AfterResponse(eof: bool, replyPending: bool, written: nat): Flags {
      var f := this.(writeCount := writeCount + written);
      if eof then (if replyPending then f.ServerGone().ReplyOnly() else f.Disarmed())
      else if written == 0 then f.(serverRead := false, clientWrite := true)
      else f
    }

    /** Too slow in both directions ends the connection; below the threshold in sum ends fast mode. */
    function Verdict(): Verdict {
      if writeCount < MIN_DOWN && readCount < MIN_DOWN then Drop
      else if fastMode && readCount + writeCount < MIN_DTR then Demote
      else Spare
    }

    function ResetCounters(): Flags {
      this.(readCount := 0, writeCount := 0)
    }

    /** `queued`: something waits for the server. */
    function AfterSwitch(running: bool, queued: bool): Flags {
      if running then
        this.(fastMode := false, inTransition := true, clientRead := false, serverRead := true,
              serverWrite := serverWrite || queued)
      else this.(fastMode := false, inTransition := false, clientRead := true)
    }

    function AfterTransition(): Flags {
      this.(inTransition := false, clientRead := true, serverRead := false, serverWrite := false)
    }

    /** `complete`: a whole request is there; `connected`: the server could be reached for it. */
    function AfterSlowReceive(eof: bool, ok: bool, replyPending: bool, complete: bool, connected: bool): Flags {
      if eof then Disarmed()
      else if !ok then (if replyPending then ReplyOnly() else Disarmed())
      else if !complete then this
      else if connected then this.(clientRead := false, serverRead := true, serverWrite := true)
      else Disarmed()
    }

    function AfterQueueWrite(emptied: bool): Flags {
      if emptied then this.(serverWrite := false) else this
    }

    function AfterSlowResponse(ok: bool, replyPending: bool, complete: bool): Flags {
      var f := this.(clientWrite := true);
      if !ok then (if replyPending then f.ServerGone().ReplyOnly() else f.Disarmed())
      else if complete then f.ServerGone().(clientRead := true)
      else f
    }
  }

  /** What the data-rate monitor decides about a connection. */
  datatype Verdict = Drop | Demote | Spare

  const NEW_FLAGS := Flags(true, false, true, false, false, false, COUNTER_INIT, COUNTER_INIT)
}
