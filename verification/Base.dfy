/** Vocabulary shared by every module: bytes, options and the tunable constants of the proxy. */
module Base {
  type Byte = bv8
  type Bytes = seq<Byte>

  datatype Option<+T> = None | Some(value: T) {
    function GetOr(default: T): T {
      if Some? then value else default
    }
  }

  function Min(x: nat, y: nat): nat {
    if x <= y then x else y
  }

  const MAX_CONNECTION: nat := 65536
  const MAX_HYBRID_POOL: nat := MAX_CONNECTION / 4
  const SOCK_IO_BUF_SIZE: nat := 10 * 1024
  const HIST_CACHE_SIZE: nat := 8 * 1024
  const MONITOR_INTERVAL: nat := 10
  const DTR_THRESHOLD: nat := 2 * 1024
  const MIN_DOWNLOAD_SPEED: nat := 100
  const COUNTER_INIT: nat := (DTR_THRESHOLD + MIN_DOWNLOAD_SPEED) * MONITOR_INTERVAL
}
