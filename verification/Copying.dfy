/** Copying between buffers of any kind (src/buffer.cpp:27-34). */
module Copying {
  import opened Base
  import opened Files
  import opened Hybrid

  /** A buffer of one of the three kinds, with its own `store`, `fetch` and `rewind`. */
  datatype Buffer = Plain(p: Filebuf) | Spilling(h: Hybridbuf) | Queue(q: FIFOfilebuf) {
    ghost function Object(): object {
      match this case Plain(p) => p case Spilling(h) => h case Queue(q) => q
    }

    /** What storing may change. */
    ghost function Objects(): set<object> {
      match this case Plain(p) => {p} case Spilling(h) => {h, h.mem} case Queue(q) => {q}
    }

    predicate Reliable() {
      match this case Plain(p) => p.reliable case Spilling(h) => h.reliable case Queue(q) => q.reliable
    }

    ghost function Contents(): Bytes
      reads Objects()
    {
      match this case Plain(p) => p.file.content case Spilling(h) => h.contents case Queue(q) => q.file.content
    }

    /** Good for fetching. */
    ghost predicate Readable()
      reads Objects()
    {
      match this case Plain(p) => p.Valid() case Spilling(h) => h.Valid() case Queue(q) => q.Readable()
    }

    ghost function Cursor(): (k: nat)
      requires Readable()
      reads Objects()
      ensures k <= |Contents()|
    {
      match this case Plain(p) => p.file.pos case Spilling(h) => h.Cursor() case Queue(q) => q.readerPos
    }

    /** Good for appending: the write position is the end of the data. */
    ghost predicate Appending()
      reads Objects()
    {
      match this
      case Plain(p) => p.Valid() && p.file.AtEnd() && p.dataSize == |p.file.content|
      case Spilling(h) => h.Appending()
      case Queue(q) => q.Valid()
    }

    method Clear()
      requires Spilling? ==> Readable()
      modifies Object()
      ensures Appending() && Contents() == []
    {
      match this
      case Plain(p) => p.Clear();
      case Spilling(h) => h.Clear();
      case Queue(q) => q.Clear();
    }

    method ToStart()
      requires Readable()
      modifies Object()
      ensures Readable() && Contents() == old(Contents()) && Cursor() == 0
      ensures Queue? ==> q.file.pos == 0
    {
      var ok;
      match this
      case Plain(p) => ok := p.Rewind(0);
      case Spilling(h) => ok := h.Rewind(0);
      case Queue(q) => ok := q.Rewind(0);
    }

    method Fetch(max: nat) returns (data: Bytes)
      requires Readable()
      modifies Object()
      ensures Readable() && Contents() == old(Contents())
      ensures old(Cursor()) + |data| == Cursor() && data == Contents()[old(Cursor())..Cursor()]
      ensures data == [] <==> max == 0 || old(Cursor()) == |Contents()|
      ensures Queue? ==> q.file == old(q.file)
    {
      match this
      case Plain(p) => data := p.Fetch(max);
      case Spilling(h) => data := h.Fetch(max);
      case Queue(q) => data := q.Fetch(max);
    }

    method Store(data: Bytes)
      requires Appending() && Reliable()
      modifies Objects()
      ensures Appending() && Contents() == old(Contents()) + data
      ensures Queue? ==> q.readerPos == old(q.readerPos)
    {
      var n;
      match this
      case Plain(p) =>
        WriteAtEnd(p.file, data);
        n := p.Store(data);
      case Spilling(h) => n := h.Store(data);
      case Queue(q) => n := q.Store(data);
    }
  }

  /** `dest` holds what has been fetched from `source`. */
  ghost predicate CopiedSoFar(source: Buffer, dest: Buffer)
    reads source.Objects(), dest.Objects()
  {
    && source.Readable() && dest.Appending()
    && dest.Contents() == source.Contents()[..source.Cursor()]
  }

  lemma Grows(all: Bytes, k: nat, n: nat)
    requires k + n <= |all|
    ensures all[..k] + all[k..k + n] == all[..k + n]
  {
  }

  method StoreBeside(source: Buffer, dest: Buffer, data: Bytes)
    requires source.Objects() !! dest.Objects() && dest.Reliable() && source.Readable() && dest.Appending()
    modifies dest.Objects()
    ensures dest.Appending() && dest.Contents() == old(dest.Contents()) + data
    ensures source.Readable() && source.Contents() == old(source.Contents())
    ensures source.Cursor() == old(source.Cursor()) && (source.Queue? ==> source.q.file == old(source.q.file))
  {
    dest.Store(data);
  }

  method CopyChunk(source: Buffer, dest: Buffer) returns (more: bool)
    requires source.Objects() !! dest.Objects() && dest.Reliable()
    requires CopiedSoFar(source, dest)
    modifies source.Object(), dest.Objects()
    ensures CopiedSoFar(source, dest) && source.Contents() == old(source.Contents())
    ensures if more then source.Cursor() > old(source.Cursor()) else source.Cursor() == |source.Contents()|
    ensures source.Queue? ==> source.q.file == old(source.q.file)
  {
    ghost var all, k := source.Contents(), source.Cursor();
    var data := source.Fetch(SOCK_IO_BUF_SIZE);
    more := data != [];
    if more {
      assert dest.Appending() && dest.Contents() == all[..k];
      Grows(all, k, |data|);
      StoreBeside(source, dest, data);
    }
  }

  /** Copies whatever `source` holds, fetch by fetch, over the contents of `dest`, whatever counts the
      fetches return, and leaves `dest` ready for appending. The unread bytes of `source` are the measure.
      A queue as source ends with its writer at the start. */
  method CopyData(source: Buffer, dest: Buffer)
    requires source.Objects() !! dest.Objects()
    requires source.Readable() && dest.Reliable() && (dest.Spilling? ==> dest.Readable())
    modifies source.Object(), dest.Objects()
    ensures source.Readable() && source.Contents() == old(source.Contents())
    ensures source.Cursor() == |source.Contents()|
    ensures dest.Appending() && dest.Contents() == source.Contents()
    ensures source.Queue? ==> source.q.file.pos == 0
  {
    dest.Clear();
    source.ToStart();
    var more := true;
    while more
      invariant CopiedSoFar(source, dest) && source.Contents() == old(source.Contents())
      invariant !more ==> source.Cursor() == |source.Contents()|
      invariant source.Queue? ==> source.q.file.pos == 0
      decreases |source.Contents()| - source.Cursor(), more
    {
      more := CopyChunk(source, dest);
    }
    assert source.Contents()[..|source.Contents()|] == source.Contents();
  }
}
