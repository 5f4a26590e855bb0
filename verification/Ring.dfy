/** The fast-mode queue: a ring of bytes that never fills its last cell
    (src/buffer.h:123-144, src/buffer.cpp:131-222). */
module Ring {
  import opened Base
  import opened Files
  import opened Sockets
  import opened Copying

  /** The bytes from cell `start` up to cell `end`, going round. */
  ghost function Window(cells: Bytes, start: nat, end: nat): (s: Bytes)
    requires start < |cells| && end < |cells|
    ensures |s| == if start <= end then end - start else |cells| - (start - end)
  {
    if start <= end then cells[start..end] else cells[start..] + cells[..end]
  }

  ghost function Splice(cells: Bytes, at: nat, bytes: Bytes): (s: Bytes)
    requires at + |bytes| <= |cells|
    ensures |s| == |cells|
  {
    cells[..at] + bytes + cells[at + |bytes|..]
  }

  lemma AppendInPlace(cells: Bytes, start: nat, end: nat, bytes: Bytes)
    requires start < |cells| && end + |bytes| < |cells|
    requires end < start ==> end + |bytes| < start
    ensures Window(Splice(cells, end, bytes), start, end + |bytes|) == Window(cells, start, end) + bytes
  {
    SpliceSlices(cells, start, end, bytes);
    if end < start {
      assert Splice(cells, end, bytes)[..end + |bytes|] == cells[..end] + bytes;
    }
  }

  lemma SpliceSlices(cells: Bytes, start: nat, end: nat, bytes: Bytes)
    requires start <= |cells| && end + |bytes| <= |cells|
    ensures start <= end ==> Splice(cells, end, bytes)[start..end + |bytes|] == cells[start..end] + bytes
    ensures end + |bytes| <= start ==> Splice(cells, end, bytes)[start..] == cells[start..]
  {
    var after := Splice(cells, end, bytes);
    forall i | 0 <= i < |cells|
      ensures after[i] == if end <= i < end + |bytes| then bytes[i - end] else cells[i]
    {
    }
  }

  lemma AppendWrapping(cells: Bytes, start: nat, end: nat, right: Bytes, left: Bytes)
    requires start <= end < |cells| && end + |right| == |cells| && |left| < start
    ensures Window(Splice(Splice(cells, end, right), 0, left), start, |left|)
            == Window(cells, start, end) + (right + left)
  {
    var mid := Splice(cells, end, right);
    var after := Splice(mid, 0, left);
    assert after[start..] == mid[start..] == cells[start..end] + right;
    assert after[..|left|] == left;
  }

  lemma DropLinear(cells: Bytes, start: nat, end: nat, n: nat)
    requires start + n <= end < |cells|
    ensures Window(cells, start + n, end) == Window(cells, start, end)[n..]
    ensures cells[start..start + n] == Window(cells, start, end)[..n]
  {
  }

  lemma DropRight(cells: Bytes, start: nat, end: nat, n: nat)
    requires end < start && start + n <= |cells| && start < |cells|
    ensures Window(cells, if start + n < |cells| then start + n else 0, end) == Window(cells, start, end)[n..]
    ensures cells[start..start + n] == Window(cells, start, end)[..n]
  {
    if start + n < |cells| {
      assert cells[start..][n..] == cells[start + n..];
    }
  }

  /** The bytes up to the right end are the head of the window. */
  lemma WroteHead(cells: Bytes, start: nat, end: nat, n: nat, toRightEnd: nat)
    requires end < start < |cells| && n <= toRightEnd == |cells| - start
    ensures toRightEnd <= |Window(cells, start, end)| && |Window(cells, start, end)| == toRightEnd + end
    ensures cells[start..start + n] == Window(cells, start, end)[..n]
  {
  }

  lemma SentInTwo(before: Bytes, w: Bytes, first: nat, n: nat)
    requires first <= n <= |w|
    ensures before + w[..first] + w[first..n] == before + w[..n]
  {
    assert w[..first] + w[first..n] == w[..n];
  }

  lemma DropDrop(w: Bytes, n: nat, m: nat)
    requires n + m <= |w|
    ensures w[..n] + w[n..][..m] == w[..n + m]
    ensures w[n..][m..] == w[n + m..]
  {
  }

  class Circularbuf {
    const data: array<Byte>
    var start: nat
    var end: nat

    ghost var contents: Bytes  // the queued bytes, oldest first

    ghost predicate Valid()
      reads this, data
    {
      && start < data.Length && end < data.Length
      && contents == Window(data[..], start, end)
    }

    function DataSize(): (n: nat)
      requires Valid()
      reads this, data
      ensures n == |contents|
    {
      if start <= end then end - start else data.Length - (start - end)
    }

    function RemainingSpace(): (n: nat)
      requires Valid()
      reads this, data
      ensures n == data.Length - 1 - |contents|
    {
      data.Length - 1 - DataSize()
    }

    constructor (capacity: nat)
      requires capacity >= 1
      ensures Valid() && contents == [] && fresh(data) && data.Length == capacity
    {
      data := new Byte[capacity](_ => 0);
      start, end, contents := 0, 0, [];
    }

    /** Copies `bytes` into the cells from `at` on. */
    method Blit(at: nat, bytes: Bytes)
      requires at + |bytes| <= data.Length
      modifies data
      ensures data[..] == Splice(old(data[..]), at, bytes)
    {
      forall i | 0 <= i < |bytes| {
        data[at + i] := bytes[i];
      }
    }

    method CopyFrom(bytes: Bytes) returns (count: nat)
      requires Valid()
      modifies this, data
      ensures Valid()
      ensures count == Min(|bytes|, data.Length - 1 - |old(contents)|)
      ensures contents == old(contents) + bytes[..count]
    {
      var size := Min(|bytes|, RemainingSpace());
      count := 0;
      if size > 0 {
        if end >= start {
          var toRightEnd := data.Length - end;
          if size < toRightEnd {
            AppendInPlace(data[..], start, end, bytes[..size]);
            Blit(end, bytes[..size]);
            end := end + size;
          } else {
            CopyWrapping(bytes[..toRightEnd], bytes[toRightEnd..size]);
            assert bytes[..toRightEnd] + bytes[toRightEnd..size] == bytes[..size];
            return size;
          }
        } else {
          AppendInPlace(data[..], start, end, bytes[..size]);
          Blit(end, bytes[..size]);
          end := end + size;
        }
        count := size;
        contents := contents + bytes[..size];
      }
    }

    /** Fills the ring up to its right end and goes on at the left. */
    method CopyWrapping(right: Bytes, left: Bytes)
      requires Valid() && start <= end && end + |right| == data.Length && |left| < start
      modifies this, data
      ensures Valid() && contents == old(contents) + (right + left)
    {
      AppendWrapping(data[..], start, end, right, left);
      Blit(end, right);
      end := 0;
      Blit(end, left);
      end := |left|;
      contents := contents + (right + left);
    }

    /** The copy always takes everything that was read. */
    method ReadAllFrom(sock: Socket) returns (stat: IoStat, ghost got: Bytes)
      requires Valid()
      modifies this, data, sock
      ensures Valid() && contents == old(contents) + got
      ensures sock.ReadUpTo(got, stat.hasEof, data.Length - 1 - |old(contents)|) && stat.nbytes == |got|
      ensures stat.hasError <==> sock.MetError(|old(sock.readLog)|)
    {
      var bytes;
      bytes, stat := sock.ReadAll(RemainingSpace());
      got := bytes;
      var count := CopyFrom(bytes);
      assert count == stat.nbytes;
      assert bytes[..count] == bytes;
    }

    /** Writes `n` bytes from the `start` cell on, which must be queued and lie before the last cell. */
    method WriteSegment(sock: Socket, n: nat) returns (stat: IoStat)
      requires Valid() && start + n <= data.Length
      modifies sock
      ensures sock.Wrote(data[start..start + n], stat.nbytes) && !stat.hasEof
      ensures stat.hasError <==> stat.nbytes < n
      ensures stat.hasError ==> (sock.hardError <==> sock.Broke(|old(sock.writeLog)|))
      ensures sock.sent == old(sock.sent) + data[start..start + stat.nbytes]
    {
      stat := sock.WriteAll(data[start..start + n]);
      assert data[start..start + n][..stat.nbytes] == data[start..start + stat.nbytes];
    }

    /** Removes exactly the prefix written, and reports an error exactly when bytes are left. */
    method WriteAllTo(sock: Socket) returns (stat: IoStat)
      requires Valid()
      modifies this, sock
      ensures Valid()
      ensures sock.Wrote(old(contents), stat.nbytes) && contents == old(contents)[stat.nbytes..]
      ensures stat.hasError <==> contents != []
      ensures stat.hasError ==> (sock.hardError <==> sock.Broke(|old(sock.writeLog)|))
      ensures !stat.hasEof
    {
      stat := IoStat(0, false, false);
      if DataSize() > 0 {
        if start > end {
          stat := WriteWrapped(sock);
        } else {
          stat := WriteLinear(sock);
        }
      }
    }

    /** The one-segment case. */
    method WriteLinear(sock: Socket) returns (stat: IoStat)
      requires Valid() && start <= end
      modifies this, sock
      ensures Valid()
      ensures sock.Wrote(old(contents), stat.nbytes) && contents == old(contents)[stat.nbytes..]
      ensures stat.hasError <==> contents != []
      ensures stat.hasError ==> (sock.hardError <==> sock.Broke(|old(sock.writeLog)|))
      ensures !stat.hasEof
    {
      stat := WriteSegment(sock, end - start);
      DropLinear(data[..], start, end, stat.nbytes);
      start := start + stat.nbytes;
      contents := contents[stat.nbytes..];
    }

    /** The two-segment case: the second segment is tried only after the whole of the first. */
    method WriteWrapped(sock: Socket) returns (stat: IoStat)
      requires Valid() && end < start
      modifies this, sock
      ensures Valid()
      ensures sock.Wrote(old(contents), stat.nbytes) && contents == old(contents)[stat.nbytes..]
      ensures stat.hasError <==> contents != []
      ensures stat.hasError ==> (sock.hardError <==> sock.Broke(|old(sock.writeLog)|))
      ensures !stat.hasEof
    {
      ghost var w := contents;
      var toRightEnd := data.Length - start;
      stat := WriteSegment(sock, toRightEnd);
      var whole := stat.nbytes == toRightEnd;
      assert !whole ==> stat.hasError;
      WroteHead(data[..], start, end, stat.nbytes, toRightEnd);
      Skip(stat.nbytes);
      if whole && end > 0 {
        stat := WriteSecond(sock, w, toRightEnd);
        SentInTwo(old(sock.sent), w, toRightEnd, stat.nbytes);
        assert sock.Wrote(w, stat.nbytes);
      } else if whole {
        assert w[..stat.nbytes] == w && contents == [];
      } else {
        assert contents != [];
      }
    }

    /** Takes `n` bytes off, up to the right end, where the start goes back to the first cell. */
    method Skip(n: nat)
      requires Valid() && end < start && start + n <= data.Length
      modifies this`start, this`contents
      ensures Valid() && contents == old(contents)[n..]
      ensures old(start) + n == data.Length ==> start == 0
    {
      DropRight(data[..], start, end, n);
      contents := contents[n..];
      start := if start + n < data.Length then start + n else 0;
    }

    method WriteSecond(sock: Socket, ghost w: Bytes, first: nat) returns (stat: IoStat)
      requires Valid() && start <= end && first <= |w| && contents == w[first..]
      modifies this, sock
      ensures Valid()
      ensures first <= stat.nbytes <= |w| && contents == w[stat.nbytes..]
      ensures w[..first] + w[first..stat.nbytes] == w[..stat.nbytes]
      ensures sock.sent == old(sock.sent) + w[first..stat.nbytes]
      ensures sock.received == old(sock.received) && sock.readLog == old(sock.readLog)
      ensures old(sock.writeLog) <= sock.writeLog && (stat.hasError <==> sock.Refused(|old(sock.writeLog)|))
      ensures stat.hasError <==> contents != []
      ensures stat.hasError ==> (sock.hardError <==> sock.Broke(|old(sock.writeLog)|))
      ensures !stat.hasEof
    {
      stat := WriteLinear(sock);
      DropDrop(w, first, stat.nbytes);
      assert w[first..][..stat.nbytes] == w[first..first + stat.nbytes];
      stat := stat.(nbytes := first + stat.nbytes);
    }

    /** Moves everything queued to the end of `filebuf`, of whatever kind. */
    method DumpTo(filebuf: Buffer)
      requires Valid() && filebuf.Appending() && filebuf.Reliable()
      requires data !in filebuf.Objects()
      modifies this, filebuf.Objects()
      ensures Valid() && contents == []
      ensures filebuf.Appending() && filebuf.Contents() == old(filebuf.Contents()) + old(contents)
      ensures filebuf.Queue? ==> filebuf.q.readerPos == old(filebuf.q.readerPos)
    {
      if DataSize() > 0 {
        if start > end {
          DumpWrapped(filebuf);
        } else {
          filebuf.Store(data[start..end]);
          start := end;
          contents := [];
        }
      }
    }

    method DumpWrapped(filebuf: Buffer)
      requires Valid() && end < start && filebuf.Appending() && filebuf.Reliable()
      requires data !in filebuf.Objects()
      modifies this, filebuf.Objects()
      ensures Valid() && contents == []
      ensures filebuf.Appending() && filebuf.Contents() == old(filebuf.Contents()) + old(contents)
      ensures filebuf.Queue? ==> filebuf.q.readerPos == old(filebuf.q.readerPos)
    {
      ghost var before, right, left := filebuf.Contents(), data[start..], data[..end];
      var size := DataSize() - (data.Length - start);
      filebuf.Store(data[start..]);
      start := 0;
      if size > 0 {
        filebuf.Store(data[..size]);
        start := size;
      }
      assert left == data[..size];
      assert filebuf.Contents() == before + right + left;
      assert before + right + left == before + (right + left);
      contents := [];
    }
  }
}
