/** The history buffer: memory first, then a file (src/buffer.h:57-81, src/buffer.cpp:56-113). */
module Hybrid {
  import opened Base
  import opened Files

  const TWO_32: nat := 0x1_0000_0000
  const TWO_64: nat := 0x1_0000_0000_0000_0000

  /** Where a Hybridbuf stands: `nextPos` in memory, `filePos` in the file. */
  datatype Place = Place(capacity: nat, dataSize: nat, nextPos: nat, filePos: nat) {
    predicate Valid() {
      && capacity < TWO_32 && dataSize < TWO_64
      && nextPos <= Min(dataSize, capacity)
      && filePos <= dataSize - Min(dataSize, capacity)
      && (nextPos < Min(dataSize, capacity) ==> filePos == 0)
    }

    /** The cursor in the stored bytes, wherever they lie. */
    function Logical(): nat {
      nextPos + filePos
    }

    /** 32-bit subtraction; an amount of zero means to the start. */
    function BufRewind(amount: nat): Place {
      this.(nextPos := (nextPos - (if amount == 0 then nextPos else amount)) % TWO_32)
    }

    /** None stands for the failed seek that ends the process. */
    function FileRewind(amount: nat): Option<Place> {
      if amount == 0 then Some(this.(filePos := 0))
      else if amount <= filePos then Some(this.(filePos := filePos - amount))
      else None
    }

    /** The arithmetic of the source: a 64-bit offset from the end of the data, and a 32-bit distance
        from the memory cursor. */
    function Rewind(amount: nat): Option<Place> {
      if amount == 0 then
        Some(FileRewind(0).value.BufRewind(0))
      else
        var offset := (dataSize - amount) % TWO_64;
        if offset < capacity then
          Some(FileRewind(0).value.BufRewind((nextPos - offset) % TWO_64 % TWO_32))
        else
          FileRewind(amount)
    }
  }

  lemma WrappedRewind(next: nat, offset: nat)
    requires next < TWO_32 && offset < TWO_32
    ensures var amount := (next - offset) % TWO_64 % TWO_32;
            && (amount == 0 <==> next == offset)
            && (next - amount) % TWO_32 == offset
  {
    if next >= offset {
      assert (next - offset) % TWO_64 == next - offset;
    } else {
      assert (next - offset) % TWO_64 == next - offset + TWO_64;
      assert TWO_64 == TWO_32 * TWO_32;
      assert (next - offset + TWO_64) % TWO_32 == next - offset + TWO_32 by {
        assert next - offset + TWO_64 == (TWO_32 - 1) * TWO_32 + (next - offset + TWO_32);
      }
      assert (offset - TWO_32) % TWO_32 == offset;
    }
  }

  /** What a partial rewind does from any cursor: inside memory it lands at `dataSize - amount`, or at
      the very start when the memory cursor already stands there. */
  lemma RewindLands(p: Place, amount: nat)
    requires p.Valid() && 1 <= amount <= p.dataSize
    ensures var offset := p.dataSize - amount;
            p.Rewind(amount) ==
              if offset < p.capacity then
                Some(p.(nextPos := if p.nextPos == offset then 0 else offset, filePos := 0))
              else if amount <= p.filePos then Some(p.(filePos := p.filePos - amount))
              else None
  {
    var offset := p.dataSize - amount;
    assert offset % TWO_64 == offset;
    if offset < p.capacity {
      WrappedRewind(p.nextPos, offset);
      var distance := (p.nextPos - offset) % TWO_64 % TWO_32;
      if distance == 0 {
        assert (p.nextPos - p.nextPos) % TWO_32 == 0;
      }
    }
  }

  /** With the cursor at the end of the data the rewind is exact on either side of the boundary. */
  lemma RewindFromEnd(p: Place, amount: nat)
    requires p.Valid() && p.Logical() == p.dataSize && 1 <= amount <= p.dataSize
    ensures p.Rewind(amount).Some?
    ensures p.Rewind(amount).value.Valid()
    ensures p.Rewind(amount).value.Logical() == p.dataSize - amount
  {
    RewindLands(p, amount);
  }

  ghost predicate ExactRewind(p: Place, amount: nat)
    requires amount <= p.Logical()
  {
    p.Rewind(amount).Some? && p.Rewind(amount).value.Logical() == p.Logical() - amount
  }

  /** Exactly when `rewind(amount)` goes back by `amount`, from any cursor: at the end of the data,
      when the target lies in the file, or in the one coincidence where the accidental jump to the
      start happens to be right. */
  lemma RewindExactIff(p: Place, amount: nat)
    requires p.Valid() && 1 <= amount <= p.Logical()
    ensures ExactRewind(p, amount) <==>
            || p.Logical() == p.dataSize
            || p.Logical() - amount >= p.capacity
            || (p.Logical() == amount && p.dataSize == 2 * amount && amount < p.capacity)
  {
    RewindLands(p, amount);
  }

  /** Ten bytes in memory, cursor at 6, rewind by 4: the code jumps to the start. */
  lemma RewindMidwayMisses()
    ensures var p := Place(HIST_CACHE_SIZE, 10, 6, 0);
            p.Valid() && p.Rewind(4).Some? && p.Rewind(4).value.Logical() == 0 != p.Logical() - 4
  {
    RewindLands(Place(HIST_CACHE_SIZE, 10, 6, 0), 4);
  }

  /** Exactly when a rewind stays among the reachable places, for every amount a caller can pass. Beyond
      all the data it fails, unless the 64-bit offset wraps back into memory: then the memory cursor
      ends up past the bytes held there. */
  lemma RewindStaysValidIff(p: Place, amount: nat)
    requires p.Valid() && amount < TWO_64
    ensures p.Rewind(amount).Some? <==>
            || amount <= p.filePos
            || (p.dataSize < p.capacity + amount && amount <= p.dataSize)
            || amount > p.dataSize + TWO_64 - p.capacity
    ensures p.Rewind(amount).Some? ==>
            (p.Rewind(amount).value.Valid() <==> amount <= p.dataSize + TWO_64 - p.capacity)
  {
    if amount == 0 {
      assert (p.nextPos - p.nextPos) % TWO_32 == 0;
    } else if amount <= p.dataSize {
      RewindLands(p, amount);
    } else {
      RewindBeyond(p, amount);
    }
  }

  lemma RewindBeyond(p: Place, amount: nat)
    requires p.Valid() && p.dataSize < amount < TWO_64
    ensures p.Rewind(amount)
            == if amount > p.dataSize + TWO_64 - p.capacity
               then Some(p.(nextPos := p.dataSize - amount + TWO_64, filePos := 0)) else None
  {
    var offset := p.dataSize - amount + TWO_64;
    assert (p.dataSize - amount) % TWO_64 == offset;
    if offset < p.capacity {
      WrappedRewind(p.nextPos, offset);
    }
  }

  class Hybridbuf {
    const reliable: bool
    const mem: array<Byte>
    var nextPos: nat
    var dataSize: nat
    var file: File
    ghost var contents: Bytes  // everything stored

    ghost function At(): Place
      reads this
    {
      Place(mem.Length, dataSize, nextPos, file.pos)
    }

    /** The memory cursor never passes the bytes held in memory, so the unsigned subtraction that
        computes the unread memory never wraps. */
    ghost predicate Valid()
      reads this, mem
    {
      && mem.Length < TWO_32
      && nextPos <= Min(dataSize, mem.Length)
      && |file.content| == dataSize - Min(dataSize, mem.Length)
      && file.Valid()
      && (nextPos < Min(dataSize, mem.Length) ==> file.pos == 0)
      && contents == mem[..Min(dataSize, mem.Length)] + file.content
    }

    ghost function Cursor(): (k: nat)
      requires Valid()
      reads this, mem
      ensures k <= dataSize == |contents|
    {
      nextPos + file.pos
    }

    ghost predicate Appending()
      reads this, mem
    {
      Valid() && Cursor() == dataSize
    }

    constructor (capacity: nat, reliable: bool)
      requires capacity < TWO_32
      ensures Appending() && contents == [] && fresh(mem)
      ensures this.reliable == reliable && mem.Length == capacity
    {
      this.reliable := reliable;
      mem := new Byte[capacity](_ => 0);
      nextPos, dataSize, file, contents := 0, 0, EMPTY_FILE, [];
    }

    method Clear()
      requires Valid()
      modifies this
      ensures Appending() && contents == []
    {
      dataSize := 0;
      file := File([], file.pos);
      file := File([], 0);
      nextPos := 0;
      contents := [];
    }

    /** The header asks that content be cleared before storing: a store finds the cursor at the end. */
    method Store(data: Bytes) returns (stored: nat)
      requires Appending()
      modifies this, mem
      ensures Appending() && stored <= |data|
      ensures contents == old(contents) + data[..stored]
      ensures reliable ==> stored == |data| && contents == old(contents) + data
    {
      stored := BufWrite(data);
      if stored < |data| {
        ghost var count := stored;
        var written := Spill(data[stored..]);
        stored := stored + written;
        assert data[..count] + data[count..][..written] == data[..stored];
      }
      assert data[..|data|] == data;
    }

    method Spill(data: Bytes) returns (written: nat)
      requires Appending() && nextPos == mem.Length
      modifies this
      ensures Appending() && written <= |data|
      ensures contents == old(contents) + data[..written]
      ensures reliable ==> written == |data|
    {
      ghost var file0 := file;
      var tries, ended;
      file, written, tries, ended := FileWrite(file, data, reliable);
      WriteAtEnd(file0, data[..written]);
      dataSize := dataSize + written;
      contents := contents + data[..written];
    }

    method BufWrite(data: Bytes) returns (count: nat)
      requires Appending()
      modifies this, mem
      ensures Appending() && file == old(file) && count <= |data|
      ensures contents == old(contents) + data[..count]
      ensures count < |data| ==> nextPos == mem.Length
    {
      count := 0;
      if nextPos < mem.Length {
        ghost var held := mem[..nextPos];
        count := Min(|data|, mem.Length - nextPos);
        forall i | 0 <= i < count {
          mem[nextPos + i] := data[i];
        }
        assert mem[..nextPos] == held;
        assert mem[nextPos..nextPos + count] == data[..count];
        nextPos := nextPos + count;
        dataSize := dataSize + count;
        assert mem[..nextPos] == held + data[..count];
        contents := contents + data[..count];
      }
    }

    /** Fetches never mix memory and file, and return nothing only at the end of the data. */
    method Fetch(max: nat) returns (data: Bytes)
      requires Valid()
      modifies this
      ensures Valid() && contents == old(contents) && dataSize == old(dataSize)
      ensures |data| <= max && old(Cursor()) + |data| == Cursor() <= dataSize
      ensures data == contents[old(Cursor())..Cursor()]
      ensures data == [] <==> max == 0 || old(Cursor()) == dataSize
    {
      var unread := Min(dataSize, mem.Length) - nextPos;
      data := [];
      if unread > 0 {
        var count := Min(unread, max);
        data := mem[nextPos..nextPos + count];
        nextPos := nextPos + count;
      }
      if data == [] {
        data := FileRead(file.content, file.pos, max);
        file := file.(pos := file.pos + |data|);
      }
    }

    /** An amount far beyond the data may wrap, and leave the cursor past the bytes in memory. */
    method Rewind(amount: nat) returns (ok: bool)
      requires Valid() && amount < TWO_64 && (amount > 0 ==> dataSize < TWO_64)
      modifies this
      ensures contents == old(contents)
      ensures ok == old(At()).Rewind(amount).Some?
      ensures At() == if ok then old(At()).Rewind(amount).value else old(At())
      ensures !ok || amount <= dataSize + TWO_64 - mem.Length <==> Valid()
      ensures amount == 0 ==> ok && Cursor() == 0
    {
      if amount == 0 {
        file := file.(pos := 0);
        nextPos := 0;
        ok := true;
      } else {
        RewindStaysValidIff(At(), amount);
        ok := RewindBy(amount);
        assert Valid() <==> At().Valid();
      }
    }

    method RewindBy(amount: nat) returns (ok: bool)
      requires file.Valid() && amount > 0
      modifies this
      ensures contents == old(contents) && file.content == old(file.content) && file.Valid()
      ensures ok == old(At()).Rewind(amount).Some?
      ensures At() == if ok then old(At()).Rewind(amount).value else old(At())
    {
      var offset := (dataSize - amount) % TWO_64;
      if offset < mem.Length {
        file := file.(pos := 0);
        var distance := (nextPos - offset) % TWO_64 % TWO_32;
        nextPos := (nextPos - (if distance == 0 then nextPos else distance)) % TWO_32;
        ok := true;
      } else if amount <= file.pos {
        file := file.(pos := file.pos - amount);
        ok := true;
      } else {
        ok := false;
      }
    }
  }
}
