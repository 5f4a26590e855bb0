/** Buffers kept in temporary files (src/buffer.h:9-117, src/buffer.cpp:4-127). */
module Files {
  import opened Base

  /** An open temporary file: its bytes and the offset of one descriptor. */
  datatype File = File(content: Bytes, pos: nat) {
    predicate Valid() {
      pos <= |content|
    }

    /** `write(2)` overwrites from the offset on and extends the file at its end. */
    function Write(data: Bytes): (f: File)
      requires Valid()
      ensures f.Valid()
    {
      File(content[..pos] + data + content[Min(pos + |data|, |content|)..], pos + |data|)
    }

    function Unread(): Bytes
      requires Valid()
    {
      content[pos..]
    }

    predicate AtEnd() {
      pos == |content|
    }
  }

  const EMPTY_FILE := File([], 0)

  /** Writing `data` where `gone` was. */
  lemma WriteOver(x: Bytes, gone: Bytes, t: Bytes, data: Bytes)
    requires |gone| == |data| || (|gone| <= |data| && t == [])
    ensures File(x + gone + t, |x|).Write(data) == File(x + data + t, |x| + |data|)
  {
    var content := x + gone + t;
    assert content[..|x|] == x;
    assert content[Min(|x| + |data|, |content|)..] == t;
  }

  lemma Cut4(content: Bytes, i: nat, j: nat, k: nat)
    requires i <= j <= k <= |content|
    ensures content == content[..i] + (content[i..j] + content[j..k]) + content[k..]
  {
  }

  /** Two writes in a row are one: `first` and `second` are what they replace. */
  lemma WriteTwice(x: Bytes, first: Bytes, second: Bytes, t: Bytes, a: Bytes, b: Bytes)
    requires |first| == |a| || (|first| <= |a| && second == t == [])
    requires |second| == |b| || (|second| <= |b| && t == [])
    ensures File(x + (first + second) + t, |x|).Write(a).Write(b) == File(x + (first + second) + t, |x|).Write(a + b)
  {
    Assoc4(x, first, second, t);
    WriteOver(x, first, second + t, a);
    Assoc4(x, a, second, t);
    WriteOver(x + a, second, t, b);
    Assoc4(x, a, b, t);
    WriteOver(x, first + second, t, a + b);
  }

  lemma Assoc4(x: Bytes, a: Bytes, b: Bytes, t: Bytes)
    ensures x + (a + b) + t == x + a + (b + t) == (x + a) + b + t
  {
  }

  lemma WriteWrite(f: File, a: Bytes, b: Bytes)
    requires f.Valid()
    ensures f.Write(a).Write(b) == f.Write(a + b)
  {
    var i := Min(f.pos + |a|, |f.content|);
    var j := Min(i + |b|, |f.content|);
    Cut4(f.content, f.pos, i, j);
    WriteTwice(f.content[..f.pos], f.content[f.pos..i], f.content[i..j], f.content[j..], a, b);
  }

  lemma WriteAtEnd(f: File, a: Bytes)
    requires f.Valid() && f.AtEnd()
    ensures f.Write(a).content == f.content + a && f.Write(a).AtEnd()
  {
    assert f.content[..f.pos] == f.content;
  }

  lemma Joined(data: Bytes, i: nat, j: nat)
    requires i <= j <= |data|
    ensures data[..i] + data[i..j] == data[..j]
  {
  }

  lemma WriteNothing(f: File)
    requires f.Valid()
    ensures f.Write([]) == f
  {
    assert f.content[..f.pos] + [] + f.content[f.pos..] == f.content;
  }

  /** The write loop: at most ten tries, each of which may be short or interrupted; `ended` tells that a
      hard error ended the process. What it writes is always a prefix, bytes are given up only after the
      tenth try, and on a disk that completes its writes everything is written. */
  method FileWrite(f: File, data: Bytes, reliable: bool) returns (f': File, written: nat, tries: nat, ended: bool)
    requires f.Valid()
    ensures written <= |data| && tries <= 10
    ensures f' == f.Write(data[..written])
    ensures written < |data| && !ended ==> tries == 10
    ensures ended ==> written < |data|
    ensures reliable ==> written == |data|
  {
    f', written, tries, ended := f, 0, 0, false;
    WriteNothing(f);
    assert data[..0] == [];
    while tries < 10 && written < |data| && !ended
      invariant written <= |data| && tries <= 10
      invariant f' == f.Write(data[..written])
      invariant ended ==> written < |data| && !reliable
      invariant reliable && tries > 0 ==> written == |data|
      decreases 10 - tries
    {
      f', written, ended := TryOnce(f', written, data, reliable, f);
      tries := tries + 1;
    }
  }

  /** One try; `start` is the file before the first. */
  method TryOnce(f: File, done: nat, data: Bytes, reliable: bool, ghost start: File)
    returns (f': File, written: nat, ended: bool)
    requires start.Valid() && done < |data| && f == start.Write(data[..done])
    ensures done <= written <= |data| && f' == start.Write(data[..written])
    ensures ended ==> written < |data|
    ensures reliable ==> written == |data|
  {
    var count;
    count, ended := TryWrite(|data| - done, reliable);
    written := done + count;
    var next := data[done..written];
    WriteWrite(start, data[..done], next);
    Joined(data, done, written);
    f' := f.Write(next);
  }

  /** The kernel's answer to one `write(2)` of `size` bytes: how many it took, or that it took none and
      whether the error is a hard one. */
  method TryWrite(size: nat, reliable: bool) returns (count: nat, ended: bool)
    requires size > 0
    ensures count <= size && (ended ==> count == 0) && (reliable ==> count == size)
  {
    var answer: int := *;
    ended := *;
    count := if reliable || answer > size then size else if answer > 0 then answer else 0;
    ended := ended && count == 0;
  }

  /** `read(2)` on a regular file: nothing only at the end or when nothing was asked for. */
  method FileRead(content: Bytes, pos: nat, max: nat) returns (data: Bytes)
    requires pos <= |content|
    ensures pos + |data| <= |content| && |data| <= max
    ensures data == content[pos..pos + |data|]
    ensures data == [] <==> max == 0 || pos == |content|
  {
    var count: int := *;
    var limit := Min(max, |content| - pos);
    if count <= 0 || limit < count {
      count := limit;
    }
    data := content[pos..pos + count];
  }

  class Filebuf {
    const reliable: bool
    var file: File
    var dataSize: nat

    ghost predicate Valid()
      reads this
    {
      file.Valid()
    }

    constructor (reliable: bool)
      ensures Valid() && this.reliable == reliable
      ensures file == EMPTY_FILE && dataSize == 0
    {
      this.reliable, file, dataSize := reliable, EMPTY_FILE, 0;
    }

    method Clear()
      modifies this
      ensures Valid() && file == EMPTY_FILE && dataSize == 0
    {
      dataSize := 0;
      file := EMPTY_FILE;
    }

    method Store(data: Bytes) returns (stored: nat)
      requires Valid()
      modifies this
      ensures Valid() && stored <= |data|
      ensures file == old(file).Write(data[..stored])
      ensures dataSize == old(dataSize) + stored
      ensures reliable ==> stored == |data| && file == old(file).Write(data)
    {
      var tries, ended;
      file, stored, tries, ended := FileWrite(file, data, reliable);
      assert data[..|data|] == data;
      dataSize := dataSize + stored;
    }

    method Fetch(max: nat) returns (data: Bytes)
      requires Valid()
      modifies this
      ensures Valid() && |data| <= max && |data| <= |old(file).Unread()|
      ensures data == old(file).Unread()[..|data|]
      ensures file == old(file).(pos := old(file).pos + |data|) && dataSize == old(dataSize)
      ensures data == [] <==> max == 0 || old(file).AtEnd()
    {
      data := FileRead(file.content, file.pos, max);
      file := file.(pos := file.pos + |data|);
    }

    /** Zero means to the beginning. `ok` is false where the failed seek ends the process. */
    method Rewind(amount: nat) returns (ok: bool)
      requires Valid()
      modifies this
      ensures Valid() && dataSize == old(dataSize)
      ensures ok <==> amount <= old(file).pos
      ensures file == if !ok then old(file)
                      else old(file).(pos := if amount == 0 then 0 else old(file).pos - amount)
    {
      ok := amount <= file.pos;
      if ok {
        file := file.(pos := if amount == 0 then 0 else file.pos - amount);
      }
    }
  }

  /** One file, a writer descriptor and a reader descriptor. */
  class FIFOfilebuf {
    const reliable: bool
    var file: File
    var readerPos: nat
    var dataSize: nat

    /** The reader trails the writer, and the writer stands at the end of the data. */
    ghost predicate Valid()
      reads this
    {
      readerPos <= file.pos == |file.content| == dataSize
    }

    /** Fetching does not need the writer at the end. */
    ghost predicate Readable()
      reads this
    {
      readerPos <= |file.content|
    }

    ghost function Unread(): Bytes
      requires Readable()
      reads this
    {
      file.content[readerPos..]
    }

    constructor (reliable: bool)
      ensures Valid() && this.reliable == reliable
      ensures file == EMPTY_FILE && readerPos == 0
    {
      this.reliable, file, readerPos, dataSize := reliable, EMPTY_FILE, 0, 0;
    }

    method Clear()
      modifies this
      ensures Valid() && file == EMPTY_FILE && readerPos == 0
    {
      dataSize := 0;
      file, readerPos := EMPTY_FILE, 0;
    }

    method Store(data: Bytes) returns (stored: nat)
      requires Valid()
      modifies this
      ensures Valid() && stored <= |data| && readerPos == old(readerPos)
      ensures file.content == old(file.content) + data[..stored]
      ensures reliable ==> stored == |data| && file.content == old(file.content) + data
    {
      WriteAtEnd(file, data);
      var before := file;
      var tries, ended;
      file, stored, tries, ended := FileWrite(file, data, reliable);
      WriteAtEnd(before, data[..stored]);
      assert data[..|data|] == data;
      dataSize := dataSize + stored;
    }

    method Fetch(max: nat) returns (data: Bytes)
      requires Readable()
      modifies this
      ensures Readable() && file == old(file) && dataSize == old(dataSize) && |data| <= max
      ensures readerPos == old(readerPos) + |data|
      ensures data == old(Unread())[..|data|]
      ensures data == [] <==> max == 0 || old(Unread()) == []
    {
      data := FileRead(file.content, readerPos, max);
      readerPos := readerPos + |data|;
    }

    /** A positive amount moves only the reader. Zero sends both descriptors to the beginning, so the
        next store would overwrite: callers never compute a zero. */
    method Rewind(amount: nat) returns (ok: bool)
      modifies this
      ensures ok <==> amount <= old(readerPos)
      ensures ok && amount > 0 ==> file == old(file) && readerPos == old(readerPos) - amount
      ensures ok && amount == 0 ==> readerPos == 0 && file == File(old(file.content), 0)
      ensures dataSize == old(dataSize)
    {
      ok := amount <= readerPos;
      if ok {
        readerPos := if amount == 0 then 0 else readerPos - amount;
        file := if amount == 0 then file.(pos := 0) else file;
      }
    }
  }
}
