/** buffer.c: a byte buffer that reads from the front, appends at the back, compacts in place and
    grows by whole kilobytes.  Its abstract value is the readable stretch. */
module Buffer {
  import opened Bytes

  const EXTRA_BYTES := 4096

  /** What readv did. */
  datatype Readv = Failed | Delivered(chunk: seq<Byte>)

  class Buffer {
    var data: array<Byte>
    var len: nat
    var readIndex: nat
    var writeIndex: nat

    ghost predicate Valid()
      reads this
    {
      len == data.Length && readIndex <= writeIndex <= len
    }

    ghost function Contents(): seq<Byte>
      reads this, data
      requires Valid()
    {
      data[readIndex..writeIndex]
    }

    constructor (size: nat)
      requires size > 0
      ensures Valid() && fresh(data) && len == size && Contents() == []
    {
      data := new Byte[size](_ => 0);
      len, readIndex, writeIndex := size, 0, 0;
    }

    method ReadableBytes() returns (n: nat)
      requires Valid()
      ensures n == |Contents()|
    {
      n := writeIndex - readIndex;
    }

    /** Room for `size` bytes behind the write index, by compacting or by growing. */
    method EnsureSpace(size: nat)
      requires Valid() && size > 0
      modifies this, data
      ensures Valid() && (data == old(data) || fresh(data))
      ensures Contents() == old(Contents())
      ensures len - writeIndex >= size
      ensures old(len - writeIndex >= size) ==> len == old(len) && writeIndex == old(writeIndex)
      ensures len == old(len) || len == old(len) + (size + 1023) / 1024 * 1024
    {
      if len - writeIndex >= size {
        return;
      }
      if len - (writeIndex - readIndex) > size {
        forall i | 0 <= i < writeIndex - readIndex {
          data[i] := data[readIndex + i];
        }
        writeIndex := writeIndex - readIndex;
        readIndex := 0;
      } else {
        var expand := (size + 1023) / 1024 * 1024;
        var moved := new Byte[len + expand];
        forall i | 0 <= i < len {
          moved[i] := data[i];
        }
        data := moved;
        len := len + expand;
      }
    }

    /** memcpy behind the write index, and moving the index. */
    method Store(chunk: seq<Byte>)
      requires Valid() && |chunk| <= len - writeIndex
      modifies `writeIndex, data
      ensures Valid() && Contents() == old(Contents()) + chunk
      ensures writeIndex == old(writeIndex) + |chunk|
    {
      forall i | 0 <= i < |chunk| {
        data[writeIndex + i] := chunk[i];
      }
      assert data[readIndex..writeIndex] == old(Contents());
      assert data[writeIndex..writeIndex + |chunk|] == chunk;
      writeIndex := writeIndex + |chunk|;
    }

    /** buffer_append: an empty chunk is refused. */
    method Append(chunk: seq<Byte>) returns (size: nat)
      requires Valid()
      modifies this, data
      ensures Valid() && (data == old(data) || fresh(data))
      ensures Contents() == old(Contents()) + chunk && size == |chunk|
    {
      if chunk == [] {
        return 0;
      }
      EnsureSpace(|chunk|);
      Store(chunk);
      size := |chunk|;
    }

    /** buffer_readFd: what readv delivers fills the tail of the buffer and spills the rest into a
        local array that is appended afterwards; a failure is passed on and changes nothing. */
    method ReadFd(readv: Readv) returns (n: int)
      requires Valid() && (readv.Delivered? ==> |readv.chunk| <= len - writeIndex + EXTRA_BYTES)
      modifies this, data
      ensures Valid() && (data == old(data) || fresh(data))
      ensures readv.Failed? ==> n == -1 && unchanged(this) && unchanged(data)
      ensures readv.Delivered? ==> n == |readv.chunk| && Contents() == old(Contents()) + readv.chunk
    {
      if readv.Failed? {
        return -1;
      }
      var chunk := readv.chunk;
      n := |chunk|;
      var room := len - writeIndex;
      var first := if n <= room then n else room;
      Store(chunk[..first]);
      if n > room {
        var extra := chunk[room..];
        var size := Append(extra);
        assert chunk == chunk[..first] + extra;
      }
    }

    method Retrieve(size: nat)
      requires Valid() && size <= |Contents()|
      modifies this
      ensures Valid() && data == old(data)
      ensures Contents() == old(Contents())[size..]
    {
      if size < writeIndex - readIndex {
        readIndex := readIndex + size;
      } else {
        readIndex := 0;
        writeIndex := 0;
      }
    }

    method RetrieveAll()
      requires Valid()
      modifies this
      ensures Valid() && data == old(data) && Contents() == []
    {
      readIndex := 0;
      writeIndex := 0;
    }
  }
}
