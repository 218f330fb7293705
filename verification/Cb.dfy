/** The checked byte ring of cb.h, which also gives out its linear parts. */
module Cb {
  import opened Memory
  import opened Ring

  class CircularBuffer {
    const buffer: array<uint8>
    const size: int
    var write: int
    var read: int
    var end: bool

    ghost predicate Valid()
      reads this
    {
      && 0 < size <= INT_MAX && buffer.Length == size
      && 0 <= write < size && 0 <= read < size
    }

    /** The queued bytes, oldest first. */
    ghost function Contents(): (q: seq<uint8>)
      reads this, buffer
      requires Valid()
      ensures |q| == Used(write, read, size)
    {
      Queue(buffer[..], size, write, read)
    }

    /** cb_malloc. */
    constructor (size: int)
      requires 0 < size <= INT_MAX
      ensures Valid() && Contents() == [] && fresh(buffer) && this.size == size && !end
    {
      this.size := size;
      buffer := new uint8[size];
      write, read, end := 0, 0, false;
    }

    /** cb_malloc: refused without a size or the memory for it. */
    static method New(size: nat, outOfMemory: bool) returns (cb: CircularBuffer?)
      requires size <= INT_MAX
      ensures cb == null <==> size == 0 || outOfMemory
      ensures cb != null ==> fresh(cb) && fresh(cb.buffer) && cb.Valid() && cb.Contents() == []
      ensures cb != null ==> cb.size == size && !cb.end
    {
      if size == 0 || outOfMemory {
        return null;
      }
      cb := new CircularBuffer(size);
    }

    method Flush()
      requires Valid()
      modifies this
      ensures Valid() && Contents() == [] && !end
    {
      write, read, end := 0, 0, false;
    }

    function GetUsed(): (used: int)
      reads this, buffer
      requires Valid()
      ensures used == |Contents()| < size
    {
      UsedOf(write, read, size)
    }

    function GetFree(): (free: int)
      reads this, buffer
      requires Valid()
      ensures free == size - 1 - |Contents()| >= 0
    {
      Max(0, FreeOf(write, read, size) - 1)
    }

    /** cb_get_used_continuous: the longest front of the queue that is linear in memory. */
    method GetUsedContinuous() returns (used: int)
      requires Valid()
      ensures 0 <= used <= |Contents()| && read + used <= size
      ensures buffer[read..read + used] == Contents()[..used]
      ensures used == |Contents()| || read + used == size
    {
      FrontPieces(buffer[..], write, read, if read <= write then write - read else size - read);
      if read <= write {
        return write - read;
      }
      return size - read;
    }

    /** cb_get_free_continuous: the longest linear run behind the queue that may be written. */
    method GetFreeContinuous() returns (free: int)
      requires Valid()
      ensures 0 <= free <= size - 1 - |Contents()| && write + free <= size
      ensures free == size - 1 - |Contents()| || write + free == size
    {
      if read <= write {
        free := size - write;
        if read == 0 {
          free := free - 1;
        }
      } else {
        free := read - write - 1;
      }
      if free < 0 {
        free := 0;
      }
    }

    /** cb_read: all of it or nothing. */
    method Read(dst: array<uint8>, count: nat) returns (failed: bool)
      requires Valid() && dst != buffer && count <= dst.Length
      modifies this`read, dst
      ensures Valid() && (failed <==> |old(Contents())| < count)
      ensures failed ==> Contents() == old(Contents()) && dst[..] == old(dst[..])
      ensures !failed ==> old(Contents()) == dst[..count] + Contents()
      ensures !failed ==> dst[count..] == old(dst[count..])
    {
      if GetUsed() < count {
        return true;
      }
      SkipDequeues(buffer[..], size, write, read, count);
      CopyOut(buffer, write, read, dst, count);
      assert dst[..count] == Contents()[..count];
      read := Advance(read, count, size);
      return false;
    }

    /** cb_peek. */
    method Peek(offset: nat) returns (b: uint8)
      requires Valid() && offset < |Contents()|
      ensures b == Contents()[offset]
    {
      var at := read + offset;
      if at >= size {
        at := at - size;
      }
      b := buffer[at];
    }

    /** cb_skip_read. */
    method SkipRead(count: nat) returns (failed: bool)
      requires Valid()
      modifies this`read
      ensures Valid() && (failed <==> |old(Contents())| < count)
      ensures Contents() == if failed then old(Contents()) else old(Contents())[count..]
    {
      if GetUsed() < count {
        return true;
      }
      SkipDequeues(buffer[..], size, write, read, count);
      read := read + count;
      if read >= size {
        read := read - size;
      }
      return false;
    }

    /** cb_write: all of it or nothing. */
    method Write(src: seq<uint8>) returns (failed: bool)
      requires Valid()
      modifies this`write, buffer
      ensures Valid() && (failed <==> size - 1 - |old(Contents())| < |src|)
      ensures Contents() == if failed then old(Contents()) else old(Contents()) + src
    {
      if GetFree() < |src| {
        return true;
      }
      PutEnqueues(buffer[..], write, read, src);
      CopyIn(buffer, write, src);
      write := Advance(write, |src|, size);
      return false;
    }

    /** cb_skip_write: what lies behind the queue becomes part of it. */
    method SkipWrite(count: nat) returns (failed: bool)
      requires Valid()
      modifies this`write
      ensures Valid() && (failed <==> size - 1 - |old(Contents())| < count)
      ensures failed ==> Contents() == old(Contents())
      ensures !failed ==>
        Contents() == old(Contents()) + old(Window(buffer[..], size, write, count))
    {
      if GetFree() < count {
        return true;
      }
      ghost var behind := Window(buffer[..], size, write, count);
      PutEnqueues(buffer[..], write, read, behind);
      PutNothing(buffer[..], write, count);
      write := write + count;
      if write >= size {
        write := write - size;
      }
      return false;
    }
  }

  /** Writing in place: bytes stored at the write pointer, as many as the linear free run takes, and then
      skipped over, are queued like a write of them. */
  method WriteInPlace(cb: CircularBuffer, src: seq<uint8>) returns (failed: bool)
    requires cb.Valid()
    modifies cb`write, cb.buffer
    ensures cb.Valid() && (!failed ==> cb.Contents() == old(cb.Contents()) + src)
    ensures failed ==> cb.Contents() == old(cb.Contents())
    ensures failed <==>
      old(cb.write) + |src| > cb.size || |old(cb.Contents())| + |src| >= cb.size
  {
    var free := cb.GetFreeContinuous();
    if free < |src| {
      return true;
    }
    ghost var mem, q := cb.buffer[..], cb.Contents();
    PutEnqueues(mem, cb.write, cb.read, src);
    PutIsBlit(mem, cb.write, src);
    Memcpy(cb.buffer, cb.write, src);
    assert cb.buffer[..] == Put(mem, cb.write, src);
    failed := cb.SkipWrite(|src|);
  }
}
