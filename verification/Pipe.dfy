/** The checked byte ring of pipe.h, with running totals. */
module Pipe {
  import opened Memory
  import opened Ring

  /** The totals are unsigned ints; their difference stays the number of bytes in the pipe. */
  predicate Totals(totalWrite: int, totalRead: int, used: int) {
    && 0 <= totalWrite < 0x1_0000_0000 && 0 <= totalRead < 0x1_0000_0000
    && U32(totalWrite - totalRead) == used
  }

  lemma TotalWriteMoves(totalWrite: int, totalRead: int, used: int, count: nat)
    requires Totals(totalWrite, totalRead, used) && used + count <= INT_MAX
    ensures Totals(U32(totalWrite + count), totalRead, used + count)
  {
  }

  lemma TotalReadMoves(totalWrite: int, totalRead: int, used: int, count: nat)
    requires Totals(totalWrite, totalRead, used) && count <= used <= INT_MAX
    ensures Totals(totalWrite, U32(totalRead + count), used - count)
  {
  }

  class PipeBuffer {
    const buffer: array<uint8>
    const size: int
    var write: int
    var read: int
    var end: bool
    var totalWrite: int
    var totalRead: int

    ghost predicate Valid()
      reads this, buffer
    {
      && 0 < size <= INT_MAX && buffer.Length == size
      && 0 <= write < size && 0 <= read < size
      && Totals(totalWrite, totalRead, Used(write, read, size))
    }

    /** The queued bytes, oldest first. */
    ghost function Contents(): (q: seq<uint8>)
      reads this, buffer
      requires Valid()
      ensures |q| == Used(write, read, size)
    {
      Queue(buffer[..], size, write, read)
    }

    /** pipe_new. */
    constructor (size: int)
      requires 0 < size <= INT_MAX
      ensures Valid() && Contents() == [] && fresh(buffer) && this.size == size && !end
    {
      this.size := size;
      buffer := new uint8[size];
      write, read, end, totalWrite, totalRead := 0, 0, false, 0, 0;
    }

    /** pipe_new: no pipe without a size and the memory for it. */
    static method New(size: nat, outOfMemory: bool) returns (pipe: PipeBuffer?)
      requires size <= INT_MAX
      ensures pipe == null <==> size == 0 || outOfMemory
      ensures pipe != null ==> fresh(pipe) && fresh(pipe.buffer) && pipe.Valid() && pipe.Contents() == []
      ensures pipe != null ==> pipe.size == size && !pipe.end
    {
      if size == 0 || outOfMemory {
        return null;
      }
      pipe := new PipeBuffer(size);
    }

    method Flush()
      requires Valid()
      modifies this
      ensures Valid() && Contents() == [] && !end
    {
      write, read, end, totalWrite, totalRead := 0, 0, false, 0, 0;
    }

    function GetUsed(): (used: int)
      reads this, buffer
      requires Valid()
      ensures used == |Contents()| < size
      ensures used == U32(totalWrite - totalRead)
    {
      UsedOf(write, read, size)
    }

    function GetFree(): (free: int)
      reads this, buffer
      requires Valid()
      ensures free == size - |Contents()| > 0
    {
      FreeOf(write, read, size)
    }

    /** The index and the total of _pipe_read. */
    method Drop(count: nat)
      requires Valid() && count <= |Contents()|
      modifies this`read, this`totalRead
      ensures Valid() && Contents() == old(Contents())[count..]
    {
      SkipDequeues(buffer[..], size, write, read, count);
      TotalReadMoves(totalWrite, totalRead, |Contents()|, count);
      read := Advance(read, count, size);
      totalRead := U32(totalRead + count);
    }

    /** _pipe_read, which does not check; a null destination drops the bytes. */
    method ReadUnchecked(dst: array?<uint8>, count: nat)
      requires Valid() && count <= |Contents()|
      requires dst != null ==> dst != buffer && count <= dst.Length
      modifies this`read, this`totalRead, dst
      ensures Valid() && Contents() == old(Contents())[count..]
      ensures dst != null ==> dst[..] == Blit(old(dst[..]), 0, old(Contents())[..count])
    {
      if dst != null {
        CopyOut(buffer, write, read, dst, count);
      }
      Drop(count);
    }

    /** pipe_read: all of it or nothing. */
    method Read(dst: array?<uint8>, count: nat) returns (done: nat)
      requires Valid() && (dst != null ==> dst != buffer && count <= dst.Length)
      modifies this`read, this`totalRead, dst
      ensures Valid() && done == if |old(Contents())| < count then 0 else count
      ensures Contents() == old(Contents())[done..]
      ensures dst != null ==> dst[..] == Blit(old(dst[..]), 0, old(Contents())[..done])
    {
      if GetUsed() < count {
        assert dst != null ==> Blit(dst[..], 0, []) == dst[..];
        return 0;
      }
      ReadUnchecked(dst, count);
      return count;
    }

    /** _pipe_write, which does not check; without a source what lies behind the queue becomes part of it. */
    method WriteUnchecked(src: array?<uint8>, count: nat)
      requires Valid() && |Contents()| + count < size
      requires src != null ==> src != buffer && count <= src.Length
      modifies this`write, this`totalWrite, buffer
      ensures Valid() && Contents() == old(Contents()) + old(Given(src, count))
    {
      ghost var mem, bytes := buffer[..], Given(src, count);
      PutEnqueues(mem, write, read, bytes);
      TotalWriteMoves(totalWrite, totalRead, |Contents()|, count);
      if src != null {
        CopyIn(buffer, write, src[..count]);
      } else {
        PutNothing(mem, write, count);
      }
      assert buffer[..] == Put(mem, write, bytes);
      write := Advance(write, count, size);
      totalWrite := U32(totalWrite + count);
    }

    /** The bytes that a write queues. */
    ghost function Given(src: array?<uint8>, count: nat): (r: seq<uint8>)
      reads this, buffer, src
      requires Valid() && count <= size && (src != null ==> count <= src.Length)
      ensures |r| == count
    {
      if src != null then src[..count] else Window(buffer[..], size, write, count)
    }

    /** pipe_write: all of it or nothing; the pipe holds at most size - 1 bytes. */
    method Write(src: array?<uint8>, count: nat) returns (done: nat)
      requires Valid() && (src != null ==> src != buffer && count <= src.Length)
      modifies this`write, this`totalWrite, buffer
      ensures Valid() && done == if |old(Contents())| + count < size then count else 0
      ensures done == 0 ==> Contents() == old(Contents())
      ensures done > 0 ==> Contents() == old(Contents()) + old(Given(src, count))
    {
      if GetFree() <= count {
        return 0;
      }
      WriteUnchecked(src, count);
      return count;
    }
  }
}
