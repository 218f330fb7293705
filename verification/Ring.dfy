/** Circular index arithmetic shared by the byte rings (cbe.c, cb.h, pipe.h). */
module Ring {
  import opened Memory

  /** The cell of a ring of `size` cells that logical position p < 2 * size falls on. */
  function Wrap(p: int, size: int): int {
    if p >= size then p - size else p
  }

  /** The element k places after start. */
  function At<T>(mem: seq<T>, size: int, start: int, k: int): T
    requires 0 <= start < size <= |mem| && 0 <= k <= size
  {
    mem[Wrap(start + k, size)]
  }

  /** The len elements met by walking the ring from start. */
  function Window<T>(mem: seq<T>, size: int, start: int, len: int): (w: seq<T>)
    requires 0 <= start < size <= |mem| && 0 <= len <= size
    ensures |w| == len
    ensures forall k :: 0 <= k < len ==> w[k] == At(mem, size, start, k)
  {
    seq(len, k requires 0 <= k < len => At(mem, size, start, k))
  }

  /** The distance from read forward to write. */
  function Used(write: int, read: int, size: int): int {
    if write < read then write - read + size else write - read
  }

  /** The text of cbe_get_used, cb_get_used and pipe_get_used in the integer widths of the source: the
      unsigned difference wraps, but its value as an `int` is the distance. */
  function UsedOf(write: int, read: int, size: int): (used: int)
    ensures -size <= write - read <= size <= INT_MAX
      ==> used == Used(write, read, size)
  {
    var used := S32(U32(write - read));
    if used < 0 then S32(U32(used + size)) else used
  }

  /** The text of cbe_get_free and pipe_get_free: a ring whose indices meet has all of its size free. */
  function FreeOf(write: int, read: int, size: int): (free: int)
    ensures -size <= read - write <= size <= INT_MAX
      ==> free == if read <= write then read - write + size else read - write
  {
    var free := S32(U32(read - write));
    if free <= 0 then S32(U32(free + size)) else free
  }

  /** The elements queued in a ring, oldest first. */
  ghost function Queue<T>(mem: seq<T>, size: int, write: int, read: int): seq<T>
    requires 0 <= write < size && 0 <= read < size <= |mem|
  {
    Window(mem, size, read, Used(write, read, size))
  }

  /** Advancing the read index drops the oldest bytes. */
  lemma SkipDequeues<T>(mem: seq<T>, size: int, write: int, read: int, count: int)
    requires 0 <= write < size && 0 <= read < size <= |mem|
    requires 0 <= count <= Used(write, read, size)
    ensures Queue(mem, size, write, Wrap(read + count, size)) == Queue(mem, size, write, read)[count..]
    ensures Used(write, Wrap(read + count, size), size) == Used(write, read, size) - count
  {
  }

  /** How far cell a lies behind cell w. */
  function Behind(a: int, w: int, size: int): int {
    if a >= w then a - w else a - w + size
  }

  /** Memory after a write to a plain ring: the elements lie behind cell w, across the end if need be. */
  function Put<T>(mem: seq<T>, w: int, src: seq<T>): (r: seq<T>)
    requires 0 <= w < |mem| && |src| <= |mem|
    ensures |r| == |mem|
  {
    seq(|mem|, a requires 0 <= a < |mem| =>
      if Behind(a, w, |mem|) < |src| then src[Behind(a, w, |mem|)] else mem[a])
  }

  /** That is one copy, or two when they cross the end. */
  lemma PutIsBlit<T>(mem: seq<T>, w: int, src: seq<T>)
    requires 0 <= w < |mem| && |src| <= |mem|
    ensures var rest := |mem| - w;
      Put(mem, w, src) ==
        if rest >= |src| then Blit(mem, w, src) else Blit(Blit(mem, w, src[..rest]), 0, src[rest..])
  {
  }

  /** Where Put leaves each element. */
  lemma PutAt<T>(mem: seq<T>, w: int, src: seq<T>, k: int)
    requires 0 <= w < |mem| && |src| <= |mem| && 0 <= k < |mem|
    ensures At(Put(mem, w, src), |mem|, w, k) == if k < |src| then src[k] else At(mem, |mem|, w, k)
  {
  }

  /** The same counted from another start, len elements before w. */
  lemma PutAtFrom<T>(mem: seq<T>, read: int, len: int, src: seq<T>, k: int)
    requires 0 <= read < |mem| && 0 <= len < |mem| && len + |src| <= |mem| && 0 <= k < len + |src|
    ensures At(Put(mem, Wrap(read + len, |mem|), src), |mem|, read, k)
         == if k < len then At(mem, |mem|, read, k) else src[k - len]
  {
    var w := Wrap(read + len, |mem|);
    PutAt(mem, w, src, if k < len then k - len + |mem| else k - len);
  }

  /** What is put behind a window extends it. */
  lemma PutAppends<T>(mem: seq<T>, read: int, len: int, src: seq<T>)
    requires 0 <= read < |mem| && 0 <= len < |mem| && len + |src| <= |mem|
    ensures Window(Put(mem, Wrap(read + len, |mem|), src), |mem|, read, len + |src|) == Window(mem, |mem|, read, len) + src
  {
    var whole := Window(Put(mem, Wrap(read + len, |mem|), src), |mem|, read, len + |src|);
    forall k | 0 <= k < len + |src|
      ensures whole[k] == (Window(mem, |mem|, read, len) + src)[k]
    {
      PutAtFrom(mem, read, len, src, k);
    }
  }

  /** Where the indices stand after count more elements. */
  lemma UsedAfter(write: int, read: int, size: int, count: int)
    requires 0 <= write < size && 0 <= read < size && 0 <= count && Used(write, read, size) + count < size
    ensures Used(Wrap(write + count, size), read, size) == Used(write, read, size) + count
    ensures Wrap(read + Used(write, read, size), size) == write
  {
  }

  lemma QueueExtends<T>(mem: seq<T>, mem': seq<T>, write: int, read: int, src: seq<T>)
    requires 0 <= write < |mem| == |mem'| && 0 <= read < |mem| && Used(write, read, |mem|) + |src| < |mem|
    requires var u := Used(write, read, |mem|);
      Window(mem', |mem|, read, u + |src|) == Window(mem, |mem|, read, u) + src
    ensures Queue(mem', |mem|, Wrap(write + |src|, |mem|), read) == Queue(mem, |mem|, write, read) + src
  {
    UsedAfter(write, read, |mem|, |src|);
  }

  /** What is written behind the queue comes after it, in order, and the queue is untouched. */
  lemma PutEnqueues<T>(mem: seq<T>, write: int, read: int, src: seq<T>)
    requires 0 <= write < |mem| && 0 <= read < |mem| && Used(write, read, |mem|) + |src| < |mem|
    ensures Queue(Put(mem, write, src), |mem|, Wrap(write + |src|, |mem|), read) == Queue(mem, |mem|, write, read) + src
    ensures Used(Wrap(write + |src|, |mem|), read, |mem|) == Used(write, read, |mem|) + |src|
  {
    UsedAfter(write, read, |mem|, |src|);
    PutAppends(mem, read, Used(write, read, |mem|), src);
    QueueExtends(mem, Put(mem, write, src), write, read, src);
  }

  /** Putting back what is there changes nothing. */
  lemma PutNothing<T>(mem: seq<T>, w: int, count: int)
    requires 0 <= w < |mem| && 0 <= count <= |mem|
    ensures Put(mem, w, Window(mem, |mem|, w, count)) == mem
  {
    var src := Window(mem, |mem|, w, count);
    forall a | 0 <= a < |mem|
      ensures Put(mem, w, src)[a] == mem[a]
    {
      PutAt(mem, w, src, if a >= w then a - w else a - w + |mem|);
    }
  }

  /** The first count elements of the queue, in one piece or in two. */
  lemma FrontPieces<T>(mem: seq<T>, write: int, read: int, count: int)
    requires 0 <= write < |mem| && 0 <= read < |mem| && 0 <= count <= Used(write, read, |mem|)
    ensures var rest := |mem| - read;
      Queue(mem, |mem|, write, read)[..count] ==
        if rest >= count then mem[read..read + count] else mem[read..] + mem[..count - rest]
  {
  }

  /** The copying part of _pipe_read and cb_read. */
  method CopyOut<T>(ring: array<T>, write: int, read: int, dst: array<T>, count: nat)
    requires 0 <= write < ring.Length && 0 <= read < ring.Length && count <= Used(write, read, ring.Length)
    requires dst != ring && count <= dst.Length
    modifies dst
    ensures dst[..] == Blit(old(dst[..]), 0, Queue(ring[..], ring.Length, write, read)[..count])
  {
    FrontPieces(ring[..], write, read, count);
    var rest := ring.Length - read;
    if rest >= count {
      Memcpy(dst, 0, ring[read..read + count]);
    } else {
      BlitJoin(dst[..], 0, ring[read..], ring[..count - rest]);
      Memcpy(dst, 0, ring[read..]);
      Memcpy(dst, rest, ring[..count - rest]);
    }
  }

  /** The copying part of _pipe_write and cb_write. */
  method CopyIn<T>(ring: array<T>, write: int, src: seq<T>)
    requires 0 <= write < ring.Length && |src| <= ring.Length
    modifies ring
    ensures ring[..] == Put(old(ring[..]), write, src)
  {
    PutIsBlit(ring[..], write, src);
    var rest := ring.Length - write;
    if rest >= |src| {
      Memcpy(ring, write, src);
    } else {
      Memcpy(ring, write, src[..rest]);
      Memcpy(ring, 0, src[rest..]);
    }
  }

  /** The index part of both. */
  method Advance(index: int, count: nat, size: int) returns (r: int)
    requires 0 <= index < size && count <= size
    ensures r == Wrap(index + count, size)
  {
    var rest := size - index;
    if rest >= count {
      r := index + count;
      if r >= size {
        r := r - size;
      }
    } else {
      r := count - rest;
    }
  }
}
