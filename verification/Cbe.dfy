/** The circular buffer with a mirrored start (cbe.c): bytes [0, overlap) of the ring are repeated
    behind its end, so that a parser reads across the wrap through one linear pointer. */
module CbeBuffer {
  import opened Memory
  import opened Ring

  /** Memory after _cbe_copy_nowrap: src at index w, and again in the mirror as far as it reaches. */
  function Store(mem: seq<uint8>, size: int, overlap: int, w: int, src: seq<uint8>): (r: seq<uint8>)
    requires 0 < size && 0 < overlap && |mem| == size + overlap
    requires 0 <= w && w + |src| <= size
    ensures |r| == |mem|
    ensures forall a :: 0 <= a < size ==> r[a] == if w <= a < w + |src| then src[a - w] else mem[a]
    ensures forall a :: size <= a < size + overlap ==>
      r[a] == if w <= a - size < w + |src| then src[a - size - w] else mem[a]
  {
    var m := Blit(mem, w, src);
    if w < overlap then Blit(m, size + w, src[..Min(|src|, overlap - w)]) else m
  }

  /** Memory after _cbe_copy: one store, or two when the bytes cross the end of the ring. */
  function StoreWrapped(mem: seq<uint8>, size: int, overlap: int, w: int, src: seq<uint8>): (r: seq<uint8>)
    requires 0 < size && 0 < overlap && |mem| == size + overlap
    requires 0 <= w < size && |src| <= size
    ensures |r| == |mem|
  {
    var rest := size - w;
    if rest >= |src| then Store(mem, size, overlap, w, src)
    else Store(Store(mem, size, overlap, w, src[..rest]), size, overlap, 0, src[rest..])
  }

  ghost predicate MirrorAt(mem: seq<uint8>, size: int, i: int)
    requires 0 <= i && 0 <= size && size + i < |mem|
  {
    mem[size + i] == mem[i]
  }

  /** Every byte below `initialised` is repeated in the mirror, as far as the mirror reaches. */
  ghost predicate Mirrored(mem: seq<uint8>, size: int, overlap: int, initialised: int) {
    && |mem| == size + overlap && 0 <= initialised <= size && 0 <= overlap
    && forall i :: 0 <= i < initialised && i < overlap ==> MirrorAt(mem, size, i)
  }

  /** The first k bytes of the window, read through a plain pointer that runs past the ring's end. */
  lemma LinearRead(mem: seq<uint8>, size: int, overlap: int, initialised: int, read: int, k: int)
    requires 0 < size && 0 < overlap && Mirrored(mem, size, overlap, initialised)
    requires 0 <= read < size && 0 <= k <= size && read + k <= size + overlap
    requires read + k > size ==> initialised == size
    ensures mem[read..read + k] == Window(mem, size, read, k)
  {
    forall j | 0 <= j < k
      ensures mem[read..read + k][j] == At(mem, size, read, j)
    {
      if read + j >= size {
        assert MirrorAt(mem, size, read + j - size);
      }
    }
  }

  /** Where cbe_get_tail_p points when n bytes are asked for. */
  function TailStart(size: int, write: int, n: int): int {
    if write - n < 0 then write - n + size else write - n
  }

  lemma TailIndex(size: int, read: int, used: int, n: int, j: int)
    requires 0 <= read < size && 0 <= j < n <= used < size
    ensures var p := TailStart(size, Wrap(read + used, size), n);
      0 <= p < size && Wrap(p + j, size) == Wrap(read + used - n + j, size)
  {
  }

  /** The last n bytes of a window, read through the pointer cbe_get_tail_p computes. */
  lemma TailRead(mem: seq<uint8>, size: int, overlap: int, initialised: int, read: int, used: int, n: int)
    requires 0 < size && 0 < overlap && Mirrored(mem, size, overlap, initialised)
    requires 0 <= read < size && 0 <= n <= used < size
    requires var w := Wrap(read + used, size); n <= w || (w <= overlap && initialised == size)
    ensures var p := TailStart(size, Wrap(read + used, size), n);
      0 <= p && p + n <= size + overlap && mem[p..p + n] == Window(mem, size, read, used)[used - n..]
  {
    var p := TailStart(size, Wrap(read + used, size), n);
    if n > 0 {
      TailIndex(size, read, used, n, 0);
      LinearRead(mem, size, overlap, initialised, p, n);
      forall j | 0 <= j < n
        ensures At(mem, size, p, j) == At(mem, size, read, used - n + j)
      {
        TailIndex(size, read, used, n, j);
      }
    }
  }

  /** A store keeps every mirrored byte mirrored and adds the stored ones. */
  lemma StoreMirrors(mem: seq<uint8>, size: int, overlap: int, initialised: int, w: int, src: seq<uint8>)
    requires 0 < size && 0 < overlap && Mirrored(mem, size, overlap, initialised)
    requires 0 <= w <= initialised && w + |src| <= size
    ensures Mirrored(Store(mem, size, overlap, w, src), size, overlap, Max(initialised, w + |src|))
  {
    var mem' := Store(mem, size, overlap, w, src);
    forall i | 0 <= i < Max(initialised, w + |src|) && i < overlap
      ensures MirrorAt(mem', size, i)
    {
      assert i < initialised ==> MirrorAt(mem, size, i);
    }
  }

  /** Without its mirror the ring is a plain one. */
  lemma StoreIsPut(mem: seq<uint8>, size: int, overlap: int, w: int, src: seq<uint8>)
    requires 0 < size && 0 < overlap && |mem| == size + overlap && 0 <= w < size && |src| <= size
    ensures StoreWrapped(mem, size, overlap, w, src)[..size] == Put(mem[..size], w, src)
  {
    PutIsBlit(mem[..size], w, src);
    var rest := size - w;
    if rest < |src| {
      var first := Store(mem, size, overlap, w, src[..rest]);
      assert first[..size] == Blit(mem[..size], w, src[..rest]);
      assert Store(first, size, overlap, 0, src[rest..])[..size] == Blit(first[..size], 0, src[rest..]);
    } else {
      assert Store(mem, size, overlap, w, src)[..size] == Blit(mem[..size], w, src);
    }
  }

  lemma WindowOfRing(mem: seq<uint8>, size: int, start: int, len: int)
    requires 0 <= start < size <= |mem| && 0 <= len <= size
    ensures Window(mem[..size], size, start, len) == Window(mem, size, start, len)
  {
  }

  /** Storing |src| bytes behind a window of len bytes extends it by src. */
  lemma StoreAppends(mem: seq<uint8>, size: int, overlap: int, read: int, len: int, src: seq<uint8>)
    requires 0 < size && 0 < overlap && |mem| == size + overlap && 0 <= read < size
    requires 0 <= len && len + |src| <= size && len < size
    ensures Window(StoreWrapped(mem, size, overlap, Wrap(read + len, size), src), size, read, len + |src|)
         == Window(mem, size, read, len) + src
  {
    var w := Wrap(read + len, size);
    var mem' := StoreWrapped(mem, size, overlap, w, src);
    StoreIsPut(mem, size, overlap, w, src);
    PutAppends(mem[..size], read, len, src);
    WindowOfRing(mem, size, read, len);
    WindowOfRing(mem', size, read, len + |src|);
  }

  lemma StoreWrappedMirrors(mem: seq<uint8>, size: int, overlap: int, initialised: int, w: int, src: seq<uint8>)
    requires 0 < size && 0 < overlap && Mirrored(mem, size, overlap, initialised)
    requires 0 <= w <= initialised && w < size && |src| <= size
    ensures Mirrored(StoreWrapped(mem, size, overlap, w, src), size, overlap, Min(size, Max(initialised, w + |src|)))
  {
    var rest := size - w;
    if rest >= |src| {
      StoreMirrors(mem, size, overlap, initialised, w, src);
    } else {
      StoreMirrors(mem, size, overlap, initialised, w, src[..rest]);
      StoreMirrors(Store(mem, size, overlap, w, src[..rest]), size, overlap, size, 0, src[rest..]);
    }
  }

  /** Memory after cbe_patch. */
  function Patched(mem: seq<uint8>, size: int, overlap: int, p: int, count: int): seq<uint8>
    requires 0 < size && 0 < overlap && |mem| == size + overlap
    requires 0 <= p && 0 <= count && p + count <= size
  {
    if p < overlap then Blit(mem, size + p, mem[p..p + Min(count, overlap - p)]) else mem
  }

  /** Copying bytes already in the ring to the mirror is a store of those bytes onto themselves. */
  lemma PatchIsStore(mem: seq<uint8>, size: int, overlap: int, p: int, count: int)
    requires 0 < size && 0 < overlap && |mem| == size + overlap
    requires 0 <= p && 0 <= count && p + count <= size
    ensures Patched(mem, size, overlap, p, count) == Store(mem, size, overlap, p, mem[p..p + count])
  {
  }

  /** What a write of src does to the queue: it is appended exactly when it is shorter than the free
      space; otherwise the indices lap each other and `size` bytes are lost. */
  lemma WriteQueues(mem: seq<uint8>, size: int, overlap: int, write: int, read: int, src: seq<uint8>)
    requires 0 <= write < size && 0 <= read < size && 0 < overlap && |mem| == size + overlap
    requires |src| <= size
    ensures var q := Queue(mem, size, write, read);
      var q' := Queue(StoreWrapped(mem, size, overlap, write, src), size, Wrap(write + |src|, size), read);
      if |q| + |src| < size then q' == q + src else |q'| == |q| + |src| - size
  {
    var used := Used(write, read, size);
    if used + |src| < size {
      assert Used(Wrap(write + |src|, size), read, size) == used + |src|;
      assert Wrap(read + used, size) == write;
      StoreAppends(mem, size, overlap, read, used, src);
    }
  }

  class Cbe {
    const data: array<uint8>
    const size: int
    const overlap: int
    var write: int
    var read: int
    ghost var initialised: int  // bytes of the ring written since it was created, from its start

    ghost predicate Valid()
      reads this, data
    {
      && 0 < size && 0 < overlap && size + overlap <= INT_MAX
      && data.Length == size + overlap
      && 0 <= write < size && 0 <= read < size
      && write <= initialised
      && (read > write ==> initialised == size)
      && Mirrored(data[..], size, overlap, initialised)
    }

    /** The queued bytes, oldest first. */
    ghost function Contents(): (q: seq<uint8>)
      reads this, data
      requires Valid()
    {
      Queue(data[..], size, write, read)
    }

    constructor (size: int, overlap: int)
      requires 0 < size && 0 < overlap && size + overlap <= INT_MAX
      ensures Valid() && Contents() == [] && fresh(data)
      ensures this.size == size && this.overlap == overlap
    {
      this.size := size;
      this.overlap := overlap;
      data := new uint8[size + overlap];
      write := 0;
      read := 0;
      initialised := 0;
    }

    /** cbe_new: no ring without a size, an overlap and the memory for them. */
    static method New(size: nat, overlap: nat, outOfMemory: bool) returns (cbe: Cbe?)
      requires size + overlap <= INT_MAX
      ensures cbe == null <==> size == 0 || overlap == 0 || outOfMemory
      ensures cbe != null ==>
        fresh(cbe) && fresh(cbe.data) && cbe.Valid() && cbe.Contents() == [] && cbe.size == size && cbe.overlap == overlap
    {
      if size == 0 || overlap == 0 || outOfMemory {
        return null;
      }
      cbe := new Cbe(size, overlap);
    }

    method Flush()
      requires Valid()
      modifies this`read, this`write
      ensures Valid() && Contents() == []
    {
      read := 0;
      write := 0;
    }

    function GetUsed(): (used: int)
      reads this, data
      requires Valid()
      ensures used == |Contents()| < size
    {
      UsedOf(write, read, size)
    }

    function GetFree(): (free: int)
      reads this, data
      requires Valid()
      ensures free == size - |Contents()| > 0
    {
      FreeOf(write, read, size)
    }

    /** cbe_get_rest_size: how far a linear read may go before it leaves the memory. */
    function GetRestSize(): (rest: int)
      reads this, data
      requires Valid()
      ensures overlap < rest && read + rest == data.Length
    {
      size + overlap - read
    }

    /** cbe_get_p: from here, any run of queued bytes that stays in memory is the front of the queue. */
    method GetP(k: int) returns (p: int)
      requires Valid() && 0 <= k <= Min(|Contents()|, GetRestSize())
      ensures p == read && p + k <= data.Length
      ensures data[p..p + k] == Contents()[..k]
    {
      p := read;
      LinearRead(data[..], size, overlap, initialised, read, k);
      assert data[read..read + k] == data[..][read..read + k];
    }

    /** cbe_get_tail_p: the last n queued bytes in one linear run, when they do not cross the end of the
        ring or their second part fits the mirror. */
    method GetTailP(n: int) returns (p: int)
      requires Valid() && 0 <= n <= |Contents()|
      requires n <= write || write <= overlap
      ensures 0 <= p && p + n <= data.Length && data[p..p + n] == Contents()[|Contents()| - n..]
    {
      p := write - n;
      if p < 0 {
        p := p + size;
      }
      TailRead(data[..], size, overlap, initialised, read, |Contents()|, n);
      assert data[p..p + n] == data[..][p..p + n];
    }

    method Skip(count: int)
      requires Valid() && 0 <= count
      modifies this`read
      ensures Valid() && Contents() == old(Contents())[Min(count, |old(Contents())|)..]
    {
      var used := GetUsed();
      var n := Min(count, used);
      SkipDequeues(data[..], size, write, read, n);
      read := read + n;
      if read >= size {
        read := read - size;
      }
    }

    method SkipAll()
      requires Valid()
      modifies this`read
      ensures Valid() && Contents() == []
    {
      read := write;
    }

    /** _cbe_copy_nowrap on the ring's own write index. */
    method CopyNowrap(buffer: seq<uint8>)
      requires 0 < size && 0 < overlap && data.Length == size + overlap
      requires 0 <= write && write + |buffer| <= size
      requires write < size
      modifies data, this`write
      ensures data[..] == Store(old(data[..]), size, overlap, old(write), buffer)
      ensures write == Wrap(old(write) + |buffer|, size)
    {
      Memcpy(data, write, buffer);
      if write < overlap {
        var copy := Min(|buffer|, overlap - write);
        Memcpy(data, size + write, buffer[..copy]);
      }
      write := write + |buffer|;
      if write >= size {
        write := write - size;
      }
    }

    /** _cbe_copy: in one piece, or in two when the bytes cross the end of the ring. */
    method Copy(buffer: seq<uint8>) returns (count: int)
      requires 0 < size && 0 < overlap && data.Length == size + overlap
      requires 0 <= write < size && |buffer| <= size
      modifies data, this`write
      ensures data[..] == StoreWrapped(old(data[..]), size, overlap, old(write), buffer)
      ensures write == Wrap(old(write) + |buffer|, size)
      ensures count == |buffer|
    {
      var rest := size - write;
      if rest >= |buffer| {
        CopyNowrap(buffer);
      } else {
        CopyNowrap(buffer[..rest]);
        CopyNowrap(buffer[rest..]);
      }
      count := |buffer|;
    }

    /** cbe_write. The source trusts its caller to leave room: the queue grows by the buffer exactly when
        the buffer is shorter than the free count; otherwise `size` bytes are lost. */
    method Write(buffer: seq<uint8>) returns (count: int)
      requires Valid() && |buffer| <= size
      modifies data, this`write, this`initialised
      ensures Valid() && read == old(read)
      ensures count == |buffer|
      ensures |buffer| < old(GetFree()) <==> Contents() == old(Contents()) + buffer
      ensures |buffer| >= old(GetFree()) ==> |Contents()| == |old(Contents())| + |buffer| - size
      ensures data[..] == StoreWrapped(old(data[..]), size, overlap, old(write), buffer)
    {
      WriteQueues(data[..], size, overlap, write, read, buffer);
      StoreWrappedMirrors(data[..], size, overlap, initialised, write, buffer);
      initialised := Min(size, Max(initialised, write + |buffer|));
      count := Copy(buffer);
    }

    /** cbe_get_patch_p: where the next `count` bytes would go, and the part of the mirror they own. */
    method GetPatchP(count: nat) returns (p: int, copyP: int, copySize: int)
      requires Valid()
      ensures p == write
      ensures copySize == Max(0, Min(count, overlap - p))
      ensures copySize > 0 ==> copyP == size + p
    {
      if write < overlap {
        copySize := Min(count, overlap - write);
        copyP := size + write;
      } else {
        copySize := 0;
        copyP := 0;
      }
      p := write;
    }

    /** cbe_patch: after an edit of [p, p + count) inside the ring, bring the mirror back in line. */
    method Patch(p: int, count: nat) returns (error: int)
      requires 0 < size && 0 < overlap && data.Length == size + overlap
      requires 0 <= p < size ==> p + count <= size
      modifies data
      ensures error == if 0 <= p < size then 0 else 1
      ensures error == 0 ==> data[..] == Patched(old(data[..]), size, overlap, p, count)
      ensures error != 0 ==> data[..] == old(data[..])
    {
      if p < 0 || p >= size {
        return 1;
      }
      if p < overlap {
        var copy := Min(count, overlap - p);
        assert data[p..p + copy] == data[..][p..p + copy];
        Memcpy(data, size + p, data[p..p + copy]);
      }
      return 0;
    }
  }

  /** The two ways to edit [p, p + |bytes|) in place agree with each other and with a store: patching the
      mirror afterwards, or copying the prefix by hand to the region GetPatchP names. */
  method EditAndPatch(cbe: Cbe, p: int, bytes: seq<uint8>)
    requires cbe.Valid() && 0 <= p < cbe.size && p + |bytes| <= cbe.size
    requires p <= cbe.initialised
    modifies cbe.data, cbe`initialised
    ensures cbe.data[..] == Store(old(cbe.data[..]), cbe.size, cbe.overlap, p, bytes)
    ensures cbe.Valid()
  {
    StoreMirrors(cbe.data[..], cbe.size, cbe.overlap, cbe.initialised, p, bytes);
    Memcpy(cbe.data, p, bytes);
    assert cbe.data[p..p + |bytes|] == bytes;
    PatchIsStore(cbe.data[..], cbe.size, cbe.overlap, p, |bytes|);
    var error := cbe.Patch(p, |bytes|);
    cbe.initialised := Max(cbe.initialised, p + |bytes|);
  }

  method EditAndCopy(cbe: Cbe, bytes: seq<uint8>)
    requires cbe.Valid() && cbe.write + |bytes| <= cbe.size
    modifies cbe.data, cbe`initialised
    ensures cbe.data[..] == Store(old(cbe.data[..]), cbe.size, cbe.overlap, cbe.write, bytes)
    ensures cbe.Valid()
  {
    StoreMirrors(cbe.data[..], cbe.size, cbe.overlap, cbe.initialised, cbe.write, bytes);
    var p, copyP, copySize := cbe.GetPatchP(|bytes|);
    Memcpy(cbe.data, p, bytes);
    if copySize > 0 {
      Memcpy(cbe.data, copyP, bytes[..copySize]);
    }
    assert cbe.data[..] == Store(old(cbe.data[..]), cbe.size, cbe.overlap, cbe.write, bytes);
    cbe.initialised := Max(cbe.initialised, p + |bytes|);
  }
}
