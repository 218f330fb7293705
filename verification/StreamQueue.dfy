/** The queue of fixed-size entries of stream_queue.c, kept in a pipe of (length + 1) entries. */
module StreamQueue {
  import opened Memory
  import opened Ring
  import opened Pipe

  function Join(es: seq<seq<uint8>>): seq<uint8> {
    if es == [] then [] else es[0] + Join(es[1..])
  }

  predicate AllOfSize(es: seq<seq<uint8>>, n: nat) {
    forall i :: 0 <= i < |es| ==> |es[i]| == n
  }

  lemma {:induction false} JoinLength(es: seq<seq<uint8>>, n: nat)
    requires AllOfSize(es, n)
    ensures |Join(es)| == |es| * n
  {
    if es != [] {
      JoinLength(es[1..], n);
    }
  }

  lemma {:induction false} JoinAppend(es: seq<seq<uint8>>, e: seq<uint8>)
    ensures Join(es + [e]) == Join(es) + e
  {
    if es == [] {
      assert Join([e]) == e + Join([]);
    } else {
      JoinAppend(es[1..], e);
      assert (es + [e])[1..] == es[1..] + [e];
    }
  }

  /** One entry of room is one entry less than the pipe: a full queue leaves the pipe exactly one entry
      short, which is not enough, and any other leaves it enough. */
  lemma RoomIff(count: nat, length: nat, n: nat)
    requires 0 < n && count <= length
    ensures count * n + n < n * (length + 1) <==> count < length
    ensures n <= count * n <==> count > 0
  {
  }

  class StreamQ {
    const pipe: PipeBuffer
    const entrySize: nat
    const length: nat
    ghost var entries: seq<seq<uint8>>  // oldest first

    ghost predicate Valid()
      reads this, pipe, pipe.buffer
    {
      && pipe.Valid() && 0 < entrySize && 0 < length && pipe.size == entrySize * (length + 1)
      && pipe.Contents() == Join(entries) && AllOfSize(entries, entrySize) && |entries| <= length
    }

    /** stream_q_new. */
    constructor (length: nat, entrySize: nat)
      requires 0 < length && 0 < entrySize && entrySize * (length + 1) <= INT_MAX
      ensures Valid() && entries == [] && fresh(pipe) && fresh(pipe.buffer)
      ensures this.length == length && this.entrySize == entrySize
    {
      assert 0 < entrySize * (length + 1);
      pipe := new PipeBuffer(entrySize * (length + 1));
      this.length, this.entrySize := length, entrySize;
      entries := [];
    }

    /** stream_q_new: no queue without a length, an entry size and the memory for queue and pipe. */
    static method New(length: nat, entrySize: nat, outOfMemory: bool) returns (q: StreamQ?)
      requires entrySize * (length + 1) <= INT_MAX
      ensures q == null <==> length == 0 || entrySize == 0 || outOfMemory
      ensures q != null ==> fresh(q) && fresh(q.pipe) && fresh(q.pipe.buffer) && q.Valid() && q.entries == []
      ensures q != null ==> q.length == length && q.entrySize == entrySize
    {
      if length == 0 || entrySize == 0 || outOfMemory {
        return null;
      }
      q := new StreamQ(length, entrySize);
    }

    /** stream_q_put: fails for a null entry and when `length` entries are queued. */
    method Put(entry: array?<uint8>) returns (failed: bool)
      requires Valid() && (entry != null ==> entry != pipe.buffer && entrySize <= entry.Length)
      modifies this`entries, pipe`write, pipe`totalWrite, pipe.buffer
      ensures Valid()
      ensures failed <==> entry == null || |old(entries)| == length
      ensures entries == if failed then old(entries) else old(entries) + [old(entry[..entrySize])]
    {
      if entry == null {
        return true;
      }
      ghost var e := entry[..entrySize];
      JoinLength(entries, entrySize);
      JoinAppend(entries, e);
      RoomIff(|entries|, length, entrySize);
      var done := pipe.Write(entry, entrySize);
      if done != entrySize {
        return true;
      }
      entries := entries + [e];
      return false;
    }

    /** stream_q_get: fails for a null destination and when nothing is queued; else the oldest entry. */
    method Get(entry: array?<uint8>) returns (failed: bool)
      requires Valid() && (entry != null ==> entry != pipe.buffer && entrySize <= entry.Length)
      modifies this`entries, pipe`read, pipe`totalRead, entry
      ensures Valid()
      ensures failed <==> entry == null || old(entries) == []
      ensures failed ==> entries == old(entries) && (entry != null ==> entry[..] == old(entry[..]))
      ensures !failed ==> old(entries) == [entry[..entrySize]] + entries
      ensures !failed ==> entry[entrySize..] == old(entry[entrySize..])
    {
      if entry == null {
        return true;
      }
      JoinLength(entries, entrySize);
      RoomIff(|entries|, length, entrySize);
      var done := pipe.Read(entry, entrySize);
      if done != entrySize {
        assert entry[..] == old(entry[..]);
        return true;
      }
      assert old(pipe.Contents())[..entrySize] == entries[0];
      assert entry[..entrySize] == entries[0];
      entries := entries[1..];
      return false;
    }

    /** stream_q_flush. */
    method Flush()
      requires Valid()
      modifies this`entries, pipe
      ensures Valid() && entries == []
    {
      pipe.Flush();
      entries := [];
    }
  }
}
