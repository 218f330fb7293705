/** What the byte steps of the producer in CbeThreads add up to when nobody interferes: cbe_write as class
    Cbe has it. */
module CbeAlone {
  import CbeBuffer
  import opened CbeThreads
  import opened Memory
  import opened Ring

  ghost function Alone(s: State, n: nat): State
    decreases n
  {
    if n == 0 then s else Alone(StepProducer(s), n - 1)
  }

  lemma {:induction false} AloneAdd(s: State, m: nat, n: nat)
    ensures Alone(s, m + n) == Alone(Alone(s, m), n)
    decreases m
  {
    if m > 0 {
      AloneAdd(StepProducer(s), m - 1, n);
    }
  }

  ghost predicate Fresh(s: State) {
    0 < s.size && 0 < s.overlap && |s.mem| == s.size + s.overlap && 0 <= s.write < s.size
  }

  /** Storing a byte and then the ones after it. */
  lemma BlitByte(mem: seq<uint8>, at: int, chunk: seq<uint8>, from: nat, end: nat)
    requires from < end <= |chunk| && 0 <= at && at + end - from <= |mem|
    ensures Blit(Set(mem, at, chunk[from]), at + 1, chunk[from + 1..end]) == Blit(mem, at, chunk[from..end])
  {
  }

  lemma {:induction false} CopyAlone(s: State, n: nat)
    requires Fresh(s) && s.producer.Copying? && s.producer.done + n == |s.producer.chunk|
    requires s.write + |s.producer.chunk| <= s.size
    ensures var chunk, done := s.producer.chunk, s.producer.done;
      Alone(s, n) == s.(mem := Blit(s.mem, s.write + done, chunk[done..]), producer := Copying(chunk, s.producer.later, |chunk|))
    decreases n
  {
    var chunk, done := s.producer.chunk, s.producer.done;
    if n > 0 {
      CopyAlone(StepProducer(s), n - 1);
      BlitByte(s.mem, s.write + done, chunk, done, |chunk|);
    } else {
      assert Blit(s.mem, s.write + done, chunk[done..]) == s.mem;
    }
  }

  lemma {:induction false} MirrorAlone(s: State, end: nat)
    requires Fresh(s) && s.producer.Mirroring? && s.write < s.overlap
    requires s.producer.done <= end == Min(|s.producer.chunk|, s.overlap - s.write)
    ensures var chunk, done := s.producer.chunk, s.producer.done;
      Alone(s, end - done) == s.(mem := Blit(s.mem, s.size + s.write + done, chunk[done..end]),
        producer := Mirroring(chunk, s.producer.later, end))
    decreases end - s.producer.done
  {
    var chunk, done, at := s.producer.chunk, s.producer.done, s.size + s.write + s.producer.done;
    if done < end {
      var t := StepProducer(s);
      assert t == s.(mem := Set(s.mem, at, chunk[done]), producer := Mirroring(chunk, s.producer.later, done + 1));
      MirrorAlone(t, end);
      BlitByte(s.mem, at, chunk, done, end);
    } else {
      assert Blit(s.mem, at, chunk[done..end]) == s.mem;
    }
  }

  /** The two updates of the index and what comes before them. */
  lemma BumpAlone(t: State)
    requires t.producer.Copying? || t.producer.Mirroring?
    requires t.producer.Copying? ==> t.producer.done == |t.producer.chunk| && t.write >= t.overlap
    requires t.producer.Mirroring? ==> t.producer.done >= Min(|t.producer.chunk|, t.overlap - t.write)
    ensures var chunk, later, w := t.producer.chunk, t.producer.later, t.write + |t.producer.chunk|;
      Alone(t, 3) == t.(write := Wrap(w, t.size), sent := t.sent + chunk,
        producer := if later == [] then Idle else Copying(later, [], 0))
  {
  }

  /** The second memcpy, once the first is done. */
  lemma MirrorAllAlone(t: State) returns (n: nat)
    requires Fresh(t) && t.producer.Copying? && t.producer.done == |t.producer.chunk| && t.write < t.overlap
    ensures var chunk, m := t.producer.chunk, Min(|t.producer.chunk|, t.overlap - t.write);
      Alone(t, n) == t.(mem := Blit(t.mem, t.size + t.write, chunk[..m]), producer := Mirroring(chunk, t.producer.later, m))
  {
    var chunk, later, m := t.producer.chunk, t.producer.later, Min(|t.producer.chunk|, t.overlap - t.write);
    assert StepProducer(t) == t.(producer := Mirroring(chunk, later, 0));
    MirrorAlone(StepProducer(t), m);
    assert chunk[0..m] == chunk[..m];
    n := 1 + m;
  }

  /** The two memcpys of one _cbe_copy_nowrap. */
  lemma StoreAlone(s: State) returns (n: nat)
    requires Fresh(s) && s.producer.Copying? && s.producer.done == 0
    requires s.write + |s.producer.chunk| <= s.size
    ensures var chunk, later := s.producer.chunk, s.producer.later;
      Alone(s, n) == s.(mem := CbeBuffer.Store(s.mem, s.size, s.overlap, s.write, chunk),
        producer := if s.write < s.overlap then Mirroring(chunk, later, Min(|chunk|, s.overlap - s.write))
                    else Copying(chunk, later, |chunk|))
  {
    var chunk := s.producer.chunk;
    CopyAlone(s, |chunk|);
    assert chunk[0..] == chunk;
    n := |chunk|;
    if s.write < s.overlap {
      var m := MirrorAllAlone(Alone(s, n));
      AloneAdd(s, n, m);
      n := n + m;
    }
  }

  /** One _cbe_copy_nowrap, from its first byte to the wrap correction. */
  lemma ChunkAlone(s: State) returns (n: nat)
    requires Fresh(s) && s.producer.Copying? && s.producer.done == 0
    requires s.write + |s.producer.chunk| <= s.size
    ensures var chunk, later := s.producer.chunk, s.producer.later;
      Alone(s, n) == s.(mem := CbeBuffer.Store(s.mem, s.size, s.overlap, s.write, chunk),
        write := Wrap(s.write + |chunk|, s.size), sent := s.sent + chunk,
        producer := if later == [] then Idle else Copying(later, [], 0))
  {
    n := StoreAlone(s);
    BumpAlone(Alone(s, n));
    AloneAdd(s, n, 3);
    n := n + 3;
  }

  lemma SecondChunkAlone(s: State, chunk: seq<uint8>) returns (n: nat)
    requires Fresh(s) && s.write == 0 && s.producer == Copying(chunk, [], 0) && |chunk| < s.size
    ensures Alone(s, n) == s.(mem := CbeBuffer.Store(s.mem, s.size, s.overlap, 0, chunk),
      write := |chunk|, sent := s.sent + chunk, producer := Idle)
  {
    n := ChunkAlone(s);
  }

  lemma StoreTwo(s: State, buffer: seq<uint8>)
    requires Fresh(s) && s.size - s.write < |buffer| < s.size
    ensures var rest := s.size - s.write;
      && Wrap(s.write + |buffer|, s.size) == |buffer[rest..]|
      && CbeBuffer.StoreWrapped(s.mem, s.size, s.overlap, s.write, buffer) == CbeBuffer.Store(
          CbeBuffer.Store(s.mem, s.size, s.overlap, s.write, buffer[..rest]), s.size, s.overlap, 0, buffer[rest..])
  {
  }

  /** A write that crosses the end of the ring. */
  lemma WrappedWriteAlone(s: State, buffer: seq<uint8>) returns (n: nat)
    requires Fresh(s) && s.producer == Idle && s.size - s.write < |buffer| < s.size
    ensures Alone(Step(s, BeginWrite(buffer)), n)
         == s.(mem := CbeBuffer.StoreWrapped(s.mem, s.size, s.overlap, s.write, buffer),
               write := Wrap(s.write + |buffer|, s.size), sent := s.sent + buffer)
  {
    var s1, rest := Step(s, BeginWrite(buffer)), s.size - s.write;
    var first, second := buffer[..rest], buffer[rest..];
    assert s1 == s.(producer := Copying(first, second, 0));
    n := ChunkAlone(s1);
    var mem := CbeBuffer.Store(s.mem, s.size, s.overlap, s.write, first);
    var s2 := s.(mem := mem, write := 0, sent := s.sent + first, producer := Copying(second, [], 0));
    assert Alone(s1, n) == s2;
    var m := SecondChunkAlone(s2, second);
    AloneAdd(s1, n, m);
    n := n + m;
    StoreTwo(s, buffer);
    assert s.sent + first + second == s.sent + buffer;
    assert Alone(s2, m) == s2.(mem := CbeBuffer.Store(mem, s.size, s.overlap, 0, second),
      write := |second|, sent := s2.sent + second, producer := Idle);
  }

  /** cbe_write run to its end is a store at the write index, in one piece or two: what class Cbe does. */
  lemma WriteAlone(s: State, buffer: seq<uint8>) returns (n: nat)
    requires Fresh(s) && s.producer == Idle && |buffer| < s.size
    ensures Alone(Step(s, BeginWrite(buffer)), n)
         == s.(mem := CbeBuffer.StoreWrapped(s.mem, s.size, s.overlap, s.write, buffer),
               write := Wrap(s.write + |buffer|, s.size), sent := s.sent + buffer)
  {
    if s.size - s.write < |buffer| {
      n := WrappedWriteAlone(s, buffer);
    } else {
      n := ChunkAlone(Step(s, BeginWrite(buffer)));
    }
  }
}
