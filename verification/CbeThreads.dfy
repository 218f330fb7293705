/** One producer thread in cbe_write and one consumer thread in cbe_get_p/cbe_skip sharing a CBE without
    a lock. A step is one access to shared memory: one byte of a memcpy, one update of an index. */
module CbeThreads {
  import opened Memory
  import opened Ring

  /** Where the producer is in _cbe_copy: `chunk` is the buffer of the current _cbe_copy_nowrap, `later`
      the rest, for the second call. */
  datatype Producer =
    | Idle
    | Copying(chunk: seq<uint8>, later: seq<uint8>, done: nat)    // memcpy to the ring
    | Mirroring(chunk: seq<uint8>, later: seq<uint8>, done: nat)  // memcpy to the overlap area
    | Bumping(chunk: seq<uint8>, later: seq<uint8>)               // about to add to `write`
    | Wrapping(later: seq<uint8>)                                 // `write` may equal `size`

  /** Where the consumer is: it counts the used bytes, reads some of them linearly from cbe_get_p, and
      skips. */
  datatype Consumer =
    | Parked
    | Reading(seen: int, out: seq<uint8>)
    | Skipping(count: int)
    | Correcting                                                  // `read` may be `size` or more

  datatype State = State(
    mem: seq<uint8>, size: int, overlap: int, write: int, read: int,
    producer: Producer, consumer: Consumer,
    sent: seq<uint8>,   // every byte published by the producer, in order
    taken: nat)         // how many of them the consumer has skipped
  {
    /** The queue the ring stands for. */
    function Queued(): int {
      |sent| - taken
    }
  }

  datatype Action =
    | BeginWrite(buffer: seq<uint8>)
    | ProducerStep
    | Look
    | ReadByte
    | BeginSkip(count: int)
    | ConsumerStep

  predicate Init(s: State) {
    && 0 < s.size && 0 < s.overlap && s.size + s.overlap <= INT_MAX && |s.mem| == s.size + s.overlap
    && s.write == 0 && s.read == 0 && s.producer == Idle && s.consumer == Parked
    && s.sent == [] && s.taken == 0
  }

  /** A write begins only after the producer found its buffer shorter than the free count. */
  predicate Enabled(s: State, a: Action) {
    match a
    case BeginWrite(buffer) => s.producer == Idle && |buffer| < FreeOf(s.write, s.read, s.size)
    case ProducerStep => s.producer != Idle
    case Look => s.consumer == Parked
    case ReadByte => s.consumer.Reading?
      && |s.consumer.out| < Min(s.consumer.seen, s.size + s.overlap - s.read)
    case BeginSkip(count) => s.consumer.Reading? && 0 <= count
    case ConsumerStep => s.consumer.Skipping? || s.consumer.Correcting?
  }

  function Get(mem: seq<uint8>, a: int): uint8 {
    if 0 <= a < |mem| then mem[a] else 0
  }

  function Set(mem: seq<uint8>, a: int, b: uint8): seq<uint8> {
    if 0 <= a < |mem| then mem[a := b] else mem
  }

  function StepProducer(s: State): State {
    match s.producer
    case Idle => s
    case Copying(chunk, later, done) =>
      if done < |chunk| then
        s.(mem := Set(s.mem, s.write + done, chunk[done]), producer := Copying(chunk, later, done + 1))
      else if s.write < s.overlap then s.(producer := Mirroring(chunk, later, 0))
      else s.(producer := Bumping(chunk, later))
    case Mirroring(chunk, later, done) =>
      if done < Min(|chunk|, s.overlap - s.write) then
        s.(mem := Set(s.mem, s.size + s.write + done, chunk[done]), producer := Mirroring(chunk, later, done + 1))
      else s.(producer := Bumping(chunk, later))
    case Bumping(chunk, later) =>
      s.(write := s.write + |chunk|, sent := s.sent + chunk, producer := Wrapping(later))
    case Wrapping(later) =>
      s.(write := if s.write >= s.size then s.write - s.size else s.write,
         producer := if later == [] then Idle else Copying(later, [], 0))
  }

  function StepConsumer(s: State): State {
    match s.consumer
    case Parked => s
    case Reading(_, _) => s
    case Skipping(count) => s.(read := s.read + count, taken := s.taken + Max(0, count), consumer := Correcting)
    case Correcting => s.(read := if s.read >= s.size then s.read - s.size else s.read, consumer := Parked)
  }

  function Step(s: State, a: Action): State {
    match a
    case BeginWrite(buffer) =>
      var rest := s.size - s.write;
      s.(producer := if rest >= |buffer| || rest < 0 then Copying(buffer, [], 0)
                     else Copying(buffer[..rest], buffer[rest..], 0))
    case ProducerStep => StepProducer(s)
    case Look => s.(consumer := Reading(UsedOf(s.write, s.read, s.size), []))
    case ReadByte =>
      if s.consumer.Reading? then
        s.(consumer := s.consumer.(out := s.consumer.out + [Get(s.mem, s.read + |s.consumer.out|)]))
      else s
    case BeginSkip(count) => s.(consumer := Skipping(Min(count, UsedOf(s.write, s.read, s.size))))
    case ConsumerStep => StepConsumer(s)
  }

  /** Any interleaving: the two threads' actions in any order in which each is enabled. */
  ghost predicate IsRun(s: State, actions: seq<Action>)
    decreases |actions|
  {
    actions == [] || (Enabled(s, actions[0]) && IsRun(Step(s, actions[0]), actions[1..]))
  }

  ghost function Exec(s: State, actions: seq<Action>): State
    decreases |actions|
  {
    if actions == [] then s else Exec(Step(s, actions[0]), actions[1..])
  }

  /** The property asked of the counts: whenever a thread counts, it gets the length of the queue or the
      space left beside it, although the other thread's index may be un-wrapped at that moment. */
  ghost predicate CountRight(s: State, a: Action) {
    match a
    case BeginWrite(_) => FreeOf(s.write, s.read, s.size) == s.size - s.Queued()
    case Look => UsedOf(s.write, s.read, s.size) == s.Queued()
    case BeginSkip(_) => UsedOf(s.write, s.read, s.size) == s.Queued()
    case _ => true
  }

  /** What a thread can check of the indices it counts with: that they are no further apart than the
      indices of a ring of this size can be. */
  predicate CountInRange(s: State, a: Action) {
    match a
    case BeginWrite(_) => s.read - s.write <= s.size
    case Look => s.write - s.read < s.size
    case BeginSkip(_) => s.write - s.read < s.size
    case _ => true
  }

  ghost predicate AllCountsRight(s: State, actions: seq<Action>)
    decreases |actions|
  {
    actions == [] || (CountRight(s, actions[0]) && AllCountsRight(Step(s, actions[0]), actions[1..]))
  }

  ghost predicate AllCountsInRange(s: State, actions: seq<Action>)
    decreases |actions|
  {
    actions == [] || (CountInRange(s, actions[0]) && AllCountsInRange(Step(s, actions[0]), actions[1..]))
  }

  /** The address the producer stores to next, or -1 when its next step stores nothing. */
  function StoreAddress(s: State): int {
    match s.producer
    case Copying(chunk, _, done) => if done < |chunk| then s.write + done else -1
    case Mirroring(chunk, _, done) =>
      if done < Min(|chunk|, s.overlap - s.write) then s.size + s.write + done else -1
    case _ => -1
  }

  /** Bytes the consumer may read linearly from cbe_get_p. */
  function LinearSize(s: State): int {
    Min(s.Queued(), s.size + s.overlap - s.read)
  }

  /** The linear window at cbe_get_p is in memory and is the front of the queue. */
  ghost predicate WindowRight(s: State) {
    s.consumer != Correcting ==>
      var n := LinearSize(s);
      && 0 <= n && 0 <= s.read && s.read + n <= |s.mem| && s.taken + n <= |s.sent|
      && s.mem[s.read..s.read + n] == s.sent[s.taken..s.taken + n]
  }

  /** A store in progress stays in memory and out of the linear window. */
  ghost predicate StoresOutside(s: State) {
    var a := StoreAddress(s);
    a != -1 ==> 0 <= a < |s.mem| && (s.consumer != Correcting ==> !(s.read <= a < s.read + LinearSize(s)))
  }

  /** What the consumer has read, one byte at a time while the producer was storing, is the front of
      the queue. */
  ghost predicate ReadRight(s: State) {
    s.consumer.Reading? ==>
      && |s.consumer.out| <= s.Queued() && s.consumer.seen <= s.Queued()
      && s.consumer.out == s.sent[s.taken..s.taken + |s.consumer.out|]
  }

  ghost predicate Safe(s: State) {
    && 0 <= s.Queued() < s.size
    && WindowRight(s)
    && StoresOutside(s)
    && ReadRight(s)
  }

  // The inductive invariant.

  ghost predicate Indices(s: State) {
    && 0 < s.size && 0 < s.overlap && s.size + s.overlap <= INT_MAX && |s.mem| == s.size + s.overlap
    && s.taken <= |s.sent| && s.Queued() < s.size
    && 0 <= s.read && (if s.consumer == Correcting then s.read < 2 * s.size else s.read < s.size)
    && 0 <= s.write && (if s.producer.Wrapping? then s.write <= s.size else s.write < s.size)
    && Wrap(Wrap(s.read, s.size) + s.Queued(), s.size) == Wrap(s.write, s.size)
  }

  /** The bytes still to be published fit in front of the consumer. */
  ghost predicate Room(s: State) {
    match s.producer
    case Idle => true
    case Copying(chunk, later, done) => Fits(s, chunk, later) && done <= |chunk|
    case Mirroring(chunk, later, done) => Fits(s, chunk, later) && done <= |chunk|
    case Bumping(chunk, later) => Fits(s, chunk, later)
    case Wrapping(later) => s.Queued() + |later| < s.size && (later != [] ==> s.write == s.size)
  }

  ghost predicate Fits(s: State, chunk: seq<uint8>, later: seq<uint8>) {
    && s.Queued() + |chunk| + |later| < s.size
    && s.write + |chunk| <= s.size
    && (later != [] ==> s.write + |chunk| == s.size)
  }

  /** Cell k places behind the read index holds b, and so does its mirror if it has one. */
  ghost predicate Holds(mem: seq<uint8>, size: int, overlap: int, start: int, k: int, b: uint8) {
    var p := Wrap(start + k, size);
    Get(mem, p) == b && (p < overlap ==> Get(mem, size + p) == b)
  }

  ghost predicate QueueHeld(mem: seq<uint8>, size: int, overlap: int, start: int, queue: seq<uint8>) {
    forall k :: 0 <= k < |queue| ==> Holds(mem, size, overlap, start, k, queue[k])
  }

  ghost predicate WindowHeld(s: State) {
    s.taken <= |s.sent| && QueueHeld(s.mem, s.size, s.overlap, Wrap(s.read, s.size), s.sent[s.taken..])
  }

  /** How much of the chunk is already in the ring and in the mirror. */
  ghost predicate ChunkHeld(s: State) {
    match s.producer
    case Copying(chunk, _, done) => Stored(s.mem, s.write, chunk, Min(done, |chunk|))
    case Mirroring(chunk, _, done) =>
      && Stored(s.mem, s.write, chunk, |chunk|)
      && Stored(s.mem, s.size + s.write, chunk, Min(done, |chunk|))
    case Bumping(chunk, _) =>
      && Stored(s.mem, s.write, chunk, |chunk|)
      && Stored(s.mem, s.size + s.write, chunk, Max(0, Min(|chunk|, s.overlap - s.write)))
    case _ => true
  }

  ghost predicate Stored(mem: seq<uint8>, at: int, chunk: seq<uint8>, n: int)
    requires n <= |chunk|
  {
    forall j :: 0 <= j < n ==> Get(mem, at + j) == chunk[j]
  }

  ghost predicate ConsumerHeld(s: State) {
    match s.consumer
    case Parked => true
    case Reading(seen, out) => ReadRight(s) && s.read + |out| <= s.size + s.overlap
    case Skipping(count) => 0 <= count <= s.Queued()
    case Correcting => true
  }

  ghost predicate Inv(s: State) {
    Indices(s) && Room(s) && WindowHeld(s) && ChunkHeld(s) && ConsumerHeld(s)
  }

  lemma InvImpliesSafe(s: State)
    requires Inv(s)
    ensures Safe(s)
  {
  }

  /** A store outside the window, in the ring or in the mirror, leaves the window held. */
  lemma SetKeepsQueue(mem: seq<uint8>, size: int, overlap: int, start: int, queue: seq<uint8>,
      a: int, cell: int, b: uint8)
    requires 0 <= start < size && |queue| < size && QueueHeld(mem, size, overlap, start, queue)
    requires 0 <= cell < size && (a == cell || a == size + cell)
    requires start + |queue| <= if cell < start then cell + size else cell
    ensures QueueHeld(Set(mem, a, b), size, overlap, start, queue)
  {
  }

  lemma SkipShortensQueue(mem: seq<uint8>, size: int, overlap: int, start: int, queue: seq<uint8>, count: int)
    requires 0 <= start < size && 0 <= count <= |queue| < size && QueueHeld(mem, size, overlap, start, queue)
    ensures QueueHeld(mem, size, overlap, Wrap(start + count, size), queue[count..])
  {
  }

  lemma SetExtendsChunk(mem: seq<uint8>, at: int, chunk: seq<uint8>, done: nat)
    requires done < |chunk| && 0 <= at && at + done < |mem| && Stored(mem, at, chunk, done)
    ensures Stored(Set(mem, at + done, chunk[done]), at, chunk, done + 1)
  {
  }

  lemma SetKeepsChunk(mem: seq<uint8>, at: int, chunk: seq<uint8>, n: nat, a: int, b: uint8)
    requires n <= |chunk| && Stored(mem, at, chunk, n) && !(at <= a < at + n)
    ensures Stored(Set(mem, a, b), at, chunk, n)
  {
  }

  /** Copying changes neither an index nor what has been published. */
  lemma SameIndices(s: State, s': State)
    requires Indices(s) && s' == s.(mem := s'.mem, producer := s'.producer) && |s'.mem| == |s.mem|
    requires !s.producer.Wrapping?
    ensures Indices(s')
  {
  }

  lemma CopyKeepsIndices(s: State)
    requires Indices(s) && Room(s) && (s.producer.Copying? || s.producer.Mirroring?)
    ensures Indices(StepProducer(s)) && Room(StepProducer(s))
  {
    SameIndices(s, StepProducer(s));
  }

  lemma BumpKeepsIndices(s: State)
    requires Indices(s) && Room(s) && s.producer.Bumping?
    ensures Indices(StepProducer(s)) && Room(StepProducer(s))
  {
    var s' := StepProducer(s);
    assert s'.Queued() == s.Queued() + |s.producer.chunk| && s'.write == s.write + |s.producer.chunk|;
  }

  lemma WrapKeepsIndices(s: State)
    requires Indices(s) && Room(s) && s.producer.Wrapping?
    ensures Indices(StepProducer(s)) && Room(StepProducer(s))
  {
  }

  /** What the producer does leaves what the consumer has read the front of the queue. */
  lemma ProducerKeepsConsumer(s: State)
    requires Inv(s) && s.producer != Idle
    ensures ConsumerHeld(StepProducer(s))
  {
    var s' := StepProducer(s);
    assert s'.consumer == s.consumer && s'.taken == s.taken && s'.read == s.read && s.sent <= s'.sent;
    if s.consumer.Reading? {
      var n := s.taken + |s.consumer.out|;
      assert s'.sent[..|s.sent|] == s.sent;
      assert s'.sent[s.taken..n] == s.sent[s.taken..n];
    }
  }

  lemma CopyKeepsWindow(s: State)
    requires Inv(s) && (s.producer.Copying? || s.producer.Mirroring?)
    ensures WindowHeld(StepProducer(s))
  {
    var queue, start := s.sent[s.taken..], Wrap(s.read, s.size);
    var a := StoreAddress(s);
    if a != -1 {
      var cell := s.write + s.producer.done;
      SetKeepsQueue(s.mem, s.size, s.overlap, start, queue, a, cell, s.producer.chunk[s.producer.done]);
    }
  }

  lemma BumpKeepsWindow(s: State)
    requires Inv(s) && s.producer.Bumping?
    ensures WindowHeld(StepProducer(s))
  {
  }

  lemma CopyKeepsChunk(s: State)
    requires Inv(s) && s.producer.Copying?
    ensures ChunkHeld(StepProducer(s))
  {
  }

  lemma MirrorKeepsChunk(s: State)
    requires Inv(s) && s.producer.Mirroring?
    ensures ChunkHeld(StepProducer(s))
  {
    var Mirroring(chunk, later, done) := s.producer;
    var s', a := StepProducer(s), s.size + s.write + done;
    if done < Min(|chunk|, s.overlap - s.write) {
      SetExtendsChunk(s.mem, s.size + s.write, chunk, done);
      SetKeepsChunk(s.mem, s.write, chunk, |chunk|, a, chunk[done]);
      assert s'.mem == Set(s.mem, a, chunk[done]) && s'.producer == Mirroring(chunk, later, done + 1);
    } else {
      assert s'.mem == s.mem && s'.producer == Bumping(chunk, later);
    }
  }

  lemma ProducerKeepsInv(s: State)
    requires Inv(s) && s.producer != Idle
    ensures Inv(StepProducer(s))
  {
    ProducerKeepsConsumer(s);
    match s.producer
    case Copying(_, _, _) =>
      CopyKeepsIndices(s);
      CopyKeepsWindow(s);
      CopyKeepsChunk(s);
    case Mirroring(_, _, _) =>
      CopyKeepsIndices(s);
      CopyKeepsWindow(s);
      MirrorKeepsChunk(s);
    case Bumping(_, _) =>
      BumpKeepsIndices(s);
      BumpKeepsWindow(s);
    case Wrapping(_) =>
      WrapKeepsIndices(s);
  }

  lemma ConsumerKeepsIndices(s: State)
    requires Indices(s) && Room(s) && ConsumerHeld(s) && (s.consumer.Skipping? || s.consumer.Correcting?)
    ensures Indices(StepConsumer(s)) && Room(StepConsumer(s))
  {
  }

  lemma SkipMovesWindow(s: State, s': State, count: nat)
    requires 0 <= s.read < s.size && s.taken <= |s.sent| && count <= s.Queued() < s.size && WindowHeld(s)
    requires s'.mem == s.mem && s'.size == s.size && s'.overlap == s.overlap && s'.sent == s.sent
    requires s'.read == s.read + count && s'.taken == s.taken + count
    ensures WindowHeld(s')
  {
    var queue := s.sent[s.taken..];
    SkipShortensQueue(s.mem, s.size, s.overlap, s.read, queue, count);
    assert s'.sent[s'.taken..] == queue[count..];
  }

  lemma SkipKeepsWindow(s: State)
    requires 0 <= s.read < s.size && s.taken <= |s.sent| && s.Queued() < s.size && WindowHeld(s)
    requires s.consumer.Skipping? && 0 <= s.consumer.count <= s.Queued()
    ensures WindowHeld(StepConsumer(s))
  {
    SkipMovesWindow(s, StepConsumer(s), s.consumer.count);
  }

  lemma CorrectKeepsWindow(s: State)
    requires Indices(s) && WindowHeld(s) && s.consumer.Correcting?
    ensures WindowHeld(StepConsumer(s))
  {
    assert Wrap(Wrap(s.read, s.size), s.size) == Wrap(s.read, s.size);
  }

  lemma ConsumerKeepsChunk(s: State)
    requires ChunkHeld(s) && (s.consumer.Skipping? || s.consumer.Correcting?)
    ensures ChunkHeld(StepConsumer(s))
  {
    assert StepConsumer(s).mem == s.mem && StepConsumer(s).producer == s.producer;
  }

  lemma ConsumerKeepsInv(s: State)
    requires Inv(s) && (s.consumer.Skipping? || s.consumer.Correcting?)
    ensures Inv(StepConsumer(s))
  {
    ConsumerKeepsIndices(s);
    ConsumerKeepsChunk(s);
    if s.consumer.Skipping? {
      SkipKeepsWindow(s);
    } else {
      CorrectKeepsWindow(s);
    }
    assert ConsumerHeld(StepConsumer(s));
  }

  /** Steps that only change what the consumer knows. */
  lemma OnlyConsumer(s: State, s': State)
    requires Inv(s) && s' == s.(consumer := s'.consumer) && s.consumer != Correcting && s'.consumer != Correcting
    ensures Indices(s') && Room(s') && WindowHeld(s') && ChunkHeld(s')
  {
  }

  lemma ReadByteGets(s: State)
    requires Inv(s) && Enabled(s, ReadByte)
    ensures s.taken + |s.consumer.out| < |s.sent|
    ensures Get(s.mem, s.read + |s.consumer.out|) == s.sent[s.taken + |s.consumer.out|]
  {
    var n, queue := |s.consumer.out|, s.sent[s.taken..];
    assert Holds(s.mem, s.size, s.overlap, s.read, n, queue[n]);
  }

  lemma ReadByteKeepsInv(s: State)
    requires Inv(s) && Enabled(s, ReadByte)
    ensures Inv(Step(s, ReadByte))
  {
    ReadByteGets(s);
    var s', n := Step(s, ReadByte), |s.consumer.out|;
    OnlyConsumer(s, s');
    assert s.sent[s.taken..s.taken + n + 1] == s.sent[s.taken..s.taken + n] + [s.sent[s.taken + n]];
  }

  lemma BeginWriteKeepsInv(s: State, buffer: seq<uint8>)
    requires Inv(s) && Enabled(s, BeginWrite(buffer)) && CountInRange(s, BeginWrite(buffer))
    ensures Inv(Step(s, BeginWrite(buffer)))
  {
  }

  lemma LookKeepsInv(s: State, a: Action)
    requires Inv(s) && Enabled(s, a) && CountInRange(s, a)
    requires a.Look? || a.BeginSkip?
    ensures Inv(Step(s, a))
  {
    assert UsedOf(s.write, s.read, s.size) == s.Queued();
    OnlyConsumer(s, Step(s, a));
  }

  lemma StepKeepsInv(s: State, a: Action)
    requires Inv(s) && Enabled(s, a) && CountInRange(s, a)
    ensures Inv(Step(s, a))
  {
    match a
    case ProducerStep =>
      ProducerKeepsInv(s);
    case ReadByte =>
      ReadByteKeepsInv(s);
    case ConsumerStep =>
      ConsumerKeepsInv(s);
    case BeginWrite(buffer) =>
      BeginWriteKeepsInv(s, buffer);
    case _ =>
      LookKeepsInv(s, a);
  }

  /** While the invariant holds, a count is right exactly when it is one a ring can have. */
  lemma CountRightIffInRange(s: State, a: Action)
    requires Inv(s) && Enabled(s, a)
    ensures CountRight(s, a) <==> CountInRange(s, a)
  {
  }

  lemma {:induction false} RunKeepsInv(s: State, actions: seq<Action>, n: nat)
    requires Inv(s) && IsRun(s, actions) && AllCountsInRange(s, actions) && n <= |actions|
    ensures Inv(Exec(s, actions[..n]))
    decreases n
  {
    if n > 0 {
      StepKeepsInv(s, actions[0]);
      RunKeepsInv(Step(s, actions[0]), actions[1..], n - 1);
      assert actions[..n][1..] == actions[1..][..n - 1];
    }
  }

  lemma {:induction false} RunCounts(s: State, actions: seq<Action>)
    requires Inv(s) && IsRun(s, actions)
    ensures AllCountsRight(s, actions) <==> AllCountsInRange(s, actions)
    decreases |actions|
  {
    if actions != [] {
      CountRightIffInRange(s, actions[0]);
      if CountInRange(s, actions[0]) {
        StepKeepsInv(s, actions[0]);
        RunCounts(Step(s, actions[0]), actions[1..]);
      }
    }
  }

  /** Over any interleaving: every count either thread takes is right exactly when every count is in
      range, and then the linear window is at all times the front of the queue, no store touches it, and
      what the consumer read is what was sent. */
  lemma SafeOverRuns(s: State, actions: seq<Action>)
    requires Init(s) && IsRun(s, actions)
    ensures AllCountsRight(s, actions) <==> AllCountsInRange(s, actions)
    ensures AllCountsInRange(s, actions) ==> forall n :: 0 <= n <= |actions| ==> Safe(Exec(s, actions[..n]))
  {
    RunCounts(s, actions);
    if AllCountsInRange(s, actions) {
      forall n | 0 <= n <= |actions|
        ensures Safe(Exec(s, actions[..n]))
      {
        RunKeepsInv(s, actions, n);
        InvImpliesSafe(Exec(s, actions[..n]));
      }
    }
  }

  /** The other thread takes no step between an index's increment and its correction. */
  ghost predicate Uninterrupted(s: State, actions: seq<Action>)
    decreases |actions|
  {
    actions != [] ==>
      && (s.producer.Wrapping? ==> actions[0] == ProducerStep)
      && (s.consumer == Correcting ==> actions[0] == ConsumerStep)
      && Uninterrupted(Step(s, actions[0]), actions[1..])
  }

  lemma {:induction false} UninterruptedFrom(s: State, actions: seq<Action>)
    requires Inv(s) && !(s.producer.Wrapping? && s.consumer == Correcting)
    requires IsRun(s, actions) && Uninterrupted(s, actions)
    ensures AllCountsRight(s, actions) && AllCountsInRange(s, actions)
    decreases |actions|
  {
    if actions != [] {
      CountRightIffInRange(s, actions[0]);
      StepKeepsInv(s, actions[0]);
      UninterruptedFrom(Step(s, actions[0]), actions[1..]);
    }
  }

  /** Transient index values are harmless as long as they are corrected before the other thread looks. */
  lemma UninterruptedRunsCountRight(s: State, actions: seq<Action>)
    requires Init(s) && IsRun(s, actions) && Uninterrupted(s, actions)
    ensures AllCountsRight(s, actions)
    ensures forall n :: 0 <= n <= |actions| ==> Safe(Exec(s, actions[..n]))
  {
    UninterruptedFrom(s, actions);
    SafeOverRuns(s, actions);
  }

  /** `actions` leads from s to t, and every count taken on the way is right. */
  ghost predicate Reached(s: State, actions: seq<Action>, t: State) {
    IsRun(s, actions) && AllCountsRight(s, actions) && Exec(s, actions) == t
  }

  lemma Start(s: State) returns (actions: seq<Action>)
    ensures Reached(s, actions, s)
  {
    actions := [];
  }

  lemma {:induction false} Extend(s: State, actions: seq<Action>, t: State, a: Action)
      returns (actions': seq<Action>, t': State)
    requires Reached(s, actions, t) && Enabled(t, a) && CountRight(t, a)
    ensures t' == Step(t, a) && actions' == actions + [a] && Reached(s, actions', t')
    decreases |actions|
  {
    actions', t' := actions + [a], Step(t, a);
    if actions != [] {
      var _, _ := Extend(Step(s, actions[0]), actions[1..], t, a);
      assert actions'[1..] == actions[1..] + [a];
    }
  }

  lemma WriteFirst(s: State) returns (run: seq<Action>, t: State)
    requires s == State([0, 0, 0], 2, 1, 0, 0, Idle, Parked, [], 0)
    ensures Reached(s, run, t) && t == State([7, 0, 7], 2, 1, 1, 0, Idle, Parked, [7], 0)
  {
    run := Start(s);
    run, t := Extend(s, run, s, BeginWrite([7]));
    run, t := Extend(s, run, t, ProducerStep);
    run, t := Extend(s, run, t, ProducerStep);
    assert t == State([7, 0, 0], 2, 1, 0, 0, Mirroring([7], [], 0), Parked, [], 0);
    run, t := Extend(s, run, t, ProducerStep);
    run, t := Extend(s, run, t, ProducerStep);
    run, t := Extend(s, run, t, ProducerStep);
    run, t := Extend(s, run, t, ProducerStep);
  }

  lemma SkipFirst(s: State) returns (run: seq<Action>, t: State)
    requires s == State([0, 0, 0], 2, 1, 0, 0, Idle, Parked, [], 0)
    ensures Reached(s, run, t) && t == State([7, 0, 7], 2, 1, 1, 1, Idle, Parked, [7], 1)
  {
    run, t := WriteFirst(s);
    run, t := Extend(s, run, t, Look);
    run, t := Extend(s, run, t, BeginSkip(1));
    run, t := Extend(s, run, t, ConsumerStep);
    run, t := Extend(s, run, t, ConsumerStep);
  }

  /** The producer writes another byte as far as the increment. */
  lemma IncrementSecond(s: State) returns (run: seq<Action>, t: State)
    requires s == State([0, 0, 0], 2, 1, 0, 0, Idle, Parked, [], 0)
    ensures Reached(s, run, t) && t == State([7, 8, 7], 2, 1, 2, 1, Wrapping([]), Parked, [7, 8], 1)
  {
    run, t := SkipFirst(s);
    run, t := Extend(s, run, t, BeginWrite([8]));
    run, t := Extend(s, run, t, ProducerStep);
    run, t := Extend(s, run, t, ProducerStep);
    assert t == State([7, 8, 7], 2, 1, 1, 1, Bumping([8], []), Parked, [7], 1);
    run, t := Extend(s, run, t, ProducerStep);
  }

  /** They are not harmless in general: in a ring of two bytes the consumer empties the ring and wraps
      while the producer sits between `write += count` and the correction, and then counts two bytes in
      an empty ring. */
  lemma StaleIndexMiscounts()
    ensures exists s: State, actions: seq<Action> ::
      Init(s) && IsRun(s, actions) && AllCountsRight(s, actions)
      && Enabled(Exec(s, actions), Look) && !CountRight(Exec(s, actions), Look)
  {
    var s := State([0, 0, 0], 2, 1, 0, 0, Idle, Parked, [], 0);
    var run, t := IncrementSecond(s);
    run, t := Extend(s, run, t, Look);
    run, t := Extend(s, run, t, BeginSkip(1));
    assert t == State([7, 8, 7], 2, 1, 2, 1, Wrapping([]), Skipping(1), [7, 8], 1);
    run, t := Extend(s, run, t, ConsumerStep);
    run, t := Extend(s, run, t, ConsumerStep);
    assert t == State([7, 8, 7], 2, 1, 2, 0, Wrapping([]), Parked, [7, 8], 2);
  }
}
