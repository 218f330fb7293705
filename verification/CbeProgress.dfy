/** What whole runs of the two threads of CbeThreads achieve: every byte handed to cbe_write is published, in
    order, every cbe_skip drops what it counted, and each call ends. */
module CbeProgress {
  import opened CbeThreads
  import opened Memory
  import opened Ring

  // The consumer's calls.

  /** The queue of class Cbe, as long as neither index waits for its correction. */
  lemma QueueIsSent(s: State)
    requires Inv(s) && s.write < s.size && s.read < s.size
    ensures Used(s.write, s.read, s.size) == s.Queued()
    ensures Queue(s.mem, s.size, s.write, s.read) == s.sent[s.taken..]
  {
    var queue, held := Queue(s.mem, s.size, s.write, s.read), s.sent[s.taken..];
    forall k | 0 <= k < |held|
      ensures queue[k] == held[k]
    {
      assert Holds(s.mem, s.size, s.overlap, s.read, k, held[k]);
    }
  }

  /** cbe_skip run to its end leaves what class Cbe's leaves: min(count, queued) bytes are skipped, */
  lemma SkipAlone(s: State, count: int)
    requires Indices(s) && Enabled(s, BeginSkip(count)) && CountRight(s, BeginSkip(count))
    ensures var n := Min(count, s.Queued());
      StepConsumer(StepConsumer(Step(s, BeginSkip(count))))
        == s.(read := Wrap(s.read + n, s.size), taken := s.taken + n, consumer := Parked)
  {
  }

  /** and that drops them from the front of the queue. */
  lemma SkipDrops(s: State, n: int)
    requires Inv(s) && s.write < s.size && s.read < s.size && 0 <= n <= s.Queued()
    ensures Queue(s.mem, s.size, s.write, Wrap(s.read + n, s.size)) == Queue(s.mem, s.size, s.write, s.read)[n..]
  {
    QueueIsSent(s);
    SkipDequeues(s.mem, s.size, s.write, s.read, n);
  }

  /** A count sees the whole queue. */
  lemma LookSees(s: State)
    requires Inv(s) && Enabled(s, Look) && CountRight(s, Look)
    ensures Step(s, Look) == s.(consumer := Reading(s.Queued(), []))
  {
  }

  /** Reading a byte reads the next one of the queue. */
  lemma ReadByteReads(s: State)
    requires Inv(s) && Enabled(s, ReadByte)
    ensures s.taken + |s.consumer.out| < |s.sent|
    ensures Step(s, ReadByte) == s.(consumer :=
      Reading(s.consumer.seen, s.consumer.out + [s.sent[s.taken + |s.consumer.out|]]))
  {
    ReadByteGets(s);
  }

  /** A write begins exactly when its bytes are fewer than the space left beside the queue. */
  lemma WriteBeginsIff(s: State, buffer: seq<uint8>)
    requires Inv(s) && CountRight(s, BeginWrite(buffer))
    ensures Enabled(s, BeginWrite(buffer)) <==> s.producer == Idle && |buffer| < s.size - s.Queued()
  {
  }

  // Conservation.

  /** Bytes the consumer has decided to skip and not yet skipped. */
  function Skips(s: State): int {
    if s.consumer.Skipping? then s.consumer.count else 0
  }

  /** What the skips of a run ask for, each cut to the queue it finds. */
  ghost function Skipped(s: State, actions: seq<Action>): int
    decreases |actions|
  {
    if actions == [] then 0
    else
      (if actions[0].BeginSkip? then Min(actions[0].count, s.Queued()) else 0)
      + Skipped(Step(s, actions[0]), actions[1..])
  }

  /** Bytes of the write in progress that are not published. */
  function Unsent(p: Producer): seq<uint8> {
    match p
    case Idle => []
    case Copying(chunk, later, _) => chunk + later
    case Mirroring(chunk, later, _) => chunk + later
    case Bumping(chunk, later) => chunk + later
    case Wrapping(later) => later
  }

  /** What the writes of a run were given, in order. */
  function Written(actions: seq<Action>): seq<uint8> {
    if actions == [] then []
    else (if actions[0].BeginWrite? then actions[0].buffer else []) + Written(actions[1..])
  }

  lemma StepSkips(s: State, a: Action)
    requires Inv(s) && Enabled(s, a) && CountInRange(s, a)
    ensures Step(s, a).taken + Skips(Step(s, a))
         == s.taken + Skips(s) + if a.BeginSkip? then Min(a.count, s.Queued()) else 0
  {
    CountRightIffInRange(s, a);
  }

  /** Every byte given to a write that has begun. */
  function Given(s: State): seq<uint8> {
    s.sent + Unsent(s.producer)
  }

  lemma StepSends(s: State, a: Action)
    requires Enabled(s, a)
    ensures Given(Step(s, a)) == Given(s) + if a.BeginWrite? then a.buffer else []
  {
    if a.ProducerStep? && s.producer.Bumping? {
      assert s.sent + s.producer.chunk + s.producer.later == s.sent + (s.producer.chunk + s.producer.later);
    }
  }

  lemma Assoc(a: seq<uint8>, b: seq<uint8>, c: seq<uint8>)
    ensures a + b + c == a + (b + c)
  {
  }

  lemma {:induction false} RunSends(s: State, actions: seq<Action>)
    requires IsRun(s, actions)
    ensures Given(Exec(s, actions)) == Given(s) + Written(actions)
    decreases |actions|
  {
    if actions != [] {
      var a := actions[0];
      StepSends(s, a);
      RunSends(Step(s, a), actions[1..]);
      Assoc(Given(s), if a.BeginWrite? then a.buffer else [], Written(actions[1..]));
    }
  }

  lemma {:induction false} RunSkips(s: State, actions: seq<Action>)
    requires Inv(s) && IsRun(s, actions) && AllCountsInRange(s, actions)
    ensures Exec(s, actions).taken + Skips(Exec(s, actions)) == s.taken + Skips(s) + Skipped(s, actions)
    decreases |actions|
  {
    if actions != [] {
      StepKeepsInv(s, actions[0]);
      StepSkips(s, actions[0]);
      RunSkips(Step(s, actions[0]), actions[1..]);
    }
  }

  /** Over any interleaving whose counts are in range: what was published and what is still to be published
      are together what the writes were given, in order, and what was skipped is what the skips asked for,
      each cut to the queue at its count. */
  lemma ConservedOverRuns(s: State, actions: seq<Action>)
    requires Init(s) && IsRun(s, actions) && AllCountsInRange(s, actions)
    ensures var t := Exec(s, actions);
      t.sent + Unsent(t.producer) == Written(actions) && t.taken + Skips(t) == Skipped(s, actions)
  {
    RunSends(s, actions);
    RunSkips(s, actions);
  }

  // Each write ends.

  /** Producer steps left at most. */
  function WriteRank(p: Producer): int {
    match p
    case Idle => 0
    case Copying(chunk, later, done) => |chunk| - done + |chunk| + 4 + LaterRank(later)
    case Mirroring(chunk, later, done) => |chunk| - done + 3 + LaterRank(later)
    case Bumping(_, later) => 2 + LaterRank(later)
    case Wrapping(later) => 1 + LaterRank(later)
  }

  function LaterRank(later: seq<uint8>): nat {
    if later == [] then 0 else 2 * |later| + 4
  }

  lemma RankFalls(s: State, a: Action)
    requires Inv(s) && Enabled(s, a) && !a.BeginWrite?
    ensures WriteRank(Step(s, a).producer) <= WriteRank(s.producer) - if a.ProducerStep? then 1 else 0
  {
  }

  lemma RankIsLeft(s: State)
    requires Inv(s)
    ensures WriteRank(s.producer) >= 0 && (WriteRank(s.producer) == 0 <==> s.producer == Idle)
  {
  }

  function ProducerSteps(actions: seq<Action>): nat {
    if actions == [] then 0 else (if actions[0].ProducerStep? then 1 else 0) + ProducerSteps(actions[1..])
  }

  predicate NoWrites(actions: seq<Action>) {
    forall k :: 0 <= k < |actions| ==> !actions[k].BeginWrite?
  }

  /** However the consumer's steps fall between them, a write is over after at most WriteRank steps of its
      thread, which until then can always take one; then every byte of it is published. */
  lemma {:induction false} WriteEnds(s: State, actions: seq<Action>)
    requires Inv(s) && IsRun(s, actions) && AllCountsInRange(s, actions) && NoWrites(actions)
    ensures ProducerSteps(actions) <= WriteRank(s.producer)
    ensures ProducerSteps(actions) == WriteRank(s.producer) ==>
      Exec(s, actions).producer == Idle && Exec(s, actions).sent == Given(s)
    ensures Exec(s, actions).producer == Idle || Enabled(Exec(s, actions), ProducerStep)
    decreases |actions|
  {
    RankIsLeft(s);
    if actions != [] {
      var a := actions[0];
      StepKeepsInv(s, a);
      RankFalls(s, a);
      StepSends(s, a);
      WriteEnds(Step(s, a), actions[1..]);
    }
  }
}
