/** The two-stage decoder of codec_ffmpeg_HD.c: the ARM side (_decode, _flush) and the DSP thread
    (dsp_worker) pass contexts round three bounded queues; flushing relies on the set/ack handshake. */
module Pipeline {
  import Threads = ThreadStates

  type FrameId = nat
  type Meta = int  // everything _decode_arm leaves in a context and _decode_dsp copies to the frame

  datatype FrameRef = Null | Frame(id: FrameId)

  datatype Job = Job(ctx: nat, frame: FrameRef)

  /** stream_q_put: a full queue refuses the entry, and no caller here looks at the refusal. */
  function Put(q: seq<Job>, length: nat, job: Job): seq<Job> {
    if |q| < length then q + [job] else q
  }

  /** Where the ARM side is. `out` is the frame of the job taken from the done queue, if any. */
  datatype Arm =
    | Idle
    | TakeDone(frame: FrameId, meta: Meta, out: FrameRef, second: bool)  // stream_q_get_wait tries twice
    | PutEmpty(frame: FrameId, meta: Meta, out: FrameRef, ctx: nat)
    | TakeEmpty(frame: FrameId, meta: Meta, out: FrameRef)
    | Decoding(frame: FrameId, meta: Meta, out: FrameRef, ctx: nat)
    | PutFull(frame: FrameId, meta: Meta, out: FrameRef, ctx: nat)
    | Returning(out: FrameRef)
    | Stopping       // about to call thread_state_set(IDLE)
    | StopWait
    | Reset(k: nat)  // in _queue_IM_buffers: three flushes, then one put per context
    | Starting       // about to call thread_state_set(RUNNING)
    | StartWait

  /** Where the DSP thread is inside dsp_worker. */
  datatype Dsp = Out | TakeFull(second: bool) | DecodeDsp(job: Job) | PutDone(job: Job)

  datatype State = State(
    n: nat,  // IM_ctx_num
    empty: seq<Job>, full: seq<Job>, done: seq<Job>,
    ctxMeta: map<nat, Meta>, frameMeta: map<FrameId, Meta>,
    arm: Arm, dsp: Dsp, h: Threads.State,
    ins: seq<(FrameId, Meta)>,    // frames handed to _decode since the last flush, as decoded
    outs: seq<(FrameId, Meta)>)   // frames it gave back, as the caller found them

  datatype Action =
    | Decode(frame: FrameId, meta: Meta)
    | Flush
    | ArmStep
    | DspStep
    | SpuriousWake

  function MetaOf(metas: map<nat, Meta>, k: nat): Meta {
    if k in metas then metas[k] else 0
  }

  function Frames(entries: seq<(FrameId, Meta)>): (r: seq<FrameId>)
    ensures |r| == |entries| && forall i :: 0 <= i < |r| ==> r[i] == entries[i].0
  {
    seq(|entries|, i requires 0 <= i < |entries| => entries[i].0)
  }

  /** Frames handed in and not yet given back. */
  function Outstanding(s: State): seq<FrameId> {
    if |s.outs| <= |s.ins| then Frames(s.ins[|s.outs|..]) else []
  }

  function Contexts(n: nat): (r: seq<nat>)
    ensures |r| == n && forall i :: 0 <= i < n ==> r[i] == i
  {
    seq(n, i requires 0 <= i < n => i)
  }

  /** The empty queue after _queue_IM_buffers has put its first n contexts. */
  function FreshJobs(n: nat): (r: seq<Job>)
    ensures |r| == n && forall i :: 0 <= i < n ==> r[i] == Job(i, Null)
  {
    seq(n, i requires 0 <= i < n => Job(i, Null))
  }

  /** The state _open leaves behind just before its thread_state_set(RUNNING). */
  ghost predicate Init(s: State) {
    && 0 < s.n
    && s.empty == FreshJobs(s.n) && s.full == [] && s.done == []
    && s.arm == Starting && s.dsp == Out
    && s.h == Threads.State(Threads.THREAD_IDLE, Threads.THREAD_IDLE, Threads.Top, [Threads.Ready])
    && s.ins == [] && s.outs == []
  }

  /** A frame still inside is locked, so the caller does not hand it in again. */
  predicate Enabled(s: State, a: Action) {
    match a
    case Decode(frame, _) => s.arm == Idle && frame !in Outstanding(s)
    case Flush => s.arm == Idle
    case ArmStep => s.arm != Idle &&
      (s.arm.StopWait? || s.arm.StartWait? ==> Threads.Enabled(s.h, Threads.Wake(0)))
    case DspStep => Threads.Enabled(s.h, Threads.WorkerStep)
    case SpuriousWake =>
      Threads.Enabled(s.h, Threads.WorkerSpurious) || Threads.Enabled(s.h, Threads.Spurious(0))
  }

  /** One critical section of thread_state_set on the ARM side: on return the ARM side goes on to
      `next`, otherwise it waits. */
  function Controls(s: State, a: Threads.Action, wait: Arm, next: Arm): State {
    if !Threads.Enabled(s.h, a) || |s.h.controllers| == 0 then s
    else
      var h := Threads.Step(s.h, a);
      s.(h := h, arm := if h.controllers[0] == Threads.Ready then next else wait)
  }

  function StepArm(s: State): State {
    match s.arm
    case Idle => s
    case TakeDone(frame, meta, out, second) =>
      if s.done != [] then
        s.(done := s.done[1..], arm := PutEmpty(frame, meta, s.done[0].frame, s.done[0].ctx))
      else if !second then s.(arm := TakeDone(frame, meta, out, true))
      else s.(arm := TakeEmpty(frame, meta, out))
    case PutEmpty(frame, meta, out, ctx) =>
      s.(empty := Put(s.empty, s.n, Job(ctx, Null)), arm := TakeEmpty(frame, meta, out))
    case TakeEmpty(frame, meta, out) =>
      if s.empty != [] then s.(empty := s.empty[1..], arm := Decoding(frame, meta, out, s.empty[0].ctx))
      else s.(arm := TakeDone(frame, meta, out, false))
    case Decoding(frame, meta, out, ctx) =>
      s.(ctxMeta := s.ctxMeta[ctx := meta], arm := PutFull(frame, meta, out, ctx))
    case PutFull(frame, meta, out, ctx) =>
      s.(full := Put(s.full, s.n, Job(ctx, Frame(frame))), ins := s.ins + [(frame, meta)], arm := Returning(out))
    case Returning(out) =>
      s.(outs := if out.Frame? then s.outs + [(out.id, MetaOf(s.frameMeta, out.id))] else s.outs, arm := Idle)
    case Stopping => Controls(s, Threads.Set(0, Threads.THREAD_IDLE), StopWait, Reset(0))
    case StopWait => Controls(s, Threads.Wake(0), StopWait, Reset(0))
    case Reset(k) =>
      if k == 0 then s.(empty := [], arm := Reset(1), ins := [], outs := [])
      else if k == 1 then s.(full := [], arm := Reset(2))
      else if k == 2 then s.(done := [], arm := Reset(3))
      else if k - 3 < s.n then s.(empty := Put(s.empty, s.n, Job(k - 3, Null)), arm := Reset(k + 1))
      else s.(arm := Starting)
    case Starting => Controls(s, Threads.Set(0, Threads.THREAD_RUNNING), StartWait, Idle)
    case StartWait => Controls(s, Threads.Wake(0), StartWait, Idle)
  }

  /** The worker's turn: a step of dsp_worker while it works, a step of its thread loop otherwise. */
  function StepDsp(s: State): State {
    match s.dsp
    case Out =>
      if !Threads.Enabled(s.h, Threads.WorkerStep) then s
      else
        var h := Threads.Step(s.h, Threads.WorkerStep);
        s.(h := h, dsp := if h.worker == Threads.Working then TakeFull(false) else Out)
    case TakeFull(second) =>
      if s.full != [] then s.(full := s.full[1..], dsp := DecodeDsp(s.full[0]))
      else if !second then s.(dsp := TakeFull(true))
      else LeaveWorker(s)
    case DecodeDsp(job) =>
      s.(dsp := PutDone(job),
         frameMeta := if job.frame.Frame? then s.frameMeta[job.frame.id := MetaOf(s.ctxMeta, job.ctx)]
                      else s.frameMeta)
    case PutDone(job) => LeaveWorker(s.(done := Put(s.done, s.n, job)))
  }

  function LeaveWorker(s: State): State {
    if !Threads.Enabled(s.h, Threads.WorkerStep) then s
    else s.(h := Threads.Step(s.h, Threads.WorkerStep), dsp := Out)
  }

  function Step(s: State, a: Action): State {
    match a
    case Decode(frame, meta) => s.(arm := TakeDone(frame, meta, Null, false))
    case Flush => s.(arm := Stopping)
    case ArmStep => StepArm(s)
    case DspStep => StepDsp(s)
    case SpuriousWake =>
      if Threads.Enabled(s.h, Threads.WorkerSpurious) then s.(h := Threads.Step(s.h, Threads.WorkerSpurious))
      else if Threads.Enabled(s.h, Threads.Spurious(0)) then s.(h := Threads.Step(s.h, Threads.Spurious(0)))
      else s
  }

  ghost predicate IsRun(s: State, actions: seq<Action>)
    decreases |actions|
  {
    actions != [] ==> Enabled(s, actions[0]) && IsRun(Step(s, actions[0]), actions[1..])
  }

  ghost function Exec(s: State, actions: seq<Action>): State
    decreases |actions|
  {
    if actions == [] then s else Exec(Step(s, actions[0]), actions[1..])
  }

  // Where every context is, read round the loop the jobs travel: done, DSP side, full, ARM side
  // holding one to fill, empty, ARM side holding one to give back.

  function CtxsOf(q: seq<Job>): (r: seq<nat>)
    ensures |r| == |q| && forall i :: 0 <= i < |r| ==> r[i] == q[i].ctx
  {
    seq(|q|, i requires 0 <= i < |q| => q[i].ctx)
  }

  /** Jobs whose frame already has its metadata, and jobs whose metadata is still in the context. */
  function Decoded(s: State): seq<Job> {
    s.done + (if s.dsp.PutDone? then [s.dsp.job] else [])
  }

  function Undecoded(s: State): seq<Job> {
    (if s.dsp.DecodeDsp? then [s.dsp.job] else []) + s.full
  }

  function ToFill(s: State): seq<nat> {
    if s.arm.Decoding? || s.arm.PutFull? then [s.arm.ctx] else []
  }

  function ToReturn(s: State): seq<nat> {
    if s.arm.PutEmpty? then [s.arm.ctx] else []
  }

  function Rest(s: State): seq<nat> {
    ToFill(s) + CtxsOf(s.empty) + ToReturn(s)
  }

  function Loop(s: State): seq<nat> {
    CtxsOf(Decoded(s) + Undecoded(s)) + Rest(s)
  }

  // What the theorem promises.

  /** Every context is in exactly one place. */
  ghost predicate Conserved(s: State) {
    multiset(Loop(s)) == multiset(Contexts(s.n))
  }

  /** No queue holds more than its length, and whoever is about to put finds room. */
  ghost predicate NoOverflow(s: State) {
    && |s.empty| <= s.n && |s.full| <= s.n && |s.done| <= s.n
    && (s.arm.PutEmpty? ==> |s.empty| < s.n)
    && (s.arm.PutFull? ==> |s.full| < s.n)
    && (s.dsp.PutDone? ==> |s.done| < s.n)
  }

  ghost predicate Safe(s: State) {
    && (!s.arm.Reset? ==> Conserved(s) && NoOverflow(s))
    // A frame comes out in its turn and with its own metadata.
    && s.outs <= s.ins
    // Between two calls no more frames are inside than there are contexts.
    && (s.arm == Idle ==> |s.ins| - |s.outs| <= s.n)
    // A call that took a done job does not take a second one.
    && (s.arm.TakeDone? ==> s.arm.out == Null)
    // While the queues are reset the DSP side is out of dsp_worker and holds no job.
    && (s.arm.Reset? ==> s.dsp == Out && s.h.worker != Threads.Working)
  }

  // The inductive invariant.

  /** The handshake's own invariants, and how its phases line up with the two sides. */
  ghost predicate Phases(s: State) {
    && Threads.Inv(s.h) && Threads.Alone(s.h)
    && (s.dsp == Out <==> s.h.worker != Threads.Working)
    && (s.h.controllers[0].Waiting? <==> s.arm.StopWait? || s.arm.StartWait?)
    && (s.arm.StopWait? ==> s.h.wanted == Threads.THREAD_IDLE)
    && (s.arm.StartWait? ==> s.h.wanted == Threads.THREAD_RUNNING)
    && (s.arm.Reset? || s.arm.Starting? ==> s.h.wanted == s.h.acked == Threads.THREAD_IDLE)
  }

  ghost predicate Distinct<T(!new)>(q: seq<T>) {
    forall i, j :: 0 <= i < j < |q| ==> q[i] != q[j]
  }

  function OutOf(arm: Arm): FrameRef {
    match arm
    case TakeDone(_, _, out, _) => out
    case PutEmpty(_, _, out, _) => out
    case TakeEmpty(_, _, out) => out
    case Decoding(_, _, out, _) => out
    case PutFull(_, _, out, _) => out
    case Returning(out) => out
    case _ => Null
  }

  predicate InCall(arm: Arm) {
    arm.TakeDone? || arm.PutEmpty? || arm.TakeEmpty? || arm.Decoding? || arm.PutFull?
  }

  function IdOf(f: FrameRef): FrameId {
    if f.Frame? then f.id else 0
  }

  function DecodedEntries(jobs: seq<Job>, frameMeta: map<FrameId, Meta>): (r: seq<(FrameId, Meta)>)
    ensures |r| == |jobs|
    ensures forall i :: 0 <= i < |r| ==> r[i] == (IdOf(jobs[i].frame), MetaOf(frameMeta, IdOf(jobs[i].frame)))
  {
    seq(|jobs|, i requires 0 <= i < |jobs| => (IdOf(jobs[i].frame), MetaOf(frameMeta, IdOf(jobs[i].frame))))
  }

  function UndecodedEntries(jobs: seq<Job>, ctxMeta: map<nat, Meta>): (r: seq<(FrameId, Meta)>)
    ensures |r| == |jobs|
    ensures forall i :: 0 <= i < |r| ==> r[i] == (IdOf(jobs[i].frame), MetaOf(ctxMeta, jobs[i].ctx))
  {
    seq(|jobs|, i requires 0 <= i < |jobs| => (IdOf(jobs[i].frame), MetaOf(ctxMeta, jobs[i].ctx)))
  }

  function OutEntry(s: State): seq<(FrameId, Meta)> {
    var out := OutOf(s.arm);
    if out.Frame? then [(out.id, MetaOf(s.frameMeta, out.id))] else []
  }

  /** The frames inside, oldest first, each with its metadata wherever it is at the moment. */
  function Line(s: State): seq<(FrameId, Meta)> {
    OutEntry(s) + DecodedEntries(Decoded(s), s.frameMeta) + UndecodedEntries(Undecoded(s), s.ctxMeta)
  }

  ghost predicate HaveFrames(jobs: seq<Job>) {
    forall i :: 0 <= i < |jobs| ==> jobs[i].frame.Frame?
  }

  ghost predicate Jobs(s: State) {
    && Conserved(s) && Distinct(Loop(s))
    && HaveFrames(Decoded(s) + Undecoded(s))
  }

  ghost predicate Ordered(s: State) {
    && s.ins == s.outs + Line(s)
    && Distinct(Frames(Line(s)))
  }

  ghost predicate Call(s: State) {
    && (InCall(s.arm) ==> s.arm.frame !in Frames(Line(s)))
    && (s.arm.TakeDone? ==> s.arm.out == Null)
    && (s.arm.TakeEmpty? && s.arm.out.Frame? ==> s.empty != [])
    && (s.arm.PutFull? ==> MetaOf(s.ctxMeta, s.arm.ctx) == s.arm.meta)
  }

  ghost predicate Resetting(s: State)
    requires s.arm.Reset?
  {
    var k := s.arm.k;
    && k <= s.n + 3
    && (k > 0 ==> s.ins == s.outs == [])
    && (k == 0 ==> s.outs <= s.ins)
    && (k == 1 || k == 2 ==> s.empty == [])
    && (k >= 2 ==> s.full == [])
    && (k >= 3 ==> s.done == [] && s.empty == FreshJobs(k - 3))
  }

  ghost predicate Inv(s: State) {
    && 0 < s.n
    && Phases(s)
    && (if s.arm.Reset? then Resetting(s) else Jobs(s) && Ordered(s) && Call(s))
  }

  lemma LoopLength(s: State)
    requires Conserved(s)
    ensures |Decoded(s)| + |Undecoded(s)| + |ToFill(s)| + |s.empty| + |ToReturn(s)| == s.n
  {
    assert |multiset(Loop(s))| == |multiset(Contexts(s.n))|;
  }

  lemma InvImpliesSafe(s: State)
    requires Inv(s)
    ensures Safe(s)
  {
    if !s.arm.Reset? {
      LoopLength(s);
      assert |s.ins| == |s.outs| + |Line(s)|;
    }
  }

  lemma InitInv(s: State)
    requires Init(s)
    ensures Inv(s)
  {
    assert Loop(s) == Contexts(s.n);
    assert Line(s) == [];
  }

  /** A step of the ARM side that has nothing to do with the handshake. */
  lemma SamePhases(s: State, s': State)
    requires Phases(s) && s'.h == s.h && s'.dsp == s.dsp
    requires !s.arm.StopWait? && !s.arm.StartWait?
    requires !s'.arm.StopWait? && !s'.arm.StartWait? && !s'.arm.Reset? && !s'.arm.Starting?
    ensures Phases(s')
  {
  }

  /** A step that leaves the jobs in line, and the reading of the rest of the loop, keeps the
      invariant. */
  lemma Framed(s: State, s': State)
    requires Inv(s) && !s.arm.Reset? && !s'.arm.Reset? && s'.n == s.n
    requires Decoded(s') == Decoded(s) && Undecoded(s') == Undecoded(s) && Rest(s') == Rest(s)
    requires Line(s') == Line(s) && s'.ins == s.ins && s'.outs == s.outs
    requires Phases(s') && Call(s')
    ensures Inv(s')
  {
  }

  /** The same for a step of the handshake, or one that only changes the ARM side's place in a call. */
  lemma FramedIdle(s: State, s': State)
    requires Inv(s) && !s.arm.Reset? && !s'.arm.Reset?
    requires s' == s.(arm := s'.arm, h := s'.h)
    requires ToFill(s') == ToFill(s) && ToReturn(s') == ToReturn(s) && OutOf(s'.arm) == OutOf(s.arm)
    requires Phases(s') && Call(s')
    ensures Inv(s')
  {
  }

  // The ARM side's steps.

  lemma TakeDoneLoop(s: State, s': State)
    requires s.arm.TakeDone? && s.done != [] && s' == StepArm(s)
    ensures |Loop(s)| > 0 && Loop(s)[0] == s.done[0].ctx
    ensures Loop(s') == Loop(s)[1..] + [s.done[0].ctx]
    ensures Decoded(s) == [s.done[0]] + Decoded(s') && Undecoded(s') == Undecoded(s)
  {
  }

  lemma TakeDoneLine(s: State, s': State)
    requires s.arm.TakeDone? && s.done != [] && s' == StepArm(s) && s.arm.out == Null
    requires s.done[0].frame.Frame?
    requires Decoded(s) == [s.done[0]] + Decoded(s') && Undecoded(s') == Undecoded(s)
    ensures Line(s') == Line(s)
  {
  }

  lemma Rotate(l: seq<nat>, l': seq<nat>, c: nat)
    requires |l| > 0 && l[0] == c && l' == l[1..] + [c]
    ensures multiset(l') == multiset(l)
    ensures Distinct(l) ==> Distinct(l')
  {
    assert l == [c] + l[1..];
  }

  lemma DropHead(jobs: seq<Job>, head: Job, a: seq<Job>, b: seq<Job>)
    requires jobs == [head] + a + b && HaveFrames(jobs)
    ensures HaveFrames(a + b)
  {
    assert forall i :: 0 <= i < |a + b| ==> (a + b)[i] == jobs[i + 1];
  }

  lemma TakeDoneJobs(s: State, s': State)
    requires Jobs(s) && s.arm.TakeDone? && s.done != [] && s' == StepArm(s)
    ensures Jobs(s')
  {
    TakeDoneLoop(s, s');
    Rotate(Loop(s), Loop(s'), s.done[0].ctx);
    DropHead(Decoded(s) + Undecoded(s), s.done[0], Decoded(s'), Undecoded(s'));
  }

  /** Taking a done job: its context goes from the loop's front to its end, on the ARM side; its frame to the
      caller, as the oldest of the line, which stays as it is. */
  lemma TakeDoneTakes(s: State)
    requires Inv(s) && s.arm.TakeDone? && s.done != []
    ensures var s', job := StepArm(s), s.done[0];
      && s'.done == s.done[1..] && ToReturn(s') == [job.ctx] && OutOf(s'.arm) == job.frame && job.frame.Frame?
      && Loop(s') == Loop(s)[1..] + [job.ctx] && Loop(s)[0] == job.ctx
      && Line(s') == Line(s) && Line(s)[0].0 == job.frame.id
  {
    var s' := StepArm(s);
    assert (Decoded(s) + Undecoded(s))[0] == s.done[0];
    TakeDoneLoop(s, s');
    TakeDoneLine(s, s');
    assert OutEntry(s')[0].0 == s.done[0].frame.id && Line(s')[0] == OutEntry(s')[0];
  }

  lemma TakeDoneTakesKeeps(s: State)
    requires Inv(s) && s.arm.TakeDone? && s.done != []
    ensures Inv(StepArm(s))
  {
    var s' := StepArm(s);
    TakeDoneTakes(s);
    TakeDoneJobs(s, s');
    SamePhases(s, s');
    assert Ordered(s') && Call(s');
  }

  lemma TakeDoneKeepsInv(s: State)
    requires Inv(s) && s.arm.TakeDone?
    ensures Inv(StepArm(s))
  {
    if s.done != [] {
      TakeDoneTakesKeeps(s);
    } else {
      FramedIdle(s, StepArm(s));
    }
  }

  lemma PutEmptyRest(s: State, s': State)
    requires s.arm.PutEmpty? && |s.empty| < s.n && s' == StepArm(s)
    ensures Rest(s') == Rest(s) && s'.empty != []
  {
  }

  /** A step that only moves contexts between the ARM side and the empty queue. */
  lemma SameLine(s: State, s': State)
    requires s' == s.(empty := s'.empty, arm := s'.arm) && OutOf(s'.arm) == OutOf(s.arm)
    ensures Line(s') == Line(s)
  {
  }

  lemma PutEmptyKeepsInv(s: State)
    requires Inv(s) && s.arm.PutEmpty?
    ensures Inv(StepArm(s))
  {
    var s' := StepArm(s);
    LoopLength(s);
    PutEmptyRest(s, s');
    SameLine(s, s');
    SamePhases(s, s');
    assert Call(s');
    Framed(s, s');
  }

  lemma TakeEmptyRest(s: State, s': State)
    requires s.arm.TakeEmpty? && s.empty != [] && s' == StepArm(s)
    ensures Rest(s') == Rest(s)
  {
  }

  lemma TakeEmptyKeepsInv(s: State)
    requires Inv(s) && s.arm.TakeEmpty?
    ensures Inv(StepArm(s))
  {
    var s' := StepArm(s);
    if s.empty != [] {
      TakeEmptyRest(s, s');
      SameLine(s, s');
      Framed(s, s');
    } else {
      FramedIdle(s, s');
    }
  }

  /** The context the ARM side fills is in no job. */
  lemma FillingIsApart(s: State, i: nat)
    requires Jobs(s) && (s.arm.Decoding? || s.arm.PutFull?) && i < |Undecoded(s)|
    ensures Undecoded(s)[i].ctx != s.arm.ctx
  {
    var jobs := Decoded(s) + Undecoded(s);
    var k := |Decoded(s)| + i;
    assert Loop(s)[k] == CtxsOf(jobs)[k] && Loop(s)[|jobs|] == s.arm.ctx;
  }

  lemma DecodingKeepsEntries(s: State)
    requires Inv(s) && s.arm.Decoding?
    ensures UndecodedEntries(Undecoded(s), StepArm(s).ctxMeta) == UndecodedEntries(Undecoded(s), s.ctxMeta)
  {
    var s', jobs := StepArm(s), Undecoded(s);
    forall i | 0 <= i < |jobs|
      ensures UndecodedEntries(jobs, s'.ctxMeta)[i] == UndecodedEntries(jobs, s.ctxMeta)[i]
    {
      FillingIsApart(s, i);
    }
  }

  lemma DecodingKeepsInv(s: State)
    requires Inv(s) && s.arm.Decoding?
    ensures Inv(StepArm(s))
  {
    var s' := StepArm(s);
    DecodingKeepsEntries(s);
    assert Line(s') == Line(s);
    SamePhases(s, s');
    assert Call(s');
    Framed(s, s');
  }

  lemma PutFullJobs(s: State, s': State)
    requires s.arm.PutFull? && |s.full| < s.n && s' == StepArm(s)
    ensures Undecoded(s') == Undecoded(s) + [Job(s.arm.ctx, Frame(s.arm.frame))] && Decoded(s') == Decoded(s)
  {
  }

  /** The context moves from the ARM side to the end of the jobs, its place in the loop. */
  lemma PutFullLoop(s: State, s': State)
    requires s.arm.PutFull? && |s.full| < s.n && s' == StepArm(s)
    ensures Loop(s') == Loop(s)
  {
    PutFullJobs(s, s');
    assert CtxsOf(Decoded(s') + Undecoded(s')) == CtxsOf(Decoded(s) + Undecoded(s)) + [s.arm.ctx];
  }

  lemma PutFullLine(s: State, s': State)
    requires s.arm.PutFull? && |s.full| < s.n && s' == StepArm(s)
    requires MetaOf(s.ctxMeta, s.arm.ctx) == s.arm.meta
    ensures Line(s') == Line(s) + [(s.arm.frame, s.arm.meta)]
    ensures Frames(Line(s')) == Frames(Line(s)) + [s.arm.frame]
  {
    PutFullJobs(s, s');
    var entry := (s.arm.frame, s.arm.meta);
    assert UndecodedEntries(Undecoded(s'), s.ctxMeta) == UndecodedEntries(Undecoded(s), s.ctxMeta) + [entry];
    assert Line(s') == Line(s) + [entry];
  }

  lemma DistinctAppend(q: seq<FrameId>, x: FrameId)
    requires Distinct(q) && x !in q
    ensures Distinct(q + [x])
  {
  }

  lemma PutFullKeepsJobs(s: State, s': State)
    requires Jobs(s) && s.arm.PutFull? && |s.full| < s.n && s' == StepArm(s)
    ensures Jobs(s')
  {
    PutFullJobs(s, s');
    PutFullLoop(s, s');
    var jobs := Decoded(s) + Undecoded(s);
    assert Decoded(s') + Undecoded(s') == jobs + [Job(s.arm.ctx, Frame(s.arm.frame))];
    assert HaveFrames(jobs + [Job(s.arm.ctx, Frame(s.arm.frame))]);
  }

  lemma PutFullKeepsOrder(s: State, s': State)
    requires Ordered(s) && Call(s) && s.arm.PutFull? && |s.full| < s.n && s' == StepArm(s)
    ensures Ordered(s')
  {
    PutFullLine(s, s');
    DistinctAppend(Frames(Line(s)), s.arm.frame);
    assert s.outs + (Line(s) + [(s.arm.frame, s.arm.meta)]) == s.outs + Line(s) + [(s.arm.frame, s.arm.meta)];
  }

  lemma PutFullRoom(s: State)
    requires Conserved(s) && s.arm.PutFull?
    ensures |s.full| < s.n
  {
    LoopLength(s);
  }

  lemma ReturningCalls(s: State)
    requires s.arm.Returning?
    ensures Call(s)
  {
  }

  lemma PutFullKeepsInv(s: State)
    requires Inv(s) && s.arm.PutFull?
    ensures Inv(StepArm(s))
  {
    var s' := StepArm(s);
    assert s'.arm == Returning(s.arm.out) && s'.n == s.n && s'.h == s.h && s'.dsp == s.dsp;
    PutFullRoom(s);
    PutFullKeepsJobs(s, s');
    PutFullKeepsOrder(s, s');
    SamePhases(s, s');
    ReturningCalls(s');
  }

  lemma FramesDropHead(line: seq<(FrameId, Meta)>, e: (FrameId, Meta), rest: seq<(FrameId, Meta)>)
    requires line == [e] + rest && Distinct(Frames(line))
    ensures Distinct(Frames(rest))
  {
    assert Frames(line) == [e.0] + Frames(rest);
    assert forall i :: 0 <= i < |rest| ==> Frames(rest)[i] == Frames(line)[i + 1];
  }

  lemma Assoc<T>(a: seq<T>, b: seq<T>, c: seq<T>)
    ensures a + b + c == a + (b + c)
  {
  }

  lemma ReturningMoves(s: State, s': State)
    requires s.arm.Returning? && s.arm.out.Frame? && s' == StepArm(s)
    ensures var e := (s.arm.out.id, MetaOf(s.frameMeta, s.arm.out.id));
      Line(s) == [e] + Line(s') && s'.outs == s.outs + [e] && s'.ins == s.ins
  {
    var dec, undec := DecodedEntries(Decoded(s), s.frameMeta), UndecodedEntries(Undecoded(s), s.ctxMeta);
    assert OutEntry(s') == [] && Decoded(s') == Decoded(s) && Undecoded(s') == Undecoded(s);
    assert Line(s') == dec + undec;
    Assoc(OutEntry(s), dec, undec);
  }

  lemma ReturningLine(s: State, s': State)
    requires s.arm.Returning? && s.arm.out.Frame? && s' == StepArm(s)
    requires Ordered(s)
    ensures Ordered(s')
  {
    ReturningMoves(s, s');
    var e := (s.arm.out.id, MetaOf(s.frameMeta, s.arm.out.id));
    FramesDropHead(Line(s), e, Line(s'));
    Assoc(s.outs, [e], Line(s'));
  }

  lemma ReturningJobs(s: State, s': State)
    requires s.arm.Returning? && s' == StepArm(s) && Jobs(s)
    ensures Jobs(s')
  {
  }

  lemma CallEnds(s: State, s': State)
    requires 0 < s.n && Phases(s) && s.arm.Returning?
    requires s'.n == s.n && s'.h == s.h && s'.dsp == s.dsp && s'.arm == Idle
    requires Jobs(s') && Ordered(s')
    ensures Inv(s')
  {
  }

  lemma ReturningGives(s: State)
    requires Inv(s) && s.arm.Returning? && s.arm.out.Frame?
    ensures Inv(StepArm(s))
  {
    var s' := StepArm(s);
    ReturningLine(s, s');
    ReturningJobs(s, s');
    CallEnds(s, s');
  }

  lemma ReturningKeepsInv(s: State)
    requires Inv(s) && s.arm.Returning?
    ensures Inv(StepArm(s))
  {
    var s' := StepArm(s);
    if s.arm.out.Frame? {
      ReturningGives(s);
    } else {
      FramedIdle(s, s');
    }
  }

  lemma ControlPhases(s: State)
    requires Phases(s) && Enabled(s, ArmStep)
    requires s.arm.Stopping? || s.arm.StopWait? || s.arm.Starting? || s.arm.StartWait?
    ensures Phases(StepArm(s))
    ensures var s' := StepArm(s); s' == s.(h := s'.h, arm := s'.arm)
    ensures var arm' := StepArm(s).arm; arm'.StopWait? || arm' == Reset(0) || arm'.StartWait? || arm'.Idle?
  {
  }

  /** A call or a flush is over or about to begin: no frame is in it. */
  lemma NoCall(s: State)
    requires !InCall(s.arm) && OutOf(s.arm) == Null
    requires !s.arm.TakeDone? && !s.arm.TakeEmpty? && !s.arm.PutFull?
    ensures Call(s)
  {
  }

  lemma ControlResets(s: State, s': State)
    requires Jobs(s) && Ordered(s) && s' == s.(h := s'.h, arm := Reset(0))
    ensures Resetting(s')
  {
    assert s.outs <= s.ins;
  }

  lemma ControlKeepsInv(s: State)
    requires Inv(s) && Enabled(s, ArmStep)
    requires s.arm.Stopping? || s.arm.StopWait? || s.arm.Starting? || s.arm.StartWait?
    ensures Inv(StepArm(s))
  {
    var s' := StepArm(s);
    ControlPhases(s);
    if s'.arm == Reset(0) {
      ControlResets(s, s');
    } else {
      NoCall(s');
      FramedIdle(s, s');
    }
  }

  lemma ResetRefills(s: State)
    requires s.arm.Reset? && Resetting(s) && !(s.arm.k >= 3 && s.arm.k - 3 >= s.n)
    ensures StepArm(s).arm.Reset? && Resetting(StepArm(s))
  {
  }

  /** The empty pipeline. */
  lemma FreshLoop(s: State)
    requires s.empty == FreshJobs(s.n) && s.full == [] && s.done == [] && s.dsp == Out
    requires !s.arm.Reset? && ToFill(s) == [] && ToReturn(s) == [] && OutOf(s.arm) == Null
    ensures Loop(s) == Contexts(s.n) && Line(s) == []
    ensures Jobs(s)
  {
    assert Decoded(s) + Undecoded(s) == [];
  }

  lemma ResetEnds(s: State)
    requires s.arm.Reset? && Phases(s) && Resetting(s) && s.arm.k == s.n + 3
    ensures StepArm(s) == s.(arm := Starting)
    ensures Jobs(StepArm(s)) && Ordered(StepArm(s)) && Call(StepArm(s))
  {
    FreshLoop(StepArm(s));
  }

  lemma ResetKeepsInv(s: State)
    requires Inv(s) && s.arm.Reset?
    ensures Inv(StepArm(s))
  {
    if s.arm.k >= 3 && s.arm.k - 3 >= s.n {
      ResetEnds(s);
    } else {
      ResetRefills(s);
    }
    assert Phases(StepArm(s));
  }

  // The worker's steps.

  lemma DspPhases(s: State)
    requires Phases(s) && Enabled(s, DspStep)
    ensures Phases(StepDsp(s))
  {
  }

  /** The frame the DSP side decodes next is none of the frames that already have their metadata. */
  lemma DecodeDspApart(s: State, i: nat)
    requires s.dsp.DecodeDsp? && Distinct(Frames(Line(s))) && i < |OutEntry(s)| + |Decoded(s)|
    ensures Line(s)[i].0 != IdOf(s.dsp.job.frame)
  {
    var at := |OutEntry(s)| + |Decoded(s)|;
    assert Undecoded(s)[0] == s.dsp.job;
    assert Line(s)[at] == UndecodedEntries(Undecoded(s), s.ctxMeta)[0];
    assert Frames(Line(s))[i] != Frames(Line(s))[at];
  }

  lemma DecodeDspMoves(s: State, s': State)
    requires s.dsp.DecodeDsp? && s.dsp.job.frame.Frame? && s' == StepDsp(s)
    ensures Undecoded(s) == [s.dsp.job] + Undecoded(s') && Decoded(s') == Decoded(s) + [s.dsp.job]
    ensures Decoded(s') + Undecoded(s') == Decoded(s) + Undecoded(s)
    ensures UndecodedEntries(Undecoded(s), s.ctxMeta)
         == [(s.dsp.job.frame.id, MetaOf(s.ctxMeta, s.dsp.job.ctx))] + UndecodedEntries(Undecoded(s'), s.ctxMeta)
  {
  }

  /** The metadata it writes is none that the line still needs from another frame. */
  lemma DecodeDspKeepsMeta(s: State, s': State, i: nat)
    requires s.dsp.DecodeDsp? && s.dsp.job.frame.Frame? && s' == StepDsp(s)
    requires Distinct(Frames(Line(s))) && i < |OutEntry(s)| + |Decoded(s)|
    ensures MetaOf(s'.frameMeta, Line(s)[i].0) == MetaOf(s.frameMeta, Line(s)[i].0)
  {
    DecodeDspApart(s, i);
  }

  lemma DecodeDspOut(s: State, s': State)
    requires s.dsp.DecodeDsp? && s.dsp.job.frame.Frame? && s' == StepDsp(s)
    requires Distinct(Frames(Line(s)))
    ensures OutEntry(s') == OutEntry(s)
  {
    var out := OutEntry(s);
    if out != [] {
      assert Line(s)[0] == out[0];
      DecodeDspKeepsMeta(s, s', 0);
    }
  }

  lemma DecodeDspEntries(s: State, s': State)
    requires s.dsp.DecodeDsp? && s.dsp.job.frame.Frame? && s' == StepDsp(s)
    requires Distinct(Frames(Line(s)))
    ensures DecodedEntries(Decoded(s'), s'.frameMeta)
         == DecodedEntries(Decoded(s), s.frameMeta) + [(s.dsp.job.frame.id, MetaOf(s.ctxMeta, s.dsp.job.ctx))]
  {
    DecodeDspMoves(s, s');
    var dec := DecodedEntries(Decoded(s), s.frameMeta);
    forall i | 0 <= i < |dec|
      ensures DecodedEntries(Decoded(s'), s'.frameMeta)[i] == dec[i]
    {
      assert Line(s)[|OutEntry(s)| + i] == dec[i];
      DecodeDspKeepsMeta(s, s', |OutEntry(s)| + i);
    }
  }

  lemma DecodeDspLine(s: State, s': State)
    requires s.dsp.DecodeDsp? && s.dsp.job.frame.Frame? && s' == StepDsp(s)
    requires Distinct(Frames(Line(s)))
    ensures Line(s') == Line(s)
    ensures Decoded(s') + Undecoded(s') == Decoded(s) + Undecoded(s)
  {
    DecodeDspMoves(s, s');
    DecodeDspOut(s, s');
    DecodeDspEntries(s, s');
    var out, dec := OutEntry(s), DecodedEntries(Decoded(s), s.frameMeta);
    var entry := (s.dsp.job.frame.id, MetaOf(s.ctxMeta, s.dsp.job.ctx));
    var rest := UndecodedEntries(Undecoded(s'), s.ctxMeta);
    assert s'.ctxMeta == s.ctxMeta;
    assert (out + (dec + [entry])) + rest == (out + dec) + ([entry] + rest);
  }

  lemma DecodeDspKeepsInv(s: State)
    requires Inv(s) && s.dsp.DecodeDsp? && !s.arm.Reset?
    ensures Inv(StepDsp(s))
  {
    var s' := StepDsp(s);
    assert (Decoded(s) + Undecoded(s))[|Decoded(s)|] == s.dsp.job;
    DecodeDspLine(s, s');
    assert Loop(s') == Loop(s) && Call(s');
  }

  lemma TakeFullMoves(s: State, s': State)
    requires s.dsp.TakeFull? && s.full != [] && s' == StepDsp(s)
    ensures Decoded(s') == Decoded(s) && Undecoded(s') == Undecoded(s)
  {
  }

  lemma PutDoneMoves(s: State, s': State)
    requires s.dsp.PutDone? && |s.done| < s.n && s'.dsp == Out
    requires s'.done == Put(s.done, s.n, s.dsp.job) && s'.full == s.full
    ensures Decoded(s') == Decoded(s) && Undecoded(s') == Undecoded(s)
  {
  }

  lemma DspMovesJobs(s: State, s': State)
    requires Phases(s) && Enabled(s, DspStep) && !s.dsp.DecodeDsp? && s' == StepDsp(s)
    requires s.dsp.PutDone? ==> |s.done| < s.n
    ensures Decoded(s') == Decoded(s) && Undecoded(s') == Undecoded(s)
    ensures s' == s.(h := s'.h, dsp := s'.dsp, full := s'.full, done := s'.done)
  {
    if s.dsp.TakeFull? && s.full != [] {
      TakeFullMoves(s, s');
    } else if s.dsp.PutDone? {
      PutDoneMoves(s, s');
    }
  }

  lemma DspKeepsInv(s: State)
    requires Inv(s) && Enabled(s, DspStep) && !s.arm.Reset?
    ensures Inv(StepDsp(s))
  {
    var s' := StepDsp(s);
    DspPhases(s);
    if s.dsp.DecodeDsp? {
      DecodeDspKeepsInv(s);
    } else {
      LoopLength(s);
      DspMovesJobs(s, s');
      Framed(s, s');
    }
  }

  /** While the queues are reset the worker only goes round its thread loop. */
  /** Whatever the DSP thread does while the queues are reset, it stays outside dsp_worker and touches none of
      them, nor the frames and metadata. */
  lemma DspKeepsReset(s: State)
    requires Inv(s) && Enabled(s, DspStep) && s.arm.Reset?
    ensures Inv(StepDsp(s)) && StepDsp(s) == s.(h := StepDsp(s).h) && s.dsp == Out
  {
    DspPhases(s);
  }

  lemma SpuriousKeepsInv(s: State)
    requires Inv(s) && Enabled(s, SpuriousWake)
    ensures Inv(Step(s, SpuriousWake))
  {
    var a := if Threads.Enabled(s.h, Threads.WorkerSpurious) then Threads.WorkerSpurious else Threads.Spurious(0);
    Threads.StepKeepsInv(s.h, a);
    Threads.StepKeepsAlone(s.h, a);
    var s' := Step(s, SpuriousWake);
    assert Phases(s');
    if !s.arm.Reset? {
      FramedIdle(s, s');
    }
  }

  lemma BeginKeepsInv(s: State, a: Action)
    requires Inv(s) && Enabled(s, a) && (a.Decode? || a.Flush?)
    ensures Inv(Step(s, a))
  {
    assert s.ins[|s.outs|..] == Line(s);
    FramedIdle(s, Step(s, a));
  }

  lemma StepKeepsInv(s: State, a: Action)
    requires Inv(s) && Enabled(s, a)
    ensures Inv(Step(s, a))
  {
    match a
    case ArmStep =>
      match s.arm {
        case TakeDone(_, _, _, _) => TakeDoneKeepsInv(s);
        case PutEmpty(_, _, _, _) => PutEmptyKeepsInv(s);
        case TakeEmpty(_, _, _) => TakeEmptyKeepsInv(s);
        case Decoding(_, _, _, _) => DecodingKeepsInv(s);
        case PutFull(_, _, _, _) => PutFullKeepsInv(s);
        case Returning(_) => ReturningKeepsInv(s);
        case Reset(_) => ResetKeepsInv(s);
        case _ => ControlKeepsInv(s);
      }
    case DspStep =>
      if s.arm.Reset? {
        DspKeepsReset(s);
      } else {
        DspKeepsInv(s);
      }
    case SpuriousWake =>
      SpuriousKeepsInv(s);
    case _ =>
      BeginKeepsInv(s, a);
  }

  lemma {:induction false} RunKeepsInv(s: State, actions: seq<Action>)
    requires Inv(s) && IsRun(s, actions)
    ensures Inv(Exec(s, actions))
    decreases |actions|
  {
    if actions != [] {
      StepKeepsInv(s, actions[0]);
      RunKeepsInv(Step(s, actions[0]), actions[1..]);
    }
  }

  /** Every state of every interleaving of calls, flushes and the DSP thread is safe. */
  lemma SafeOverRuns(s: State, actions: seq<Action>)
    requires Init(s) && IsRun(s, actions)
    ensures Safe(Exec(s, actions))
  {
    InitInv(s);
    RunKeepsInv(s, actions);
    InvImpliesSafe(Exec(s, actions));
  }
}
