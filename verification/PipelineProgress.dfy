/** Where runs of the two-stage decoder get: what the DSP thread does with a job, that every frame handed in
    comes through to the done queue, and that every _decode and every _flush returns. */
module PipelineProgress {
  import opened Pipeline
  import Threads = ThreadStates

  // What the DSP thread does with a job.

  /** It takes the oldest full job, */
  lemma DspTakes(s: State)
    requires s.dsp.TakeFull? && s.full != []
    ensures StepDsp(s) == s.(full := s.full[1..], dsp := DecodeDsp(s.full[0]))
  {
  }

  /** gives its frame the metadata left in its context, and no other frame any, */
  lemma DspDecodes(s: State)
    requires s.dsp.DecodeDsp? && s.dsp.job.frame.Frame?
    ensures var t, job := StepDsp(s), s.dsp.job;
      && t == s.(dsp := PutDone(job), frameMeta := t.frameMeta)
      && MetaOf(t.frameMeta, job.frame.id) == MetaOf(s.ctxMeta, job.ctx)
      && forall f: FrameId :: f != job.frame.id ==> MetaOf(t.frameMeta, f) == MetaOf(s.frameMeta, f)
  {
  }

  /** and puts it behind the done ones. */
  lemma DspPuts(s: State)
    requires Inv(s) && s.dsp.PutDone? && !s.arm.Reset?
    ensures var t := StepDsp(s);
      t == s.(h := t.h, dsp := Out, done := s.done + [s.dsp.job]) && t.h == s.h.(worker := Threads.Top)
  {
    LoopLength(s);
  }

  /** stream_q_get_wait looks a second time: a job that arrives in between is taken, by either side. */
  lemma SecondTry(s: State, job: Job)
    ensures s.arm.TakeDone? && s.done == [] && !s.arm.second ==>
      StepArm(StepArm(s).(done := [job])) == s.(arm := PutEmpty(s.arm.frame, s.arm.meta, job.frame, job.ctx))
    ensures s.dsp == TakeFull(false) && s.full == [] ==>
      StepDsp(StepDsp(s).(full := [job])) == s.(dsp := DecodeDsp(job))
  {
  }

  // The handshake between the flushes.

  predicate Flushing(arm: Arm) {
    arm.StopWait? || arm.Reset? || arm.Starting? || arm.StartWait?
  }

  /** Between two flushes. */
  predicate Serving(arm: Arm) {
    arm == Idle || InCall(arm) || arm.Returning?
  }

  /** Outside a flush the worker runs; it is never told to exit. */
  ghost predicate Operating(s: State) {
    && s.h.wanted != Threads.THREAD_EXIT && s.h.acked != Threads.THREAD_EXIT
    && (!Flushing(s.arm) ==> s.h.wanted == s.h.acked == Threads.THREAD_RUNNING)
  }

  ghost predicate Live(s: State) {
    Inv(s) && Operating(s)
  }

  lemma InitLive(s: State)
    requires Init(s)
    ensures Live(s)
  {
    InitInv(s);
  }

  lemma ArmKeepsOperating(s: State)
    requires Phases(s) && Operating(s) && Enabled(s, ArmStep)
    ensures Operating(StepArm(s))
  {
  }

  lemma DspKeepsOperating(s: State)
    requires Phases(s) && Operating(s) && Enabled(s, DspStep)
    ensures Operating(StepDsp(s)) && StepDsp(s).arm == s.arm
  {
  }

  lemma OthersKeepOperating(s: State, a: Action)
    requires Operating(s) && Enabled(s, a) && a != ArmStep && a != DspStep
    ensures Operating(Step(s, a))
  {
  }

  lemma StepKeepsOperating(s: State, a: Action)
    requires Phases(s) && Operating(s) && Enabled(s, a)
    ensures Operating(Step(s, a))
  {
    if a == ArmStep {
      ArmKeepsOperating(s);
    } else if a == DspStep {
      DspKeepsOperating(s);
    } else {
      OthersKeepOperating(s, a);
    }
  }

  lemma StepKeepsLive(s: State, a: Action)
    requires Live(s) && Enabled(s, a)
    ensures Live(Step(s, a))
  {
    StepKeepsInv(s, a);
    StepKeepsOperating(s, a);
  }

  /** Every state that a run reaches is one that the results below speak of. */
  lemma {:induction false} RunKeepsLive(s: State, actions: seq<Action>)
    requires Live(s) && IsRun(s, actions)
    ensures Live(Exec(s, actions))
    decreases |actions|
  {
    if actions != [] {
      StepKeepsLive(s, actions[0]);
      RunKeepsLive(Step(s, actions[0]), actions[1..]);
    }
  }

  lemma LiveOverRuns(s: State, actions: seq<Action>)
    requires Init(s) && IsRun(s, actions)
    ensures Live(Exec(s, actions))
  {
    InitLive(s);
    RunKeepsLive(s, actions);
  }

  // Frames come through.

  predicate HasJob(s: State) {
    s.dsp.DecodeDsp? || s.dsp.PutDone? || s.full != []
  }

  /** Steps of the DSP thread until it is in dsp_worker. */
  function WorkRank(w: Threads.Worker): nat {
    match w
    case Testing => 1
    case Acking => 2
    case Top => 3
    case Pausing => 4
    case _ => 0
  }

  /** Its steps until it puts the next job, if there is one. */
  function PutRank(s: State): nat {
    match s.dsp
    case PutDone(_) => 1
    case DecodeDsp(_) => 2
    case TakeFull(_) => 3
    case Out => WorkRank(s.h.worker) + 3
  }

  lemma DspAdvances(s: State)
    requires Live(s) && !Flushing(s.arm) && HasJob(s)
    ensures Enabled(s, DspStep)
    ensures if s.dsp.PutDone? then |StepDsp(s).done| == |s.done| + 1 && PutRank(StepDsp(s)) == 6
            else StepDsp(s).done == s.done && HasJob(StepDsp(s)) && PutRank(StepDsp(s)) < PutRank(s)
  {
    if s.dsp.PutDone? {
      DspPuts(s);
    }
  }

  /** How many of the frames handed in have come through: given back, in the caller's hands, or done. */
  function Through(s: State): nat {
    |s.outs| + |OutEntry(s)| + |s.done|
  }

  /** The frames that have not are in a job. */
  lemma NotThroughHasJob(s: State)
    requires Inv(s) && !s.arm.Reset? && Through(s) < |s.ins|
    ensures HasJob(s)
  {
    assert |s.ins| == |s.outs| + |Line(s)|;
  }

  /** Steps of the DSP thread until frame k is through. */
  function ThroughRank(s: State, k: nat): nat {
    if k < Through(s) then 0 else PutRank(s) + 6 * (k - Through(s))
  }

  lemma CallGoesOn(s: State)
    requires InCall(s.arm) || s.arm.Returning?
    ensures Serving(StepArm(s).arm)
  {
  }

  lemma ArmKeepsDsp(s: State)
    requires InCall(s.arm) || s.arm.Returning?
    ensures var t := StepArm(s); |t.ins| >= |s.ins| && t.dsp == s.dsp && t.h == s.h && (s.full != [] ==> t.full != [])
  {
  }

  lemma TakeDoneThrough(s: State)
    requires Inv(s) && s.arm.TakeDone? && s.done != []
    ensures Through(StepArm(s)) == Through(s)
  {
    TakeDoneTakes(s);
  }

  lemma OthersThrough(s: State)
    requires (InCall(s.arm) || s.arm.Returning?) && !(s.arm.TakeDone? && s.done != [])
    ensures Through(StepArm(s)) == Through(s)
  {
  }

  /** The ARM side's steps leave as many frames through as there are. */
  lemma ArmKeepsThrough(s: State)
    requires Inv(s) && (InCall(s.arm) || s.arm.Returning?)
    ensures Through(StepArm(s)) == Through(s)
  {
    if s.arm.TakeDone? && s.done != [] {
      TakeDoneThrough(s);
    } else {
      OthersThrough(s);
    }
  }

  lemma DspThrough(s: State)
    requires Live(s) && !Flushing(s.arm) && HasJob(s)
    ensures Enabled(s, DspStep)
    ensures Through(StepDsp(s)) == Through(s) + if s.dsp.PutDone? then 1 else 0
  {
    DspAdvances(s);
    assert StepDsp(s).arm == s.arm && StepDsp(s).outs == s.outs;
    assert |OutEntry(StepDsp(s))| == |OutEntry(s)|;
  }

  lemma NoSpuriousServing(s: State)
    requires Live(s) && Serving(s.arm)
    ensures !Enabled(s, SpuriousWake)
  {
  }

  lemma ArmThroughStep(s: State, k: nat)
    requires Live(s) && Serving(s.arm) && Enabled(s, ArmStep) && Through(s) <= k < |s.ins|
    ensures var t := StepArm(s); Serving(t.arm) && k < |t.ins| && ThroughRank(t, k) == ThroughRank(s, k)
  {
    CallGoesOn(s);
    ArmKeepsDsp(s);
    ArmKeepsThrough(s);
  }

  lemma DspThroughStep(s: State, k: nat)
    requires Live(s) && Serving(s.arm) && Through(s) <= k < |s.ins|
    ensures Enabled(s, DspStep) && ThroughRank(s, k) > 0
    ensures var t := StepDsp(s); t.arm == s.arm && t.ins == s.ins && ThroughRank(t, k) < ThroughRank(s, k)
  {
    NotThroughHasJob(s);
    DspAdvances(s);
    DspThrough(s);
  }

  lemma DecodeThroughStep(s: State, a: Action, k: nat)
    requires s.arm == Idle && a.Decode?
    ensures var t := Step(s, a); Serving(t.arm) && t.ins == s.ins && ThroughRank(t, k) == ThroughRank(s, k)
  {
  }

  lemma ThroughStep(s: State, a: Action, k: nat)
    requires Live(s) && Serving(s.arm) && Enabled(s, a) && a != Flush && Through(s) <= k < |s.ins|
    ensures var t := Step(s, a);
      Serving(t.arm) && k < |t.ins| && ThroughRank(t, k) <= ThroughRank(s, k) - if a == DspStep then 1 else 0
  {
    NoSpuriousServing(s);
    match a
    case ArmStep => ArmThroughStep(s, k);
    case DspStep => DspThroughStep(s, k);
    case _ => DecodeThroughStep(s, a, k);
  }

  function DspSteps(actions: seq<Action>): nat {
    if actions == [] then 0 else (if actions[0] == DspStep then 1 else 0) + DspSteps(actions[1..])
  }

  lemma ExecPrefix(s: State, actions: seq<Action>, n: nat)
    requires 0 < n <= |actions|
    ensures Exec(s, actions[..n]) == Exec(Step(s, actions[0]), actions[1..][..n - 1])
  {
    assert actions[..n][1..] == actions[1..][..n - 1];
  }

  /** A step towards that, or past it. */
  lemma ThroughStepLive(s: State, actions: seq<Action>, k: nat)
    requires Live(s) && Serving(s.arm) && Through(s) <= k < |s.ins|
    requires IsRun(s, actions) && Flush !in actions && DspSteps(actions) >= ThroughRank(s, k)
    ensures actions != [] && IsRun(Step(s, actions[0]), actions[1..]) && Flush !in actions[1..]
    ensures var t := Step(s, actions[0]);
      Live(t) && Serving(t.arm) && k < |t.ins| && DspSteps(actions[1..]) >= ThroughRank(t, k)
  {
    DspThroughStep(s, k);
    ThroughStep(s, actions[0], k);
    StepKeepsLive(s, actions[0]);
  }

  /** Every frame handed in comes through, unless a flush is asked for, after the given number of steps of
      the DSP thread among any other steps; and the DSP thread can always take one until then. */
  lemma {:induction false} FrameComesThrough(s: State, actions: seq<Action>, k: nat) returns (n: nat)
    requires Live(s) && Serving(s.arm) && k < |s.ins|
    requires IsRun(s, actions) && Flush !in actions && DspSteps(actions) >= ThroughRank(s, k)
    ensures n <= |actions| && k < Through(Exec(s, actions[..n]))
    decreases |actions|
  {
    if Through(s) <= k {
      ThroughStepLive(s, actions, k);
      var m := FrameComesThrough(Step(s, actions[0]), actions[1..], k);
      n := m + 1;
      ExecPrefix(s, actions, n);
    } else {
      n := 0;
      assert actions[..0] == [];
    }
  }

  // What the calls give back.

  /** Frames given back or in the hands of the call in progress. */
  function Given(s: State): seq<(FrameId, Meta)> {
    s.outs + OutEntry(s)
  }

  /** A step in which a call finds a done job. */
  predicate Finds(s: State, a: Action) {
    a == ArmStep && s.arm.TakeDone? && s.done != []
  }

  ghost function Found(s: State, actions: seq<Action>): nat
    decreases |actions|
  {
    if actions == [] then 0
    else (if Finds(s, actions[0]) then 1 else 0) + Found(Step(s, actions[0]), actions[1..])
  }

  lemma FindingGives(s: State)
    requires Inv(s) && s.arm.TakeDone? && s.done != []
    ensures |Given(StepArm(s))| == |Given(s)| + 1
  {
    TakeDoneTakes(s);
  }

  lemma ArmOthersGive(s: State)
    requires (InCall(s.arm) || s.arm.Returning?) && !(s.arm.TakeDone? && s.done != [])
    ensures |Given(StepArm(s))| == |Given(s)|
  {
  }

  lemma OthersGive(s: State, a: Action)
    requires Enabled(s, a) && (a == DspStep || a.Decode?)
    ensures |Given(Step(s, a))| == |Given(s)| && Step(s, a).ins == s.ins
    ensures Serving(s.arm) ==> Serving(Step(s, a).arm)
  {
  }

  lemma GivenStep(s: State, a: Action)
    requires Live(s) && Serving(s.arm) && Enabled(s, a) && a != Flush
    ensures Serving(Step(s, a).arm)
    ensures |Given(Step(s, a))| == |Given(s)| + if Finds(s, a) then 1 else 0
  {
    NoSpuriousServing(s);
    if a == ArmStep {
      CallGoesOn(s);
      if Finds(s, a) {
        FindingGives(s);
      } else {
        ArmOthersGive(s);
      }
    } else {
      OthersGive(s, a);
    }
  }

  /** Between two flushes every call that finds a done job gives one frame back, and no other one does. */
  lemma {:induction false} RunGives(s: State, actions: seq<Action>)
    requires Live(s) && Serving(s.arm) && IsRun(s, actions) && Flush !in actions
    ensures Live(Exec(s, actions)) && Serving(Exec(s, actions).arm)
    ensures |Given(Exec(s, actions))| == |Given(s)| + Found(s, actions)
    decreases |actions|
  {
    if actions != [] {
      GivenStep(s, actions[0]);
      StepKeepsLive(s, actions[0]);
      RunGives(Step(s, actions[0]), actions[1..]);
    }
  }

  lemma GivenIsPrefix(t: State)
    requires Ordered(t)
    ensures |Given(t)| <= |t.ins| && Given(t) == t.ins[..|Given(t)|]
  {
    var dec, undec := DecodedEntries(Decoded(t), t.frameMeta), UndecodedEntries(Undecoded(t), t.ctxMeta);
    TakeFirst(t.ins, t.outs, OutEntry(t), dec, undec);
  }

  /** The frames given back are the ones handed in first, in order and with their own metadata. */
  lemma GivenAreFirst(t: State)
    requires Live(t) && Serving(t.arm)
    ensures |Given(t)| <= |t.ins| && Given(t) == t.ins[..|Given(t)|]
    ensures t.arm == Idle ==> t.outs == Given(t)
  {
    GivenIsPrefix(t);
  }

  lemma TakeFirst<T>(all: seq<T>, a: seq<T>, b: seq<T>, c: seq<T>, d: seq<T>)
    requires all == a + (b + c + d)
    ensures |a + b| <= |all| && a + b == all[..|a + b|]
  {
  }

  lemma DoneInLine(s: State, j: nat)
    requires j < |s.done|
    ensures |OutEntry(s)| + j < |Line(s)|
    ensures Line(s)[|OutEntry(s)| + j]
      == (IdOf(s.done[j].frame), MetaOf(s.frameMeta, IdOf(s.done[j].frame)))
  {
    assert Decoded(s)[j] == s.done[j];
    assert Line(s)[|OutEntry(s)| + j] == DecodedEntries(Decoded(s), s.frameMeta)[j];
  }

  lemma DoneHasFrame(s: State, j: nat)
    requires Jobs(s) && j < |s.done|
    ensures s.done[j].frame.Frame?
  {
    assert (Decoded(s) + Undecoded(s))[j] == s.done[j];
  }

  /** The done jobs hold the frames that come next, with their metadata. */
  lemma DoneComesNext(s: State, j: nat)
    requires Jobs(s) && Ordered(s) && j < |s.done|
    ensures |Given(s)| + j < |s.ins| && s.done[j].frame.Frame?
    ensures s.ins[|Given(s)| + j] == (s.done[j].frame.id, MetaOf(s.frameMeta, s.done[j].frame.id))
  {
    DoneInLine(s, j);
    DoneHasFrame(s, j);
    assert |Given(s)| == |s.outs| + |OutEntry(s)|;
  }

  // What the calls hand in.

  /** Frames handed in, the one of the call in progress included. */
  function Handed(s: State): seq<(FrameId, Meta)> {
    s.ins + (if InCall(s.arm) then [(s.arm.frame, s.arm.meta)] else [])
  }

  /** What the calls of a run hand in. */
  function Decodes(actions: seq<Action>): seq<(FrameId, Meta)> {
    if actions == [] then []
    else (if actions[0].Decode? then [(actions[0].frame, actions[0].meta)] else []) + Decodes(actions[1..])
  }

  lemma ArmHands(s: State)
    requires InCall(s.arm) || s.arm.Returning?
    ensures Handed(StepArm(s)) == Handed(s)
  {
  }

  lemma OthersHand(s: State, a: Action)
    requires Enabled(s, a) && (a == DspStep || a.Decode?)
    ensures Handed(Step(s, a)) == Handed(s) + if a.Decode? then [(a.frame, a.meta)] else []
  {
  }

  lemma StepHands(s: State, a: Action)
    requires Live(s) && Serving(s.arm) && Enabled(s, a) && a != Flush
    ensures Handed(Step(s, a)) == Handed(s) + if a.Decode? then [(a.frame, a.meta)] else []
  {
    NoSpuriousServing(s);
    if a == ArmStep {
      ArmHands(s);
    } else {
      OthersHand(s, a);
    }
  }

  /** Between two flushes the frames in the pipeline's order are those of the calls, each with the metadata of
      its call. */
  lemma {:induction false} DecodesHandIn(s: State, actions: seq<Action>)
    requires Live(s) && Serving(s.arm) && IsRun(s, actions) && Flush !in actions
    ensures Handed(Exec(s, actions)) == Handed(s) + Decodes(actions)
    decreases |actions|
  {
    if actions != [] {
      var a := actions[0];
      StepHands(s, a);
      GivenStep(s, a);
      StepKeepsLive(s, a);
      DecodesHandIn(Step(s, a), actions[1..]);
      Assoc(Handed(s), if a.Decode? then [(a.frame, a.meta)] else [], Decodes(actions[1..]));
    }
  }
}
