/** Every _decode and every _flush of the two-stage decoder returns. */
module PipelineReturns {
  import opened Pipeline
  import opened PipelineProgress
  import Threads = ThreadStates

  // How far the ARM side's call is from its end.

  /** In the loop of _decode: a context can be taken, or a job that holds one. */
  predicate Ready(s: State) {
    s.done != [] || s.empty != []
  }

  function CallRank(s: State): nat {
    match s.arm
    case Returning(_) => 1
    case PutFull(_, _, _, _) => 2
    case Decoding(_, _, _, _) => 3
    case TakeEmpty(_, _, _) => if s.empty != [] then 4 else if s.done != [] then 8 else 8 + PutRank(s)
    case PutEmpty(_, _, _, _) => 5
    case TakeDone(_, _, _, second) => if !Ready(s) then 8 + PutRank(s) else if second then 6 else 7
    case _ => 0
  }

  /** Steps of the DSP thread until it acknowledges the wanted state. */
  function AckRank(s: State): nat {
    if s.h.acked == s.h.wanted then 0
    else match s.dsp
      case PutDone(_) => 3
      case DecodeDsp(_) => 4
      case TakeFull(second) => if second then 5 else 6
      case Out =>
        match s.h.worker
        case Acking => 1
        case Top => 2
        case Pausing => 3
        case Testing => if s.h.acked == Threads.THREAD_RUNNING then 7 else 4
        case Parked(_) => 5
        case _ => 0
  }

  function FlushRank(s: State): int {
    match s.arm
    case Stopping => s.n + 22
    case StopWait => s.n + 14 + AckRank(s)
    case Reset(k) => s.n - k + 13
    case Starting => 9
    case StartWait => 1 + AckRank(s)
    case _ => 0
  }

  /** Helpful steps left at most until the call or the flush in progress returns. */
  function Rank(s: State): int {
    CallRank(s) + FlushRank(s)
  }

  /** Whether it is the ARM side's turn: in a wait it is only when the state is acknowledged, in the loop of
      _decode when there is something to take. */
  predicate ArmHelps(s: State) {
    match s.arm
    case StopWait => s.h.acked == s.h.wanted
    case StartWait => s.h.acked == s.h.wanted
    case TakeDone(_, _, _, _) => Ready(s)
    case TakeEmpty(_, _, _) => Ready(s)
    case _ => true
  }

  predicate Helps(s: State, a: Action) {
    s.arm != Idle && a == if ArmHelps(s) then ArmStep else DspStep
  }

  // One of the two sides can always bring it closer.

  lemma AckPossible(s: State)
    requires Phases(s) && Operating(s) && s.h.acked != s.h.wanted
    ensures Enabled(s, DspStep) && 0 < AckRank(s) <= 7
  {
  }

  /** When nothing can be taken every context is in a job. */
  lemma NothingMeansJob(s: State)
    requires Inv(s) && (s.arm.TakeDone? || s.arm.TakeEmpty?) && !Ready(s)
    ensures HasJob(s)
  {
    LoopLength(s);
  }

  lemma HelpPossible(s: State)
    requires Live(s) && s.arm != Idle
    ensures 0 < Rank(s) <= s.n + 22
    ensures Enabled(s, if ArmHelps(s) then ArmStep else DspStep)
  {
    if s.h.acked != s.h.wanted {
      AckPossible(s);
    }
    if (s.arm.TakeDone? || s.arm.TakeEmpty?) && !Ready(s) {
      NothingMeansJob(s);
      DspAdvances(s);
    }
  }

  // No step sets it back.

  lemma TakeDoneRank(s: State)
    requires s.arm.TakeDone?
    ensures CallRank(StepArm(s)) <= CallRank(s) - if Ready(s) then 1 else 0
  {
  }

  lemma TakeEmptyRank(s: State)
    requires s.arm.TakeEmpty?
    ensures CallRank(StepArm(s)) <= CallRank(s) - if Ready(s) then 1 else 0
  {
  }

  lemma CallEndRank(s: State)
    requires 0 < s.n && (s.arm.PutEmpty? || s.arm.Decoding? || s.arm.PutFull? || s.arm.Returning?)
    ensures CallRank(StepArm(s)) < CallRank(s)
  {
  }

  lemma ArmCallStep(s: State)
    requires 0 < s.n && (InCall(s.arm) || s.arm.Returning?)
    ensures CallRank(StepArm(s)) <= CallRank(s) - if ArmHelps(s) then 1 else 0
    ensures FlushRank(StepArm(s)) == FlushRank(s) == 0
  {
    CallGoesOn(s);
    ArmKeepsDsp(s);
    match s.arm
    case TakeDone(_, _, _, _) => TakeDoneRank(s);
    case TakeEmpty(_, _, _) => TakeEmptyRank(s);
    case _ => CallEndRank(s);
  }

  /** What the DSP thread leaves to the ARM side. */
  predicate DspLeaves(s: State, t: State) {
    t.arm == s.arm && t.n == s.n && t.empty == s.empty && (s.done != [] ==> t.done != [])
  }

  lemma DspStepLeaves(s: State)
    requires Enabled(s, DspStep) && 0 < s.n
    ensures DspLeaves(s, StepDsp(s))
  {
  }

  lemma ReadyRank(s: State, t: State)
    requires DspLeaves(s, t) && ((s.arm.TakeDone? || s.arm.TakeEmpty?) ==> Ready(s))
    ensures CallRank(t) <= CallRank(s)
  {
  }

  lemma NotReadyRank(s: State, t: State)
    requires DspLeaves(s, t) && (s.arm.TakeDone? || s.arm.TakeEmpty?) && !Ready(s)
    requires t.done != [] || PutRank(t) < PutRank(s)
    ensures CallRank(t) < CallRank(s)
  {
  }

  lemma DspCallStep(s: State)
    requires Live(s) && (InCall(s.arm) || s.arm.Returning?) && Enabled(s, DspStep)
    ensures CallRank(StepDsp(s)) <= CallRank(s) - if ArmHelps(s) then 0 else 1
    ensures FlushRank(StepDsp(s)) == FlushRank(s) == 0
  {
    DspStepLeaves(s);
    if ArmHelps(s) {
      ReadyRank(s, StepDsp(s));
    } else {
      NothingMeansJob(s);
      DspAdvances(s);
      NotReadyRank(s, StepDsp(s));
    }
  }

  lemma ControlRank(s: State)
    requires Phases(s) && Operating(s) && Enabled(s, ArmStep)
    requires s.arm.Stopping? || s.arm.StopWait? || s.arm.Starting? || s.arm.StartWait?
    ensures FlushRank(StepArm(s)) <= FlushRank(s) - if ArmHelps(s) then 1 else 0
  {
  }

  lemma ResetRank(s: State)
    requires s.arm.Reset? && s.arm.k <= s.n + 3
    ensures FlushRank(StepArm(s)) < FlushRank(s)
  {
  }

  lemma ArmFlushStep(s: State)
    requires Live(s) && (s.arm == Stopping || Flushing(s.arm)) && Enabled(s, ArmStep)
    ensures FlushRank(StepArm(s)) <= FlushRank(s) - if ArmHelps(s) then 1 else 0
    ensures CallRank(StepArm(s)) == CallRank(s) == 0
  {
    if s.arm.Reset? {
      ResetRank(s);
    } else {
      ControlPhases(s);
      ControlRank(s);
    }
  }

  lemma AckStep(s: State)
    requires Phases(s) && Operating(s) && Enabled(s, DspStep)
    ensures AckRank(StepDsp(s)) <= AckRank(s) - if s.h.acked != s.h.wanted then 1 else 0
  {
  }

  lemma DspFlushStep(s: State)
    requires Live(s) && (s.arm == Stopping || Flushing(s.arm)) && Enabled(s, DspStep)
    ensures FlushRank(StepDsp(s)) <= FlushRank(s) - if ArmHelps(s) then 0 else 1
    ensures CallRank(StepDsp(s)) == CallRank(s) == 0
  {
    DspStepLeaves(s);
    AckStep(s);
  }

  /** A wake-up for nothing. */
  predicate OnlyWakes(s: State, t: State) {
    && t == s.(h := t.h) && t.h.wanted == s.h.wanted && t.h.acked == s.h.acked
    && (t.h.worker == s.h.worker || (t.h.worker.Parked? && s.h.worker.Parked?))
  }

  lemma SpuriousWakes(s: State)
    requires Enabled(s, SpuriousWake)
    ensures OnlyWakes(s, Step(s, SpuriousWake))
  {
  }

  lemma WakingKeepsRank(s: State, t: State)
    requires OnlyWakes(s, t)
    ensures CallRank(t) == CallRank(s) && FlushRank(t) == FlushRank(s)
  {
  }

  lemma SpuriousStep(s: State)
    requires Enabled(s, SpuriousWake)
    ensures Rank(Step(s, SpuriousWake)) == Rank(s)
  {
    SpuriousWakes(s);
    WakingKeepsRank(s, Step(s, SpuriousWake));
  }

  lemma RankStep(s: State, a: Action)
    requires Live(s) && s.arm != Idle && Enabled(s, a)
    ensures Rank(Step(s, a)) <= Rank(s) - if Helps(s, a) then 1 else 0
  {
    match a
    case ArmStep =>
      if s.arm == Stopping || Flushing(s.arm) {
        ArmFlushStep(s);
      } else {
        ArmCallStep(s);
      }
    case DspStep =>
      if s.arm == Stopping || Flushing(s.arm) {
        DspFlushStep(s);
      } else {
        DspCallStep(s);
      }
    case _ => SpuriousStep(s);
  }

  // It stays the turn of the side whose turn it is until that side steps.

  lemma ArmWaits(s: State)
    requires Phases(s) && Enabled(s, ArmStep) && s.arm != Idle && !ArmHelps(s)
    ensures !ArmHelps(StepArm(s))
  {
  }

  lemma DspLeavesTurn(s: State)
    requires Phases(s) && Operating(s) && Enabled(s, DspStep) && 0 < s.n && ArmHelps(s)
    ensures ArmHelps(StepDsp(s))
  {
    DspStepLeaves(s);
    AckStep(s);
  }

  lemma SpuriousLeavesTurn(s: State)
    requires Enabled(s, SpuriousWake)
    ensures ArmHelps(Step(s, SpuriousWake)) == ArmHelps(s)
  {
  }

  lemma TurnStays(s: State, a: Action)
    requires Live(s) && s.arm != Idle && Enabled(s, a) && !Helps(s, a)
    ensures ArmHelps(Step(s, a)) <==> ArmHelps(s)
  {
    match a
    case ArmStep => ArmWaits(s);
    case DspStep => DspLeavesTurn(s);
    case _ => SpuriousLeavesTurn(s);
  }

  ghost function HelpfulSteps(s: State, actions: seq<Action>): nat
    decreases |actions|
  {
    if actions == [] then 0
    else (if Helps(s, actions[0]) then 1 else 0) + HelpfulSteps(Step(s, actions[0]), actions[1..])
  }

  lemma ReturnStep(s: State, actions: seq<Action>)
    requires Live(s) && s.arm != Idle && IsRun(s, actions) && HelpfulSteps(s, actions) >= Rank(s)
    ensures actions != [] && Live(Step(s, actions[0])) && IsRun(Step(s, actions[0]), actions[1..])
    ensures HelpfulSteps(Step(s, actions[0]), actions[1..]) >= Rank(Step(s, actions[0]))
  {
    HelpPossible(s);
    RankStep(s, actions[0]);
    StepKeepsLive(s, actions[0]);
  }

  /** Every call of _decode and of _flush returns, after at most n + 22 steps of the side whose turn it is
      among any steps of the other: it neither deadlocks nor goes round its loop for ever. */
  lemma {:induction false} Returns(s: State, actions: seq<Action>) returns (n: nat)
    requires Live(s) && IsRun(s, actions) && HelpfulSteps(s, actions) >= Rank(s)
    ensures n <= |actions| && Exec(s, actions[..n]).arm == Idle
    decreases |actions|
  {
    if s.arm != Idle {
      ReturnStep(s, actions);
      var m := Returns(Step(s, actions[0]), actions[1..]);
      n := m + 1;
      ExecPrefix(s, actions, n);
    } else {
      n := 0;
      assert actions[..0] == [];
    }
  }

  // What a flush leaves.

  /** No frame is inside and every context is empty. */
  predicate Emptied(s: State) {
    && s.ins == [] && s.outs == [] && s.full == [] && s.done == [] && s.empty == FreshJobs(s.n)
    && !s.dsp.DecodeDsp? && !s.dsp.PutDone?
  }

  predicate FlushOrEmptied(s: State) {
    s.arm.Stopping? || s.arm.StopWait? || s.arm.Reset?
    || ((s.arm.Starting? || s.arm.StartWait? || s.arm.Idle?) && Emptied(s))
  }

  lemma ArmFlushEmpties(s: State)
    requires 0 < s.n && Phases(s) && (s.arm.Reset? ==> Resetting(s)) && FlushOrEmptied(s) && Enabled(s, ArmStep)
    ensures FlushOrEmptied(StepArm(s))
  {
    if !s.arm.Reset? {
      ControlPhases(s);
    }
  }

  lemma DspFlushEmpties(s: State)
    requires FlushOrEmptied(s) && Enabled(s, DspStep)
    ensures FlushOrEmptied(StepDsp(s))
  {
  }

  lemma FlushStep(s: State, a: Action)
    requires Inv(s) && FlushOrEmptied(s) && Enabled(s, a) && !a.Decode?
    ensures FlushOrEmptied(Step(s, a))
  {
    match a
    case ArmStep => ArmFlushEmpties(s);
    case DspStep => DspFlushEmpties(s);
    case _ =>
  }

  lemma {:induction false} FlushRun(s: State, actions: seq<Action>)
    requires Inv(s) && FlushOrEmptied(s) && IsRun(s, actions) && forall a :: a in actions ==> !a.Decode?
    ensures FlushOrEmptied(Exec(s, actions))
    decreases |actions|
  {
    if actions != [] {
      FlushStep(s, actions[0]);
      StepKeepsInv(s, actions[0]);
      FlushRun(Step(s, actions[0]), actions[1..]);
    }
  }

  /** When a flush has returned, and until the next call, the pipeline is empty. */
  lemma FlushEmpties(s: State, actions: seq<Action>)
    requires Inv(s) && Enabled(s, Flush) && IsRun(Step(s, Flush), actions)
    requires forall a :: a in actions ==> !a.Decode?
    ensures var t := Exec(Step(s, Flush), actions); t.arm == Idle ==> Emptied(t)
  {
    StepKeepsInv(s, Flush);
    FlushRun(Step(s, Flush), actions);
  }
}
