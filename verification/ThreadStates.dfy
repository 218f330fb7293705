/** The set/ack handshake of athread.c: controllers ask a worker thread for a state and wait until the
    worker has acknowledged it; a worker asked to idle waits inside its acknowledgement. */
module ThreadStates {

  const THREAD_EXIT := 0
  const THREAD_IDLE := 1
  const THREAD_RUNNING := 2

  type Asked = x: int | THREAD_EXIT <= x <= THREAD_RUNNING witness THREAD_IDLE

  /** Whether asking for a state wakes the waiting threads. */
  predicate Wakes(asked: Asked) {
    asked != THREAD_IDLE
  }

  predicate MustWait(wanted: Asked, acked: Asked) {
    acked != wanted
  }

  predicate MustPark(wanted: Asked) {
    wanted == THREAD_IDLE
  }

  // The protocol: any number of controllers and one worker.

  /** A controller outside thread_state_set, or waiting in it for the state it asked for. */
  datatype Controller = Ready | Waiting(asked: Asked, asleep: bool)

  /** The worker's loop: while (get != EXIT) { ack; if (get == RUNNING) work else pause }. */
  datatype Worker = Top | Acking | Parked(asleep: bool) | Testing | Working | Pausing | Exited

  datatype State = State(wanted: Asked, acked: Asked, worker: Worker, controllers: seq<Controller>)

  datatype Action =
    | Set(i: nat, asked: Asked)
    | Wake(i: nat)          // controller i runs again after a wait
    | Spurious(i: nat)      // pthread_cond_wait may return without a broadcast
    | AskPause
    | WorkerStep
    | WorkerSpurious

  predicate Asleep(c: Controller) {
    c.Waiting? && c.asleep
  }

  function WakeAll(cs: seq<Controller>): (r: seq<Controller>)
    ensures |r| == |cs|
    ensures forall i :: 0 <= i < |cs| ==> r[i] == if cs[i].Waiting? then cs[i].(asleep := false) else cs[i]
  {
    seq(|cs|, i requires 0 <= i < |cs| => if cs[i].Waiting? then cs[i].(asleep := false) else cs[i])
  }

  function WakeWorker(w: Worker): Worker {
    if w.Parked? then Parked(false) else w
  }

  predicate Enabled(s: State, a: Action) {
    match a
    case Set(i, _) => i < |s.controllers| && s.controllers[i] == Ready
    case Wake(i) => i < |s.controllers| && s.controllers[i].Waiting? && !s.controllers[i].asleep
    case Spurious(i) => i < |s.controllers| && s.controllers[i].Waiting? && s.controllers[i].asleep
    case AskPause => true
    case WorkerStep => s.worker != Parked(true) && s.worker != Exited
    case WorkerSpurious => s.worker == Parked(true)
  }

  function StepWorker(s: State): State {
    match s.worker
    case Top => s.(worker := if s.acked != THREAD_EXIT then Acking else Exited)
    case Acking => s.(acked := s.wanted, controllers := WakeAll(s.controllers),
                      worker := if MustPark(s.wanted) then Parked(true) else Testing)
    case Parked(asleep) => if asleep then s else s.(worker := if MustPark(s.wanted) then Parked(true) else Testing)
    case Testing => s.(worker := if s.acked == THREAD_RUNNING then Working else Pausing)
    case Working => s.(worker := Top)
    case Pausing => s.(worker := Top)
    case Exited => s
  }

  function Step(s: State, a: Action): (s': State)
    requires Enabled(s, a)
    ensures |s'.controllers| == |s.controllers|
  {
    match a
    case Set(i, asked) =>
      var cs := if Wakes(asked) then WakeAll(s.controllers) else s.controllers;
      s.(wanted := asked,
         worker := if Wakes(asked) then WakeWorker(s.worker) else s.worker,
         controllers := cs[i := if MustWait(asked, s.acked) then Waiting(asked, true) else Ready])
    case Wake(i) =>
      s.(controllers := s.controllers[i :=
        if MustWait(s.wanted, s.acked) then s.controllers[i].(asleep := true) else Ready])
    case Spurious(i) => s.(controllers := s.controllers[i := s.controllers[i].(asleep := false)])
    case AskPause => s.(wanted := THREAD_IDLE)
    case WorkerStep => StepWorker(s)
    case WorkerSpurious => s.(worker := Parked(false))
  }

  predicate Init(s: State) {
    && s.wanted == s.acked && s.worker == Top
    && forall i :: 0 <= i < |s.controllers| ==> s.controllers[i] == Ready
  }

  /** THREAD_STATE, with the threads that use it. Each method is one critical section and equals a step of
      the protocol: a section that ends at pthread_cond_wait reports that its thread now waits, and the
      section run when that thread wakes up is a method of its own. */
  class ThreadState {
    var wanted: Asked  // _set
    var acked: Asked   // _get
    ghost var worker: Worker
    ghost var controllers: seq<Controller>

    ghost function Abs(): State
      reads this
    {
      State(wanted, acked, worker, controllers)
    }

    /** thread_state_init, before any thread uses it. */
    constructor (init: Asked, ghost n: nat)
      ensures Init(Abs()) && wanted == init && |controllers| == n
    {
      wanted := init;
      acked := init;
      worker := Top;
      controllers := seq(n, _ => Ready);
    }

    /** pthread_cond_broadcast */
    ghost method Broadcast()
      modifies this`worker, this`controllers
      ensures worker == WakeWorker(old(worker)) && controllers == WakeAll(old(controllers))
    {
      worker := WakeWorker(worker);
      controllers := WakeAll(controllers);
    }

    /** thread_state_set by controller i, up to its first wait or its return. */
    method Set(ghost i: nat, asked: Asked) returns (old_: Asked, waits: bool)
      requires Enabled(Abs(), Action.Set(i, asked))
      modifies this
      ensures Abs() == Step(old(Abs()), Action.Set(i, asked))
      ensures old_ == old(acked) && (waits <==> controllers[i].Waiting?)
      ensures wanted == asked && acked == old(acked) && (waits <==> acked != asked)
      ensures asked != THREAD_IDLE ==> worker != Parked(true)
      ensures asked != THREAD_IDLE ==> forall j :: 0 <= j < |controllers| && j != i ==> !Asleep(controllers[j])
    {
      old_ := acked;
      wanted := asked;
      if wanted != THREAD_IDLE {
        Broadcast();
      }
      waits := acked != wanted;
      controllers := controllers[i := if waits then Waiting(asked, true) else Ready];
    }

    /** The wait loop of thread_state_set when controller i wakes up. */
    method SetAgain(ghost i: nat) returns (waits: bool)
      requires Enabled(Abs(), Wake(i))
      modifies this`controllers
      ensures Abs() == Step(old(Abs()), Wake(i)) && (waits <==> controllers[i].Waiting?)
      ensures waits <==> acked != wanted
    {
      waits := acked != wanted;
      controllers := controllers[i := if waits then controllers[i].(asleep := true) else Ready];
    }

    /** thread_state_ack up to its first wait or its return. */
    method Ack() returns (waits: bool)
      requires worker == Acking
      modifies this
      ensures Abs() == Step(old(Abs()), WorkerStep) && (waits <==> worker == Parked(true))
      ensures acked == wanted == old(wanted) && (waits <==> wanted == THREAD_IDLE)
      ensures forall j :: 0 <= j < |controllers| ==> !Asleep(controllers[j])
    {
      acked := wanted;
      Broadcast();
      waits := wanted == THREAD_IDLE;
      worker := if waits then Parked(true) else Testing;
    }

    /** The wait loop of thread_state_ack when the worker wakes up. */
    method AckAgain() returns (waits: bool)
      requires worker == Parked(false)
      modifies this`worker
      ensures Abs() == Step(old(Abs()), WorkerStep) && (waits <==> worker == Parked(true))
      ensures waits <==> wanted == THREAD_IDLE
    {
      waits := wanted == THREAD_IDLE;
      worker := if waits then Parked(true) else Testing;
    }

    /** thread_state_ask_pause: nobody is woken. */
    method AskPause()
      modifies this`wanted
      ensures Abs() == Step(old(Abs()), Action.AskPause) && wanted == THREAD_IDLE
    {
      wanted := THREAD_IDLE;
    }
  }

  ghost predicate IsRun(s: State, actions: seq<Action>)
    decreases |actions|
  {
    actions != [] ==> Enabled(s, actions[0]) && IsRun(Step(s, actions[0]), actions[1..])
  }

  ghost function Exec(s: State, actions: seq<Action>): (s': State)
    requires IsRun(s, actions)
    ensures |s'.controllers| == |s.controllers|
    decreases |actions|
  {
    if actions == [] then s else Exec(Step(s, actions[0]), actions[1..])
  }

  /** Action a lets controller i out of thread_state_set. */
  predicate Returns(s: State, a: Action, i: nat)
    requires Enabled(s, a)
  {
    i < |s.controllers| && (a.Set? || a.Wake?) && a.i == i && Step(s, a).controllers[i] == Ready
  }

  // Safety, for any number of controllers and any pauses asked for from elsewhere.

  ghost predicate Inv(s: State) {
    && (s.worker == Working ==> s.acked == THREAD_RUNNING)
    && (s.worker.Parked? ==> s.acked == THREAD_IDLE)
    && (s.worker == Parked(true) ==> s.wanted == THREAD_IDLE)
    && (s.worker == Acking ==> s.acked != THREAD_EXIT)
    && (s.worker == Exited ==> s.acked == THREAD_EXIT)
  }

  lemma StepKeepsInv(s: State, a: Action)
    requires Inv(s) && Enabled(s, a)
    ensures Inv(Step(s, a))
  {
  }

  lemma {:induction false} RunKeepsInv(s: State, actions: seq<Action>)
    requires Inv(s) && IsRun(s, actions)
    ensures Inv(Exec(s, actions))
    decreases |actions|
  {
    if actions != [] {
      StepKeepsInv(s, actions[0]);
      RunKeepsInv(Step(s, actions[0]), actions[1..]);
    }
  }

  /** Nobody asks for anything but idling. */
  predicate OnlyIdleAsked(actions: seq<Action>) {
    forall k :: 0 <= k < |actions| && actions[k].Set? ==> actions[k].asked == THREAD_IDLE
  }

  lemma {:induction false} QuietWhileIdle(s: State, actions: seq<Action>)
    requires Inv(s) && s.wanted == s.acked == THREAD_IDLE
    requires IsRun(s, actions) && OnlyIdleAsked(actions)
    ensures Exec(s, actions).worker != Working
    ensures Exec(s, actions).wanted == Exec(s, actions).acked == THREAD_IDLE
    decreases |actions|
  {
    if actions != [] {
      StepKeepsInv(s, actions[0]);
      QuietWhileIdle(Step(s, actions[0]), actions[1..]);
    }
  }

  /** Safety. However a run got there, once some thread_state_set(THREAD_IDLE) has returned with the
      worker still asked to idle, the worker does no work until somebody asks for another state. */
  lemma NoWorkAfterIdle(s0: State, before: seq<Action>, a: Action, i: nat, after: seq<Action>)
    requires Init(s0) && IsRun(s0, before) && Enabled(Exec(s0, before), a)
    requires Returns(Exec(s0, before), a, i)
    requires var s := Step(Exec(s0, before), a); s.wanted == THREAD_IDLE && IsRun(s, after) && OnlyIdleAsked(after)
    ensures var s := Step(Exec(s0, before), a); Exec(s, after).worker != Working
    ensures var s := Step(Exec(s0, before), a); Exec(s, after).acked == THREAD_IDLE
  {
    RunKeepsInv(s0, before);
    var s := Step(Exec(s0, before), a);
    StepKeepsInv(Exec(s0, before), a);
    QuietWhileIdle(s, after);
  }

  // Progress, for one controller that is the only one to change the wanted state.

  /** No wake-up is lost: a sleeping controller has something to wait for, and it is what it asked. */
  ghost predicate Alone(s: State) {
    && |s.controllers| == 1
    && (s.controllers[0].Waiting? ==> s.wanted == s.controllers[0].asked)
    && (s.controllers[0].Waiting? && s.controllers[0].asleep ==> s.acked != s.wanted)
  }

  lemma StepKeepsAlone(s: State, a: Action)
    requires Inv(s) && Alone(s) && Enabled(s, a) && a != AskPause
    ensures Alone(Step(s, a))
  {
  }

  /** Worker steps left until the worker acknowledges the wanted state. */
  function Rank(s: State): nat {
    if s.acked == s.wanted then 0
    else match s.worker
      case Acking => 1
      case Top => 2
      case Working => 3
      case Pausing => 3
      case Testing => 4
      case Parked(_) => 5
      case Exited => 6
  }

  /** Every worker step brings the acknowledgement closer, no other step sets it back, and the worker
      can always take one. */
  lemma RankFalls(s: State, a: Action)
    requires Inv(s) && Alone(s) && s.controllers[0].Waiting? && s.acked != THREAD_EXIT
    requires Enabled(s, a) && a != AskPause
    ensures s.acked != s.wanted ==> Enabled(s, WorkerStep)
    ensures Step(s, a).wanted == s.wanted
    ensures Rank(Step(s, a)) <= Rank(s)
    ensures a == WorkerStep && Rank(s) > 0 ==> Rank(Step(s, a)) < Rank(s)
    ensures Step(s, a).acked == s.acked || Step(s, a).acked == s.wanted
  {
  }

  function WorkerSteps(actions: seq<Action>): nat {
    if actions == [] then 0 else (if actions[0] == WorkerStep then 1 else 0) + WorkerSteps(actions[1..])
  }

  /** One call of thread_state_set from its first wait on: nobody else changes the wanted state. */
  predicate OneCall(actions: seq<Action>) {
    forall k :: 0 <= k < |actions| ==> !actions[k].Set? && actions[k] != AskPause
  }

  /** The controller has returned, or is awake and its next step returns. */
  predicate ReturnsNext(s: State) {
    && |s.controllers| == 1
    && s.acked == s.wanted
    && (s.controllers[0] == Ready || (Enabled(s, Wake(0)) && Step(s, Wake(0)).controllers[0] == Ready))
  }

  lemma {:induction false} ReadyStays(s: State, actions: seq<Action>)
    requires Inv(s) && ReturnsNext(s) && IsRun(s, actions) && OneCall(actions)
    ensures ReturnsNext(Exec(s, actions)) && Exec(s, actions).wanted == s.wanted
    decreases |actions|
  {
    if actions != [] {
      StepKeepsInv(s, actions[0]);
      assert ReturnsNext(Step(s, actions[0]));
      ReadyStays(Step(s, actions[0]), actions[1..]);
    }
  }

  lemma {:induction false} RankBounds(s: State, actions: seq<Action>)
    requires Inv(s) && Alone(s) && s.controllers[0].Waiting? && s.acked != s.wanted && s.acked != THREAD_EXIT
    requires IsRun(s, actions) && OneCall(actions) && WorkerSteps(actions) >= Rank(s)
    ensures ReturnsNext(Exec(s, actions)) && Exec(s, actions).wanted == s.wanted
    decreases |actions|
  {
    var a, s' := actions[0], Step(s, actions[0]);
    StepKeepsInv(s, a);
    StepKeepsAlone(s, a);
    RankFalls(s, a);
    if s'.acked == s'.wanted {
      assert ReturnsNext(s');
      ReadyStays(s', actions[1..]);
    } else {
      RankBounds(s', actions[1..]);
    }
  }

  /** Progress. From the moment a lone controller starts to wait, any run in which the worker takes five
      steps ends with the worker's state being the one asked for and the controller out of the call or
      awake and about to leave it, however often it was woken for nothing. */
  lemma SetReturns(s: State, actions: seq<Action>)
    requires Inv(s) && Alone(s) && s.controllers[0].Waiting? && s.acked != s.wanted
    requires s.acked != THREAD_EXIT
    requires IsRun(s, actions) && OneCall(actions) && WorkerSteps(actions) >= 5
    ensures ReturnsNext(Exec(s, actions)) && Exec(s, actions).acked == s.controllers[0].asked
  {
    RankBounds(s, actions);
  }

  /** The condition is exact: once the worker has acknowledged THREAD_EXIT, a controller that waits for
      anything else waits for ever. */
  lemma {:induction false} SetHangsAfterExit(s: State, actions: seq<Action>)
    requires Inv(s) && Alone(s) && s.controllers[0].Waiting? && s.acked != s.wanted
    requires s.acked == THREAD_EXIT
    requires IsRun(s, actions) && OneCall(actions)
    ensures Exec(s, actions).controllers[0].Waiting? && Exec(s, actions).acked == THREAD_EXIT
    decreases |actions|
  {
    if actions != [] {
      StepKeepsInv(s, actions[0]);
      StepKeepsAlone(s, actions[0]);
      SetHangsAfterExit(Step(s, actions[0]), actions[1..]);
    }
  }

  /** Every state a lone controller can bring about satisfies what progress asks for. */
  lemma {:induction false} LoneRuns(s: State, actions: seq<Action>)
    requires Inv(s) && Alone(s) && IsRun(s, actions) && AskPause !in actions
    ensures Inv(Exec(s, actions)) && Alone(Exec(s, actions))
    decreases |actions|
  {
    if actions != [] {
      StepKeepsInv(s, actions[0]);
      StepKeepsAlone(s, actions[0]);
      LoneRuns(Step(s, actions[0]), actions[1..]);
    }
  }

  lemma LoneControllerReaches(s0: State, actions: seq<Action>)
    requires Init(s0) && |s0.controllers| == 1 && IsRun(s0, actions) && AskPause !in actions
    ensures Inv(Exec(s0, actions)) && Alone(Exec(s0, actions))
  {
    LoneRuns(s0, actions);
  }

  // Pauses from elsewhere: thread_state_ask_pause changes the wanted state without waking anybody.

  predicate NoSets(actions: seq<Action>) {
    forall k :: 0 <= k < |actions| ==> !actions[k].Set?
  }

  predicate NoSpurious(actions: seq<Action>) {
    forall k :: 0 <= k < |actions| ==> !actions[k].Spurious?
  }

  /** A pause asked for in this state strands the controller: the worker will acknowledge nothing more
      (it is parked, and asked to stay so, or about to leave), and nothing else would wake the controller. */
  predicate Strands(s: State)
    requires |s.controllers| == 1 && s.controllers[0].Waiting?
  {
    s.acked == THREAD_EXIT || (s.worker.Parked? && s.controllers[0].asleep)
  }

  lemma {:induction false} StrandedStays(s: State, actions: seq<Action>)
    requires Inv(s) && |s.controllers| == 1 && s.controllers[0].Waiting?
    requires s.wanted == THREAD_IDLE && Strands(s)
    requires IsRun(s, actions) && NoSets(actions) && NoSpurious(actions)
    ensures Exec(s, actions).controllers[0].Waiting?
    decreases |actions|
  {
    if actions != [] {
      StepKeepsInv(s, actions[0]);
      StrandedStays(Step(s, actions[0]), actions[1..]);
    }
  }

  /** Worker steps left until its next acknowledgement wakes the controller, when it is needed for that. */
  function PauseRank(s: State): nat {
    if ReturnsNext(s) then 0
    else match s.worker
      case Acking => 1
      case Top => 2
      case Working => 3
      case Pausing => 3
      case Testing => 4
      case Parked(_) => 0
      case Exited => 0
  }

  /** The controller will leave: it has or is about to, or the worker is on its way to acknowledge IDLE. */
  predicate Leaving(s: State) {
    && |s.controllers| == 1 && s.wanted == THREAD_IDLE
    && (s.controllers[0].Waiting? ==> !Strands(s))
    && (s.controllers[0] == Ready ==> s.acked == THREAD_IDLE)
  }

  lemma LeavingStep(s: State, a: Action)
    requires Inv(s) && Leaving(s) && Enabled(s, a) && !a.Set?
    ensures Leaving(Step(s, a)) && PauseRank(Step(s, a)) <= PauseRank(s)
    ensures a == WorkerStep && !ReturnsNext(s) ==> PauseRank(Step(s, a)) < PauseRank(s)
    ensures !ReturnsNext(s) ==> Enabled(s, WorkerStep) && PauseRank(s) > 0
  {
  }

  lemma {:induction false} LeavingReturns(s: State, actions: seq<Action>)
    requires Inv(s) && Leaving(s) && IsRun(s, actions) && NoSets(actions)
    requires WorkerSteps(actions) >= PauseRank(s)
    ensures ReturnsNext(Exec(s, actions)) && Exec(s, actions).acked == THREAD_IDLE
    decreases |actions|
  {
    if actions != [] {
      StepKeepsInv(s, actions[0]);
      LeavingStep(s, actions[0]);
      LeavingReturns(Step(s, actions[0]), actions[1..]);
    } else if !ReturnsNext(s) {
      LeavingStep(s, WorkerStep);
    }
  }

  /** A run that lets the controller out: the worker acknowledges, the controller wakes up. */
  lemma {:induction false} LeavingRun(s: State) returns (actions: seq<Action>)
    requires Inv(s) && Leaving(s)
    ensures IsRun(s, actions) && NoSets(actions) && NoSpurious(actions)
    ensures Exec(s, actions).controllers[0] == Ready
    decreases PauseRank(s)
  {
    if s.controllers[0] == Ready {
      actions := [];
    } else if ReturnsNext(s) {
      actions := [Wake(0)];
      assert actions[1..] == [];
      assert IsRun(Step(s, Wake(0)), []);
    } else {
      LeavingStep(s, WorkerStep);
      StepKeepsInv(s, WorkerStep);
      var rest := LeavingRun(Step(s, WorkerStep));
      actions := [WorkerStep] + rest;
      assert actions[1..] == rest;
    }
  }

  /** Exactly when a pause strands a lone waiting controller, whatever state it asked for: then no run
      lets it out until somebody asks for another state or it wakes up for nothing. */
  lemma PauseStrandsIff(s: State)
    requires Inv(s) && |s.controllers| == 1 && s.controllers[0].Waiting?
    ensures Strands(s) <==>
      forall actions :: IsRun(Step(s, AskPause), actions) && NoSets(actions) && NoSpurious(actions)
        ==> Exec(Step(s, AskPause), actions).controllers[0].Waiting?
  {
    var t := Step(s, AskPause);
    StepKeepsInv(s, AskPause);
    if Strands(s) {
      forall actions | IsRun(t, actions) && NoSets(actions) && NoSpurious(actions)
        ensures Exec(t, actions).controllers[0].Waiting?
      {
        StrandedStays(t, actions);
      }
    } else {
      var actions := LeavingRun(t);
    }
  }

  /** Where it does not strand it, every run, with any spurious wake-ups and further pauses, in which the
      worker takes the four steps it may need ends with the controller out of the call or about to leave
      it; and it leaves it with IDLE, whatever it asked for. */
  lemma PausedReturnsIdle(s: State, actions: seq<Action>)
    requires Inv(s) && |s.controllers| == 1 && s.controllers[0].Waiting? && !Strands(s)
    requires var t := Step(s, AskPause);
      IsRun(t, actions) && NoSets(actions) && WorkerSteps(actions) >= PauseRank(t)
    ensures var t := Step(s, AskPause);
      PauseRank(t) <= 4 && ReturnsNext(Exec(t, actions)) && Exec(t, actions).acked == THREAD_IDLE
  {
    StepKeepsInv(s, AskPause);
    LeavingReturns(Step(s, AskPause), actions);
  }

  /** A run that gets there. Between the broadcast of thread_state_set(RUNNING) and the worker's wake-up it
      leaves both threads asleep although the states agree. */
  lemma PauseStrandsController()
    ensures exists s0: State, actions: seq<Action> ::
      && Init(s0) && |s0.controllers| == 1 && IsRun(s0, actions)
      && var s := Exec(s0, actions);
         && s.wanted == s.acked && s.controllers[0] == Waiting(THREAD_RUNNING, true)
         && !Enabled(s, WorkerStep) && !Enabled(s, Wake(0))
  {
    var s0 := State(THREAD_IDLE, THREAD_IDLE, Top, [Ready]);
    var s2 := Step(Step(s0, WorkerStep), WorkerStep);
    assert s2 == State(THREAD_IDLE, THREAD_IDLE, Parked(true), [Ready]);
    var s3 := Step(s2, Action.Set(0, THREAD_RUNNING));
    assert s3 == State(THREAD_RUNNING, THREAD_IDLE, Parked(false), [Waiting(THREAD_RUNNING, true)]);
    var s5 := Step(Step(s3, Action.AskPause), WorkerStep);
    RunOf(Step(s3, Action.AskPause), s5, [], WorkerStep);
    RunOf(s3, s5, [WorkerStep] + [], Action.AskPause);
    RunOf(s2, s5, [Action.AskPause] + ([WorkerStep] + []), Action.Set(0, THREAD_RUNNING));
    var rest := [Action.Set(0, THREAD_RUNNING)] + ([Action.AskPause] + ([WorkerStep] + []));
    RunOf(Step(s0, WorkerStep), s5, rest, WorkerStep);
    RunOf(s0, s5, [WorkerStep] + rest, WorkerStep);
  }

  /** A run with one more step before it. */
  lemma RunOf(s: State, t: State, actions: seq<Action>, a: Action)
    requires Enabled(s, a) && IsRun(Step(s, a), actions) && Exec(Step(s, a), actions) == t
    ensures IsRun(s, [a] + actions) && Exec(s, [a] + actions) == t
  {
    assert ([a] + actions)[1..] == actions;
  }
}
