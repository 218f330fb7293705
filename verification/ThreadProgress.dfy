/** Where the handshake of ThreadStates gets: a worker reaches the state that it is asked for. */
module ThreadProgress {
  import opened ThreadStates

  /** The worker does what it is asked to: it works, is parked, or has left its loop. */
  predicate Arrived(s: State) {
    match s.worker
    case Working => s.wanted == THREAD_RUNNING
    case Parked(asleep) => s.wanted == THREAD_IDLE && asleep
    case Exited => s.wanted == THREAD_EXIT
    case _ => false
  }

  /** Worker steps from its acknowledgement on. */
  function AckRank(wanted: Asked): nat {
    if wanted == THREAD_IDLE then 1 else if wanted == THREAD_RUNNING then 2 else 4
  }

  /** Worker steps left until it arrives. */
  function ArriveRank(s: State): nat {
    if Arrived(s) then 0
    else match s.worker
      case Acking => AckRank(s.wanted)
      case Top => TopRank(s)
      case Working => TopRank(s) + 1
      case Pausing => TopRank(s) + 1
      case Testing => if s.acked == THREAD_RUNNING && s.wanted == THREAD_RUNNING then 1 else TopRank(s) + 2
      case Parked(_) => if s.wanted == THREAD_IDLE then 1 else TopRank(s) + 3
      case Exited => 0
  }

  function TopRank(s: State): nat {
    if s.acked == THREAD_EXIT then 1 else AckRank(s.wanted) + 1
  }

  lemma WorkerCan(s: State)
    requires Inv(s) && (s.acked == THREAD_EXIT ==> s.wanted == THREAD_EXIT) && !Arrived(s)
    ensures Enabled(s, WorkerStep) && ArriveRank(s) > 0
  {
  }

  /** Nothing but another request sets it back. */
  lemma ArriveStep(s: State, a: Action)
    requires Inv(s) && (s.acked == THREAD_EXIT ==> s.wanted == THREAD_EXIT) && !Arrived(s)
    requires Enabled(s, a) && !a.Set? && a != AskPause
    ensures Step(s, a).wanted == s.wanted && (Step(s, a).acked == THREAD_EXIT ==> s.wanted == THREAD_EXIT)
    ensures ArriveRank(Step(s, a)) <= ArriveRank(s) - if a == WorkerStep then 1 else 0
  {
  }

  /** A worker that has not left its loop arrives at the wanted state, after at most eight steps of its own
      among any spurious or real wake-ups, as long as nothing else is asked for. */
  lemma {:induction false} Arrives(s: State, actions: seq<Action>) returns (n: nat)
    requires Inv(s) && (s.acked == THREAD_EXIT ==> s.wanted == THREAD_EXIT)
    requires IsRun(s, actions) && OneCall(actions) && WorkerSteps(actions) >= ArriveRank(s)
    ensures ArriveRank(s) <= 8
    ensures n <= |actions| && IsRun(s, actions[..n])
    ensures Arrived(Exec(s, actions[..n])) && Exec(s, actions[..n]).wanted == s.wanted
    decreases |actions|
  {
    if !Arrived(s) {
      WorkerCan(s);
      ArriveStep(s, actions[0]);
      StepKeepsInv(s, actions[0]);
      var m := Arrives(Step(s, actions[0]), actions[1..]);
      n := m + 1;
      assert actions[..n][1..] == actions[1..][..n - 1];
    } else {
      n := 0;
    }
  }
}
