/** How a player of the mailbox ends: avos_mp_destroy returns, and whether it leaves a media behind. */
module MailboxDestroy {
  import opened Mailbox
  import opened MailboxProgress

  /** Steps left at most until the player is gone. */
  function GoneRank(s: State): nat {
    if s.client == Joining then (if s.worker == Exited then 1 else 1 + DueRank(s, Cmd(EXIT, 0)))
    else if s.client == Exiting then 6
    else 6 + WaitRank(s)
  }

  predicate HelpsGone(s: State, a: Action) {
    if s.client == Joining && s.worker != Exited then a.WorkerStep?
    else if s.client == Joining || s.client == Exiting then a == ClientStep
    else Helps(s, a)
  }

  /** The worker of a player that is being destroyed has left, or has been told to. */
  predicate ToldToExit(s: State) {
    s.client == Joining ==> s.worker == Exited || Due(s, Cmd(EXIT, 0))
  }

  lemma JoiningStep(s: State, a: Action)
    requires Inv(s) && s.client == Joining && ToldToExit(s) && Enabled(s, a)
    ensures Step(s, a).client == Gone || (Step(s, a).client == Joining && ToldToExit(Step(s, a)))
    ensures Step(s, a).client == Joining ==> GoneRank(Step(s, a)) <= GoneRank(s) - if HelpsGone(s, a) then 1 else 0
    ensures HelpsGone(s, a) && s.worker == Exited ==> Step(s, a).client == Gone
  {
    if s.worker != Exited {
      DueStep(s, a, Cmd(EXIT, 0));
    }
  }

  lemma DestroyStep(s: State, a: Action)
    requires Inv(s) && Destroys(s.client) && s.client != Joining && Enabled(s, a)
    ensures var t := Step(s, a);
      && Destroys(t.client) && ToldToExit(t)
      && GoneRank(t) <= GoneRank(s) - if HelpsGone(s, a) then 1 else 0
  {
    if s.client == Exiting {
      if a == ClientStep {
        AskedIsDue(s, a);
      }
    } else {
      WaitStep(s, a);
      if !InWait(Step(s, a).client) {
        WaitLeads(s, a);
      }
    }
  }

  lemma GonePossible(s: State)
    requires Inv(s) && Destroys(s.client) && ToldToExit(s)
    ensures GoneRank(s) > 0
    ensures if HelpsGone(s, ClientStep) then Enabled(s, ClientStep)
            else HelpsGone(s, WorkerStep(true)) && Enabled(s, WorkerStep(true))
  {
    if InWait(s.client) {
      HelpPossible(s);
    }
  }

  ghost function GoneSteps(s: State, actions: seq<Action>): nat
    decreases |actions|
  {
    if actions == [] then 0
    else (if HelpsGone(s, actions[0]) then 1 else 0) + GoneSteps(Step(s, actions[0]), actions[1..])
  }

  lemma GoneStep(s: State, actions: seq<Action>)
    requires Inv(s) && Destroys(s.client) && ToldToExit(s)
    requires IsRun(s, actions) && GoneSteps(s, actions) >= GoneRank(s)
    ensures actions != [] && IsRun(Step(s, actions[0]), actions[1..])
    ensures var t := Step(s, actions[0]);
      t.client == Gone ||
      (Inv(t) && Destroys(t.client) && ToldToExit(t) && GoneSteps(t, actions[1..]) >= GoneRank(t))
  {
    GonePossible(s);
    if s.client == Joining {
      JoiningStep(s, actions[0]);
    } else {
      DestroyStep(s, actions[0]);
    }
    StepKeepsInv(s, actions[0]);
  }

  lemma {:induction false} GoneRun(s: State, actions: seq<Action>) returns (n: nat)
    requires Inv(s) && Destroys(s.client) && ToldToExit(s)
    requires IsRun(s, actions) && GoneSteps(s, actions) >= GoneRank(s)
    ensures n <= |actions| && Exec(s, actions[..n]).client == Gone
    decreases |actions|
  {
    GoneStep(s, actions);
    if Step(s, actions[0]).client == Gone {
      n := 1;
    } else {
      var m := GoneRun(Step(s, actions[0]), actions[1..]);
      n := m + 1;
    }
    ExecPrefix(s, actions, n);
  }

  /** A destroy ends, whatever the worker was doing: after at most 16 steps of the thread whose turn it is, among
      any others, the worker has left its loop and the client is past the join. */
  lemma DestroyEnds(s: State, actions: seq<Action>) returns (n: nat)
    requires Inv(s) && Enabled(s, Destroy) && IsRun(Step(s, Destroy), actions)
    requires GoneSteps(Step(s, Destroy), actions) >= 16
    ensures n <= |actions|
    ensures var t := Exec(Step(s, Destroy), actions[..n]); t.client == Gone && t.worker == Exited
  {
    var s' := Step(s, Destroy);
    StepKeepsInv(s, Destroy);
    if InWait(s'.client) {
      HelpPossible(s');
    }
    n := GoneRun(s', actions);
    PrefixRun(s', actions, n);
    RunKeepsInv(s', actions[..n]);
  }

  lemma {:induction false} PrefixRun(s: State, actions: seq<Action>, n: nat)
    requires IsRun(s, actions) && n <= |actions|
    ensures IsRun(s, actions[..n])
    decreases n
  {
    if n > 0 {
      PrefixRun(Step(s, actions[0]), actions[1..], n - 1);
      assert actions[..n][1..] == actions[1..][..n - 1];
    }
  }

  // Whether it leaves a media behind.

  lemma LeavingAddsNoOpen(s: State, a: Action)
    requires Enabled(s, a) && (Destroys(s.client) || s.client == Gone)
    ensures a != OpenAsync && (Destroys(Step(s, a).client) || Step(s, a).client == Gone)
  {
  }

  lemma {:induction false} LeavingRun(s: State, actions: seq<Action>)
    requires Inv(s) && CloseOrNoMedia(s) && (Destroys(s.client) || s.client == Gone) && IsRun(s, actions)
    ensures CloseOrNoMedia(Exec(s, actions))
    decreases |actions|
  {
    if actions != [] {
      LeavingAddsNoOpen(s, actions[0]);
      ClosingStep(s, actions[0]);
      StepKeepsInv(s, actions[0]);
      LeavingRun(Step(s, actions[0]), actions[1..]);
    }
  }

  lemma Prepend(s: State, a: Action, rest: seq<Action>)
    requires Enabled(s, a) && IsRun(Step(s, a), rest)
    ensures IsRun(s, [a] + rest) && Exec(s, [a] + rest) == Exec(Step(s, a), rest)
  {
    assert ([a] + rest)[1..] == rest;
  }

  /** A run to the end of a destroy that is past its close, with the media that is there. */
  lemma {:induction false} GoneWithMedia(s: State) returns (actions: seq<Action>)
    requires Inv(s) && (s.client == Exiting || s.client == Joining) && ToldToExit(s) && s.media
    ensures IsRun(s, actions) && Exec(s, actions).client == Gone && Exec(s, actions).media
    decreases GoneRank(s)
  {
    GonePossible(s);
    var a := if HelpsGone(s, ClientStep) then ClientStep else WorkerStep(true);
    if s.client == Joining {
      JoiningStep(s, a);
    } else {
      DestroyStep(s, a);
    }
    MediaChanges(s, a);
    StepKeepsInv(s, a);
    var rest := [];
    if Step(s, a).client != Gone {
      rest := GoneWithMedia(Step(s, a));
    }
    Prepend(s, a, rest);
    actions := [a] + rest;
  }

  /** And one on which the worker opens a media first. */
  lemma {:induction false} OpenedWhileExiting(s: State, cmd: Cmd) returns (actions: seq<Action>)
    requires Inv(s) && s.client == Exiting && cmd.id == OPEN && Due(s, cmd)
    ensures IsRun(s, actions) && Exec(s, actions).client == Gone && Exec(s, actions).media
    decreases DueRank(s, cmd)
  {
    var a, t := WorkerStep(true), Step(s, WorkerStep(true));
    DueStep(s, a, cmd);
    StepKeepsInv(s, a);
    var rest;
    if Executes(t, cmd) {
      rest := GoneWithMedia(t);
    } else {
      rest := OpenedWhileExiting(t, cmd);
    }
    Prepend(s, a, rest);
    actions := [a] + rest;
  }

  /** Exactly when a destroy can leave a media behind that nobody closes: when it finds none, but an open is
      pending or about to run. */
  lemma DestroyLeavesMediaIff(s: State)
    requires Inv(s) && Enabled(s, Destroy)
    ensures !s.media && OpenDue(s) <==>
      exists actions :: IsRun(Step(s, Destroy), actions)
        && Exec(Step(s, Destroy), actions).client == Gone && Exec(Step(s, Destroy), actions).media
  {
    var t := Step(s, Destroy);
    StepKeepsInv(s, Destroy);
    if !s.media && OpenDue(s) {
      var _ := OpenedWhileExiting(t, if s.next.id == OPEN then s.next else s.cur);
    } else {
      forall actions | IsRun(t, actions)
        ensures !(Exec(t, actions).client == Gone && Exec(t, actions).media)
      {
        LeavingRun(t, actions);
      }
    }
  }

  /** A run that leaves one behind. */
  lemma DestroyLeavesMedia()
    ensures exists s: State, actions: seq<Action> ::
      Init(s) && IsRun(s, actions) && Exec(s, actions).client == Gone && Exec(s, actions).media
  {
    var s := State(NO_CMD, NO_CMD, AtTop, Idle, false, [], [], [], WAIT, []);
    var t := Step(s, OpenAsync);
    StepKeepsInv(s, OpenAsync);
    DestroyLeavesMediaIff(t);
    var rest :| IsRun(Step(t, Destroy), rest)
      && Exec(Step(t, Destroy), rest).client == Gone && Exec(Step(t, Destroy), rest).media;
    Prepend(t, Destroy, rest);
    Prepend(s, OpenAsync, [Destroy] + rest);
  }
}
