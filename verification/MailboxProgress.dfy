/** What runs of the mailbox get done: a pending command is taken and executed as what it is, and a close that
    found a media ends, with the media gone. */
module MailboxProgress {
  import opened Mailbox

  lemma ExecPrefix(s: State, actions: seq<Action>, n: nat)
    requires 0 < n <= |actions|
    ensures Exec(s, actions[..n]) == Exec(Step(s, actions[0]), actions[1..][..n - 1])
  {
    assert actions[..n][1..] == actions[1..][..n - 1];
  }

  // Commands.

  /** Where the media comes from and where it goes. */
  lemma MediaChanges(s: State, a: Action)
    requires Enabled(s, a)
    ensures Step(s, a).media ==
      if a.WorkerStep? && s.worker == Taken && s.cur.id == OPEN then s.media || a.ok
      else if a == ClientStep && s.client.Destroying? then false
      else s.media
  {
  }

  /** The worker is executing cmd as the kind of command it is. */
  predicate Executes(s: State, cmd: Cmd) {
    s.cur == cmd && match cmd.id
      case WAIT => false
      case OPEN => s.worker == Opening
      case SEEK => s.worker == Seeking
      case EXIT => s.worker == Exited
  }

  /** cmd is pending, or the worker has just taken it, and a seek has its media. */
  predicate Due(s: State, cmd: Cmd) {
    && cmd.id != WAIT
    && (cmd.id == SEEK ==> s.media && !InClose(s.client))
    && (s.next == cmd || (s.worker == Taken && s.cur == cmd))
  }

  /** Worker steps left at most until it is executed. */
  function DueRank(s: State, cmd: Cmd): nat {
    if s.worker == Taken && s.cur == cmd && s.next != cmd then 1
    else match s.worker
      case AtTop => 2
      case Parked(_) => 2
      case Taken => 4
      case Opening => 3
      case Seeking => 3
      case Exited => 0
  }

  lemma DueStep(s: State, a: Action, cmd: Cmd)
    requires Inv(s) && Due(s, cmd) && Enabled(s, a) && AddsNothing(s, a)
    ensures Enabled(s, WorkerStep(true)) && DueRank(s, cmd) > 0
    ensures Executes(Step(s, a), cmd) ||
      (Due(Step(s, a), cmd) && DueRank(Step(s, a), cmd) <= DueRank(s, cmd) - if a.WorkerStep? then 1 else 0)
  {
  }

  function WorkerSteps(actions: seq<Action>): nat {
    if actions == [] then 0 else (if actions[0].WorkerStep? then 1 else 0) + WorkerSteps(actions[1..])
  }

  /** A pending command, or one just taken, is executed, with the argument it was left with, after at most
      four worker steps among whatever else happens, unless the client overwrites it. */
  lemma {:induction false} DueExecutes(s: State, actions: seq<Action>, cmd: Cmd) returns (n: nat)
    requires Inv(s) && Due(s, cmd) && IsRun(s, actions) && NoAdds(s, actions)
    requires WorkerSteps(actions) >= DueRank(s, cmd)
    ensures n <= |actions| && Executes(Exec(s, actions[..n]), cmd)
    decreases |actions|
  {
    DueStep(s, WorkerStep(true), cmd);
    var a, s' := actions[0], Step(s, actions[0]);
    DueStep(s, a, cmd);
    StepKeepsInv(s, a);
    if Executes(s', cmd) {
      n := 1;
      ExecPrefix(s, actions, 1);
    } else {
      var m := DueExecutes(s', actions[1..], cmd);
      n := m + 1;
      ExecPrefix(s, actions, n);
    }
  }

  /** What the client asks for is due from then on. */
  lemma AskedIsDue(s: State, a: Action)
    requires Inv(s) && Enabled(s, a)
    ensures a.SeekAsync? && s.media ==> Due(Step(s, a), Cmd(SEEK, a.msec))
    ensures a.OpenAsync? && !s.media ==> Due(Step(s, a), Cmd(OPEN, 0))
    ensures a == ClientStep && s.client == Exiting ==> Due(Step(s, a), Cmd(EXIT, 0))
  {
  }

  // avos_mp_close, and avos_mp_destroy as far as it closes.

  /** The client is in a close that found a media. */
  predicate InCall(c: Client) {
    c.Aborting? || InClose(c)
  }

  /** An open is pending, or taken and about to run. */
  predicate OpenDue(s: State) {
    s.next.id == OPEN || (s.worker == Taken && s.cur.id == OPEN)
  }

  /** No media is there and none will be made. */
  predicate NoMedia(s: State) {
    !s.media && !OpenDue(s)
  }

  predicate CloseOrNoMedia(s: State) {
    InCall(s.client) || NoMedia(s)
  }

  lemma ClosingStep(s: State, a: Action)
    requires Inv(s) && CloseOrNoMedia(s) && Enabled(s, a) && a != OpenAsync
    ensures CloseOrNoMedia(Step(s, a))
  {
  }

  lemma {:induction false} ClosingRun(s: State, actions: seq<Action>)
    requires Inv(s) && CloseOrNoMedia(s) && IsRun(s, actions) && OpenAsync !in actions
    ensures CloseOrNoMedia(Exec(s, actions))
    decreases |actions|
  {
    if actions != [] {
      ClosingStep(s, actions[0]);
      StepKeepsInv(s, actions[0]);
      ClosingRun(Step(s, actions[0]), actions[1..]);
    }
  }

  /** A close, or a destroy, that finds a media: as long as no open is asked for, it is either still in
      progress or the media is gone. */
  lemma CloseCloses(s: State, a: Action, actions: seq<Action>)
    requires Inv(s) && s.media && Enabled(s, a) && (a == Close || a == Destroy)
    requires IsRun(Step(s, a), actions) && OpenAsync !in actions
    ensures var t := Exec(Step(s, a), actions); InCall(t.client) || !t.media
  {
    StepKeepsInv(s, a);
    ClosingRun(Step(s, a), actions);
  }

  // Every wait ends.

  /** The client is in such a close, or in the wait of another call. */
  predicate InWait(c: Client) {
    InCall(c) || c.EnterWait? || c.WaitingFor?
  }

  /** Worker steps left at most until cur is WAIT with nothing pending. */
  function BusyRank(s: State): nat {
    (if s.next.id == WAIT then 0 else 4) +
    if s.cur.id == WAIT then 0
    else match s.worker
      case Taken => 3
      case Opening => 2
      case Seeking => 2
      case AtTop => 1
      case _ => 0
  }

  /** Steps left at most until the close, or the wait, is over. */
  function WaitRank(s: State): nat {
    match s.client
    case Aborting(_) => 7
    case EnterWait(_) => BusyRank(s) + 3
    case WaitingFor(_, _) => BusyRank(s) + 2
    case Destroying(_) => 1
    case _ => 0
  }

  /** The step that brings it further: the worker's while it is executing, else the client's. */
  predicate Helps(s: State, a: Action) {
    if (s.client.EnterWait? || s.client.WaitingFor?) && s.cur.id != WAIT then a.WorkerStep?
    else InWait(s.client) && a == ClientStep
  }

  /** Such a step is always possible, */
  lemma HelpPossible(s: State)
    requires Inv(s) && InWait(s.client)
    ensures 0 < WaitRank(s) <= 10
    ensures if Helps(s, ClientStep) then Enabled(s, ClientStep)
            else Helps(s, WorkerStep(true)) && Enabled(s, WorkerStep(true))
  {
  }

  /** no other one sets it back, */
  lemma WaitStep(s: State, a: Action)
    requires Inv(s) && InWait(s.client) && Enabled(s, a)
    ensures WaitRank(Step(s, a)) <= WaitRank(s) - if Helps(s, a) then 1 else 0
  {
  }

  /** and it does not become the other thread's turn without progress. */
  lemma TurnStays(s: State, a: Action)
    requires Inv(s) && InWait(s.client) && Enabled(s, a) && WaitRank(Step(s, a)) == WaitRank(s)
    ensures Helps(Step(s, a), ClientStep) <==> Helps(s, ClientStep)
  {
  }

  ghost function HelpfulSteps(s: State, actions: seq<Action>): nat
    decreases |actions|
  {
    if actions == [] then 0
    else (if Helps(s, actions[0]) then 1 else 0) + HelpfulSteps(Step(s, actions[0]), actions[1..])
  }

  /** A close, and every other wait of the client, ends: at most ten such steps among any others. */
  lemma {:induction false} WaitEnds(s: State, actions: seq<Action>) returns (n: nat)
    requires Inv(s) && IsRun(s, actions) && HelpfulSteps(s, actions) >= WaitRank(s)
    ensures n <= |actions| && !InWait(Exec(s, actions[..n]).client)
    decreases |actions|
  {
    if InWait(s.client) {
      HelpPossible(s);
      WaitStep(s, actions[0]);
      StepKeepsInv(s, actions[0]);
      var m := WaitEnds(Step(s, actions[0]), actions[1..]);
      n := m + 1;
      ExecPrefix(s, actions, n);
    } else {
      n := 0;
    }
  }

  /** A destroy in progress. */
  predicate Destroys(c: Client) {
    match c
    case EnterWait(after) => after == CloseMedia(true)
    case WaitingFor(after, _) => after == CloseMedia(true)
    case Aborting(destroy) => destroy
    case Destroying(destroy) => destroy
    case Exiting => true
    case Joining => true
    case _ => false
  }

  /** A start, a pause or a seek waits first. */
  lemma UseWaits(s: State)
    requires Enabled(s, Use)
    ensures InWait(Step(s, Use).client) && !InCall(Step(s, Use).client)
  {
  }

  /** Where a wait and a close lead: to the use of the media the wait was for, or past a close. */
  lemma WaitLeads(s: State, a: Action)
    requires Inv(s) && Enabled(s, a) && InWait(s.client) && !InWait(Step(s, a).client)
    ensures InCall(s.client) ==> Step(s, a).client == (if Destroys(s.client) then Exiting else Idle) && !Step(s, a).media
    ensures !InCall(s.client) ==> Step(s, a).client == Using
  {
  }
}
