/** The asynchronous commands of avos_mp.c: one client thread leaves commands in a single slot, where a
    newer one overwrites an older one, and one worker thread takes and executes them. */
module Mailbox {

  datatype CmdId = WAIT | OPEN | SEEK | EXIT

  datatype Cmd = Cmd(id: CmdId, arg: int)

  const NO_CMD := Cmd(WAIT, 0)

  // The critical section at the top of async_thread's loop, by the pending command it finds.

  predicate MustIdle(next: Cmd) {
    next.id == WAIT
  }

  function Current(next: Cmd): Cmd {
    if MustIdle(next) then NO_CMD else next
  }

  function Left(next: Cmd): Cmd {
    if MustIdle(next) then next else NO_CMD
  }

  /** Whether async_cmd_wait has something to wait for. */
  predicate MustWait(cur: Cmd) {
    cur.id != EXIT && cur.id != WAIT
  }

  // The protocol.

  datatype Worker =
    | AtTop                  // about to lock
    | Parked(asleep: bool)   // in pthread_cond_wait
    | Taken                  // unlocked with a command in cur
    | Opening                // inside avos_mp_open_common
    | Seeking                // inside the media's seek
    | Exited

  /** What the client does once async_cmd_wait has returned. */
  datatype After = UseMedia | CloseMedia(destroy: bool)

  datatype Client =
    | Idle
    | EnterWait(after: After)
    | WaitingFor(after: After, asleep: bool)
    | Using                        // start, pause or seek, on the client's own thread
    | Aborting(destroy: bool)      // avos_mp_close after its first check of media
    | Destroying(destroy: bool)    // avos_mp_close after its second check: closing and freeing the media
    | Exiting                      // avos_mp_destroy about to add EXIT
    | Joining
    | Gone

  /** What the worker did, in order. */
  datatype Event = Took(cmd: Cmd) | SeekComplete(pending: bool) | WentIdle

  datatype State = State(
    cur: Cmd, next: Cmd, worker: Worker, client: Client, media: bool,
    requested: seq<int>,   // arguments of avos_mp_seek_async, in order
    executed: seq<int>,    // arguments of the seeks the worker took
    origins: seq<nat>,     // for each of them, which request it was
    lastAdd: CmdId,        // the command most recently added
    log: seq<Event>)

  datatype Action =
    | SeekAsync(msec: int)
    | OpenAsync
    | Use
    | Close
    | Destroy
    | ClientStep
    | WorkerStep(ok: bool)   // ok: whether an open that runs now creates a media
    | ClientSpurious
    | WorkerSpurious

  predicate Init(s: State) {
    s == State(NO_CMD, NO_CMD, AtTop, Idle, false, [], [], [], WAIT, [])
  }

  predicate Enabled(s: State, a: Action) {
    match a
    case SeekAsync(_) => s.client == Idle
    case OpenAsync => s.client == Idle
    case Use => s.client == Idle
    case Close => s.client == Idle
    case Destroy => s.client == Idle
    case ClientStep =>
      && s.client != Idle && s.client != Gone
      && (s.client.WaitingFor? ==> !s.client.asleep)
      && (s.client == Joining ==> s.worker == Exited)
    case WorkerStep(_) => s.worker != Parked(true) && s.worker != Exited
    case ClientSpurious => s.client.WaitingFor? && s.client.asleep
    case WorkerSpurious => s.worker == Parked(true)
  }

  function WakeWorker(w: Worker): Worker {
    if w.Parked? then Parked(false) else w
  }

  function WakeClient(c: Client): Client {
    if c.WaitingFor? then c.(asleep := false) else c
  }

  function Added(s: State, cmd: Cmd): State {
    s.(next := cmd, lastAdd := cmd.id, worker := WakeWorker(s.worker))
  }

  function Begin(s: State, destroy: bool): State {
    s.(client := if s.media then Aborting(destroy) else if destroy then Exiting else Idle)
  }

  function Returned(s: State, after: After): State {
    match after
    case UseMedia => s.(client := Using)
    case CloseMedia(destroy) =>
      s.(client := if s.media then Destroying(destroy) else if destroy then Exiting else Idle)
  }

  function StepClient(s: State): State {
    match s.client
    case Idle => s
    case EnterWait(after) =>
      if MustWait(s.cur) then s.(client := WaitingFor(after, true)) else Returned(s, after)
    case WaitingFor(after, _) =>
      if s.cur.id != WAIT then s.(client := WaitingFor(after, true)) else Returned(s, after)
    case Using => s.(client := Idle)
    case Aborting(destroy) => Added(s, NO_CMD).(client := EnterWait(CloseMedia(destroy)))
    case Destroying(destroy) => s.(media := false, client := if destroy then Exiting else Idle)
    case Exiting => Added(s, Cmd(EXIT, 0)).(client := Joining)
    case Joining => s.(client := Gone)
    case Gone => s
  }

  function Take(s: State): State {
    s.(cur := Current(s.next), next := Left(s.next), worker := Taken,
       log := s.log + [Took(s.next)],
       executed := if s.next.id == SEEK then s.executed + [s.next.arg] else s.executed,
       origins := if s.next.id == SEEK && s.requested != [] then s.origins + [|s.requested| - 1] else s.origins)
  }

  function Announce(s: State): State {
    if s.cur.id == SEEK then s.(log := s.log + [SeekComplete(s.next.id == SEEK)]) else s
  }

  function StepWorker(s: State, ok: bool): State {
    match s.worker
    case AtTop =>
      var t := Announce(s);
      if MustIdle(s.next) then
        t.(cur := Current(s.next), next := Left(s.next), worker := Parked(true), log := t.log + [WentIdle],
           client := WakeClient(s.client))
      else Take(t)
    case Parked(_) => if MustIdle(s.next) then s.(worker := Parked(true)) else Take(s)
    case Taken =>
      (match s.cur.id
       case WAIT => s.(worker := AtTop)
       case OPEN => s.(media := s.media || ok, worker := Opening)
       case SEEK => s.(worker := if s.media then Seeking else AtTop)
       case EXIT => s.(worker := Exited))
    case Opening => s.(worker := AtTop)
    case Seeking => s.(worker := AtTop)
    case Exited => s
  }

  function Step(s: State, a: Action): State {
    match a
    case SeekAsync(msec) => Added(s.(requested := s.requested + [msec]), Cmd(SEEK, msec))
    case OpenAsync => if s.media then s else Added(s, Cmd(OPEN, 0))
    case Use => s.(client := EnterWait(UseMedia))
    case Close => Begin(s, false)
    case Destroy => Begin(s, true)
    case ClientStep => StepClient(s)
    case WorkerStep(ok) => StepWorker(s, ok)
    case ClientSpurious => s.(client := WakeClient(s.client))
    case WorkerSpurious => s.(worker := Parked(false))
  }

  ghost predicate IsRun(s: State, actions: seq<Action>)
    decreases |actions|
  {
    actions != [] ==> Enabled(s, actions[0]) && IsRun(Step(s, actions[0]), actions[1..])
  }

  ghost function Exec(s: State, actions: seq<Action>): State
    decreases |actions|
  {
    if actions == [] then s else Exec(Step(s, actions[0]), actions[1..])
  }

  // What the theorems promise.

  /** The worker is, or is about to be, executing a command. */
  predicate Busy(s: State) {
    s.worker.Taken? || s.worker.Opening? || s.worker.Seeking?
  }

  predicate Quiet(s: State) {
    !Busy(s) && s.cur.id == WAIT && s.next.id == WAIT
  }

  /** While the media is closed and freed, no command runs on it and none is pending. */
  ghost predicate CloseSafe(s: State) {
    && (s.client.Destroying? ==> Quiet(s))
    && (s.client == Gone ==> s.worker == Exited)
  }

  ghost predicate SubsequenceBy(a: seq<int>, b: seq<int>, at: seq<nat>) {
    && |at| == |a|
    && (forall k :: 0 <= k < |a| ==> at[k] < |b| && a[k] == b[at[k]])
    && (forall j, k :: 0 <= j < k < |at| ==> at[j] < at[k])
  }

  ghost predicate Subsequence(a: seq<int>, b: seq<int>) {
    exists at :: SubsequenceBy(a, b, at)
  }

  function SeeksOf(log: seq<Event>): seq<int> {
    if log == [] then []
    else
      var e := log[|log| - 1];
      SeeksOf(log[..|log| - 1]) + (if e.Took? && e.cmd.id == SEEK then [e.cmd.arg] else [])
  }

  predicate TookSeek(e: Event) {
    e.Took? && e.cmd.id == SEEK
  }

  /** Event i of the log is in order: a seek is completed before anything else is taken; a completion
      follows its seek, and says that another seek is pending exactly when the very next thing the worker
      does is take one. */
  ghost predicate EventRight(log: seq<Event>, i: nat)
    requires i < |log|
  {
    && (TookSeek(log[i]) && i + 1 < |log| ==> log[i + 1].SeekComplete?)
    && (log[i].SeekComplete? ==>
          && i > 0 && TookSeek(log[i - 1])
          && i + 1 < |log| && (log[i].pending <==> TookSeek(log[i + 1])))
  }

  ghost predicate LogRight(log: seq<Event>) {
    forall i :: 0 <= i < |log| ==> EventRight(log, i)
  }

  ghost predicate SeeksRight(s: State) {
    && Subsequence(s.executed, s.requested)
    && s.executed == SeeksOf(s.log)
    && LogRight(s.log)
    // A worker at rest has executed the last seek requested, unless something else was added since.
    && (s.worker.Parked? && s.next.id == WAIT && s.lastAdd == SEEK ==>
          s.executed != [] && s.requested != []
          && s.executed[|s.executed| - 1] == s.requested[|s.requested| - 1])
    // A seek that runs goes where the request it was taken for asked.
    && (s.cur.id == SEEK ==>
          && s.executed != [] && s.cur.arg == s.executed[|s.executed| - 1]
          && s.log != [] && s.log[|s.log| - 1] == Took(s.cur))
  }

  /** A sleeping thread has something to wait for. */
  ghost predicate NoLostWakeUp(s: State) {
    && (s.client.WaitingFor? && s.client.asleep ==> s.cur.id != WAIT)
    && (s.worker == Parked(true) ==> s.next.id == WAIT)
  }

  ghost predicate Safe(s: State) {
    CloseSafe(s) && SeeksRight(s) && NoLostWakeUp(s)
  }

  // The inductive invariant.

  ghost predicate Slots(s: State) {
    && (s.worker == AtTop ==> s.cur.id != EXIT)
    && (s.worker.Parked? ==> s.cur.id == WAIT)
    && (s.worker == Taken ==> s.cur.id != WAIT)
    && (s.worker == Opening ==> s.cur.id == OPEN)
    && (s.worker == Seeking ==> s.cur.id == SEEK)
    && (s.worker == Exited ==> s.cur.id == EXIT)
    && (s.cur.id == EXIT || s.next.id == EXIT ==> s.client == Joining || s.client == Gone)
    && (s.cur.id == EXIT ==> s.next.id == WAIT)
    && (s.client == Gone ==> s.worker == Exited)
  }

  /** Is the client between the WAIT it added in avos_mp_close and the end of that call? */
  predicate InClose(c: Client) {
    match c
    case EnterWait(after) => after.CloseMedia?
    case WaitingFor(after, _) => after.CloseMedia?
    case Destroying(_) => true
    case _ => false
  }

  ghost predicate Closing(s: State) {
    && (InClose(s.client) ==> s.next.id == WAIT)
    && (s.client.Destroying? ==> s.cur.id == WAIT)
    && NoLostWakeUp(s)
  }

  ghost predicate Requests(s: State) {
    && SubsequenceBy(s.executed, s.requested, s.origins)
    && (s.next.id == SEEK ==>
          && s.requested != [] && s.next.arg == s.requested[|s.requested| - 1]
          && (s.origins != [] ==> s.origins[|s.origins| - 1] < |s.requested| - 1))
    && (s.lastAdd == SEEK ==>
          && s.requested != []
          && (s.next.id == SEEK || (s.origins != [] && s.origins[|s.origins| - 1] == |s.requested| - 1)))
  }

  /** What runs is what was taken last, argument and all. */
  ghost predicate CurrentIsLast(s: State) {
    if s.cur.id == WAIT then s.log == [] || s.log[|s.log| - 1] == WentIdle
    else s.log != [] && s.log[|s.log| - 1] == Took(s.cur)
  }

  ghost predicate Log(s: State) {
    && s.executed == SeeksOf(s.log)
    && LogRight(s.log)
    && CurrentIsLast(s)
  }

  ghost predicate Inv(s: State) {
    Slots(s) && Closing(s) && Requests(s) && Log(s)
  }

  /** mp->async, with the two threads that use it. Each method is one critical section and equals a step
      of the protocol: a section that ends at pthread_cond_wait reports that its thread now waits, and the
      section run when that thread wakes up is a method of its own. */
  class Async {
    var cur: Cmd
    var next: Cmd
    var media: bool  // whether mp->media exists
    ghost var worker: Worker
    ghost var client: Client
    ghost var requested: seq<int>
    ghost var executed: seq<int>
    ghost var origins: seq<nat>
    ghost var lastAdd: CmdId
    ghost var log: seq<Event>

    ghost function Abs(): State
      reads this
    {
      State(cur, next, worker, client, media, requested, executed, origins, lastAdd, log)
    }

    /** avos_mp_create */
    constructor ()
      ensures Init(Abs())
    {
      cur, next, media := NO_CMD, NO_CMD, false;
      worker, client := AtTop, Idle;
      requested, executed, origins, lastAdd, log := [], [], [], WAIT, [];
    }

    /** async_cmd_add: overwrites what is pending and wakes the worker. */
    method Add(id: CmdId, arg: int)
      modifies this`next, this`lastAdd, this`worker
      ensures Abs() == Added(old(Abs()), Cmd(id, arg))
      ensures next == Cmd(id, arg) && lastAdd == id && worker != Parked(true)
    {
      next := Cmd(id, arg);
      lastAdd := id;
      worker := WakeWorker(worker);
    }

    /** avos_mp_seek_async */
    method SeekAsync(msec: int)
      requires Enabled(Abs(), Action.SeekAsync(msec))
      modifies this`next, this`lastAdd, this`worker, this`requested
      ensures Abs() == Step(old(Abs()), Action.SeekAsync(msec))
      ensures next == Cmd(SEEK, msec) && requested == old(requested) + [msec] && worker != Parked(true)
    {
      requested := requested + [msec];
      Add(SEEK, msec);
    }

    /** avos_mp_open_async */
    method OpenAsync() returns (ok: bool)
      requires Enabled(Abs(), Action.OpenAsync)
      modifies this`next, this`lastAdd, this`worker
      ensures Abs() == Step(old(Abs()), Action.OpenAsync) && (ok <==> !media)
      ensures if ok then next == Cmd(OPEN, 0) && worker != Parked(true) else Abs() == old(Abs())
    {
      if media {
        return false;
      }
      Add(OPEN, 0);
      return true;
    }

    /** async_cmd_wait up to its first wait or its return. */
    method WaitBegin() returns (ret: int, waits: bool)
      requires client.EnterWait?
      modifies this`client
      ensures Abs() == Step(old(Abs()), ClientStep) && (waits <==> client.WaitingFor?)
      ensures waits <==> cur.id == OPEN || cur.id == SEEK
      ensures !waits ==> ret == if cur.id == EXIT then 1 else 0
    {
      ret := 0;
      waits := false;
      if cur.id == EXIT {
        ret := 1;
      } else if cur.id != WAIT {
        waits := true;
      }
      client := if waits then WaitingFor(client.after, true) else Returned(Abs(), client.after).client;
    }

    /** The wait loop of async_cmd_wait when the client wakes up. */
    method WaitAgain() returns (waits: bool)
      requires client.WaitingFor? && !client.asleep
      modifies this`client
      ensures Abs() == Step(old(Abs()), ClientStep) && (waits <==> client.WaitingFor?)
      ensures waits <==> cur.id != WAIT
    {
      waits := cur.id != WAIT;
      client := if waits then WaitingFor(client.after, true) else Returned(Abs(), client.after).client;
    }

    /** The critical section at the top of async_thread's loop, up to its wait or its end; the completion
        event, if one is sent, and what it says of another seek. */
    method Top() returns (seekComplete: bool, pending: bool, waits: bool)
      requires worker == AtTop
      modifies this
      ensures Abs() == Step(old(Abs()), WorkerStep(true)) && (waits <==> worker == Parked(true))
      ensures log == old(log) + (if seekComplete then [SeekComplete(pending)] else [])
        + [if waits then WentIdle else Took(cur)]
      ensures (seekComplete <==> old(cur).id == SEEK) && (pending <==> old(next).id == SEEK)
      ensures cur == old(next) || (waits && cur == NO_CMD)
      ensures (waits <==> old(next).id == WAIT) && next.id == WAIT && worker == if waits then Parked(true) else Taken
    {
      seekComplete := cur.id == SEEK;
      pending := next.id == SEEK;
      waits := false;
      if seekComplete {
        log := log + [SeekComplete(pending)];
      }
      if next.id == WAIT {
        cur := Cmd(WAIT, 0);
        waits := true;
        worker, client, log := Parked(true), WakeClient(client), log + [WentIdle];
        return;
      }
      TakeNext();
    }

    /** The same section when the worker wakes up inside it. */
    method TopAgain() returns (waits: bool)
      requires worker == Parked(false)
      modifies this
      ensures Abs() == Step(old(Abs()), WorkerStep(true)) && (waits <==> worker == Parked(true))
      ensures waits <==> old(next).id == WAIT
      ensures waits ==> cur == old(cur) && next == old(next) && log == old(log)
      ensures !waits ==> cur == old(next) && next == NO_CMD && log == old(log) + [Took(cur)] && worker == Taken
    {
      waits := next.id == WAIT;
      if waits {
        worker := Parked(true);
      } else {
        TakeNext();
      }
    }

    /** The end of the section: the pending command becomes the current one. */
    method TakeNext()
      requires !MustIdle(next)
      modifies this
      ensures Abs() == Take(old(Abs()))
    {
      log := log + [Took(next)];
      if next.id == SEEK {
        executed := executed + [next.arg];
        origins := if requested != [] then origins + [|requested| - 1] else origins;
      }
      worker := Taken;
      cur := next;
      next := Cmd(WAIT, 0);
    }

    /** avos_mp_isplaying asks this; the answer changes nothing. */
    method IsRunning() returns (ret: int)
      ensures Slots(Abs()) && Busy(Abs()) ==> ret == 1
      ensures Slots(Abs()) && ret == 0 && MustIdle(next) ==> Quiet(Abs())
    {
      ret := if cur.id != WAIT then 1 else 0;
    }
  }

  lemma InvImpliesSafe(s: State)
    requires Inv(s)
    ensures Safe(s)
  {
  }

  /** All events but the last, which may still wait for its follower, are in order. */
  ghost predicate LogOpen(log: seq<Event>) {
    forall i :: 0 <= i < |log| - 1 ==> EventRight(log, i)
  }

  /** The event that the end of the log calls for. */
  ghost predicate Follows(log: seq<Event>, e: Event) {
    && (log != [] ==>
          var last := log[|log| - 1];
          && (TookSeek(last) ==> e.SeekComplete?)
          && (last.SeekComplete? ==> |log| > 1 && TookSeek(log[|log| - 2]) && (last.pending <==> TookSeek(e))))
    && (e.SeekComplete? ==> log != [] && TookSeek(log[|log| - 1]))
  }

  lemma LogAppend(log: seq<Event>, e: Event)
    requires LogOpen(log) && Follows(log, e)
    ensures LogOpen(log + [e]) && (!e.SeekComplete? ==> LogRight(log + [e]))
  {
    forall i | 0 <= i < |log|
      ensures EventRight(log + [e], i)
    {
      if i < |log| - 1 {
        assert EventRight(log, i);
      }
    }
  }

  lemma SeeksOfAppend(log: seq<Event>, e: Event)
    ensures SeeksOf(log + [e]) == SeeksOf(log) + (if TookSeek(e) then [e.cmd.arg] else [])
  {
    assert (log + [e])[..|log|] == log;
  }

  lemma LastIsNoCompletion(log: seq<Event>)
    requires LogRight(log)
    ensures log != [] ==> !log[|log| - 1].SeekComplete?
  {
    if log != [] {
      assert EventRight(log, |log| - 1);
    }
  }

  lemma CompletionLog(log: seq<Event>, c: Event, e: Event)
    requires LogRight(log) && log != [] && TookSeek(log[|log| - 1]) && !e.SeekComplete?
    requires c == SeekComplete(TookSeek(e))
    ensures LogRight(log + [c] + [e])
  {
    LogAppend(log, c);
    assert (log + [c])[|log + [c]| - 2] == log[|log| - 1];
    LogAppend(log + [c], e);
  }

  lemma AnnounceLog(s: State, e: Event)
    requires Log(s) && !e.SeekComplete?
    requires TookSeek(e) <==> s.next.id == SEEK
    ensures LogRight(Announce(s).log + [e])
    ensures SeeksOf(Announce(s).log + [e]) == SeeksOf(s.log) + (if TookSeek(e) then [e.cmd.arg] else [])
  {
    SeeksOfAppend(Announce(s).log, e);
    if s.cur.id == SEEK {
      SeeksOfAppend(s.log, SeekComplete(s.next.id == SEEK));
      CompletionLog(s.log, SeekComplete(s.next.id == SEEK), e);
    } else {
      LastIsNoCompletion(s.log);
      LogAppend(s.log, e);
    }
  }

  /** What a step that takes a command, or goes idle, adds to the log. */
  lemma TopLog(s: State, s': State, e: Event)
    requires Log(s) && !e.SeekComplete? && (TookSeek(e) <==> s.next.id == SEEK)
    requires s'.log == Announce(s).log + [e] && e == (if s'.cur.id == WAIT then WentIdle else Took(s'.cur))
    requires s'.executed == s.executed + (if TookSeek(e) then [e.cmd.arg] else [])
    ensures Log(s')
  {
    AnnounceLog(s, e);
    assert s'.log[|s'.log| - 1] == e;
  }

  predicate AtSection(s: State) {
    s.worker == AtTop || (s.worker.Parked? && !MustIdle(s.next))
  }

  lemma SectionLog(s: State, ok: bool)
    requires Slots(s) && AtSection(s)
    ensures var s', e := StepWorker(s, ok), if MustIdle(s.next) then WentIdle else Took(s.next);
      && s'.log == Announce(s).log + [e] && e == (if s'.cur.id == WAIT then WentIdle else Took(s'.cur))
      && s'.executed == s.executed + (if TookSeek(e) then [e.cmd.arg] else [])
  {
  }

  lemma OtherStepsKeepLog(s: State, ok: bool)
    requires Log(s) && Enabled(s, WorkerStep(ok)) && !AtSection(s)
    ensures Log(StepWorker(s, ok))
  {
    var s' := StepWorker(s, ok);
    assert s'.log == s.log && s'.cur == s.cur && s'.executed == s.executed;
  }

  lemma WorkerKeepsLog(s: State, ok: bool)
    requires Slots(s) && Log(s) && Enabled(s, WorkerStep(ok))
    ensures Log(StepWorker(s, ok))
  {
    if AtSection(s) {
      SectionLog(s, ok);
      TopLog(s, StepWorker(s, ok), if MustIdle(s.next) then WentIdle else Took(s.next));
    } else {
      OtherStepsKeepLog(s, ok);
    }
  }

  /** Requests speaks only of the seeks and of the slot. */
  predicate SameRequests(s: State, s': State) {
    && s'.requested == s.requested && s'.executed == s.executed && s'.origins == s.origins
    && ((s'.next == s.next && s'.lastAdd == s.lastAdd) || (s'.next.id != SEEK && s'.lastAdd != SEEK))
  }

  lemma SameKeepsRequests(s: State, s': State)
    requires Requests(s) && SameRequests(s, s')
    ensures Requests(s')
  {
  }

  lemma SubsequenceAppend(a: seq<int>, b: seq<int>, at: seq<nat>, k: nat)
    requires SubsequenceBy(a, b, at) && k < |b| && (at != [] ==> at[|at| - 1] < k)
    ensures SubsequenceBy(a + [b[k]], b, at + [k])
  {
  }

  lemma TakeKeepsRequests(s: State)
    requires Requests(s) && s.next.id != WAIT
    ensures Requests(Take(s))
  {
    if s.next.id == SEEK {
      SubsequenceAppend(s.executed, s.requested, s.origins, |s.requested| - 1);
      assert Take(s).executed == s.executed + [s.requested[|s.requested| - 1]];
      assert Take(s).origins == s.origins + [|s.requested| - 1];
    } else {
      assert Take(s).executed == s.executed && Take(s).origins == s.origins;
    }
  }

  lemma SeekAsyncKeepsRequests(s: State, msec: int)
    requires Requests(s)
    ensures Requests(Step(s, SeekAsync(msec)))
  {
  }

  predicate Takes(s: State) {
    (s.worker == AtTop || s.worker.Parked?) && !MustIdle(s.next)
  }

  lemma OtherStepsKeepRequests(s: State, ok: bool)
    requires Requests(s) && Enabled(s, WorkerStep(ok)) && !Takes(s)
    ensures Requests(StepWorker(s, ok))
  {
    SameKeepsRequests(s, StepWorker(s, ok));
  }

  lemma TakingStep(s: State, ok: bool)
    requires Takes(s)
    ensures StepWorker(s, ok) == Take(if s.worker == AtTop then Announce(s) else s)
    ensures SameRequests(s, Announce(s)) && SameRequests(s, s)
  {
  }

  lemma WorkerKeepsRequests(s: State, ok: bool)
    requires Requests(s) && Enabled(s, WorkerStep(ok))
    ensures Requests(StepWorker(s, ok))
  {
    if Takes(s) {
      var t := if s.worker == AtTop then Announce(s) else s;
      TakingStep(s, ok);
      SameKeepsRequests(s, t);
      TakeKeepsRequests(t);
    } else {
      OtherStepsKeepRequests(s, ok);
    }
  }

  lemma ClientSameRequests(s: State, a: Action)
    requires Enabled(s, a) && !a.WorkerStep? && !a.SeekAsync?
    ensures SameRequests(s, Step(s, a))
  {
  }

  lemma ClientKeepsRequests(s: State, a: Action)
    requires Requests(s) && Enabled(s, a) && !a.WorkerStep?
    ensures Requests(Step(s, a))
  {
    if a.SeekAsync? {
      SeekAsyncKeepsRequests(s, a.msec);
    } else {
      ClientSameRequests(s, a);
      SameKeepsRequests(s, Step(s, a));
    }
  }

  lemma ClientKeepsLog(s: State, a: Action)
    requires Log(s) && Enabled(s, a) && !a.WorkerStep?
    ensures Log(Step(s, a))
  {
    var s' := Step(s, a);
    assert s'.log == s.log && s'.cur == s.cur && s'.executed == s.executed;
  }

  lemma WorkerKeepsSlots(s: State, ok: bool)
    requires Inv(s) && Enabled(s, WorkerStep(ok))
    ensures Slots(StepWorker(s, ok)) && Closing(StepWorker(s, ok))
  {
  }

  lemma ClientKeepsSlots(s: State, a: Action)
    requires Slots(s) && Closing(s) && Enabled(s, a) && !a.WorkerStep?
    ensures Slots(Step(s, a))
  {
  }

  lemma ClientKeepsClosing(s: State, a: Action)
    requires Slots(s) && Closing(s) && Enabled(s, a) && !a.WorkerStep?
    ensures Closing(Step(s, a))
  {
  }

  lemma StepKeepsInv(s: State, a: Action)
    requires Inv(s) && Enabled(s, a)
    ensures Inv(Step(s, a))
  {
    if a.WorkerStep? {
      WorkerKeepsSlots(s, a.ok);
      WorkerKeepsRequests(s, a.ok);
      WorkerKeepsLog(s, a.ok);
    } else {
      ClientKeepsSlots(s, a);
      ClientKeepsClosing(s, a);
      ClientKeepsRequests(s, a);
      ClientKeepsLog(s, a);
    }
  }

  lemma {:induction false} RunKeepsInv(s: State, actions: seq<Action>)
    requires Inv(s) && IsRun(s, actions)
    ensures Inv(Exec(s, actions))
    decreases |actions|
  {
    if actions != [] {
      StepKeepsInv(s, actions[0]);
      RunKeepsInv(Step(s, actions[0]), actions[1..]);
    }
  }

  /** Every state of every interleaving is safe. */
  lemma SafeOverRuns(s: State, actions: seq<Action>)
    requires Init(s) && IsRun(s, actions)
    ensures Safe(Exec(s, actions))
  {
    RunKeepsInv(s, actions);
    InvImpliesSafe(Exec(s, actions));
  }

  /** The client adds no command: neither a seek nor an open, nor the WAIT or EXIT of a close. */
  predicate AddsNothing(s: State, a: Action) {
    && !a.SeekAsync? && !a.OpenAsync?
    && (a == ClientStep ==> !s.client.Aborting? && !s.client.Exiting?)
  }

  ghost predicate NoAdds(s: State, actions: seq<Action>)
    decreases |actions|
  {
    actions != [] ==> AddsNothing(s, actions[0]) && NoAdds(Step(s, actions[0]), actions[1..])
  }

  lemma QuietStep(s: State, a: Action)
    requires Quiet(s) && Enabled(s, a) && AddsNothing(s, a)
    ensures Quiet(Step(s, a))
  {
  }

  lemma {:induction false} QuietStays(s: State, actions: seq<Action>)
    requires Quiet(s) && IsRun(s, actions) && NoAdds(s, actions)
    ensures Quiet(Exec(s, actions))
    decreases |actions|
  {
    if actions != [] {
      QuietStep(s, actions[0]);
      QuietStays(Step(s, actions[0]), actions[1..]);
    }
  }

  lemma OneStep(s: State, a: Action)
    requires Enabled(s, a) && a.WorkerStep?
    ensures IsRun(s, [a]) && NoAdds(s, [a]) && Exec(s, [a]) == Step(s, a)
  {
  }

  lemma PendingIsTaken(s: State)
    requires Inv(s) && s.cur.id == WAIT && s.next.id != WAIT
    ensures Enabled(s, WorkerStep(true)) && Busy(Step(s, WorkerStep(true)))
  {
  }

  /** What async_cmd_wait is good for. Once it has seen cur at WAIT, the worker stays quiet until the next
      command is added exactly when none was pending at that moment. avos_mp_close has just overwritten
      the slot, so it may rely on this; avos_mp_start, avos_mp_pause and avos_mp_seek have not. */
  lemma WaitQuietsIff(s: State)
    requires Inv(s) && s.cur.id == WAIT
    ensures s.next.id == WAIT <==>
      (forall actions :: IsRun(s, actions) && NoAdds(s, actions) ==> !Busy(Exec(s, actions)))
  {
    if s.next.id == WAIT {
      forall actions | IsRun(s, actions) && NoAdds(s, actions)
        ensures !Busy(Exec(s, actions))
      {
        QuietStays(s, actions);
      }
    } else {
      PendingIsTaken(s);
      OneStep(s, WorkerStep(true));
    }
  }

  ghost predicate Reached(s: State, actions: seq<Action>, t: State) {
    IsRun(s, actions) && Exec(s, actions) == t
  }

  lemma Start(s: State) returns (actions: seq<Action>)
    ensures Reached(s, actions, s)
  {
    actions := [];
  }

  lemma {:induction false} Extend(s: State, actions: seq<Action>, t: State, a: Action)
      returns (actions': seq<Action>, t': State)
    requires Reached(s, actions, t) && Enabled(t, a)
    ensures t' == Step(t, a) && actions' == actions + [a] && Reached(s, actions', t')
    decreases |actions|
  {
    actions', t' := actions + [a], Step(t, a);
    if actions != [] {
      var _, _ := Extend(Step(s, actions[0]), actions[1..], t, a);
      assert actions'[1..] == actions[1..] + [a];
    }
  }

  /** It does happen: a client that seeks asynchronously and then starts, pauses or seeks uses the media
      while the worker is seeking in it. */
  lemma UseOverlapsSeek()
    ensures exists s: State, actions: seq<Action> ::
      Init(s) && IsRun(s, actions) && Exec(s, actions).client == Using && Exec(s, actions).worker == Seeking
  {
    var s := State(NO_CMD, NO_CMD, AtTop, Idle, false, [], [], [], WAIT, []);
    var run := Start(s);
    var t;
    run, t := Extend(s, run, s, OpenAsync);
    run, t := Extend(s, run, t, WorkerStep(true));
    run, t := Extend(s, run, t, WorkerStep(true));
    run, t := Extend(s, run, t, WorkerStep(true));
    run, t := Extend(s, run, t, WorkerStep(true));
    assert t.worker == Parked(true) && t.media && t.client == Idle && t.cur == NO_CMD;
    run, t := Extend(s, run, t, SeekAsync(5));
    run, t := Extend(s, run, t, Use);
    run, t := Extend(s, run, t, ClientStep);
    assert t.client == Using && t.worker == Parked(false) && t.next == Cmd(SEEK, 5) && t.media;
    run, t := Extend(s, run, t, WorkerStep(true));
    run, t := Extend(s, run, t, WorkerStep(true));
  }
}
