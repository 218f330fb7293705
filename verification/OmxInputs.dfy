/** The input port: its buffers go from free to the component and back, and a free buffer always means
    that the component takes one more. */
module OmxInputs {
  import opened Memory
  import opened OmxPorts

  lemma {:induction false} AtMostAll(states: seq<BufferState>, b: BufferState)
    ensures |IndicesOf(states, b)| <= |states|
    decreases |states|
  {
    if states != [] {
      var n := |states| - 1;
      AtMostAll(states[..n], b);
      assert IndicesOf(states, b) == IndicesOf(states[..n], b) + (if states[n] == b then {n} else {});
    }
  }

  lemma FewerThanAll(states: seq<BufferState>, b: BufferState, i: nat)
    requires i < |states| && states[i] != b
    ensures |IndicesOf(states, b)| < |states|
  {
    SetState(states, i, b, b);
    AtMostAll(states[i := b], b);
  }

  /** An input port never has more buffers than the component takes; it uses neither the FIFO nor the
      states of finished outputs. */
  ghost predicate InputAgrees(p: Port) {
    && HeldAgrees(p) && |p.states| <= p.max && p.fifo == []
    && forall i :: 0 <= i < |p.states| ==> p.states[i] in {INIT, READY, OMX}
  }

  /** On an input port a free buffer means that the component is below its cap. */
  lemma FreeMeansRoom(p: Port, i: nat)
    requires InputAgrees(p) && i < |p.states| && p.states[i] != OMX
    ensures p.nbOmx < p.max
  {
    FewerThanAll(p.states, OMX, i);
  }

  lemma SendKeepsInput(p: Port, i: nat)
    requires InputAgrees(p) && i < |p.states| && p.states[i] != OMX
    ensures InputAgrees(Send(p, i)) && i in Send(p, i).held
  {
    FreeMeansRoom(p, i);
    SendKeepsHeld(p, i);
  }

  lemma EmptyDoneKeepsInput(p: Port, i: nat)
    requires InputAgrees(p) && i in p.held
    ensures InputAgrees(EmptyDone(p, i))
  {
  }

  /** Reconfiguring an input port keeps it one, with at least as large a cap. */
  lemma ReconfigureKeepsInput(p: Port, count: int)
    requires InputAgrees(p) && p.nbOmx == 0
    ensures InputAgrees(Resend(Drain(p).(max := NewMax(p.max, count)), 0))
  {
    ResendFrame(Drain(p).(max := NewMax(p.max, count)), 0);
  }

  // Whole runs of an input port.

  datatype InAction =
    | Accept(i: nat)           // video_dec_in fills a free buffer and sends it
    | Emptied(i: nat)          // the component returns any buffer it holds
    | Reconfigure(count: int)  // with every buffer back

  /** omx_comp_open: all buffers new and the cap their number. */
  predicate InitIn(p: Port, n: nat) {
    p == Port(seq(n, _ => INIT), 0, n, [], {}, {}, [], [])
  }

  predicate Enabled(p: Port, a: InAction) {
    match a
    case Accept(i) => i < |p.states| && p.states[i] in {INIT, READY}
    case Emptied(i) => i in p.held
    case Reconfigure(_) => p.nbOmx == 0
  }

  function Step(p: Port, a: InAction): Port {
    match a
    case Accept(i) => if p.Has(i) then Send(p, i) else p
    case Emptied(i) => if p.Has(i) then EmptyDone(p, i) else p
    case Reconfigure(count) => Resend(Drain(p).(max := NewMax(p.max, count)), 0)
  }

  ghost predicate IsRun(p: Port, actions: seq<InAction>)
    decreases |actions|
  {
    actions != [] ==> Enabled(p, actions[0]) && IsRun(Step(p, actions[0]), actions[1..])
  }

  ghost function Exec(p: Port, actions: seq<InAction>): Port
    decreases |actions|
  {
    if actions == [] then p else Exec(Step(p, actions[0]), actions[1..])
  }

  lemma StepKeepsInput(p: Port, a: InAction)
    requires InputAgrees(p) && Enabled(p, a)
    ensures InputAgrees(Step(p, a)) && Step(p, a).max >= p.max && |Step(p, a).states| == |p.states|
  {
    match a
    case Accept(i) => SendKeepsInput(p, i);
    case Emptied(i) => EmptyDoneKeepsInput(p, i);
    case Reconfigure(count) =>
      ReconfigureKeepsInput(p, count);
      ResendFrame(Drain(p).(max := NewMax(p.max, count)), 0);
  }

  lemma {:induction false} RunKeepsInput(p: Port, actions: seq<InAction>)
    requires InputAgrees(p) && IsRun(p, actions)
    ensures InputAgrees(Exec(p, actions)) && Exec(p, actions).max >= p.max
    ensures |Exec(p, actions).states| == |p.states|
    decreases |actions|
  {
    if actions != [] {
      StepKeepsInput(p, actions[0]);
      RunKeepsInput(Step(p, actions[0]), actions[1..]);
    }
  }

  /** In every reachable state the counter is the number of buffers the component has, no buffer is
      anything but free or with the component, the cap has not fallen, and the cap is reached only when
      no buffer is free: whatever video_dec_in finds it can send. */
  lemma InputAgreesOverRuns(p: Port, n: nat, actions: seq<InAction>)
    requires InitIn(p, n) && IsRun(p, actions)
    ensures var q := Exec(p, actions);
      && InputAgrees(q) && |q.states| == n && q.max >= n
      && (q.nbOmx == q.max ==> forall i :: 0 <= i < n ==> q.states[i] == OMX)
  {
    assert IndicesOf(p.states, OMX) == {};
    RunKeepsInput(p, actions);
    var q := Exec(p, actions);
    forall i: nat | i < n && q.states[i] != OMX
      ensures q.nbOmx < q.max
    {
      FreeMeansRoom(q, i);
    }
  }

  /** The buffers that the component holds after a run that sends and returns them. */
  function HeldAfter(held: set<nat>, actions: seq<InAction>): set<nat>
    decreases |actions|
  {
    if actions == [] then held
    else
      HeldAfter(match actions[0]
          case Accept(i) => held + {i}
          case Emptied(i) => held - {i}
          case Reconfigure(_) => held,
        actions[1..])
  }

  lemma StepHolds(p: Port, a: InAction)
    requires InputAgrees(p) && Enabled(p, a)
    ensures Step(p, a).held == HeldAfter(p.held, [a])
  {
    match a
    case Accept(i) => FreeMeansRoom(p, i);
    case Emptied(i) =>
    case Reconfigure(count) =>
      var d := Drain(p).(max := NewMax(p.max, count));
      ResendFrame(d, 0);
      assert IndicesOf(Resend(d, 0).states, OMX) == IndicesOf(p.states, OMX);
  }

  /** Every buffer accepted reaches the component, and every buffer it returns is free again: after any run it
      holds those that were accepted and not returned since, which is what the counter counts. */
  lemma {:induction false} HeldOverRuns(p: Port, actions: seq<InAction>)
    requires InputAgrees(p) && IsRun(p, actions)
    ensures Exec(p, actions).held == HeldAfter(p.held, actions) == IndicesOf(Exec(p, actions).states, OMX)
    ensures Exec(p, actions).nbOmx == |HeldAfter(p.held, actions)|
    decreases |actions|
  {
    if actions != [] {
      StepHolds(p, actions[0]);
      StepKeepsInput(p, actions[0]);
      HeldOverRuns(Step(p, actions[0]), actions[1..]);
    }
  }

  /** A run of sends and nothing else. */
  ghost predicate IsSends(p: Port, sends: seq<InAction>, q: Port) {
    IsRun(p, sends) && Exec(p, sends) == q && forall a :: a in sends ==> a.Accept?
  }

  lemma {:induction false} SendsAppend(p: Port, sends: seq<InAction>, q: Port, i: nat)
    requires IsSends(p, sends, q) && Enabled(q, Accept(i))
    ensures IsSends(p, sends + [Accept(i)], Send(q, i))
    decreases |sends|
  {
    var more := sends + [Accept(i)];
    if sends == [] {
      assert more[1..] == [];
    } else {
      assert sends[0] in sends && forall a :: a in sends[1..] ==> a in sends;
      SendsAppend(Step(p, sends[0]), sends[1..], q, i);
      assert more[1..] == sends[1..] + [Accept(i)];
    }
  }
}
