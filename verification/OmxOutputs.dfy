/** What runs of an output port deliver: the finished buffers, in the order in which they were filled. */
module OmxOutputs {
  import opened Memory
  import opened OmxPorts

  /** Buffer i changes to state b and no other buffer changes. */
  predicate Moves(p: Port, q: Port, i: nat, b: BufferState) {
    && |q.states| == |p.states| && i < |p.states| && q.states[i] == b
    && forall j :: 0 <= j < |p.states| && j != i ==> q.states[j] == p.states[j]
  }

  /** Taking a finished buffer: the oldest one goes from the FIFO to the client. */
  lemma GetDoneMoves(p: Port)
    requires Sound(p) && p.fifo != []
    ensures var q, i := GetDone(p), p.fifo[0];
      && Moves(p, q, i, OUT) && q.fifo == p.fifo[1..] && q.gone == p.gone + [i] && q.filled == p.filled
      && i !in p.owned && q.owned == p.owned + {i} && q.held == p.held && q.nbOmx == p.nbOmx && q.max == p.max
  {
    GetDoneFinds(p);
  }

  /** A finished buffer goes from the component to the end of the FIFO. */
  lemma FillDoneMoves(p: Port, i: nat)
    requires Sound(p) && i in p.held
    ensures var q := FillDone(p, i);
      && Moves(p, q, i, OMX_DONE) && q.fifo == p.fifo + [i] && q.filled == p.filled + [i] && q.gone == p.gone
      && q.owned == p.owned && q.held == p.held - {i} && q.nbOmx == p.nbOmx - 1 && q.max == p.max
  {
  }

  /** The buffers that video_get_out hands out over a run. */
  ghost function Leaves(s: OutPort, actions: seq<Action>): seq<nat>
    decreases |actions|
  {
    if actions == [] then []
    else
      (if actions[0].Get? && s.port.fifo != [] then [s.port.fifo[0]] else [])
      + Leaves(Step(s, actions[0]), actions[1..])
  }

  /** The buffers that the component returns over it. */
  function Fills(actions: seq<Action>): seq<nat> {
    if actions == [] then [] else (if actions[0].Filled? then [actions[0].i] else []) + Fills(actions[1..])
  }

  function Gets(actions: seq<Action>): nat {
    if actions == [] then 0 else (if actions[0].Get? then 1 else 0) + Gets(actions[1..])
  }

  predicate NoReconfigure(actions: seq<Action>) {
    forall k :: 0 <= k < |actions| ==> !actions[k].StartReconfigure?
  }

  lemma StepFifo(s: OutPort, a: Action)
    requires Inv(s) && !s.draining && Enabled(s, a) && !a.StartReconfigure?
    ensures !Step(s, a).draining
    ensures s.port.fifo + (if a.Filled? then [a.i] else [])
         == (if a.Get? && s.port.fifo != [] then [s.port.fifo[0]] else []) + Step(s, a).port.fifo
  {
    match a
    case Put(i) => PutOutFeeds(s.port, i);
    case Get =>
      if s.port.fifo != [] {
        GetDoneMoves(s.port);
      }
    case Filled(i) => FillDoneMoves(s.port, i);
    case _ =>
  }

  lemma Chain(fifo: seq<nat>, fill: seq<nat>, fills: seq<nat>, leave: seq<nat>, leaves: seq<nat>,
      fifo1: seq<nat>, fifo2: seq<nat>)
    requires fifo + fill == leave + fifo1 && fifo1 + fills == leaves + fifo2
    ensures fifo + (fill + fills) == leave + leaves + fifo2
  {
    assert fifo + (fill + fills) == fifo + fill + fills;
    assert leave + (fifo1 + fills) == leave + fifo1 + fills;
    assert leave + (leaves + fifo2) == leave + leaves + fifo2;
  }

  /** First filled, first out: over any run without a reconfiguration, what was finished before and what the
      component returns is, in that order, what is handed out and what is still finished. */
  lemma {:induction false} FilledLeaveInOrder(s: OutPort, actions: seq<Action>)
    requires Inv(s) && !s.draining && IsRun(s, actions) && NoReconfigure(actions)
    ensures s.port.fifo + Fills(actions) == Leaves(s, actions) + Exec(s, actions).port.fifo
    decreases |actions|
  {
    if actions != [] {
      var a, s' := actions[0], Step(s, actions[0]);
      StepFifo(s, a);
      StepKeepsInv(s, a);
      FilledLeaveInOrder(s', actions[1..]);
      Chain(s.port.fifo, if a.Filled? then [a.i] else [], Fills(actions[1..]),
        if a.Get? && s.port.fifo != [] then [s.port.fifo[0]] else [], Leaves(s', actions[1..]),
        s'.port.fifo, Exec(s', actions[1..]).port.fifo);
    }
  }

  /** Every buffer that is finished now comes out in as many calls as there are, whatever comes between. */
  lemma {:induction false} GetsDeliver(s: OutPort, actions: seq<Action>)
    requires Inv(s) && !s.draining && IsRun(s, actions) && NoReconfigure(actions)
    ensures |Leaves(s, actions)| >= Min(Gets(actions), |s.port.fifo|)
    decreases |actions|
  {
    if actions != [] {
      StepFifo(s, actions[0]);
      StepKeepsInv(s, actions[0]);
      GetsDeliver(Step(s, actions[0]), actions[1..]);
    }
  }

  // Each only once.

  lemma StepOwned(s: OutPort, a: Action, i: nat)
    requires Inv(s) && Enabled(s, a) && a != Put(i) && i in s.port.owned
    ensures i in Step(s, a).port.owned && (s.port.fifo != [] ==> s.port.fifo[0] != i)
  {
    if s.port.fifo != [] {
      GetDoneMoves(s.port);
    }
    match a
    case Put(j) => PutOutFeeds(s.port, j);
    case EndReconfigure(count) => ResendFrame(s.port.(max := NewMax(s.port.max, count)), 0);
    case _ =>
  }

  /** A buffer that the client has is not handed out again before the client puts it. */
  lemma {:induction false} OwnedNeverLeaves(s: OutPort, actions: seq<Action>, i: nat)
    requires Inv(s) && IsRun(s, actions) && i in s.port.owned && Put(i) !in actions
    ensures i in Exec(s, actions).port.owned && i !in Leaves(s, actions)
    decreases |actions|
  {
    if actions != [] {
      StepOwned(s, actions[0], i);
      StepKeepsInv(s, actions[0]);
      OwnedNeverLeaves(Step(s, actions[0]), actions[1..], i);
    }
  }

  /** Not even a buffer that is handed out on the way: between two times that i leaves there is a put of i. */
  lemma LeavesOnce(s: OutPort, actions: seq<Action>, i: nat)
    requires Inv(s) && s.port.fifo != [] && s.port.fifo[0] == i
    requires IsRun(Step(s, Get), actions) && Put(i) !in actions
    ensures i !in Leaves(Step(s, Get), actions)
  {
    GetDoneMoves(s.port);
    StepKeepsInv(s, Get);
    OwnedNeverLeaves(Step(s, Get), actions, i);
  }
}
