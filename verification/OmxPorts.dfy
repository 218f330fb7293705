/** The buffers of one OMX port (codec_OMX.c): each is with the client, ready to be sent, with the
    component, or returned by it. A counter, a cap and a FIFO have to agree with the buffers' states
    whatever order the component returns buffers in. */
module OmxPorts {
  import opened Memory

  datatype BufferState = INIT | READY | OMX | OMX_DONE | OUT

  /** omx_port_t, with the parts of the system only proofs look at: which buffers the component holds,
      which the client holds, and the order of returns and hand-overs since the FIFO was last drained. */
  datatype Port = Port(
    states: seq<BufferState>,
    nbOmx: int,
    max: int,          // nb_omx_buffers_max
    fifo: seq<nat>,
    held: set<nat>,
    owned: set<nat>,
    filled: seq<nat>,
    gone: seq<nat>)
  {
    predicate Has(i: nat) {
      i < |states|
    }
  }

  // The critical sections.

  /** omx_buffer_send_locked: at the cap it silently does nothing. */
  function Send(p: Port, i: nat): Port
    requires p.Has(i)
  {
    if p.nbOmx < p.max then
      p.(states := p.states[i := OMX], nbOmx := p.nbOmx + 1, held := p.held + {i})
    else p
  }

  /** omx_buffer_get_done_locked without waiting, as video_get_out calls it. */
  function GetDone(p: Port): Port {
    if p.fifo == [] || !p.Has(p.fifo[0]) then p
    else
      var i := p.fifo[0];
      p.(states := p.states[i := OUT], fifo := p.fifo[1..], owned := p.owned + {i}, gone := p.gone + [i])
  }

  /** omx_fill_buffer_done: the component returns a filled output buffer. */
  function FillDone(p: Port, i: nat): Port
    requires p.Has(i)
  {
    p.(states := p.states[i := OMX_DONE], nbOmx := p.nbOmx - 1, fifo := p.fifo + [i],
       held := p.held - {i}, filled := p.filled + [i])
  }

  /** omx_empty_buffer_done: the component returns an emptied input buffer. */
  function EmptyDone(p: Port, i: nat): Port
    requires p.Has(i)
  {
    p.(states := p.states[i := READY], nbOmx := p.nbOmx - 1, held := p.held - {i})
  }

  /** The loop of video_put_out from buffer k on: send whatever is ready, up to the cap. */
  function Feed(p: Port, k: nat): Port
    decreases |p.states| - k
  {
    if p.Has(k) && p.nbOmx < p.max then Feed(if p.states[k] == READY then Send(p, k) else p, k + 1)
    else p
  }

  /** The client gives a buffer back. */
  function MakeReady(p: Port, i: nat): Port
    requires p.Has(i)
  {
    p.(states := p.states[i := READY], owned := p.owned - {i})
  }

  /** video_put_out with the frame of buffer i. */
  function PutOut(p: Port, i: nat): Port
    requires p.Has(i)
  {
    Feed(MakeReady(p, i), 0)
  }

  /** The end of omx_buffer_wait_all_done: the FIFO is emptied, the states are left as they are. */
  function Drain(p: Port): Port {
    p.(fifo := [], filled := [], gone := [])
  }

  /** What omx_port_reconfigure makes of the cap when the component now asks for `count` buffers. */
  function NewMax(max: int, count: int): int {
    if max > count then max else count
  }

  /** The loop at the end of omx_port_reconfigure, from buffer k on. */
  function Resend(p: Port, k: nat): Port
    decreases |p.states| - k
  {
    if p.Has(k) then Resend(if p.states[k] == OMX_DONE then Send(p, k) else p, k + 1) else p
  }

  // The agreement.

  function IndicesOf(states: seq<BufferState>, b: BufferState): set<nat> {
    set i: nat | i < |states| && states[i] == b
  }

  ghost predicate NoDuplicates(q: seq<nat>) {
    forall i, j :: 0 <= i < j < |q| ==> q[i] != q[j]
  }

  /** The counter is the number of buffers the component has, and those are the buffers in state OMX. */
  ghost predicate HeldAgrees(p: Port) {
    && p.held == IndicesOf(p.states, OMX)
    && p.nbOmx == |p.held|
    && p.nbOmx <= p.max
  }

  /** The FIFO holds buffers in state OMX_DONE, each once. */
  ghost predicate FifoSound(p: Port) {
    NoDuplicates(p.fifo) && forall i: nat :: i in p.fifo ==> i in IndicesOf(p.states, OMX_DONE)
  }

  /** The client holds exactly the buffers never sent and the ones handed out. */
  ghost predicate OwnedAgrees(p: Port) {
    p.owned == IndicesOf(p.states, INIT) + IndicesOf(p.states, OUT)
  }

  /** Outputs leave in the order they were filled. */
  ghost predicate InOrder(p: Port) {
    p.filled == p.gone + p.fifo
  }

  /** What always holds while the mutex is free. */
  ghost predicate Sound(p: Port) {
    HeldAgrees(p) && FifoSound(p) && OwnedAgrees(p) && InOrder(p)
  }

  /** The buffers in state OMX_DONE that are not in the FIFO: video_get_out never finds them. */
  ghost function Stranded(p: Port): set<nat> {
    set i | i in IndicesOf(p.states, OMX_DONE) && i !in p.fifo
  }

  /** Everything agrees: the FIFO holds exactly the buffers in state OMX_DONE. */
  ghost predicate Agree(p: Port) {
    Sound(p) && Stranded(p) == {}
  }

  /** The same buffers are stranded before and after. */
  ghost predicate Keeps(p: Port, q: Port) {
    Sound(q) && Stranded(q) == Stranded(p)
  }

  /** No buffer is both with the component and with the client. */
  lemma HeldApartFromOwned(p: Port)
    requires HeldAgrees(p) && OwnedAgrees(p)
    ensures p.held !! p.owned
  {
  }

  lemma SetState(states: seq<BufferState>, i: nat, b: BufferState, c: BufferState)
    requires i < |states| && states[i] != b
    ensures IndicesOf(states[i := b], b) == IndicesOf(states, b) + {i}
    ensures c != b ==> IndicesOf(states[i := b], c) == IndicesOf(states, c) - {i}
  {
  }

  /** A set of the states in which neither end of a change lies. */
  lemma SetStateKeeps(states: seq<BufferState>, i: nat, b: BufferState, c: BufferState)
    requires i < |states| && states[i] != b && states[i] != c && b != c
    ensures IndicesOf(states[i := b], c) == IndicesOf(states, c)
  {
    SetState(states, i, b, c);
    assert i !in IndicesOf(states, c);
  }

  /** The sets of the states that a change to b is not about. */
  ghost predicate OnlyMoves(states: seq<BufferState>, i: nat, b: BufferState)
    requires i < |states|
  {
    forall c :: IndicesOf(states[i := b], c) == if c == b then IndicesOf(states, c) + {i} else IndicesOf(states, c) - {i}
  }

  lemma SetStateAll(states: seq<BufferState>, i: nat, b: BufferState)
    requires i < |states| && states[i] != b
    ensures OnlyMoves(states, i, b)
  {
    forall c
      ensures IndicesOf(states[i := b], c) == if c == b then IndicesOf(states, c) + {i} else IndicesOf(states, c) - {i}
    {
      SetState(states, i, b, c);
    }
  }

  lemma SendKeepsHeld(p: Port, i: nat)
    requires p.Has(i) && HeldAgrees(p) && p.states[i] != OMX
    ensures HeldAgrees(Send(p, i))
  {
    SetState(p.states, i, OMX, OMX);
  }

  /** Sending a ready buffer. */
  lemma SendKeeps(p: Port, i: nat)
    requires p.Has(i) && Sound(p) && p.states[i] == READY
    ensures Keeps(p, Send(p, i))
  {
    SetStateAll(p.states, i, OMX);
    SendKeepsHeld(p, i);
  }

  lemma Dequeue(q: seq<nat>)
    requires q != [] && NoDuplicates(q)
    ensures NoDuplicates(q[1..])
    ensures forall j: nat :: j in q[1..] <==> j in q && j != q[0]
  {
  }

  lemma Enqueue(q: seq<nat>, i: nat)
    requires NoDuplicates(q) && i !in q
    ensures NoDuplicates(q + [i])
    ensures forall j: nat :: j in q + [i] <==> j in q || j == i
  {
  }

  lemma GetDoneFinds(p: Port)
    requires FifoSound(p) && p.fifo != []
    ensures p.Has(p.fifo[0]) && p.states[p.fifo[0]] == OMX_DONE
  {
    assert p.fifo[0] in p.fifo;
  }

  lemma GetDoneKeepsSets(p: Port)
    requires Sound(p) && p.fifo != []
    ensures HeldAgrees(GetDone(p)) && OwnedAgrees(GetDone(p))
  {
    var i := p.fifo[0];
    GetDoneFinds(p);
    SetStateKeeps(p.states, i, OUT, OMX);
    SetStateKeeps(p.states, i, OUT, INIT);
    SetState(p.states, i, OUT, OUT);
  }

  lemma GetDoneKeepsFifo(p: Port)
    requires Sound(p) && p.fifo != []
    ensures FifoSound(GetDone(p)) && Stranded(GetDone(p)) == Stranded(p)
  {
    GetDoneFinds(p);
    SetState(p.states, p.fifo[0], OUT, OMX_DONE);
    Dequeue(p.fifo);
    assert p.fifo[0] in p.fifo;
  }

  lemma GetDoneKeeps(p: Port)
    requires Sound(p)
    ensures Keeps(p, GetDone(p))
  {
    if p.fifo != [] {
      GetDoneFinds(p);
      GetDoneKeepsSets(p);
      GetDoneKeepsFifo(p);
      assert p.gone + p.fifo == p.gone + [p.fifo[0]] + p.fifo[1..];
    }
  }

  lemma FillDoneKeeps(p: Port, i: nat)
    requires Sound(p) && i in p.held
    ensures Keeps(p, FillDone(p, i))
  {
    SetStateAll(p.states, i, OMX_DONE);
    Enqueue(p.fifo, i);
  }

  lemma {:induction false} FeedKeeps(p: Port, k: nat)
    requires Sound(p)
    ensures Keeps(p, Feed(p, k))
    decreases |p.states| - k
  {
    if p.Has(k) && p.nbOmx < p.max {
      if p.states[k] == READY {
        SendKeeps(p, k);
      }
      FeedKeeps(if p.states[k] == READY then Send(p, k) else p, k + 1);
    }
  }

  /** Feeding stops at the cap or at the last ready buffer, and only ever sends ready buffers. */
  lemma {:induction false} FeedFeeds(p: Port, k: nat)
    requires p.nbOmx <= p.max && k <= |p.states|
    requires forall i :: 0 <= i < k ==> p.states[i] != READY
    ensures var q := Feed(p, k);
      && |q.states| == |p.states| && q.max == p.max
      && (q.nbOmx == q.max || forall i :: 0 <= i < |q.states| ==> q.states[i] != READY)
      && (forall i :: 0 <= i < |q.states| ==>
            q.states[i] == p.states[i] || (p.states[i] == READY && q.states[i] == OMX))
      && q.owned == p.owned && q.fifo == p.fifo && q.filled == p.filled && q.gone == p.gone
    decreases |p.states| - k
  {
    if p.Has(k) && p.nbOmx < p.max {
      FeedFeeds(if p.states[k] == READY then Send(p, k) else p, k + 1);
    }
  }

  lemma OwnedState(p: Port, i: nat)
    requires OwnedAgrees(p) && i in p.owned
    ensures p.Has(i) && p.states[i] in {INIT, OUT}
  {
  }

  lemma ReadyKeepsOwned(p: Port, i: nat)
    requires OwnedAgrees(p) && i in p.owned && p.Has(i) && p.states[i] in {INIT, OUT}
    ensures OwnedAgrees(MakeReady(p, i))
  {
    SetState(p.states, i, READY, INIT);
    SetState(p.states, i, READY, OUT);
  }

  lemma ReadyKeeps(p: Port, i: nat)
    requires Sound(p) && i in p.owned
    ensures p.Has(i) && Keeps(p, MakeReady(p, i))
  {
    OwnedState(p, i);
    SetStateKeeps(p.states, i, READY, OMX);
    SetStateKeeps(p.states, i, READY, OMX_DONE);
    ReadyKeepsOwned(p, i);
  }

  lemma PutOutKeeps(p: Port, i: nat)
    requires Sound(p) && i in p.owned
    ensures Keeps(p, PutOut(p, i))
  {
    ReadyKeeps(p, i);
    FeedKeeps(MakeReady(p, i), 0);
  }

  /** After a frame was put out it is ready or with the component, and either nothing is left ready or the
      component is at the cap; of the other buffers only ready ones have moved, to the component. */
  lemma PutOutFeeds(p: Port, i: nat)
    requires Sound(p) && i in p.owned
    ensures var q := PutOut(p, i);
      && q.owned == p.owned - {i} && |q.states| == |p.states| && q.max == p.max && q.states[i] in {READY, OMX}
      && q.fifo == p.fifo && q.filled == p.filled && q.gone == p.gone
      && (forall j :: 0 <= j < |q.states| && j != i ==>
            q.states[j] == p.states[j] || (p.states[j] == READY && q.states[j] == OMX))
      && (q.nbOmx == q.max || forall j :: 0 <= j < |q.states| ==> q.states[j] != READY)
  {
    FeedFeeds(MakeReady(p, i), 0);
    PutOutKeeps(p, i);
  }

  // Reconfiguring without a reallocation.

  function CountFrom(states: seq<BufferState>, k: nat, b: BufferState): nat
    decreases |states| - k
  {
    if k >= |states| then 0 else (if states[k] == b then 1 else 0) + CountFrom(states, k + 1, b)
  }

  lemma {:induction false} CountSuffix(states: seq<BufferState>, states': seq<BufferState>, k: nat, b: BufferState)
    requires |states'| == |states| && forall i :: k <= i < |states| ==> states'[i] == states[i]
    ensures CountFrom(states', k, b) == CountFrom(states, k, b)
    decreases |states| - k
  {
    if k < |states| {
      CountSuffix(states, states', k + 1, b);
    }
  }

  lemma {:induction false} CountZero(states: seq<BufferState>, k: nat, b: BufferState)
    ensures CountFrom(states, k, b) == 0 <==> forall i :: k <= i < |states| ==> states[i] != b
    decreases |states| - k
  {
    if k < |states| {
      CountZero(states, k + 1, b);
    }
  }

  /** The number of buffers the drain left in state OMX_DONE. */
  function Drained(p: Port): nat {
    CountFrom(p.states, 0, OMX_DONE)
  }

  /** Resending touches nothing but drained buffers and the component's side. */
  ghost predicate ResendTouches(p: Port, k: nat, q: Port) {
    && HeldAgrees(q) && |q.states| == |p.states|
    && q.max == p.max && q.fifo == p.fifo && q.owned == p.owned && q.filled == p.filled && q.gone == p.gone
    && (forall i :: 0 <= i < |p.states| ==>
          q.states[i] == p.states[i] || (k <= i && p.states[i] == OMX_DONE && q.states[i] == OMX))
  }

  lemma TouchesNext(p: Port, k: nat, q: Port)
    requires p.Has(k) && ResendTouches(if p.states[k] == OMX_DONE then Send(p, k) else p, k + 1, q)
    ensures ResendTouches(p, k, q)
  {
  }

  lemma {:induction false} ResendFrame(p: Port, k: nat)
    requires HeldAgrees(p) && k <= |p.states|
    ensures ResendTouches(p, k, Resend(p, k))
    decreases |p.states| - k
  {
    if p.Has(k) {
      if p.states[k] == OMX_DONE {
        SendKeepsHeld(p, k);
      }
      ResendFrame(if p.states[k] == OMX_DONE then Send(p, k) else p, k + 1);
      TouchesNext(p, k, Resend(p, k));
    }
  }

  lemma CountStep(states: seq<BufferState>, k: nat)
    requires k < |states|
    ensures CountFrom(states, k, OMX_DONE)
         == (if states[k] == OMX_DONE then 1 else 0) + CountFrom(states, k + 1, OMX_DONE)
  {
  }

  /** q has sent what p had drained from buffer k on, up to the cap; the rest is still OMX_DONE. */
  ghost predicate Resent(p: Port, k: nat, q: Port) {
    && q.nbOmx == Min(p.max, p.nbOmx + CountFrom(p.states, k, OMX_DONE))
    && CountFrom(q.states, k, OMX_DONE) == CountFrom(p.states, k, OMX_DONE) - (q.nbOmx - p.nbOmx)
  }

  lemma SentResent(p: Port, k: nat, q: Port)
    requires p.Has(k) && q.Has(k) && p.states[k] == OMX_DONE && p.nbOmx < p.max
    requires Resent(Send(p, k), k + 1, q) && q.states[k] == OMX
    ensures Resent(p, k, q)
  {
    CountSuffix(p.states, Send(p, k).states, k + 1, OMX_DONE);
    CountStep(p.states, k);
    CountStep(q.states, k);
  }

  lemma KeptResent(p: Port, k: nat, q: Port)
    requires p.Has(k) && q.Has(k) && (p.states[k] == OMX_DONE ==> p.nbOmx == p.max)
    requires Resent(p, k + 1, q) && q.states[k] == p.states[k]
    ensures Resent(p, k, q)
  {
  }

  /** Resending fills the component up to the cap; what was drained beyond it stays OMX_DONE. */
  lemma {:induction false} ResendCounts(p: Port, k: nat)
    requires HeldAgrees(p) && k <= |p.states|
    ensures Resent(p, k, Resend(p, k))
    decreases |p.states| - k
  {
    if p.Has(k) {
      var p' := if p.states[k] == OMX_DONE then Send(p, k) else p;
      if p.states[k] == OMX_DONE {
        SendKeepsHeld(p, k);
      }
      ResendCounts(p', k + 1);
      ResendFrame(p', k + 1);
      if p.states[k] == OMX_DONE && p.nbOmx < p.max {
        SentResent(p, k, Resend(p', k + 1));
      } else {
        KeptResent(p, k, Resend(p', k + 1));
      }
    }
  }

  /** The loop at the end of omx_port_reconfigure, on a drained port: exactly min(drained, cap) buffers go
      back to the component, and the port agrees again if and only if no more than the cap were drained.
      The others are left in state OMX_DONE outside the FIFO, where nothing looks for them. */
  lemma ResendRestoresIff(d: Port)
    requires Sound(d) && d.nbOmx == 0 && d.fifo == []
    ensures var q := Resend(d, 0);
      && q.max == d.max && q.nbOmx == Min(Drained(d), d.max) && Drained(q) == Drained(d) - q.nbOmx
      && Sound(q) && q.fifo == []
      && (Agree(q) <==> Drained(d) <= d.max)
  {
    var q := Resend(d, 0);
    ResendFrame(d, 0);
    ResendCounts(d, 0);
    CountZero(q.states, 0, OMX_DONE);
    assert IndicesOf(q.states, INIT) == IndicesOf(d.states, INIT);
    assert IndicesOf(q.states, OUT) == IndicesOf(d.states, OUT);
    if Drained(d) > d.max {
      var i :| 0 <= i < |q.states| && q.states[i] == OMX_DONE;
      assert (i as nat) in Stranded(q);
    }
  }

  lemma DrainKeepsSound(p: Port)
    requires Sound(p)
    ensures Sound(Drain(p))
  {
  }

  /** omx_port_reconfigure without a reallocation, from the moment the component has returned every
      buffer: the cap never falls, and no buffer is stranded if and only if the drained ones fit it. */
  lemma ReconfigureRestoresIff(p: Port, count: int)
    requires Sound(p) && p.nbOmx == 0
    ensures var q := Resend(Drain(p).(max := NewMax(p.max, count)), 0);
      && q.max == Max(p.max, count) && q.nbOmx == Min(Drained(p), q.max) && Sound(q)
      && (Agree(q) <==> Drained(p) <= q.max)
  {
    ResendRestoresIff(Drain(p).(max := NewMax(p.max, count)));
  }

  // Whole runs of an output port.

  datatype OutPort = OutPort(port: Port, draining: bool)

  datatype Action =
    | Put(i: nat)          // video_put_out with the frame of buffer i
    | Get                  // video_get_out
    | Filled(i: nat)       // the component returns any buffer it holds
    | StartReconfigure     // the end of omx_buffer_wait_all_done
    | EndReconfigure(count: int)

  /** omx_comp_open and video_dec_prepare: all buffers new, whatever their number and the cap. */
  predicate InitOut(s: OutPort, n: nat, max: nat) {
    s == OutPort(Port(seq(n, _ => INIT), 0, max, [], {}, IndicesOf(seq(n, _ => INIT), INIT), [], []), false)
  }

  /** A reconfiguration waits until the component holds nothing. The client only puts frames it has. */
  predicate Enabled(s: OutPort, a: Action) {
    match a
    case Put(i) => !s.draining && i in s.port.owned
    case Get => true
    case Filled(i) => i in s.port.held
    case StartReconfigure => !s.draining && s.port.nbOmx == 0
    case EndReconfigure(_) => s.draining
  }

  function Step(s: OutPort, a: Action): OutPort {
    match a
    case Put(i) => if s.port.Has(i) then s.(port := PutOut(s.port, i)) else s
    case Get => s.(port := GetDone(s.port))
    case Filled(i) => if s.port.Has(i) then s.(port := FillDone(s.port, i)) else s
    case StartReconfigure => OutPort(Drain(s.port), true)
    case EndReconfigure(count) => OutPort(Resend(s.port.(max := NewMax(s.port.max, count)), 0), false)
  }

  ghost predicate IsRun(s: OutPort, actions: seq<Action>)
    decreases |actions|
  {
    actions != [] ==> Enabled(s, actions[0]) && IsRun(Step(s, actions[0]), actions[1..])
  }

  ghost function Exec(s: OutPort, actions: seq<Action>): OutPort
    decreases |actions|
  {
    if actions == [] then s else Exec(Step(s, actions[0]), actions[1..])
  }

  /** Between the drain and the resend everything drained is outside the FIFO. */
  ghost predicate Inv(s: OutPort) {
    Sound(s.port) && (s.draining ==> s.port.nbOmx == 0 && s.port.fifo == [])
  }

  /** A reconfiguration that ends now drained at most the cap. */
  predicate Fits(s: OutPort, count: int) {
    Drained(s.port) <= NewMax(s.port.max, count)
  }

  /** The last reconfiguration of a run drained at most the cap; `before` if there is none. */
  ghost predicate LastFits(s: OutPort, actions: seq<Action>, before: bool)
    decreases |actions|
  {
    if actions == [] then before
    else
      LastFits(Step(s, actions[0]), actions[1..],
        match actions[0]
        case EndReconfigure(count) => Fits(s, count)
        case _ => before)
  }

  lemma StepKeepsInv(s: OutPort, a: Action)
    requires Inv(s) && Enabled(s, a)
    ensures Inv(Step(s, a)) && Step(s, a).port.max >= s.port.max
    ensures !a.StartReconfigure? && !a.EndReconfigure? && !s.draining ==> Keeps(s.port, Step(s, a).port)
    ensures a.EndReconfigure? ==> (Agree(Step(s, a).port) <==> Fits(s, a.count))
  {
    match a
    case Put(i) =>
      PutOutKeeps(s.port, i);
      PutOutFeeds(s.port, i);
    case Get =>
      GetDoneKeeps(s.port);
    case Filled(i) =>
      FillDoneKeeps(s.port, i);
    case StartReconfigure =>
      DrainKeepsSound(s.port);
    case EndReconfigure(count) =>
      ResendRestoresIff(s.port.(max := NewMax(s.port.max, count)));
  }

  lemma {:induction false} RunAgreesIff(s: OutPort, actions: seq<Action>, before: bool)
    requires Inv(s) && IsRun(s, actions)
    requires !s.draining ==> (Agree(s.port) <==> before)
    ensures var t := Exec(s, actions);
      && Inv(t) && t.port.max >= s.port.max
      && (!t.draining ==> (Agree(t.port) <==> LastFits(s, actions, before)))
    decreases |actions|
  {
    if actions != [] {
      var a := actions[0];
      StepKeepsInv(s, a);
      RunAgreesIff(Step(s, a), actions[1..], if a.EndReconfigure? then Fits(s, a.count) else before);
    }
  }

  /** In every reachable state with the mutex free the counter is the number of buffers the component has,
      and at most the cap; the FIFO holds finished buffers without duplicates; no buffer is with the
      component and the client at once; outputs leave in the order they were filled; the cap has not
      fallen. Outside a reconfiguration the FIFO holds all the finished buffers if and only if the last
      reconfiguration, if there was one, drained no more buffers than the cap it left. */
  lemma AgreeOverRuns(s: OutPort, n: nat, max: nat, actions: seq<Action>)
    requires InitOut(s, n, max) && IsRun(s, actions)
    ensures var t := Exec(s, actions);
      && Sound(t.port) && t.port.held !! t.port.owned && t.port.max >= max
      && (!t.draining ==> (Agree(t.port) <==> LastFits(s, actions, true)))
  {
    assert IndicesOf(s.port.states, OMX) == {} && IndicesOf(s.port.states, OMX_DONE) == {};
    RunAgreesIff(s, actions, true);
    HeldApartFromOwned(Exec(s, actions).port);
  }

  /** A buffer that a reconfiguration has stranded stays so until the next one. */
  lemma {:induction false} StrandedStays(s: OutPort, actions: seq<Action>)
    requires Inv(s) && !s.draining && IsRun(s, actions)
    requires forall a :: a in actions ==> !a.StartReconfigure?
    ensures Stranded(Exec(s, actions).port) == Stranded(s.port) && !Exec(s, actions).draining
    decreases |actions|
  {
    if actions != [] {
      assert actions[0] in actions;
      StepKeepsInv(s, actions[0]);
      StrandedStays(Step(s, actions[0]), actions[1..]);
    }
  }

  // The loops on two buffers, of which the component takes one.

  lemma FeedOne(p: Port, i: nat)
    requires |p.states| == 2 && p.max == 1 && p.nbOmx == 0 && i < 2
    requires p.states[i] == READY && p.states[1 - i] != READY
    ensures Feed(p, 0) == Send(p, i)
  {
    assert Feed(Send(p, i), 1) == Feed(Send(p, i), 2) == Send(p, i);
    if i == 1 {
      assert Feed(p, 0) == Feed(p, 1) == Feed(Send(p, 1), 2);
    }
  }

  lemma ResendOne(p: Port)
    requires p.states == [OMX_DONE, OMX_DONE] && p.max == 1 && p.nbOmx == 0
    ensures Resend(p, 0) == Send(p, 0)
  {
    var q := Send(p, 0);
    assert Resend(p, 0) == Resend(q, 1);
    assert Resend(q, 1) == Resend(q, 2) == q;
  }

  /** The client puts frame i and the component returns it filled. */
  lemma PutFilled(s: OutPort, i: nat) returns (t: OutPort)
    requires |s.port.states| == 2 && s.port.max == 1 && s.port.nbOmx == 0 && i < 2
    requires !s.draining && i in s.port.owned && s.port.states[1 - i] != READY
    ensures Enabled(s, Put(i)) && Enabled(Step(s, Put(i)), Filled(i)) && t == Step(Step(s, Put(i)), Filled(i))
    ensures t.port.states == s.port.states[i := OMX_DONE] && t.port.owned == s.port.owned - {i}
    ensures t.port.max == 1 && t.port.nbOmx == 0 && !t.draining
  {
    FeedOne(MakeReady(s.port, i), i);
    t := Step(Step(s, Put(i)), Filled(i));
    assert s.port.states[i := READY][i := OMX][i := OMX_DONE] == s.port.states[i := OMX_DONE];
  }

  /** A run with one more step before it. */
  lemma RunOf(s: OutPort, t: OutPort, actions: seq<Action>, a: Action)
    requires Enabled(s, a) && IsRun(Step(s, a), actions) && Exec(Step(s, a), actions) == t
    ensures IsRun(s, [a] + actions) && Exec(s, [a] + actions) == t
  {
    assert ([a] + actions)[1..] == actions;
  }

  lemma RunOfTwo(s: OutPort, t: OutPort, actions: seq<Action>, a: Action, b: Action)
    requires Enabled(s, a) && Enabled(Step(s, a), b)
    requires IsRun(Step(Step(s, a), b), actions) && Exec(Step(Step(s, a), b), actions) == t
    ensures IsRun(s, [a, b] + actions) && Exec(s, [a, b] + actions) == t
  {
    RunOf(Step(s, a), t, actions, b);
    RunOf(s, t, [b] + actions, a);
    assert [a] + ([b] + actions) == [a, b] + actions;
  }

  lemma ReconfigureLoses(u: OutPort) returns (t: OutPort)
    requires u.port.states == [OMX_DONE, OMX_DONE] && u.port.max == 1 && u.port.nbOmx == 0 && !u.draining
    ensures Enabled(u, StartReconfigure) && Enabled(Step(u, StartReconfigure), EndReconfigure(1))
    ensures t == Step(Step(u, StartReconfigure), EndReconfigure(1))
    ensures !t.draining && t.port.nbOmx == t.port.max && 1 in Stranded(t.port)
  {
    ResendOne(Drain(u.port));
    t := Step(Step(u, StartReconfigure), EndReconfigure(1));
  }

  lemma StrandingRun() returns (s: OutPort, actions: seq<Action>, end: OutPort)
    ensures InitOut(s, 2, 1) && IsRun(s, actions) && Exec(s, actions) == end
    ensures !end.draining && end.port.nbOmx == end.port.max && 1 in Stranded(end.port)
  {
    s := OutPort(Port([INIT, INIT], 0, 1, [], {}, IndicesOf([INIT, INIT], INIT), [], []), false);
    assert seq(2, _ => INIT) == [INIT, INIT];
    var t := PutFilled(s, 0);
    var u := PutFilled(t, 1);
    end := ReconfigureLoses(u);
    RunOfTwo(u, end, [], StartReconfigure, EndReconfigure(1));
    RunOfTwo(t, end, [StartReconfigure, EndReconfigure(1)] + [], Put(1), Filled(1));
    actions := [Put(1), Filled(1)] + ([StartReconfigure, EndReconfigure(1)] + []);
    RunOfTwo(s, end, actions, Put(0), Filled(0));
    actions := [Put(0), Filled(0)] + actions;
  }

  /** It happens with two buffers and a component that takes one at a time: both come back filled, and
      the reconfiguration finds no room for the second. */
  lemma ReconfigureStrands()
    ensures exists s: OutPort, actions: seq<Action> ::
      && InitOut(s, 2, 1) && IsRun(s, actions)
      && var t := Exec(s, actions); !t.draining && t.port.nbOmx == t.port.max && 1 in Stranded(t.port)
  {
    var s, actions, end := StrandingRun();
  }
}
