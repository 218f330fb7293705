/** The output ring of audio_interface_opensles.c: writes of any length are cut into units of a fixed
    size in a ring of 32 slots, and every full unit is queued for playback; the player reports, from a
    thread of its own, each unit it has finished. */
module OpenSles {
  import opened Memory

  const BUFFERS := 32  // OPENSLES_BUFFERS

  /** The full units of a stream of bytes, and what is left over. */
  function Units(unit: nat, bytes: seq<uint8>): seq<seq<uint8>>
    requires 0 < unit
  {
    if |bytes| < unit then [] else [bytes[..unit]] + Units(unit, bytes[unit..])
  }

  function Rest(unit: nat, bytes: seq<uint8>): (r: seq<uint8>)
    requires 0 < unit
    ensures |r| < unit
  {
    if |bytes| < unit then bytes else Rest(unit, bytes[unit..])
  }

  /** Cutting loses and reorders nothing. */
  function Flatten(units: seq<seq<uint8>>): seq<uint8> {
    if units == [] then [] else units[0] + Flatten(units[1..])
  }

  lemma {:induction false} UnitsFlatten(unit: nat, bytes: seq<uint8>)
    requires 0 < unit
    ensures Flatten(Units(unit, bytes)) + Rest(unit, bytes) == bytes
  {
    if |bytes| >= unit {
      var units := Units(unit, bytes[unit..]);
      UnitsFlatten(unit, bytes[unit..]);
      assert Units(unit, bytes)[1..] == units;
      assert bytes[..unit] + (Flatten(units) + Rest(unit, bytes[unit..])) == bytes;
    }
  }

  lemma {:induction false} UnitsSized(unit: nat, bytes: seq<uint8>)
    requires 0 < unit
    ensures forall i :: 0 <= i < |Units(unit, bytes)| ==> |Units(unit, bytes)[i]| == unit
  {
    if |bytes| >= unit {
      UnitsSized(unit, bytes[unit..]);
    }
  }

  /** Bytes that do not complete a unit only extend the rest; bytes that do add one unit. */
  lemma {:induction false} UnitsAppend(unit: nat, bytes: seq<uint8>, more: seq<uint8>)
    requires 0 < unit && |Rest(unit, bytes)| + |more| <= unit
    ensures var r := Rest(unit, bytes) + more;
      if |r| < unit then Units(unit, bytes + more) == Units(unit, bytes) && Rest(unit, bytes + more) == r
      else Units(unit, bytes + more) == Units(unit, bytes) + [r] && Rest(unit, bytes + more) == []
    decreases |bytes|
  {
    if |bytes| >= unit {
      UnitsAppend(unit, bytes[unit..], more);
      assert (bytes + more)[..unit] == bytes[..unit];
      assert (bytes + more)[unit..] == bytes[unit..] + more;
    } else if |bytes| + |more| == unit {
      assert (bytes + more)[..unit] == bytes + more && (bytes + more)[unit..] == [];
    }
  }

  // Slots of the ring.

  function SlotOf(u: nat): nat {
    u % BUFFERS
  }

  lemma SlotBounds(unit: nat, s: nat)
    requires s < BUFFERS
    ensures 0 <= unit * s && unit * s + unit <= BUFFERS * unit
  {
  }

  lemma SlotsApart(unit: nat, s: nat, t: nat)
    requires s < t
    ensures unit * s + unit <= unit * t
  {
    assert unit * s + unit == unit * (s + 1) <= unit * t;
  }

  function Slot(buffer: seq<uint8>, unit: nat, s: nat): (r: seq<uint8>)
    requires |buffer| == BUFFERS * unit && s < BUFFERS
    ensures |r| == unit
  {
    SlotBounds(unit, s);
    buffer[unit * s..unit * s + unit]
  }

  /** Copying into one slot extends what it holds and leaves the other slots alone. */
  lemma CopyIntoSlot(buffer: seq<uint8>, unit: nat, s: nat, done: nat, src: seq<uint8>)
    requires |buffer| == BUFFERS * unit && s < BUFFERS && done + |src| <= unit
    ensures 0 <= unit * s + done && unit * s + done + |src| <= |buffer|
    ensures var buffer' := Blit(buffer, unit * s + done, src);
      && Slot(buffer', unit, s)[..done + |src|] == Slot(buffer, unit, s)[..done] + src
      && (forall t: nat :: t < BUFFERS && t != s ==> Slot(buffer', unit, t) == Slot(buffer, unit, t))
  {
    SlotBounds(unit, s);
    var buffer' := Blit(buffer, unit * s + done, src);
    forall t: nat | t < BUFFERS && t != s
      ensures Slot(buffer', unit, t) == Slot(buffer, unit, t)
    {
      SlotBounds(unit, t);
      if t < s {
        SlotsApart(unit, t, s);
      } else {
        SlotsApart(unit, s, t);
      }
    }
  }

  /** Units lo to hi of the stream are each in their slot. */
  ghost predicate Held(buffer: seq<uint8>, unit: nat, units: seq<seq<uint8>>, lo: nat, hi: nat) {
    && |buffer| == BUFFERS * unit && hi <= |units|
    && forall u: nat :: lo <= u < hi ==> Slot(buffer, unit, SlotOf(u)) == units[u]
  }

  /** What the player takes next is the oldest unit still held. */
  lemma HeldTakeFirst(buffer: seq<uint8>, unit: nat, units: seq<seq<uint8>>, lo: nat, hi: nat)
    requires Held(buffer, unit, units, lo, hi) && lo < hi
    ensures units[..lo] + [Slot(buffer, unit, SlotOf(lo))] == units[..lo + 1]
    ensures Held(buffer, unit, units, lo + 1, hi)
  {
  }

  /** Copying into the slot after the newest unit leaves up to 31 held units alone. */
  lemma CopyKeepsHeld(buffer: seq<uint8>, unit: nat, units: seq<seq<uint8>>, lo: nat, hi: nat,
      done: nat, src: seq<uint8>)
    requires Held(buffer, unit, units, lo, hi) && lo <= hi < lo + BUFFERS && done + |src| <= unit
    ensures 0 <= unit * SlotOf(hi) + done && unit * SlotOf(hi) + done + |src| <= |buffer|
    ensures var buffer' := Blit(buffer, unit * SlotOf(hi) + done, src);
      && Held(buffer', unit, units, lo, hi)
      && Slot(buffer', unit, SlotOf(hi))[..done + |src|] == Slot(buffer, unit, SlotOf(hi))[..done] + src
  {
    CopyIntoSlot(buffer, unit, SlotOf(hi), done, src);
    var buffer' := Blit(buffer, unit * SlotOf(hi) + done, src);
    forall u: nat | lo <= u < hi
      ensures Slot(buffer', unit, SlotOf(u)) == units[u]
    {
      assert SlotOf(u) != SlotOf(hi);
    }
  }

  /** The stream as the ring holds it: units lo to hi in their slots, the rest in the slot after. */
  ghost predicate Ring(buffer: seq<uint8>, unit: nat, units: seq<seq<uint8>>, rest: seq<uint8>, lo: nat, hi: nat) {
    && |rest| < unit && lo <= hi < lo + BUFFERS && |buffer| == BUFFERS * unit && hi == |units|
    && Held(buffer, unit, units, lo, hi)
    && Slot(buffer, unit, SlotOf(hi))[..|rest|] == rest
  }

  // The stream once src has come after its rest.

  function UnitsThen(unit: nat, units: seq<seq<uint8>>, rest: seq<uint8>, src: seq<uint8>): seq<seq<uint8>> {
    if |rest| + |src| < unit then units else units + [rest + src]
  }

  function RestThen(unit: nat, rest: seq<uint8>, src: seq<uint8>): seq<uint8> {
    if |rest| + |src| < unit then rest + src else []
  }

  lemma HeldExtend(buffer: seq<uint8>, unit: nat, units: seq<seq<uint8>>, lo: nat, hi: nat, last: seq<uint8>)
    requires Held(buffer, unit, units, lo, hi) && |units| == hi && Slot(buffer, unit, SlotOf(hi)) == last
    ensures Held(buffer, unit, units + [last], lo, hi + 1)
  {
  }

  /** One pass of opensles_write's first loop: bytes that fill the current slot or leave it unfilled. */
  lemma CopyStep(buffer: seq<uint8>, unit: nat, units: seq<seq<uint8>>, rest: seq<uint8>, lo: nat, hi: nat, src: seq<uint8>)
    requires Ring(buffer, unit, units, rest, lo, hi) && |rest| + |src| <= unit
    requires |rest| + |src| == unit ==> hi + 1 < lo + BUFFERS
    ensures 0 <= unit * SlotOf(hi) + |rest| && unit * SlotOf(hi) + |rest| + |src| <= |buffer|
    ensures Ring(Blit(buffer, unit * SlotOf(hi) + |rest|, src), unit, UnitsThen(unit, units, rest, src),
        RestThen(unit, rest, src), lo, if |rest| + |src| < unit then hi else hi + 1)
  {
    CopyKeepsHeld(buffer, unit, units, lo, hi, |rest|, src);
    var buffer' := Blit(buffer, unit * SlotOf(hi) + |rest|, src);
    var slot := Slot(buffer', unit, SlotOf(hi));
    if |rest| + |src| == unit {
      assert slot[..unit] == slot;
      HeldExtend(buffer', unit, units, lo, hi, slot);
    }
  }

  /** opensles_can_write. */
  predicate Admits(unit: nat, len: nat, count: int) {
    0 < unit && BUFFERS - count > len / unit + 1
  }

  lemma MulLess(a: nat, b: nat, unit: nat)
    requires a * unit < b * unit
    ensures a < b
  {
  }

  /** A write of len bytes completes at most one unit more than fit in len. */
  lemma UnitsOfWrite(unit: nat, k: nat, done: nat, len: nat)
    requires 0 < unit && done < unit && k * unit <= done + len
    ensures k <= len / unit + 1
  {
    var q := len / unit;
    assert len < q * unit + unit;
    assert (q + 2) * unit == q * unit + 2 * unit;
    MulLess(k, q + 2, unit);
  }

  /** Where a write stands: k units complete, at bytes in the current slot, done of its bytes copied. */
  predicate At(unit: nat, done0: nat, done: nat, k: int, at: nat) {
    k * unit + at == done0 + done
  }

  /** The next piece either stays in the slot or completes a unit the guard has counted. */
  lemma NextPiece(unit: nat, done0: nat, done: nat, k: nat, at: nat, cur: nat, len: nat)
    requires 0 < unit && done0 < unit && at + cur <= unit && done + cur <= len && At(unit, done0, done, k, at)
    ensures k <= len / unit + 1
    ensures at + cur < unit ==> At(unit, done0, done + cur, k, at + cur)
    ensures at + cur == unit ==> At(unit, done0, done + cur, k + 1, 0) && k + 1 <= len / unit + 1
  {
    UnitsOfWrite(unit, k, done0, len);
    if at + cur == unit {
      assert (k + 1) * unit == k * unit + unit;
      UnitsOfWrite(unit, k + 1, done0, len);
    }
  }

  /** A write of len bytes behind done others puts bytes into the k-th slot from the current one. */
  predicate Touches(unit: nat, done: nat, len: nat, k: nat) {
    k * unit < done + len
  }

  /** Such a write completes k units. */
  predicate Completes(unit: nat, done: nat, len: nat, k: nat) {
    k * unit <= done + len
  }

  /** The last slot from the current one that a write of len bytes can touch, and the number of units it can
      complete: both when the current slot lacks one byte. */
  function Reach(unit: nat, len: nat): nat
    requires 0 < unit && 0 < len
  {
    (len + unit - 2) / unit
  }

  function Whole(unit: nat, len: nat): nat
    requires 0 < unit
  {
    (len + unit - 1) / unit
  }

  /** Room for every unit that a write of len bytes could complete, however full the current slot is. */
  ghost predicate Room(unit: nat, len: nat, count: nat) {
    forall done: nat, k: nat :: done < unit && Completes(unit, done, len, k) ==> count + k < BUFFERS
  }

  lemma MulMonotone(a: nat, b: nat, unit: nat)
    requires a <= b
    ensures a * unit <= b * unit
  {
  }

  lemma Quotient(x: nat, unit: nat, k: nat)
    requires 0 < unit
    ensures k <= x / unit <==> k * unit <= x
  {
    var q := x / unit;
    assert q * unit <= x < q * unit + unit == (q + 1) * unit;
    if k <= q {
      MulMonotone(k, q, unit);
    } else {
      MulMonotone(q + 1, k, unit);
    }
  }

  /** The quotients of x a little below and above a multiple of the unit. */
  lemma QuotientIs(x: nat, unit: nat, q: nat, r: nat)
    requires 0 < unit && x == q * unit + r && r < 2 * unit
    ensures x / unit == if r < unit then q else q + 1
  {
    assert (q + 1) * unit == q * unit + unit && (q + 2) * unit == q * unit + 2 * unit;
    Quotient(x, unit, q);
    Quotient(x, unit, q + 1);
    Quotient(x, unit, q + 2);
  }

  lemma TouchedIff(unit: nat, len: nat, k: nat)
    requires 0 < unit && 0 < len
    ensures k <= Reach(unit, len) <==> Touches(unit, unit - 1, len, k)
  {
    Quotient(len + unit - 2, unit, k);
  }

  lemma CompletedIff(unit: nat, len: nat, k: nat)
    requires 0 < unit
    ensures k <= Whole(unit, len) <==> Completes(unit, unit - 1, len, k)
  {
    Quotient(len + unit - 1, unit, k);
  }

  /** A write touches only slots that are not queued, however full the current slot is, if and only if
      there is room up to the last slot it can reach. */
  lemma TouchesFreeIff(unit: nat, len: nat, count: nat)
    requires 0 < unit && 0 < len
    ensures count + Reach(unit, len) < BUFFERS <==>
      forall done: nat, k: nat :: done < unit && Touches(unit, done, len, k) ==> count + k < BUFFERS
  {
    forall done: nat, k: nat | done < unit && Touches(unit, done, len, k)
      ensures k <= Reach(unit, len)
    {
      TouchedIff(unit, len, k);
    }
    TouchedIff(unit, len, Reach(unit, len));
  }

  /** At most 31 units are queued after it, however full the current slot was, if and only if there is
      room for the units it can complete. */
  lemma QueuesFewIff(unit: nat, len: nat, count: nat)
    requires 0 < unit
    ensures count + Whole(unit, len) < BUFFERS <==> Room(unit, len, count)
  {
    forall done: nat, k: nat | done < unit && Completes(unit, done, len, k)
      ensures k <= Whole(unit, len)
    {
      CompletedIff(unit, len, k);
    }
    CompletedIff(unit, len, Whole(unit, len));
  }

  /** What the guard reserves, compared with what is needed. */
  lemma ReachIs(unit: nat, len: nat)
    requires 0 < unit && 0 < len
    ensures Reach(unit, len) <= Whole(unit, len) <= len / unit + 1
    ensures Reach(unit, len) == len / unit + 1 <==> len % unit >= 2
    ensures Whole(unit, len) == len / unit + 1 <==> len % unit >= 1
  {
    var q, r := len / unit, len % unit;
    assert len == q * unit + r;
    QuotientIs(len + unit - 1, unit, q, r + unit - 1);
    if r + unit >= 2 {
      QuotientIs(len + unit - 2, unit, q, r + unit - 2);
    } else {
      assert unit == 1 && r == 0;
    }
  }

  /** The guard of opensles_can_write always suffices for both. It is exactly what the first needs if and
      only if at least 2 bytes are left over when the length is divided by the unit, and what the second
      needs if and only if at least 1 is; lengths that never fit, even on an empty ring, apart. */
  lemma AdmitsTightIff(unit: nat, len: nat)
    requires 0 < unit && 0 < len
    ensures forall count: nat :: Admits(unit, len, count) ==> count + Whole(unit, len) < BUFFERS
    ensures (forall count: nat :: Admits(unit, len, count) <==> count + Reach(unit, len) < BUFFERS)
      <==> len % unit >= 2 || Reach(unit, len) >= BUFFERS
    ensures (forall count: nat :: Admits(unit, len, count) <==> count + Whole(unit, len) < BUFFERS)
      <==> len % unit >= 1 || Whole(unit, len) >= BUFFERS
  {
    ReachIs(unit, len);
    var reach, whole := Reach(unit, len), Whole(unit, len);
    if reach < BUFFERS {
      assert Admits(unit, len, BUFFERS - 1 - reach) <==> reach > len / unit;
    }
    if whole < BUFFERS {
      assert Admits(unit, len, BUFFERS - 1 - whole) <==> whole > len / unit;
    }
  }

  /** The guard is exactly what a write of one byte more needs in order to leave at most 31 units queued,
      however full the current slot is: for every length, 0 and whole units included. */
  lemma AdmitsIff(unit: nat, len: nat, count: nat)
    requires 0 < unit
    ensures Admits(unit, len, count) <==> Room(unit, len + 1, count)
  {
    QueuesFewIff(unit, len + 1, count);
    QuotientIs(len + unit, unit, len / unit, len % unit + unit);
  }

  lemma FullRefuses(unit: nat, len: nat)
    ensures !Admits(unit, len, BUFFERS - 1)
  {
  }

  /** A whole unit with 30 queued is refused although it could touch only free slots, and leave at most 31
      queued. */
  lemma AdmitsRefusesTooMuch()
    ensures !Admits(4, 4, 30)
    ensures forall done: nat, k: nat :: done < 4 && Touches(4, done, 4, k) ==> 30 + k < BUFFERS
    ensures Room(4, 4, 30)
  {
    TouchesFreeIff(4, 4, 30);
    QueuesFewIff(4, 4, 30);
  }

  // What opensles_preload queues.

  function Zeros(n: nat): (r: seq<uint8>)
    ensures |r| == n && forall i :: 0 <= i < n ==> r[i] == 0
  {
    seq(n, _ => 0)
  }

  lemma {:induction false} ZeroUnits(unit: nat, n: nat)
    requires 0 < unit
    ensures 0 <= n * unit
    ensures Rest(unit, Zeros(n * unit)) == [] && |Units(unit, Zeros(n * unit))| == n
    ensures forall u :: 0 <= u < n ==> Units(unit, Zeros(n * unit))[u] == Zeros(unit)
  {
    if n > 0 {
      ZeroUnits(unit, n - 1);
      assert n * unit == (n - 1) * unit + unit;
      assert Zeros(n * unit)[unit..] == Zeros((n - 1) * unit);
      assert Zeros(n * unit)[..unit] == Zeros(unit);
    }
  }

  /** Zeroed slots hold the units of a silent stream. */
  lemma ZeroRing(buffer: seq<uint8>, unit: nat, n: nat)
    requires 0 < unit && n < BUFFERS && buffer == Zeros(BUFFERS * unit)
    ensures 0 <= n * unit && Ring(buffer, unit, Units(unit, Zeros(n * unit)), [], 0, n)
  {
    ZeroUnits(unit, n);
    forall s: nat | s < BUFFERS
      ensures Slot(buffer, unit, s) == Zeros(unit)
    {
      SlotBounds(unit, s);
    }
  }

  class AudioCtx {
    const unit: nat  // samples_per_buf * bytes_per_sample
    const buffer: array<uint8>
    var bufferDone: nat
    var inIdx: nat
    var outIdx: nat
    var count: nat
    var started: bool  // the player has played something since the queue was last cleared
    ghost var written: seq<uint8>       // all bytes ever written
    ghost var units: seq<seq<uint8>>    // cut into units
    ghost var rest: seq<uint8>          // and what does not fill one yet
    ghost var heard: seq<seq<uint8>>    // the units the player has played, as it found them

    /** Holds at every moment, also inside a write: every unit from the oldest queued one to the newest
        complete one is in its slot, the slot being filled is none of theirs, and what was played is the
        beginning of what was written. */
    ghost predicate Running()
      reads this, buffer
    {
      && 0 < unit && buffer.Length == BUFFERS * unit
      && count <= outIdx <= inIdx
      && units == Units(unit, written) && rest == Rest(unit, written) && bufferDone == |rest|
      && Ring(buffer[..], unit, units, rest, outIdx - count, inIdx)
      && heard == units[..outIdx - count]
      && (!started ==> count == outIdx)
    }

    /** Between two calls every complete unit is queued. */
    ghost predicate Valid()
      reads this, buffer
    {
      Running() && inIdx == outIdx
    }

    constructor (unit: nat)
      requires 0 < unit
      ensures Valid() && fresh(buffer) && written == [] && count == 0 && this.unit == unit
    {
      this.unit := unit;
      buffer := new uint8[BUFFERS * unit];
      bufferDone, inIdx, outIdx, count, started := 0, 0, 0, 0, false;
      written, units, rest, heard := [], [], [], [];
    }

    /** androidSimpleBufferQueueCallback: the player has finished the oldest queued unit. */
    method Callback()
      requires Running() && count > 0
      modifies this`count, this`heard, this`started
      ensures Running() && count == old(count) - 1
      ensures heard == old(heard) + [units[outIdx - old(count)]]
    {
      ghost var u := outIdx - count;
      HeldTakeFirst(buffer[..], unit, units, u, inIdx);
      heard := heard + [Slot(buffer[..], unit, SlotOf(u))];
      started := true;
      count := count - 1;
    }

    /** Any number of callbacks, from the player's thread. */
    method Callbacks()
      requires Running()
      modifies this`count, this`heard, this`started
      ensures Running() && count <= old(count)
    {
      var n: nat :| n <= count;
      for i := 0 to n
        invariant Running() && count == old(count) - i
      {
        Callback();
      }
    }

    method CanWrite(len: nat) returns (ret: bool)
      ensures ret == Admits(unit, len, count)
      ensures ret <==> 0 < unit && Room(unit, len + 1, count)
    {
      if unit == 0 {
        return false;
      }
      AdmitsIff(unit, len, count);
      var nbBuf := len / unit + 1;
      ret := BUFFERS - count > nbBuf;
    }

    /** One pass of opensles_write's first loop: fill the current slot with the next bytes, and go on to
        the next slot when it is full. */
    method CopyIn(src: seq<uint8>)
      requires Running() && 0 < |src| && bufferDone + |src| <= unit
      requires bufferDone + |src| == unit ==> inIdx + 1 < outIdx - count + BUFFERS
      modifies buffer, this`bufferDone, this`inIdx, this`written, this`units, this`rest
      ensures Running() && written == old(written) + src
      ensures inIdx == old(inIdx) + (if old(bufferDone) + |src| == unit then 1 else 0)
      ensures bufferDone == (if old(bufferDone) + |src| == unit then 0 else old(bufferDone) + |src|)
    {
      CopyStep(buffer[..], unit, units, rest, outIdx - count, inIdx, src);
      UnitsAppend(unit, written, src);
      StoreHere(src);
      Account(src);
    }

    /** The counters after the memcpy of opensles_write. */
    method Account(src: seq<uint8>)
      requires 0 < unit && buffer.Length == BUFFERS * unit && count <= outIdx <= inIdx && (!started ==> count == outIdx)
      requires bufferDone == |rest| && |rest| + |src| <= unit && outIdx - count <= |units|
      requires UnitsThen(unit, units, rest, src) == Units(unit, written + src)
      requires RestThen(unit, rest, src) == Rest(unit, written + src)
      requires Ring(buffer[..], unit, UnitsThen(unit, units, rest, src), RestThen(unit, rest, src),
        outIdx - count, if |rest| + |src| < unit then inIdx else inIdx + 1)
      requires heard == units[..outIdx - count]
      modifies this`bufferDone, this`inIdx, this`written, this`units, this`rest
      ensures Running() && written == old(written) + src
      ensures inIdx == old(inIdx) + (if old(bufferDone) + |src| == unit then 1 else 0)
      ensures bufferDone == (if old(bufferDone) + |src| == unit then 0 else old(bufferDone) + |src|)
    {
      written, units, rest := written + src, UnitsThen(unit, units, rest, src), RestThen(unit, rest, src);
      bufferDone := bufferDone + |src|;
      if bufferDone == unit {
        inIdx := inIdx + 1;
        bufferDone := 0;
      }
    }

    /** The memcpy of opensles_write. */
    method StoreHere(src: seq<uint8>)
      requires buffer.Length == BUFFERS * unit && bufferDone + |src| <= unit
      modifies buffer
      ensures 0 <= unit * SlotOf(inIdx) + bufferDone && unit * SlotOf(inIdx) + bufferDone + |src| <= buffer.Length
      ensures buffer[..] == Blit(old(buffer[..]), unit * SlotOf(inIdx) + bufferDone, src)
    {
      SlotBounds(unit, SlotOf(inIdx));
      Memcpy(buffer, unit * SlotOf(inIdx) + bufferDone, src);
    }

    /** SLEnqueue and the two counters, as one step. */
    method Enqueue()
      requires Running() && outIdx < inIdx
      modifies this`outIdx, this`count
      ensures Running() && outIdx == old(outIdx) + 1 && count == old(count) + 1
    {
      outIdx := outIdx + 1;
      count := count + 1;
    }

    /** The body of opensles_write's first loop, with any number of callbacks before it. The write began
        with done0 bytes in slot in0. */
    method CopyPass(input: seq<uint8>, done: nat, ghost in0: nat, ghost done0: nat) returns (done': nat)
      requires Running() && done < |input| && done0 < unit && outIdx == in0
      requires At(unit, done0, done, inIdx - in0, bufferDone) && Admits(unit, |input|, count)
      modifies buffer, this`bufferDone, this`inIdx, this`written, this`units, this`rest, this`count, this`heard, this`started
      ensures Running() && done < done' <= |input| && written == old(written) + input[done..done']
      ensures At(unit, done0, done', inIdx - in0, bufferDone) && Admits(unit, |input|, count)
    {
      Callbacks();
      var cur := |input| - done;
      if cur > unit - bufferDone {
        cur := unit - bufferDone;
      }
      done' := done + cur;
      NextPiece(unit, done0, done, inIdx - in0, bufferDone, cur, |input|);
      CopyIn(input[done..done']);
    }

    /** The first loop of opensles_write, with any number of callbacks at any point of it. */
    method CopyAll(input: seq<uint8>)
      requires Valid() && Admits(unit, |input|, count)
      modifies buffer, this`bufferDone, this`inIdx, this`written, this`units, this`rest, this`count, this`heard, this`started
      ensures Running() && written == old(written) + input
      ensures count + (inIdx - outIdx) < BUFFERS
    {
      var done := 0;
      ghost var in0, done0 := inIdx, bufferDone;
      while done < |input|
        invariant Running() && done <= |input| && written == old(written) + input[..done] && outIdx == in0
        invariant At(unit, done0, done, inIdx - in0, bufferDone) && Admits(unit, |input|, count)
      {
        ghost var was := done;
        done := CopyPass(input, done, in0, done0);
        assert input[..was] + input[was..done] == input[..done];
      }
      NextPiece(unit, done0, done, inIdx - in0, bufferDone, 0, |input|);
      assert input[..done] == input;
    }

    /** The second loop: every complete unit is queued. */
    method EnqueueAll()
      requires Running() && count + (inIdx - outIdx) < BUFFERS
      modifies this`outIdx, this`count, this`heard, this`started
      ensures Valid() && count < BUFFERS
    {
      while inIdx > outIdx
        invariant Running() && count + (inIdx - outIdx) < BUFFERS
      {
        Callbacks();
        Enqueue();
      }
    }

    /** opensles_write, for a write that opensles_can_write admits. */
    method Write(input: seq<uint8>) returns (done: nat)
      requires Valid() && Admits(unit, |input|, count)
      modifies buffer, this`bufferDone, this`inIdx, this`written, this`units, this`rest, this`count, this`heard, this`started, this`outIdx
      ensures Valid() && done == |input|
      ensures written == old(written) + input
      ensures count < BUFFERS
    {
      CopyAll(input);
      EnqueueAll();
      done := |input|;
    }

    /** opensles_flush_output_locked, between two units: what is queued is dropped. */
    method Flush()
      requires Valid() && bufferDone == 0
      modifies this`count, this`inIdx, this`outIdx, this`started, this`written, this`units, this`rest, this`heard
      ensures Valid() && bufferDone == 0 && written == [] && !started && outIdx == 0
    {
      started := false;
      count := 0;
      inIdx, outIdx := 0, 0;
      written, units, rest, heard := [], [], [], [];
      assert Slot(buffer[..], unit, SlotOf(0))[..0] == [];
    }

    /** The memset of opensles_preload and its jump of the index: what was queued but not played has become
        silence. */
    method Silence()
      requires Valid() && bufferDone == 0 && !started
      modifies buffer, this`inIdx, this`written, this`units, this`rest
      ensures Running() && inIdx == BUFFERS - 1 && written == Zeros((BUFFERS - 1) * unit)
    {
      ghost var size := BUFFERS * unit;
      Memcpy(buffer, 0, Zeros(buffer.Length));
      assert buffer[..] == Zeros(size);
      ZeroRing(buffer[..], unit, BUFFERS - 1);
      ZeroUnits(unit, BUFFERS - 1);
      written := Zeros((BUFFERS - 1) * unit);
      units, rest := Units(unit, written), [];
      inIdx := BUFFERS - 1;
    }

    /** opensles_preload with no unit partly filled: whatever was written before, the stream is now 31
        silent units, all of them queued, and nothing is admitted before one of them has been played. */
    method Preload()
      requires Valid() && bufferDone == 0
      modifies buffer, this`inIdx, this`written, this`units, this`rest, this`count, this`heard, this`started, this`outIdx
      ensures Valid() && inIdx == BUFFERS - 1 && written == Zeros((BUFFERS - 1) * unit)
      ensures forall len: nat :: !started ==> !Admits(unit, len, count)
    {
      if started {
        Flush();
      }
      Silence();
      EnqueueAll();
      forall len: nat | !started
        ensures !Admits(unit, len, count)
      {
        FullRefuses(unit, len);
      }
    }
  }
}
