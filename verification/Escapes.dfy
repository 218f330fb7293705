/** Removal of emulation_prevention_three_byte: what ITU-T H.264 asks for, what the bit reader of bits.c
    does while it moves from byte to byte, and exactly when the two agree. */
module Escapes {

  // The standard.

  /** Section 7.3.1 of ITU-T H.264: rbsp_byte[] of a NAL unit's payload d, from byte i on. */
  function Rbsp(d: seq<bv8>, i: nat): seq<bv8>
    decreases |d| - i
  {
    if i >= |d| then []
    else if i + 2 < |d| && d[i] == 0 && d[i + 1] == 0 && d[i + 2] == 3 then
      [d[i], d[i + 1]] + Rbsp(d, i + 3)
    else
      [d[i]] + Rbsp(d, i + 1)
  }

  /** Byte p is an emulation_prevention_three_byte. */
  predicate EscapeAt(d: seq<bv8>, p: int) {
    2 <= p < |d| && d[p - 2] == 0 && d[p - 1] == 0 && d[p] == 3
  }

  /** The bytes from i on that are not escapes. */
  function Unescaped(d: seq<bv8>, i: nat): seq<bv8>
    decreases |d| - i
  {
    if i >= |d| then []
    else if EscapeAt(d, i) then Unescaped(d, i + 1)
    else [d[i]] + Unescaped(d, i + 1)
  }

  lemma {:induction false} RbspUnescapes(d: seq<bv8>, i: nat)
    requires !EscapeAt(d, i) && !EscapeAt(d, i + 1)
    ensures Rbsp(d, i) == Unescaped(d, i)
    decreases |d| - i
  {
    if i >= |d| {
    } else if i + 2 < |d| && d[i] == 0 && d[i + 1] == 0 && d[i + 2] == 3 {
      RbspUnescapes(d, i + 3);
      assert EscapeAt(d, i + 2);
      assert Unescaped(d, i + 2) == Unescaped(d, i + 3);
      assert [d[i]] + ([d[i + 1]] + Unescaped(d, i + 3)) == [d[i], d[i + 1]] + Unescaped(d, i + 3);
    } else {
      RbspUnescapes(d, i + 1);
    }
  }

  // The reader.

  /** An unsigned char counts on. */
  function Next(zeros: nat): (r: nat)
    ensures zeros < 0x100 ==> r == (zeros + 1) % 0x100
  {
    if zeros >= 0xFF then 0 else zeros + 1
  }

  /** What it shows after c counts. */
  function Shown(c: nat): (r: nat)
    ensures r < 0x100
  {
    if c == 0 then 0 else Next(Shown(c - 1))
  }

  lemma {:induction false} ShownIs(c: nat)
    ensures Shown(c) == c % 0x100
  {
    if c > 0 {
      ShownIs(c - 1);
    }
  }

  /** The bytes the reader visits from byte i on, where zeros is its zero_count and after says that it
      has just skipped a 03: the byte after that is visited without being looked at. */
  function Visited(d: seq<bv8>, i: nat, zeros: nat, after: bool): seq<bv8>
    decreases |d| - i
  {
    if i >= |d| then []
    else if after then [d[i]] + Visited(d, i + 1, 0, false)
    else if d[i] == 0 then [d[i]] + Visited(d, i + 1, Next(zeros), false)
    else if zeros == 2 && d[i] == 3 then Visited(d, i + 1, 0, true)
    else [d[i]] + Visited(d, i + 1, 0, false)
  }

  /** The number of zero bytes just before byte p. */
  function Run(d: seq<bv8>, p: nat): (r: nat)
    requires p <= |d|
    ensures r <= p
    ensures r < p ==> d[p - r - 1] != 0
    ensures forall i :: p - r <= i < p ==> d[i] == 0
  {
    if p > 0 && d[p - 1] == 0 then 1 + Run(d, p - 1) else 0
  }

  /** Those of them that the reader counts: all but the one that directly follows an escape. */
  function Counted(d: seq<bv8>, p: nat): nat
    requires p <= |d|
  {
    var r := Run(d, p);
    if r > 0 && EscapeAt(d, p - r - 1) then r - 1 else r
  }

  /** The reader recognises the escape at p: its counter is an unsigned char. */
  predicate Counts2(d: seq<bv8>, p: int) {
    EscapeAt(d, p) ==> Counted(d, p) % 0x100 == 2
  }

  ghost predicate Recognised(d: seq<bv8>, i: nat) {
    forall p :: i <= p ==> Counts2(d, p)
  }

  lemma RecognisedStep(d: seq<bv8>, i: nat)
    ensures Recognised(d, i) <==> Counts2(d, i) && Recognised(d, i + 1)
  {
  }

  /** What a zero byte, and any other byte, does to the count. */
  lemma CountedStep(d: seq<bv8>, p: nat)
    requires p < |d|
    ensures d[p] != 0 ==> Counted(d, p + 1) == 0
    ensures d[p] == 0 ==> Counted(d, p + 1) == if EscapeAt(d, p - 1) then 0 else Counted(d, p) + 1
  {
  }

  /** Two zeros counted, perhaps more than 0x100 after all, are two zeros there. */
  lemma TwoZeros(d: seq<bv8>, i: nat, c: nat)
    requires i < |d| && c <= Run(d, i) && Shown(c) == 2
    ensures 2 <= i && d[i - 2] == 0 && d[i - 1] == 0
  {
    assert Shown(1) == 1;
  }

  /** Whatever the counter missed, the reader never skips a byte that is not an escape. */
  lemma {:induction false} VisitedNoShorter(d: seq<bv8>, i: nat, zeros: nat, after: bool, c: nat)
    requires i <= |d| ==> c <= Run(d, i)
    requires zeros == Shown(c) && (after ==> i <= |d| && EscapeAt(d, i - 1))
    ensures |Visited(d, i, zeros, after)| >= |Unescaped(d, i)|
    decreases |d| - i
  {
    if i >= |d| {
    } else if after {
      VisitedNoShorter(d, i + 1, 0, false, 0);
    } else if d[i] == 0 {
      VisitedNoShorter(d, i + 1, Next(zeros), false, c + 1);
    } else if zeros == 2 && d[i] == 3 {
      TwoZeros(d, i, c);
      VisitedNoShorter(d, i + 1, 0, true, 0);
    } else {
      VisitedNoShorter(d, i + 1, 0, false, 0);
    }
  }

  /** The reader's state at byte i when it has recognised every escape before. */
  predicate InStep(d: seq<bv8>, i: nat, zeros: nat, after: bool)
    requires i <= |d|
  {
    zeros == Shown(Counted(d, i)) && after == EscapeAt(d, i - 1)
  }

  /** One step of a reader that has missed nothing so far and misses nothing here. */
  lemma VisitedStep(d: seq<bv8>, i: nat, zeros: nat, after: bool)
    requires i < |d| && InStep(d, i, zeros, after) && (EscapeAt(d, i) ==> zeros == 2)
    ensures var rest := Visited(d, i + 1, Shown(Counted(d, i + 1)), EscapeAt(d, i));
      Visited(d, i, zeros, after) == if EscapeAt(d, i) then rest else [d[i]] + rest
  {
    CountedStep(d, i);
    if !after && d[i] == 3 && zeros == 2 {
      TwoZeros(d, i, Counted(d, i));
    }
  }

  /** An escape it takes for data makes the result longer, whatever follows. */
  lemma VisitedMisses(d: seq<bv8>, i: nat, zeros: nat, after: bool)
    requires i < |d| && InStep(d, i, zeros, after) && EscapeAt(d, i) && zeros != 2
    ensures |Visited(d, i, zeros, after)| > |Unescaped(d, i)|
  {
    VisitedNoShorter(d, i + 1, 0, false, 0);
  }

  /** The reader's bytes from i on are the standard's exactly when it recognises every escape there. */
  lemma {:induction false} VisitedAgrees(d: seq<bv8>, i: nat, zeros: nat, after: bool)
    requires i <= |d| && InStep(d, i, zeros, after)
    ensures Visited(d, i, zeros, after) == Unescaped(d, i) <==> Recognised(d, i)
    decreases |d| - i
  {
    if i < |d| {
      RecognisedStep(d, i);
      ShownIs(Counted(d, i));
      if Counts2(d, i) {
        VisitedAgrees(d, i + 1, Shown(Counted(d, i + 1)), EscapeAt(d, i));
        VisitedStep(d, i, zeros, after);
        var rest := Visited(d, i + 1, Shown(Counted(d, i + 1)), EscapeAt(d, i));
        assert ([d[i]] + rest)[1..] == rest && ([d[i]] + Unescaped(d, i + 1))[1..] == Unescaped(d, i + 1);
      } else {
        VisitedMisses(d, i, zeros, after);
      }
    }
  }

  /** The reader's bytes are the standard's exactly when it recognises every escape. */
  lemma VisitedIsRbspIff(d: seq<bv8>)
    ensures Visited(d, 0, 0, false) == Rbsp(d, 0) <==> Recognised(d, 0)
  {
    VisitedAgrees(d, 0, 0, false);
    RbspUnescapes(d, 0);
  }

  /** Section 7.4.1: no 00 00 00 within a NAL unit. */
  ghost predicate Conforming(d: seq<bv8>) {
    forall p :: !ZerosAt(d, p)
  }

  predicate ZerosAt(d: seq<bv8>, p: int) {
    2 <= p < |d| && d[p - 2] == 0 && d[p - 1] == 0 && d[p] == 0
  }

  /** 00 00 03 00 00 03 ends at p. */
  predicate PairAt(d: seq<bv8>, p: int) {
    EscapeAt(d, p) && EscapeAt(d, p - 3)
  }

  /** On conforming data the reader is right exactly when 00 00 03 00 00 03 does not occur. */
  lemma ConformingIsRbspIff(d: seq<bv8>)
    requires Conforming(d)
    ensures Visited(d, 0, 0, false) == Rbsp(d, 0) <==> forall p :: 0 <= p ==> !PairAt(d, p)
  {
    VisitedIsRbspIff(d);
    forall p | 0 <= p
      ensures Counts2(d, p) == !PairAt(d, p)
    {
      if EscapeAt(d, p) {
        assert Run(d, p) == 1 + Run(d, p - 1) == 2 + Run(d, p - 2);
        assert !ZerosAt(d, p - 1);
      }
    }
  }

  lemma ConformingRecognisedIff(d: seq<bv8>)
    requires Conforming(d)
    ensures Recognised(d, 0) <==> forall p :: 0 <= p ==> !PairAt(d, p)
  {
    VisitedIsRbspIff(d);
    ConformingIsRbspIff(d);
  }

  /** It does occur in conforming data: two zero bytes, escaped twice over. */
  lemma OverlapIsMissed()
    ensures var d: seq<bv8> := [0, 0, 3, 0, 0, 3, 1];
      Conforming(d) && Visited(d, 0, 0, false) != Rbsp(d, 0)
  {
  }

  /** What follows in memory does not change the bytes the reader has visited before. */
  lemma {:induction false} VisitedPrefix(d: seq<bv8>, more: seq<bv8>, i: nat, zeros: nat, after: bool)
    ensures Visited(d, i, zeros, after) <= Visited(d + more, i, zeros, after)
    decreases |d| - i
  {
    if i >= |d| {
    } else if after {
      VisitedPrefix(d, more, i + 1, 0, false);
    } else if d[i] == 0 {
      VisitedPrefix(d, more, i + 1, Next(zeros), false);
    } else if zeros == 2 && d[i] == 3 {
      VisitedPrefix(d, more, i + 1, 0, true);
    } else {
      VisitedPrefix(d, more, i + 1, 0, false);
    }
  }
}
