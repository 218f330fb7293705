/** Streams of bits as the reader of bits.c takes them from memory: its masks, the bytes it delivers, where
    it is, and the numbers it makes. */
module BitStreams {
  import opened Escapes

  /** The mask of the k-th bit of a byte, counted from the most significant one; 0 when k is 8. */
  function Mask(k: nat): bv8 {
    if k == 0 then 0x80 else Mask(k - 1) / 2
  }

  lemma Masks()
    ensures Mask(0) == 0x80 && Mask(1) == 0x40 && Mask(2) == 0x20 && Mask(3) == 0x10
    ensures Mask(4) == 8 && Mask(5) == 4 && Mask(6) == 2 && Mask(7) == 1 && Mask(8) == 0
  {
  }

  lemma LastMask(k: nat)
    requires k < 8
    ensures (Mask(k) / 2 == 0) == (k == 7) && (Mask(k) == 0x80) == (k == 0)
  {
  }

  /** Bit k of a byte: the top one after k shifts to the left. */
  predicate BitOf(b: bv8, k: nat)
    decreases k
  {
    if k == 0 then b >= 0x80 else BitOf(b << 1, k - 1)
  }

  /** The bit reader's test of it. */
  lemma {:induction false} MaskSelects(b: bv8, k: nat)
    requires k < 8
    ensures BitOf(b, k) == (b & Mask(k) != 0)
    decreases k
  {
    Masks();
    if k > 0 {
      MaskSelects(b << 1, k - 1);
    }
  }

  /** Bit i of a stream of bytes. */
  predicate BitAt(bytes: seq<bv8>, i: nat)
    requires i < 8 * |bytes|
  {
    BitOf(bytes[i / 8], i % 8)
  }

  /** The number that bits spell, most significant first. */
  function Value(bits: seq<bool>): nat {
    if bits == [] then 0 else 2 * Value(bits[..|bits| - 1]) + (if bits[|bits| - 1] then 1 else 0)
  }

  function BitsOf(bytes: seq<bv8>, i: nat, n: nat): (r: seq<bool>)
    requires i + n <= 8 * |bytes|
    ensures |r| == n
  {
    seq(n, j requires 0 <= j < n => BitAt(bytes, i + j))
  }

  /** What the reader still delivers when it is at byte pos. */
  function Ahead(h264: bool, d: seq<bv8>, pos: nat, zeros: nat): seq<bv8> {
    if pos >= |d| then []
    else if h264 then [d[pos]] + Visited(d, pos + 1, zeros, false)
    else d[pos..]
  }

  /** All it delivers. */
  function Delivered(h264: bool, d: seq<bv8>): (r: seq<bv8>)
  {
    if h264 then Visited(d, 0, 0, false) else d
  }

  /** The reader has delivered n bytes and is at byte pos. */
  ghost predicate At(h264: bool, d: seq<bv8>, n: nat, pos: nat, zeros: nat) {
    && zeros < 0x100 && (!h264 ==> n == pos) && n <= |Delivered(h264, d)|
    && Delivered(h264, d)[n..] == Ahead(h264, d, pos, zeros)
  }

  lemma AtStart(d: seq<bv8>)
    requires |d| > 0
    ensures At(true, d, 0, 0, if d[0] == 0 then 1 else 0)
  {
  }

  lemma PlainAt(d: seq<bv8>, pos: nat, zeros: nat)
    requires pos <= |d| && zeros < 0x100
    ensures At(false, d, pos, pos, zeros)
  {
  }

  lemma BitHere(d: seq<bv8>, pos: nat, k: nat)
    requires pos < |d| && k < 8
    ensures BitAt(d, 8 * pos + k) == BitOf(d[pos], k)
  {
    var i := 8 * pos + k;
    assert i / 8 == pos && i % 8 == k;
  }

  lemma ByteHere(h264: bool, d: seq<bv8>, n: nat, pos: nat, zeros: nat, k: nat)
    requires At(h264, d, n, pos, zeros) && k < 8
    ensures 8 * n + k < 8 * |Delivered(h264, d)| <==> pos < |d|
    ensures pos < |d| ==> BitAt(Delivered(h264, d), 8 * n + k) == BitOf(d[pos], k)
    ensures pos < |d| && n + 1 < |Delivered(h264, d)| ==> pos + 1 < |d|
  {
    if pos < |d| {
      assert Delivered(h264, d)[n..][0] == d[pos];
      BitHere(Delivered(h264, d), n, k);
    }
  }

  // Going on to the next byte: where BITS_get1 goes and what its zero_count becomes.

  function NextPos(h264: bool, d: seq<bv8>, pos: nat, zeros: nat): nat
    requires h264 ==> pos + 1 < |d|
  {
    if h264 && zeros == 2 && d[pos + 1] == 3 then pos + 2 else pos + 1
  }

  function NextZeros(h264: bool, d: seq<bv8>, pos: nat, zeros: nat): nat
    requires h264 ==> pos + 1 < |d|
  {
    if !h264 then zeros else if d[pos + 1] == 0 then Next(zeros) else 0
  }

  lemma VisitedNext(d: seq<bv8>, pos: nat, zeros: nat)
    requires pos + 1 < |d|
    ensures Visited(d, pos + 1, zeros, false) == Ahead(true, d, NextPos(true, d, pos, zeros), NextZeros(true, d, pos, zeros))
  {
  }

  lemma NextByte(h264: bool, d: seq<bv8>, n: nat, pos: nat, zeros: nat)
    requires At(h264, d, n, pos, zeros) && pos < |d| && (h264 ==> pos + 1 < |d|)
    ensures At(h264, d, n + 1, NextPos(h264, d, pos, zeros), NextZeros(h264, d, pos, zeros))
  {
    if h264 {
      VisitedNext(d, pos, zeros);
    }
    assert Delivered(h264, d)[n + 1..] == Delivered(h264, d)[n..][1..];
  }

  // In h264 mode the reader looks at the next byte before it is done with one, so that it can finish only
  // the bytes it would also deliver from memory that is one byte shorter.

  /** How many bytes can be finished. */
  ghost function Finishable(h264: bool, d: seq<bv8>): nat {
    if h264 && d != [] then |Visited(d[..|d| - 1], 0, 0, false)| else |Delivered(h264, d)|
  }

  /** At, also with regard to the shorter memory. */
  ghost predicate AtOf(h264: bool, d: seq<bv8>, n: nat, pos: nat, zeros: nat) {
    && At(h264, d, n, pos, zeros)
    && (h264 && d != [] && n <= Finishable(h264, d) ==> At(true, d[..|d| - 1], n, pos, zeros))
  }

  lemma AtOfStart(d: seq<bv8>)
    requires |d| > 0
    ensures AtOf(true, d, 0, 0, if d[0] == 0 then 1 else 0)
  {
    AtStart(d);
    if |d| > 1 {
      AtStart(d[..|d| - 1]);
    }
  }

  /** A byte that can be finished has a byte after it. */
  lemma FinishableBound(d: seq<bv8>, n: nat, pos: nat, zeros: nat)
    requires AtOf(true, d, n, pos, zeros) && d != [] && n < Finishable(true, d)
    ensures pos + 1 < |d|
  {
    ByteHere(true, d[..|d| - 1], n, pos, zeros, 0);
  }

  lemma NextByteInner(d: seq<bv8>, m: nat, n: nat, pos: nat, zeros: nat)
    requires m < |d| && At(true, d[..m], n, pos, zeros) && pos < m
    ensures At(true, d[..m], n + 1, NextPos(true, d, pos, zeros), NextZeros(true, d, pos, zeros))
  {
    if pos + 1 < m {
      NextByte(true, d[..m], n, pos, zeros);
    } else {
      assert Delivered(true, d[..m])[n + 1..] == Delivered(true, d[..m])[n..][1..];
    }
  }

  lemma NextAtOf(h264: bool, d: seq<bv8>, n: nat, pos: nat, zeros: nat)
    requires AtOf(h264, d, n, pos, zeros) && pos < |d| && (h264 ==> pos + 1 < |d|)
    ensures AtOf(h264, d, n + 1, NextPos(h264, d, pos, zeros), NextZeros(h264, d, pos, zeros))
  {
    NextByte(h264, d, n, pos, zeros);
    if h264 && n + 1 <= Finishable(h264, d) {
      ByteHere(true, d[..|d| - 1], n, pos, zeros, 0);
      NextByteInner(d, |d| - 1, n, pos, zeros);
    }
  }

  /** Setting one bit of a byte. */
  function Set(b: bv8, k: nat, v: bool): bv8 {
    if v then (b & !Mask(k)) | Mask(k) else b & !Mask(k)
  }

  lemma SetMask(b: bv8, k: nat, j: nat, v: bool)
    requires j < 8 && k < 8
    ensures (Set(b, k, v) & Mask(j) != 0) == if j == k then v else b & Mask(j) != 0
  {
    Masks();
  }

  lemma SetBit(b: bv8, k: nat, j: nat, v: bool)
    requires j < 8 && k < 8
    ensures BitOf(Set(b, k, v), j) == if j == k then v else BitOf(b, j)
  {
    SetMask(b, k, j, v);
    MaskSelects(b, j);
    MaskSelects(Set(b, k, v), j);
  }

  lemma PokeIsSet(d: seq<bv8>, p: nat, k: nat, v: bool, byte: bv8, i: nat)
    requires p < |d| && k < 8 && i < 8 * |d|
    requires forall j: nat :: j < 8 ==> BitOf(byte, j) == if j == k then v else BitOf(d[p], j)
    ensures BitAt(d[p := byte], i) == if i == 8 * p + k then v else BitAt(d, i)
  {
    assert i == 8 * p + k <==> i / 8 == p && i % 8 == k;
  }

  // The same in an unsigned int.

  function Shift(b: nat, bit: bool): nat {
    (2 * b + if bit then 1 else 0) % 0x1_0000_0000
  }

  function Shifted(bits: seq<bool>): nat {
    if bits == [] then 0 else Shift(Shifted(bits[..|bits| - 1]), bits[|bits| - 1])
  }

  lemma {:induction false} ShiftedValue(bits: seq<bool>)
    ensures Shifted(bits) == Value(bits) % 0x1_0000_0000
  {
    if bits != [] {
      ShiftedValue(bits[..|bits| - 1]);
      ShiftIn(Value(bits[..|bits| - 1]), if bits[|bits| - 1] then 1 else 0);
    }
  }

  // What the number is: bit i of it, counted from the least significant one, is the i-th last bit.

  predicate NumBit(v: nat, i: nat)
    decreases i
  {
    if i == 0 then v % 2 == 1 else NumBit(v / 2, i - 1)
  }

  lemma ValueHalves(bits: seq<bool>)
    requires bits != []
    ensures Value(bits) / 2 == Value(bits[..|bits| - 1]) && (Value(bits) % 2 == 1) == bits[|bits| - 1]
  {
  }

  lemma {:induction false} ValueBit(bits: seq<bool>, i: nat)
    requires i < |bits|
    ensures NumBit(Value(bits), i) == bits[|bits| - 1 - i]
    decreases i
  {
    ValueHalves(bits);
    if i > 0 {
      ValueBit(bits[..|bits| - 1], i - 1);
    }
  }

  function Pow2(n: nat): (r: nat)
    ensures r > 0
  {
    if n == 0 then 1 else 2 * Pow2(n - 1)
  }

  /** and it has no others. */
  lemma {:induction false} ValueBound(bits: seq<bool>)
    ensures Value(bits) < Pow2(|bits|)
  {
    if bits != [] {
      ValueBound(bits[..|bits| - 1]);
    }
  }

  lemma Near(p: int, d: int)
    requires 0 < p && -p < p * d < p
    ensures d == 0
  {
  }

  lemma SameQuotient(p: nat, q: nat, r: nat, k: nat, s: nat)
    requires p * q + r == p * k + s && r < p && s < p
    ensures r == s
  {
    assert p * (q - k) == s - r;
    Near(p, q - k);
  }

  lemma ModOf(x: nat, p: nat, q: nat, r: nat)
    requires x == p * q + r && r < p
    ensures x % p == r
  {
    SameQuotient(p, q, r, x / p, x % p);
  }

  lemma HalveParts(v: nat, w: nat, r: nat)
    requires v == 2 * w + r
    ensures v / 2 == w + r / 2 && v % 2 == r % 2
  {
  }

  lemma Divide(v: nat, d: nat) returns (q: nat, r: nat)
    requires d > 0
    ensures v == d * q + r && r < d && r == v % d
  {
    q, r := v / d, v % d;
  }

  lemma Twice(p: nat, q: nat)
    ensures 2 * p * q == 2 * (p * q)
  {
  }

  lemma HalveMod(v: nat, p: nat)
    requires p > 0
    ensures v % (2 * p) / 2 == v / 2 % p && v % (2 * p) % 2 == v % 2
  {
    var q, r := Divide(v, 2 * p);
    Twice(p, q);
    HalveParts(v, p * q, r);
    ModOf(v / 2, p, q, r / 2);
  }

  /** An unsigned int of n bits keeps the n lowest ones. */
  lemma {:induction false} LowBits(v: nat, n: nat, i: nat)
    requires i < n
    ensures NumBit(v % Pow2(n), i) == NumBit(v, i)
    decreases i
  {
    HalveMod(v, Pow2(n - 1));
    if i > 0 {
      LowBits(v / 2, n - 1, i - 1);
    }
  }

  lemma Pow2Is32()
    ensures Pow2(32) == 0x1_0000_0000
  {
    assert Pow2(8) == 0x100 by {
      assert Pow2(4) == 0x10;
    }
    assert Pow2(16) == 0x1_0000 by {
      assert Pow2(12) == 0x1000;
    }
    assert Pow2(24) == 0x100_0000 by {
      assert Pow2(20) == 0x10_0000;
    }
    assert Pow2(28) == 0x1000_0000;
  }

  /** The unsigned int that bits spell. */
  ghost predicate Spells(b: nat, bits: seq<bool>) {
    && b < 0x1_0000_0000
    && (forall i: nat :: i < |bits| && i < 32 ==> NumBit(b, i) == bits[|bits| - 1 - i])
    && (|bits| <= 32 ==> b < Pow2(|bits|))
  }

  lemma {:induction false} Pow2Grows(m: nat, n: nat)
    requires m <= n
    ensures Pow2(m) <= Pow2(n)
  {
    if m < n {
      Pow2Grows(m, n - 1);
    }
  }

  lemma ValueSpells(bits: seq<bool>)
    ensures Spells(Value(bits) % 0x1_0000_0000, bits)
    ensures |bits| <= 32 ==> Value(bits) % 0x1_0000_0000 == Value(bits)
  {
    Pow2Is32();
    ValueBound(bits);
    if |bits| <= 32 {
      Pow2Grows(|bits|, 32);
    }
    forall i: nat | i < |bits| && i < 32
      ensures NumBit(Value(bits) % 0x1_0000_0000, i) == bits[|bits| - 1 - i]
    {
      ValueBit(bits, i);
      LowBits(Value(bits), 32, i);
    }
  }

  lemma ShiftedStep(bytes: seq<bv8>, i: nat, n: nat)
    requires i + n < 8 * |bytes|
    ensures Shifted(BitsOf(bytes, i, n + 1)) == Shift(Shifted(BitsOf(bytes, i, n)), BitAt(bytes, i + n))
  {
    assert BitsOf(bytes, i, n + 1)[..n] == BitsOf(bytes, i, n);
  }

  ghost predicate SetAt(d: seq<bv8>, d': seq<bv8>, at: nat, v: bool) {
    && |d'| == |d|
    && forall i: nat :: i < 8 * |d| ==> BitAt(d', i) == if i == at then v else BitAt(d, i)
  }

  /** A poke sets one bit, and a plain reader there has lost nothing. */
  lemma PokeSets(d: seq<bv8>, p: nat, k: nat, v: bool, byte: bv8, zeros: nat)
    requires p < |d| && k < 8
    requires forall j: nat :: j < 8 ==> BitOf(byte, j) == if j == k then v else BitOf(d[p], j)
    ensures SetAt(d, d[p := byte], 8 * p + k, v)
    ensures AtOf(false, d, p, p, zeros) ==> AtOf(false, d[p := byte], p, p, zeros)
  {
    forall i: nat | i < 8 * |d|
      ensures BitAt(d[p := byte], i) == if i == 8 * p + k then v else BitAt(d, i)
    {
      PokeIsSet(d, p, k, v, byte, i);
    }
  }

  // How many bits BITS_skip takes one at a time before the whole bytes, from bit k.

  function Lead(k: nat, count: nat): nat
    requires k < 8
  {
    if k == 0 then 0 else if count < 8 - k then count else 8 - k
  }

  predicate Led(k0: nat, k: nat, n: int) {
    if k0 == 0 then k == 0 && n == 0
    else if k == 0 then n == 8 - k0
    else k == k0 + n
  }

  /** How far the index of BITS_skip falls behind: it counts any number of whole bytes as one. */
  function IndexLag(k: nat, count: nat): nat
    requires k < 8
  {
    var bytes := (count - Lead(k, count)) / 8;
    if bytes > 0 then 8 * (bytes - 1) else 0
  }

  /** The bits before the next byte boundary, or all of them if they do not reach it. */
  lemma LeadIs(k: nat, count: nat)
    requires k < 8
    ensures Lead(k, count) <= count && Lead(k, count) < 8
    ensures Lead(k, count) == count || (k + Lead(k, count)) % 8 == 0
  {
  }

  /** What the index counts of a skip: the bits before the boundary, 8 if there is any whole byte, the bits
      after the last. */
  lemma IndexLagIs(k: nat, count: nat)
    requires k < 8
    ensures var rest := count - Lead(k, count);
      count - IndexLag(k, count) == Lead(k, count) + (if rest >= 8 then 8 else 0) + rest % 8
  {
  }

  lemma IndexRightIff(k: nat, count: nat)
    requires k < 8
    ensures IndexLag(k, count) == 0 <==> count < Lead(k, count) + 16
  {
  }

  lemma LedAll(k0: nat, k: nat, count: nat, rest: nat)
    requires k0 < 8 && k < 8 && rest <= count && Led(k0, k, count - rest) && (rest == 0 || k == 0)
    ensures rest == count - Lead(k0, count)
  {
  }

  lemma ShiftIn(v: nat, bit: nat)
    ensures (2 * (v % 0x1_0000_0000) + bit) % 0x1_0000_0000 == (2 * v + bit) % 0x1_0000_0000
  {
  }

  // A NAL unit in memory.

  /** The NAL unit d followed by at least one byte: what is delivered begins with what the standard asks
      for, and all of that can be finished, if the reader recognises every escape of d. */
  lemma NalDelivered(d: seq<bv8>, more: seq<bv8>)
    requires more != [] && Recognised(d, 0)
    ensures Rbsp(d, 0) <= Delivered(true, d + more)
    ensures |Rbsp(d, 0)| <= Finishable(true, d + more)
  {
    VisitedIsRbspIff(d);
    VisitedPrefix(d, more, 0, 0, false);
    VisitedPrefix(d, more[..|more| - 1], 0, 0, false);
    assert (d + more)[..|d + more| - 1] == d + more[..|more| - 1];
  }

  lemma BitAtPrefix(bytes: seq<bv8>, all: seq<bv8>, i: nat)
    requires bytes <= all && i < 8 * |bytes|
    ensures BitAt(bytes, i) == BitAt(all, i)
  {
    assert all[..|bytes|] == bytes;
  }

  lemma BitsOfPrefix(bytes: seq<bv8>, all: seq<bv8>, i: nat, n: nat)
    requires bytes <= all && i + n <= 8 * |bytes|
    ensures BitsOf(bytes, i, n) == BitsOf(all, i, n)
  {
    forall j | 0 <= j < n
      ensures BitsOf(bytes, i, n)[j] == BitsOf(all, i, n)[j]
    {
      BitAtPrefix(bytes, all, i + j);
      assert BitsOf(bytes, i, n)[j] == BitAt(bytes, i + j) && BitsOf(all, i, n)[j] == BitAt(all, i + j);
    }
  }
}
