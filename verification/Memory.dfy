/** The C memory and integer idioms the modelled files share: bytes, memcpy, and 32-bit unsigned and
    signed arithmetic. */
module Memory {

  newtype uint8 = x: int | 0 <= x < 0x100

  const INT_MAX := 0x7FFF_FFFF

  function Min(a: int, b: int): int {
    if a < b then a else b
  }

  function Max(a: int, b: int): int {
    if a < b then b else a
  }

  /** The value of an `unsigned int` expression whose mathematical value is x. */
  function U32(x: int): (r: int)
    ensures 0 <= r < 0x1_0000_0000
    ensures 0 <= x < 0x1_0000_0000 ==> r == x
    ensures -0x1_0000_0000 <= x < 0 ==> r == x + 0x1_0000_0000
    ensures 0x1_0000_0000 <= x < 0x2_0000_0000 ==> r == x - 0x1_0000_0000
    decreases if x < 0 then 0x1_0000_0000 - x else x
  {
    if x < 0 then U32(x + 0x1_0000_0000)
    else if x >= 0x1_0000_0000 then U32(x - 0x1_0000_0000)
    else x
  }

  /** The value of that expression once it is converted to `int`. */
  function S32(x: int): (r: int)
    ensures -0x8000_0000 <= x < 0x8000_0000 ==> r == x
  {
    if U32(x) < 0x8000_0000 then U32(x) else U32(x) - 0x1_0000_0000
  }

  /** What memcpy leaves in mem: src stored from index at on, every other element untouched. */
  function Blit<T>(mem: seq<T>, at: int, src: seq<T>): (r: seq<T>)
    requires 0 <= at && at + |src| <= |mem|
    ensures |r| == |mem|
    ensures forall i :: 0 <= i < |mem| ==> r[i] == if at <= i < at + |src| then src[i - at] else mem[i]
  {
    mem[..at] + src + mem[at + |src|..]
  }

  /** Storing the parts one after the other stores the whole. */
  lemma BlitJoin<T>(mem: seq<T>, at: nat, a: seq<T>, b: seq<T>)
    requires at + |a| + |b| <= |mem|
    ensures Blit(Blit(mem, at, a), at + |a|, b) == Blit(mem, at, a + b)
  {
  }

  method Memcpy<T>(dst: array<T>, at: int, src: seq<T>)
    requires 0 <= at && at + |src| <= dst.Length
    modifies dst
    ensures dst[..] == Blit(old(dst[..]), at, src)
  {
    for i := 0 to |src|
      invariant dst[..] == Blit(old(dst[..]), at, src[..i])
    {
      dst[at + i] := src[i];
    }
    assert src[..|src|] == src;
  }
}
