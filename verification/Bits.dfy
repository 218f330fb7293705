/** The bit reader of bits.c. */
module Bits {
  import opened BitStreams
  import opened Escapes

  // The expressions on bytes and masks.

  /** byte & mask */
  method TestMask(b: bv8, mask: bv8, ghost k: nat) returns (r: bool)
    requires k < 8 && mask == Mask(k)
    ensures r == BitOf(b, k)
  {
    MaskSelects(b, k);
    r := b & mask != 0;
  }

  /** mask / 2 */
  method HalveMask(mask: bv8, ghost k: nat) returns (r: bv8)
    requires k < 8 && mask == Mask(k)
    ensures r == Mask(k + 1) && (r == 0 <==> k == 7)
  {
    LastMask(k);
    r := mask / 2;
  }

  /** byte & ~mask, then | mask if the bit is to be set */
  method PutMask(b: bv8, mask: bv8, v: bool, ghost k: nat) returns (r: bv8)
    requires k < 8 && mask == Mask(k)
    ensures forall j: nat :: j < 8 ==> BitOf(r, j) == if j == k then v else BitOf(b, j)
  {
    r := b & !mask;
    if v {
      r := r | mask;
    }
    assert r == Set(b, k, v);
    forall j: nat | j < 8
      ensures BitOf(r, j) == if j == k then v else BitOf(b, j)
    {
      SetBit(b, k, j, v);
    }
  }

  class BITS {
    const data: array<bv8>
    var pos: nat      // byte - start
    var bit: bv8
    var index: int
    var h264: bool
    var zeroCount: nat
    ghost var k: nat          // the bit that the mask `bit` selects
    ghost var done: nat       // how many bytes have been read whole

    ghost predicate Valid()
      reads this
    {
      k < 8 && bit == Mask(k)
    }

    /** The reader is at bit k of a byte of what it has to deliver. */
    ghost predicate Reading()
      reads this, data
    {
      Valid() && AtOf(h264, data[..], done, pos, zeroCount)
    }

    ghost function All(): seq<bv8>
      reads this, data
    {
      Delivered(h264, data[..])
    }

    /** How many bits have been read. */
    ghost function BitsRead(): nat
      reads this
    {
      8 * done + k
    }

    /** Where it is in memory. */
    ghost function Cursor(): nat
      reads this
    {
      8 * pos + k
    }

    /** BITS_init. */
    constructor Init(data: array<bv8>)
      ensures Reading() && !h264 && BitsRead() == 0 && Cursor() == 0 && index == 0 && this.data == data
    {
      this.data := data;
      pos, bit, index, h264, zeroCount := 0, 0x80, 0, false, 0;
      k, done := 0, 0;
    }

    /** BITS_init_h264, which reads the first byte. */
    constructor InitH264(data: array<bv8>)
      requires data.Length > 0
      ensures Reading() && h264 && BitsRead() == 0 && Cursor() == 0 && index == 0 && this.data == data
    {
      this.data := data;
      pos, bit, index, h264 := 0, 0x80, 0, true;
      zeroCount := if data[0] == 0 then 1 else 0;
      k, done := 0, 0;
      new;
      AtOfStart(data[..]);
    }

    /** The part of BITS_get1 that goes on to the next byte. */
    method StepByte()
      requires AtOf(h264, data[..], done, pos, zeroCount) && pos < data.Length && (h264 ==> pos + 1 < data.Length)
      modifies this`pos, this`zeroCount, this`done
      ensures AtOf(h264, data[..], done, pos, zeroCount) && done == old(done) + 1
      ensures !h264 ==> pos == old(pos) + 1
    {
      NextAtOf(h264, data[..], done, pos, zeroCount);
      done := done + 1;
      pos := pos + 1;
      if h264 {
        if data[pos] == 0 {
          zeroCount := Next(zeroCount);
        } else {
          if zeroCount == 2 && data[pos] == 3 {
            pos := pos + 1;
          }
          zeroCount := 0;
        }
      }
    }

    /** The part of BITS_get1 after its test: one bit on, in the same byte or the next. */
    method Advance()
      requires Reading() && pos < data.Length && (h264 && k == 7 ==> pos + 1 < data.Length)
      modifies this`pos, this`bit, this`index, this`zeroCount, this`k, this`done
      ensures Reading() && BitsRead() == old(BitsRead()) + 1 && index == old(index) + 1
      ensures !h264 ==> Cursor() == old(Cursor()) + 1
    {
      bit := HalveMask(bit, k);
      index := index + 1;
      if bit == 0 {
        bit := 0x80;
        StepByte();
        k := 0;
      } else {
        k := k + 1;
      }
    }

    /** BITS_get1. In h264 mode the last bit of a byte makes it look at the next one. */
    method Get1() returns (b: bool)
      requires Reading() && pos < data.Length && (h264 && k == 7 ==> pos + 1 < data.Length)
      modifies this`pos, this`bit, this`index, this`zeroCount, this`k, this`done
      ensures Reading() && BitsRead() == old(BitsRead()) + 1 && index == old(index) + 1
      ensures old(BitsRead()) < 8 * |All()| && b == BitAt(All(), old(BitsRead()))
      ensures !h264 ==> Cursor() == old(Cursor()) + 1
    {
      ByteHere(h264, data[..], done, pos, zeroCount, k);
      b := TestMask(data[pos], bit, k);
      Advance();
    }

    /** The loop of BITS_get. Each byte read to its end must be followed by one in h264 mode. */
    method GetBits(count: nat) returns (b: nat)
      requires Reading() && BitsRead() + count <= 8 * |All()|
      requires (BitsRead() + count) / 8 <= Finishable(h264, data[..])
      modifies this`pos, this`bit, this`index, this`zeroCount, this`k, this`done
      ensures Reading() && BitsRead() == old(BitsRead()) + count
      ensures b == Shifted(BitsOf(All(), old(BitsRead()), count))
      ensures !h264 ==> Cursor() == old(Cursor()) + count
    {
      b := 0;
      ghost var i, all := BitsRead(), All();
      for n := 0 to count
        invariant Reading() && BitsRead() == i + n && All() == all
        invariant b == Shifted(BitsOf(all, i, n))
        invariant !h264 ==> Cursor() == old(Cursor()) + n
      {
        ShiftedStep(all, i, n);
        var bit1 := NextBit(i, n, count);
        b := Shift(b, bit1);
      }
    }

    /** BITS_get: the next count bits, as a 32-bit number. */
    method Get(count: nat) returns (b: nat)
      requires Reading() && BitsRead() + count <= 8 * |All()|
      requires (BitsRead() + count) / 8 <= Finishable(h264, data[..])
      modifies this`pos, this`bit, this`index, this`zeroCount, this`k, this`done
      ensures Reading() && BitsRead() == old(BitsRead()) + count
      ensures b == Value(BitsOf(All(), old(BitsRead()), count)) % 0x1_0000_0000
      ensures Spells(b, BitsOf(All(), old(BitsRead()), count))
      ensures !h264 ==> Cursor() == old(Cursor()) + count
    {
      ghost var bits := BitsOf(All(), BitsRead(), count);
      b := GetBits(count);
      ShiftedValue(bits);
      ValueSpells(bits);
    }

    /** One pass of BITS_get's loop. */
    method NextBit(ghost i: nat, ghost n: nat, ghost count: nat) returns (b: bool)
      requires Reading() && BitsRead() == i + n && n < count && i + count <= 8 * |All()|
      requires (i + count) / 8 <= Finishable(h264, data[..])
      modifies this`pos, this`bit, this`index, this`zeroCount, this`k, this`done
      ensures Reading() && BitsRead() == i + n + 1 && b == BitAt(All(), i + n)
      ensures !h264 ==> Cursor() == old(Cursor()) + 1
    {
      ByteHere(h264, data[..], done, pos, zeroCount, k);
      if h264 && k == 7 {
        assert done < (i + count) / 8;
        FinishableBound(data[..], done, pos, zeroCount);
      }
      b := Get1();
    }

    /** BITS_skip moves over one bit; unlike BITS_get1 it does not look at the next byte. */
    method SkipBit()
      requires Valid()
      modifies this`pos, this`bit, this`index, this`k
      ensures Valid() && Cursor() == old(Cursor()) + 1 && index == old(index) + 1
      ensures k == if old(k) == 7 then 0 else old(k) + 1
    {
      bit := HalveMask(bit, k);
      index := index + 1;
      k := k + 1;
      if bit == 0 {
        pos := pos + 1;
        bit := 0x80;
        k := 0;
      }
    }

    /** Its last loop. */
    method SkipBits(count: nat)
      requires Valid()
      modifies this`pos, this`bit, this`index, this`k
      ensures Valid() && Cursor() == old(Cursor()) + count && index == old(index) + count
    {
      var rest := count;
      while rest > 0
        invariant Valid() && 0 <= rest <= count
        invariant Cursor() == old(Cursor()) + count - rest && index == old(index) + count - rest
      {
        SkipBit();
        rest := rest - 1;
      }
    }

    /** The first loop of BITS_skip: to the next whole byte. */
    method SkipLead(count: nat) returns (rest: nat)
      requires Valid()
      modifies this`pos, this`bit, this`index, this`k
      ensures Valid() && rest == count - Lead(old(k), count) && (rest == 0 || k == 0)
      ensures Cursor() == old(Cursor()) + count - rest && index == old(index) + count - rest
    {
      rest := count;
      LastMask(k);
      while rest > 0 && bit != 0x80
        invariant Valid() && rest <= count && Cursor() == old(Cursor()) + count - rest
        invariant index == old(index) + count - rest
        invariant Led(old(k), k, count - rest)
        invariant (bit == 0x80) == (k == 0)
      {
        SkipBit();
        rest := rest - 1;
        LastMask(k);
      }
      LedAll(old(k), k, count, rest);
    }

    /** BITS_skip: in plain mode it leaves the reader where as many BITS_get1 do. The index goes wrong
        when more than one whole byte is skipped. */
    method Skip(count: nat)
      requires Valid()
      modifies this`pos, this`bit, this`index, this`k, this`done
      ensures Valid() && Cursor() == old(Cursor()) + count
      ensures index == old(index) + count - IndexLag(old(k), count)
      ensures old(Reading()) && !h264 && pos <= data.Length ==> Reading() && BitsRead() == old(BitsRead()) + count
    {
      var rest := SkipLead(count);
      if rest >= 8 {
        pos := pos + rest / 8;
        rest := rest - rest / 8 * 8;
        index := index + 8;
      }
      SkipBits(rest);
      if !h264 && zeroCount < 0x100 && pos <= data.Length {
        PlainAt(data[..], pos, zeroCount);
      }
      done := if h264 then done else pos;
    }

    /** BITS_peek1: the bit that BITS_get1 would read. */
    method Peek1() returns (b: bool)
      requires Reading() && pos < data.Length
      ensures BitsRead() < 8 * |All()| && b == BitAt(All(), BitsRead())
    {
      ByteHere(h264, data[..], done, pos, zeroCount, k);
      b := TestMask(data[pos], bit, k);
    }

    /** BITS_poke1 sets the bit at the cursor and no other, and a plain reader reads it next. */
    method Poke1(v: bool)
      requires Valid() && pos < data.Length
      modifies data
      ensures SetAt(old(data[..]), data[..], Cursor(), v)
      ensures old(Reading()) && !h264 ==> Reading() && BitsRead() == old(BitsRead())
    {
      ghost var d := data[..];
      var byte := PutMask(data[pos], bit, v, k);
      PokeSets(d, pos, k, v, byte, zeroCount);
      data[pos] := byte;
      assert data[..] == d[pos := byte];
    }
  }

  /** A NAL unit d that is followed in memory by at least one byte, whatever it is, and of which the reader
      recognises every escape; for conforming data see ConformingRecognisedIff. Whatever is read before, the
      next count bits are those of the standard's RBSP, up to and with its last bit. */
  method GetFromNal(bits: BITS, ghost d: seq<bv8>, ghost more: seq<bv8>, count: nat) returns (b: nat)
    requires bits.Reading() && bits.h264 && bits.data[..] == d + more && more != [] && Recognised(d, 0)
    requires bits.BitsRead() + count <= 8 * |Rbsp(d, 0)|
    modifies bits`pos, bits`bit, bits`index, bits`zeroCount, bits`k, bits`done
    ensures bits.Reading() && bits.BitsRead() == old(bits.BitsRead()) + count
    ensures b == Value(BitsOf(Rbsp(d, 0), old(bits.BitsRead()), count)) % 0x1_0000_0000
    ensures Spells(b, BitsOf(Rbsp(d, 0), old(bits.BitsRead()), count))
  {
    NalDelivered(d, more);
    BitsOfPrefix(Rbsp(d, 0), bits.All(), bits.BitsRead(), count);
    b := bits.Get(count);
  }

  /** Three whole bytes skipped at once: the reader is at bit 24, its index says 8. */
  method SkipThreeBytes(data: array<bv8>) returns (bits: BITS)
    ensures bits.data == data && bits.Cursor() == 24 && bits.index == 8
  {
    bits := new BITS.Init(data);
    bits.Skip(24);
  }
}
