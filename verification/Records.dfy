/** The records of a metadata buffer as avos_common.c lays them out in memory: id, type and size as 32-bit
    little-endian numbers, then size bytes. */
module Records {
  import opened Memory

  type uint32 = x: int | 0 <= x < 0x1_0000_0000

  const HEADER := 12  // sizeof(avos_msg_t)

  // Numbers in memory.

  function Le(n: nat, x: nat): (r: seq<uint8>)
    ensures |r| == n
  {
    if n == 0 then [] else [(x % 0x100) as uint8] + Le(n - 1, x / 0x100)
  }

  function UnLe(s: seq<uint8>): nat {
    if s == [] then 0 else s[0] as nat + 0x100 * UnLe(s[1..])
  }

  function Pow256(n: nat): (r: nat)
    ensures r > 0
  {
    if n == 0 then 1 else 0x100 * Pow256(n - 1)
  }

  lemma {:induction false} UnLeLe(n: nat, x: nat)
    requires x < Pow256(n)
    ensures UnLe(Le(n, x)) == x
  {
    if n > 0 {
      UnLeLe(n - 1, x / 0x100);
    }
  }

  lemma UnLe4(x: uint32)
    ensures UnLe(Le(4, x)) == x
  {
    assert Pow256(4) == 0x1_0000_0000 by {
      assert Pow256(2) == 0x1_0000;
    }
    UnLeLe(4, x);
  }

  // Records.

  datatype Record = Record(id: uint32, kind: uint32, payload: seq<uint8>) {
    function Size(): nat {
      HEADER + |payload|
    }

    /** The size field holds the size. */
    predicate Sized() {
      |payload| < 0x1_0000_0000
    }
  }

  function EncodeOne(r: Record): (s: seq<uint8>)
    ensures |s| == r.Size()
  {
    Le(4, r.id) + Le(4, r.kind) + Le(4, |r.payload|) + r.payload
  }

  function Encode(rs: seq<Record>): seq<uint8> {
    if rs == [] then [] else EncodeOne(rs[0]) + Encode(rs[1..])
  }

  lemma Assoc(a: seq<uint8>, b: seq<uint8>, c: seq<uint8>)
    ensures (a + b) + c == a + (b + c)
  {
  }

  lemma EncodeCons(r: Record, rs: seq<Record>)
    ensures Encode([r] + rs) == EncodeOne(r) + Encode(rs)
  {
    assert ([r] + rs)[1..] == rs;
  }

  lemma {:induction false} EncodeConcat(rs: seq<Record>, ss: seq<Record>)
    ensures Encode(rs + ss) == Encode(rs) + Encode(ss)
  {
    if rs == [] {
      assert rs + ss == ss;
    } else {
      var r, rest := rs[0], rs[1..];
      EncodeConcat(rest, ss);
      assert rs == [r] + rest && rs + ss == [r] + (rest + ss);
      EncodeCons(r, rest);
      EncodeCons(r, rest + ss);
      Assoc(EncodeOne(r), Encode(rest), Encode(ss));
    }
  }

  lemma EncodeAppend(rs: seq<Record>, r: Record)
    ensures Encode(rs + [r]) == Encode(rs) + EncodeOne(r)
  {
    EncodeConcat(rs, [r]);
    assert Encode([r]) == EncodeOne(r) + Encode([]);
  }

  /** A field of the header at off. */
  function Field(mem: seq<uint8>, off: nat, i: nat): nat
    requires off + 4 * i + 4 <= |mem|
  {
    UnLe(mem[off + 4 * i..off + 4 * i + 4])
  }

  /** The record that a pointer to off reads. */
  predicate RecordIs(mem: seq<uint8>, off: nat, r: Record) {
    && off + r.Size() <= |mem|
    && Field(mem, off, 0) == r.id && Field(mem, off, 1) == r.kind && Field(mem, off, 2) == |r.payload|
    && mem[off + HEADER..off + r.Size()] == r.payload
  }

  lemma Parts(s: seq<uint8>, a: seq<uint8>, b: seq<uint8>, c: seq<uint8>, d: seq<uint8>)
    requires s == a + b + c + d && |a| == |b| == |c| == 4
    ensures s[..4] == a && s[4..8] == b && s[8..12] == c && s[12..] == d
  {
  }

  lemma SliceOfSlice(mem: seq<uint8>, a: nat, b: nat, i: nat, j: nat)
    requires a + j <= b <= |mem| && i <= j
    ensures mem[a..b][i..j] == mem[a + i..a + j]
  {
    forall k | 0 <= k < j - i
      ensures mem[a..b][i..j][k] == mem[a + i..a + j][k]
    {
      assert mem[a..b][i..j][k] == mem[a..b][i + k];
    }
  }

  lemma EncodeOneReads(mem: seq<uint8>, off: nat, r: Record)
    requires off + r.Size() <= |mem| && mem[off..off + r.Size()] == EncodeOne(r) && r.Sized()
    ensures RecordIs(mem, off, r)
  {
    var s := mem[off..off + r.Size()];
    Parts(s, Le(4, r.id), Le(4, r.kind), Le(4, |r.payload|), r.payload);
    SliceOfSlice(mem, off, off + r.Size(), 0, 4);
    SliceOfSlice(mem, off, off + r.Size(), 4, 8);
    SliceOfSlice(mem, off, off + r.Size(), 8, 12);
    SliceOfSlice(mem, off, off + r.Size(), 12, r.Size());
    UnLe4(r.id);
    UnLe4(r.kind);
    UnLe4(|r.payload|);
  }

  // The buffer as a list of records.

  /** The first w bytes of mem are the records rs. */
  ghost predicate Holds(mem: seq<uint8>, w: nat, rs: seq<Record>) {
    && w <= |mem| && mem[..w] == Encode(rs)
    && forall i :: 0 <= i < |rs| ==> rs[i].Sized()
  }

  /** Where record k starts. */
  ghost function Start(rs: seq<Record>, k: nat): nat
    requires k <= |rs|
  {
    |Encode(rs[..k])|
  }

  lemma EncodeSplit(rs: seq<Record>, k: nat)
    requires k < |rs|
    ensures Encode(rs) == Encode(rs[..k]) + (EncodeOne(rs[k]) + Encode(rs[k + 1..]))
  {
    assert rs == rs[..k] + rs[k..] && rs[k..] == [rs[k]] + rs[k + 1..];
    EncodeConcat(rs[..k], rs[k..]);
    EncodeCons(rs[k], rs[k + 1..]);
  }

  lemma StartStep(rs: seq<Record>, k: nat)
    requires k < |rs|
    ensures Start(rs, k + 1) == Start(rs, k) + rs[k].Size()
  {
    EncodeAppend(rs[..k], rs[k]);
    assert rs[..k] + [rs[k]] == rs[..k + 1];
  }

  lemma Middle(mem: seq<uint8>, w: nat, a: seq<uint8>, b: seq<uint8>, c: seq<uint8>)
    requires w <= |mem| && mem[..w] == a + (b + c)
    ensures |a| + |b| <= w && mem[|a|..|a| + |b|] == b
  {
    assert mem[|a|..|a| + |b|] == mem[..w][|a|..|a| + |b|];
  }

  lemma RecordHere(mem: seq<uint8>, w: nat, rs: seq<Record>, k: nat)
    requires Holds(mem, w, rs) && k < |rs|
    ensures Start(rs, k) + rs[k].Size() <= w
    ensures RecordIs(mem, Start(rs, k), rs[k])
    ensures Start(rs, k + 1) == Start(rs, k) + rs[k].Size()
  {
    EncodeSplit(rs, k);
    StartStep(rs, k);
    Middle(mem, w, Encode(rs[..k]), EncodeOne(rs[k]), Encode(rs[k + 1..]));
    EncodeOneReads(mem, Start(rs, k), rs[k]);
  }

  /** The end of the last record is the end of what is written. */
  lemma StartIsEnd(mem: seq<uint8>, w: nat, rs: seq<Record>, k: nat)
    requires Holds(mem, w, rs) && k <= |rs|
    ensures Start(rs, k) >= w <==> k == |rs|
  {
    if k < |rs| {
      RecordHere(mem, w, rs, k);
    } else {
      assert rs[..k] == rs;
    }
  }

  lemma HoldsAppend(mem: seq<uint8>, w: nat, rs: seq<Record>, r: Record)
    requires Holds(mem, w, rs) && r.Sized() && w + r.Size() <= |mem|
    ensures Holds(Blit(mem, w, EncodeOne(r)), w + r.Size(), rs + [r])
  {
    EncodeAppend(rs, r);
    var mem' := Blit(mem, w, EncodeOne(r));
    assert mem'[..w + r.Size()] == mem[..w] + EncodeOne(r);
  }

  /** The first record with an id. */
  function First(rs: seq<Record>, id: uint32): (r: nat)
    ensures r <= |rs|
    ensures r < |rs| ==> rs[r].id == id
    ensures forall i :: 0 <= i < r ==> rs[i].id != id
  {
    if rs == [] || rs[0].id == id then 0 else 1 + First(rs[1..], id)
  }

  // What the append functions write.

  datatype Entry =
    | Int(id: uint32, val: int)
    | Int64(id: uint32, val: int)
    | Bool(id: uint32, val: int)
    | Str(id: uint32, str: Text)

  /** A C string without its final NUL, or a null pointer. */
  datatype Text = Null | Text(chars: seq<uint8>)

  /** The values that the C parameter can have. */
  predicate InRange(e: Entry) {
    match e
    case Int(_, val) => -0x8000_0000 <= val < 0x8000_0000
    case Bool(_, val) => -0x8000_0000 <= val < 0x8000_0000
    case Int64(_, val) => -0x8000_0000_0000_0000 <= val < 0x8000_0000_0000_0000
    case Str(_, str) => str.Text? ==> 0 !in str.chars && |str.chars| < 0xFFFF_FFFF
  }

  /** Empty strings are left out. */
  predicate Kept(e: Entry) {
    e.Str? ==> e.str.Text? && e.str.chars != []
  }

  /** An int of n bytes as memory holds it. */
  function Complement(n: nat, val: int): nat
    requires -(Pow256(n) as int) <= val
  {
    if val < 0 then val + Pow256(n) else val
  }

  /** The types AVOS_MSG_TYPE_INT, INT64, BOOL and STR are 0, 1, 2 and 3. */
  function RecordOf(e: Entry): Record
    requires Kept(e) && InRange(e)
  {
    Pow256Is();
    match e
    case Int(id, val) => Record(id, 0, Le(4, Complement(4, val)))
    case Int64(id, val) => Record(id, 1, Le(8, Complement(8, val)))
    case Bool(id, val) => Record(id, 2, Le(4, Complement(4, val)))
    case Str(id, str) => Record(id, 3, str.chars + [0])
  }

  /** What a reader in C finds: the type of the enumeration, and as many bytes as the value has there. */
  lemma RecordLayout(e: Entry)
    requires Kept(e) && InRange(e)
    ensures RecordOf(e).id == e.id
    ensures var kind, size := RecordOf(e).kind, |RecordOf(e).payload|;
      match e
      case Int(_, _) => kind == 0 && size == 4
      case Int64(_, _) => kind == 1 && size == 8
      case Bool(_, _) => kind == 2 && size == 4
      case Str(_, str) => kind == 3 && size == |str.chars| + 1
  {
    Pow256Is();
  }

  /** How a reader of the message takes it back. */
  function EntryOf(r: Record): Entry {
    if r.kind == 0 then Int(r.id, Signed(r.payload))
    else if r.kind == 1 then Int64(r.id, Signed(r.payload))
    else if r.kind == 2 then Bool(r.id, Signed(r.payload))
    else Str(r.id, Text(CString(r.payload)))
  }

  function Signed(s: seq<uint8>): int {
    if 2 * UnLe(s) < Pow256(|s|) then UnLe(s) else UnLe(s) - Pow256(|s|)
  }

  function CString(s: seq<uint8>): seq<uint8> {
    if s == [] || s[0] == 0 then [] else [s[0]] + CString(s[1..])
  }

  lemma SignedComplement(n: nat, val: int)
    requires -(Pow256(n) as int) <= 2 * val < Pow256(n)
    ensures Signed(Le(n, Complement(n, val))) == val
  {
    UnLeLe(n, Complement(n, val));
  }

  lemma {:induction false} CStringEnds(s: seq<uint8>)
    requires 0 !in s
    ensures CString(s + [0]) == s
  {
    if s != [] {
      CStringEnds(s[1..]);
      assert (s + [0])[1..] == s[1..] + [0];
    }
  }

  lemma Pow256Is()
    ensures Pow256(4) == 0x1_0000_0000 && Pow256(8) == 0x1_0000_0000_0000_0000
  {
  }

  /** What is written can be read back, type and value. */
  lemma EntryRoundTrip(e: Entry)
    requires Kept(e) && InRange(e)
    ensures EntryOf(RecordOf(e)) == e && RecordOf(e).Sized()
  {
    Pow256Is();
    match e
    case Int(_, val) => SignedComplement(4, val);
    case Bool(_, val) => SignedComplement(4, val);
    case Int64(_, val) => SignedComplement(8, val);
    case Str(_, str) => CStringEnds(str.chars);
  }
}
