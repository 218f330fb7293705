/** The metadata buffer of avos_common.c: records appended one after the other in memory that grows, then
    read in order or searched. */
module Metadata {
  import opened Memory
  import opened Records

  const GROWTH := 1024  // METADATA_BUFFER_SIZE

  /** Whether avos_metadata_buffer_realloc asks for memory. */
  predicate Grows(dataSize: nat, writeOff: nat, need: nat) {
    writeOff + need > dataSize
  }

  /** The size it leaves: it grows once, whatever is needed. */
  function Grown(dataSize: nat, writeOff: nat, need: nat): nat {
    if Grows(dataSize, writeOff, need) then dataSize + GROWTH else dataSize
  }

  /** A write of need bytes stays in the memory it is given. */
  predicate Fits(dataSize: nat, writeOff: nat, need: nat) {
    writeOff + need <= Grown(dataSize, writeOff, need)
  }

  /** Every buffer, however full, takes a record exactly when header and payload are at most 1024 bytes:
      a larger one does not fit a buffer that is full. */
  lemma FitsAlwaysIff(need: nat)
    ensures (forall dataSize: nat, writeOff: nat :: writeOff <= dataSize ==> Fits(dataSize, writeOff, need)) <==> need <= GROWTH
  {
    if need > GROWTH {
      assert !Fits(0, 0, need);
    }
  }

  /** A string of 1012 characters needs 1025 bytes with its NUL and header: in a buffer that has just been
      created the write ends one byte behind the memory it was given. */
  lemma LongStringOverruns(id: uint32, chars: seq<uint8>)
    requires |chars| == 1012 && 0 !in chars
    ensures var e := Str(id, Text(chars)); InRange(e) && Kept(e) && RecordOf(e).Size() == GROWTH + 1
    ensures Grown(0, 0, GROWTH + 1) == GROWTH && !Fits(0, 0, GROWTH + 1)
  {
  }

  predicate AllInRange(es: seq<Entry>) {
    forall i :: 0 <= i < |es| ==> InRange(es[i])
  }

  /** What a list of appends leaves: a record each, but none for an empty string. */
  function RecordsOf(es: seq<Entry>): seq<Record>
    requires AllInRange(es)
  {
    if es == [] then []
    else RecordsOf(es[..|es| - 1]) + (if Kept(es[|es| - 1]) then [RecordOf(es[|es| - 1])] else [])
  }

  function KeptOf(es: seq<Entry>): seq<Entry> {
    if es == [] then []
    else KeptOf(es[..|es| - 1]) + (if Kept(es[|es| - 1]) then [es[|es| - 1]] else [])
  }

  function EntriesOf(rs: seq<Record>): seq<Entry> {
    seq(|rs|, i requires 0 <= i < |rs| => EntryOf(rs[i]))
  }

  lemma {:induction false} EntriesBack(es: seq<Entry>)
    requires AllInRange(es)
    ensures EntriesOf(RecordsOf(es)) == KeptOf(es)
  {
    if es != [] {
      var last := es[|es| - 1];
      EntriesBack(es[..|es| - 1]);
      if Kept(last) {
        EntryRoundTrip(last);
      }
    }
  }

  /** The records of a list of appends that one buffer always takes. */
  predicate Appendable(e: Entry) {
    InRange(e) && (Kept(e) ==> RecordOf(e).Size() <= GROWTH)
  }

  // The memory that a list of appends asks for.

  function SizeOf(e: Entry): nat
    requires InRange(e)
  {
    if Kept(e) then RecordOf(e).Size() else 0
  }

  predicate Needs(dataSize: nat, writeOff: nat, e: Entry)
    requires InRange(e)
  {
    Kept(e) && Grows(dataSize, writeOff, SizeOf(e))
  }

  /** Whether every append that needs memory gets it, where granted[i] says whether the i-th would. */
  predicate Survives(dataSize: nat, writeOff: nat, es: seq<Entry>, granted: seq<bool>)
    requires AllInRange(es) && |granted| == |es|
    decreases |es|
  {
    es == [] ||
    (&& (Needs(dataSize, writeOff, es[0]) ==> granted[0])
     && Survives(Grown(dataSize, writeOff, SizeOf(es[0])), writeOff + SizeOf(es[0]), es[1..], granted[1..]))
  }

  /** A list of appends never fails when every allocation succeeds. */
  lemma {:induction false} GrantedSurvives(dataSize: nat, writeOff: nat, es: seq<Entry>, granted: seq<bool>)
    requires AllInRange(es) && |granted| == |es|
    requires forall i :: 0 <= i < |granted| ==> granted[i]
    ensures Survives(dataSize, writeOff, es, granted)
    decreases |es|
  {
    if es != [] {
      GrantedSurvives(Grown(dataSize, writeOff, SizeOf(es[0])), writeOff + SizeOf(es[0]), es[1..], granted[1..]);
    }
  }

  function TotalSize(es: seq<Entry>): nat
    requires AllInRange(es)
  {
    if es == [] then 0 else SizeOf(es[0]) + TotalSize(es[1..])
  }

  /** Neither does it when everything fits the memory there is. */
  lemma {:induction false} RoomySurvives(dataSize: nat, writeOff: nat, es: seq<Entry>, granted: seq<bool>)
    requires AllInRange(es) && |granted| == |es| && writeOff + TotalSize(es) <= dataSize
    ensures Survives(dataSize, writeOff, es, granted)
    decreases |es|
  {
    if es != [] {
      RoomySurvives(dataSize, writeOff + SizeOf(es[0]), es[1..], granted[1..]);
    }
  }

  lemma SurvivesFrom(dataSize: nat, writeOff: nat, es: seq<Entry>, granted: seq<bool>, i: nat)
    requires AllInRange(es) && |granted| == |es| && i < |es|
    ensures Survives(dataSize, writeOff, es[i..], granted[i..]) <==>
      && (Needs(dataSize, writeOff, es[i]) ==> granted[i])
      && Survives(Grown(dataSize, writeOff, SizeOf(es[i])), writeOff + SizeOf(es[i]), es[i + 1..], granted[i + 1..])
  {
    assert es[i..][1..] == es[i + 1..] && granted[i..][1..] == granted[i + 1..];
  }

  lemma RecordsOfNext(es: seq<Entry>, i: nat)
    requires AllInRange(es) && i < |es|
    ensures RecordsOf(es[..i + 1]) == RecordsOf(es[..i]) + (if Kept(es[i]) then [RecordOf(es[i])] else [])
  {
    assert es[..i + 1][..i] == es[..i];
  }

  datatype Option<T> = None | Some(value: T)

  /** Storing the header field by field, then the payload, stores the record. */
  lemma StoreParts(mem: seq<uint8>, w: nat, r: Record)
    requires w + r.Size() <= |mem|
    ensures
      var m1 := Blit(mem, w, Le(4, r.id));
      var m2 := Blit(m1, w + 4, Le(4, r.kind));
      var m3 := Blit(m2, w + 8, Le(4, |r.payload|));
      Blit(m3, w + HEADER, r.payload) == Blit(mem, w, EncodeOne(r))
  {
  }

  class MetadataBuffer {
    var data: array<uint8>  // of length 0 where the source has a null pointer
    var dataSize: nat
    var writeOff: nat
    var readOff: nat
    ghost var records: seq<Record>

    ghost predicate Valid()
      reads this, data
    {
      dataSize == data.Length && Holds(data[..], writeOff, records)
    }

    /** k records have been read since ReadBegin. */
    ghost predicate Reading(k: nat)
      reads this
    {
      k <= |records| && readOff == Start(records, k)
    }

    /** avos_metadata_create. */
    constructor ()
      ensures Valid() && records == [] && Reading(0) && fresh(data)
    {
      data := new uint8[0];
      dataSize, writeOff, readOff, records := 0, 0, 0, [];
    }

    /** avos_metadata_buffer_realloc; `granted` says whether realloc finds the memory. A failure loses the
        buffer. */
    method Realloc(size: nat, granted: bool) returns (ok: bool)
      requires Valid()
      modifies this`data, this`dataSize, this`writeOff, this`records
      ensures Valid() && (data == old(data) || fresh(data))
      ensures ok <==> granted || !Grows(old(dataSize), old(writeOff), size)
      ensures old(writeOff) + size <= old(dataSize) ==> ok && data == old(data) && dataSize == old(dataSize)
      ensures old(writeOff) + size > old(dataSize) ==> (ok <==> granted)
      ensures ok ==> records == old(records) && writeOff == old(writeOff)
      ensures ok ==> dataSize == Grown(old(dataSize), old(writeOff), size)
      ensures !ok ==> records == [] && dataSize == 0 && writeOff == 0
    {
      if writeOff + size > dataSize {
        dataSize := dataSize + GROWTH;
        if granted {
          var bigger := new uint8[dataSize];
          Memcpy(bigger, 0, data[..]);
          assert bigger[..writeOff] == data[..writeOff];
          data := bigger;
        } else {
          data := new uint8[0];
          dataSize, writeOff := 0, 0;
          records := [];
          return false;
        }
      }
      return true;
    }

    /** The stores of avos_metadata_write: three header fields, then the payload. */
    method Store(id: uint32, kind: uint32, payload: seq<uint8>)
      requires writeOff + HEADER + |payload| <= data.Length
      modifies data
      ensures data[..] == Blit(old(data[..]), writeOff, EncodeOne(Record(id, kind, payload)))
    {
      StoreParts(data[..], writeOff, Record(id, kind, payload));
      Memcpy(data, writeOff, Le(4, id));
      Memcpy(data, writeOff + 4, Le(4, kind));
      Memcpy(data, writeOff + 8, Le(4, |payload|));
      Memcpy(data, writeOff + HEADER, payload);
    }

    /** avos_metadata_write. */
    method Write(id: uint32, kind: uint32, payload: seq<uint8>, granted: bool) returns (ok: bool)
      requires Valid() && |payload| < 0x1_0000_0000
      requires Fits(dataSize, writeOff, HEADER + |payload|)
      modifies this`data, this`dataSize, this`writeOff, this`records, data
      ensures Valid() && (data == old(data) || fresh(data))
      ensures ok <==> granted || !Grows(old(dataSize), old(writeOff), HEADER + |payload|)
      ensures old(writeOff) + HEADER + |payload| <= old(dataSize) ==> ok && data == old(data)
      ensures records == if ok then old(records) + [Record(id, kind, payload)] else []
      ensures ok ==> writeOff == old(writeOff) + HEADER + |payload|
      ensures ok ==> dataSize == Grown(old(dataSize), old(writeOff), HEADER + |payload|)
    {
      ok := Realloc(HEADER + |payload|, granted);
      if !ok {
        return;
      }
      ghost var r := Record(id, kind, payload);
      HoldsAppend(data[..], writeOff, records, r);
      Store(id, kind, payload);
      writeOff := writeOff + HEADER + |payload|;
      records := records + [r];
    }

    /** avos_metadata_write_begin. */
    method WriteBegin()
      requires Valid()
      modifies this`writeOff, this`records
      ensures Valid() && records == []
    {
      writeOff, records := 0, [];
    }

    /** avos_metadata_append_int, _int64, _bool and _str. */
    method Append(e: Entry, granted: bool) returns (ok: bool)
      requires Valid() && InRange(e)
      requires Kept(e) ==> Fits(dataSize, writeOff, RecordOf(e).Size())
      modifies this`data, this`dataSize, this`writeOff, this`records, data
      ensures Valid() && (data == old(data) || fresh(data))
      ensures ok <==> granted || !Needs(old(dataSize), old(writeOff), e)
      ensures old(writeOff) + SizeOf(e) <= old(dataSize) ==> ok && data == old(data)
      ensures records == if !ok then [] else old(records) + (if Kept(e) then [RecordOf(e)] else [])
      ensures ok ==> writeOff == old(writeOff) + SizeOf(e)
      ensures ok ==> dataSize == Grown(old(dataSize), old(writeOff), SizeOf(e))
    {
      if e.Str? && (e.str.Null? || e.str.chars == []) {
        return true;
      }
      var r := RecordOf(e);
      EntryRoundTrip(e);
      ok := Write(r.id, r.kind, r.payload, granted);
    }

    /** avos_metadata_read_begin. */
    method ReadBegin()
      modifies this`readOff
      ensures Reading(0)
    {
      readOff := 0;
    }

    /** avos_metadata_read_next: the next record, or a null pointer when all have been read. */
    method ReadNext(ghost k: nat) returns (msg: Option<nat>)
      requires Valid() && Reading(k)
      modifies this`readOff
      ensures msg.None? <==> k == |records|
      ensures msg.None? ==> Reading(k)
      ensures msg.Some? ==> RecordIs(data[..], msg.value, records[k]) && Reading(k + 1)
    {
      StartIsEnd(data[..], writeOff, records, k);
      if readOff >= writeOff {
        return None;
      }
      RecordHere(data[..], writeOff, records, k);
      msg := Some(readOff);
      readOff := readOff + Field(data[..], readOff, 2) + HEADER;
    }

    /** avos_metadata_get: the first record with that id, or a null pointer when there is none. */
    method Get(id: uint32) returns (msg: Option<nat>)
      requires Valid()
      ensures msg.None? <==> First(records, id) == |records|
      ensures msg.Some? ==> RecordIs(data[..], msg.value, records[First(records, id)])
    {
      msg := None;
      var cur := 0;
      ghost var k := 0;
      StartIsEnd(data[..], writeOff, records, 0);
      while cur < writeOff
        invariant k <= |records| && cur == Start(records, k) && (cur < writeOff <==> k < |records|)
        invariant forall i :: 0 <= i < k ==> records[i].id != id
        decreases |records| - k
      {
        RecordHere(data[..], writeOff, records, k);
        if Field(data[..], cur, 0) == id {
          return Some(cur);
        }
        cur := cur + HEADER + Field(data[..], cur, 2);
        k := k + 1;
        StartIsEnd(data[..], writeOff, records, k);
      }
    }

    /** avos_metadata_dup: a buffer of its own with the same records. */
    method Dup(granted: bool) returns (dup: MetadataBuffer?)
      requires Valid()
      ensures dup == null <==> !granted
      ensures dup != null ==> fresh(dup) && fresh(dup.data) && dup.Valid() && dup.records == records
      ensures dup != null ==> dup.readOff == readOff && dup.writeOff == writeOff && dup.dataSize == dataSize
    {
      if !granted {
        return null;
      }
      dup := new MetadataBuffer();
      dup.dataSize, dup.writeOff, dup.readOff := dataSize, writeOff, readOff;
      dup.data := new uint8[dataSize];
      Memcpy(dup.data, 0, data[..]);
      assert dup.data[..] == data[..];
      dup.records := records;
    }
  }

  predicate Readable(mem: seq<uint8>, off: nat) {
    && off + HEADER <= |mem| && Field(mem, off, 0) < 0x1_0000_0000 && Field(mem, off, 1) < 0x1_0000_0000
    && off + HEADER + Field(mem, off, 2) <= |mem|
  }

  /** The record that a reader of the message takes from memory. */
  function RecordFrom(mem: seq<uint8>, off: nat): (r: Record)
    requires Readable(mem, off)
    ensures RecordIs(mem, off, r)
  {
    Record(Field(mem, off, 0), Field(mem, off, 1), mem[off + HEADER..off + HEADER + Field(mem, off, 2)])
  }

  lemma RecordFromIs(mem: seq<uint8>, off: nat, r: Record)
    requires RecordIs(mem, off, r)
    ensures Readable(mem, off) && RecordFrom(mem, off) == r
  {
  }

  /** The record that the message at msg, which read_next has just returned, is. */
  method Take(b: MetadataBuffer, msg: nat, ghost r: Record) returns (got: Record)
    requires RecordIs(b.data[..], msg, r)
    ensures got == r
  {
    RecordFromIs(b.data[..], msg, r);
    got := RecordFrom(b.data[..], msg);
  }

  /** What read_begin and read_next deliver until the null pointer: all records, in order. */
  method ReadAll(b: MetadataBuffer) returns (rs: seq<Record>)
    requires b.Valid()
    modifies b`readOff
    ensures rs == b.records
  {
    ghost var recs, k: nat := b.records, 0;
    rs := [];
    b.ReadBegin();
    var msg := b.ReadNext(k);
    while msg.Some?
      invariant b.Valid() && b.records == recs && k <= |recs| && rs == recs[..k]
      invariant msg.None? ==> k == |recs|
      invariant msg.Some? ==> k < |recs| && RecordIs(b.data[..], msg.value, recs[k]) && b.Reading(k + 1)
      decreases |recs| - k
    {
      var r := Take(b, msg.value, recs[k]);
      assert recs[..k] + [recs[k]] == recs[..k + 1];
      rs := rs + [r];
      k := k + 1;
      msg := b.ReadNext(k);
    }
  }

  /** write_begin and a list of appends, each of at most 1024 bytes, with growth in between. It fails exactly
      when an append that needs memory does not get it, and then all records are lost. */
  method AppendAll(b: MetadataBuffer, es: seq<Entry>, granted: seq<bool>) returns (ok: bool)
    requires b.Valid() && |granted| == |es| && forall i :: 0 <= i < |es| ==> Appendable(es[i])
    modifies b, b.data
    ensures b.Valid() && AllInRange(es)
    ensures ok <==> Survives(old(b.dataSize), 0, es, granted)
    ensures b.records == if ok then RecordsOf(es) else []
  {
    b.WriteBegin();
    ok := true;
    assert AllInRange(es);
    for i := 0 to |es|
      invariant b.Valid() && (b.data == old(b.data) || fresh(b.data))
      invariant ok && b.records == RecordsOf(es[..i]) && b.writeOff <= b.dataSize
      invariant Survives(old(b.dataSize), 0, es, granted)
        <==> Survives(b.dataSize, b.writeOff, es[i..], granted[i..])
    {
      SurvivesFrom(b.dataSize, b.writeOff, es, granted, i);
      RecordsOfNext(es, i);
      ok := b.Append(es[i], granted[i]);
      if !ok {
        return;
      }
    }
    assert es[..|es|] == es;
  }

  /** The whole trip: when the appends succeed, the reader gets back every entry, type and value, except the
      empty strings. */
  method WriteThenRead(b: MetadataBuffer, es: seq<Entry>, granted: seq<bool>) returns (ok: bool, back: seq<Entry>)
    requires b.Valid() && |granted| == |es| && forall i :: 0 <= i < |es| ==> Appendable(es[i])
    modifies b, b.data
    ensures b.Valid() && AllInRange(es)
    ensures ok <==> Survives(old(b.dataSize), 0, es, granted)
    ensures ok ==> b.records == RecordsOf(es) && back == KeptOf(es)
    ensures !ok ==> b.records == [] && back == []
  {
    ok := AppendAll(b, es, granted);
    var rs := ReadAll(b);
    if ok {
      EntriesBack(es);
    }
    back := seq(|rs|, i requires 0 <= i < |rs| => EntryOf(rs[i]));
  }
}
