/** What the keytab reader and writer promise together: holes are skipped,
    a short tail is the end of the file, a keytab of version 0x0502 with
    2-byte arrays reads back what `save` wrote, and a keytab of a version
    without name types cannot be saved. */
module KeytabProperties {
  import opened Bytes
  import opened Wrappers
  import opened Stream
  import opened Names
  import opened Krb5File
  import opened Keytab

  // ---------------------------------------------------------------- holes and the end of the file

  /** `sizes` are consecutive holes at `pos`: each a negative size `-n`
      followed by `n` bytes that are all present. */
  predicate HolesAt(data: seq<byte>, pos: nat, sizes: seq<nat>)
    requires pos <= |data|
    decreases sizes
  {
    sizes == [] ||
    (sizes[0] >= 1 && pos + 4 + sizes[0] <= |data| &&
     EntrySizeAt(data, pos) == Ok(-(sizes[0] as int), pos + 4) &&
     HolesAt(data, pos + 4 + sizes[0], sizes[1..]))
  }

  /** The bytes the holes `sizes` take up. */
  function HolesLength(sizes: seq<nat>): nat
  {
    if sizes == [] then 0 else 4 + sizes[0] + HolesLength(sizes[1..])
  }

  /** One hole is skipped: the size read at a hole is the one after it. */
  lemma HoleSkipped(data: seq<byte>, pos: nat, n: nat)
    requires n >= 1 && pos + 4 + n <= |data| && EntrySizeAt(data, pos) == Ok(-(n as int), pos + 4)
    ensures SizeAfterHoles(data, pos) == SizeAfterHoles(data, pos + 4 + n)
  {
    assert |Window(data, pos + 4, n)| == n;
  }

  /** Any run of holes is skipped: the size read at the first is the one
      after the last. */
  lemma {:induction false} HolesSkipped(data: seq<byte>, pos: nat, sizes: seq<nat>, after: nat)
    requires pos <= |data| && HolesAt(data, pos, sizes) && after == pos + HolesLength(sizes)
    ensures after <= |data| && SizeAfterHoles(data, pos) == SizeAfterHoles(data, after)
    decreases sizes
  {
    if sizes != [] {
      var next := pos + 4 + sizes[0];
      HoleSkipped(data, pos, sizes[0]);
      HolesSkipped(data, next, sizes[1..], after);
    }
  }

  /** Fewer than four bytes after the last entry end the loop cleanly. */
  lemma ShortTailEnds(lay: Layout, data: seq<byte>, pos: nat)
    requires pos <= |data| < pos + 4
    ensures EntriesFrom(lay, data, pos) == Scan([], EndOfFile)
  {
  }

  /** A hole whose bytes run past the end of the file also ends the loop
      cleanly (the short read of the hole is not an error). */
  lemma HoleToEndEnds(lay: Layout, data: seq<byte>, pos: nat, n: nat)
    requires n >= 1 && pos + 4 <= |data| <= pos + 4 + n && EntrySizeAt(data, pos) == Ok(-(n as int), pos + 4)
    ensures EntriesFrom(lay, data, pos) == Scan([], EndOfFile)
  {
    assert pos + 4 + |Window(data, pos + 4, n)| == |data|;
    assert SizeAfterHoles(data, pos) == SizeAfterHoles(data, |data|);
  }

  // ---------------------------------------------------------------- name types

  /** Every entry read has a name type exactly when the version has one. */
  lemma {:induction false} EntriesNameTypes(lay: Layout, data: seq<byte>, pos: nat)
    requires pos <= |data|
    ensures forall e :: e in EntriesFrom(lay, data, pos).items ==>
      (e.principal.nameType.Some? <==> lay.version == 0x0502 || lay.version == 0x0504)
    decreases |data| - pos
  {
    match EntryAt(lay, data, pos)
    case Ok(e, next) =>
      EntriesNameTypes(lay, data, next);
      var rest := EntriesFrom(lay, data, next).items;
      assert EntriesFrom(lay, data, pos).items == [e] + rest;
    case _ =>
  }

  /** A keytab loaded from a version other than 0x0502 and 0x0504 has no
      name types, so saving it fails on its first entry and writes only the
      version. */
  lemma OldVersionCannotBeSaved(data: seq<byte>, width: ArrayWidth)
    requires Decode(data, width).Loaded?
    requires Decode(data, width).version != 0x0502 && Decode(data, width).version != 0x0504
    requires Decode(data, width).entries != []
    ensures var d := Decode(data, width);
      var w := EncodeKeytab(d.version, d.width, d.entries);
      w.error.Some? && |w.bytes| == 2
  {
    var d := Decode(data, width);
    EntriesNameTypes(Layout(d.version, d.width), data, 2);
    assert d.entries[0] in d.entries;
  }

  // ---------------------------------------------------------------- save, then load

  /** What a save of `e` and a load of the result give back: the etype is
      never written and a kvno of 0 is not written. */
  function Normalized(e: Entry): (r: Entry)
  {
    e.(key := e.key.(etype := None), vno := if e.vno == Some(0) then None else e.vno)
  }

  function NormalizedAll(entries: seq<Entry>): (r: seq<Entry>)
    ensures |r| == |entries|
    ensures forall i :: 0 <= i < |r| ==> r[i] == Normalized(entries[i])
  {
    if entries == [] then [] else [Normalized(entries[0])] + NormalizedAll(entries[1..])
  }

  /** Splitting the principal text at its one '@' and its first half at every
      '/' loses nothing: joining the pieces again gives the text. */
  lemma PrincipalTextOfSplit(value: seq<byte>)
    requires |Split(value, AtSign)| == 2
    ensures var halves := Split(value, AtSign);
      PrincipalText(Split(halves[0], Slash), halves[1]) == value
  {
    var halves := Split(value, AtSign);
    JoinSplit(halves[0], Slash);
    JoinSplit(value, AtSign);
    assert halves[1..] == [halves[1]];
  }

  /** The principal `__write_entry` writes reads back under version 0x0502. */
  lemma PrincipalReadsBack(data: seq<byte>, start: nat, components: seq<seq<byte>>, realm: seq<byte>,
                           nameType: u32, principal: Principal, p1: nat)
    requires Fits(|components|, 2) && Fits(|realm|, 2) && AllFit(components, 2)
    requires Holds(data, start, WrittenPrincipal(2, components, realm, nameType))
    requires principal == Principal(Some(nameType), PrincipalText(components, realm))
    requires p1 == start + |WrittenPrincipal(2, components, realm, nameType)|
    ensures start <= |data| && PrincipalAt(Layout(0x0502, 2), data, start) == Ok(principal, p1)
  {
    assert WrittenPrincipal(2, components, realm, nameType) == PrincipalBytes(Layout(0x0502, 2), nameType, components, realm);
    PrincipalLayout0502(Layout(0x0502, 2), data, start, nameType, components, realm);
  }

  /** The key block `__write_entry` writes reads back under version 0x0502,
      without an etype. */
  lemma KeyReadsBack(data: seq<byte>, pos: nat, key: KeyBlock, read: KeyBlock, next: nat)
    requires Fits(|key.val|, 2) && Holds(data, pos, WrittenKey(2, key))
    requires read == KeyBlock(key.keyType, None, key.val) && next == pos + |WrittenKey(2, key)|
    ensures pos <= |data| && KeyBlockAt(Layout(0x0502, 2), data, pos) == Ok(read, next)
  {
    KeyBlockRoundTrip(Layout(0x0502, 2), data, pos, key.keyType, [0, 0], key.val);
  }

  /** The fields of a written entry read back, up to the key block. */
  lemma FieldsReadBack(data: seq<byte>, start: nat, components: seq<seq<byte>>, realm: seq<byte>,
                       nameType: u32, e: Entry, p1: nat, read: Entry, p4: nat)
    requires Fits(|components|, 2) && Fits(|realm|, 2) && AllFit(components, 2) && Fits(|e.key.val|, 2)
    requires Holds(data, start, WrittenPrincipal(2, components, realm, nameType))
    requires p1 == start + |WrittenPrincipal(2, components, realm, nameType)|
    requires Holds(data, p1, WrittenFields(2, e)) && p4 == p1 + |WrittenFields(2, e)|
    requires read == Entry(Principal(Some(nameType), PrincipalText(components, realm)), e.timestamp, e.vno8,
                           KeyBlock(e.key.keyType, None, e.key.val), None)
    ensures start <= |data| && FieldsAt(Layout(0x0502, 2), data, start) == Ok(read, p4)
  {
    PrincipalReadsBack(data, start, components, realm, nameType, read.principal, p1);
    FixedFieldsAt(data, p1, e, read.key, p4);
    FieldsFromParts(Layout(0x0502, 2), data, start, read.principal, p1, e.timestamp, e.vno8, read.key, p4);
  }

  /** The timestamp, the 8-bit kvno and the key block read back. */
  lemma FixedFieldsAt(data: seq<byte>, pos: nat, e: Entry, key: KeyBlock, next: nat)
    requires Fits(|e.key.val|, 2) && Holds(data, pos, WrittenFields(2, e))
    requires key == KeyBlock(e.key.keyType, None, e.key.val) && next == pos + |WrittenFields(2, e)|
    ensures pos + 5 <= |data| && U32At(data, pos) == Ok(e.timestamp, pos + 4) && U8At(data, pos + 4) == Ok(e.vno8, pos + 5)
    ensures KeyBlockAt(Layout(0x0502, 2), data, pos + 5) == Ok(key, next)
  {
    FieldRanges();
    var rest := WrittenKey(2, e.key);
    HoldsSplit(data, pos, PackUInt(e.timestamp, 4), [e.vno8] + rest);
    HoldsSplit(data, pos + 4, [e.vno8], rest);
    UIntAtPacked(data, pos, e.timestamp, 4);
    U8AtPacked(data, pos + 4, e.vno8);
    KeyReadsBack(data, pos + 5, e.key, key, next);
  }

  /** The fields of an entry read one after the other. */
  lemma FieldsFromParts(lay: Layout, data: seq<byte>, start: nat, principal: Principal, p1: nat,
                        timestamp: u32, vno8: u8, key: KeyBlock, p4: nat)
    requires start <= |data| && PrincipalAt(lay, data, start) == Ok(principal, p1)
    requires p1 + 5 <= |data| && U32At(data, p1) == Ok(timestamp, p1 + 4) && U8At(data, p1 + 4) == Ok(vno8, p1 + 5)
    requires KeyBlockAt(lay, data, p1 + 5) == Ok(key, p4)
    ensures FieldsAt(lay, data, start) == Ok(Entry(principal, timestamp, vno8, key, None), p4)
  {
  }

  /** The kvno as `__write_entry` writes it reads back, a kvno of 0 as none. */
  lemma VnoReadsBack(data: seq<byte>, start: nat, size: int, finish: nat, vno: Option<u32>)
    requires start <= finish && Holds(data, finish, VnoBytes(vno)) && finish + |VnoBytes(vno)| == start + size
    ensures VnoAt(data, start, size, finish) == Ok(if vno == Some(0) then None else vno, start + size)
  {
    if vno.Some? && vno.value != 0 {
      FieldRanges();
      UIntAtPacked(data, finish, vno.value, 4);
    }
  }

  /** The body of an entry read as its fields, then its kvno. */
  lemma BodyFromParts(lay: Layout, data: seq<byte>, start: nat, size: int, fields: Entry, finish: nat,
                      vno: Option<u32>, next: nat)
    requires start <= |data| && FieldsAt(lay, data, start) == Ok(fields, finish)
    requires VnoAt(data, start, size, finish) == Ok(vno, next)
    ensures BodyAt(lay, data, start, size) == Ok(fields.(vno := vno), next)
  {
  }

  /** The body of a written entry reads back, kvno included: its principal,
      then its fields, then its kvno. */
  lemma BodyReadsBack(data: seq<byte>, start: nat, components: seq<seq<byte>>, realm: seq<byte>,
                      nameType: u32, e: Entry, p1: nat, finish: nat, size: nat, read: Entry)
    requires Fits(|components|, 2) && Fits(|realm|, 2) && AllFit(components, 2) && Fits(|e.key.val|, 2)
    requires Holds(data, start, WrittenPrincipal(2, components, realm, nameType))
    requires p1 == start + |WrittenPrincipal(2, components, realm, nameType)|
    requires Holds(data, p1, WrittenFields(2, e)) && finish == p1 + |WrittenFields(2, e)|
    requires Holds(data, finish, VnoBytes(e.vno)) && start + size == finish + |VnoBytes(e.vno)|
    requires read == Normalized(e).(principal := Principal(Some(nameType), PrincipalText(components, realm)))
    ensures start <= |data| && BodyAt(Layout(0x0502, 2), data, start, size) == Ok(read, start + size)
  {
    var fields := read.(vno := None);
    FieldsReadBack(data, start, components, realm, nameType, e, p1, fields, finish);
    VnoReadsBack(data, start, size, finish, e.vno);
    BodyFromParts(Layout(0x0502, 2), data, start, size, fields, finish, read.vno, start + size);
  }

  /** The size field of a record reads back. */
  lemma SizeReadsBack(data: seq<byte>, pos: nat, size: nat)
    requires size < 0x8000_0000 && Holds(data, pos, PackInt32(size))
    ensures pos + 4 <= |data| && SizeAfterHoles(data, pos) == Ok(size, pos + 4)
  {
    assert data[pos..pos + 4] == PackInt32(size);
    assert EntrySizeAt(data, pos) == Ok(size, pos + 4);
  }

  /** A size field that reads back, followed by a body of that size that
      reads back, is an entry. */
  lemma SizedRecordAt(data: seq<byte>, pos: nat, size: nat, read: Entry, next: nat)
    requires size < 0x8000_0000 && Holds(data, pos, PackInt32(size))
    requires pos + 4 <= |data| && BodyAt(Layout(0x0502, 2), data, pos + 4, size) == Ok(read, next)
    ensures EntryAt(Layout(0x0502, 2), data, pos) == Ok(read, next)
  {
    SizeReadsBack(data, pos, size);
  }

  /** What `__write_entry` puts in a record it writes: the size, then the
      principal split at '@' and '/', the fields and the kvno. */
  lemma EncodedRecord(e: Entry, record: seq<byte>)
    returns (components: seq<seq<byte>>, realm: seq<byte>, nameType: u32, size: nat)
    requires EncodeEntry(2, e) == Success(record)
    ensures Fits(|components|, 2) && Fits(|realm|, 2) && AllFit(components, 2) && Fits(|e.key.val|, 2)
    ensures var wp := WrittenPrincipal(2, components, realm, nameType);
      size == |wp| + |WrittenFields(2, e)| + |VnoBytes(e.vno)| < 0x8000_0000 &&
      record == PackInt32(size) + ((wp + WrittenFields(2, e)) + VnoBytes(e.vno))
    ensures e.principal == Principal(Some(nameType), PrincipalText(components, realm))
  {
    var halves := Split(e.principal.value, AtSign);
    components := Split(halves[0], Slash);
    realm := halves[1];
    nameType := e.principal.nameType.value;
    size := |EntryBody(2, components, realm, nameType, e)|;
    PrincipalTextOfSplit(e.principal.value);
  }

  /** A record holding the size of a written body, then the body, reads
      back as the entry with the principal of the body. */
  lemma RecordReadsBack(data: seq<byte>, pos: nat, components: seq<seq<byte>>, realm: seq<byte>,
                        nameType: u32, e: Entry, size: nat, read: Entry)
    requires Fits(|components|, 2) && Fits(|realm|, 2) && AllFit(components, 2) && Fits(|e.key.val|, 2)
    requires var wp := WrittenPrincipal(2, components, realm, nameType);
      size == |wp| + |WrittenFields(2, e)| + |VnoBytes(e.vno)| < 0x8000_0000 &&
      Holds(data, pos, PackInt32(size)) &&
      Holds(data, pos + 4, wp) && Holds(data, pos + 4 + |wp|, WrittenFields(2, e)) &&
      Holds(data, pos + 4 + |wp| + |WrittenFields(2, e)|, VnoBytes(e.vno))
    requires read == Normalized(e).(principal := Principal(Some(nameType), PrincipalText(components, realm)))
    ensures pos <= |data| && EntryAt(Layout(0x0502, 2), data, pos) == Ok(read, pos + 4 + size)
  {
    var wp := WrittenPrincipal(2, components, realm, nameType);
    var fields := WrittenFields(2, e);
    BodyReadsBack(data, pos + 4, components, realm, nameType, e, pos + 4 + |wp|, pos + 4 + |wp| + |fields|,
                  size, read);
    SizedRecordAt(data, pos, size, read, pos + 4 + size);
  }

  /** An entry `__write_entry` wrote reads back as the normalized entry, the
      position moving past exactly its record. */
  lemma EntryReadsBack(data: seq<byte>, pos: nat, e: Entry, record: seq<byte>, read: Entry, next: nat)
    requires EncodeEntry(2, e) == Success(record) && Holds(data, pos, record)
    requires read == Normalized(e) && next == pos + |record|
    ensures pos <= |data| && EntryAt(Layout(0x0502, 2), data, pos) == Ok(read, next)
  {
    var components, realm, nameType, size := EncodedRecord(e, record);
    LaidOutRecordReadsBack(data, pos, components, realm, nameType, e, size, record, read);
  }

  /** A record laid out as `__write_entry` lays it out reads back. */
  lemma LaidOutRecordReadsBack(data: seq<byte>, pos: nat, components: seq<seq<byte>>, realm: seq<byte>,
                               nameType: u32, e: Entry, size: nat, record: seq<byte>, read: Entry)
    requires Fits(|components|, 2) && Fits(|realm|, 2) && AllFit(components, 2) && Fits(|e.key.val|, 2)
    requires var wp := WrittenPrincipal(2, components, realm, nameType);
      size == |wp| + |WrittenFields(2, e)| + |VnoBytes(e.vno)| < 0x8000_0000 &&
      record == PackInt32(size) + ((wp + WrittenFields(2, e)) + VnoBytes(e.vno))
    requires Holds(data, pos, record)
    requires read == Normalized(e).(principal := Principal(Some(nameType), PrincipalText(components, realm)))
    ensures pos <= |data| && EntryAt(Layout(0x0502, 2), data, pos) == Ok(read, pos + |record|)
  {
    HoldsSplit4(data, pos, PackInt32(size), WrittenPrincipal(2, components, realm, nameType), WrittenFields(2, e),
                VnoBytes(e.vno));
    RecordReadsBack(data, pos, components, realm, nameType, e, size, read);
  }

  /** `__write_entry` wrote `records[i]` for `entries[i]`. */
  predicate WroteEach(entries: seq<Entry>, records: seq<seq<byte>>)
  {
    |records| == |entries| &&
    forall i {:trigger EncodeEntry(2, entries[i])} :: 0 <= i < |entries| ==> EncodeEntry(2, entries[i]) == Success(records[i])
  }

  /** The records `save` writes when none of them fails. */
  lemma {:induction false} EntriesRecords(entries: seq<Entry>) returns (records: seq<seq<byte>>)
    requires EntriesBytes(2, entries).error.None?
    ensures WroteEach(entries, records) && EntriesBytes(2, entries).bytes == Concat(records)
    decreases entries
  {
    if entries == [] {
      records := [];
    } else {
      EntriesBytesCons(2, entries);
      var tail := EntriesRecords(entries[1..]);
      records := [EncodeEntry(2, entries[0]).value] + tail;
      assert records[1..] == tail;
      forall i | 0 <= i < |entries|
        ensures EncodeEntry(2, entries[i]) == Success(records[i])
      {
        if i > 0 {
          assert entries[i] == entries[1..][i - 1];
          assert EncodeEntry(2, entries[1..][i - 1]) == Success(tail[i - 1]);
        }
      }
    }
  }

  /** The records of the entries, followed by the end of the file, read back
      in order and the loop ends cleanly. */
  lemma {:induction false} EntriesReadBack(data: seq<byte>, pos: nat, entries: seq<Entry>, records: seq<seq<byte>>)
    requires WroteEach(entries, records)
    requires Holds(data, pos, Concat(records)) && pos + |Concat(records)| == |data|
    ensures EntriesFrom(Layout(0x0502, 2), data, pos) == Scan(NormalizedAll(entries), EndOfFile)
    decreases entries
  {
    if entries == [] {
      assert EntryAt(Layout(0x0502, 2), data, pos).Eof?;
    } else {
      var next := FirstEntryRead(data, pos, entries, records);
      EntriesReadBack(data, next, entries[1..], records[1..]);
    }
  }

  /** The first record reads back as the first entry normalized, and the
      other records follow it. */
  lemma FirstEntryRead(data: seq<byte>, pos: nat, entries: seq<Entry>, records: seq<seq<byte>>) returns (next: nat)
    requires entries != [] && WroteEach(entries, records)
    requires Holds(data, pos, Concat(records))
    ensures next <= |data| && WroteEach(entries[1..], records[1..])
    ensures Holds(data, next, Concat(records[1..])) && next + |Concat(records[1..])| == pos + |Concat(records)|
    ensures EntriesFrom(Layout(0x0502, 2), data, next).ending == EndOfFile ==>
      EntriesFrom(Layout(0x0502, 2), data, pos) ==
        Scan([Normalized(entries[0])] + EntriesFrom(Layout(0x0502, 2), data, next).items, EndOfFile)
    ensures NormalizedAll(entries) == [Normalized(entries[0])] + NormalizedAll(entries[1..])
  {
    next := FirstChunk(data, pos, records);
    WroteRest(entries, records);
    RecordThenEntries(data, pos, entries[0], records[0], next);
  }

  /** What `save` wrote for the first entry, and for the others. */
  lemma WroteRest(entries: seq<Entry>, records: seq<seq<byte>>)
    requires entries != [] && WroteEach(entries, records)
    ensures EncodeEntry(2, entries[0]) == Success(records[0]) && WroteEach(entries[1..], records[1..])
  {
    forall i | 0 <= i < |entries| - 1
      ensures EncodeEntry(2, entries[1..][i]) == Success(records[1..][i])
    {
      assert EncodeEntry(2, entries[i + 1]) == Success(records[i + 1]);
    }
  }

  /** A written record comes back first in the entries read from where it sits. */
  lemma RecordThenEntries(data: seq<byte>, pos: nat, e: Entry, record: seq<byte>, next: nat)
    requires EncodeEntry(2, e) == Success(record) && Holds(data, pos, record) && next == pos + |record|
    ensures next <= |data|
    ensures EntriesFrom(Layout(0x0502, 2), data, pos) ==
      Scan([Normalized(e)] + EntriesFrom(Layout(0x0502, 2), data, next).items,
           EntriesFrom(Layout(0x0502, 2), data, next).ending)
  {
    EntryReadsBack(data, pos, e, record, Normalized(e), next);
    ThenEntries(Layout(0x0502, 2), data, pos, Normalized(e), next);
  }

  /** The first record `save` writes, then the others. */
  lemma EntriesBytesCons(width: ArrayWidth, entries: seq<Entry>)
    requires entries != [] && EntriesBytes(width, entries).error.None?
    ensures EncodeEntry(width, entries[0]).Success?
    ensures EntriesBytes(width, entries) ==
      Written(EncodeEntry(width, entries[0]).value + EntriesBytes(width, entries[1..]).bytes,
              EntriesBytes(width, entries[1..]).error)
  {
  }

  /** An entry read at `pos` comes first in the entries read from there. */
  lemma ThenEntries(lay: Layout, data: seq<byte>, pos: nat, e: Entry, next: nat)
    requires pos <= |data| && EntryAt(lay, data, pos) == Ok(e, next)
    ensures EntriesFrom(lay, data, pos) ==
      Scan([e] + EntriesFrom(lay, data, next).items, EntriesFrom(lay, data, next).ending)
  {
  }

  /** `save` then `load` of a version 0x0502 keytab on a new object (2-byte
      arrays) gives the version, the array width and the entries back, up to
      what the writer drops: the etype and a kvno of 0. */
  lemma SaveThenLoad(entries: seq<Entry>)
    requires EncodeKeytab(0x0502, 2, entries).error.None?
    ensures Decode(EncodeKeytab(0x0502, 2, entries).bytes, 2) ==
      Loaded(0x0502, 2, NormalizedAll(entries), EndOfFile)
  {
    FieldRanges();
    var header := PackUInt(0x0502, 2);
    var rest := EntriesBytes(2, entries);
    var data := header + rest.bytes;
    assert EncodeKeytab(0x0502, 2, entries).bytes == data;
    HoldsSplit(data, 0, header, rest.bytes);
    assert U16At(data, 0) == Ok(0x0502, 2);
    var records := EntriesRecords(entries);
    EntriesReadBack(data, 2, entries, records);
  }
}
