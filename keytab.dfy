/** The keytab (`Keytab`): a u16 version, then entries, each preceded by a
    signed 32-bit size. A negative size marks a hole of that many bytes; the
    bytes an entry's fields leave over inside its size hold an optional
    32-bit key version number. */
module Keytab {
  import opened Bytes
  import opened Wrappers
  import opened Stream
  import opened Names
  import opened Krb5File

  /** One keytab entry (the dictionary `_load_entry` builds). `vno` is the
      trailing 32-bit key version number, absent when the size leaves fewer
      than four bytes for it. */
  datatype Entry = Entry(principal: Principal, timestamp: u32, vno8: u8, key: KeyBlock, vno: Option<u32>)

  /** What `load` leaves behind: a `struct.error` on the version, or the
      version, the array width and the entries read before the loop stopped. */
  datatype Loaded =
    | NoVersion
    | Loaded(version: u16, width: ArrayWidth, entries: seq<Entry>, ending: Ending)

  /** What `save` writes before it stops, and the error that stopped it. */
  datatype Written = Written(bytes: seq<byte>, error: Option<WriteError>)

  // ---------------------------------------------------------------- decoding

  /** `__get_entry_size`: fewer than four bytes left is the end of the file. */
  function EntrySizeAt(data: seq<byte>, pos: nat): (r: Step<int>)
    requires pos <= |data|
    ensures !r.StructError?
    ensures r.Eof? <==> pos + 4 > |data|
    ensures r.Ok? ==> r.next == pos + 4 && r.value == Int32(data[pos..pos + 4])
  {
    if pos + 4 > |data| then Eof else Ok(Int32(data[pos..pos + 4]), pos + 4)
  }

  /** The `while size < 0` loop of `_load_entry`: holes are skipped, and the
      result is the first size that is not negative (a size of zero is an
      entry, not a hole) with the position where that entry's fields start. */
  function SizeAfterHoles(data: seq<byte>, pos: nat): (r: Step<int>)
    requires pos <= |data|
    ensures !r.StructError?
    ensures r.Ok? ==> r.value >= 0 && pos + 4 <= r.next <= |data|
    decreases |data| - pos + 1, 1
  {
    AfterSize(data, EntrySizeAt(data, pos))
  }

  /** One turn of the hole loop, given the size just read. */
  function AfterSize(data: seq<byte>, size: Step<int>): (r: Step<int>)
    requires size.Ok? ==> size.next <= |data|
    ensures !r.StructError?
    ensures r.Ok? && size.Ok? ==> r.value >= 0 && size.next <= r.next <= |data|
    ensures size.Ok? && size.value >= 0 ==> r == size
    ensures !size.Ok? ==> r == Eof
    decreases if size.Ok? then |data| - size.next + 2 else 0, 0
  {
    match size
    case Ok(n, p) =>
      if n < 0 then SizeAfterHoles(data, p + |Window(data, p, -n)|) else size
    case _ => Eof
  }

  /** After a hole the loop reads the next size where the hole ends. */
  lemma HoleResumes(data: seq<byte>, size: Step<int>)
    requires size.Ok? && size.value < 0 && size.next <= |data|
    ensures var resume := size.next + |Window(data, size.next, -size.value)|;
      resume <= |data| && AfterSize(data, size) == AfterSize(data, EntrySizeAt(data, resume))
  {
  }

  /** `_read_vno`: with `finish` the position after the key block, the
      `remaining` bytes of the declared size hold a u32 when there are at
      least four of them; whatever else is left over is skipped. */
  function VnoAt(data: seq<byte>, start: nat, size: int, finish: nat): (r: Step<Option<u32>>)
    requires start <= finish <= |data|
    ensures !r.Eof?
    ensures r.StructError? <==> size - (finish - start) >= 4 && finish + 4 > |data|
    ensures r.Ok? ==> (r.value.Some? <==> size - (finish - start) >= 4)
    ensures r.Ok? && r.value.Some? ==> r.value.value == UInt(data[finish..finish + 4])
    ensures r.Ok? && finish - start <= size ==> r.next == Min(start + size, |data|)
    ensures r.Ok? && finish - start > size ==> r.next == finish
  {
    var remaining := size - (finish - start);
    if remaining >= 4 then
      match U32At(data, finish)
      case Ok(vno, p) => Ok(Some(vno), p + |Window(data, p, remaining - 4)|)
      case _ => StructError
    else if remaining > 0 then Ok(None, finish + |Window(data, finish, remaining)|)
    else Ok(None, finish)
  }

  /** The fields of an entry whose first field is at `start`: principal,
      timestamp, `vno8` and key block (the kvno is left `None` here). A
      principal cut short in its first fields is the end of the file. */
  function FieldsAt(lay: Layout, data: seq<byte>, start: nat): (r: Step<Entry>)
    requires start <= |data|
    ensures r.Eof? <==> start + LeadWidth(lay) > |data|
    ensures r.Ok? ==> start < r.next <= |data| && r.value.vno.None?
    ensures r.Ok? ==> (r.value.principal.nameType.Some? <==> lay.version == 0x0502 || lay.version == 0x0504)
  {
    match PrincipalAt(lay, data, start)
    case Eof => Eof
    case StructError => StructError
    case Ok(principal, p1) => FieldsAfter(lay, data, principal, p1)
  }

  /** The timestamp, the one-byte kvno and the key block that follow the
      principal; none of them can end the loop cleanly. */
  function FieldsAfter(lay: Layout, data: seq<byte>, principal: Principal, p1: nat): (r: Step<Entry>)
    requires p1 <= |data|
    ensures !r.Eof?
    ensures r.Ok? ==> p1 < r.next <= |data| && r.value.vno.None? && r.value.principal == principal
  {
    match U32At(data, p1)
    case StructError => StructError
    case Eof => StructError
    case Ok(timestamp, p2) =>
      match U8At(data, p2)
      case StructError => StructError
      case Eof => StructError
      case Ok(vno8, p3) =>
        match KeyBlockAt(lay, data, p3)
        case StructError => StructError
        case Eof => StructError
        case Ok(key, p4) => Ok(Entry(principal, timestamp, vno8, key, None), p4)
  }

  /** The body of an entry of declared `size`: its fields, then the kvno. */
  function BodyAt(lay: Layout, data: seq<byte>, start: nat, size: int): (r: Step<Entry>)
    requires start <= |data|
    ensures r.Eof? <==> start + LeadWidth(lay) > |data|
    ensures r.Ok? ==> start < r.next <= |data| && Min(start + size, |data|) <= r.next
    ensures r.Ok? ==> (r.value.principal.nameType.Some? <==> lay.version == 0x0502 || lay.version == 0x0504)
  {
    match FieldsAt(lay, data, start)
    case Eof => Eof
    case StructError => StructError
    case Ok(fields, finish) =>
      match VnoAt(data, start, size, finish)
      case StructError => StructError
      case Eof => StructError
      case Ok(vno, next) => Ok(fields.(vno := vno), next)
  }

  /** `_load_entry`: skip holes, then read one entry. */
  function EntryAt(lay: Layout, data: seq<byte>, pos: nat): (r: Step<Entry>)
    requires pos <= |data|
    ensures r.Ok? ==> pos < r.next <= |data|
    ensures pos + 4 > |data| ==> r.Eof?
  {
    match SizeAfterHoles(data, pos)
    case Ok(size, start) => BodyAt(lay, data, start, size)
    case _ => Eof
  }

  /** The loop of `load`: entries are read until `EOFError` (a clean end) or a
      `struct.error` (which escapes `load`). */
  function EntriesFrom(lay: Layout, data: seq<byte>, pos: nat): (s: Scan<Entry>)
    requires pos <= |data|
    ensures |s.items| <= |data| - pos
    ensures pos + 4 > |data| ==> s == Scan([], EndOfFile)
    decreases |data| - pos
  {
    match EntryAt(lay, data, pos)
    case Ok(e, next) =>
      var rest := EntriesFrom(lay, data, next);
      Scan([e] + rest.items, rest.ending)
    case Eof => Scan([], EndOfFile)
    case StructError => Scan([], Failed)
  }

  /** One turn of the entry loop, after the entries `got` so far. */
  lemma EntriesStep(lay: Layout, data: seq<byte>, pos: nat, got: seq<Entry>, r: Step<Entry>)
    requires pos <= |data| && r == EntryAt(lay, data, pos)
    ensures var s := EntriesFrom(lay, data, pos);
      r.Eof? ==> Scan(got + s.items, s.ending) == Scan(got, EndOfFile)
    ensures var s := EntriesFrom(lay, data, pos);
      r.StructError? ==> Scan(got + s.items, s.ending) == Scan(got, Failed)
    ensures var s := EntriesFrom(lay, data, pos);
      r.Ok? ==> (r.next <= |data| &&
                 Scan(got + s.items, s.ending) ==
                 Scan((got + [r.value]) + EntriesFrom(lay, data, r.next).items, EntriesFrom(lay, data, r.next).ending))
  {
    assert got + [] == got;
    if r.Ok? {
      var rest := EntriesFrom(lay, data, r.next);
      assert got + ([r.value] + rest.items) == (got + [r.value]) + rest.items;
    }
  }

  /** `load` of a keytab file on an object whose array width is `width`. */
  function Decode(data: seq<byte>, width: ArrayWidth): (r: Loaded)
    ensures r.NoVersion? <==> |data| < 2
    ensures r.Loaded? ==> r.version == UInt(data[..2]) && r.width == WidthAfter(r.version, width)
  {
    match U16At(data, 0)
    case Ok(version, p) =>
      var lay := Layout(version, WidthAfter(version, width));
      var s := EntriesFrom(lay, data, p);
      Loaded(version, lay.width, s.items, s.ending)
    case _ => NoVersion
  }

  // ---------------------------------------------------------------- encoding

  /** The kvno is written only when it is present and not zero. */
  function VnoBytes(vno: Option<u32>): (r: seq<byte>)
    ensures |r| == (if vno.Some? && vno.value != 0 then 4 else 0)
  {
    FieldRanges();
    if vno.Some? && vno.value != 0 then PackUInt(vno.value, 4) else []
  }

  /** The principal as `__write_entry` writes it, whatever the version: a
      u16 component count, the realm and the components as arrays, then the
      name type. The count is a u16 whatever the array width. */
  function WrittenPrincipal(width: ArrayWidth, components: seq<seq<byte>>, realm: seq<byte>, nameType: u32)
    : (r: seq<byte>)
    requires Fits(|components|, 2) && Fits(|realm|, width) && AllFit(components, width)
    ensures |r| >= 2 && UInt(r[..2]) == |components|
  {
    FieldRanges();
    var count := PackUInt(|components|, 2);
    assert ((count + NamesBytes(width, components, realm)) + PackUInt(nameType, 4))[..2] == count;
    (count + NamesBytes(width, components, realm)) + PackUInt(nameType, 4)
  }

  /** The key block as `__write_entry` writes it: no etype, and the key as an
      array of the array width. With 2-byte arrays this is the 0x0502 key
      block layout. */
  function WrittenKey(width: ArrayWidth, key: KeyBlock): (r: seq<byte>)
    requires Fits(|key.val|, width)
    ensures width == 2 ==> r == KeyBlockBytes(0x0502, key.keyType, [0, 0], key.val)
  {
    FieldRanges();
    var t := PackUInt(key.keyType, 2);
    assert width == 2 ==> t + [] + PackUInt(|key.val|, 2) + key.val == t + (PackUInt(|key.val|, 2) + key.val);
    t + ArrayBytes(width, key.val)
  }

  /** The timestamp, the 8-bit kvno and the key block as `__write_entry`
      writes them. */
  function WrittenFields(width: ArrayWidth, e: Entry): (r: seq<byte>)
    requires Fits(|e.key.val|, width)
    ensures |r| == 7 + width + |e.key.val|
  {
    assert Pow256(4) == 0x1_0000_0000 by { FieldRanges(); }
    PackUInt(e.timestamp, 4) + ([e.vno8] + WrittenKey(width, e.key))
  }

  /** The fields `__write_entry` writes after the size: the size leaves
      exactly four bytes after the key block when a kvno is written, and none
      otherwise, which is what `_read_vno` looks for. */
  function EntryBody(width: ArrayWidth, components: seq<seq<byte>>, realm: seq<byte>, nameType: u32, e: Entry)
    : (r: seq<byte>)
    requires Fits(|components|, 2) && Fits(|realm|, width) && AllFit(components, width) && Fits(|e.key.val|, width)
    ensures |r| - (|WrittenPrincipal(width, components, realm, nameType)| + |WrittenFields(width, e)|) ==
      (if e.vno.Some? && e.vno.value != 0 then 4 else 0)
  {
    (WrittenPrincipal(width, components, realm, nameType) + WrittenFields(width, e)) + VnoBytes(e.vno)
  }

  /** `__write_entry`: the principal text must hold exactly one '@', every
      length must fit its field and the principal must have a name type; the
      record is its size as a signed 32-bit integer, then the fields. */
  function EncodeEntry(width: ArrayWidth, e: Entry): (r: Result<seq<byte>, WriteError>)
    ensures r.Failure? && r.error == NotOneAtSign <==> Count(e.principal.value, AtSign) != 1
    ensures e.principal.nameType.None? ==> r.Failure?
    ensures r.Success? ==> |r.value| >= 4 && Int32(r.value[..4]) == |r.value| - 4
  {
    SplitLength(e.principal.value, AtSign);
    var halves := Split(e.principal.value, AtSign);
    if |halves| != 2 then Failure(NotOneAtSign)
    else
      var components := Split(halves[0], Slash);
      var realm := halves[1];
      if !Fits(|components|, 2) || !Fits(|realm|, width) || !AllFit(components, width) then Failure(PackOverflow)
      else if e.principal.nameType.None? then Failure(NoNameType)
      else if !Fits(|e.key.val|, width) then Failure(PackOverflow)
      else
        var body := EntryBody(width, components, realm, e.principal.nameType.value, e);
        if |body| >= 0x8000_0000 then Failure(PackOverflow)
        else
          var record := PackInt32(|body|) + body;
          assert record[..4] == PackInt32(|body|);
          Success(record)
  }

  /** The entries of `save`, each written in turn until one fails. */
  function EntriesBytes(width: ArrayWidth, entries: seq<Entry>): Written
  {
    if entries == [] then Written([], None)
    else
      match EncodeEntry(width, entries[0])
      case Failure(err) => Written([], Some(err))
      case Success(record) =>
        var rest := EntriesBytes(width, entries[1..]);
        Written(record + rest.bytes, rest.error)
  }

  /** `save`: the version as a u16, then the entries. */
  function EncodeKeytab(version: u16, width: ArrayWidth, entries: seq<Entry>): (r: Written)
    ensures |r.bytes| >= 2 && UInt(r.bytes[..2]) == version
    ensures r.error == EntriesBytes(width, entries).error
  {
    FieldRanges();
    var header := PackUInt(version, 2);
    var rest := EntriesBytes(width, entries);
    assert (header + rest.bytes)[..2] == header;
    Written(header + rest.bytes, rest.error)
  }

  // ---------------------------------------------------------------- filtering

  /** The entries whose principal text `matches` gives `keep` for, in their
      order in `s`. */
  function Select(s: seq<Entry>, matches: seq<byte> -> bool, keep: bool): (r: seq<Entry>)
    ensures |r| <= |s|
  {
    if s == [] then []
    else
      var rest := Select(s[1..], matches, keep);
      if matches(s[0].principal.value) == keep then [s[0]] + rest else rest
  }

  /** An entry is selected exactly when it is in the list and `matches`
      gives `keep` for it. */
  lemma {:induction false} SelectMembers(s: seq<Entry>, matches: seq<byte> -> bool, keep: bool, x: Entry)
    ensures x in Select(s, matches, keep) <==> x in s && matches(x.principal.value) == keep
  {
    if s != [] {
      SelectMembers(s[1..], matches, keep, x);
      assert x in s <==> x == s[0] || x in s[1..] by {
        assert s == [s[0]] + s[1..];
      }
    }
  }

  /** `list.remove(x)`: the first element equal to `x` is taken out. */
  function RemoveFirst(s: seq<Entry>, x: Entry): (r: seq<Entry>)
    requires x in s
    ensures |r| == |s| - 1
  {
    if s[0] == x then s[1..]
    else
      assert x in s[1..] by {
        assert s == [s[0]] + s[1..];
      }
      [s[0]] + RemoveFirst(s[1..], x)
  }

  /** `list.remove(x)` takes out the first occurrence of `x`, at index `i`,
      and keeps the order of the others. */
  lemma {:induction false} RemoveFirstOne(s: seq<Entry>, x: Entry) returns (i: nat)
    requires x in s
    ensures i < |s| && s[i] == x && x !in s[..i]
    ensures RemoveFirst(s, x) == s[..i] + s[i + 1..]
    ensures multiset(RemoveFirst(s, x)) == multiset(s) - multiset{x}
  {
    assert s == [s[0]] + s[1..];
    if s[0] == x {
      i := 0;
      assert s[..0] == [];
    } else {
      var j := RemoveFirstOne(s[1..], x);
      i := j + 1;
      assert s[..i] == [s[0]] + s[1..][..j];
      assert s[i + 1..] == s[1..][j + 1..];
    }
  }

  /** `s` after its first `k` non-matching entries have been removed. */
  function DropNonMatching(s: seq<Entry>, matches: seq<byte> -> bool, k: nat): seq<Entry>
  {
    if s == [] then []
    else if matches(s[0].principal.value) then [s[0]] + DropNonMatching(s[1..], matches, k)
    else if k == 0 then s
    else DropNonMatching(s[1..], matches, k - 1)
  }

  lemma {:induction false} SelectAppend(s: seq<Entry>, x: Entry, matches: seq<byte> -> bool, keep: bool)
    ensures Select(s + [x], matches, keep) ==
      Select(s, matches, keep) + (if matches(x.principal.value) == keep then [x] else [])
  {
    if s == [] {
      assert [] + [x] == [x];
    } else {
      assert (s + [x])[1..] == s[1..] + [x];
      SelectAppend(s[1..], x, matches, keep);
    }
  }

  lemma {:induction false} DropNoneRemoved(s: seq<Entry>, matches: seq<byte> -> bool)
    ensures DropNonMatching(s, matches, 0) == s
  {
    if s != [] && matches(s[0].principal.value) {
      DropNoneRemoved(s[1..], matches);
      assert s == [s[0]] + s[1..];
    }
  }

  /** Removing the next non-matching entry from the list where the first `k`
      are gone removes exactly the first of the remaining ones. */
  lemma {:induction false} RemoveNextNonMatching(s: seq<Entry>, matches: seq<byte> -> bool, k: nat)
    requires k < |Select(s, matches, false)|
    ensures Select(s, matches, false)[k] in DropNonMatching(s, matches, k)
    ensures RemoveFirst(DropNonMatching(s, matches, k), Select(s, matches, false)[k]) ==
      DropNonMatching(s, matches, k + 1)
  {
    var x := Select(s, matches, false)[k];
    var rest := Select(s[1..], matches, false);
    if matches(s[0].principal.value) {
      assert Select(s, matches, false) == rest;
      RemoveNextNonMatching(s[1..], matches, k);
      var d := DropNonMatching(s[1..], matches, k);
      assert DropNonMatching(s, matches, k) == [s[0]] + d;
      assert x != s[0] by {
        SelectMembers(s, matches, false, x);
      }
      assert ([s[0]] + d)[1..] == d;
      assert RemoveFirst([s[0]] + d, x) == [s[0]] + RemoveFirst(d, x);
    } else if k == 0 {
      assert x == s[0];
      DropNoneRemoved(s[1..], matches);
    } else {
      assert Select(s, matches, false) == [s[0]] + rest;
      assert x == rest[k - 1];
      assert DropNonMatching(s, matches, k) == DropNonMatching(s[1..], matches, k - 1);
      assert DropNonMatching(s, matches, k + 1) == DropNonMatching(s[1..], matches, k);
      RemoveNextNonMatching(s[1..], matches, k - 1);
    }
  }

  /** With every non-matching entry removed, the matching ones are left. */
  lemma {:induction false} DropAllNonMatching(s: seq<Entry>, matches: seq<byte> -> bool)
    ensures DropNonMatching(s, matches, |Select(s, matches, false)|) == Select(s, matches, true)
  {
    if s != [] {
      DropAllNonMatching(s[1..], matches);
    }
  }

  // ---------------------------------------------------------------- reading a keytab

  /** `_load_entry`, with the object's version and array width in `lay`. */
  method LoadEntry(f: File, lay: Layout) returns (r: Step<Entry>)
    requires f.Valid()
    modifies f
    ensures f.Valid()
    ensures r == EntryAt(lay, f.data, old(f.pos)) && (r.Ok? ==> f.pos == r.next)
  {
    var size := SkipHoles(f);
    if !size.Ok? {
      return Eof;
    }
    r := ReadBody(f, lay, size.value);
  }

  /** One turn of the entry loop of `load`: what it reads, and how the
      entries collected so far go on. `rest` is what the loop collects from
      the position before, `after` from the position after. */
  method LoadNext(f: File, lay: Layout, ghost got: seq<Entry>, ghost rest: Scan<Entry>)
    returns (r: Step<Entry>, ghost after: Scan<Entry>)
    requires f.Valid() && rest == EntriesFrom(lay, f.data, f.pos)
    modifies f
    ensures f.Valid() && after == EntriesFrom(lay, f.data, f.pos)
    ensures r.Eof? ==> Scan(got + rest.items, rest.ending) == Scan(got, EndOfFile)
    ensures r.StructError? ==> Scan(got + rest.items, rest.ending) == Scan(got, Failed)
    ensures r.Ok? ==> (old(f.pos) < f.pos &&
                       Scan(got + rest.items, rest.ending) == Scan((got + [r.value]) + after.items, after.ending))
  {
    ghost var pos := f.pos;
    r := LoadEntry(f, lay);
    EntriesStep(lay, f.data, pos, got, r);
    after := EntriesFrom(lay, f.data, f.pos);
  }

  /** The hole loop at the head of `_load_entry`. */
  method SkipHoles(f: File) returns (size: Step<int>)
    requires f.Valid()
    modifies f
    ensures f.Valid()
    ensures size == SizeAfterHoles(f.data, old(f.pos)) && (size.Ok? ==> f.pos == size.next)
  {
    size := GetEntrySize(f);
    while size.Ok? && size.value < 0
      invariant f.Valid() && !size.StructError? && (size.Ok? ==> size.next == f.pos)
      invariant SizeAfterHoles(f.data, old(f.pos)) == AfterSize(f.data, size)
      decreases |f.data| - f.pos + (if size.Ok? then 1 else 0)
    {
      HoleResumes(f.data, size);
      var skipped := f.Read(-size.value);
      size := GetEntrySize(f);
    }
  }

  /** The reads of `_load_entry` after the size, up to the key block. */
  method ReadFields(f: File, lay: Layout) returns (r: Step<Entry>)
    requires f.Valid()
    modifies f
    ensures f.Valid()
    ensures r == FieldsAt(lay, f.data, old(f.pos)) && (r.Ok? ==> f.pos == r.next)
  {
    var principal := ReadPrincipal(f, lay);
    if !principal.Ok? {
      return if principal.Eof? then Eof else StructError;
    }
    r := ReadFieldsAfter(f, lay, principal.value);
  }

  /** The reads of `_load_entry` after the principal. */
  method ReadFieldsAfter(f: File, lay: Layout, principal: Principal) returns (r: Step<Entry>)
    requires f.Valid()
    modifies f
    ensures f.Valid()
    ensures r == FieldsAfter(lay, f.data, principal, old(f.pos)) && (r.Ok? ==> f.pos == r.next)
  {
    var timestamp := f.ReadU32();
    if !timestamp.Ok? {
      return StructError;
    }
    var vno8 := f.ReadU8();
    if !vno8.Ok? {
      return StructError;
    }
    var key := ReadKeyblock(f, lay);
    if !key.Ok? {
      return StructError;
    }
    r := Ok(Entry(principal, timestamp.value, vno8.value, key.value, None), f.pos);
  }

  /** The reads of `_load_entry` after the size: `start` is `f.tell()`. */
  method ReadBody(f: File, lay: Layout, size: int) returns (r: Step<Entry>)
    requires f.Valid()
    modifies f
    ensures f.Valid()
    ensures r == BodyAt(lay, f.data, old(f.pos), size) && (r.Ok? ==> f.pos == r.next)
  {
    var start := f.pos;
    var fields := ReadFields(f, lay);
    if !fields.Ok? {
      return fields;
    }
    var vno := ReadVno(f, size, start);
    if !vno.Ok? {
      return StructError;
    }
    r := Ok(fields.value.(vno := vno.value), f.pos);
  }

  /** `_read_vno`. */
  method ReadVno(f: File, size: int, start: nat) returns (r: Step<Option<u32>>)
    requires f.Valid() && start <= f.pos
    modifies f
    ensures f.Valid()
    ensures r == VnoAt(f.data, start, size, old(f.pos)) && (r.Ok? ==> f.pos == r.next)
  {
    var finish := f.pos;
    var remaining := size - (finish - start);
    var vno: Option<u32> := None;
    if remaining >= 4 {
      var v := f.ReadU32();
      if !v.Ok? {
        return StructError;
      }
      vno := Some(v.value);
      remaining := remaining - 4;
    }
    if remaining > 0 {
      var skipped := f.Read(remaining);
    }
    r := Ok(vno, f.pos);
  }

  /** `__get_entry_size`. */
  method GetEntrySize(f: File) returns (r: Step<int>)
    requires f.Valid()
    modifies f
    ensures f.Valid()
    ensures r == EntrySizeAt(f.data, old(f.pos)) && f.pos == Min(old(f.pos) + 4, |f.data|)
  {
    var chunk := f.Read(4);
    if |chunk| < 4 {
      return Eof;
    }
    r := Ok(Int32(chunk), f.pos);
  }

  /** The `other_keys` loop of `filter`: the entries not among `keys`. */
  method OtherKeys(all: seq<Entry>, keys: seq<Entry>, ghost matches: seq<byte> -> bool) returns (others: seq<Entry>)
    requires keys == Select(all, matches, true)
    ensures others == Select(all, matches, false)
  {
    others := [];
    for i := 0 to |all|
      invariant others == Select(all[..i], matches, false)
    {
      assert all[..i + 1] == all[..i] + [all[i]];
      SelectAppend(all[..i], all[i], matches, false);
      SelectMembers(all, matches, true, all[i]);
      if all[i] !in keys {
        others := others + [all[i]];
      }
    }
    assert all[..|all|] == all;
  }

  // ---------------------------------------------------------------- the object

  /** A keytab in memory: `Keytab(filename)` is `Empty` followed by `Load`. */
  class Keytab {
    var version: u16
    var arrayWidth: ArrayWidth
    var entries: seq<Entry>

    /** The object `Krb5File.__init__` has built before it calls `load`. */
    constructor Empty()
      ensures version == 0 && arrayWidth == 2 && entries == []
    {
      version := 0;
      arrayWidth := 2;
      entries := [];
    }

    /** `load`: `ok` is false when a `struct.error` escaped. */
    method Load(data: seq<byte>) returns (ok: bool)
      modifies this
      ensures var d := Decode(data, old(arrayWidth));
        if d.NoVersion? then
          !ok && version == old(version) && arrayWidth == old(arrayWidth) && entries == old(entries)
        else
          version == d.version && arrayWidth == d.width && entries == old(entries) + d.entries &&
          (ok <==> d.ending == EndOfFile)
    {
      var f := new File.Open(data);
      var v := f.ReadU16();
      if !v.Ok? {
        return false;
      }
      version := v.value;
      if version == 0x0504 {
        arrayWidth := 4;
      }
      ok := LoadEntries(f);
    }

    /** The `while 1` loop of `load`: entries are appended until `EOFError`;
        `ok` is false when a `struct.error` escaped. */
    method LoadEntries(f: File) returns (ok: bool)
      requires f.Valid()
      modifies this, f
      ensures f.Valid() && version == old(version) && arrayWidth == old(arrayWidth)
      ensures var s := EntriesFrom(Layout(version, arrayWidth), f.data, old(f.pos));
        entries == old(entries) + s.items && (ok <==> s.ending == EndOfFile)
    {
      var lay := Layout(version, arrayWidth);
      ghost var all := EntriesFrom(lay, f.data, f.pos);
      ghost var rest := all;
      ghost var before := entries;
      while true
        invariant f.Valid() && lay == Layout(version, arrayWidth)
        invariant version == old(version) && arrayWidth == old(arrayWidth)
        invariant rest == EntriesFrom(lay, f.data, f.pos)
        invariant Scan(before + all.items, all.ending) == Scan(entries + rest.items, rest.ending)
        decreases |f.data| - f.pos
      {
        var e;
        e, rest := LoadNext(f, lay, entries, rest);
        if e.Eof? {
          return true;
        }
        if e.StructError? {
          return false;
        }
        entries := entries + [e.value];
      }
    }

    /** `save`: the bytes written and, when an entry could not be built, the
        error that stopped the writing. */
    method Save() returns (out: seq<byte>, failure: Option<WriteError>)
      ensures Written(out, failure) == EncodeKeytab(version, arrayWidth, entries)
    {
      FieldRanges();
      var header := PackUInt(version, 2);
      var body: seq<byte> := [];
      var i := 0;
      while i < |entries|
        invariant 0 <= i <= |entries|
        invariant EntriesBytes(arrayWidth, entries) ==
          Written(body + EntriesBytes(arrayWidth, entries[i..]).bytes, EntriesBytes(arrayWidth, entries[i..]).error)
      {
        assert entries[i..][1..] == entries[i + 1..];
        var record := EncodeEntry(arrayWidth, entries[i]);
        if record.Failure? {
          assert body + [] == body;
          return header + body, Some(record.error);
        }
        assert body + (record.value + EntriesBytes(arrayWidth, entries[i + 1..]).bytes) ==
               (body + record.value) + EntriesBytes(arrayWidth, entries[i + 1..]).bytes;
        body := body + record.value;
        i := i + 1;
      }
      assert body + [] == body;
      out, failure := header + body, None;
    }

    /** `filter`: the entries whose principal the pattern does not match are
        listed, then each is removed with `list.remove`. `matches` stands for
        the compiled pattern's `match`. */
    method Filter(matches: seq<byte> -> bool)
      modifies this
      ensures entries == Select(old(entries), matches, true)
      ensures version == old(version) && arrayWidth == old(arrayWidth)
    {
      var all := entries;
      var keys := Select(all, matches, true);
      var others := OtherKeys(all, keys, matches);
      ghost var original := all;
      DropNoneRemoved(original, matches);
      for j := 0 to |others|
        invariant version == old(version) && arrayWidth == old(arrayWidth)
        invariant entries == DropNonMatching(original, matches, j)
      {
        RemoveNextNonMatching(original, matches, j);
        entries := RemoveFirst(entries, others[j]);
      }
      DropAllNonMatching(original, matches);
    }
  }
}
