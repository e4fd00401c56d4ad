/** What the keytab and the credential cache share (the base class
    `Krb5File`): the version-dependent array width, length-prefixed arrays,
    principals and key blocks, read from a file and written back. */
module Krb5File {
  import opened Bytes
  import opened Wrappers
  import opened Stream
  import opened Names

  /** Width in bytes of an array length field (`self.array.size`). */
  type ArrayWidth = w: nat | w == 2 || w == 4 witness 2

  /** The state the shared readers consult: `self.version` and `self.array`. */
  datatype Layout = Layout(version: u16, width: ArrayWidth)

  /** `self.array` once `load` has read `version`: 4-byte lengths for
      0x0504, otherwise unchanged (2 bytes on a new object). */
  function WidthAfter(version: u16, width: ArrayWidth): (w: ArrayWidth)
    ensures version == 0x0504 ==> w == 4
    ensures version != 0x0504 ==> w == width
  {
    if version == 0x0504 then 4 else width
  }

  /** A principal: `nameType` is present only when the version has one,
      `value` is the text `c1/c2@REALM`. */
  datatype Principal = Principal(nameType: Option<u32>, value: seq<byte>)

  /** A key block: `etype` is the two raw bytes read after the key type when
      the version is above 0x0502. */
  datatype KeyBlock = KeyBlock(keyType: u16, etype: Option<seq<byte>>, val: seq<byte>)

  /** Why building a record for writing fails: `struct.pack` out of range,
      the tuple unpacking of `value.split('@')` (not exactly one '@'), or a
      principal without `name_type`. */
  datatype WriteError = PackOverflow | NotOneAtSign | NoNameType

  // ---------------------------------------------------------------- decoding

  /** `_read_array`: a length of `lay.width` bytes, then that many bytes
      (fewer when the file ends first). */
  function ArrayAt(lay: Layout, data: seq<byte>, pos: nat): (r: Step<seq<byte>>)
    requires pos <= |data|
    ensures !r.Eof?
    ensures r.Ok? <==> pos + lay.width <= |data|
    ensures r.Ok? ==> r.next == pos + lay.width + |r.value| <= |data|
    ensures r.Ok? ==> r.value == data[pos + lay.width..r.next]
    ensures r.Ok? ==> |r.value| == Min(UInt(data[pos..pos + lay.width]), |data| - (pos + lay.width))
  {
    if pos + lay.width <= |data| then
      var p := pos + lay.width;
      var payload := Window(data, p, UInt(data[pos..p]));
      Ok(payload, p + |payload|)
    else StructError
  }

  /** `n` arrays one after the other (the components of a principal, the
      segments of a credential). */
  function ArraysAt(lay: Layout, data: seq<byte>, pos: nat, n: nat): (r: Step<seq<seq<byte>>>)
    requires pos <= |data|
    ensures !r.Eof?
    ensures r.Ok? ==> |r.value| == n && pos <= r.next <= |data|
    decreases n
  {
    if n == 0 then Ok([], pos)
    else
      match ArrayAt(lay, data, pos)
      case Ok(a, p) => Cons([a], ArraysAt(lay, data, p, n - 1))
      case _ => StructError
  }

  /** The fields read inside `_read_principal`'s `try`: the name type (only
      for 0x0504) and the component count; when either is cut short the
      `struct.error` becomes `EOFError`. */
  function LeadAt(lay: Layout, data: seq<byte>, pos: nat): (r: Step<(Option<u32>, nat)>)
    requires pos <= |data|
    ensures !r.StructError?
    ensures r.Eof? <==> pos + LeadWidth(lay) > |data|
    ensures r.Ok? ==> r.next == pos + LeadWidth(lay) && (r.value.0.Some? <==> lay.version == 0x0504)
  {
    if lay.version == 0x0504 then
      match U32At(data, pos)
      case Ok(nameType, p) =>
        (match UIntAt(data, p, lay.width)
         case Ok(count, q) => Ok((Some(nameType), count), q)
         case _ => Eof)
      case _ => Eof
    else
      match UIntAt(data, pos, lay.width)
      case Ok(count, q) => Ok((None, count), q)
      case _ => Eof
  }

  /** Bytes that must be present for a principal not to read as the end of
      the file. */
  function LeadWidth(lay: Layout): nat
  {
    (if lay.version == 0x0504 then 4 else 0) + lay.width
  }

  /** `_read_principal`. */
  function PrincipalAt(lay: Layout, data: seq<byte>, pos: nat): (r: Step<Principal>)
    requires pos <= |data|
    ensures r.Eof? <==> pos + LeadWidth(lay) > |data|
    ensures r.Ok? ==> pos + LeadWidth(lay) + lay.width <= r.next <= |data|
    ensures r.Ok? ==> (r.value.nameType.Some? <==> lay.version == 0x0502 || lay.version == 0x0504)
  {
    match LeadAt(lay, data, pos)
    case Eof => Eof
    case StructError => StructError
    case Ok((nameType, count), p) =>
      match ArrayAt(lay, data, p)
      case StructError => StructError
      case Eof => StructError
      case Ok(realm, q) =>
        match ArraysAt(lay, data, q, count)
        case StructError => StructError
        case Eof => StructError
        case Ok(components, end) =>
          var value := PrincipalText(components, realm);
          if lay.version != 0x0502 then Ok(Principal(nameType, value), end)
          else
            match U32At(data, end)
            case Ok(v, next) => Ok(Principal(Some(v), value), next)
            case _ => StructError
  }

  /** `_read_keyblock`: type, the raw etype bytes above version 0x0502, then
      a key whose length is always a u16. */
  function KeyBlockAt(lay: Layout, data: seq<byte>, pos: nat): (r: Step<KeyBlock>)
    requires pos <= |data|
    ensures !r.Eof?
    ensures r.Ok? ==> pos + 4 <= r.next <= |data|
    ensures r.Ok? ==> (r.value.etype.Some? <==> lay.version > 0x0502)
  {
    var keyType :- U16At(data, pos);
    var etype := if lay.version > 0x0502 then Some(Window(data, keyType.1, 2)) else None;
    var p := keyType.1 + (if etype.Some? then |etype.value| else 0);
    var length :- U16At(data, p);
    var key := Window(data, length.1, length.0);
    Ok(KeyBlock(keyType.0, etype, key), length.1 + |key|)
  }

  // ---------------------------------------------------------------- encoding

  predicate Fits(n: nat, width: nat)
  {
    n < Pow256(width)
  }

  predicate AllFit(arrays: seq<seq<byte>>, width: nat)
  {
    forall i :: 0 <= i < |arrays| ==> Fits(|arrays[i]|, width)
  }

  /** `_make_array`: an array as it appears in the file, its length in
      `width` bytes and then the bytes; `struct.pack` of the length fails
      unless it `Fits`. */
  function ArrayBytes(width: ArrayWidth, arr: seq<byte>): (r: seq<byte>)
    requires Fits(|arr|, width)
    ensures |r| == width + |arr|
  {
    PackUInt(|arr|, width) + arr
  }

  function ArraysBytes(width: ArrayWidth, arrays: seq<seq<byte>>): seq<byte>
    requires AllFit(arrays, width)
  {
    if arrays == [] then [] else ArrayBytes(width, arrays[0]) + ArraysBytes(width, arrays[1..])
  }

  /** The realm and then the components, each as an array. */
  function NamesBytes(width: ArrayWidth, components: seq<seq<byte>>, realm: seq<byte>): seq<byte>
    requires Fits(|realm|, width) && AllFit(components, width)
  {
    ArrayBytes(width, realm) + ArraysBytes(width, components)
  }

  /** The principal layout each version uses on disk: the name type before
      the count (0x0504), after the components (0x0502) or not at all. */
  function PrincipalBytes(lay: Layout, nameType: u32, components: seq<seq<byte>>, realm: seq<byte>): seq<byte>
    requires Fits(|components|, lay.width) && Fits(|realm|, lay.width) && AllFit(components, lay.width)
  {
    FieldRanges();
    var count := PackUInt(|components|, lay.width);
    var names := NamesBytes(lay.width, components, realm);
    if lay.version == 0x0504 then PackUInt(nameType, 4) + (count + names)
    else if lay.version == 0x0502 then (count + names) + PackUInt(nameType, 4)
    else count + names
  }

  /** The key block layout: the etype bytes only above version 0x0502. */
  function KeyBlockBytes(version: u16, keyType: u16, etype: seq<byte>, key: seq<byte>): seq<byte>
    requires |etype| == 2 && Fits(|key|, 2)
  {
    FieldRanges();
    PackUInt(keyType, 2) + (if version > 0x0502 then etype else []) + PackUInt(|key|, 2) + key
  }

  // ---------------------------------------------------------------- layout lemmas

  /** `_read_array` inverts `_make_array`: an array consumes exactly its
      length field and its payload. */
  lemma ArrayRoundTrip(lay: Layout, data: seq<byte>, pos: nat, arr: seq<byte>)
    requires Fits(|arr|, lay.width) && Holds(data, pos, ArrayBytes(lay.width, arr))
    ensures ArrayAt(lay, data, pos) == Ok(arr, pos + lay.width + |arr|)
  {
    HoldsSplit(data, pos, PackUInt(|arr|, lay.width), arr);
  }

  lemma {:induction false} ArraysRoundTrip(lay: Layout, data: seq<byte>, pos: nat, arrays: seq<seq<byte>>)
    requires AllFit(arrays, lay.width) && Holds(data, pos, ArraysBytes(lay.width, arrays))
    ensures ArraysAt(lay, data, pos, |arrays|) == Ok(arrays, pos + |ArraysBytes(lay.width, arrays)|)
    decreases arrays
  {
    if arrays != [] {
      var p := FirstArrayRead(lay, data, pos, arrays);
      ArraysRoundTrip(lay, data, p, arrays[1..]);
      ArraysStep(lay, data, pos, arrays, p, pos + |ArraysBytes(lay.width, arrays)|);
    }
  }

  /** The first of several arrays reads back, and the others follow it. */
  lemma FirstArrayRead(lay: Layout, data: seq<byte>, pos: nat, arrays: seq<seq<byte>>) returns (p: nat)
    requires arrays != [] && AllFit(arrays, lay.width) && Holds(data, pos, ArraysBytes(lay.width, arrays))
    ensures pos <= |data| && ArrayAt(lay, data, pos) == Ok(arrays[0], p)
    ensures AllFit(arrays[1..], lay.width) && Holds(data, p, ArraysBytes(lay.width, arrays[1..]))
    ensures p + |ArraysBytes(lay.width, arrays[1..])| == pos + |ArraysBytes(lay.width, arrays)|
  {
    var head := ArrayBytes(lay.width, arrays[0]);
    HoldsSplit(data, pos, head, ArraysBytes(lay.width, arrays[1..]));
    ArrayRoundTrip(lay, data, pos, arrays[0]);
    p := pos + |head|;
  }

  /** Reading `n` arrays is reading the first, then the `n - 1` others. */
  lemma ArraysStep(lay: Layout, data: seq<byte>, pos: nat, arrays: seq<seq<byte>>, p: nat, end: nat)
    requires |arrays| > 0 && pos <= |data| && ArrayAt(lay, data, pos) == Ok(arrays[0], p)
    requires p <= |data| && ArraysAt(lay, data, p, |arrays| - 1) == Ok(arrays[1..], end)
    ensures ArraysAt(lay, data, pos, |arrays|) == Ok(arrays, end)
  {
    assert [arrays[0]] + arrays[1..] == arrays;
  }

  /** Version 0x0504: the name type comes first, then a 4-byte-wide count. */
  lemma PrincipalLayout0504(lay: Layout, data: seq<byte>, pos: nat, nameType: u32,
                           components: seq<seq<byte>>, realm: seq<byte>)
    requires lay.version == 0x0504
    requires Fits(|components|, lay.width) && Fits(|realm|, lay.width) && AllFit(components, lay.width)
    requires Holds(data, pos, PrincipalBytes(lay, nameType, components, realm))
    ensures PrincipalAt(lay, data, pos) ==
      Ok(Principal(Some(nameType), PrincipalText(components, realm)),
         pos + |PrincipalBytes(lay, nameType, components, realm)|)
  {
    var q, end := Lead0504(lay, data, pos, nameType, components, realm);
    var mid := NamesRoundTrip(lay, data, q, components, realm);
    PrincipalFromParts(lay, data, pos, Some(nameType), q, realm, mid, components, end);
  }

  /** The name type and the count of a 0x0504 principal read back, and the
      names follow them. */
  lemma Lead0504(lay: Layout, data: seq<byte>, pos: nat, nameType: u32,
                 components: seq<seq<byte>>, realm: seq<byte>) returns (q: nat, end: nat)
    requires lay.version == 0x0504
    requires Fits(|components|, lay.width) && Fits(|realm|, lay.width) && AllFit(components, lay.width)
    requires Holds(data, pos, PrincipalBytes(lay, nameType, components, realm))
    ensures pos <= |data| && LeadAt(lay, data, pos) == Ok((Some(nameType), |components|), q)
    ensures Holds(data, q, NamesBytes(lay.width, components, realm))
    ensures end == q + |NamesBytes(lay.width, components, realm)|
    ensures end == pos + |PrincipalBytes(lay, nameType, components, realm)|
  {
    FieldRanges();
    var names := NamesBytes(lay.width, components, realm);
    assert PrincipalBytes(lay, nameType, components, realm) ==
      PackUInt(nameType, 4) + (PackUInt(|components|, lay.width) + names);
    CountThen(data, pos + 4, |components|, lay.width, names);
    HoldsSplit(data, pos, PackUInt(nameType, 4), PackUInt(|components|, lay.width) + names);
    UIntAtPacked(data, pos, nameType, 4);
    q := pos + 4 + lay.width;
    end := q + |names|;
  }

  /** A count or length field reads back and what it counts follows it. */
  lemma CountThen(data: seq<byte>, pos: nat, count: nat, width: nat, names: seq<byte>)
    requires count < Pow256(width) && Holds(data, pos, PackUInt(count, width) + names)
    ensures UIntAt(data, pos, width) == Ok(count, pos + width) && Holds(data, pos + width, names)
  {
    HoldsSplit(data, pos, PackUInt(count, width), names);
    UIntAtPacked(data, pos, count, width);
  }

  /** Version 0x0502: the name type comes after the realm and the components. */
  lemma PrincipalLayout0502(lay: Layout, data: seq<byte>, pos: nat, nameType: u32,
                           components: seq<seq<byte>>, realm: seq<byte>)
    requires lay.version == 0x0502
    requires Fits(|components|, lay.width) && Fits(|realm|, lay.width) && AllFit(components, lay.width)
    requires Holds(data, pos, PrincipalBytes(lay, nameType, components, realm))
    ensures PrincipalAt(lay, data, pos) ==
      Ok(Principal(Some(nameType), PrincipalText(components, realm)),
         pos + |PrincipalBytes(lay, nameType, components, realm)|)
  {
    var q, end := Lead0502(lay, data, pos, nameType, components, realm);
    var mid := NamesRoundTrip(lay, data, q, components, realm);
    PrincipalFromParts(lay, data, pos, None, q, realm, mid, components, end);
  }

  /** The count of a 0x0502 principal reads back, the names follow it and
      the name type follows them. */
  lemma Lead0502(lay: Layout, data: seq<byte>, pos: nat, nameType: u32,
                 components: seq<seq<byte>>, realm: seq<byte>) returns (q: nat, end: nat)
    requires lay.version == 0x0502
    requires Fits(|components|, lay.width) && Fits(|realm|, lay.width) && AllFit(components, lay.width)
    requires Holds(data, pos, PrincipalBytes(lay, nameType, components, realm))
    ensures pos <= |data| && LeadAt(lay, data, pos) == Ok((None, |components|), q)
    ensures Holds(data, q, NamesBytes(lay.width, components, realm))
    ensures end == q + |NamesBytes(lay.width, components, realm)|
    ensures end <= |data| && U32At(data, end) == Ok(nameType, end + 4)
    ensures end + 4 == pos + |PrincipalBytes(lay, nameType, components, realm)|
  {
    FieldRanges();
    var names := NamesBytes(lay.width, components, realm);
    assert PrincipalBytes(lay, nameType, components, realm) ==
      (PackUInt(|components|, lay.width) + names) + PackUInt(nameType, 4);
    HoldsSplit(data, pos, PackUInt(|components|, lay.width) + names, PackUInt(nameType, 4));
    CountThen(data, pos, |components|, lay.width, names);
    q := pos + lay.width;
    end := q + |names|;
    UIntAtPacked(data, end, nameType, 4);
  }

  /** Every other version (0x0501, 0x0503, ...) has no name type at all. */
  lemma PrincipalLayoutOther(lay: Layout, data: seq<byte>, pos: nat, nameType: u32,
                           components: seq<seq<byte>>, realm: seq<byte>)
    requires lay.version != 0x0502 && lay.version != 0x0504
    requires Fits(|components|, lay.width) && Fits(|realm|, lay.width) && AllFit(components, lay.width)
    requires Holds(data, pos, PrincipalBytes(lay, nameType, components, realm))
    ensures PrincipalAt(lay, data, pos) ==
      Ok(Principal(None, PrincipalText(components, realm)),
         pos + |PrincipalBytes(lay, nameType, components, realm)|)
  {
    var q, end := LeadOther(lay, data, pos, nameType, components, realm);
    var mid := NamesRoundTrip(lay, data, q, components, realm);
    PrincipalFromParts(lay, data, pos, None, q, realm, mid, components, end);
  }

  /** The count of a principal without a name type reads back, and the names
      follow it. */
  lemma LeadOther(lay: Layout, data: seq<byte>, pos: nat, nameType: u32,
                  components: seq<seq<byte>>, realm: seq<byte>) returns (q: nat, end: nat)
    requires lay.version != 0x0502 && lay.version != 0x0504
    requires Fits(|components|, lay.width) && Fits(|realm|, lay.width) && AllFit(components, lay.width)
    requires Holds(data, pos, PrincipalBytes(lay, nameType, components, realm))
    ensures pos <= |data| && LeadAt(lay, data, pos) == Ok((None, |components|), q)
    ensures Holds(data, q, NamesBytes(lay.width, components, realm))
    ensures end == q + |NamesBytes(lay.width, components, realm)|
    ensures end == pos + |PrincipalBytes(lay, nameType, components, realm)|
  {
    var names := NamesBytes(lay.width, components, realm);
    assert PrincipalBytes(lay, nameType, components, realm) == PackUInt(|components|, lay.width) + names;
    CountThen(data, pos, |components|, lay.width, names);
    q := pos + lay.width;
    end := q + |names|;
  }

  /** Each version's principal layout decodes to its components joined by
      '/', then '@' and the realm, with a name type exactly for 0x0502 and
      0x0504. */
  lemma PrincipalRoundTrip(lay: Layout, data: seq<byte>, pos: nat, nameType: u32,
                           components: seq<seq<byte>>, realm: seq<byte>)
    requires Fits(|components|, lay.width) && Fits(|realm|, lay.width) && AllFit(components, lay.width)
    requires Holds(data, pos, PrincipalBytes(lay, nameType, components, realm))
    ensures PrincipalAt(lay, data, pos) ==
      Ok(Principal(if lay.version == 0x0502 || lay.version == 0x0504 then Some(nameType) else None,
                   PrincipalText(components, realm)),
         pos + |PrincipalBytes(lay, nameType, components, realm)|)
  {
    if lay.version == 0x0504 {
      PrincipalLayout0504(lay, data, pos, nameType, components, realm);
    } else if lay.version == 0x0502 {
      PrincipalLayout0502(lay, data, pos, nameType, components, realm);
    } else {
      PrincipalLayoutOther(lay, data, pos, nameType, components, realm);
    }
  }

  /** A principal whose lead fields, realm and components have been read. */
  lemma PrincipalFromParts(lay: Layout, data: seq<byte>, pos: nat, lead: Option<u32>, q: nat,
                           realm: seq<byte>, mid: nat, components: seq<seq<byte>>, end: nat)
    requires pos <= |data|
    requires LeadAt(lay, data, pos) == Ok((lead, |components|), q)
    requires ArrayAt(lay, data, q) == Ok(realm, mid)
    requires ArraysAt(lay, data, mid, |components|) == Ok(components, end)
    ensures lay.version != 0x0502 ==>
      PrincipalAt(lay, data, pos) == Ok(Principal(lead, PrincipalText(components, realm)), end)
    ensures lay.version == 0x0502 && U32At(data, end).Ok? ==>
      PrincipalAt(lay, data, pos) ==
        Ok(Principal(Some(U32At(data, end).value), PrincipalText(components, realm)), end + 4)
  {
  }

  /** The realm and the components that follow the count decode back. */
  lemma NamesRoundTrip(lay: Layout, data: seq<byte>, pos: nat, components: seq<seq<byte>>, realm: seq<byte>)
      returns (mid: nat)
    requires Fits(|realm|, lay.width) && AllFit(components, lay.width)
    requires Holds(data, pos, NamesBytes(lay.width, components, realm))
    ensures pos <= |data| && ArrayAt(lay, data, pos) == Ok(realm, mid)
    ensures mid <= |data| && ArraysAt(lay, data, mid, |components|) ==
      Ok(components, pos + |NamesBytes(lay.width, components, realm)|)
  {
    mid := RealmRead(lay, data, pos, components, realm);
    ArraysRoundTrip(lay, data, mid, components);
  }

  /** The realm reads back and the components follow it. */
  lemma RealmRead(lay: Layout, data: seq<byte>, pos: nat, components: seq<seq<byte>>, realm: seq<byte>)
      returns (mid: nat)
    requires Fits(|realm|, lay.width) && AllFit(components, lay.width)
    requires Holds(data, pos, NamesBytes(lay.width, components, realm))
    ensures pos <= |data| && ArrayAt(lay, data, pos) == Ok(realm, mid)
    ensures Holds(data, mid, ArraysBytes(lay.width, components))
    ensures mid + |ArraysBytes(lay.width, components)| == pos + |NamesBytes(lay.width, components, realm)|
  {
    HoldsSplit(data, pos, ArrayBytes(lay.width, realm), ArraysBytes(lay.width, components));
    ArrayRoundTrip(lay, data, pos, realm);
    mid := pos + lay.width + |realm|;
  }

  /** The key block layout decodes back; its key length is a u16 whatever the
      array width. */
  lemma KeyBlockRoundTrip(lay: Layout, data: seq<byte>, pos: nat, keyType: u16, etype: seq<byte>, key: seq<byte>)
    requires |etype| == 2 && Fits(|key|, 2)
    requires Holds(data, pos, KeyBlockBytes(lay.version, keyType, etype, key))
    ensures KeyBlockAt(lay, data, pos) ==
      Ok(KeyBlock(keyType, if lay.version > 0x0502 then Some(etype) else None, key),
         pos + |KeyBlockBytes(lay.version, keyType, etype, key)|)
  {
    var p := KeyTypeRead(lay, data, pos, keyType, etype, key);
    KeyRead(data, p, key);
  }

  /** The key type and the etype bytes read back, and the key follows them. */
  lemma KeyTypeRead(lay: Layout, data: seq<byte>, pos: nat, keyType: u16, etype: seq<byte>, key: seq<byte>)
      returns (p: nat)
    requires |etype| == 2 && Fits(|key|, 2)
    requires Holds(data, pos, KeyBlockBytes(lay.version, keyType, etype, key))
    ensures pos + 2 <= |data| && U16At(data, pos) == Ok(keyType, pos + 2)
    ensures lay.version > 0x0502 ==> Window(data, pos + 2, 2) == etype && p == pos + 4
    ensures lay.version <= 0x0502 ==> p == pos + 2
    ensures Holds(data, p, PackUInt(|key|, 2) + key)
    ensures p + 2 + |key| == pos + |KeyBlockBytes(lay.version, keyType, etype, key)|
  {
    FieldRanges();
    var e := if lay.version > 0x0502 then etype else [];
    var t := PackUInt(keyType, 2);
    var l := PackUInt(|key|, 2);
    assert KeyBlockBytes(lay.version, keyType, etype, key) == (t + e) + (l + key);
    HoldsSplit3(data, pos, t, e, l + key);
    UIntAtPacked(data, pos, keyType, 2);
    p := pos + 2 + |e|;
  }

  /** A key with its u16 length reads back. */
  lemma KeyRead(data: seq<byte>, pos: nat, key: seq<byte>)
    requires Fits(|key|, 2) && Holds(data, pos, PackUInt(|key|, 2) + key)
    ensures pos + 2 <= |data| && U16At(data, pos) == Ok(|key|, pos + 2)
    ensures Window(data, pos + 2, |key|) == key
  {
    FieldRanges();
    HoldsSplit(data, pos, PackUInt(|key|, 2), key);
    UIntAtPacked(data, pos, |key|, 2);
    HoldsWindow(data, pos + 2, key);
  }

  // ---------------------------------------------------------------- reading a file

  /** `_read_array`. */
  method ReadArray(f: File, lay: Layout) returns (r: Step<seq<byte>>)
    requires f.Valid()
    modifies f
    ensures f.Valid()
    ensures r == ArrayAt(lay, f.data, old(f.pos)) && (r.Ok? ==> f.pos == r.next)
  {
    var length := f.ReadUInt(lay.width);
    if !length.Ok? {
      return StructError;
    }
    var payload := f.Read(length.value);
    r := Ok(payload, f.pos);
  }

  /** `n` calls of `_read_array`, collected in order. */
  method ReadArrays(f: File, lay: Layout, n: nat) returns (r: Step<seq<seq<byte>>>)
    requires f.Valid()
    modifies f
    ensures f.Valid()
    ensures r == ArraysAt(lay, f.data, old(f.pos), n) && (r.Ok? ==> f.pos == r.next)
  {
    var items := [];
    ConsEmpty(ArraysAt(lay, f.data, f.pos, n));
    for i := 0 to n
      invariant f.Valid()
      invariant ArraysAt(lay, f.data, old(f.pos), n) == Cons(items, ArraysAt(lay, f.data, f.pos, n - i))
    {
      var a := ReadArray(f, lay);
      if !a.Ok? {
        return StructError;
      }
      ConsCons(items, [a.value], ArraysAt(lay, f.data, f.pos, n - i - 1));
      items := items + [a.value];
    }
    assert items + [] == items;
    r := Ok(items, f.pos);
  }

  /** `_read_principal`. */
  method ReadPrincipal(f: File, lay: Layout) returns (r: Step<Principal>)
    requires f.Valid()
    modifies f
    ensures f.Valid()
    ensures r == PrincipalAt(lay, f.data, old(f.pos)) && (r.Ok? ==> f.pos == r.next)
  {
    var nameType: Option<u32> := None;
    if lay.version == 0x0504 {
      var v := f.ReadU32();
      if !v.Ok? {
        return Eof;
      }
      nameType := Some(v.value);
    }
    var count := f.ReadUInt(lay.width);
    if !count.Ok? {
      return Eof;
    }
    var realm := ReadArray(f, lay);
    if !realm.Ok? {
      return StructError;
    }
    var components := ReadArrays(f, lay, count.value);
    if !components.Ok? {
      return StructError;
    }
    if lay.version == 0x0502 {
      var v := f.ReadU32();
      if !v.Ok? {
        return StructError;
      }
      nameType := Some(v.value);
    }
    r := Ok(Principal(nameType, PrincipalText(components.value, realm.value)), f.pos);
  }

  /** `_read_keyblock`. */
  method ReadKeyblock(f: File, lay: Layout) returns (r: Step<KeyBlock>)
    requires f.Valid()
    modifies f
    ensures f.Valid()
    ensures r == KeyBlockAt(lay, f.data, old(f.pos)) && (r.Ok? ==> f.pos == r.next)
  {
    var keyType := f.ReadU16();
    if !keyType.Ok? {
      return StructError;
    }
    var etype: Option<seq<byte>> := None;
    if lay.version > 0x0502 {
      var raw := f.Read(2);
      etype := Some(raw);
    }
    var length := f.ReadU16();
    if !length.Ok? {
      return StructError;
    }
    var key := f.Read(length.value);
    r := Ok(KeyBlock(keyType.value, etype, key), f.pos);
  }
}
