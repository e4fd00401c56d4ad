/** The input file as the decoders see it: a byte string and a read
    position. `read(n)` hands back at most `n` bytes and never fails (a short
    read at the end of the file); `struct.unpack` of a field that came back
    short raises `struct.error`. */
module Stream {
  import opened Bytes

  function Min(a: int, b: int): int { if a <= b then a else b }

  /** How one decoding step ends: a value and the position after it, a fixed-
      width field cut short (`struct.error`, fatal to the whole load), or the
      `EOFError` that the entry loops treat as the normal end of the file. */
  datatype Step<+T> = Ok(value: T, next: nat) | StructError | Eof
  {
    predicate IsFailure() { !Ok? }

    function PropagateFailure<U>(): Step<U>
      requires !Ok?
    {
      if StructError? then StructError else Eof
    }

    function Extract(): (T, nat)
      requires Ok?
    {
      (value, next)
    }
  }

  /** How an entry loop stops: the `EOFError` it catches, or a `struct.error`
      that escapes `load`. */
  datatype Ending = EndOfFile | Failed

  /** The entries an entry loop appends before it stops, and how it stops. */
  datatype Scan<+T> = Scan(items: seq<T>, ending: Ending)

  /** Puts `prefix` in front of the items of a successful step. */
  function Cons<T>(prefix: seq<T>, s: Step<seq<T>>): (r: Step<seq<T>>)
    ensures r.Ok? <==> s.Ok?
    ensures r.Eof? <==> s.Eof?
    ensures r.Ok? ==> r.value == prefix + s.value && r.next == s.next
  {
    match s
    case Ok(items, next) => Ok(prefix + items, next)
    case StructError => StructError
    case Eof => Eof
  }

  lemma ConsEmpty<T>(s: Step<seq<T>>)
    ensures Cons([], s) == s
  {
    if s.Ok? {
      assert [] + s.value == s.value;
    }
  }

  lemma ConsCons<T>(a: seq<T>, b: seq<T>, s: Step<seq<T>>)
    ensures Cons(a, Cons(b, s)) == Cons(a + b, s)
  {
    if s.Ok? {
      assert a + (b + s.value) == (a + b) + s.value;
    }
  }

  /** What `read(n)` returns at position `pos`: the next `n` bytes, or all
      that is left when fewer than `n` remain. */
  function Window(data: seq<byte>, pos: nat, n: nat): (w: seq<byte>)
    requires pos <= |data|
    ensures |w| == Min(n, |data| - pos)
    ensures w == data[pos..pos + |w|]
  {
    data[pos..Min(pos + n, |data|)]
  }

  /** `enc` occurs in `data` at position `pos`. */
  predicate Holds(data: seq<byte>, pos: nat, enc: seq<byte>)
  {
    pos + |enc| <= |data| && data[pos..pos + |enc|] == enc
  }

  lemma HoldsSplit(data: seq<byte>, pos: nat, a: seq<byte>, b: seq<byte>)
    requires Holds(data, pos, a + b)
    ensures Holds(data, pos, a) && Holds(data, pos + |a|, b)
  {
    assert data[pos..pos + |a|] == (a + b)[..|a|];
    assert data[pos + |a|..pos + |a| + |b|] == (a + b)[|a|..];
  }

  lemma HoldsSplit3(data: seq<byte>, pos: nat, a: seq<byte>, b: seq<byte>, c: seq<byte>)
    requires Holds(data, pos, (a + b) + c)
    ensures Holds(data, pos, a) && Holds(data, pos + |a|, b) && Holds(data, pos + |a| + |b|, c)
  {
    HoldsSplit(data, pos, a + b, c);
    HoldsSplit(data, pos, a, b);
  }

  lemma HoldsSplit4(data: seq<byte>, pos: nat, a: seq<byte>, b: seq<byte>, c: seq<byte>, d: seq<byte>)
    requires Holds(data, pos, a + ((b + c) + d))
    ensures Holds(data, pos, a) && Holds(data, pos + |a|, b) && Holds(data, pos + |a| + |b|, c)
    ensures Holds(data, pos + |a| + |b| + |c|, d)
  {
    HoldsSplit(data, pos, a, (b + c) + d);
    HoldsSplit3(data, pos + |a|, b, c, d);
  }

  /** Records written one after the other. */
  function Concat(chunks: seq<seq<byte>>): seq<byte>
  {
    if chunks == [] then [] else chunks[0] + Concat(chunks[1..])
  }

  /** The first of the records written one after the other, then the others. */
  lemma FirstChunk(data: seq<byte>, pos: nat, chunks: seq<seq<byte>>) returns (next: nat)
    requires chunks != [] && Holds(data, pos, Concat(chunks))
    ensures Holds(data, pos, chunks[0]) && next == pos + |chunks[0]|
    ensures Holds(data, next, Concat(chunks[1..])) && next + |Concat(chunks[1..])| == pos + |Concat(chunks)|
  {
    next := pos + |chunks[0]|;
    HoldsSplit(data, pos, chunks[0], Concat(chunks[1..]));
  }

  /** Reading `|enc|` bytes where `enc` occurs gives `enc`. */
  lemma HoldsWindow(data: seq<byte>, pos: nat, enc: seq<byte>)
    requires Holds(data, pos, enc)
    ensures pos <= |data| && Window(data, pos, |enc|) == enc
  {
  }

  /** `struct.unpack` of an unsigned big-endian field of `width` bytes read
      at `pos`. */
  function UIntAt(data: seq<byte>, pos: nat, width: nat): (r: Step<nat>)
    requires pos <= |data|
    ensures !r.Eof?
    ensures r.Ok? <==> pos + width <= |data|
    ensures r.Ok? ==> r.next == pos + width && r.value < Pow256(width)
  {
    if pos + width <= |data| then Ok(UInt(data[pos..pos + width]), pos + width) else StructError
  }

  /** A field reads back the value that was packed into it. */
  lemma UIntAtPacked(data: seq<byte>, pos: nat, n: nat, width: nat)
    requires n < Pow256(width) && Holds(data, pos, PackUInt(n, width))
    ensures UIntAt(data, pos, width) == Ok(n, pos + width)
  {
  }

  function U8At(data: seq<byte>, pos: nat): (r: Step<u8>)
    requires pos <= |data|
    ensures !r.Eof?
    ensures r.Ok? <==> pos + 1 <= |data|
    ensures r.Ok? ==> r.next == pos + 1 && r.value == data[pos]
  {
    if pos + 1 <= |data| then
      assert data[pos..pos + 1][..0] == [];
      Ok(data[pos], pos + 1)
    else StructError
  }

  /** A one-byte field reads back the byte written there. */
  lemma U8AtPacked(data: seq<byte>, pos: nat, b: byte)
    requires Holds(data, pos, [b])
    ensures U8At(data, pos) == Ok(b, pos + 1)
  {
    assert data[pos..pos + 1][0] == b;
  }

  function U16At(data: seq<byte>, pos: nat): (r: Step<u16>)
    requires pos <= |data|
    ensures !r.Eof?
    ensures r.Ok? <==> pos + 2 <= |data|
    ensures r.Ok? ==> r.next == pos + 2 && r.value == UInt(data[pos..pos + 2])
  {
    FieldRanges();
    if pos + 2 <= |data| then Ok(UInt(data[pos..pos + 2]), pos + 2) else StructError
  }

  function U32At(data: seq<byte>, pos: nat): (r: Step<u32>)
    requires pos <= |data|
    ensures !r.Eof?
    ensures r.Ok? <==> pos + 4 <= |data|
    ensures r.Ok? ==> r.next == pos + 4 && r.value == UInt(data[pos..pos + 4])
  {
    FieldRanges();
    if pos + 4 <= |data| then Ok(UInt(data[pos..pos + 4]), pos + 4) else StructError
  }

  function U32LEAt(data: seq<byte>, pos: nat): (r: Step<u32>)
    requires pos <= |data|
    ensures !r.Eof?
    ensures r.Ok? <==> pos + 4 <= |data|
    ensures r.Ok? ==> r.next == pos + 4 && r.value == UInt(Reversed(data[pos..pos + 4]))
  {
    FieldRanges();
    if pos + 4 <= |data| then
      LittleEndianIsReversedBigEndian(data[pos..pos + 4]);
      Ok(UIntLE(data[pos..pos + 4]), pos + 4)
    else StructError
  }

  /** An open file: its whole contents and the current position `tell()`. */
  class File {
    const data: seq<byte>
    var pos: nat

    ghost predicate Valid()
      reads this
    {
      pos <= |data|
    }

    constructor Open(contents: seq<byte>)
      ensures Valid() && data == contents && pos == 0
    {
      data := contents;
      pos := 0;
    }

    /** `read(n)`: a short read at the end of the file is not an error. */
    method Read(n: nat) returns (chunk: seq<byte>)
      requires Valid()
      modifies this
      ensures Valid()
      ensures chunk == Window(data, old(pos), n) && pos == old(pos) + |chunk|
    {
      chunk := data[pos..Min(pos + n, |data|)];
      pos := pos + |chunk|;
    }

    /** `struct.unpack(fmt, read(width))` for an unsigned big-endian field. */
    method ReadUInt(width: nat) returns (r: Step<nat>)
      requires Valid()
      modifies this
      ensures Valid()
      ensures r == UIntAt(data, old(pos), width)
      ensures pos == old(pos) + |Window(data, old(pos), width)|
    {
      var chunk := Read(width);
      if |chunk| < width {
        r := StructError;
      } else {
        r := Ok(UInt(chunk), pos);
      }
    }

    /** `char.unpack(read(1))`. */
    method ReadU8() returns (r: Step<u8>)
      requires Valid()
      modifies this
      ensures Valid()
      ensures r == U8At(data, old(pos)) && pos == Min(old(pos) + 1, |data|)
    {
      var v := ReadUInt(1);
      r := if v.Ok? then Ok(v.value, v.next) else StructError;
    }

    /** `uint16.unpack(read(2))`. */
    method ReadU16() returns (r: Step<u16>)
      requires Valid()
      modifies this
      ensures Valid()
      ensures r == U16At(data, old(pos)) && pos == Min(old(pos) + 2, |data|)
    {
      var v := ReadUInt(2);
      r := if v.Ok? then Ok(v.value, v.next) else StructError;
    }

    /** `uint32.unpack(read(4))`. */
    method ReadU32() returns (r: Step<u32>)
      requires Valid()
      modifies this
      ensures Valid()
      ensures r == U32At(data, old(pos)) && pos == Min(old(pos) + 4, |data|)
    {
      var v := ReadUInt(4);
      r := if v.Ok? then Ok(v.value, v.next) else StructError;
    }

    /** `struct.unpack("<L", read(4))`. */
    method ReadU32LE() returns (r: Step<u32>)
      requires Valid()
      modifies this
      ensures Valid()
      ensures r == U32LEAt(data, old(pos)) && pos == Min(old(pos) + 4, |data|)
    {
      var chunk := Read(4);
      if |chunk| < 4 {
        r := StructError;
      } else {
        FieldRanges();
        LittleEndianIsReversedBigEndian(chunk);
        r := Ok(UIntLE(chunk), pos);
      }
    }
  }
}
