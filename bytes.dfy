/** Fixed-width integer codecs of the two file formats: the `struct` formats
    `!B`, `!H`, `!i`, `!I` (big-endian) and `<L` (the one little-endian field,
    the credential-cache ticket flags). */
module Bytes {

  type byte = x: int | 0 <= x < 0x100
  type u8 = x: nat | x < 0x100
  type u16 = x: nat | x < 0x1_0000
  type u32 = x: nat | x < 0x1_0000_0000

  const Slash: byte := 47  // '/'
  const AtSign: byte := 64 // '@'

  /** Number of distinct values of a `width`-byte unsigned field. */
  function Pow256(width: nat): (r: nat)
    ensures r > 0
  {
    if width == 0 then 1 else 0x100 * Pow256(width - 1)
  }

  lemma FieldRanges()
    ensures Pow256(1) == 0x100 && Pow256(2) == 0x1_0000 && Pow256(4) == 0x1_0000_0000
  {
  }

  /** Big-endian unsigned value of `s` (most significant byte first). */
  function UInt(s: seq<byte>): (r: nat)
    ensures r < Pow256(|s|)
  {
    if s == [] then 0 else UInt(s[..|s| - 1]) * 0x100 + s[|s| - 1]
  }

  /** `struct.pack` of an unsigned big-endian field of `width` bytes. */
  function PackUInt(n: nat, width: nat): (r: seq<byte>)
    requires n < Pow256(width)
    ensures |r| == width && UInt(r) == n
  {
    if width == 0 then []
    else
      var r := PackUInt(n / 0x100, width - 1) + [n % 0x100];
      assert r[..|r| - 1] == PackUInt(n / 0x100, width - 1);
      r
  }

  /** Packing the value read from `s` gives `s` back: every byte string is
      the encoding of exactly one value of its width. */
  lemma {:induction false} PackUIntOfUInt(s: seq<byte>)
    ensures PackUInt(UInt(s), |s|) == s
  {
    if s != [] {
      var init := s[..|s| - 1];
      PackUIntOfUInt(init);
      assert UInt(s) / 0x100 == UInt(init);
      assert UInt(s) % 0x100 == s[|s| - 1];
      assert s == init + [s[|s| - 1]];
    }
  }

  /** `!i`: a big-endian two's-complement 32-bit integer. */
  function Int32(s: seq<byte>): (r: int)
    requires |s| == 4
    ensures -0x8000_0000 <= r < 0x8000_0000
    ensures r < 0 <==> s[0] >= 0x80
  {
    FieldRanges();
    ByteZeroIsTop(s);
    if UInt(s) < 0x8000_0000 then UInt(s) else UInt(s) - 0x1_0000_0000
  }

  lemma ByteZeroIsTop(s: seq<byte>)
    requires |s| == 4
    ensures UInt(s) == (s[0] as int) * 0x100_0000 + (s[1] as int) * 0x1_0000 + (s[2] as int) * 0x100 + s[3] as int
  {
    assert s[..3][..2] == s[..2] && s[..2][..1] == s[..1] && s[..1][..0] == [];
    assert UInt(s[..1]) == s[0];
    assert UInt(s[..2]) == UInt(s[..1]) * 0x100 + s[1];
    assert UInt(s[..3]) == UInt(s[..2]) * 0x100 + s[2];
    assert UInt(s) == UInt(s[..3]) * 0x100 + s[3];
  }

  /** `struct.pack('!i', n)`. */
  function PackInt32(n: int): (r: seq<byte>)
    requires -0x8000_0000 <= n < 0x8000_0000
    ensures |r| == 4 && Int32(r) == n
  {
    FieldRanges();
    var r := PackUInt(if n >= 0 then n else n + 0x1_0000_0000, 4);
    r
  }

  /** `<L`: an unsigned 32-bit integer, least significant byte first. */
  function UIntLE(s: seq<byte>): (r: nat)
    ensures r < Pow256(|s|)
  {
    if s == [] then 0 else s[0] + 0x100 * UIntLE(s[1..])
  }

  function Reversed(s: seq<byte>): (r: seq<byte>)
    ensures |r| == |s|
  {
    if s == [] then [] else Reversed(s[1..]) + [s[0]]
  }

  /** The little-endian value of `s` is the big-endian value of `s`
      read backwards. */
  lemma {:induction false} LittleEndianIsReversedBigEndian(s: seq<byte>)
    ensures UIntLE(s) == UInt(Reversed(s))
  {
    if s != [] {
      LittleEndianIsReversedBigEndian(s[1..]);
      var r := Reversed(s);
      assert r[..|r| - 1] == Reversed(s[1..]);
    }
  }

  lemma {:induction false} ReversedAppend(s: seq<byte>, x: byte)
    ensures Reversed(s + [x]) == [x] + Reversed(s)
  {
    if s != [] {
      assert (s + [x])[1..] == s[1..] + [x];
      ReversedAppend(s[1..], x);
    }
  }

  /** Reading a field backwards twice gives it back. */
  lemma {:induction false} ReversedTwice(s: seq<byte>)
    ensures Reversed(Reversed(s)) == s
  {
    if s != [] {
      ReversedTwice(s[1..]);
      ReversedAppend(Reversed(s[1..]), s[0]);
      assert s == [s[0]] + s[1..];
    }
  }
}
