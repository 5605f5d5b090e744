/** Octets, 32-bit words and the big-endian length prefix shared by both wire formats. */
module Bytes {

  type byte = x: int | 0 <= x < 256

  /** Digests are only ever compared. */
  type Digest = seq<byte>

  /** Session identifiers are only ever compared. */
  type SessionId = nat

  const TWO_32: nat := 0x1_0000_0000

  datatype Option<+T> = None | Some(value: T)

  lemma Associate<T>(a: seq<T>, b: seq<T>, c: seq<T>)
    ensures a + b + c == a + (b + c)
  {
  }

  /** `static_cast<uint32_t>` of a size. */
  function Truncate32(n: nat): (w: nat)
    ensures w < TWO_32
    ensures w == n <==> n < TWO_32
  {
    n % TWO_32
  }

  /** `width` octets of `w`, most significant first. */
  function BigEndian(w: nat, width: nat): (b: seq<byte>)
    ensures |b| == width
  {
    if width == 0 then [] else BigEndian(w / 256, width - 1) + [w % 256]
  }

  function FromBigEndian(b: seq<byte>): nat
  {
    if b == [] then 0 else FromBigEndian(b[..|b| - 1]) * 256 + b[|b| - 1] as int
  }

  function Power256(n: nat): (p: nat)
    ensures p > 0
  {
    if n == 0 then 1 else 256 * Power256(n - 1)
  }

  lemma {:induction false} BigEndianInverse(w: nat, width: nat)
    requires w < Power256(width)
    ensures FromBigEndian(BigEndian(w, width)) == w
  {
    if width > 0 {
      BigEndianInverse(w / 256, width - 1);
      assert BigEndian(w, width)[..width - 1] == BigEndian(w / 256, width - 1);
    }
  }

  lemma {:induction false} FromBigEndianBound(b: seq<byte>)
    ensures FromBigEndian(b) < Power256(|b|)
  {
    if b != [] { FromBigEndianBound(b[..|b| - 1]); }
  }

  lemma Power256Of4()
    ensures Power256(4) == TWO_32
  {
    assert Power256(1) == 256 && Power256(2) == 0x1_0000 && Power256(3) == 0x100_0000;
  }

  /** The octets of a 32-bit length or count. */
  function U32Bytes(w: nat): (b: seq<byte>)
    requires w < TWO_32
    ensures |b| == 4
  {
    BigEndian(w, 4)
  }

  function ReadU32(data: seq<byte>, offset: nat): (w: nat)
    requires offset + 4 <= |data|
    ensures w < TWO_32
  {
    Power256Of4();
    FromBigEndianBound(data[offset..offset + 4]);
    FromBigEndian(data[offset..offset + 4])
  }

  /** The shifts and masks of `append_u32` push exactly these octets. */
  lemma ShiftsAreBigEndian(w: nat)
    requires w < TWO_32
    ensures U32Bytes(w) == [w / 0x100_0000 % 256, w / 0x1_0000 % 256, w / 0x100 % 256, w % 256]
  {
    var a := w / 256;
    var b := a / 256;
    var c := b / 256;
    assert BigEndian(w, 4) == BigEndian(a, 3) + [w % 256];
    assert BigEndian(a, 3) == BigEndian(b, 2) + [a % 256];
    assert BigEndian(b, 2) == BigEndian(c, 1) + [b % 256];
    assert BigEndian(c, 1) == BigEndian(c / 256, 0) + [c % 256] == [c % 256];
    assert b == w / 0x1_0000;
    assert c == w / 0x100_0000;
  }

  /** The shifts and ors of `read_u32` compute the same word. */
  lemma OrsAreBigEndian(data: seq<byte>, offset: nat)
    requires offset + 4 <= |data|
    ensures ReadU32(data, offset)
         == data[offset] as int * 0x100_0000 + data[offset + 1] as int * 0x1_0000
            + data[offset + 2] as int * 0x100 + data[offset + 3] as int
  {
    var d := data[offset..offset + 4];
    assert d[..3][..2] == d[..2] && d[..2][..1] == d[..1] && d[..1][..0] == [];
    assert FromBigEndian(d[..1]) == d[0] as int;
    assert FromBigEndian(d[..2]) == d[0] as int * 256 + d[1] as int;
    assert FromBigEndian(d[..3]) == FromBigEndian(d[..2]) * 256 + d[2] as int;
  }

  /** Reading a word where it was written gives the word back. */
  lemma ReadBack(w: nat, data: seq<byte>, offset: nat)
    requires w < TWO_32
    requires offset + 4 <= |data| && data[offset..offset + 4] == U32Bytes(w)
    ensures ReadU32(data, offset) == w
  {
    Power256Of4();
    BigEndianInverse(w, 4);
  }
}
