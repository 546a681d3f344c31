/** Disk blocks and the two encodings the kernel keeps in them: little-endian
    32-bit words (log header, indirect block) and single bits (free map). */
module Blocks {
  import opened Common

  const BSIZE: nat := 512
  const NWORDS: nat := 128

  type Bytes = s: seq<Byte> | |s| == BSIZE witness seq(BSIZE, _ => 0)

  datatype Block = Block(bytes: Bytes)

  /** The number that four little-endian bytes stand for. */
  function Decode(s: seq<Byte>): (w: nat)
    requires |s| == 4
    ensures w < UINT_LIMIT
  {
    var b0: int, b1: int, b2: int, b3: int := s[0], s[1], s[2], s[3];
    b0 + 0x100 * (b1 + 0x100 * (b2 + 0x100 * b3))
  }

  function Encode(w: nat): (s: seq<Byte>)
    requires w < UINT_LIMIT
    ensures |s| == 4 && Decode(s) == w
  {
    var w1 := w / 0x100;
    var w2 := w1 / 0x100;
    [w % 0x100, w1 % 0x100, w2 % 0x100, w2 / 0x100]
  }

  /** The i-th little-endian word of a block. */
  function GetWord(b: Block, i: nat): (w: nat)
    requires i < NWORDS
    ensures w < UINT_LIMIT
  {
    Decode(b.bytes[4 * i..4 * i + 4])
  }

  /** The block with its i-th word replaced. */
  function PutWord(b: Block, i: nat, w: nat): (r: Block)
    requires i < NWORDS && w < UINT_LIMIT
    ensures GetWord(r, i) == w
    ensures forall j | 0 <= j < NWORDS && j != i :: GetWord(r, j) == GetWord(b, j)
  {
    var s := b.bytes;
    var r := s[..4 * i] + Encode(w) + s[4 * i + 4..];
    assert r[4 * i..4 * i + 4] == Encode(w);
    assert forall j | 0 <= j < NWORDS && j != i :: r[4 * j..4 * j + 4] == s[4 * j..4 * j + 4];
    Block(r)
  }

  /** What `bzero` leaves in a block. */
  function ZeroBlock(): (z: Block)
    ensures forall i | 0 <= i < BSIZE :: z.bytes[i] == 0
    ensures forall i | 0 <= i < NWORDS :: GetWord(z, i) == 0
  {
    Block(seq(BSIZE, _ => 0))
  }

  function Pow2(k: nat): (p: nat)
    ensures 1 <= p
  {
    if k == 0 then 1 else 2 * Pow2(k - 1)
  }

  lemma Pow2Of8()
    ensures Pow2(8) == 256
  {
    assert Pow2(4) == 16;
  }

  /** Bit k of a number. */
  predicate Bit(v: nat, k: nat) {
    if k == 0 then v % 2 == 1 else Bit(v / 2, k - 1)
  }

  /** `v |= 1 << k` (on = true) and `v &= ~(1 << k)` (on = false), on numbers of the given width. */
  function WithBit(v: nat, k: nat, on: bool, width: nat): (r: nat)
    requires k < width && v < Pow2(width)
    ensures r < Pow2(width)
    ensures Bit(r, k) == on
    ensures forall j: nat | j != k :: Bit(r, j) == Bit(v, j)
  {
    if k == 0 then
      var r := 2 * (v / 2) + if on then 1 else 0;
      assert r / 2 == v / 2;
      r
    else
      var h := WithBit(v / 2, k - 1, on, width - 1);
      var r := 2 * h + v % 2;
      assert r / 2 == h;
      assert forall j: nat | j != k && j > 0 :: Bit(r, j) == Bit(h, j - 1);
      r
  }

  lemma ZeroBits(k: nat)
    ensures !Bit(0, k)
  {
  }

  const BPB: nat := 4096

  predicate BlockBit(b: Block, i: nat)
    requires i < BPB
  {
    Bit(b.bytes[i / 8], i % 8)
  }

  /** The block with bit i of the map set or cleared; every other bit is kept. */
  function WithBlockBit(b: Block, i: nat, on: bool): (r: Block)
    requires i < BPB
    ensures BlockBit(r, i) == on
    ensures forall j | 0 <= j < BPB && j != i :: BlockBit(r, j) == BlockBit(b, j)
  {
    Pow2Of8();
    Block(b.bytes[i / 8 := WithBit(b.bytes[i / 8], i % 8, on, 8)])
  }
}
