/**
 Disk blocks as bytes, and the little-endian 32-bit words an indirect table is made of.
 */
module Blocks {
  import opened Basics

  const BSIZE := 512

  type Byte = x: nat | x < 256
  type Block = b: seq<Byte> | |b| == BSIZE witness seq(BSIZE, i => 0)

  function ZeroBlock(): (b: Block)
    ensures forall m :: 0 <= m < BSIZE ==> b[m] == 0
  {
    seq(BSIZE, i => 0)
  }

  /** Word j of a block, as `((uint*)bp->data)[j]` reads it. */
  function Word(b: Block, j: nat): nat
    requires j < BSIZE / 4
  {
    var b0: int, b1: int, b2: int, b3: int := b[4 * j], b[4 * j + 1], b[4 * j + 2], b[4 * j + 3];
    b0 + 0x100 * b1 + 0x1_0000 * b2 + 0x100_0000 * b3
  }

  function SetWord(b: Block, j: nat, w: nat): (r: Block)
    requires j < BSIZE / 4 && w < UINT_LIMIT
    ensures forall m :: 0 <= m < BSIZE && m / 4 != j ==> r[m] == b[m]
    ensures Word(r, j) == w
  {
    var q1 := w / 256;
    var q2 := q1 / 256;
    var q3 := q2 / 256;
    var b0, b1, b2 := w % 256, q1 % 256, q2 % 256;
    assert w == 256 * q1 + b0 && q1 == 256 * q2 + b1 && q2 == 256 * q3 + b2 && q3 < 256;
    b[4 * j := b0][4 * j + 1 := b1][4 * j + 2 := b2][4 * j + 3 := q3]
  }

  /** A stored word reads back, and no other word moves. */
  lemma WordSetWord(b: Block, j: nat, w: nat, m: nat)
    requires j < BSIZE / 4 && m < BSIZE / 4 && w < UINT_LIMIT
    ensures Word(SetWord(b, j, w), m) == if m == j then w else Word(b, m)
  {
    if m != j {
      assert (4 * m) / 4 == m && (4 * m + 1) / 4 == m && (4 * m + 2) / 4 == m && (4 * m + 3) / 4 == m;
    }
  }

  lemma WordZero(j: nat)
    requires j < BSIZE / 4
    ensures Word(ZeroBlock(), j) == 0
  {
  }

  /** memmove of src into a block at offset off. */
  function Overwrite(b: Block, off: nat, src: seq<Byte>): (r: Block)
    requires off + |src| <= BSIZE
    ensures forall m :: 0 <= m < BSIZE ==> r[m] == if off <= m < off + |src| then src[m - off] else b[m]
  {
    b[..off] + src + b[off + |src|..]
  }
}
