/** Disk blocks as bytes: the little-endian words of an indirect block and the
    packed bits of the free map, each with the laws of a lens. */
module BlockFormat {
  const BSIZE := 1024
  const NINDIRECT := 256       // BSIZE / sizeof(uint)
  const BPB := 8192            // BSIZE * 8, bits per bitmap block

  type byte = x: int | 0 <= x < 256
  type uint32 = x: int | 0 <= x < 0x1_0000_0000
  type Block = b: seq<byte> | |b| == BSIZE witness seq(BSIZE, _ => 0)

  function ZeroBlock(): Block { seq(BSIZE, _ => 0) }

  // ----- Words -----------------------------------------------------------------

  function Word(b: Block, i: nat): uint32
    requires i < NINDIRECT
  {
    var b0: int, b1: int, b2: int, b3: int := b[4 * i], b[4 * i + 1], b[4 * i + 2], b[4 * i + 3];
    b0 + 0x100 * b1 + 0x1_0000 * b2 + 0x100_0000 * b3
  }

  function SetWord(b: Block, i: nat, v: uint32): Block
    requires i < NINDIRECT
  {
    b[4 * i := v % 0x100][4 * i + 1 := v / 0x100 % 0x100]
     [4 * i + 2 := v / 0x1_0000 % 0x100][4 * i + 3 := v / 0x100_0000]
  }

  lemma Bytes4(v: uint32)
    ensures v == v % 0x100 + 0x100 * (v / 0x100 % 0x100) + 0x1_0000 * (v / 0x1_0000 % 0x100)
                 + 0x100_0000 * (v / 0x100_0000)
  {
    var q1, q2 := v / 0x100, v / 0x1_0000;
    assert q2 == q1 / 0x100;
    assert v / 0x100_0000 == q2 / 0x100;
  }

  /** A stored word is read back and no other word changes. */
  lemma WordOfSetWord(b: Block, i: nat, v: uint32, j: nat)
    requires i < NINDIRECT && j < NINDIRECT
    ensures Word(SetWord(b, i, v), j) == if i == j then v else Word(b, j)
  {
    Bytes4(v);
  }

  // ----- Bits ------------------------------------------------------------------

  /** `x & (1 << k)` is not zero */
  predicate BitOf(x: nat, k: nat) {
    if k == 0 then x % 2 == 1 else BitOf(x / 2, k - 1)
  }

  /** `x | (1 << k)` if `v`, `x & ~(1 << k)` otherwise */
  function PutBit(x: nat, k: nat, v: bool): nat {
    if k == 0 then x / 2 * 2 + (if v then 1 else 0) else 2 * PutBit(x / 2, k - 1, v) + x % 2
  }

  function Pow2(w: nat): nat { if w == 0 then 1 else 2 * Pow2(w - 1) }

  lemma {:induction false} BitOfPutBit(x: nat, k: nat, v: bool, j: nat)
    ensures BitOf(PutBit(x, k, v), j) == if j == k then v else BitOf(x, j)
  {
    var y := PutBit(x, k, v);
    if k > 0 {
      assert y / 2 == PutBit(x / 2, k - 1, v);
      if j > 0 { BitOfPutBit(x / 2, k - 1, v, j - 1); }
    } else {
      assert y / 2 == x / 2;
    }
  }

  lemma {:induction false} PutBitRange(x: nat, k: nat, v: bool, w: nat)
    requires x < Pow2(w) && k < w
    ensures PutBit(x, k, v) < Pow2(w)
  {
    if k > 0 { PutBitRange(x / 2, k - 1, v, w - 1); }
  }

  /** Bit `bi` of a bitmap block: bit `bi % 8` of byte `bi / 8`. */
  predicate Bit(b: Block, bi: nat)
    requires bi < BPB
  {
    BitOf(b[bi / 8], bi % 8)
  }

  function SetBit(b: Block, bi: nat, v: bool): Block
    requires bi < BPB
  {
    PutBitRange(b[bi / 8], bi % 8, v, 8);
    assert Pow2(8) == 256;
    b[bi / 8 := PutBit(b[bi / 8], bi % 8, v)]
  }

  /** A stored bit is read back and no other bit changes. */
  lemma BitOfSetBit(b: Block, bi: nat, v: bool, bj: nat)
    requires bi < BPB && bj < BPB
    ensures Bit(SetBit(b, bi, v), bj) == if bi == bj then v else Bit(b, bj)
  {
    BitOfPutBit(b[bi / 8], bi % 8, v, bj % 8);
  }

  lemma ZeroWord(i: nat)
    requires i < NINDIRECT
    ensures Word(ZeroBlock(), i) == 0
  {
  }
}
