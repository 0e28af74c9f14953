/** The disk image under the inode layer of kernel/fs.c: who owns which block,
    and which bytes each inode holds.  Everything is stored where the kernel
    stores it: block numbers in inodes and in indirect blocks, allocation in
    the packed bitmap, bytes in data blocks. */
module FsState {
  import opened BlockFormat

  const NDIRECT := 12
  const MAXFILE := 268         // NDIRECT + NINDIRECT
  const NSLOTS := 269          // one more for the indirect block itself

  /** Blocks below `nmeta` are boot, super, log, inode and bitmap blocks. */
  datatype Super = Super(size: nat, nmeta: nat, inodestart: nat, bmapstart: nat) {
    predicate Valid() {
      && 0 < nmeta <= size < 0x1_0000_0000
      && inodestart < bmapstart
      && bmapstart + (size + BPB - 1) / BPB <= nmeta
    }
    function BBlock(b: nat): nat { b / BPB + bmapstart }
    function IBlock(ino: nat): nat { ino / 16 + inodestart }     // IPB == 16
  }

  datatype Inode = Inode(size: nat, addrs: seq<uint32>)

  datatype Fs = Fs(sb: Super, blocks: seq<Block>, inodes: seq<Inode>)

  predicate InodeOk(sb: Super, ip: Inode) {
    |ip.addrs| == NDIRECT + 1 && ip.size <= MAXFILE * BSIZE && ip.addrs[NDIRECT] < sb.size
  }

  predicate Shape(s: Fs) {
    && s.sb.Valid() && |s.blocks| == s.sb.size
    && forall i :: 0 <= i < |s.inodes| ==> InodeOk(s.sb, s.inodes[i])
  }

  /** A place that can hold a block number: `addrs[k]` for k <= NDIRECT, or
      entry k - NDIRECT - 1 of the indirect block. */
  datatype Slot = Slot(ino: nat, k: nat)

  predicate IsSlot(s: Fs, x: Slot) { x.ino < |s.inodes| && x.k < NSLOTS }

  function At(s: Fs, x: Slot): uint32
    requires Shape(s) && IsSlot(s, x)
  {
    var a := s.inodes[x.ino].addrs;
    if x.k <= NDIRECT then a[x.k]
    else if a[NDIRECT] == 0 then 0
    else Word(s.blocks[a[NDIRECT]], x.k - NDIRECT - 1)
  }

  function FileSlot(ino: nat, bn: nat): Slot {
    Slot(ino, if bn < NDIRECT then bn else bn + 1)
  }

  predicate InUse(s: Fs, b: nat)
    requires Shape(s) && b < s.sb.size
  {
    Bit(s.blocks[s.sb.BBlock(b)], b % BPB)
  }

  ghost predicate Owned(s: Fs, b: nat, gone: set<Slot>)
    requires Shape(s)
  {
    exists x :: IsSlot(s, x) && x !in gone && At(s, x) == b
  }

  // ----- The ownership invariant -------------------------------------------------

  ghost predicate Ranged(s: Fs)
    requires Shape(s)
  {
    forall x :: IsSlot(s, x) ==> At(s, x) == 0 || s.sb.nmeta <= At(s, x) < s.sb.size
  }

  /** No block is reachable from two slots. */
  ghost predicate Unshared(s: Fs)
    requires Shape(s)
  {
    forall x, y {:trigger IsSlot(s, x), IsSlot(s, y)} ::
      IsSlot(s, x) && IsSlot(s, y) && x != y && At(s, x) != 0 ==> At(s, x) != At(s, y)
  }

  /** The bitmap marks the metadata, the blocks in slots (`gone` ones apart)
      and the `loose` blocks, which are allocated but not yet in a slot. */
  ghost predicate Marked(s: Fs, loose: set<nat>, gone: set<Slot>)
    requires Shape(s)
  {
    && (forall b :: b in loose ==> s.sb.nmeta <= b < s.sb.size && !Owned(s, b, {}))
    && forall b {:trigger InUse(s, b)} {:trigger Owned(s, b, gone)} :: 0 <= b < s.sb.size ==>
         (InUse(s, b) <==> b < s.sb.nmeta || b in loose || Owned(s, b, gone))
  }

  ghost predicate Tight(s: Fs, loose: set<nat>, gone: set<Slot>) {
    Shape(s) && Ranged(s) && Unshared(s) && Marked(s, loose, gone)
  }

  /** Every block below an inode's size is mapped. */
  predicate NoHoles(s: Fs)
    requires Shape(s)
  {
    forall ino, bn :: 0 <= ino < |s.inodes| && 0 <= bn < MAXFILE && bn * BSIZE < s.inodes[ino].size ==>
      At(s, FileSlot(ino, bn)) != 0
  }

  ghost predicate Inv(s: Fs) { Tight(s, {}, {}) && NoHoles(s) }

  // ----- Bytes ----------------------------------------------------------------------

  /** Byte `i` of an inode; an unmapped block reads as zeros. */
  function ByteAt(s: Fs, ino: nat, i: nat): byte
    requires Shape(s) && ino < |s.inodes| && i < MAXFILE * BSIZE
  {
    var a := At(s, FileSlot(ino, i / BSIZE));
    if a == 0 || a >= s.sb.size then 0 else s.blocks[a][i % BSIZE]
  }

  /** The abstract value of an inode. */
  function Contents(s: Fs, ino: nat): seq<byte>
    requires Shape(s) && ino < |s.inodes|
  {
    seq(s.inodes[ino].size, i requires 0 <= i < s.inodes[ino].size => ByteAt(s, ino, i))
  }

  ghost predicate SameBytes(s: Fs, s': Fs)
    requires Shape(s) && Shape(s') && |s'.inodes| == |s.inodes|
  {
    forall ino, i :: 0 <= ino < |s.inodes| && 0 <= i < MAXFILE * BSIZE ==> ByteAt(s', ino, i) == ByteAt(s, ino, i)
  }

  ghost predicate SameSlots(s: Fs, s': Fs)
    requires Shape(s) && Shape(s') && |s'.inodes| == |s.inodes|
  {
    forall x :: IsSlot(s, x) ==> At(s', x) == At(s, x)
  }

  // ----- Primitive changes -------------------------------------------------------------

  function SetBlock(s: Fs, b: nat, data: Block): Fs
    requires b < |s.blocks|
  {
    Fs(s.sb, s.blocks[b := data], s.inodes)
  }

  function MarkBit(s: Fs, b: nat, v: bool): Fs
    requires Shape(s) && b < s.sb.size
  {
    SetBlock(s, s.sb.BBlock(b), SetBit(s.blocks[s.sb.BBlock(b)], b % BPB, v))
  }

  lemma MarkBitEffect(s: Fs, b: nat, v: bool)
    requires Shape(s) && Ranged(s) && b < s.sb.size
    ensures var s' := MarkBit(s, b, v);
            && Shape(s') && SameSlots(s, s') && SameBytes(s, s')
            && forall c :: 0 <= c < s.sb.size ==> InUse(s', c) == if c == b then v else InUse(s, c)
  {
    var s' := MarkBit(s, b, v);
    assert s.sb.BBlock(b) < s.sb.nmeta;
    forall x | IsSlot(s, x) ensures At(s', x) == At(s, x) {
      assert IsSlot(s, Slot(x.ino, NDIRECT)) && At(s, Slot(x.ino, NDIRECT)) == s.inodes[x.ino].addrs[NDIRECT];
    }
    forall c | 0 <= c < s.sb.size ensures InUse(s', c) == if c == b then v else InUse(s, c) {
      if c / BPB == b / BPB { BitOfSetBit(s.blocks[s.sb.BBlock(b)], b % BPB, v, c % BPB); }
    }
    forall ino, i | 0 <= ino < |s.inodes| && 0 <= i < MAXFILE * BSIZE ensures ByteAt(s', ino, i) == ByteAt(s, ino, i) {
      assert IsSlot(s, FileSlot(ino, i / BSIZE));
    }
  }

  /** `balloc` once it has found `b`: mark it, zero it. */
  function AllocAt(s: Fs, b: nat): Fs
    requires Shape(s) && b < s.sb.size
  {
    SetBlock(MarkBit(s, b, true), b, ZeroBlock())
  }

  /** A block in no slot can change without changing a slot or a byte. */
  lemma UnownedEffect(s: Fs, b: nat, data: Block)
    requires Shape(s) && Ranged(s) && s.sb.nmeta <= b < s.sb.size && !Owned(s, b, {})
    ensures var s' := SetBlock(s, b, data);
            && Shape(s') && SameSlots(s, s') && SameBytes(s, s')
            && forall c :: 0 <= c < s.sb.size ==> InUse(s', c) == InUse(s, c)
  {
    var s' := SetBlock(s, b, data);
    forall x | IsSlot(s, x) ensures At(s', x) == At(s, x) && At(s, x) != b {
      var ind := Slot(x.ino, NDIRECT);
      assert IsSlot(s, ind) && At(s, ind) == s.inodes[x.ino].addrs[NDIRECT];
    }
    forall ino, i | 0 <= ino < |s.inodes| && 0 <= i < MAXFILE * BSIZE ensures ByteAt(s', ino, i) == ByteAt(s, ino, i) {
      assert IsSlot(s, FileSlot(ino, i / BSIZE));
    }
  }

  lemma SameTrans(s: Fs, m: Fs, s': Fs)
    requires Shape(s) && Shape(m) && Shape(s') && |s.inodes| == |m.inodes| == |s'.inodes|
    ensures SameSlots(s, m) && SameSlots(m, s') ==> SameSlots(s, s')
    ensures SameBytes(s, m) && SameBytes(m, s') ==> SameBytes(s, s')
  {
    if SameBytes(s, m) && SameBytes(m, s') {
      forall ino, i | 0 <= ino < |s.inodes| && 0 <= i < MAXFILE * BSIZE
        ensures ByteAt(s', ino, i) == ByteAt(s, ino, i)
      {
        assert ByteAt(m, ino, i) == ByteAt(s, ino, i);
      }
    }
    if SameSlots(s, m) && SameSlots(m, s') {
      forall x | IsSlot(s, x) ensures At(s', x) == At(s, x) { assert At(m, x) == At(s, x); }
    }
  }

  lemma OwnedSame(s: Fs, s': Fs, b: nat, gone: set<Slot>)
    requires Shape(s) && Shape(s') && |s'.inodes| == |s.inodes| && SameSlots(s, s')
    ensures Owned(s', b, gone) == Owned(s, b, gone)
  {
    if Owned(s, b, gone) {
      var x :| IsSlot(s, x) && x !in gone && At(s, x) == b;
      assert IsSlot(s', x) && At(s', x) == b;
    }
    if Owned(s', b, gone) {
      var x :| IsSlot(s', x) && x !in gone && At(s', x) == b;
      assert IsSlot(s, x) && At(s, x) == b;
    }
  }

  /** With the same slots the rest of the invariant is a matter of the map. */
  lemma TightFromMap(s: Fs, s': Fs, loose: set<nat>, gone: set<Slot>, loose': set<nat>, gone': set<Slot>)
    requires Tight(s, loose, gone) && Shape(s') && s'.sb == s.sb && |s'.inodes| == |s.inodes| && SameSlots(s, s')
    requires forall b :: b in loose' ==> s.sb.nmeta <= b < s.sb.size && !Owned(s, b, {})
    requires forall b :: 0 <= b < s.sb.size ==>
               (InUse(s', b) <==> b < s.sb.nmeta || b in loose' || Owned(s, b, gone'))
    ensures Tight(s', loose', gone')
  {
    forall x | IsSlot(s, x) ensures At(s', x) == At(s, x) {}
    forall b: nat ensures Owned(s', b, gone') == Owned(s, b, gone') && Owned(s', b, {}) == Owned(s, b, {}) {
      OwnedSame(s, s', b, gone');
      OwnedSame(s, s', b, {});
    }
  }

  /** A free block belongs to nobody, so zeroing it changes nothing but the map. */
  lemma AllocAtEffect(s: Fs, loose: set<nat>, b: nat)
    requires Tight(s, loose, {}) && b < s.sb.size && !InUse(s, b)
    ensures var s' := AllocAt(s, b);
            && Tight(s', loose + {b}, {}) && SameSlots(s, s') && SameBytes(s, s')
            && s.sb.nmeta <= b && b !in loose && !Owned(s, b, {}) && s'.blocks[b] == ZeroBlock()
            && s'.inodes == s.inodes
  {
    var m, s' := MarkBit(s, b, true), AllocAt(s, b);
    MarkBitEffect(s, b, true);
    OwnedSame(s, m, b, {});
    UnownedEffect(m, b, ZeroBlock());
    SameTrans(s, m, s');
    TightFromMap(s, s', loose, {}, loose + {b}, {});
  }

  /** `s'` is `s` with the loose block `b` put into the empty slot `x`. */
  ghost predicate Attached(s: Fs, s': Fs, x: Slot, b: nat)
    requires Shape(s) && Shape(s') && |s'.inodes| == |s.inodes| && IsSlot(s, x)
  {
    && At(s, x) == 0 && At(s', x) == b
    && (forall y :: IsSlot(s, y) && y != x ==> At(s', y) == At(s, y))
    && s'.sb == s.sb && (forall c :: 0 <= c < s.sb.size ==> InUse(s', c) == InUse(s, c))
  }

  lemma AttachedTight(s: Fs, s': Fs, loose: set<nat>, x: Slot, b: nat)
    requires Tight(s, loose, {}) && Shape(s') && |s'.inodes| == |s.inodes| && IsSlot(s, x)
    requires b in loose && Attached(s, s', x, b)
    ensures Tight(s', loose - {b}, {})
  {
    forall y | IsSlot(s, y) ensures At(s, y) != b {
    }
    forall c | 0 <= c < s.sb.size ensures c != 0 ==> Owned(s', c, {}) == (c == b || Owned(s, c, {})) {
      if c != 0 && Owned(s, c, {}) {
        var y :| IsSlot(s, y) && At(s, y) == c;
        assert IsSlot(s', y) && At(s', y) == c;
      }
      if Owned(s', c, {}) {
        var y :| IsSlot(s', y) && At(s', y) == c;
        assert y != x ==> IsSlot(s, y) && At(s, y) == c;
      }
      assert IsSlot(s', x) && At(s', x) == b;
    }
  }

  function SetAddr(s: Fs, ino: nat, k: nat, b: uint32): Fs
    requires Shape(s) && ino < |s.inodes| && k <= NDIRECT
  {
    var ip := s.inodes[ino];
    Fs(s.sb, s.blocks, s.inodes[ino := Inode(ip.size, ip.addrs[k := b])])
  }

  /** `ip->addrs[k] = b` for a fresh zeroed block, direct or indirect. */
  lemma SetAddrAttaches(s: Fs, loose: set<nat>, ino: nat, k: nat, b: nat)
    requires Tight(s, loose, {}) && ino < |s.inodes| && k <= NDIRECT
    requires b in loose && s.inodes[ino].addrs[k] == 0 && s.blocks[b] == ZeroBlock()
    ensures var s' := SetAddr(s, ino, k, b);
            && Tight(s', loose - {b}, {}) && SameBytes(s, s') && Attached(s, s', Slot(ino, k), b)
  {
    var s' := SetAddr(s, ino, k, b);
    var x := Slot(ino, k);
    forall y | IsSlot(s, y) && y != x ensures At(s', y) == At(s, y) {
      if k == NDIRECT && y.ino == ino && y.k > NDIRECT { ZeroWord(y.k - NDIRECT - 1); }
    }
    AttachedTight(s, s', loose, x, b);
    forall j, i | 0 <= j < |s.inodes| && 0 <= i < MAXFILE * BSIZE ensures ByteAt(s', j, i) == ByteAt(s, j, i) {
      assert IsSlot(s, FileSlot(j, i / BSIZE));
    }
  }

  function SetEntry(s: Fs, ino: nat, j: nat, b: uint32): Fs
    requires Shape(s) && ino < |s.inodes| && j < NINDIRECT
  {
    var a := s.inodes[ino].addrs[NDIRECT];
    SetBlock(s, a, SetWord(s.blocks[a], j, b))
  }

  lemma SetEntrySlots(s: Fs, loose: set<nat>, ino: nat, j: nat, b: nat)
    requires Tight(s, loose, {}) && ino < |s.inodes| && j < NINDIRECT && b in loose
    requires s.inodes[ino].addrs[NDIRECT] != 0 && At(s, Slot(ino, NDIRECT + 1 + j)) == 0
    ensures var s' := SetEntry(s, ino, j, b);
            Shape(s') && Attached(s, s', Slot(ino, NDIRECT + 1 + j), b)
  {
    var s' := SetEntry(s, ino, j, b);
    var ind, x := Slot(ino, NDIRECT), Slot(ino, NDIRECT + 1 + j);
    assert IsSlot(s, ind) && At(s, ind) == s.inodes[ino].addrs[NDIRECT];
    forall y | IsSlot(s, y) ensures At(s', y) == if y == x then b else At(s, y) {
      if y.k > NDIRECT {
        assert IsSlot(s, Slot(y.ino, NDIRECT));
        if y.ino == ino { WordOfSetWord(s.blocks[At(s, ind)], j, b, y.k - NDIRECT - 1); }
      }
    }
    forall c | 0 <= c < s.sb.size ensures InUse(s', c) == InUse(s, c) {
      assert s.sb.BBlock(c) < s.sb.nmeta <= At(s, ind);
    }
  }

  /** `a[j] = b` in the indirect block, for a fresh zeroed block. */
  lemma SetEntryAttaches(s: Fs, loose: set<nat>, ino: nat, j: nat, b: nat)
    requires Tight(s, loose, {}) && ino < |s.inodes| && j < NINDIRECT
    requires s.inodes[ino].addrs[NDIRECT] != 0 && At(s, Slot(ino, NDIRECT + 1 + j)) == 0
    requires b in loose && s.blocks[b] == ZeroBlock()
    ensures var s' := SetEntry(s, ino, j, b);
            && Tight(s', loose - {b}, {}) && SameBytes(s, s') && Attached(s, s', Slot(ino, NDIRECT + 1 + j), b)
  {
    var s' := SetEntry(s, ino, j, b);
    SetEntrySlots(s, loose, ino, j, b);
    AttachedTight(s, s', loose, Slot(ino, NDIRECT + 1 + j), b);
    var ind := s.inodes[ino].addrs[NDIRECT];
    assert IsSlot(s, Slot(ino, NDIRECT)) && At(s, Slot(ino, NDIRECT)) == ind;
    assert Owned(s, ind, {});
    forall i0, i | 0 <= i0 < |s.inodes| && 0 <= i < MAXFILE * BSIZE ensures ByteAt(s', i0, i) == ByteAt(s, i0, i) {
      assert IsSlot(s, FileSlot(i0, i / BSIZE));
    }
  }

  /** Overwriting a mapped data block changes that block of that file only. */
  lemma WriteDataEffect(s: Fs, ino: nat, bn: nat, data: Block)
    requires Tight(s, {}, {}) && ino < |s.inodes| && bn < MAXFILE && At(s, FileSlot(ino, bn)) != 0
    ensures var s' := SetBlock(s, At(s, FileSlot(ino, bn)), data);
            && Tight(s', {}, {}) && SameSlots(s, s')
            && forall j, i :: 0 <= j < |s.inodes| && 0 <= i < MAXFILE * BSIZE ==>
                 ByteAt(s', j, i) == if j == ino && i / BSIZE == bn then data[i % BSIZE] else ByteAt(s, j, i)
  {
    var f := FileSlot(ino, bn);
    var a := At(s, f);
    var s' := SetBlock(s, a, data);
    forall x | IsSlot(s, x) ensures At(s', x) == At(s, x) {
      var ind := Slot(x.ino, NDIRECT);
      assert IsSlot(s, ind) && At(s, ind) == s.inodes[x.ino].addrs[NDIRECT];
      assert ind != f;
    }
    forall j, i | 0 <= j < |s.inodes| && 0 <= i < MAXFILE * BSIZE
      ensures ByteAt(s', j, i) == if j == ino && i / BSIZE == bn then data[i % BSIZE] else ByteAt(s, j, i)
    {
      var g := FileSlot(j, i / BSIZE);
      assert IsSlot(s, g) && (g == f <==> j == ino && i / BSIZE == bn);
    }
    forall c | 0 <= c < s.sb.size ensures InUse(s', c) == InUse(s, c) { assert s.sb.BBlock(c) < s.sb.nmeta <= a; }
    TightFromMap(s, s', {}, {}, {}, {});
  }

  // ----- Freeing ------------------------------------------------------------------------

  /** The block of a live slot is marked, so `bfree` does not panic, and
      clearing its mark is all that freeing it does. */
  lemma FreeEffect(s: Fs, gone: set<Slot>, x: Slot)
    requires Tight(s, {}, gone) && IsSlot(s, x) && x !in gone && At(s, x) != 0
    ensures InUse(s, At(s, x))
    ensures var s' := MarkBit(s, At(s, x), false);
            && Tight(s', {}, gone + {x}) && SameSlots(s, s') && SameBytes(s, s')
            && s'.inodes == s.inodes
  {
    var a := At(s, x);
    var s' := MarkBit(s, a, false);
    MarkBitEffect(s, a, false);
    assert Owned(s, a, gone);
    forall b | 0 <= b < s.sb.size && b != 0
      ensures Owned(s, b, gone + {x}) == (b != a && Owned(s, b, gone))
    {
      if b != a && Owned(s, b, gone) {
        var y :| IsSlot(s, y) && y !in gone && At(s, y) == b;
        assert y !in gone + {x};
      }
      if Owned(s, b, gone + {x}) {
        var y :| IsSlot(s, y) && y !in gone + {x} && At(s, y) == b;
        assert y !in gone && y != x;
      }
    }
    TightFromMap(s, s', {}, gone, {}, gone + {x});
  }

  /** Forgetting slots whose blocks are already freed. */
  lemma DetachTight(s: Fs, s': Fs, gone: set<Slot>, cut: set<Slot>)
    requires Tight(s, {}, gone) && Shape(s') && s'.sb == s.sb && |s'.inodes| == |s.inodes|
    requires forall x :: IsSlot(s, x) ==> At(s', x) == if x in cut then 0 else At(s, x)
    requires forall x :: IsSlot(s, x) && x in cut ==> x in gone || At(s, x) == 0
    requires forall b :: 0 <= b < s.sb.size ==> InUse(s', b) == InUse(s, b)
    ensures Tight(s', {}, gone - cut)
  {
    forall b | 0 <= b < s.sb.size && b != 0 ensures Owned(s', b, gone - cut) == Owned(s, b, gone) {
      if Owned(s, b, gone) {
        var x :| IsSlot(s, x) && x !in gone && At(s, x) == b;
        assert IsSlot(s', x) && At(s', x) == b && x !in gone - cut;
      }
      if Owned(s', b, gone - cut) {
        var x :| IsSlot(s', x) && x !in gone - cut && At(s', x) == b;
        assert IsSlot(s, x) && x !in cut && At(s, x) == b;
      }
    }
  }

  /** `ip->addrs[k] = 0` for a direct slot. */
  lemma ClearDirect(s: Fs, gone: set<Slot>, ino: nat, k: nat)
    requires Tight(s, {}, gone) && ino < |s.inodes| && k < NDIRECT && Slot(ino, k) in gone
    ensures var s' := SetAddr(s, ino, k, 0);
            && Tight(s', {}, gone - {Slot(ino, k)})
            && forall x :: IsSlot(s, x) ==> At(s', x) == if x == Slot(ino, k) then 0 else At(s, x)
  {
    DetachTight(s, SetAddr(s, ino, k, 0), gone, {Slot(ino, k)});
  }

  /** The indirect block's slot and all its entries. */
  function IndirectSlots(ino: nat, n: nat): set<Slot> {
    set k | NDIRECT < k <= NDIRECT + n :: Slot(ino, k)
  }

  /** `ip->addrs[NDIRECT] = 0` once the entries and the block are freed. */
  lemma ClearIndirect(s: Fs, ino: nat)
    requires ino < |s.inodes| && Tight(s, {}, IndirectSlots(ino, NINDIRECT) + {Slot(ino, NDIRECT)})
    ensures var s' := SetAddr(s, ino, NDIRECT, 0);
            && Tight(s', {}, {})
            && forall x :: IsSlot(s, x) ==> At(s', x) == if x.ino == ino && x.k >= NDIRECT then 0 else At(s, x)
  {
    var cut := IndirectSlots(ino, NINDIRECT) + {Slot(ino, NDIRECT)};
    forall x | IsSlot(s, x) ensures x in cut <==> x.ino == ino && x.k >= NDIRECT {
      assert x == Slot(x.ino, x.k);
    }
    DetachTight(s, SetAddr(s, ino, NDIRECT, 0), cut, cut);
    assert cut - cut == {};
  }
}
