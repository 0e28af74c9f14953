/** kernel/fs.c: the block allocator, `bmap`, `itrunc`, `readi` and `writei`,
    updating one disk image in place.  Contracts speak of ownership and of the
    byte sequence each inode stands for. */
module Inodes {
  import opened BlockFormat
  import opened FsState

  /** Slots of other inodes are untouched and filled slots keep their block. */
  ghost predicate MapGrows(s: Fs, s': Fs, ino: nat)
    requires Shape(s) && Shape(s') && |s'.inodes| == |s.inodes|
  {
    && s'.sb == s.sb
    && (forall x :: IsSlot(s, x) && (x.ino != ino || At(s, x) != 0) ==> At(s', x) == At(s, x))
    && (forall j :: 0 <= j < |s.inodes| ==> s'.inodes[j].size == s.inodes[j].size)
  }

  /** `s'` is `s` with the slots lo..hi of `ino` made 0. */
  ghost predicate Emptied(s: Fs, s': Fs, ino: nat, lo: nat, hi: nat)
    requires Shape(s) && Shape(s') && |s'.inodes| == |s.inodes| && ino < |s.inodes|
  {
    && s'.sb == s.sb
    && (forall x :: IsSlot(s, x) ==> At(s', x) == if x.ino == ino && lo <= x.k < hi then 0 else At(s, x))
    && s'.inodes[ino].size == s.inodes[ino].size
    && (forall j :: 0 <= j < |s.inodes| && j != ino ==> s'.inodes[j] == s.inodes[j])
    && (forall j, i :: 0 <= j < |s.inodes| && j != ino && 0 <= i < MAXFILE * BSIZE ==>
          ByteAt(s', j, i) == ByteAt(s, j, i))
  }

  lemma EmptiedTrans(s0: Fs, s1: Fs, s2: Fs, ino: nat, mid: nat, hi: nat)
    requires Shape(s0) && Shape(s1) && Shape(s2) && |s0.inodes| == |s1.inodes| == |s2.inodes| && ino < |s0.inodes|
    requires mid <= hi && Emptied(s0, s1, ino, 0, mid) && Emptied(s1, s2, ino, mid, hi)
    ensures Emptied(s0, s2, ino, 0, hi)
  {
    forall x | IsSlot(s0, x) ensures At(s2, x) == if x.ino == ino && x.k < hi then 0 else At(s0, x) {
      assert IsSlot(s1, x);
    }
    forall j, i | 0 <= j < |s0.inodes| && j != ino && 0 <= i < MAXFILE * BSIZE
      ensures ByteAt(s2, j, i) == ByteAt(s0, j, i)
    {
      assert ByteAt(s1, j, i) == ByteAt(s0, j, i);
    }
  }

  /** Freeing a direct block and clearing its slot. */
  lemma DirectEmptied(s0: Fs, s1: Fs, ino: nat, k: nat)
    requires Shape(s0) && Tight(s1, {}, {Slot(ino, k)}) && ino < |s0.inodes| && k < NDIRECT && s1.inodes == s0.inodes
    requires s1.sb == s0.sb && SameSlots(s0, s1) && SameBytes(s0, s1)
    ensures var s2 := SetAddr(s1, ino, k, 0); Tight(s2, {}, {}) && Emptied(s0, s2, ino, k, k + 1)
  {
    var s2 := SetAddr(s1, ino, k, 0);
    ClearDirect(s1, {Slot(ino, k)}, ino, k);
    assert {Slot(ino, k)} - {Slot(ino, k)} == {};
    forall x | IsSlot(s0, x) ensures At(s2, x) == if x.ino == ino && k <= x.k < k + 1 then 0 else At(s0, x) {
      assert At(s1, x) == At(s0, x);
    }
    forall j, i | 0 <= j < |s0.inodes| && j != ino && 0 <= i < MAXFILE * BSIZE
      ensures ByteAt(s2, j, i) == ByteAt(s0, j, i)
    {
      assert ByteAt(s1, j, i) == ByteAt(s0, j, i);
    }
  }

  lemma NoIndirect(s: Fs, ino: nat)
    requires Shape(s) && ino < |s.inodes| && s.inodes[ino].addrs[NDIRECT] == 0
    ensures Emptied(s, s, ino, NDIRECT, NSLOTS)
  {
  }

  lemma IndirectEmptied(s0: Fs, s: Fs, ino: nat)
    requires Shape(s0) && Shape(s) && ino < |s0.inodes| && s.inodes == s0.inodes && s.sb == s0.sb
    requires SameSlots(s0, s) && SameBytes(s0, s)
    ensures Emptied(s0, SetAddr(s, ino, NDIRECT, 0), ino, NDIRECT, NSLOTS)
  {
    var s' := SetAddr(s, ino, NDIRECT, 0);
    forall x | IsSlot(s0, x) ensures At(s', x) == if x.ino == ino && NDIRECT <= x.k then 0 else At(s0, x) {
      assert At(s, x) == At(s0, x);
    }
    forall j, i | 0 <= j < |s.inodes| && j != ino && 0 <= i < MAXFILE * BSIZE
      ensures ByteAt(s', j, i) == ByteAt(s0, j, i)
    {
      assert ByteAt(s, j, i) == ByteAt(s0, j, i);
    }
  }

  /** Block `b` is in some slot of `ino`. */
  ghost predicate HoldsBlock(s: Fs, ino: nat, b: nat)
    requires Shape(s) && ino < |s.inodes|
  {
    b != 0 && exists k :: 0 <= k < NSLOTS && At(s, Slot(ino, k)) == b
  }

  function SetSize(s: Fs, ino: nat, size: nat): Fs
    requires ino < |s.inodes|
  {
    Fs(s.sb, s.blocks, s.inodes[ino := Inode(size, s.inodes[ino].addrs)])
  }

  lemma SetSizeEffect(s: Fs, ino: nat, size: nat)
    requires Tight(s, {}, {}) && ino < |s.inodes| && size <= MAXFILE * BSIZE
    ensures var s' := SetSize(s, ino, size);
            Tight(s', {}, {}) && SameSlots(s, s') && SameBytes(s, s')
  {
    var s' := SetSize(s, ino, size);
    forall x | IsSlot(s, x) ensures At(s', x) == At(s, x) {}
    forall c | 0 <= c < s.sb.size ensures InUse(s', c) == InUse(s, c) {}
    TightFromMap(s, s', {}, {}, {}, {});
  }

  /** The blocks freed by truncation are exactly those the inode held. */
  lemma TruncatedUse(s0: Fs, s: Fs, ino: nat, b: nat)
    requires Tight(s0, {}, {}) && Tight(s, {}, {}) && s.sb == s0.sb && ino < |s0.inodes| == |s.inodes|
    requires forall x :: IsSlot(s0, x) ==> At(s, x) == if x.ino == ino then 0 else At(s0, x)
    requires b < s.sb.size
    ensures InUse(s, b) <==> InUse(s0, b) && !HoldsBlock(s0, ino, b)
  {
    if s.sb.nmeta <= b {
      if Owned(s, b, {}) {
        var x :| IsSlot(s, x) && At(s, x) == b;
        assert IsSlot(s0, x) && At(s0, x) == b;
        forall k | 0 <= k < NSLOTS ensures At(s0, Slot(ino, k)) != b { assert IsSlot(s0, Slot(ino, k)); }
      }
      if Owned(s0, b, {}) && !HoldsBlock(s0, ino, b) {
        var x :| IsSlot(s0, x) && At(s0, x) == b;
        assert x == Slot(x.ino, x.k);
        assert IsSlot(s, x) && At(s, x) == b;
      }
    }
  }

  lemma TruncatedRest(s0: Fs, s1: Fs, ino: nat)
    requires Inv(s0) && Tight(s1, {}, {}) && ino < |s0.inodes| == |s1.inodes| && Emptied(s0, s1, ino, 0, NSLOTS)
    ensures var s := SetSize(s1, ino, 0);
            && Inv(s) && (forall x :: IsSlot(s0, x) ==> At(s, x) == if x.ino == ino then 0 else At(s0, x))
            && (forall j :: 0 <= j < |s.inodes| && j != ino ==> Contents(s, j) == Contents(s0, j))
            && (forall b :: 0 <= b < s.sb.size ==> (InUse(s, b) <==> InUse(s0, b) && !HoldsBlock(s0, ino, b)))
  {
    var s := SetSize(s1, ino, 0);
    SetSizeEffect(s1, ino, 0);
    forall x | IsSlot(s0, x) ensures At(s, x) == if x.ino == ino then 0 else At(s0, x) {
      assert At(s, x) == At(s1, x);
    }
    forall j | 0 <= j < |s.inodes| && j != ino ensures Contents(s, j) == Contents(s0, j) {
      forall i | 0 <= i < s.inodes[j].size ensures ByteAt(s, j, i) == ByteAt(s0, j, i) {
        assert ByteAt(s1, j, i) == ByteAt(s0, j, i);
      }
    }
    forall b | 0 <= b < s.sb.size ensures InUse(s, b) <==> InUse(s0, b) && !HoldsBlock(s0, ino, b) {
      TruncatedUse(s0, s, ino, b);
    }
    forall j, bn | 0 <= j < |s.inodes| && 0 <= bn < MAXFILE && bn * BSIZE < s.inodes[j].size
      ensures At(s, FileSlot(j, bn)) != 0
    {
      assert IsSlot(s0, FileSlot(j, bn));
    }
  }

  lemma GoneZero(s: Fs, gone: set<Slot>, x: Slot)
    requires Shape(s) && IsSlot(s, x) && At(s, x) == 0
    ensures forall b :: 0 < b ==> Owned(s, b, gone + {x}) == Owned(s, b, gone)
  {
    forall b | 0 < b ensures Owned(s, b, gone + {x}) == Owned(s, b, gone) {
      if Owned(s, b, gone) {
        var y :| IsSlot(s, y) && y !in gone && At(s, y) == b;
        assert y !in gone + {x};
      }
      if Owned(s, b, gone + {x}) {
        var y :| IsSlot(s, y) && y !in gone + {x} && At(s, y) == b;
        assert y !in gone;
      }
    }
  }

  // ----- Reading -------------------------------------------------------------------

  function Min(a: int, b: int): int { if a < b then a else b }

  /** `off + n < off` in 32-bit arithmetic. */
  predicate Wraps(off: uint32, n: uint32)
    ensures Wraps(off, n) <==> off as int + n as int >= 0x1_0000_0000
  {
    var sum := off as int + n as int;
    sum % 0x1_0000_0000 < off as int
  }

  /** How many bytes `readi` will try to read. */
  function Clamp(size: nat, off: uint32, n: uint32): nat {
    if off > size || off + n >= 0x1_0000_0000 then 0
    else if off + n > size then size - off
    else n
  }

  lemma MappedBelowSize(s: Fs, ino: nat, i: nat)
    requires Inv(s) && ino < |s.inodes| && i < s.inodes[ino].size
    ensures i / BSIZE < MAXFILE && s.sb.nmeta <= At(s, FileSlot(ino, i / BSIZE)) < s.sb.size
  {
    assert i / BSIZE * BSIZE <= i;
    assert IsSlot(s, FileSlot(ino, i / BSIZE));
  }

  function Slice(c: seq<byte>, off: nat, k: nat): seq<byte> {
    if off + k <= |c| then c[off..off + k] else []
  }

  lemma SliceJoin(c: seq<byte>, off: nat, at: nat, k: nat, m: nat)
    requires at == off + k && at + m <= |c|
    ensures Slice(c, off, k) + c[at..at + m] == Slice(c, off, k + m)
  {
  }

  /** Within one block the file's bytes are the block's bytes. */
  lemma ChunkIsSlice(s: Fs, ino: nat, off: nat, m: nat)
    requires Inv(s) && ino < |s.inodes| && 0 < m && off + m <= s.inodes[ino].size && off % BSIZE + m <= BSIZE
    ensures var a := At(s, FileSlot(ino, off / BSIZE));
            a < s.sb.size && s.blocks[a][off % BSIZE..off % BSIZE + m] == Contents(s, ino)[off..off + m]
  {
    MappedBelowSize(s, ino, off);
    var a := At(s, FileSlot(ino, off / BSIZE));
    var d, c := s.blocks[a][off % BSIZE..off % BSIZE + m], Contents(s, ino)[off..off + m];
    forall k | 0 <= k < m ensures d[k] == c[k] {
      assert (off + k) / BSIZE == off / BSIZE && (off + k) % BSIZE == off % BSIZE + k;
    }
  }

  // ----- Writing -------------------------------------------------------------------

  /** `s'` is `s` with the bytes `d` written at `off` of `ino`. */
  ghost predicate Wrote(s: Fs, s': Fs, ino: nat, off: nat, d: seq<byte>)
    requires Shape(s) && Shape(s') && |s'.inodes| == |s.inodes|
  {
    forall j, i :: 0 <= j < |s.inodes| && 0 <= i < MAXFILE * BSIZE ==>
      ByteAt(s', j, i) == if j == ino && off <= i < off + |d| then d[i - off] else ByteAt(s, j, i)
  }

  lemma ChunkBytes(s0: Fs, s1: Fs, s2: Fs, ino: nat, off: nat, d: seq<byte>, data: Block)
    requires Shape(s0) && Shape(s1) && Shape(s2) && ino < |s0.inodes| == |s1.inodes| == |s2.inodes|
    requires SameBytes(s0, s1) && off + |d| <= MAXFILE * BSIZE && off % BSIZE + |d| <= BSIZE
    requires off / BSIZE < MAXFILE && 0 < At(s1, FileSlot(ino, off / BSIZE)) < s1.sb.size
    requires var bp, o := s1.blocks[At(s1, FileSlot(ino, off / BSIZE))], off % BSIZE;
             data == bp[..o] + d + bp[o + |d|..]
    requires forall j, i :: 0 <= j < |s1.inodes| && 0 <= i < MAXFILE * BSIZE ==>
               ByteAt(s2, j, i) == if j == ino && i / BSIZE == off / BSIZE then data[i % BSIZE] else ByteAt(s1, j, i)
    ensures Wrote(s0, s2, ino, off, d)
  {
    forall j, i | 0 <= j < |s0.inodes| && 0 <= i < MAXFILE * BSIZE
      ensures ByteAt(s2, j, i) == if j == ino && off <= i < off + |d| then d[i - off] else ByteAt(s0, j, i)
    {
      assert ByteAt(s1, j, i) == ByteAt(s0, j, i);
      if off <= i < off + |d| {
        assert i / BSIZE == off / BSIZE && i % BSIZE == off % BSIZE + (i - off);
      } else if j == ino && i / BSIZE == off / BSIZE {
        assert i - off == i % BSIZE - off % BSIZE;
      }
    }
  }

  lemma WroteChunk(s0: Fs, s1: Fs, s2: Fs, ino: nat, off: nat, d: seq<byte>)
    requires Shape(s0) && Tight(s1, {}, {}) && ino < |s0.inodes| == |s1.inodes|
    requires SameBytes(s0, s1) && MapGrows(s0, s1, ino)
    requires off + |d| <= MAXFILE * BSIZE && off % BSIZE + |d| <= BSIZE
    requires off / BSIZE < MAXFILE && 0 < At(s1, FileSlot(ino, off / BSIZE)) < s1.sb.size
    requires var a := At(s1, FileSlot(ino, off / BSIZE));
             var bp, o := s1.blocks[a], off % BSIZE;
             s2 == SetBlock(s1, a, bp[..o] + d + bp[o + |d|..])
    ensures Tight(s2, {}, {}) && SameSlots(s1, s2) && MapGrows(s0, s2, ino) && Wrote(s0, s2, ino, off, d)
  {
    var a := At(s1, FileSlot(ino, off / BSIZE));
    var o, bp := off % BSIZE, s1.blocks[a];
    WriteDataEffect(s1, ino, off / BSIZE, bp[..o] + d + bp[o + |d|..]);
    ChunkBytes(s0, s1, s2, ino, off, d, bp[..o] + d + bp[o + |d|..]);
  }

  /** Every block that starts before `end` is mapped. */
  predicate MappedTo(s: Fs, ino: nat, end: nat)
    requires Shape(s) && ino < |s.inodes|
  {
    forall bn :: 0 <= bn < MAXFILE && bn * BSIZE < end ==> At(s, FileSlot(ino, bn)) != 0
  }

  /** Where `writei` is when it has put `d` at `off` and mapped up to `end`. */
  ghost predicate Writing(s0: Fs, s: Fs, ino: nat, off: nat, d: seq<byte>, end: nat) {
    && Shape(s0) && Tight(s, {}, {}) && ino < |s0.inodes| == |s.inodes|
    && MapGrows(s0, s, ino) && MappedTo(s, ino, end) && Wrote(s0, s, ino, off, d)
  }

  lemma WritingStart(s: Fs, ino: nat, off: nat)
    requires Inv(s) && ino < |s.inodes| && off <= s.inodes[ino].size
    ensures Writing(s, s, ino, off, [], off)
  {
  }

  lemma MapGrowsTrans(s0: Fs, s1: Fs, s2: Fs, ino: nat)
    requires Shape(s0) && Shape(s1) && Shape(s2) && |s0.inodes| == |s1.inodes| == |s2.inodes|
    requires MapGrows(s0, s1, ino) && MapGrows(s1, s2, ino)
    ensures MapGrows(s0, s2, ino)
  {
    forall x | IsSlot(s0, x) && (x.ino != ino || At(s0, x) != 0) ensures At(s2, x) == At(s0, x) {
      assert IsSlot(s1, x);
    }
  }

  lemma WroteTrans(s0: Fs, s1: Fs, s2: Fs, ino: nat, off: nat, d: seq<byte>, e: seq<byte>)
    requires Shape(s0) && Shape(s1) && Shape(s2) && |s0.inodes| == |s1.inodes| == |s2.inodes|
    requires Wrote(s0, s1, ino, off, d) && Wrote(s1, s2, ino, off + |d|, e)
    ensures Wrote(s0, s2, ino, off, d + e)
  {
    forall j, i | 0 <= j < |s0.inodes| && 0 <= i < MAXFILE * BSIZE
      ensures ByteAt(s2, j, i) == if j == ino && off <= i < off + |d + e| then (d + e)[i - off] else ByteAt(s0, j, i)
    {
      assert ByteAt(s1, j, i) == if j == ino && off <= i < off + |d| then d[i - off] else ByteAt(s0, j, i);
    }
  }

  lemma WritingStep(s0: Fs, s1: Fs, s2: Fs, ino: nat, off: nat, d: seq<byte>, e: seq<byte>, at: nat, all: seq<byte>,
                    ok: bool, m: nat)
    requires at == off + |d| && all == d + e && |e| <= m && at % BSIZE + m <= BSIZE && 0 < m
    requires Writing(s0, s1, ino, off, d, at) && at + m <= MAXFILE * BSIZE
    requires Tight(s2, {}, {}) && |s2.inodes| == |s1.inodes| && MapGrows(s1, s2, ino) && Wrote(s1, s2, ino, at, e)
    requires ok ==> At(s2, FileSlot(ino, at / BSIZE)) != 0
    ensures Writing(s0, s2, ino, off, all, at)
    ensures ok ==> Writing(s0, s2, ino, off, all, at + m)
  {
    WroteTrans(s0, s1, s2, ino, off, d, e);
    MapGrowsTrans(s0, s1, s2, ino);
    forall bn | 0 <= bn < MAXFILE && bn * BSIZE < at ensures At(s2, FileSlot(ino, bn)) != 0 {
      assert IsSlot(s1, FileSlot(ino, bn));
    }
    if ok {
      forall bn | 0 <= bn < MAXFILE && bn * BSIZE < at + m ensures At(s2, FileSlot(ino, bn)) != 0 {
        if bn * BSIZE >= at {
          assert bn == at / BSIZE;
        }
      }
    }
  }

  ghost predicate DiskFull(s: Fs)
    requires Shape(s)
  {
    forall c :: 0 <= c < s.sb.size ==> InUse(s, c)
  }

  /** `put` of the `m` bytes after `tot` came in, unless the disk is full. */
  ghost predicate TurnWrote(s0: Fs, s: Fs, ino: nat, off: nat, src: seq<byte>, tot: nat, m: nat, put: nat, ok: bool) {
    && tot + m <= |src| && put <= m && Shape(s) && ino < |s0.inodes|
    && Writing(s0, s, ino, off, src[..tot + if ok then put else 0], off + tot)
    && (ok && put == m ==> Writing(s0, s, ino, off, src[..tot + m], off + tot + m))
    && (!ok ==> DiskFull(s) && s0.inodes[ino].size <= off + tot)
  }

  lemma NextTurn(s0: Fs, s1: Fs, s2: Fs, ino: nat, off: nat, src: seq<byte>, tot: nat, put: nat, ok: bool, m: nat)
    requires tot + m <= |src| && off + |src| <= MAXFILE * BSIZE && put <= m && 0 < m
    requires Writing(s0, s1, ino, off, src[..tot], off + tot) && (off + tot) % BSIZE + m <= BSIZE
    requires Tight(s2, {}, {}) && |s2.inodes| == |s1.inodes| && MapGrows(s1, s2, ino)
    requires Wrote(s1, s2, ino, off + tot, if ok then src[tot..tot + put] else [])
    requires ok == (At(s2, FileSlot(ino, (off + tot) / BSIZE)) != 0)
    requires !ok ==> DiskFull(s2) && s0.inodes[ino].size <= off + tot
    ensures TurnWrote(s0, s2, ino, off, src, tot, m, put, ok)
  {
    var e, all := if ok then src[tot..tot + put] else [], src[..tot + if ok then put else 0];
    assert all == src[..tot] + e;
    WritingStep(s0, s1, s2, ino, off, src[..tot], e, off + tot, all, ok, m);
  }

  /** `tot` is where a chunk of a write at `off` may begin. */
  predicate Boundary(off: nat, tot: nat) { tot == 0 || (off + tot) % BSIZE == 0 }

  /** Where the loop of `writei` is when `tot` bytes are in and counted. */
  ghost predicate Upto(s0: Fs, s: Fs, ino: nat, off: nat, src: seq<byte>, avail: nat, tot: nat) {
    && tot <= |src| && tot <= avail && (tot < |src| ==> Boundary(off, tot))
    && Writing(s0, s, ino, off, src[..tot], off + tot)
  }

  /** How many of `n` bytes at `off` `writei` counts when only the first `avail`
      of them can be copied in: all, or those up to the last chunk boundary. */
  function Counted(off: nat, n: nat, avail: nat): (r: nat)
    ensures r <= n && r <= avail
  {
    if n <= avail then n
    else if (off + avail) / BSIZE == off / BSIZE then 0
    else (off + avail) / BSIZE * BSIZE - off
  }

  /** What a write of `n` bytes at `off` of a file of `size` bytes stored, when
      `avail` of them can be copied in: `r` are counted and `spill` more are in
      a buffer.  Only past the end of the file can the disk run full. */
  ghost predicate Outcome(size: nat, s: Fs, off: nat, n: nat, avail: nat, r: nat, spill: nat)
    requires Shape(s)
  {
    || (r == Counted(off, n, avail) && r + spill == Min(n, avail))
    || (spill == 0 && r <= Counted(off, n, avail) && size <= off + r && DiskFull(s))
  }

  /** What one turn leaves: the loop goes on, or what it has done is its outcome. */
  ghost predicate StepDone(s0: Fs, s: Fs, ino: nat, off: nat, src: seq<byte>, avail: nat, tot: nat, stop: bool,
                           next: nat, spill: nat) {
    if stop then
      && next == tot && tot + spill <= |src| && Writing(s0, s, ino, off, src[..tot + spill], off + tot)
      && Outcome(s0.inodes[ino].size, s, off, |src|, avail, tot, spill)
    else tot < next <= |src| && Upto(s0, s, ino, off, src, avail, next)
  }

  /** How much of a chunk of `m` bytes at `tot` comes in. */
  function Readable(avail: nat, tot: nat, m: nat): (put: nat)
    ensures put <= m
  {
    if tot + m <= avail then m else if tot <= avail then avail - tot else 0
  }

  /** The chunk in which the copy faults begins where the count ends. */
  lemma FaultingChunk(off: nat, n: nat, avail: nat, tot: nat, m: nat)
    requires Boundary(off, tot) && tot <= avail < tot + m <= n && (off + tot) % BSIZE + m <= BSIZE
    ensures tot == Counted(off, n, avail)
  {
    var q := (off + tot) / BSIZE;
    assert (off + avail) / BSIZE == q;
    if tot > 0 { assert off + tot == q * BSIZE && off / BSIZE < q; }
  }

  /** One turn either brings in a whole chunk, up to the next boundary, or faults
      where the count ends. */
  lemma TurnCounts(off: nat, n: nat, avail: nat, tot: nat, m: nat)
    requires Boundary(off, tot) && tot <= avail && tot < n && m == Min(n - tot, BSIZE - (off + tot) % BSIZE)
    ensures 0 < m && (off + tot) % BSIZE + m <= BSIZE
    ensures Readable(avail, tot, m) < m ==>
              tot == Counted(off, n, avail) && tot + Readable(avail, tot, m) == avail < n
    ensures Readable(avail, tot, m) == m ==> tot + m <= avail && (tot + m < n ==> Boundary(off, tot + m))
  {
    if Readable(avail, tot, m) < m { FaultingChunk(off, n, avail, tot, m); }
  }

  lemma BoundaryCounted(off: nat, n: nat, avail: nat, tot: nat)
    requires Boundary(off, tot) && tot <= avail && tot <= n
    ensures tot <= Counted(off, n, avail)
  {
    if avail < n && tot > 0 {
      var q := (off + tot) / BSIZE;
      assert off + tot == q * BSIZE && off / BSIZE < q <= (off + avail) / BSIZE;
    }
  }

  lemma TurnEnds(s0: Fs, s: Fs, ino: nat, off: nat, src: seq<byte>, avail: nat, tot: nat, m: nat, put: nat, ok: bool)
    requires Boundary(off, tot) && tot <= avail && tot < |src| && m == Min(|src| - tot, BSIZE - (off + tot) % BSIZE)
    requires put == Readable(avail, tot, m) && TurnWrote(s0, s, ino, off, src, tot, m, put, ok)
    ensures StepDone(s0, s, ino, off, src, avail, tot, !ok || put < m, if !ok || put < m then tot else tot + m,
                     if ok then put else 0)
  {
    TurnCounts(off, |src|, avail, tot, m);
    BoundaryCounted(off, |src|, avail, tot);
  }

  lemma AllIn(s0: Fs, s: Fs, ino: nat, off: nat, src: seq<byte>, avail: nat, tot: nat)
    requires Upto(s0, s, ino, off, src, avail, tot) && tot >= |src|
    ensures StepDone(s0, s, ino, off, src, avail, tot, true, tot, 0)
  {
  }

  /** `bmap` fails only past the end of the file: below it every block is mapped. */
  lemma FullPastEnd(s0: Fs, s1: Fs, s2: Fs, ino: nat, off: nat)
    requires Inv(s0) && Shape(s1) && Shape(s2) && ino < |s0.inodes| == |s1.inodes| == |s2.inodes|
    requires MapGrows(s0, s1, ino) && MapGrows(s1, s2, ino)
    requires off / BSIZE < MAXFILE && At(s2, FileSlot(ino, off / BSIZE)) == 0
    ensures s0.inodes[ino].size <= off
  {
    if off < s0.inodes[ino].size {
      MappedBelowSize(s0, ino, off);
      MapGrowsTrans(s0, s1, s2, ino);
      assert IsSlot(s0, FileSlot(ino, off / BSIZE));
      assert false;
    }
  }

  /** `c` with `d` put at `off`; the end stays or moves to where `d` ends. */
  function Splice(c: seq<byte>, off: nat, d: seq<byte>): seq<byte>
    requires off <= |c|
  {
    c[..off] + d + if off + |d| <= |c| then c[off + |d|..] else []
  }

  /** `c` after `writei` stored `d` at `off` and counted `r` bytes of it. */
  function Updated(c: seq<byte>, off: nat, d: seq<byte>, r: nat): seq<byte>
    requires off <= |c| && r <= |d|
  {
    Splice(c, off, d)[..if off + r > |c| then off + r else |c|]
  }

  /** The bytes of a faulting copy beyond the count change nothing inside a
      file with the contents `c`. */
  predicate Exact(c: seq<byte>, off: nat, src: seq<byte>, avail: nat) {
    forall i :: Counted(off, |src|, avail) <= i < |src| && i < avail && off + i < |c| ==> src[i] == c[off + i]
  }

  lemma SpliceSpill(c: seq<byte>, off: nat, src: seq<byte>, r: nat, spill: nat)
    requires off <= |c| && r + spill <= |src|
    ensures Updated(c, off, src[..r + spill], r) == Splice(c, off, src[..r])
            <==> forall i :: r <= i < r + spill && off + i < |c| ==> src[i] == c[off + i]
  {
    var x, y := Updated(c, off, src[..r + spill], r), Splice(c, off, src[..r]);
    assert |x| == |y|;
    forall i | 0 <= i < |x|
      ensures x[i] == if off + r <= i < off + r + spill then src[i - off] else y[i]
    {}
    forall k | off + r <= k < |c| ensures y[k] == c[k] {}
    if x == y {
      forall i | r <= i < r + spill && off + i < |c| ensures src[i] == c[off + i] {
        assert x[off + i] == y[off + i];
      }
    }
  }

  /** What `writei` promises, "the first r bytes are in and nothing else
      changed", is what happened from `c` to `c'` if and only if the condition
      `Exact` on its arguments holds. */
  ghost predicate KeepsPromise(c: seq<byte>, c': seq<byte>, off: nat, src: seq<byte>, avail: nat, r: int) {
    off <= |c| && 0 <= r <= |src| && (c' == Splice(c, off, src[..r]) <==> Exact(c, off, src, avail))
  }

  lemma WriteExact(c: seq<byte>, s: Fs, off: nat, src: seq<byte>, avail: nat, r: nat, spill: nat)
    requires Shape(s) && off <= |c| && r + spill <= |src| && Outcome(|c|, s, off, |src|, avail, r, spill)
    ensures KeepsPromise(c, Updated(c, off, src[..r + spill], r), off, src, avail, r)
  {
    SpliceSpill(c, off, src, r, spill);
  }

  /** What an accepted `writei` has done: `r` bytes of `src` are stored and
      counted, and `spill` more are in a buffer; no other file has changed. */
  ghost predicate WriteResult(s0: Fs, s: Fs, ino: nat, off: nat, src: seq<byte>, avail: nat, r: nat, spill: nat)
    requires Shape(s0) && Shape(s) && ino < |s0.inodes| == |s.inodes|
  {
    && off <= s0.inodes[ino].size && r + spill <= |src|
    && Outcome(s0.inodes[ino].size, s, off, |src|, avail, r, spill)
    && Contents(s, ino) == Updated(Contents(s0, ino), off, src[..r + spill], r)
    && KeepsPromise(Contents(s0, ino), Contents(s, ino), off, src, avail, r)
    && forall j :: 0 <= j < |s.inodes| && j != ino ==> Contents(s, j) == Contents(s0, j)
  }

  lemma WroteContents(s0: Fs, s: Fs, ino: nat, off: nat, d: seq<byte>, r: nat)
    requires Shape(s0) && Shape(s) && ino < |s0.inodes| == |s.inodes| && Wrote(s0, s, ino, off, d)
    requires off <= s0.inodes[ino].size && off + |d| <= MAXFILE * BSIZE && r <= |d|
    requires s.inodes[ino].size == if off + r > s0.inodes[ino].size then off + r else s0.inodes[ino].size
    requires forall j :: 0 <= j < |s.inodes| && j != ino ==> s.inodes[j].size == s0.inodes[j].size
    ensures Contents(s, ino) == Updated(Contents(s0, ino), off, d, r)
    ensures forall j :: 0 <= j < |s.inodes| && j != ino ==> Contents(s, j) == Contents(s0, j)
  {
    var c, c' := Contents(s0, ino), Updated(Contents(s0, ino), off, d, r);
    assert |c'| == s.inodes[ino].size;
    forall i | 0 <= i < |c'| ensures c'[i] == ByteAt(s, ino, i) {
      assert c'[i] == if off <= i < off + |d| then d[i - off] else c[i];
    }
  }

  lemma FinishWrite(s0: Fs, s1: Fs, ino: nat, off: nat, d: seq<byte>, r: nat)
    requires Inv(s0) && Tight(s1, {}, {}) && NoHoles(s1) && ino < |s0.inodes| == |s1.inodes|
    requires MapGrows(s0, s1, ino) && Wrote(s0, s1, ino, off, d) && r <= |d|
    requires off <= s0.inodes[ino].size && off + |d| <= MAXFILE * BSIZE && MappedTo(s1, ino, off + r)
    ensures var size := if off + r > s0.inodes[ino].size then off + r else s0.inodes[ino].size;
            var s := SetSize(s1, ino, size);
            && Inv(s) && Contents(s, ino) == Updated(Contents(s0, ino), off, d, r)
            && forall j :: 0 <= j < |s.inodes| && j != ino ==> Contents(s, j) == Contents(s0, j)
  {
    var size := if off + r > s0.inodes[ino].size then off + r else s0.inodes[ino].size;
    var s := SetSize(s1, ino, size);
    SetSizeEffect(s1, ino, size);
    forall j, bn | 0 <= j < |s.inodes| && 0 <= bn < MAXFILE && bn * BSIZE < s.inodes[j].size
      ensures At(s, FileSlot(j, bn)) != 0
    {
      assert IsSlot(s1, FileSlot(j, bn));
    }
    forall j, i | 0 <= j < |s.inodes| && 0 <= i < MAXFILE * BSIZE
      ensures ByteAt(s, j, i) == if j == ino && off <= i < off + |d| then d[i - off] else ByteAt(s0, j, i)
    {
      assert ByteAt(s1, j, i) == ByteAt(s, j, i);
    }
    WroteContents(s0, s, ino, off, d, r);
  }

  // ----- What one call logs -----------------------------------------------------------

  function FirstBlock(off: nat): nat { off / BSIZE }

  /** One past the last block touched by `n` bytes at `off`. */
  function EndBlock(off: nat, n: nat): nat { (off + n + BSIZE - 1) / BSIZE }

  function DataBlocks(s: Fs, ino: nat, a: nat, b: nat): set<nat>
    requires Shape(s) && ino < |s.inodes|
  {
    set bn | a <= bn < b && bn < MAXFILE :: At(s, FileSlot(ino, bn))
  }

  /** The data blocks under a range of a file, and the indirect block. */
  function Footprint(s: Fs, ino: nat, off: nat, n: nat): set<nat>
    requires Shape(s) && ino < |s.inodes|
  {
    DataBlocks(s, ino, FirstBlock(off), EndBlock(off, n)) + {s.inodes[ino].addrs[NDIRECT]} - {0}
  }

  lemma InFootprint(s: Fs, ino: nat, off: nat, n: nat, i: nat)
    requires Shape(s) && ino < |s.inodes| && off <= i < off + n <= MAXFILE * BSIZE
    ensures {At(s, FileSlot(ino, i / BSIZE)), s.inodes[ino].addrs[NDIRECT]} - {0} <= Footprint(s, ino, off, n)
  {
    assert FirstBlock(off) <= i / BSIZE < EndBlock(off, n);
    assert At(s, FileSlot(ino, i / BSIZE)) in DataBlocks(s, ino, FirstBlock(off), EndBlock(off, n));
  }

  /** Since `l0`, only bitmap blocks and the footprint have been logged. */
  ghost predicate Logs(l0: set<nat>, l: set<nat>, bitmap: set<nat>, s: Fs, ino: nat, off: nat, n: nat)
    requires Shape(s) && ino < |s.inodes|
  {
    l <= l0 + bitmap + Footprint(s, ino, off, n)
  }

  lemma FootprintGrows(s: Fs, s': Fs, ino: nat, off: nat, n: nat)
    requires Shape(s) && Shape(s') && ino < |s.inodes| == |s'.inodes| && MapGrows(s, s', ino)
    ensures Footprint(s, ino, off, n) <= Footprint(s', ino, off, n)
  {
    assert IsSlot(s, Slot(ino, NDIRECT));
    var a, b := FirstBlock(off), EndBlock(off, n);
    forall x | x in DataBlocks(s, ino, a, b) && x != 0 ensures x in DataBlocks(s', ino, a, b) {
      var bn :| a <= bn < b && bn < MAXFILE && At(s, FileSlot(ino, bn)) == x;
      assert IsSlot(s, FileSlot(ino, bn));
      assert At(s', FileSlot(ino, bn)) == x;
    }
  }

  lemma LogsMore(l0: set<nat>, l1: set<nat>, l2: set<nat>, bitmap: set<nat>, s: Fs, s': Fs, ino: nat, off: nat, n: nat)
    requires Shape(s) && Shape(s') && ino < |s.inodes| == |s'.inodes| && MapGrows(s, s', ino)
    requires Logs(l0, l1, bitmap, s, ino, off, n) && Logs(l1, l2, bitmap, s', ino, off, n)
    ensures Logs(l0, l2, bitmap, s', ino, off, n)
  {
    FootprintGrows(s, s', ino, off, n);
  }

  lemma SetSizeFootprint(s: Fs, ino: nat, size: nat, off: nat, n: nat)
    requires Shape(s) && ino < |s.inodes| && size <= MAXFILE * BSIZE
    ensures Shape(SetSize(s, ino, size))
    ensures Footprint(SetSize(s, ino, size), ino, off, n) == Footprint(s, ino, off, n)
    ensures forall c :: 0 <= c < s.sb.size ==> InUse(SetSize(s, ino, size), c) == InUse(s, c)
  {
    var s' := SetSize(s, ino, size);
    assert forall x :: IsSlot(s, x) ==> At(s', x) == At(s, x);
    var a, b := FirstBlock(off), EndBlock(off, n);
    forall bn | a <= bn < b && bn < MAXFILE ensures At(s', FileSlot(ino, bn)) == At(s, FileSlot(ino, bn)) {
      assert IsSlot(s, FileSlot(ino, bn));
    }
    assert DataBlocks(s', ino, a, b) == DataBlocks(s, ino, a, b);
  }

  lemma DataBlocksLast(s: Fs, ino: nat, a: nat, b: nat)
    requires Shape(s) && ino < |s.inodes| && a < b <= MAXFILE
    ensures DataBlocks(s, ino, a, b) <= DataBlocks(s, ino, a, b - 1) + {At(s, FileSlot(ino, b - 1))}
  {
    forall x | x in DataBlocks(s, ino, a, b)
      ensures x in DataBlocks(s, ino, a, b - 1) || x == At(s, FileSlot(ino, b - 1))
    {
      var bn :| a <= bn < b && bn < MAXFILE && At(s, FileSlot(ino, bn)) == x;
    }
  }

  lemma SubsetCount(a: set<nat>, b: set<nat>)
    requires a <= b
    ensures |a| <= |b|
  {
    assert b == a + (b - a);
  }

  lemma OneMore(rest: set<nat>, x: nat, all: set<nat>)
    requires all <= rest + {x}
    ensures |all| <= |rest| + 1
  {
    SubsetCount(all, rest + {x});
  }

  lemma {:induction false} DataBlocksCount(s: Fs, ino: nat, a: nat, b: nat)
    requires Shape(s) && ino < |s.inodes| && a <= b
    ensures |DataBlocks(s, ino, a, b)| <= b - a
  {
    if a < b {
      DataBlocksCount(s, ino, a, b - 1);
      if b <= MAXFILE {
        DataBlocksLast(s, ino, a, b);
        OneMore(DataBlocks(s, ino, a, b - 1), At(s, FileSlot(ino, b - 1)), DataBlocks(s, ino, a, b));
      } else {
        assert DataBlocks(s, ino, a, b) == DataBlocks(s, ino, a, b - 1);
      }
    }
  }

  // ----- The code ----------------------------------------------------------------------

  class FileSystem {
    const sb: Super
    var blocks: seq<Block>        // the cached view of the disk
    var inodes: seq<Inode>
    ghost var logged: set<nat>    // blocks passed to log_write

    ghost function View(): Fs
      reads this
    {
      Fs(sb, blocks, inodes)
    }

    ghost function Bitmap(): set<nat> {
      set c | 0 <= c < sb.size :: sb.BBlock(c)
    }

    constructor (s: Fs)
      requires Inv(s)
      ensures View() == s && logged == {}
    {
      sb, blocks, inodes, logged := s.sb, s.blocks, s.inodes, {};
    }

    /** The search of `balloc`: the lowest free block, or `sb.size`. */
    method FindFree() returns (r: nat)
      requires Shape(View())
      ensures r <= sb.size && (r < sb.size ==> !InUse(View(), r))
      ensures forall c :: 0 <= c < r ==> InUse(View(), c)
    {
      var b := 0;
      while b < sb.size
        invariant b % BPB == 0
        invariant forall c :: 0 <= c < b && c < sb.size ==> InUse(View(), c)
      {
        var bp := blocks[sb.BBlock(b)];
        var bi := 0;
        while bi < BPB && b + bi < sb.size
          invariant bi <= BPB
          invariant forall c :: 0 <= c < b + bi && c < sb.size ==> InUse(View(), c)
        {
          assert (b + bi) / BPB == b / BPB && (b + bi) % BPB == bi;
          if !Bit(bp, bi) {
            return b + bi;
          }
          bi := bi + 1;
        }
        b := b + BPB;
      }
      return sb.size;
    }

    /** First fit; 0 when every block is in use. */
    method Balloc(ghost loose: set<nat>) returns (r: uint32)
      requires Tight(View(), loose, {})
      modifies this`blocks, this`logged
      ensures r == 0 ==> View() == old(View()) && logged == old(logged)
      ensures r == 0 ==> DiskFull(View())
      ensures r != 0 ==> r < sb.size && !InUse(old(View()), r) && View() == AllocAt(old(View()), r)
      ensures r != 0 ==> forall c :: 0 <= c < r ==> InUse(old(View()), c)
      ensures r != 0 ==> logged <= old(logged) + Bitmap() + {r}
    {
      assert InUse(View(), 0);
      var f := FindFree();
      if f == sb.size {
        return 0;
      }
      r := f;
      var bb := sb.BBlock(r);
      blocks := blocks[bb := SetBit(blocks[bb], r % BPB, true)];
      blocks := blocks[r := ZeroBlock()];              // bzero
      logged := logged + {bb, r};
    }

    /** `false` is the panic "freeing free block". */
    method Bfree(b: uint32) returns (ok: bool)
      requires Shape(View()) && b < sb.size
      modifies this`blocks, this`logged
      ensures ok == InUse(old(View()), b)
      ensures View() == if ok then MarkBit(old(View()), b, false) else old(View())
      ensures logged <= old(logged) + Bitmap()
    {
      var bp := blocks[sb.BBlock(b)];
      var bi := b % BPB;
      if !Bit(bp, bi) {
        return false;
      }
      blocks := blocks[sb.BBlock(b) := SetBit(bp, bi, false)];
      logged := logged + {sb.BBlock(b)};
      return true;
    }

    /** `ip->addrs[k]`, allocated if it is 0. */
    method MapAddr(ino: nat, k: nat) returns (r: uint32)
      requires Tight(View(), {}, {}) && ino < |inodes| && k <= NDIRECT
      modifies this
      ensures Tight(View(), {}, {}) && |inodes| == |old(inodes)| && SameBytes(old(View()), View())
      ensures MapGrows(old(View()), View(), ino) && r == inodes[ino].addrs[k]
      ensures old(inodes[ino].addrs[k]) != 0 || r == 0 ==> View() == old(View())
      ensures r == 0 ==> DiskFull(View())
      ensures r != 0 ==> forall x :: IsSlot(View(), x) && x != Slot(ino, k) ==> At(View(), x) == At(old(View()), x)
      ensures logged <= old(logged) + Bitmap() + {r} && (r == 0 ==> logged == old(logged))
    {
      r := inodes[ino].addrs[k];
      if r == 0 {
        ghost var s0 := View();
        r := Balloc({});
        if r == 0 {
          return;
        }
        ghost var s1 := View();
        AllocAtEffect(s0, {}, r);
        inodes := inodes[ino := Inode(inodes[ino].size, inodes[ino].addrs[k := r])];
        assert View() == SetAddr(s1, ino, k, r);
        SetAddrAttaches(s1, {r}, ino, k, r);
        SameTrans(s0, s1, View());
        assert {r} - {r} == {};
      }
    }
  
    /** Put the fresh block `r` into entry `j` of the indirect block. */
    method PutEntry(ino: nat, j: nat, r: uint32, ghost s0: Fs)
      requires Tight(s0, {}, {}) && ino < |s0.inodes| && j < NINDIRECT && s0.inodes[ino].addrs[NDIRECT] != 0
      requires At(s0, Slot(ino, NDIRECT + 1 + j)) == 0
      requires r < s0.sb.size && !InUse(s0, r) && View() == AllocAt(s0, r)
      modifies this`blocks, this`logged
      ensures Tight(View(), {}, {}) && SameBytes(s0, View())
      ensures MapGrows(s0, View(), ino) && r == At(View(), Slot(ino, NDIRECT + 1 + j))
      ensures logged == old(logged) + {inodes[ino].addrs[NDIRECT]}
    {
      ghost var s1 := View();
      AllocAtEffect(s0, {}, r);
      var ind := inodes[ino].addrs[NDIRECT];
      assert At(s1, Slot(ino, NDIRECT + 1 + j)) == 0;
      blocks := blocks[ind := SetWord(blocks[ind], j, r)];
      logged := logged + {ind};
      assert View() == SetEntry(s1, ino, j, r);
      SetEntryAttaches(s1, {} + {r}, ino, j, r);
      SameTrans(s0, s1, View());
      assert {} + {r} - {r} == {};
    }

    /** Entry `j` of the indirect block, allocated if it is 0. */
    method MapEntry(ino: nat, j: nat) returns (r: uint32)
      requires Tight(View(), {}, {}) && ino < |inodes| && j < NINDIRECT && inodes[ino].addrs[NDIRECT] != 0
      modifies this`blocks, this`logged
      ensures Tight(View(), {}, {}) && SameBytes(old(View()), View())
      ensures MapGrows(old(View()), View(), ino) && r == At(View(), Slot(ino, NDIRECT + 1 + j))
      ensures At(old(View()), Slot(ino, NDIRECT + 1 + j)) != 0 || r == 0 ==> View() == old(View())
      ensures r == 0 ==> DiskFull(View())
      ensures logged <= old(logged) + Bitmap() + ({r, inodes[ino].addrs[NDIRECT]} - {0})
    {
      var ind := inodes[ino].addrs[NDIRECT];
      r := Word(blocks[ind], j);
      if r == 0 {
        r := Balloc({});
        if r != 0 {
          PutEntry(ino, j, r, old(View()));
        }
      }
    }

    /** The block of file block `bn`, allocated if there is none; 0 when the
        disk is full.  No byte of any file changes. */
    method Bmap(ino: nat, bn: nat) returns (r: uint32)
      requires Tight(View(), {}, {}) && ino < |inodes| && bn < MAXFILE
      modifies this
      ensures Tight(View(), {}, {}) && |inodes| == |old(inodes)| && SameBytes(old(View()), View())
      ensures MapGrows(old(View()), View(), ino)
      ensures r == At(View(), FileSlot(ino, bn))
      ensures At(old(View()), FileSlot(ino, bn)) != 0 ==> View() == old(View())
      ensures r == 0 ==> DiskFull(View())
      ensures logged <= old(logged) + Bitmap() + ({r, inodes[ino].addrs[NDIRECT]} - {0})
    {
      if bn < NDIRECT {
        r := MapAddr(ino, bn);
        return;
      }
      ghost var s0 := View();
      var ind := MapAddr(ino, NDIRECT);
      if ind == 0 {
        return 0;
      }
      ghost var s1 := View();
      r := MapEntry(ino, bn - NDIRECT);
      SameTrans(s0, s1, View());
      MapGrowsTrans(s0, s1, View(), ino);
    }

    /** `if(ip->addrs[k]){ bfree; ip->addrs[k] = 0; }`, without a panic. */
    method FreeDirect(ino: nat, k: nat)
      requires Tight(View(), {}, {}) && ino < |inodes| && k < NDIRECT
      modifies this
      ensures Tight(View(), {}, {}) && |inodes| == |old(inodes)|
      ensures Emptied(old(View()), View(), ino, k, k + 1)
    {
      var b := inodes[ino].addrs[k];
      if b != 0 {
        ghost var s0, x := View(), Slot(ino, k);
        assert IsSlot(s0, x) && At(s0, x) == b;
        FreeEffect(s0, {}, x);
        var ok := Bfree(b);
        assert ok;
        ghost var s1 := View();
        assert {} + {x} == {x};
        DirectEmptied(s0, s1, ino, k);
        inodes := inodes[ino := Inode(inodes[ino].size, inodes[ino].addrs[k := 0])];
        assert View() == SetAddr(s1, ino, k, 0);
      }
    }

    /** `if(a[j]) bfree(ip->dev, a[j]);`, without a panic. */
    method FreeEntry(ino: nat, j: nat)
      requires ino < |inodes| && j < NINDIRECT && Tight(View(), {}, IndirectSlots(ino, j))
      requires inodes[ino].addrs[NDIRECT] != 0
      modifies this`blocks, this`logged
      ensures Tight(View(), {}, IndirectSlots(ino, j + 1))
      ensures SameSlots(old(View()), View()) && SameBytes(old(View()), View())
    {
      ghost var s, x := View(), Slot(ino, NDIRECT + 1 + j);
      assert IndirectSlots(ino, j + 1) == IndirectSlots(ino, j) + {x};
      var b := Word(blocks[inodes[ino].addrs[NDIRECT]], j);
      assert IsSlot(s, x) && At(s, x) == b;
      if b != 0 {
        FreeEffect(s, IndirectSlots(ino, j), x);
        var ok := Bfree(b);
        assert ok;
      } else {
        GoneZero(s, IndirectSlots(ino, j), x);
      }
    }

    method FreeEntries(ino: nat)
      requires Tight(View(), {}, {}) && ino < |inodes| && inodes[ino].addrs[NDIRECT] != 0
      modifies this`blocks, this`logged
      ensures Tight(View(), {}, IndirectSlots(ino, NINDIRECT))
      ensures SameSlots(old(View()), View()) && SameBytes(old(View()), View())
    {
      ghost var s0 := View();
      var j := 0;
      assert IndirectSlots(ino, 0) == {};
      while j < NINDIRECT
        invariant j <= NINDIRECT && Tight(View(), {}, IndirectSlots(ino, j))
        invariant SameSlots(s0, View()) && SameBytes(s0, View())
      {
        ghost var s1 := View();
        FreeEntry(ino, j);
        SameTrans(s0, s1, View());
        j := j + 1;
      }
    }

    /** Free the entries of the indirect block, then the block itself. */
    method FreeIndirect(ino: nat)
      requires Tight(View(), {}, {}) && ino < |inodes| && inodes[ino].addrs[NDIRECT] != 0
      modifies this
      ensures Tight(View(), {}, {}) && |inodes| == |old(inodes)|
      ensures Emptied(old(View()), View(), ino, NDIRECT, NSLOTS)
    {
      FreeEntries(ino);
      var ind := inodes[ino].addrs[NDIRECT];
      ghost var s, x := View(), Slot(ino, NDIRECT);
      assert IsSlot(s, x) && At(s, x) == ind;
      FreeEffect(s, IndirectSlots(ino, NINDIRECT), x);
      var ok := Bfree(ind);
      assert ok;
      ClearIndirect(View(), ino);
      ghost var s' := View();
      SameTrans(old(View()), s, s');
      IndirectEmptied(old(View()), s', ino);
      inodes := inodes[ino := Inode(inodes[ino].size, inodes[ino].addrs[NDIRECT := 0])];
      assert View() == SetAddr(s', ino, NDIRECT, 0);
    }

    method FreeDirects(ino: nat)
      requires Tight(View(), {}, {}) && ino < |inodes|
      modifies this
      ensures Tight(View(), {}, {}) && |inodes| == |old(inodes)|
      ensures Emptied(old(View()), View(), ino, 0, NDIRECT)
    {
      ghost var s0 := View();
      var i := 0;
      while i < NDIRECT
        invariant i <= NDIRECT && |inodes| == |old(inodes)| && Tight(View(), {}, {})
        invariant Emptied(s0, View(), ino, 0, i)
      {
        ghost var s1 := View();
        FreeDirect(ino, i);
        EmptiedTrans(s0, s1, View(), ino, i, i + 1);
        i := i + 1;
      }
    }

    /** Free every block of an inode, and nothing else. */
    method Itrunc(ino: nat)
      requires Inv(View()) && ino < |inodes|
      modifies this
      ensures Inv(View()) && |inodes| == |old(inodes)|
      ensures inodes[ino].size == 0
      ensures forall x :: IsSlot(View(), x) ==> At(View(), x) == if x.ino == ino then 0 else At(old(View()), x)
      ensures forall j :: 0 <= j < |inodes| && j != ino ==> inodes[j] == old(inodes)[j]
      ensures forall j :: 0 <= j < |inodes| && j != ino ==> Contents(View(), j) == Contents(old(View()), j)
      ensures forall b :: 0 <= b < sb.size ==>
                (InUse(View(), b) <==> InUse(old(View()), b) && !HoldsBlock(old(View()), ino, b))
    {
      ghost var s0 := View();
      FreeDirects(ino);
      ghost var s1 := View();
      if inodes[ino].addrs[NDIRECT] != 0 {
        FreeIndirect(ino);
      } else {
        NoIndirect(s1, ino);
      }
      ghost var s2 := View();
      EmptiedTrans(s0, s1, s2, ino, NDIRECT, NSLOTS);
      inodes := inodes[ino := Inode(0, inodes[ino].addrs)];
      logged := logged + {sb.IBlock(ino)};            // iupdate
      TruncatedRest(s0, s2, ino);
    }

    /** One turn of the loop of `readi`. */
    method ReadChunk(ino: nat, off: nat, m: nat) returns (d: seq<byte>)
      requires Inv(View()) && ino < |inodes| && 0 < m && off + m <= inodes[ino].size && off % BSIZE + m <= BSIZE
      modifies this
      ensures View() == old(View()) && d == Contents(View(), ino)[off..off + m]
    {
      MappedBelowSize(View(), ino, off);
      var addr := Bmap(ino, off / BSIZE);
      d := blocks[addr][off % BSIZE..off % BSIZE + m];
      ChunkIsSlice(View(), ino, off, m);
    }

    /** One turn of the loop of `readi`; -1 when the copy faults. */
    method ReadTurn(ino: nat, off0: nat, n: nat, room: nat, tot: nat, dst: seq<byte>)
      returns (next: int, dst': seq<byte>)
      requires Inv(View()) && ino < |inodes| && off0 + n <= inodes[ino].size && tot < n
      requires dst == Slice(Contents(View(), ino), off0, tot)
      modifies this
      ensures View() == old(View())
      ensures if next == -1 then room < n else tot < next <= n && next <= room
      ensures next != -1 ==> dst' == Slice(Contents(View(), ino), off0, next)
    {
      var off := off0 + tot;
      var m := Min(n - tot, BSIZE - off % BSIZE);
      if tot + m > room {
        return -1, dst;
      }
      var d := ReadChunk(ino, off, m);
      SliceJoin(Contents(View(), ino), off0, off, tot, m);
      return tot + m, dst + d;
    }

    method ReadLoop(ino: nat, off0: nat, n: nat, room: nat) returns (r: int, dst: seq<byte>)
      requires Inv(View()) && ino < |inodes| && off0 + n <= inodes[ino].size
      modifies this
      ensures View() == old(View())
      ensures if n <= room then r == n && dst == Slice(Contents(View(), ino), off0, n) else r == -1
    {
      ghost var s := View();
      r, dst := 0, [];
      while r < n
        invariant 0 <= r <= n && View() == s && (r == 0 || r <= room)
        invariant dst == Slice(Contents(s, ino), off0, r)
        decreases n - r
      {
        r, dst := ReadTurn(ino, off0, n, room, r, dst);
        if r == -1 {
          return;
        }
      }
    }

    /** Read `n` bytes at `off`, of which `room` can be copied out.  The result
        is the clamped slice, or -1 when the copy faults; nothing changes. */
    method Readi(ino: nat, off0: uint32, n0: uint32, room: nat) returns (r: int, dst: seq<byte>)
      requires Inv(View()) && ino < |inodes|
      modifies this
      ensures View() == old(View())
      ensures var want := Clamp(inodes[ino].size, off0, n0);
              if want <= room then r == want && dst == Slice(Contents(View(), ino), off0, want)
              else r == -1
    {
      if off0 > inodes[ino].size || Wraps(off0, n0) {
        return 0, [];
      }
      var n := if off0 as int + n0 as int > inodes[ino].size then inodes[ino].size - off0 else n0;
      r, dst := ReadLoop(ino, off0, n, room);
    }

    /** One turn of the loop of `writei`: map the block, put `d` at `off`, and
        log the block if all `m` bytes came in.  `false` means that the disk
        is full. */
    method WriteChunk(ino: nat, off: nat, d: seq<byte>, m: nat) returns (ok: bool)
      requires Tight(View(), {}, {}) && ino < |inodes|
      requires |d| <= m && off % BSIZE + m <= BSIZE && off + m <= MAXFILE * BSIZE && 0 < m
      modifies this
      ensures Tight(View(), {}, {}) && |inodes| == |old(inodes)|
      ensures MapGrows(old(View()), View(), ino)
      ensures ok == (At(View(), FileSlot(ino, off / BSIZE)) != 0)
      ensures !ok ==> DiskFull(View())
      ensures Wrote(old(View()), View(), ino, off, if ok then d else [])
      ensures logged <= old(logged) + Bitmap()
                        + ({At(View(), FileSlot(ino, off / BSIZE)), inodes[ino].addrs[NDIRECT]} - {0})
    {
      ghost var s0 := View();
      var addr := Bmap(ino, off / BSIZE);
      ghost var s1 := View();
      ok := addr != 0;
      if ok {
        assert IsSlot(s1, FileSlot(ino, off / BSIZE));
        var o, bp := off % BSIZE, blocks[addr];
        blocks := blocks[addr := bp[..o] + d + bp[o + |d|..]];
        if |d| == m {
          logged := logged + {addr};                  // a faulting copy is not logged
        }
        WroteChunk(s0, s1, View(), ino, off, d);
      }
    }

    /** `put` of the `m` bytes of the next chunk come in, unless the disk is full. */
    method WriteTurn(ghost s0: Fs, ino: nat, off0: nat, src: seq<byte>, tot: nat, m: nat, put: nat)
      returns (ok: bool)
      requires tot + m <= |src| && off0 + |src| <= MAXFILE * BSIZE && Inv(s0)
      requires 0 < m && (off0 + tot) % BSIZE + m <= BSIZE && put <= m
      requires Writing(s0, View(), ino, off0, src[..tot], off0 + tot)
      modifies this
      ensures |inodes| == |old(inodes)| && Shape(View()) && MapGrows(old(View()), View(), ino)
      ensures TurnWrote(s0, View(), ino, off0, src, tot, m, put, ok)
      ensures Logs(old(logged), logged, Bitmap(), View(), ino, off0, |src|)
    {
      ghost var s1 := View();
      var off, d := off0 + tot, src[tot..tot + put];
      ok := WriteChunk(ino, off, d, m);
      if !ok { FullPastEnd(s0, s1, View(), ino, off); }
      NextTurn(s0, s1, View(), ino, off0, src, tot, put, ok, m);
      InFootprint(View(), ino, off0, |src|, off);
    }

    /** One turn of the loop of `writei`, which goes on or stops for good. */
    method WriteStep(ghost s0: Fs, ghost l0: set<nat>, ino: nat, off0: nat, src: seq<byte>, tot: nat, avail: nat)
      returns (stop: bool, next: nat, ghost spill: nat)
      requires tot < |src| && off0 + |src| <= MAXFILE * BSIZE && Inv(s0)
      requires Upto(s0, View(), ino, off0, src, avail, tot) && Logs(l0, logged, Bitmap(), View(), ino, off0, |src|)
      modifies this
      ensures |inodes| == |old(inodes)| && ino < |inodes| && Shape(View())
      ensures Logs(l0, logged, Bitmap(), View(), ino, off0, |src|)
      ensures StepDone(s0, View(), ino, off0, src, avail, tot, stop, next, spill)
    {
      ghost var s1, l1 := View(), logged;
      var m := Min(|src| - tot, BSIZE - (off0 + tot) % BSIZE);
      TurnCounts(off0, |src|, avail, tot, m);
      var put := Readable(avail, tot, m);
      var ok := WriteTurn(s0, ino, off0, src, tot, m, put);
      LogsMore(l0, l1, logged, Bitmap(), s1, View(), ino, off0, |src|);
      TurnEnds(s0, View(), ino, off0, src, avail, tot, m, put, ok);
      stop, spill := !ok || put < m, if ok then put else 0;
      next := if stop then tot else tot + m;
    }

    /** The loop of `writei`.  The first `avail` bytes of `src` can be copied
        in; `spill` counts the bytes that a faulting copy left in the buffer
        beyond the `tot` that are accounted for. */
    method WriteLoop(ino: nat, off0: nat, src: seq<byte>, avail: nat) returns (tot: nat, ghost spill: nat)
      requires Inv(View()) && ino < |inodes| && off0 <= inodes[ino].size && off0 + |src| <= MAXFILE * BSIZE
      modifies this
      ensures |inodes| == |old(inodes)| && StepDone(old(View()), View(), ino, off0, src, avail, tot, true, tot, spill)
      ensures Logs(old(logged), logged, Bitmap(), View(), ino, off0, |src|)
    {
      tot, spill := 0, 0;
      ghost var s0, l0 := View(), logged;
      WritingStart(s0, ino, off0);
      assert src[..0] == [];
      while tot < |src|
        invariant tot <= |src| && |inodes| == |old(inodes)|
        invariant Upto(s0, View(), ino, off0, src, avail, tot) && Logs(l0, logged, Bitmap(), View(), ino, off0, |src|)
      {
        var stop, next;
        stop, next, spill := WriteStep(s0, l0, ino, off0, src, tot, avail);
        if stop {
          return;
        }
        tot := next;
      }
      AllIn(s0, View(), ino, off0, src, avail, tot);
      spill := 0;
    }

    /** `writei` once its arguments are accepted: the loop, the size, and the
        inode written back. */
    method WriteBytes(ino: nat, off: nat, src: seq<byte>, avail: nat) returns (r: nat, ghost spill: nat)
      requires Inv(View()) && ino < |inodes| && off <= inodes[ino].size && off + |src| <= MAXFILE * BSIZE
      modifies this
      ensures Inv(View()) && |inodes| == |old(inodes)|
      ensures WriteResult(old(View()), View(), ino, off, src, avail, r, spill)
      ensures Logs(old(logged) + {sb.IBlock(ino)}, logged, Bitmap(), View(), ino, off, |src|)
    {
      ghost var s0 := View();
      r, spill := WriteLoop(ino, off, src, avail);
      ghost var s1 := View();
      var size := if off + r > inodes[ino].size then off + r else inodes[ino].size;
      inodes := inodes[ino := Inode(size, inodes[ino].addrs)];
      logged := logged + {sb.IBlock(ino)};            // iupdate
      assert View() == SetSize(s1, ino, size);
      FinishWrite(s0, s1, ino, off, src[..r + spill], r);
      SetSizeFootprint(s1, ino, size, off, |src|);
      WriteExact(Contents(s0, ino), View(), off, src, avail, r, spill);
    }

    /** Write `src` at `off`, of which the first `avail` bytes can be copied in.
        `r` is what the caller is told, -1 for bad arguments; otherwise the
        contents are the old ones with the stored bytes in place, whether or not
        everything could be stored, and they are exactly the bytes counted if
        and only if `Exact` held of the arguments. */
    method Writei(ino: nat, off: uint32, src: seq<byte>, avail: nat) returns (r: int, ghost spill: nat)
      requires Inv(View()) && ino < |inodes| && |src| < 0x1_0000_0000
      modifies this
      ensures Inv(View()) && |inodes| == |old(inodes)|
      ensures r == -1 <==> off > old(inodes)[ino].size || off + |src| > MAXFILE * BSIZE
      ensures r == -1 ==> View() == old(View()) && spill == 0
      ensures r != -1 ==> 0 <= r && WriteResult(old(View()), View(), ino, off, src, avail, r, spill)
      ensures Logs(old(logged) + {sb.IBlock(ino)}, logged, Bitmap(), View(), ino, off, |src|)
    {
      var n := |src|;
      if off > inodes[ino].size || Wraps(off, n) {
        return -1, 0;
      }
      if off as int + n > MAXFILE * BSIZE {
        return -1, 0;
      }
      r, spill := WriteBytes(ino, off, src, avail);
    }
  }
}
