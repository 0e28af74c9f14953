/** kernel/file.c: `filewrite` on an inode, cut into operations that fit the log. */
module Files {
  import opened BlockFormat
  import opened FsState
  import opened Inodes
  import LogMachine
  import LogCapacity

  class File {
    const ino: nat
    var off: uint32

    constructor (ino: nat)
      ensures this.ino == ino && off == 0
    {
      this.ino, off := ino, 0;
    }
  }

  /** `((MAXOPBLOCKS-1-1-2) / 2) * BSIZE`, in bytes. */
  const MAXCHUNK := 3072

  /** Which faults can break the promise of `writei`: a copy of `n` bytes that
      faults after `avail` keeps it whatever the bytes are, if and only if the
      fault is at a chunk boundary, or in a chunk that begins past the end. */
  lemma HarmlessFault(c: seq<byte>, off: nat, n: nat, avail: nat)
    ensures (forall src: seq<byte> :: |src| == n ==> Exact(c, off, src, avail))
            <==> n <= avail || Counted(off, n, avail) == avail || |c| <= off + Counted(off, n, avail)
  {
    var r := Counted(off, n, avail);
    if avail < n && r < avail && off + r < |c| {
      var other: byte := if c[off + r] == 0 then 1 else 0;
      var src: seq<byte> := seq(n, _ => other);
      assert !Exact(c, off, src, avail) by { assert src[r] != c[off + r]; }
    }
  }

  /** A disk of three blocks; the only file has two bytes, in the last of them. */
  function SmallDisk(): Fs {
    Fs(Super(3, 2, 0, 1),
       [ZeroBlock(), ZeroBlock()[0 := 7], ZeroBlock()[0 := 7][1 := 7]],
       [Inode(2, [2] + seq(NDIRECT, _ => 0))])
  }

  lemma SmallDiskOk()
    ensures Inv(SmallDisk()) && Contents(SmallDisk(), 0) == [7, 7]
  {
    var s := SmallDisk();
    assert BitOf(7, 0) && BitOf(7, 1) && BitOf(7, 2);
    forall b | 0 <= b < 3 ensures InUse(s, b) { assert b / 8 == 0; }
    forall x | IsSlot(s, x) ensures At(s, x) == if x.k == 0 then 2 else 0 {}
    assert IsSlot(s, Slot(0, 0));
  }

  /** The promise is broken: one byte of two can be read, no byte is counted,
      and yet the first byte of the file has changed. */
  method WriteSpillVisible() returns (fs: FileSystem, r: int)
    ensures r == 0 && Shape(fs.View()) && |fs.inodes| == 1 && Contents(fs.View(), 0) == [1, 7]
  {
    SmallDiskOk();
    fs := new FileSystem(SmallDisk());
    ghost var spill;
    r, spill := fs.Writei(0, 0, [1, 2], 1);
    assert Contents(fs.View(), 0) == Updated([7, 7], 0, [1, 2][..1], 0);
  }

  /** One operation of `filewrite`: what it passed to `log_write` when it put
      `n` bytes at `off` of `ino`, with the file system `fs` it left. */
  datatype Chunk = Chunk(logged: set<nat>, bitmap: set<nat>, iblock: nat, fs: Fs, ino: nat, off: nat, n: nat) {
    /** The inode's block, bitmap blocks, and the blocks under the chunk. */
    ghost predicate Ok() {
      && Shape(fs) && ino < |fs.inodes| && 0 < n <= MAXCHUNK && |bitmap| <= 1
      && Logs({iblock}, logged, bitmap, fs, ino, off, n)
    }
  }

  ghost predicate AllOk(ops: seq<Chunk>) { forall k :: 0 <= k < |ops| ==> ops[k].Ok() }

  lemma OneMoreOk(ops: seq<Chunk>, c: Chunk)
    requires AllOk(ops) && c.Ok()
    ensures AllOk(ops + [c])
  {
    forall k | 0 <= k < |ops + [c]| ensures (ops + [c])[k].Ok() {}
  }

  lemma UnionCount(a: set<nat>, b: set<nat>)
    ensures |a + b| <= |a| + |b|
  {
    assert a + b == a + (b - a);
    SubsetCount(b - a, b);
  }

  /** With a one-block bitmap, one chunk logs at most seven blocks: within the
      reservation of an operation, and leaving some of it unused. */
  lemma ChunkFitsOperation(c: Chunk)
    requires c.Ok()
    ensures |c.logged| <= 7 < LogMachine.MAXOPBLOCKS
  {
    var a, b := FirstBlock(c.off), EndBlock(c.off, c.n);
    assert MAXCHUNK == (LogMachine.MAXOPBLOCKS - 1 - 1 - 2) / 2 * BSIZE && b - a <= 4;
    DataBlocksCount(c.fs, c.ino, a, b);
    var data := DataBlocks(c.fs, c.ino, a, b);
    var ind: set<nat> := {c.fs.inodes[c.ino].addrs[NDIRECT]};
    SubsetCount(c.logged, {c.iblock} + c.bitmap + (data + ind));
    UnionCount({c.iblock} + c.bitmap, data + ind);
    UnionCount({c.iblock}, c.bitmap);
    UnionCount(data, ind);
  }

  /** `c'` is `c` after `done` bytes of `src` were written at `off` and
      accounted for, and `spill` more were left in a buffer. */
  predicate Progress(c: seq<byte>, c': seq<byte>, off: nat, src: seq<byte>, done: nat, spill: nat)
    requires done + spill <= |src|
  {
    if off > |c| then c' == c
    else
      && |c'| == (if off + done > |c| then off + done else |c|)
      && forall k :: 0 <= k < |c'| ==> c'[k] == if off <= k < off + done + spill then src[k - off] else c[k]
  }

  lemma UpdatedProgress(c: seq<byte>, off: nat, d: seq<byte>, r: nat, spill: nat)
    requires off <= |c| && r + spill <= |d|
    ensures Progress(c, Updated(c, off, d[..r + spill], r), off, d, r, spill)
  {
  }

  lemma ProgressTrans(c: seq<byte>, c1: seq<byte>, c2: seq<byte>, off: nat, src: seq<byte>, i: nat, n1: nat, r: nat,
                      spill: nat, at: nat, d: seq<byte>)
    requires i + n1 <= |src| && r + spill <= n1 && off <= |c| && at <= |c1| && at == off + i && d == src[i..i + n1]
    requires Progress(c, c1, off, src, i, 0) && Progress(c1, c2, at, d, r, spill)
    ensures Progress(c, c2, off, src, i + r, spill)
  {
    forall k | 0 <= k < |c2| ensures c2[k] == if off <= k < off + i + r + spill then src[k - off] else c[k] {
      assert at <= k < at + r + spill ==> d[k - at] == src[k - off];
    }
  }

  ghost predicate OthersSame(s: Fs, s': Fs, ino: nat) {
    && Shape(s) && Shape(s') && |s'.inodes| == |s.inodes|
    && forall j :: 0 <= j < |s.inodes| && j != ino ==> Contents(s', j) == Contents(s, j)
  }

  lemma OthersTrans(s0: Fs, s1: Fs, s2: Fs, ino: nat)
    requires OthersSame(s0, s1, ino) && OthersSame(s1, s2, ino)
    ensures OthersSame(s0, s2, ino)
  {
    forall j | 0 <= j < |s0.inodes| && j != ino ensures Contents(s2, j) == Contents(s0, j) {
      assert Contents(s1, j) == Contents(s0, j);
    }
  }

  /** One `writei` stored `r` bytes of `d`, and `spill` more in a buffer. */
  ghost predicate Stored(s: Fs, s': Fs, ino: nat, off: nat, d: seq<byte>, r: nat, spill: nat) {
    && Inv(s') && OthersSame(s, s', ino) && ino < |s.inodes| && r + spill <= |d|
    && off <= |Contents(s, ino)| && Progress(Contents(s, ino), Contents(s', ino), off, d, r, spill)
  }

  /** What keeps a write of `n` bytes at `off` from being complete: the offset is
      beyond the end, the file would be too big, the source cannot all be read,
      or the disk is full. */
  ghost predicate Hindered(s0: Fs, s: Fs, ino: nat, off: nat, n: nat, avail: nat) {
    && Shape(s0) && Shape(s) && ino < |s0.inodes|
    && (off > |Contents(s0, ino)| || off + n > MAXFILE * BSIZE || avail < n || DiskFull(s))
  }

  function Got(r: int): nat { if r < 0 then 0 else r }

  /** What one `writei` that returned `r` did to the file system. */
  ghost predicate OpResult(s: Fs, s': Fs, ino: nat, off: nat, d: seq<byte>, avail: nat, r: int, spill: nat) {
    && (r == -1 || 0 <= r <= |d|)
    && (if r == -1 then s' == s && spill == 0 else Stored(s, s', ino, off, d, r, spill))
    && (r != |d| ==> Hindered(s, s', ino, off, |d|, avail))
    && (spill > 0 ==> r + spill == avail < |d|)
  }

  /** One operation of `filewrite`: begin_op, writei, end_op. */
  method WriteOp(fs: FileSystem, f: File, d: seq<byte>, avail: nat)
    returns (r: int, ghost spill: nat, ghost chunk: Chunk)
    requires Inv(fs.View()) && f.ino < |fs.inodes| && 0 < |d| <= MAXCHUNK && fs.sb.size <= BPB
    modifies fs, f
    ensures OpResult(old(fs.View()), fs.View(), f.ino, old(f.off), d, avail, r, spill)
    ensures f.off == old(f.off) + Got(r)
    ensures chunk.Ok() && chunk.logged == fs.logged
  {
    ghost var c := Contents(fs.View(), f.ino);
    fs.logged := {};                                  // begin_op
    r, spill := fs.Writei(f.ino, f.off, d, avail);
    ghost var at := f.off;
    if r != -1 { UpdatedProgress(c, at, d, r, spill); }
    if r > 0 {
      f.off := f.off + r;
    }
    assert fs.Bitmap() <= {fs.sb.bmapstart} by {
      forall c | 0 <= c < fs.sb.size ensures fs.sb.BBlock(c) == fs.sb.bmapstart {}
    }
    SubsetCount(fs.Bitmap(), {fs.sb.bmapstart});
    assert {} + {fs.sb.IBlock(f.ino)} == {fs.sb.IBlock(f.ino)};
    chunk := Chunk(fs.logged, fs.Bitmap(), fs.sb.IBlock(f.ino), fs.View(), f.ino, at, |d|);
  }

  /** `done` bytes of `src` are in, `spill` more are in a buffer, and nothing
      else has happened since `s0`. */
  ghost predicate Written(s0: Fs, s: Fs, ino: nat, off: nat, src: seq<byte>, done: nat, spill: nat) {
    && Inv(s) && OthersSame(s0, s, ino) && ino < |s0.inodes| && done + spill <= |src|
    && (done > 0 ==> off <= |Contents(s0, ino)|)
    && Progress(Contents(s0, ino), Contents(s, ino), off, src, done, spill)
  }

  lemma WrittenStart(s: Fs, ino: nat, off: nat, src: seq<byte>)
    requires Inv(s) && ino < |s.inodes|
    ensures Written(s, s, ino, off, src, 0, 0)
  {
  }

  lemma WrittenStep(s0: Fs, s1: Fs, s2: Fs, ino: nat, off: nat, src: seq<byte>, i: nat, n1: nat, at: nat, d: seq<byte>,
                    r: nat, more: nat)
    requires Written(s0, s1, ino, off, src, i, 0) && i + n1 <= |src| && at == off + i && d == src[i..i + n1]
    requires Stored(s1, s2, ino, at, d, r, more)
    ensures Written(s0, s2, ino, off, src, i + r, more) && r + more <= n1
  {
    OthersTrans(s0, s1, s2, ino);
    assert off <= |Contents(s0, ino)|;
    ProgressTrans(Contents(s0, ino), Contents(s1, ino), Contents(s2, ino), off, src, i, n1, r, more, at, d);
  }

  /** What hinders a turn hinders the whole call. */
  lemma HinderedNext(s0: Fs, s1: Fs, s2: Fs, ino: nat, off: nat, src: seq<byte>, i: nat, n1: nat, avail: nat, at: nat,
                     a: nat)
    requires Written(s0, s1, ino, off, src, i, 0) && i + n1 <= |src|
    requires at == off + i && a == if avail > i then avail - i else 0
    requires Hindered(s1, s2, ino, at, n1, a)
    ensures Hindered(s0, s2, ino, off, |src|, avail)
  {
  }

  /** What `filewrite` has done when `done` bytes are in and `spill` more in a buffer:
      everything so far if `full`, otherwise something hinders it. */
  ghost predicate WriteState(s0: Fs, s: Fs, ino: nat, off: nat, src: seq<byte>, avail: nat, done: nat, spill: nat,
                             full: bool) {
    && done <= |src| && Written(s0, s, ino, off, src, done, spill)
    && (if full then spill == 0 else done < |src| && Hindered(s0, s, ino, off, |src|, avail))
    && (spill > 0 ==> done + spill == avail < |src|)
  }

  lemma WrittenNext(s0: Fs, s1: Fs, s2: Fs, ino: nat, off: nat, src: seq<byte>, i: nat, n1: nat, avail: nat, at: nat,
                    d: seq<byte>, a: nat, r: int, more: nat, next: nat)
    requires Written(s0, s1, ino, off, src, i, 0) && i + n1 <= |src| && 0 < n1
    requires at == off + i && d == src[i..i + n1] && a == if avail > i then avail - i else 0
    requires OpResult(s1, s2, ino, at, d, a, r, more) && next == i + Got(r)
    ensures WriteState(s0, s2, ino, off, src, avail, next, more, r == n1)
  {
    if r != -1 { WrittenStep(s0, s1, s2, ino, off, src, i, n1, at, d, r, more); }
    if r != n1 { HinderedNext(s0, s1, s2, ino, off, src, i, n1, avail, at, a); }
  }

  /** One turn of the loop of `filewrite`, on the next `n1` bytes. */
  method WriteNext(fs: FileSystem, f: File, src: seq<byte>, i: nat, avail: nat, ghost s0: Fs, ghost off0: nat)
    returns (full: bool, next: nat, ghost more: nat, ghost chunk: Chunk)
    requires f.ino < |fs.inodes| && fs.sb.size <= BPB && i < |src| && f.off == off0 + i
    requires Written(s0, fs.View(), f.ino, off0, src, i, 0)
    modifies fs, f
    ensures f.off == off0 + next && f.ino < |fs.inodes| && chunk.Ok() && chunk.logged == fs.logged
    ensures WriteState(s0, fs.View(), f.ino, off0, src, avail, next, more, full) && (full ==> i < next)
  {
    ghost var s1, at := fs.View(), f.off;
    var n1 := if |src| - i > MAXCHUNK then MAXCHUNK else |src| - i;
    var d, a := src[i..i + n1], if avail > i then avail - i else 0;
    var r;
    r, more, chunk := WriteOp(fs, f, d, a);
    full, next := r == n1, i + Got(r);
    WrittenNext(s0, s1, fs.View(), f.ino, off0, src, i, n1, avail, at, d, a, r, more, next);
  }

  /** Write `src`, of which `avail` bytes can be read, at the file's offset, in
      operations of at most seven logged blocks. */
  method FileWrite(fs: FileSystem, f: File, src: seq<byte>, avail: nat)
    returns (ret: int, ghost done: nat, ghost spill: nat, ghost ops: seq<Chunk>)
    requires Inv(fs.View()) && f.ino < |fs.inodes| && fs.sb.size <= BPB
    modifies fs, f
    ensures WriteState(old(fs.View()), fs.View(), f.ino, old(f.off), src, avail, done, spill, done == |src|)
    ensures ret == (if done == |src| then |src| else -1) && f.off == old(f.off) + done
    ensures AllOk(ops)
  {
    done, spill, ops := 0, 0, [];
    ghost var s0, off0 := fs.View(), f.off;
    WrittenStart(s0, f.ino, off0, src);
    var i, full := 0, true;
    while full && i < |src|
      invariant 0 <= i == done && f.off == off0 + i && f.ino < |fs.inodes| && AllOk(ops)
      invariant WriteState(s0, fs.View(), f.ino, off0, src, avail, done, spill, full)
      decreases full, |src| - i
    {
      ghost var chunk;
      full, i, spill, chunk := WriteNext(fs, f, src, i, avail, s0, off0);
      OneMoreOk(ops, chunk);
      ops, done := ops + [chunk], i;
    }
    ret := if i == |src| then i else -1;
  }

  /** When everything was written, the contents are a splice of all of `src`. */
  lemma WrittenAll(s0: Fs, s: Fs, ino: nat, off: nat, src: seq<byte>, done: nat, spill: nat)
    requires Written(s0, s, ino, off, src, done, spill)
    ensures done == |src| > 0 ==> off <= |Contents(s0, ino)|
                                  && Contents(s, ino) == Splice(Contents(s0, ino), off, src)
  {
    if done == |src| > 0 {
      var x, y := Contents(s, ino), Splice(Contents(s0, ino), off, src);
      forall k | 0 <= k < |x| ensures x[k] == y[k] {}
    }
  }

  // ----- In the log -----------------------------------------------------------------

  /** Every operation of `run` logs only blocks of its own entry of `foot`. */
  ghost predicate StepsOf(l: LogMachine.Layout, foot: map<nat, Chunk>, s: LogMachine.State, s': LogMachine.State) {
    exists step ::
      && LogMachine.Enabled(l, s, step) && s' == LogMachine.Do(l, s, step)
      && (step.LogWrite? ==> s.open[step.i].id in foot && step.block in foot[s.open[step.i].id].logged)
  }

  ghost predicate IsRunOf(l: LogMachine.Layout, foot: map<nat, Chunk>, run: seq<LogMachine.State>) {
    && |run| > 0 && LogMachine.Init(l, run[0])
    && forall i :: 0 <= i < |run| - 1 ==> StepsOf(l, foot, run[i], run[i + 1])
  }

  predicate Footed(foot: map<nat, Chunk>, s: LogMachine.State) {
    forall i :: 0 <= i < |s.open| && s.open[i].blocks != {} ==>
      s.open[i].id in foot && s.open[i].blocks <= foot[s.open[i].id].logged
  }

  lemma FootedStep(l: LogMachine.Layout, foot: map<nat, Chunk>, s: LogMachine.State, step: LogMachine.Step)
    requires LogMachine.Enabled(l, s, step) && Footed(foot, s)
    requires step.LogWrite? ==> s.open[step.i].id in foot && step.block in foot[s.open[step.i].id].logged
    ensures Footed(foot, LogMachine.Do(l, s, step))
  {
    if step.EndOp? {
      var s' := LogMachine.Do(l, s, step);
      forall i | 0 <= i < |s'.open| ensures s'.open[i] == s.open[if i < step.i then i else i + 1] {}
    }
  }

  lemma {:induction false} FootedRun(l: LogMachine.Layout, foot: map<nat, Chunk>, run: seq<LogMachine.State>, i: nat)
    requires IsRunOf(l, foot, run) && i < |run|
    ensures Footed(foot, run[i])
  {
    if i > 0 {
      FootedRun(l, foot, run, i - 1);
      assert StepsOf(l, foot, run[i - 1], run[i - 1 + 1]);
      var s := run[i - 1];
      var step :|
        && LogMachine.Enabled(l, s, step) && run[i] == LogMachine.Do(l, s, step)
        && (step.LogWrite? ==> s.open[step.i].id in foot && step.block in foot[s.open[step.i].id].logged);
      FootedStep(l, foot, s, step);
    }
  }

  /** However the chunks of any number of `filewrite` calls interleave with each
      other, with commits and with crashes, "too big a transaction" is
      unreachable, in a log of LOGSIZE blocks or more. */
  lemma FileWritesNeverTooBig(l: LogMachine.Layout, foot: map<nat, Chunk>, run: seq<LogMachine.State>, k: nat)
    requires LogMachine.LOGSIZE <= l.size && IsRunOf(l, foot, run) && k < |run|
    requires forall id :: id in foot ==> foot[id].Ok()
    ensures !run[k].pc.Halted?
  {
    var limit := LogMachine.MAXOPBLOCKS - 1;
    forall i | 0 <= i < |run| - 1 ensures LogCapacity.NextWithin(l, limit, run[i], run[i + 1]) {
      FootedRun(l, foot, run, i);
      assert StepsOf(l, foot, run[i], run[i + 1]);
      var s := run[i];
      var step :|
        && LogMachine.Enabled(l, s, step) && run[i + 1] == LogMachine.Do(l, s, step)
        && (step.LogWrite? ==> s.open[step.i].id in foot && step.block in foot[s.open[step.i].id].logged);
      if step.LogWrite? {
        var c := foot[s.open[step.i].id];
        ChunkFitsOperation(c);
        SubsetCount(s.open[step.i].blocks + {step.block}, c.logged);
      }
      assert LogCapacity.Within(limit, s, step);
    }
    LogCapacity.NeverTooBig(l, run, k);
  }
}
