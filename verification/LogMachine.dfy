/** The write-ahead log as a step machine.

    Every `bwrite` is one step, a crash may come between any two steps, and
    any number of file system calls interleave at the granularity of
    `log.lock`.  The `current` and `committed` fields record what was logged;
    the code never reads them. */
module LogMachine {

  const MAXOPBLOCKS := 10
  const LOGSIZE := 30

  type Block = seq<int>    // the words of a block
  type Disk = seq<Block>

  /** `log.start` and `log.size`, and the number of blocks of the disk. */
  datatype Layout = Layout(start: nat, size: nat, blocks: nat) {
    predicate Valid() { 1 <= size && start + size <= blocks }
    predicate Home(b: int) { 0 <= b < blocks && !(start <= b < start + size) }
  }

  // ----- On-disk header ---------------------------------------------------

  /** `write_head` stores the count and the live entries; it leaves the words
      behind them as they were. */
  function EncodeHead(was: Block, lh: seq<int>): Block {
    [|lh|] + lh + if |lh| < |was| then was[1 + |lh|..] else []
  }

  /** Words 1..n of a header block. */
  function Entries(h: Block, n: nat): (lh: seq<int>)
    requires n < |h|
    ensures |lh| == n
  {
    if n == 0 then [] else Entries(h, n - 1) + [h[n]]
  }

  /** A list of distinct home blocks that fits both `logheader` and the log. */
  predicate LhOk(l: Layout, lh: seq<int>) {
    && |lh| <= LOGSIZE && |lh| < l.size
    && (forall i :: 0 <= i < |lh| ==> l.Home(lh[i]))
    && forall i, j :: 0 <= i < j < |lh| ==> lh[i] != lh[j]
  }

  predicate HeadOk(l: Layout, d: Disk)
    requires l.Valid() && |d| == l.blocks
  {
    var h := d[l.start];
    |h| > 0 && 0 <= h[0] < |h| && LhOk(l, Entries(h, h[0]))
  }

  function Head(l: Layout, d: Disk): (lh: seq<int>)
    requires l.Valid() && |d| == l.blocks && HeadOk(l, d)
  {
    Entries(d[l.start], d[l.start][0])
  }

  lemma {:induction false} EntriesOfEncoded(was: Block, lh: seq<int>, n: nat)
    requires n <= |lh|
    ensures Entries(EncodeHead(was, lh), n) == lh[..n]
  {
    if n > 0 {
      EntriesOfEncoded(was, lh, n - 1);
      assert EncodeHead(was, lh)[n] == lh[n - 1];
      assert lh[..n] == lh[..n - 1] + [lh[n - 1]];
    }
  }

  lemma HeadRoundTrip(l: Layout, d: Disk, lh: seq<int>)
    requires l.Valid() && |d| == l.blocks && LhOk(l, lh)
    ensures var d' := d[l.start := EncodeHead(d[l.start], lh)];
            HeadOk(l, d') && Head(l, d') == lh
  {
    EntriesOfEncoded(d[l.start], lh, |lh|);
    assert lh[..|lh|] == lh;
  }

  // ----- What recovery produces -------------------------------------------

  /** `install_trans` after `k` iterations. */
  function Installed(l: Layout, d: Disk, lh: seq<int>, k: nat): (r: Disk)
    requires l.Valid() && |d| == l.blocks && LhOk(l, lh) && k <= |lh|
    ensures |r| == |d|
  {
    if k == 0 then d
    else
      var p := Installed(l, d, lh, k - 1);
      p[lh[k - 1] := p[l.start + k]]
  }

  /** The disk that `recover_from_log` leaves behind when nothing stops it. */
  function Recovered(l: Layout, d: Disk): (r: Disk)
    requires l.Valid() && |d| == l.blocks && HeadOk(l, d)
  {
    var lh := Head(l, d);
    var r := Installed(l, d, lh, |lh|);
    r[l.start := EncodeHead(r[l.start], [])]
  }

  /** Same contents everywhere outside the log area. */
  predicate SameHome(l: Layout, d: Disk, e: Disk) {
    |d| == |e| == l.blocks && forall b :: 0 <= b < |d| && l.Home(b) ==> d[b] == e[b]
  }

  /** Installing touches nothing but the listed blocks, and leaves in each of
      them what the log held for it. */
  lemma {:induction false} InstalledAt(l: Layout, d: Disk, lh: seq<int>, k: nat, m: Disk, b: nat)
    requires l.Valid() && |d| == |m| == l.blocks && LhOk(l, lh) && k <= |lh| && b < |d|
    requires forall j :: 0 <= j < k ==> d[l.start + 1 + j] == m[lh[j]]
    ensures Installed(l, d, lh, k)[b] == if b in lh[..k] then m[b] else d[b]
  {
    if k > 0 {
      InstalledAt(l, d, lh, k - 1, m, b);
      InstalledAt(l, d, lh, k - 1, m, l.start + k);
      assert lh[..k] == lh[..k - 1] + [lh[k - 1]];
      assert l.Home(lh[k - 1]);
      assert d[l.start + 1 + (k - 1)] == m[lh[k - 1]];
    }
  }

  // ----- Groups of operations -----------------------------------------------

  /** One `log_write`: which operation, which block, what contents. */
  datatype Write = Write(op: nat, block: nat, data: Block)
  type Group = seq<Write>

  function Apply(d: Disk, g: Group): (r: Disk)
    ensures |r| == |d|
  {
    if g == [] then d
    else
      var w := g[|g| - 1];
      var p := Apply(d, g[..|g| - 1]);
      if w.block < |d| then p[w.block := w.data] else p
  }

  function ApplyAll(d: Disk, gs: seq<Group>): (r: Disk)
    ensures |r| == |d|
  {
    if gs == [] then d else Apply(ApplyAll(d, gs[..|gs| - 1]), gs[|gs| - 1])
  }

  lemma ApplySnoc(d: Disk, g: Group, w: Write)
    requires w.block < |d|
    ensures Apply(d, g + [w]) == Apply(d, g)[w.block := w.data]
  {
    assert (g + [w])[..|g|] == g;
  }

  lemma ApplyAllSnoc(d: Disk, gs: seq<Group>, g: Group)
    ensures ApplyAll(d, gs + [g]) == Apply(ApplyAll(d, gs), g)
  {
    assert (gs + [g])[..|gs|] == gs;
  }

  predicate OpIn(op: nat, g: Group) { exists i :: 0 <= i < |g| && g[i].op == op }

  // ----- The machine ---------------------------------------------------------

  /** An operation between `begin_op` and `end_op`, with the distinct blocks
      it has logged. */
  datatype Op = Op(id: nat, blocks: set<nat>)

  datatype Panic = LogCommitting | TooBigTransaction | OutsideTransaction

  /** Where the one process inside `commit` or `recover_from_log` is. */
  datatype Pc =
    | Running                    // nobody is committing
    | Check                      // commit(): about to test log.lh.n > 0
    | WriteLog(tail: nat)
    | WriteHead
    | Install(tail: nat)
    | ClearHead
    | Finish                     // commit() returned, log.committing still 1
    | Boot                       // after a crash: about to read_head
    | Reinstall(tail: nat)
    | Reclear
    | Halted(why: Panic)

  datatype State = State(
    disk: Disk,
    cache: Disk,                 // what bread returns
    lh: seq<int>,                // log.lh.block[..log.lh.n]
    outstanding: int,
    committing: bool,
    pc: Pc,
    open: seq<Op>,
    nextOp: nat,
    current: Group,
    committed: seq<Group>)

  datatype Step =
    | BeginOp
    | LogWrite(i: nat, block: nat, data: Block)
    | EndOp(i: nat)
    | Advance                    // one step of commit, of end_op's tail, or of recovery
    | Crash

  predicate Sized(l: Layout, s: State) {
    l.Valid() && |s.disk| == |s.cache| == l.blocks && LhOk(l, s.lh)
  }

  /** The kernel is up and not halted by a panic. */
  predicate Up(pc: Pc) { !pc.Boot? && !pc.Reinstall? && !pc.Reclear? && !pc.Halted? }

  /** A blocked `begin_op` sleeps, that is, its step is not enabled. */
  predicate Enabled(l: Layout, s: State, step: Step) {
    && Sized(l, s)
    && match step
       case BeginOp =>
         Up(s.pc) && !s.committing && |s.lh| + (s.outstanding + 1) * MAXOPBLOCKS <= LOGSIZE
       case LogWrite(i, b, _) => Up(s.pc) && i < |s.open| && l.Home(b)
       case EndOp(i) => Up(s.pc) && i < |s.open|
       case Advance =>
         (match s.pc
          case Running => false
          case Halted(_) => false
          case WriteLog(t) => t < |s.lh|
          case Install(t) => t < |s.lh|
          case Reinstall(t) => t < |s.lh|
          case Boot => HeadOk(l, s.disk)
          case _ => true)
       case Crash => true
  }

  function DoLogWrite(l: Layout, s: State, i: nat, b: nat, data: Block): State
    requires Sized(l, s) && i < |s.open| && l.Home(b)
  {
    if |s.lh| >= LOGSIZE || |s.lh| >= l.size - 1 then s.(pc := Halted(TooBigTransaction))
    else if s.outstanding < 1 then s.(pc := Halted(OutsideTransaction))
    else
      s.(cache := s.cache[b := data],
         lh := if b in s.lh then s.lh else s.lh + [b],
         open := s.open[i := s.open[i].(blocks := s.open[i].blocks + {b})],
         current := s.current + [Write(s.open[i].id, b, data)])
  }

  function DoEndOp(s: State, i: nat): State
    requires i < |s.open|
  {
    var s' := s.(outstanding := s.outstanding - 1, open := s.open[..i] + s.open[i + 1..]);
    if s.committing then s'.(pc := Halted(LogCommitting))
    else if s'.outstanding == 0 then s'.(committing := true, pc := Check)
    else s'
  }

  /** The header write of `WriteHead` is the commit point: only there (or when
      there is nothing to write) does the current group become committed. */
  function DoAdvance(l: Layout, s: State): State
    requires Enabled(l, s, Advance)
  {
    match s.pc
    case Check =>
      if |s.lh| > 0 then s.(pc := WriteLog(0))
      else s.(pc := Finish, committed := s.committed + [s.current], current := [])
    case WriteLog(t) =>
      s.(disk := s.disk[l.start + 1 + t := s.cache[s.lh[t]]],
         cache := s.cache[l.start + 1 + t := s.cache[s.lh[t]]],
         pc := if t + 1 < |s.lh| then WriteLog(t + 1) else WriteHead)
    case WriteHead =>
      s.(disk := s.disk[l.start := EncodeHead(s.cache[l.start], s.lh)],
         cache := s.cache[l.start := EncodeHead(s.cache[l.start], s.lh)],
         committed := s.committed + [s.current], current := [],
         pc := if |s.lh| > 0 then Install(0) else ClearHead)
    case Install(t) =>
      s.(disk := s.disk[s.lh[t] := s.cache[l.start + 1 + t]],
         cache := s.cache[s.lh[t] := s.cache[l.start + 1 + t]],
         pc := if t + 1 < |s.lh| then Install(t + 1) else ClearHead)
    case ClearHead =>
      s.(lh := [],
         disk := s.disk[l.start := EncodeHead(s.cache[l.start], [])],
         cache := s.cache[l.start := EncodeHead(s.cache[l.start], [])],
         pc := Finish)
    case Finish => s.(committing := false, pc := Running)
    case Boot =>
      var lh := Head(l, s.disk);
      s.(lh := lh, pc := if |lh| > 0 then Reinstall(0) else Reclear)
    case Reinstall(t) =>
      s.(disk := s.disk[s.lh[t] := s.cache[l.start + 1 + t]],
         cache := s.cache[s.lh[t] := s.cache[l.start + 1 + t]],
         pc := if t + 1 < |s.lh| then Reinstall(t + 1) else Reclear)
    case Reclear =>
      s.(lh := [],
         disk := s.disk[l.start := EncodeHead(s.cache[l.start], [])],
         cache := s.cache[l.start := EncodeHead(s.cache[l.start], [])],
         pc := Running)
  }

  function Do(l: Layout, s: State, step: Step): State
    requires Enabled(l, s, step)
  {
    match step
    case BeginOp =>
      s.(outstanding := s.outstanding + 1, open := s.open + [Op(s.nextOp, {})], nextOp := s.nextOp + 1)
    case LogWrite(i, b, data) => DoLogWrite(l, s, i, b, data)
    case EndOp(i) => DoEndOp(s, i)
    case Advance => DoAdvance(l, s)
    case Crash =>
      s.(cache := s.disk, lh := [], outstanding := 0, committing := false, pc := Boot, open := [], current := [])
  }

  /** A freshly booted machine: well-formed image, nothing recovered yet. */
  predicate Init(l: Layout, s: State) {
    && Sized(l, s) && HeadOk(l, s.disk)
    && s.cache == s.disk && s.lh == [] && s.outstanding == 0 && !s.committing
    && s.pc == Boot && s.open == [] && s.nextOp == 0 && s.current == [] && s.committed == []
  }

  ghost predicate Next(l: Layout, s: State, s': State) {
    exists step :: Enabled(l, s, step) && s' == Do(l, s, step)
  }

  ghost predicate StepsAt(l: Layout, run: seq<State>, i: nat) {
    i + 1 < |run| && Next(l, run[i], run[i + 1])
  }

  ghost predicate IsRun(l: Layout, run: seq<State>) {
    && |run| > 0 && Init(l, run[0])
    && forall i :: 0 <= i < |run| - 1 ==> StepsAt(l, run, i)
  }
}
