/** Crash safety of the log: in every state of every run, whatever was logged
    by whom and wherever the machine crashed, recovery yields a sequence of
    whole groups of operations applied in commit order. */
module LogSafety {
  import opened LogMachine

  /** The disk holds `spec` once the header's log blocks are installed. */
  predicate LogHolds(l: Layout, d: Disk, spec: Disk) {
    && l.Valid() && |d| == |spec| == l.blocks && HeadOk(l, d)
    && var lh := Head(l, d);
    && (forall j :: 0 <= j < |lh| ==> d[l.start + 1 + j] == spec[lh[j]])
    && (forall b :: 0 <= b < |d| && l.Home(b) && b !in lh ==> d[b] == spec[b])
  }

  lemma LogHoldsRecovers(l: Layout, d: Disk, spec: Disk)
    requires LogHolds(l, d, spec)
    ensures SameHome(l, Recovered(l, d), spec)
  {
    var lh := Head(l, d);
    forall b | 0 <= b < |d| && l.Home(b) ensures Recovered(l, d)[b] == spec[b] {
      InstalledAt(l, d, lh, |lh|, spec, b);
      assert lh[..|lh|] == lh;
    }
  }

  lemma {:induction false} InstalledFrame(l: Layout, d: Disk, lh: seq<int>, k: nat, b: nat)
    requires l.Valid() && |d| == l.blocks && LhOk(l, lh) && k <= |lh| && b < |d| && b !in lh[..k]
    ensures Installed(l, d, lh, k)[b] == d[b]
  {
    if k > 0 {
      assert lh[..k] == lh[..k - 1] + [lh[k - 1]];
      InstalledFrame(l, d, lh, k - 1, b);
    }
  }

  lemma {:induction false} InstalledSelf(l: Layout, d: Disk, lh: seq<int>, k: nat, j: nat)
    requires l.Valid() && |d| == l.blocks && LhOk(l, lh) && j < k <= |lh|
    ensures Installed(l, d, lh, k)[lh[j]] == d[l.start + 1 + j]
  {
    InstalledFrame(l, d, lh, k - 1, l.start + k);
    if j < k - 1 { InstalledSelf(l, d, lh, k - 1, j); }
  }

  /** A well-formed image holds what its own recovery produces. */
  lemma RecoveredHolds(l: Layout, d: Disk)
    requires l.Valid() && |d| == l.blocks && HeadOk(l, d)
    ensures LogHolds(l, d, Recovered(l, d))
  {
    var lh := Head(l, d);
    forall j | 0 <= j < |lh| ensures d[l.start + 1 + j] == Recovered(l, d)[lh[j]] {
      InstalledSelf(l, d, lh, |lh|, j);
    }
    forall b | 0 <= b < |d| && l.Home(b) && b !in lh ensures d[b] == Recovered(l, d)[b] {
      assert lh[..|lh|] == lh;
      InstalledFrame(l, d, lh, |lh|, b);
    }
  }

  // ----- The invariant --------------------------------------------------------

  function Spec(base: Disk, s: State): (r: Disk)
    ensures |r| == |base|
  {
    ApplyAll(base, s.committed)
  }

  predicate LogBlocksHold(l: Layout, s: State, k: nat)
    requires Sized(l, s) && k <= |s.lh|
  {
    forall j :: 0 <= j < k ==> s.disk[l.start + 1 + j] == s.cache[s.lh[j]]
  }

  predicate CommitPhase(pc: Pc) {
    pc.Check? || pc.WriteLog? || pc.WriteHead? || pc.Install? || pc.ClearHead? || pc.Finish?
  }

  /** The in-memory counters agree with the operations that are open. */
  predicate Counters(s: State) {
    && s.outstanding == |s.open|
    && (s.committing <==> CommitPhase(s.pc))
    && (s.committing ==> s.outstanding == 0)
    && (s.pc.Boot? || s.pc.Reinstall? || s.pc.Reclear? ==> s.open == [])
    && (s.pc.Running? && s.open == [] ==> s.lh == [])
    && (s.pc.Halted? ==> s.pc.why == TooBigTransaction)
  }

  predicate InstalledTo(l: Layout, d: Disk, lh: seq<int>, k: nat)
    requires l.Valid() && |d| == l.blocks && LhOk(l, lh) && k <= |lh|
  {
    forall j :: 0 <= j < k ==> d[lh[j]] == d[l.start + 1 + j]
  }

  predicate PcOk(l: Layout, s: State)
    requires Sized(l, s) && HeadOk(l, s.disk)
  {
    match s.pc
    case Running => Head(l, s.disk) == []
    case Check => Head(l, s.disk) == []
    case WriteLog(t) => Head(l, s.disk) == [] && t < |s.lh| && LogBlocksHold(l, s, t)
    case WriteHead => Head(l, s.disk) == [] && LogBlocksHold(l, s, |s.lh|)
    case Install(t) => Head(l, s.disk) == s.lh && t < |s.lh| && InstalledTo(l, s.disk, s.lh, t)
    case ClearHead => Head(l, s.disk) == s.lh && InstalledTo(l, s.disk, s.lh, |s.lh|)
    case Finish => Head(l, s.disk) == [] && s.lh == []
    case Boot => s.lh == [] && s.cache == s.disk
    case Reinstall(t) => Head(l, s.disk) == s.lh && t < |s.lh| && InstalledTo(l, s.disk, s.lh, t) && s.cache == s.disk
    case Reclear => Head(l, s.disk) == s.lh && InstalledTo(l, s.disk, s.lh, |s.lh|) && s.cache == s.disk
    case Halted(_) => Head(l, s.disk) == []
  }

  /** The cache differs from the disk only in logged blocks, and holds the
      committed groups with the current group on top. */
  predicate CacheOk(l: Layout, base: Disk, s: State)
    requires Sized(l, s) && |base| == l.blocks
  {
    && (forall b :: 0 <= b < l.blocks && b !in s.lh ==> s.cache[b] == s.disk[b])
    && (Up(s.pc) ==> SameHome(l, s.cache, Apply(Spec(base, s), s.current)))
    && (forall i :: 0 <= i < |s.current| ==> s.current[i].block < l.blocks)
    && (s.pc.Running? || s.pc.Check? || s.pc.WriteLog? || s.pc.WriteHead? || s.pc.Halted? || s.current == [])
  }

  predicate Unseen(op: nat, gs: seq<Group>) { forall g :: 0 <= g < |gs| ==> !OpIn(op, gs[g]) }

  /** No operation is spread over two groups. */
  ghost predicate WholeOps(gs: seq<Group>) {
    forall g, h, op: nat :: 0 <= g < h < |gs| && OpIn(op, gs[g]) ==> !OpIn(op, gs[h])
  }

  ghost predicate OpsOk(s: State) {
    && WholeOps(s.committed)
    && (forall i :: 0 <= i < |s.open| ==> s.open[i].id < s.nextOp && Unseen(s.open[i].id, s.committed))
    && (forall i :: 0 <= i < |s.current| ==> s.current[i].op < s.nextOp && Unseen(s.current[i].op, s.committed))
    && (forall g, op: nat :: 0 <= g < |s.committed| && OpIn(op, s.committed[g]) ==> op < s.nextOp)
  }

  predicate DiskInv(l: Layout, base: Disk, s: State) {
    && Sized(l, s) && |base| == l.blocks
    && Counters(s)
    && LogHolds(l, s.disk, Spec(base, s))
    && PcOk(l, s)
    && CacheOk(l, base, s)
  }

  ghost predicate Inv(l: Layout, base: Disk, s: State) {
    DiskInv(l, base, s) && OpsOk(s)
  }

  lemma InvInit(l: Layout, s: State)
    requires Init(l, s)
    ensures Inv(l, Recovered(l, s.disk), s)
  {
    RecoveredHolds(l, s.disk);
  }

  lemma OpsOkEnd(s: State, s': State, i: nat)
    requires OpsOk(s) && i < |s.open| && s'.open == s.open[..i] + s.open[i + 1..]
    requires s'.committed == s.committed && s'.current == s.current && s'.nextOp == s.nextOp
    ensures OpsOk(s')
  {
    forall k | 0 <= k < |s'.open| ensures s'.open[k].id < s'.nextOp && Unseen(s'.open[k].id, s'.committed) {
      assert s'.open[k] == s.open[if k < i then k else k + 1];
    }
  }

  lemma OpsOkCommit(s: State, s': State)
    requires OpsOk(s) && s.open == [] && s'.open == []
    requires s'.committed == s.committed + [s.current] && s'.current == [] && s'.nextOp == s.nextOp
    ensures OpsOk(s')
  {
  }

  lemma OpsOkStep(l: Layout, s: State, step: Step)
    requires OpsOk(s) && Enabled(l, s, step) && Counters(s)
    ensures OpsOk(Do(l, s, step))
  {
    var s' := Do(l, s, step);
    match step
    case BeginOp =>
      assert Unseen(s.nextOp, s.committed);
    case LogWrite(i, b, data) =>
    case EndOp(i) =>
      OpsOkEnd(s, s', i);
    case Advance =>
      if s'.committed != s.committed { OpsOkCommit(s, s'); }
    case Crash =>
  }

  lemma DiskInvLogWrite(l: Layout, base: Disk, s: State, i: nat, b: nat, data: Block)
    requires DiskInv(l, base, s) && Enabled(l, s, LogWrite(i, b, data))
    ensures DiskInv(l, base, Do(l, s, LogWrite(i, b, data)))
  {
    var s' := Do(l, s, LogWrite(i, b, data));
    if !s'.pc.Halted? {
      ApplySnoc(Spec(base, s), s.current, Write(s.open[i].id, b, data));
      assert s.pc.Running?;
      assert b in s'.lh by { if b !in s.lh { assert s'.lh[|s.lh|] == b; } }
      assert forall x :: x in s.lh ==> x in s'.lh;
    }
  }

  // ----- One step of commit or of recovery ------------------------------------

  lemma DiskInvCheck(l: Layout, base: Disk, s: State)
    requires DiskInv(l, base, s) && Enabled(l, s, Advance) && s.pc.Check?
    ensures DiskInv(l, base, Do(l, s, Advance))
  {
    ApplyAllSnoc(base, s.committed, s.current);
  }

  /** With an empty header the blocks of the log do not matter. */
  lemma LogHoldsFrame(l: Layout, d: Disk, d': Disk, spec: Disk)
    requires LogHolds(l, d, spec) && Head(l, d) == [] && |d'| == |d| && d'[l.start] == d[l.start] && SameHome(l, d', d)
    ensures LogHolds(l, d', spec) && Head(l, d') == []
  {
  }

  lemma LogBlockCopied(l: Layout, s: State, s': State, k: nat)
    requires Sized(l, s) && s.pc.WriteLog? && 0 < k == s.pc.tail + 1 <= |s.lh| && LogBlocksHold(l, s, k - 1)
    requires Enabled(l, s, Advance) && s' == Do(l, s, Advance)
    ensures LogBlocksHold(l, s', k)
  {
  }

  lemma DiskInvWriteLog(l: Layout, base: Disk, s: State)
    requires DiskInv(l, base, s) && Enabled(l, s, Advance) && s.pc.WriteLog?
    ensures DiskInv(l, base, Do(l, s, Advance))
  {
    var s' := Do(l, s, Advance);
    LogHoldsFrame(l, s.disk, s'.disk, Spec(base, s));
    assert SameHome(l, s'.cache, s.cache);
    if s'.pc.WriteLog? { LogBlockCopied(l, s, s', s'.pc.tail); } else { LogBlockCopied(l, s, s', |s.lh|); }
  }

  /** The header write turns "the cache holds it" into "the disk recovers to it". */
  lemma WriteHeadHolds(l: Layout, d: Disk, cache: Disk, lh: seq<int>, spec: Disk)
    requires l.Valid() && |d| == l.blocks && LhOk(l, lh) && SameHome(l, cache, spec)
    requires forall j :: 0 <= j < |lh| ==> d[l.start + 1 + j] == cache[lh[j]]
    requires forall b :: 0 <= b < l.blocks && b !in lh ==> cache[b] == d[b]
    ensures var d' := d[l.start := EncodeHead(d[l.start], lh)];
            LogHolds(l, d', spec) && Head(l, d') == lh
  {
    HeadRoundTrip(l, d, lh);
  }

  lemma WriteHeadCache(l: Layout, base: Disk, s: State)
    requires Sized(l, s) && |base| == l.blocks && CacheOk(l, base, s) && s.pc.WriteHead? && l.start !in s.lh
    requires s.cache[l.start] == s.disk[l.start] && Spec(base, DoAdvance(l, s)) == Apply(Spec(base, s), s.current)
    ensures CacheOk(l, base, DoAdvance(l, s))
  {
  }

  lemma DiskInvWriteHead(l: Layout, base: Disk, s: State)
    requires DiskInv(l, base, s) && Enabled(l, s, Advance) && s.pc.WriteHead?
    ensures DiskInv(l, base, Do(l, s, Advance))
  {
    assert s.cache[l.start] == s.disk[l.start];
    ApplyAllSnoc(base, s.committed, s.current);
    WriteHeadHolds(l, s.disk, s.cache, s.lh, Apply(Spec(base, s), s.current));
    WriteHeadCache(l, base, s);
  }

  /** Copying one log block home keeps what the disk recovers to. */
  lemma InstallHolds(l: Layout, d: Disk, lh: seq<int>, t: nat, spec: Disk)
    requires LogHolds(l, d, spec) && Head(l, d) == lh && t < |lh| && InstalledTo(l, d, lh, t)
    ensures var d' := d[lh[t] := d[l.start + 1 + t]];
            LogHolds(l, d', spec) && Head(l, d') == lh && InstalledTo(l, d', lh, t + 1)
  {
    assert l.Home(lh[t]);
    assert d[lh[t] := d[l.start + 1 + t]][l.start] == d[l.start];
  }

  lemma InstallCache(l: Layout, base: Disk, s: State, s': State, t: nat)
    requires Sized(l, s) && |base| == l.blocks && CacheOk(l, base, s) && t < |s.lh|
    requires s.current == [] && s' == s.(disk := s'.disk, cache := s'.cache, pc := s'.pc) && (Up(s'.pc) ==> Up(s.pc))
    requires var x := Spec(base, s)[s.lh[t]]; s'.disk == s.disk[s.lh[t] := x] && s'.cache == s.cache[s.lh[t] := x]
    ensures CacheOk(l, base, s')
  {
  }

  /** A block of the log, in the cache and on disk, is what its home block is to be. */
  lemma LogBlockIs(l: Layout, base: Disk, s: State, t: nat)
    requires DiskInv(l, base, s) && (s.pc.Install? || s.pc.Reinstall?) && t < |s.lh|
    ensures l.start + 1 + t < l.blocks && l.Home(s.lh[t])
    ensures s.cache[l.start + 1 + t] == s.disk[l.start + 1 + t] == Spec(base, s)[s.lh[t]]
  {
  }

  lemma DiskInvInstall(l: Layout, base: Disk, s: State)
    requires DiskInv(l, base, s) && Enabled(l, s, Advance) && (s.pc.Install? || s.pc.Reinstall?)
    ensures DiskInv(l, base, Do(l, s, Advance))
  {
    var s', t, x := Do(l, s, Advance), s.pc.tail, s.cache[l.start + 1 + s.pc.tail];
    LogBlockIs(l, base, s, t);
    assert s'.disk == s.disk[s.lh[t] := x] && s'.cache == s.cache[s.lh[t] := x];
    InstallHolds(l, s.disk, s.lh, t, Spec(base, s));
    InstallCache(l, base, s, s', t);
  }

  /** Once everything is installed the header may be cleared. */
  lemma ClearHolds(l: Layout, d: Disk, lh: seq<int>, spec: Disk)
    requires LogHolds(l, d, spec) && Head(l, d) == lh && InstalledTo(l, d, lh, |lh|)
    ensures var d' := d[l.start := EncodeHead(d[l.start], [])];
            LogHolds(l, d', spec) && Head(l, d') == [] && SameHome(l, d', spec)
  {
    HeadRoundTrip(l, d, []);
    forall b | 0 <= b < |d| && l.Home(b) ensures d[b] == spec[b] {
      if b in lh {
        var j :| 0 <= j < |lh| && lh[j] == b;
        assert d[lh[j]] == d[l.start + 1 + j];
      }
    }
  }

  lemma DiskInvClearHead(l: Layout, base: Disk, s: State)
    requires DiskInv(l, base, s) && Enabled(l, s, Advance) && (s.pc.ClearHead? || s.pc.Reclear?)
    ensures DiskInv(l, base, Do(l, s, Advance))
  {
    assert s.cache[l.start] == s.disk[l.start];
    ClearHolds(l, s.disk, s.lh, Spec(base, s));
  }

  lemma DiskInvAdvance(l: Layout, base: Disk, s: State)
    requires DiskInv(l, base, s) && Enabled(l, s, Advance)
    ensures DiskInv(l, base, Do(l, s, Advance))
  {
    match s.pc
    case Check => DiskInvCheck(l, base, s);
    case WriteLog(_) => DiskInvWriteLog(l, base, s);
    case WriteHead => DiskInvWriteHead(l, base, s);
    case Install(_) => DiskInvInstall(l, base, s);
    case Reinstall(_) => DiskInvInstall(l, base, s);
    case ClearHead => DiskInvClearHead(l, base, s);
    case Reclear => DiskInvClearHead(l, base, s);
    case _ =>
  }

  lemma DiskInvStep(l: Layout, base: Disk, s: State, step: Step)
    requires DiskInv(l, base, s) && Enabled(l, s, step)
    ensures DiskInv(l, base, Do(l, s, step))
  {
    match step
    case LogWrite(i, b, data) => DiskInvLogWrite(l, base, s, i, b, data);
    case Advance => DiskInvAdvance(l, base, s);
    case _ =>
  }

  lemma InvStep(l: Layout, base: Disk, s: State, step: Step)
    requires Inv(l, base, s) && Enabled(l, s, step)
    ensures Inv(l, base, Do(l, s, step))
  {
    DiskInvStep(l, base, s, step);
    OpsOkStep(l, s, step);
  }

  lemma {:induction false} InvRun(l: Layout, run: seq<State>, i: nat)
    requires IsRun(l, run) && i < |run|
    ensures Inv(l, Recovered(l, run[0].disk), run[i])
  {
    if i == 0 {
      InvInit(l, run[0]);
    } else {
      InvRun(l, run, i - 1);
      assert StepsAt(l, run, i - 1);
      var step :| Enabled(l, run[i - 1], step) && run[i] == Do(l, run[i - 1], step);
      InvStep(l, Recovered(l, run[0].disk), run[i - 1], step);
    }
  }

  // ----- Main theorems ---------------------------------------------------------

  /** Crash in any state of any run: recovery yields exactly the committed
      groups, each operation whole, in commit order. */
  lemma CrashSafety(l: Layout, run: seq<State>, i: nat)
    requires IsRun(l, run) && i < |run|
    ensures Sized(l, run[i]) && HeadOk(l, run[i].disk)
    ensures SameHome(l, Recovered(l, run[i].disk), ApplyAll(Recovered(l, run[0].disk), run[i].committed))
    ensures WholeOps(run[i].committed)
    ensures forall k :: 0 <= k < |run[i].open| ==> Unseen(run[i].open[k].id, run[i].committed)
  {
    InvRun(l, run, i);
    LogHoldsRecovers(l, run[i].disk, Spec(Recovered(l, run[0].disk), run[i]));
  }

  /** Outside the commit window the disk is already clean, `committing`
      excludes open operations, and of the three panics only
      "too big a transaction" is reachable. */
  lemma GroupCommit(l: Layout, run: seq<State>, i: nat)
    requires IsRun(l, run) && i < |run|
    ensures run[i].outstanding == |run[i].open|
    ensures run[i].committing ==> run[i].open == []
    ensures run[i].pc.Halted? ==> run[i].pc.why == TooBigTransaction
    ensures Sized(l, run[i]) && HeadOk(l, run[i].disk)
    ensures !run[i].committing && Up(run[i].pc) ==>
              && Head(l, run[i].disk) == []
              && SameHome(l, run[i].disk, ApplyAll(Recovered(l, run[0].disk), run[i].committed))
  {
    InvRun(l, run, i);
  }

  /** What a step may do to the recovered contents: nothing, except that the
      header write of a commit (or the decision that there is nothing to
      write) adds the whole current group, with no operation open. */
  lemma CommitPoint(l: Layout, base: Disk, s: State, step: Step)
    requires Inv(l, base, s) && Enabled(l, s, step)
    ensures var s' := Do(l, s, step);
            && HeadOk(l, s'.disk)
            && if step.Advance? && (s.pc.WriteHead? || (s.pc.Check? && s.lh == []))
               then s.open == [] && s'.committed == s.committed + [s.current]
                    && SameHome(l, Recovered(l, s'.disk), Apply(ApplyAll(base, s.committed), s.current))
               else s'.committed == s.committed
                    && SameHome(l, Recovered(l, s'.disk), ApplyAll(base, s.committed))
  {
    var s' := Do(l, s, step);
    InvStep(l, base, s, step);
    LogHoldsRecovers(l, s'.disk, Spec(base, s'));
    ApplyAllSnoc(base, s.committed, s.current);
  }

  // ----- Durability ------------------------------------------------------------

  lemma {:induction false} ApplyLocal(l: Layout, d: Disk, e: Disk, g: Group)
    requires SameHome(l, d, e)
    ensures SameHome(l, Apply(d, g), Apply(e, g))
  {
    if g != [] { ApplyLocal(l, d, e, g[..|g| - 1]); }
  }

  /** Groups applied to two disks that agree at home leave them agreeing. */
  lemma {:induction false} ApplyAllLocal(l: Layout, d: Disk, e: Disk, gs: seq<Group>)
    requires SameHome(l, d, e)
    ensures SameHome(l, ApplyAll(d, gs), ApplyAll(e, gs))
  {
    if gs != [] {
      ApplyAllLocal(l, d, e, gs[..|gs| - 1]);
      ApplyLocal(l, ApplyAll(d, gs[..|gs| - 1]), ApplyAll(e, gs[..|gs| - 1]), gs[|gs| - 1]);
    }
  }

  lemma {:induction false} ApplyAllAppend(d: Disk, gs: seq<Group>, hs: seq<Group>)
    ensures ApplyAll(d, gs + hs) == ApplyAll(ApplyAll(d, gs), hs)
  {
    if hs == [] {
      assert gs + hs == gs;
    } else {
      var n := |hs| - 1;
      assert gs + hs == (gs + hs[..n]) + [hs[n]];
      ApplyAllSnoc(d, gs + hs[..n], hs[n]);
      ApplyAllAppend(d, gs, hs[..n]);
    }
  }

  lemma {:induction false} CommittedGrows(l: Layout, run: seq<State>, i: nat, j: nat)
    requires IsRun(l, run) && i <= j < |run|
    ensures run[i].committed <= run[j].committed
  {
    if i < j {
      CommittedGrows(l, run, i, j - 1);
      assert StepsAt(l, run, j - 1);
      var step :| Enabled(l, run[j - 1], step) && run[j] == Do(l, run[j - 1], step);
    }
  }

  /** What is on disk once stays: across any stretch of a run, crashes included,
      the disk at its end recovers to what the disk at its start recovers to
      with further whole groups applied, and to nothing else. */
  lemma Durability(l: Layout, run: seq<State>, i: nat, j: nat)
    requires IsRun(l, run) && i <= j < |run|
    ensures Sized(l, run[i]) && HeadOk(l, run[i].disk) && Sized(l, run[j]) && HeadOk(l, run[j].disk)
    ensures run[i].committed <= run[j].committed
    ensures var more := run[j].committed[|run[i].committed|..];
            SameHome(l, Recovered(l, run[j].disk), ApplyAll(Recovered(l, run[i].disk), more))
  {
    CrashSafety(l, run, i);
    CrashSafety(l, run, j);
    CommittedGrows(l, run, i, j);
    var base, was, more := Recovered(l, run[0].disk), run[i].committed, run[j].committed[|run[i].committed|..];
    assert run[j].committed == was + more;
    ApplyAllAppend(base, was, more);
    ApplyAllLocal(l, Recovered(l, run[i].disk), ApplyAll(base, was), more);
  }

  /** Reading back: what `bread` returns is the committed groups with the
      current group's writes on top. */
  lemma CacheReadsLastWrite(l: Layout, run: seq<State>, i: nat)
    requires IsRun(l, run) && i < |run| && Up(run[i].pc)
    ensures SameHome(l, run[i].cache,
                     Apply(ApplyAll(Recovered(l, run[0].disk), run[i].committed), run[i].current))
  {
    InvRun(l, run, i);
  }
}
