/** kernel/log.c in its own form: fields updated in place and loops of block
    writes.  The ghost field `run` collects one machine state per step; that
    it stays a run of the log machine is what every method is proved against,
    so the theorems of LogSafety hold of every state the code passes through. */
module Log {
  import opened LogMachine
  import LogSafety

  /** `s'` is `s` after `step`. */
  predicate Took(l: Layout, s: State, step: Step, s': State) {
    Enabled(l, s, step) && s' == Do(l, s, step)
  }

  /** `d` is `d0` but for blocks in `lh`. */
  predicate SameBut(d0: Disk, d: Disk, lh: seq<int>) {
    |d| == |d0| && forall b :: 0 <= b < |d| && b !in lh ==> d[b] == d0[b]
  }

  lemma SameButOne(d0: Disk, d: Disk, lh: seq<int>, t: nat, x: Block)
    requires SameBut(d0, d, lh) && t < |lh| && 0 <= lh[t] < |d|
    ensures SameBut(d0, d[lh[t] := x], lh)
  {
  }

  /** A state whose committed groups are `a` or `b`; inside a commit if `busy`. */
  ghost predicate Between(s: State, a: seq<Group>, b: seq<Group>, busy: bool) {
    (s.committed == a || s.committed == b) && (busy ==> LogSafety.CommitPhase(s.pc) && s.pc != Finish)
  }

  /** `run` extends `was` by such states. */
  ghost predicate Passes(was: seq<State>, run: seq<State>, a: seq<Group>, b: seq<Group>, busy: bool) {
    was <= run && forall k :: |was| <= k < |run| ==> Between(run[k], a, b, busy)
  }

  lemma PassesOn(was: seq<State>, mid: seq<State>, run: seq<State>, a: seq<Group>, b: seq<Group>, busy: bool)
    requires Passes(was, mid, a, b, busy) && Passes(mid, run, a, b, busy)
    ensures Passes(was, run, a, b, busy)
  {
  }

  lemma RunSized(l: Layout, run: seq<State>)
    requires IsRun(l, run)
    ensures Sized(l, run[|run| - 1]) && HeadOk(l, run[|run| - 1].disk)
  {
    LogSafety.InvRun(l, run, |run| - 1);
  }

  lemma RunCounts(l: Layout, run: seq<State>)
    requires IsRun(l, run)
    ensures Sized(l, run[|run| - 1]) && LogSafety.Counters(run[|run| - 1])
  {
    LogSafety.InvRun(l, run, |run| - 1);
  }

  /** `b` in the header, unless it is there. */
  function Absorbed(lh: seq<int>, b: nat): seq<int> { if b in lh then lh else lh + [b] }

  /** A change to block `b` by operation `i`, logged. */
  function Logged(s: State, i: nat, b: nat, data: Block): State
    requires i < |s.open| && b < |s.cache|
  {
    s.(cache := s.cache[b := data], lh := Absorbed(s.lh, b),
       open := s.open[i := s.open[i].(blocks := s.open[i].blocks + {b})],
       current := s.current + [Write(s.open[i].id, b, data)])
  }

  /** That is what `log_write` does when there is room. */
  lemma LogWritten(l: Layout, run: seq<State>, s: State, i: nat, b: nat, data: Block)
    requires IsRun(l, run) && run[|run| - 1] == s && Up(s.pc) && i < |s.open| && l.Home(b)
    ensures Sized(l, s) && b < |s.cache|
    ensures var step, room := LogWrite(i, b, data), |s.lh| < LOGSIZE && |s.lh| < l.size - 1;
            Took(l, s, step, if room then Logged(s, i, b, data) else s.(pc := Halted(TooBigTransaction)))
  {
    RunCounts(l, run);
  }

  /** Before the header write of a commit. */
  predicate Before(pc: Pc) { pc.Check? || pc.WriteLog? || pc.WriteHead? }

  /** The states `i..j` of a run are those of one commit that nothing cuts short. */
  ghost predicate OneCommit(run: seq<State>, i: nat, j: nat) {
    && i <= j < |run| && run[i].pc == Check
    && (forall k :: i <= k <= j ==> LogSafety.CommitPhase(run[k].pc))
    && (forall k :: i <= k < j ==> run[k].pc != Finish)
  }

  lemma CommitStep(l: Layout, s: State, step: Step)
    requires LogSafety.Counters(s) && Enabled(l, s, step) && LogSafety.CommitPhase(s.pc) && s.pc != Finish
    requires LogSafety.CommitPhase(Do(l, s, step).pc)
    ensures var s' := Do(l, s, step);
            if Before(s.pc) && !Before(s'.pc) then s'.committed == s.committed + [s.current] && s'.current == []
            else (Before(s.pc) <==> Before(s'.pc)) && s'.committed == s.committed && s'.current == s.current
  {
    assert step == Advance;
  }

  /** During a commit nobody else takes a step: the group is committed as it
      was at the start, exactly when the header is written. */
  lemma {:induction false} CommitStretch(l: Layout, run: seq<State>, i: nat, j: nat)
    requires IsRun(l, run) && OneCommit(run, i, j)
    ensures if Before(run[j].pc) then run[j].committed == run[i].committed && run[j].current == run[i].current
            else run[j].committed == run[i].committed + [run[i].current] && run[j].current == []
  {
    if i < j {
      CommitStretch(l, run, i, j - 1);
      LogSafety.InvRun(l, run, j - 1);
      assert StepsAt(l, run, j - 1);
      var step :| Enabled(l, run[j - 1], step) && run[j] == Do(l, run[j - 1], step);
      CommitStep(l, run[j - 1], step);
    }
  }

  /** From the check to the finish of a commit that no crash cuts short: the
      current group is committed, once and as it was; the home blocks on disk
      are what the cache held; and the header on disk is empty again. */
  lemma CommitOutcome(l: Layout, run: seq<State>, i: nat, j: nat)
    requires IsRun(l, run) && OneCommit(run, i, j) && run[j].pc == Finish
    ensures run[j].committed == run[i].committed + [run[i].current] && run[j].current == []
    ensures Sized(l, run[j]) && HeadOk(l, run[j].disk) && Head(l, run[j].disk) == [] && run[j].lh == []
    ensures SameHome(l, run[j].disk, run[i].cache)
  {
    CommitStretch(l, run, i, j);
    LogSafety.CacheReadsLastWrite(l, run, i);
    LogSafety.InvRun(l, run, j);
    ApplyAllSnoc(Recovered(l, run[0].disk), run[i].committed, run[i].current);
  }

  lemma LoggedAll(l: Layout, run: seq<State>)
    requires IsRun(l, run) && run[|run| - 1].pc == WriteHead
    ensures Sized(l, run[|run| - 1]) && LogSafety.LogBlocksHold(l, run[|run| - 1], |run[|run| - 1].lh|)
  {
    LogSafety.InvRun(l, run, |run| - 1);
  }

  lemma InstalledAll(l: Layout, run: seq<State>)
    requires IsRun(l, run) && (run[|run| - 1].pc == ClearHead || run[|run| - 1].pc == Reclear)
    ensures Sized(l, run[|run| - 1])
    ensures var s := run[|run| - 1]; LogSafety.InstalledTo(l, s.disk, s.lh, |s.lh|)
  {
    LogSafety.InvRun(l, run, |run| - 1);
  }

  /** While no commit is under way the disk holds the committed groups. */
  lemma UpHolds(l: Layout, run: seq<State>)
    requires IsRun(l, run) && run[|run| - 1].pc == Running
    ensures var s := run[|run| - 1];
            && Sized(l, s) && HeadOk(l, s.disk) && Head(l, s.disk) == [] && HeadOk(l, run[0].disk)
            && SameHome(l, s.disk, ApplyAll(Recovered(l, run[0].disk), s.committed))
  {
    LogSafety.InvRun(l, run, |run| - 1);
  }

  lemma BootReadsDisk(l: Layout, run: seq<State>)
    requires IsRun(l, run) && run[|run| - 1].pc == Boot
    ensures run[|run| - 1].cache == run[|run| - 1].disk
  {
    LogSafety.InvRun(l, run, |run| - 1);
  }

  // ----- The code ------------------------------------------------------------

  class Log {
    const l: Layout
    var disk: Disk
    var cache: Disk                // what bread returns
    var n: nat                     // log.lh.n
    const block: array<int>        // log.lh.block
    var outstanding: int
    var committing: bool

    ghost var pc: Pc
    ghost var open: seq<Op>
    ghost var nextOp: nat
    ghost var current: Group
    ghost var committed: seq<Group>
    ghost var run: seq<State>

    ghost predicate Shape()
      reads this
    {
      block.Length == LOGSIZE && n <= LOGSIZE
    }

    ghost function View(): State
      reads this, block
      requires Shape()
    {
      State(disk, cache, block[..n], outstanding, committing, pc, open, nextOp, current, committed)
    }

    ghost predicate Valid()
      reads this, block
    {
      Shape() && IsRun(l, run) && run[|run| - 1] == View()
    }

    /** The machine starts on a well-formed image, before recovery. */
    constructor (l: Layout, image: Disk)
      requires l.Valid() && |image| == l.blocks && HeadOk(l, image)
      ensures Valid() && fresh(block) && this.l == l && disk == image && pc == Boot && committed == []
    {
      this.l := l;
      disk, cache, n, outstanding, committing := image, image, 0, 0, false;
      block := new int[LOGSIZE];
      pc, open, nextOp, current, committed := Boot, [], 0, [], [];
      new;
      run := [View()];
    }

    /** Note one step of the machine. */
    ghost method Record(step: Step)
      requires Shape() && IsRun(l, run) && Took(l, run[|run| - 1], step, View())
      modifies this`run
      ensures Valid() && run == old(run) + [View()]
    {
      var before := run;
      run := run + [View()];
      forall i | 0 <= i < |run| - 1 ensures StepsAt(l, run, i) {
        if i < |before| - 1 { assert StepsAt(l, before, i); }
      }
    }

    /** One turn of the loop of `begin_op`; `false` means that it sleeps. */
    method BeginOp() returns (ok: bool)
      requires Valid() && Up(pc)
      modifies this
      ensures Valid()
      ensures ok == (!old(committing) && old(n) + (old(outstanding) + 1) * MAXOPBLOCKS <= LOGSIZE)
      ensures ok ==> Took(l, old(View()), LogMachine.BeginOp, View()) && run == old(run) + [View()]
      ensures !ok ==> View() == old(View()) && run == old(run)
    {
      RunSized(l, run);
      if committing || n + (outstanding + 1) * MAXOPBLOCKS > LOGSIZE {
        return false;
      }
      outstanding := outstanding + 1;
      open := open + [Op(nextOp, {})];
      nextOp := nextOp + 1;
      Record(LogMachine.BeginOp);
      return true;
    }

    /** The absorption loop: where `b` is in the header, or `n`. */
    method Find(b: int) returns (k: nat)
      requires Shape()
      ensures k <= n && (k < n ==> block[k] == b) && (b in block[..n] <==> k < n)
    {
      k := 0;
      while k < n && block[k] != b
        invariant k <= n && b !in block[..k]
      {
        k := k + 1;
      }
    }

    /** Put `b` into the header, unless it is there. */
    method Absorb(b: nat)
      requires Shape() && n < LOGSIZE
      modifies this`n, block
      ensures Shape() && block[..n] == Absorbed(old(block[..n]), b)
    {
      var k := Find(b);
      block[k] := b;
      if k == n {
        n := n + 1;
      }
    }

    /** Change a buffer and note it in the header. */
    method Put(ghost i: nat, b: nat, data: Block)
      requires Shape() && n < LOGSIZE && i < |open| && b < |cache|
      modifies this`cache, this`n, block, this`current, this`open
      ensures Shape() && View() == Logged(old(View()), i, b, data)
    {
      cache := cache[b := data];           // the caller's change to the buffer
      Absorb(b);
      current := current + [Write(open[i].id, b, data)];
      open := open[i := open[i].(blocks := open[i].blocks + {b})];
    }

    /** `false` means a panic.  `i` is the calling operation. */
    method LogWrite(ghost i: nat, b: nat, data: Block) returns (ok: bool)
      requires Valid() && Up(pc) && i < |open| && l.Home(b)
      modifies this, block
      ensures Valid() && run == old(run) + [View()]
      ensures Took(l, old(View()), LogMachine.LogWrite(i, b, data), View())
      ensures ok == !pc.Halted?
      ensures ok <==> old(n) < LOGSIZE && old(n) < l.size - 1
    {
      LogWritten(l, run, View(), i, b, data);
      ok := n < LOGSIZE && n < l.size - 1;
      if ok {
        Put(i, b, data);
      } else {
        pc := Halted(TooBigTransaction);
      }
      Record(LogMachine.LogWrite(i, b, data));
    }

    /** One turn of the loop of `write_log`. */
    method CopyToLog(tail: nat)
      requires Valid() && pc == LogMachine.WriteLog(tail) && tail < n
      modifies this`disk, this`cache, this`pc, this`run
      ensures Valid() && run == old(run) + [View()]
      ensures pc == if tail + 1 < n then LogMachine.WriteLog(tail + 1) else LogMachine.WriteHead
      ensures SameHome(l, disk, old(disk)) && SameHome(l, cache, old(cache))
    {
      RunSized(l, run);
      var from := cache[block[tail]];
      cache := cache[l.start + tail + 1 := from];
      disk := disk[l.start + tail + 1 := from];             // bwrite(to)
      pc := if tail + 1 < n then LogMachine.WriteLog(tail + 1) else LogMachine.WriteHead;
      Record(Advance);
    }

    /** Copy every logged block from the cache to the log, in the order of the
        header; no home block changes, on disk or in the cache. */
    method WriteLog()
      requires Valid() && pc == LogMachine.WriteLog(0) && n > 0
      modifies this`disk, this`cache, this`pc, this`run
      ensures Valid() && pc == LogMachine.WriteHead
      ensures |disk| == |cache| == |old(cache)| == l.blocks && l.start + n < l.blocks
      ensures forall j :: 0 <= j < n ==> 0 <= block[j] < l.blocks && disk[l.start + 1 + j] == old(cache)[block[j]]
      ensures SameHome(l, disk, old(disk)) && SameHome(l, cache, old(cache))
      ensures old(run) <= run && |run| == |old(run)| + n
      ensures Passes(old(run), run, committed, committed, true)
    {
      RunSized(l, run);
      var tail := 0;
      while tail < n
        invariant Valid() && tail <= n && old(run) <= run && |run| == |old(run)| + tail
        invariant Passes(old(run), run, committed, committed, true)
        invariant pc == if tail < n then LogMachine.WriteLog(tail) else LogMachine.WriteHead
        invariant SameHome(l, disk, old(disk)) && SameHome(l, cache, old(cache))
      {
        CopyToLog(tail);
        tail := tail + 1;
      }
      LoggedAll(l, run);
    }

    /** Write the in-memory header over the cached header block. */
    method WriteHead()
      requires Shape() && l.Valid() && |cache| == |disk| == l.blocks
      modifies this`disk, this`cache
      ensures var h := EncodeHead(old(cache)[l.start], block[..n]);
              cache == old(cache)[l.start := h] && disk == old(disk)[l.start := h]
    {
      var hb := cache[l.start];
      var h := [n];
      var i := 0;
      while i < n
        invariant i <= n && h == [n] + block[..i]
      {
        h := h + [block[i]];
        i := i + 1;
      }
      h := h + if n < |hb| then hb[1 + n..] else [];
      cache := cache[l.start := h];
      disk := disk[l.start := h];                           // bwrite(buf)
    }

    /** Where `install_trans` is before its turn `tail`. */
    ghost function Installing(recovering: bool, tail: nat): Pc
      reads this
    {
      if tail < n then (if recovering then Reinstall(tail) else Install(tail))
      else if recovering then Reclear else LogMachine.ClearHead
    }

    /** One turn of the loop of `install_trans`. */
    method CopyHome(ghost recovering: bool, tail: nat)
      requires Valid() && tail < n && pc == Installing(recovering, tail)
      modifies this`disk, this`cache, this`pc, this`run
      ensures Valid() && run == old(run) + [View()] && pc == Installing(recovering, tail + 1)
      ensures Sized(l, old(View())) && block[tail] != l.start + tail + 1
      ensures disk == old(disk)[block[tail] := old(cache)[l.start + tail + 1]]
      ensures cache == old(cache)[block[tail] := old(cache)[l.start + tail + 1]]
    {
      RunSized(l, run);
      var lbuf := cache[l.start + tail + 1];
      cache := cache[block[tail] := lbuf];
      disk := disk[block[tail] := lbuf];                    // bwrite(dbuf)
      pc := Installing(recovering, tail + 1);
      Record(Advance);
    }

    /** That turn, in the stretch of the run since `was`. */
    method InstallTurn(ghost recovering: bool, tail: nat, ghost was: seq<State>, ghost d0: Disk) returns (next: nat)
      requires Valid() && tail < n && pc == Installing(recovering, tail) && SameBut(d0, disk, block[..n])
      requires Passes(was, run, committed, committed, !recovering) && |run| == |was| + tail
      modifies this`disk, this`cache, this`pc, this`run
      ensures Valid() && next == tail + 1 && pc == Installing(recovering, next) && SameBut(d0, disk, block[..n])
      ensures Passes(was, run, committed, committed, !recovering) && |run| == |was| + next
    {
      ghost var d := disk;
      RunSized(l, run);
      CopyHome(recovering, tail);
      SameButOne(d0, d, block[..n], tail, disk[block[tail]]);
      next := tail + 1;
    }

    /** Copy every block of the log to its home; no other block changes. */
    method InstallTrans(ghost recovering: bool)
      requires Valid() && pc == Installing(recovering, 0)
      modifies this`disk, this`cache, this`pc, this`run
      ensures Sized(l, View()) && |disk| == |old(disk)|
      ensures forall j :: 0 <= j < n ==> disk[block[j]] == old(disk)[l.start + 1 + j]
      ensures SameBut(old(disk), disk, block[..n])
      ensures Valid() && pc == if recovering then Reclear else LogMachine.ClearHead
      ensures old(run) <= run && |run| == |old(run)| + n
      ensures Passes(old(run), run, committed, committed, !recovering)
    {
      var tail := 0;
      while tail < n
        invariant Valid() && 0 <= tail <= n && |run| == |old(run)| + tail
        invariant Passes(old(run), run, committed, committed, !recovering)
        invariant pc == Installing(recovering, tail) && SameBut(old(disk), disk, block[..n])
      {
        tail := InstallTurn(recovering, tail, old(run), old(disk));
      }
      InstalledAll(l, run);
    }

    /** The header write that commits the current group. */
    method CommitHead()
      requires Valid() && pc == LogMachine.WriteHead && n > 0
      modifies this
      ensures Valid() && run == old(run) + [View()] && n == old(n) && pc == Install(0)
      ensures committed == old(committed) + [old(current)] && current == []
      ensures outstanding == old(outstanding) && committing == old(committing)
    {
      RunSized(l, run);
      WriteHead();
      committed, current, pc := committed + [current], [], Install(0);
      Record(Advance);
    }

    /** `log.lh.n = 0; write_head()`, after a commit or a recovery. */
    method ClearHead()
      requires Valid() && (pc == LogMachine.ClearHead || pc == Reclear)
      modifies this
      ensures Valid() && run == old(run) + [View()] && n == 0
      ensures pc == if old(pc).Reclear? then Running else Finish
      ensures committed == old(committed) && current == old(current)
      ensures outstanding == old(outstanding) && committing == old(committing)
    {
      RunSized(l, run);
      n := 0;
      WriteHead();
      assert block[..n] == [];
      pc := if pc.Reclear? then Running else Finish;
      Record(Advance);
    }

    /** `commit` has found something to write. */
    method StartCommit()
      requires Valid() && pc == Check && n > 0
      modifies this`pc, this`run
      ensures Valid() && run == old(run) + [View()] && pc == LogMachine.WriteLog(0)
    {
      RunSized(l, run);
      pc := LogMachine.WriteLog(0);
      Record(Advance);
    }

    /** `commit` up to and including the write that commits the group. */
    method LogGroup()
      requires Valid() && pc == Check && n > 0
      modifies this
      ensures Valid() && pc == Install(0) && n == old(n)
      ensures committed == old(committed) + [old(current)]
      ensures outstanding == old(outstanding) && committing == old(committing)
      ensures Passes(old(run), run, old(committed), committed, true)
    {
      StartCommit();
      WriteLog();
      CommitHead();
    }

    /** `commit` of a group that logged something: the current group becomes
        the last committed one, and every state on the way has the old or the
        new list of committed groups. */
    method CommitLogged()
      requires Valid() && pc == Check && n > 0
      modifies this
      ensures Valid() && pc == Finish && n == 0
      ensures committed == old(committed) + [old(current)]
      ensures outstanding == old(outstanding) && committing == old(committing)
      ensures Passes(old(run), run[..|run| - 1], old(committed), committed, true)
    {
      LogGroup();
      ghost var mid := run;
      InstallTrans(false);
      PassesOn(old(run), mid, run, old(committed), committed, true);
      ClearHead();
      assert run[..|run| - 1] + [View()] == run;
    }

    /** `commit` of a group that logged nothing. */
    method CommitEmpty()
      requires Valid() && pc == Check && n == 0
      modifies this
      ensures Valid() && pc == Finish && n == 0
      ensures committed == old(committed) + [old(current)]
      ensures outstanding == old(outstanding) && committing == old(committing)
      ensures Passes(old(run), run[..|run| - 1], old(committed), committed, true)
    {
      RunSized(l, run);
      committed, current, pc := committed + [current], [], Finish;
      Record(Advance);
    }

    /** All of `commit`: the home blocks on disk become what the cache held. */
    method Commit()
      requires Valid() && pc == Check
      modifies this
      ensures Valid() && pc == Finish && n == 0
      ensures committed == old(committed) + [old(current)]
      ensures outstanding == old(outstanding) && committing == old(committing)
      ensures Passes(old(run), run, old(committed), committed, false)
      ensures SameHome(l, disk, old(cache)) && HeadOk(l, disk) && Head(l, disk) == []
    {
      if n > 0 {
        CommitLogged();
      } else {
        CommitEmpty();
      }
      CommitOutcome(l, run, |old(run)| - 1, |run| - 1);
    }

    /** The critical section at the start of `end_op`.  Its panic never
        happens: the kernel is still up afterwards. */
    method LeaveOp(ghost i: nat) returns (doCommit: bool)
      requires Valid() && Up(pc) && i < |open|
      modifies this
      ensures Valid() && run == old(run) + [View()]
      ensures Took(l, old(View()), LogMachine.EndOp(i), View())
      ensures !old(committing) && doCommit == committing == (outstanding == 0)
      ensures pc == if doCommit then Check else Running
      ensures cache == old(cache) && committed == old(committed) && current == old(current)
    {
      RunCounts(l, run);
      outstanding := outstanding - 1;
      open := open[..i] + open[i + 1..];
      doCommit := outstanding == 0;
      if doCommit {
        committing, pc := true, Check;
      }
      Record(LogMachine.EndOp(i));
    }

    /** The critical section at the end of `end_op`. */
    method FinishCommit()
      requires Valid() && pc == Finish
      modifies this`committing, this`pc, this`run
      ensures Valid() && run == old(run) + [View()] && pc == Running && !committing
    {
      RunSized(l, run);
      committing, pc := false, Running;
      Record(Advance);
    }

    /** `end_op` by the operation `i`, undisturbed: the last one out commits
        the whole group. */
    method EndOp(ghost i: nat)
      requires Valid() && Up(pc) && i < |open|
      modifies this
      ensures Valid() && old(run) <= run && !committing && pc == Running
      ensures outstanding == old(outstanding) - 1
      ensures outstanding > 0 ==> committed == old(committed) && current == old(current)
      ensures outstanding == 0 ==>
                && n == 0 && committed == old(committed) + [old(current)]
                && SameHome(l, disk, old(cache)) && HeadOk(l, disk) && Head(l, disk) == []
    {
      var doCommit := LeaveOp(i);
      if doCommit {
        Commit();
        FinishCommit();
      }
    }

    /** Power failure: memory is lost, the disk stays. */
    method CrashNow()
      requires Valid()
      modifies this
      ensures Valid() && run == old(run) + [View()] && pc == Boot && n == 0
      ensures disk == old(disk) && committed == old(committed)
    {
      RunSized(l, run);
      cache, n, outstanding, committing, pc, open, current := disk, 0, 0, false, Boot, [], [];
      assert block[..n] == [];
      Record(Crash);
    }

    /** Copy the on-disk header into memory. */
    method ReadHead()
      requires Valid() && pc == Boot
      modifies this, block
      ensures Valid() && run == old(run) + [View()] && pc == Installing(true, 0)
      ensures committed == old(committed) && disk == old(disk)
    {
      RunSized(l, run);
      var h := cache[l.start];
      BootReadsDisk(l, run);
      n := h[0];
      var i := 0;
      while i < n
        modifies block
        invariant i <= n && block[..i] == Entries(h, i)
      {
        block[i] := h[i + 1];
        assert block[..i + 1] == block[..i] + [h[i + 1]];
        i := i + 1;
      }
      pc := Installing(true, 0);
      Record(Advance);
    }

    /** `recover_from_log`: afterwards the disk holds the committed groups, and
        a crash at any point on the way would have recovered to the same. */
    method RecoverFromLog()
      requires Valid() && pc == Boot
      modifies this, block
      ensures Valid() && pc == Running && n == 0 && old(run) <= run
      ensures committed == old(committed) && Sized(l, View()) && HeadOk(l, disk) && Head(l, disk) == []
      ensures HeadOk(l, run[0].disk) && SameHome(l, disk, ApplyAll(Recovered(l, run[0].disk), committed))
      ensures Passes(old(run), run, committed, committed, false)
    {
      ReadHead();
      ghost var mid := run;
      InstallTrans(true);
      PassesOn(old(run), mid, run, committed, committed, false);
      mid := run;
      ClearHead();
      PassesOn(old(run), mid, run, committed, committed, false);
      UpHolds(l, run);
    }
  }
}
