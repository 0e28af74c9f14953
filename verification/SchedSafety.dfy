/** What every step of the scheduler machine keeps, and what follows for every
    reachable state. */
module SchedSafety {
  import opened Common
  import opened SchedMachine

  // ----- Program points -------------------------------------------------------------

  /** The process holds its own lock here, while it is on a CPU. */
  predicate HoldsOwn(pc: Pc) {
    pc.Resume? || pc.SleepLocked? || pc.SleepReady? || pc.InSched? || pc.ExitZombie? || pc.ExitSwitch?
  }

  predicate HoldsWait(pc: Pc) {
    || pc.WaitScan? || pc.WaitDecided? || pc.SleepLocked?
    || pc.ExitReparent? || pc.ExitWakeInit? || pc.ExitWakeup? || pc.ExitLast? || pc.ExitZombie?
  }

  predicate Exiting(pc: Pc) {
    || pc.ExitReparent? || pc.ExitWakeInit? || pc.ExitWakeup? || pc.ExitLast?
    || pc.ExitZombie? || pc.ExitSwitch? || pc.Dead?
  }

  /** Where the process continues once it holds no lock again. */
  function Task(pc: Pc): Pc {
    match pc
    case Resume(after) => after
    case SleepReady(_, after) => after
    case InSched(after) => after
    case _ => pc
  }

  /** The slot that the process has claimed in `fork`. */
  function Claims(pc: Pc): Option<nat> {
    match Task(pc)
    case ForkParent(child) => Some(child)
    case ForkRun(child) => Some(child)
    case _ => None
  }

  predicate Alive(st: RunState) { st == SLEEPING || st == RUNNABLE || st == RUNNING }

  predicate PcOk(x: Proc) {
    && (x.state == UNUSED || x.state == USED <==> x.pc == Unborn)
    && (x.state == ZOMBIE <==> x.pc.ExitZombie? || x.pc.ExitSwitch? || x.pc == Dead)
    && (x.state == SLEEPING || x.state == RUNNABLE ==> x.pc.Resume? || x.pc.InSched?)
    && (x.pc.InSched? ==> x.state == SLEEPING || x.state == RUNNABLE)
    && (x.pc.Resume? || x.pc.SleepReady? || x.pc.InSched? ==> Interruptible(x.pc.after))
  }

  /** The process is on the stack of some CPU exactly in these states. */
  predicate Stacked(x: Proc) { x.state == RUNNING || x.pc.InSched? || (x.state == ZOMBIE && x.pc != Dead) }

  // ----- The invariant ----------------------------------------------------------------

  /** Who has a say over a process slot: nobody, the CPU whose `c->proc` it is,
      or the process that claimed it in `fork`. */
  datatype Home = Free | OnCpu(c: nat) | Claimed(forker: nat)

  predicate CpuOk(s: State, h: seq<Home>, c: nat)
    requires c < |s.cpus| && |h| == |s.procs|
  {
    var u := s.cpus[c];
    if u.proc.None? then u.on.None?
    else u.proc.value < |h| && h[u.proc.value] == OnCpu(c) && (u.on.None? || u.on == u.proc)
  }

  predicate ProcOk(s: State, h: seq<Home>, p: nat)
    requires p < |s.procs| == |h|
  {
    var x := s.procs[p];
    && PcOk(x)
    && (match h[p]
        case Free => !Stacked(x) && x.lock.None? && x.state != USED
        case Claimed(f) => x.state == USED && x.lock.None? && f < |h| && Claims(s.procs[f].pc) == Some(p)
        case OnCpu(c) =>
          && c < |s.cpus| && s.cpus[c].proc == Some(p) && x.state != USED && x.state != UNUSED
          && if s.cpus[c].on.Some? then Stacked(x) && x.lock == (if HoldsOwn(x.pc) then Some(c) else None)
             else !Stacked(x) && x.lock == Some(c))
    && (HoldsWait(x.pc) ==> h[p].OnCpu? && s.waitLock == Some(h[p].c))
    && (Claims(x.pc).Some? ==>
          var np := Claims(x.pc).value;
          && np < |h| && h[np] == Claimed(p)
          && s.procs[np].parent == if Task(x.pc).ForkRun? then Some(p) else None)
    && (x.state == UNUSED ==> x.parent.None?)
  }

  predicate WaitLockOk(s: State) {
    s.waitLock.Some? ==> Busy(s, s.waitLock.value) && HoldsWait(s.procs[Who(s, s.waitLock.value)].pc)
  }

  /** In `wait`, past the point where a `wakeup` would still be remembered. */
  predicate Waiting(x: Proc, p: nat) {
    (x.state == SLEEPING && x.chan == OnProc(p)) || (x.pc.SleepReady? && x.pc.chan == OnProc(p)) || x.pc.SleepLocked?
  }

  /** Some exiting process is about to wake init. */
  predicate InitWakeDue(s: State) {
    && s.waitLock.Some? && Busy(s, s.waitLock.value)
    && var pc := s.procs[Who(s, s.waitLock.value)].pc;
    pc.ExitWakeInit? && pc.j <= s.init
  }

  /** `reparent` of a process at `pc` has already dealt with child `q`. */
  predicate Reparented(pc: Pc, q: nat) {
    match pc
    case ExitReparent(k) => q < k
    case ExitWakeInit(k, _) => q <= k
    case _ => Exiting(pc)
  }

  /** `wait` at `pc` has looked at child `q` and found it alive. */
  predicate SeenAlive(pc: Pc, q: nat) {
    match pc
    case WaitScan(k, _) => q < k
    case _ => pc.WaitDecided?
  }

  /** The exiting process has passed the wakeup of its parent `p`. */
  predicate Announced(pc: Pc, p: nat) {
    pc.ExitLast? || (pc.ExitWakeup? && pc.j > p)
  }

  /** What holds of a process `x`, number `p`, and its child `y`, number `q`; `due`
      says that `x` is init and about to be woken. */
  predicate Family(x: Proc, p: nat, y: Proc, q: nat, due: bool) {
    && Alive(x.state) && !Reparented(x.pc, q)
    && (y.state == ZOMBIE && Waiting(x, p) ==> due)
    && (y.state == ZOMBIE ==> !SeenAlive(x.pc, q))
    && (Announced(y.pc, p) ==> !Waiting(x, p))
  }

  predicate ChildOk(s: State, q: nat)
    requires q < |s.procs|
  {
    var y := s.procs[q];
    y.parent.Some? ==>
      var p := y.parent.value;
      p < |s.procs| && p != q && Family(s.procs[p], p, y, q, p == s.init && InitWakeDue(s))
  }

  predicate Inv(s: State, h: seq<Home>) {
    && |h| == |s.procs| && s.init < |s.procs|
    && (forall c :: 0 <= c < |s.cpus| ==> CpuOk(s, h, c))
    && (forall p :: 0 <= p < |s.procs| ==> ProcOk(s, h, p))
    && WaitLockOk(s)
    && Alive(s.procs[s.init].state) && !Exiting(s.procs[s.init].pc) && s.procs[s.init].parent.None?
    && (forall q :: 0 <= q < |s.procs| ==> ChildOk(s, q))
  }

  /** A process that does not change keeps its place if what it relies on stays. */
  lemma OtherProc(s: State, h: seq<Home>, s': State, h': seq<Home>, q: nat)
    requires |s'.procs| == |s.procs| == |h| == |h'| && q < |h| && ProcOk(s, h, q)
    requires s'.procs[q] == s.procs[q] && h'[q] == h[q]
    requires h[q].OnCpu? && h[q].c < |s.cpus| ==> h[q].c < |s'.cpus| && s'.cpus[h[q].c] == s.cpus[h[q].c]
    requires h[q].Claimed? && h[q].forker < |h| ==>
               Claims(s'.procs[h[q].forker].pc) == Claims(s.procs[h[q].forker].pc)
    requires HoldsWait(s.procs[q].pc) ==> s'.waitLock == s.waitLock
    requires var np := Claims(s.procs[q].pc);
             np.Some? && np.value < |h| ==>
               h'[np.value] == h[np.value] && s'.procs[np.value].parent == s.procs[np.value].parent
    ensures ProcOk(s', h', q)
  {
  }

  /** The same for a child, when its parent does not change either. */
  lemma OtherChild(s: State, s': State, q: nat)
    requires |s'.procs| == |s.procs| && s'.init == s.init < |s.procs| && q < |s.procs| && ChildOk(s, q)
    requires s'.procs[q] == s.procs[q]
    requires var p := s.procs[q].parent; p.Some? && p.value < |s.procs| ==> s'.procs[p.value] == s.procs[p.value]
    requires InitWakeDue(s) ==> InitWakeDue(s') || !Waiting(s.procs[s.init], s.init)
    ensures ChildOk(s', q)
  {
  }

  // ----- A process changes nothing but itself and wait_lock ----------------------------

  /** The process on CPU `c` becomes `x`, and `wait_lock` becomes `w`. */
  function Own(s: State, c: nat, x: Proc, w: Option<nat>): State
    requires Busy(s, c)
  {
    SetProc(s, Who(s, c), x).(waitLock := w)
  }

  /** It stays on its stack, and its locks fit its new place. */
  predicate OwnFits(s: State, c: nat, x: Proc, w: Option<nat>)
    requires Busy(s, c)
  {
    var was := s.procs[Who(s, c)];
    && PcOk(x) && Stacked(x) && x.lock == (if HoldsOwn(x.pc) then Some(c) else None)
    && Claims(x.pc) == Claims(was.pc) && (Task(x.pc).ForkRun? <==> Task(was.pc).ForkRun?)
    && (HoldsWait(x.pc) ==> HoldsWait(was.pc) || s.waitLock.None?)
    && w == (if HoldsWait(x.pc) then Some(c) else if HoldsWait(was.pc) then None else s.waitLock)
    && x.parent == was.parent
  }

  lemma OwnProc(s: State, h: seq<Home>, c: nat, x: Proc, w: Option<nat>, q: nat)
    requires Inv(s, h) && Busy(s, c) && OwnFits(s, c, x, w) && q < |s.procs|
    ensures ProcOk(Own(s, c, x, w), h, q)
  {
    assert CpuOk(s, h, c) && ProcOk(s, h, Who(s, c)) && ProcOk(s, h, q);
    if q != Who(s, c) { OtherProc(s, h, Own(s, c, x, w), h, q); }
  }

  /** What its children rely on stays true. */
  predicate FairDown(s: State, p: nat, x: Proc)
    requires p < |s.procs|
  {
    var was := s.procs[p];
    && (Alive(x.state) || forall q :: 0 <= q < |s.procs| ==> s.procs[q].parent != Some(p))
    && (forall q :: 0 <= q < |s.procs| && s.procs[q].parent == Some(p) ==>
          && !Reparented(x.pc, q)
          && (s.procs[q].state == ZOMBIE ==> !SeenAlive(x.pc, q))
          && (s.procs[q].state == ZOMBIE && Waiting(x, p) ==> Waiting(was, p))
          && (Waiting(x, p) ==> Waiting(was, p) || !Announced(s.procs[q].pc, p)))
  }

  /** What its parent relies on stays true. */
  predicate FairUp(s: State, p: nat, x: Proc) {
    x.parent.Some? && x.parent.value < |s.procs| && (Announced(x.pc, x.parent.value) || x.state == ZOMBIE) ==>
      !Waiting(s.procs[x.parent.value], x.parent.value) && !SeenAlive(s.procs[x.parent.value].pc, p)
  }

  /** What its parent, its children and init rely on stays true. */
  predicate OwnFair(s: State, c: nat, x: Proc, w: Option<nat>)
    requires Busy(s, c) && s.init < |s.procs|
  {
    && FairDown(s, Who(s, c), x) && FairUp(s, Who(s, c), x)
    && (InitWakeDue(s) ==> InitWakeDue(Own(s, c, x, w)) || !Waiting(s.procs[s.init], s.init))
  }

  /** The process as a child of its parent. */
  lemma OwnSelf(s: State, h: seq<Home>, c: nat, x: Proc, w: Option<nat>)
    requires Inv(s, h) && Busy(s, c) && OwnFits(s, c, x, w) && OwnFair(s, c, x, w)
    ensures ChildOk(Own(s, c, x, w), Who(s, c))
  {
    assert CpuOk(s, h, c) && ProcOk(s, h, Who(s, c)) && ChildOk(s, Who(s, c));
  }

  lemma OwnChild(s: State, h: seq<Home>, c: nat, x: Proc, w: Option<nat>, q: nat)
    requires Inv(s, h) && Busy(s, c) && OwnFits(s, c, x, w) && OwnFair(s, c, x, w) && q < |s.procs|
    ensures ChildOk(Own(s, c, x, w), q)
  {
    var p := Who(s, c);
    assert ChildOk(s, q);
    if q != p && s.procs[q].parent != Some(p) {
      OtherChild(s, Own(s, c, x, w), q);
    } else if q == p {
      OwnSelf(s, h, c, x, w);
    } else {
      assert CpuOk(s, h, c) && ProcOk(s, h, p);
    }
  }

  lemma OwnInv(s: State, h: seq<Home>, c: nat, x: Proc, w: Option<nat>)
    requires Inv(s, h) && Busy(s, c) && OwnFits(s, c, x, w) && OwnFair(s, c, x, w)
    requires Who(s, c) == s.init ==> Alive(x.state) && !Exiting(x.pc)
    ensures Inv(Own(s, c, x, w), h)
  {
    var s' := Own(s, c, x, w);
    forall q | 0 <= q < |s.procs| ensures ProcOk(s', h, q) && ChildOk(s', q) {
      OwnProc(s, h, c, x, w, q);
      OwnChild(s, h, c, x, w, q);
    }
    forall d | 0 <= d < |s.cpus| ensures CpuOk(s', h, d) { assert CpuOk(s, h, d); }
    assert CpuOk(s, h, c) && ProcOk(s, h, Who(s, c));
  }

  // ----- swtch to the scheduler ----------------------------------------------------------

  /** The process on CPU `c` gives up its stack with its lock taken. */
  predicate OutFits(s: State, c: nat, x: Proc)
    requires Busy(s, c)
  {
    var p := Who(s, c);
    var was := s.procs[p];
    && PcOk(x) && !Stacked(x) && x.lock == Some(c) && x.state != USED && x.state != UNUSED
    && Claims(x.pc) == Claims(was.pc) && (Task(x.pc).ForkRun? <==> Task(was.pc).ForkRun?)
    && !HoldsWait(was.pc) && x.parent == was.parent
    && (Waiting(x, p) ==> Waiting(was, p))
    && (if Exiting(was.pc) then x.pc == Dead && x.state == was.state == ZOMBIE else Alive(x.state) && !Exiting(x.pc))
  }

  lemma OutProc(s: State, h: seq<Home>, c: nat, x: Proc, q: nat)
    requires Inv(s, h) && Busy(s, c) && OutFits(s, c, x) && q < |s.procs|
    ensures ProcOk(SwitchOut(s, c, x), h, q)
  {
    assert CpuOk(s, h, c) && ProcOk(s, h, Who(s, c)) && ProcOk(s, h, q);
  }

  /** Whoever is about to wake init does not give up its stack. */
  lemma OutInit(s: State, h: seq<Home>, c: nat, x: Proc)
    requires Inv(s, h) && Busy(s, c) && OutFits(s, c, x)
    ensures InitWakeDue(s) ==> InitWakeDue(SwitchOut(s, c, x))
  {
    assert CpuOk(s, h, c) && ProcOk(s, h, Who(s, c));
  }

  lemma OutChild(s: State, h: seq<Home>, c: nat, x: Proc, q: nat)
    requires Inv(s, h) && Busy(s, c) && OutFits(s, c, x) && q < |s.procs|
    ensures ChildOk(SwitchOut(s, c, x), q)
  {
    var p, s' := Who(s, c), SwitchOut(s, c, x);
    assert CpuOk(s, h, c) && ProcOk(s, h, p) && ChildOk(s, q);
    OutInit(s, h, c, x);
    if q != p && s.procs[q].parent != Some(p) { OtherChild(s, s', q); }
  }

  lemma OutInv(s: State, h: seq<Home>, c: nat, x: Proc)
    requires Inv(s, h) && Busy(s, c) && OutFits(s, c, x)
    ensures Inv(SwitchOut(s, c, x), h)
  {
    var s' := SwitchOut(s, c, x);
    forall q | 0 <= q < |s.procs| ensures ProcOk(s', h, q) && ChildOk(s', q) {
      OutProc(s, h, c, x, q);
      OutChild(s, h, c, x, q);
    }
    forall d | 0 <= d < |s.cpus| ensures CpuOk(s', h, d) { assert CpuOk(s, h, d); }
    assert CpuOk(s, h, c) && ProcOk(s, h, Who(s, c));
  }

  // ----- The scheduler -----------------------------------------------------------------

  lemma PickChild(s: State, h: seq<Home>, c: nat, p: nat, q: nat)
    requires Inv(s, h) && Enabled(s, Pick(c, p)) && q < |s.procs|
    ensures ChildOk(Do(s, Pick(c, p)), q)
  {
    assert ProcOk(s, h, p) && ChildOk(s, q);
  }

  lemma PickInv(s: State, h: seq<Home>, c: nat, p: nat)
    requires Inv(s, h) && Enabled(s, Pick(c, p))
    ensures Inv(Do(s, Pick(c, p)), h[p := OnCpu(c)])
  {
    var s', h' := Do(s, Pick(c, p)), h[p := OnCpu(c)];
    assert ProcOk(s, h, p);
    forall q | 0 <= q < |s.procs| ensures ProcOk(s', h', q) && ChildOk(s', q) {
      assert ProcOk(s, h, q);
      if q != p { OtherProc(s, h, s', h', q); }
      PickChild(s, h, c, p, q);
    }
    forall d | 0 <= d < |s.cpus| ensures CpuOk(s', h', d) { assert CpuOk(s, h, d); }
  }

  lemma ReturnChild(s: State, h: seq<Home>, c: nat, q: nat)
    requires Inv(s, h) && Enabled(s, Return(c)) && q < |s.procs|
    ensures ChildOk(Do(s, Return(c)), q)
  {
    assert CpuOk(s, h, c) && ChildOk(s, q);
  }

  lemma ReturnInv(s: State, h: seq<Home>, c: nat)
    requires Inv(s, h) && Enabled(s, Return(c))
    ensures s.cpus[c].proc.value < |h| && Inv(Do(s, Return(c)), h[s.cpus[c].proc.value := Free])
  {
    assert CpuOk(s, h, c);
    var p := s.cpus[c].proc.value;
    var s', h' := Do(s, Return(c)), h[p := Free];
    assert ProcOk(s, h, p);
    forall q | 0 <= q < |s.procs| ensures ProcOk(s', h', q) && ChildOk(s', q) {
      assert ProcOk(s, h, q);
      if q != p { OtherProc(s, h, s', h', q); }
      ReturnChild(s, h, c, q);
    }
    forall d | 0 <= d < |s.cpus| ensures CpuOk(s', h', d) { assert CpuOk(s, h, d); }
  }

  // ----- One process changes another ----------------------------------------------------

  lemma PokeChild(s: State, h: seq<Home>, z: nat, y: Proc, q: nat)
    requires Inv(s, h) && Unlocked(s, z) && q < |s.procs|
    requires y == s.procs[z].(state := y.state, killed := y.killed)
    requires y.state == s.procs[z].state || (s.procs[z].state == SLEEPING && y.state == RUNNABLE)
    ensures ChildOk(SetProc(s, z, y), q)
  {
    assert ProcOk(s, h, z) && ChildOk(s, q);
  }

  /** Waking a sleeper, or marking a process killed, can do no harm. */
  lemma PokeInv(s: State, h: seq<Home>, z: nat, y: Proc)
    requires Inv(s, h) && Unlocked(s, z)
    requires y == s.procs[z].(state := y.state, killed := y.killed)
    requires y.state == s.procs[z].state || (s.procs[z].state == SLEEPING && y.state == RUNNABLE)
    ensures Inv(SetProc(s, z, y), h)
  {
    var s' := SetProc(s, z, y);
    assert ProcOk(s, h, z);
    forall q | 0 <= q < |s.procs| ensures ProcOk(s', h, q) && ChildOk(s', q) {
      assert ProcOk(s, h, q);
      PokeChild(s, h, z, y, q);
    }
    forall d | 0 <= d < |s.cpus| ensures CpuOk(s', h, d) { assert CpuOk(s, h, d); }
  }

  /** A zombie whose lock is free is off every stack and may be freed. */
  lemma FreeInv(s: State, h: seq<Home>, z: nat)
    requires Inv(s, h) && Unlocked(s, z) && s.procs[z].state == ZOMBIE
    ensures forall c :: 0 <= c < |s.cpus| ==> s.cpus[c].on != Some(z) && s.cpus[c].proc != Some(z)
    ensures Inv(SetProc(s, z, Freed(s.procs[z])), h)
  {
    var s' := SetProc(s, z, Freed(s.procs[z]));
    assert ProcOk(s, h, z);
    forall q | 0 <= q < |s.procs| ensures ProcOk(s', h, q) && ChildOk(s', q) {
      assert ProcOk(s, h, q) && ChildOk(s, q);
    }
    forall d | 0 <= d < |s.cpus| ensures CpuOk(s', h, d) && s.cpus[d].proc != Some(z) { assert CpuOk(s, h, d); }
  }

  /** The process on CPU `c` becomes `x`, and another process `z` becomes `y`. */
  function Both(s: State, c: nat, x: Proc, z: nat, y: Proc): State
    requires Busy(s, c) && z < |s.procs|
  {
    SetProc(SetProc(s, z, y), Who(s, c), x)
  }

  lemma CpusSame(s: State, h: seq<Home>, s': State, h': seq<Home>)
    requires Inv(s, h) && s'.cpus == s.cpus && |s'.procs| == |s.procs| == |h'|
    requires forall p :: 0 <= p < |h| && h[p].OnCpu? ==> h'[p] == h[p]
    ensures forall d :: 0 <= d < |s'.cpus| ==> CpuOk(s', h', d)
  {
    forall d | 0 <= d < |s'.cpus| ensures CpuOk(s', h', d) { assert CpuOk(s, h, d); }
  }

  lemma ForkProc(s: State, h: seq<Home>, c: nat, z: nat, q: nat)
    requires Inv(s, h) && Busy(s, c) && s.procs[Who(s, c)].pc == User && Unlocked(s, z) && s.procs[z].state == UNUSED
    requires q < |s.procs|
    ensures var x, y := s.procs[Who(s, c)].(pc := ForkParent(z)), s.procs[z].(state := USED);
            ProcOk(Both(s, c, x, z, y), h[z := Claimed(Who(s, c))], q)
  {
    var p := Who(s, c);
    assert CpuOk(s, h, c) && ProcOk(s, h, p) && ProcOk(s, h, z) && ProcOk(s, h, q);
    if q != p && q != z {
      var x, y := s.procs[p].(pc := ForkParent(z)), s.procs[z].(state := USED);
      OtherProc(s, h, Both(s, c, x, z, y), h[z := Claimed(p)], q);
    }
  }

  lemma ForkChild(s: State, h: seq<Home>, c: nat, z: nat, q: nat)
    requires Inv(s, h) && Busy(s, c) && s.procs[Who(s, c)].pc == User && Unlocked(s, z) && s.procs[z].state == UNUSED
    requires q < |s.procs|
    ensures var x, y := s.procs[Who(s, c)].(pc := ForkParent(z)), s.procs[z].(state := USED);
            ChildOk(Both(s, c, x, z, y), q)
  {
    assert CpuOk(s, h, c) && ProcOk(s, h, Who(s, c)) && ProcOk(s, h, z) && ChildOk(s, q);
  }

  /** `fork`: a free slot is claimed. */
  lemma ForkInv(s: State, h: seq<Home>, c: nat, z: nat)
    requires Inv(s, h) && Busy(s, c) && s.procs[Who(s, c)].pc == User && Unlocked(s, z) && s.procs[z].state == UNUSED
    ensures var x, y := s.procs[Who(s, c)].(pc := ForkParent(z)), s.procs[z].(state := USED);
            Who(s, c) != z && Inv(Both(s, c, x, z, y), h[z := Claimed(Who(s, c))])
  {
    var p := Who(s, c);
    assert CpuOk(s, h, c) && ProcOk(s, h, p) && ProcOk(s, h, z) && ChildOk(s, z);
    var x, y, h' := s.procs[p].(pc := ForkParent(z)), s.procs[z].(state := USED), h[z := Claimed(p)];
    var s' := Both(s, c, x, z, y);
    CpusSame(s, h, s', h');
    forall q | 0 <= q < |s.procs| ensures ProcOk(s', h', q) && ChildOk(s', q) {
      ForkProc(s, h, c, z, q);
      ForkChild(s, h, c, z, q);
    }
  }

  lemma AdoptProc(s: State, h: seq<Home>, c: nat, z: nat, q: nat)
    requires Inv(s, h) && Busy(s, c) && s.procs[Who(s, c)].pc == ForkParent(z) && q < |s.procs|
    requires z < |s.procs| && Who(s, c) != z
    ensures var x, y := s.procs[Who(s, c)].(pc := ForkRun(z)), s.procs[z].(parent := Some(Who(s, c)));
            ProcOk(Both(s, c, x, z, y), h, q)
  {
    var p := Who(s, c);
    assert CpuOk(s, h, c) && ProcOk(s, h, p) && ProcOk(s, h, z) && ProcOk(s, h, q);
    if q != p && q != z {
      OtherProc(s, h, Both(s, c, s.procs[p].(pc := ForkRun(z)), z, s.procs[z].(parent := Some(p))), h, q);
    }
  }

  lemma AdoptChild(s: State, h: seq<Home>, c: nat, z: nat, q: nat)
    requires Inv(s, h) && Busy(s, c) && s.procs[Who(s, c)].pc == ForkParent(z) && q < |s.procs|
    requires z < |s.procs| && Who(s, c) != z
    ensures var x, y := s.procs[Who(s, c)].(pc := ForkRun(z)), s.procs[z].(parent := Some(Who(s, c)));
            ChildOk(Both(s, c, x, z, y), q)
  {
    assert CpuOk(s, h, c) && ProcOk(s, h, Who(s, c)) && ProcOk(s, h, z) && ChildOk(s, z) && ChildOk(s, q);
  }

  /** `fork`: under `wait_lock` the child gets its parent. */
  lemma AdoptInv(s: State, h: seq<Home>, c: nat, z: nat)
    requires Inv(s, h) && Busy(s, c) && s.procs[Who(s, c)].pc == ForkParent(z)
    ensures z < |s.procs| && Who(s, c) != z
    ensures var x, y := s.procs[Who(s, c)].(pc := ForkRun(z)), s.procs[z].(parent := Some(Who(s, c)));
            Inv(Both(s, c, x, z, y), h)
  {
    var p := Who(s, c);
    assert CpuOk(s, h, c) && ProcOk(s, h, p) && ProcOk(s, h, z) && ChildOk(s, z);
    var x, y := s.procs[p].(pc := ForkRun(z)), s.procs[z].(parent := Some(p));
    var s' := Both(s, c, x, z, y);
    CpusSame(s, h, s', h);
    forall q | 0 <= q < |s.procs| ensures ProcOk(s', h, q) && ChildOk(s', q) {
      AdoptProc(s, h, c, z, q);
      AdoptChild(s, h, c, z, q);
    }
  }

  lemma LaunchProc(s: State, h: seq<Home>, c: nat, z: nat, q: nat)
    requires Inv(s, h) && Busy(s, c) && s.procs[Who(s, c)].pc == ForkRun(z) && q < |s.procs|
    requires z < |s.procs| && Who(s, c) != z
    ensures var x, y := s.procs[Who(s, c)].(pc := User), s.procs[z].(state := RUNNABLE, pc := Resume(User));
            ProcOk(Both(s, c, x, z, y), h[z := Free], q)
  {
    var p := Who(s, c);
    assert CpuOk(s, h, c) && ProcOk(s, h, p) && ProcOk(s, h, z) && ProcOk(s, h, q);
    if q != p && q != z {
      var x, y := s.procs[p].(pc := User), s.procs[z].(state := RUNNABLE, pc := Resume(User));
      OtherProc(s, h, Both(s, c, x, z, y), h[z := Free], q);
    }
  }

  lemma LaunchChild(s: State, h: seq<Home>, c: nat, z: nat, q: nat)
    requires Inv(s, h) && Busy(s, c) && s.procs[Who(s, c)].pc == ForkRun(z) && q < |s.procs|
    requires z < |s.procs| && Who(s, c) != z
    ensures var x, y := s.procs[Who(s, c)].(pc := User), s.procs[z].(state := RUNNABLE, pc := Resume(User));
            ChildOk(Both(s, c, x, z, y), q)
  {
    assert CpuOk(s, h, c) && ProcOk(s, h, Who(s, c)) && ProcOk(s, h, z) && ChildOk(s, z) && ChildOk(s, q);
  }

  /** `fork`: the child becomes RUNNABLE. */
  lemma LaunchInv(s: State, h: seq<Home>, c: nat, z: nat)
    requires Inv(s, h) && Busy(s, c) && s.procs[Who(s, c)].pc == ForkRun(z)
    ensures z < |s.procs| && Who(s, c) != z
    ensures var x, y := s.procs[Who(s, c)].(pc := User), s.procs[z].(state := RUNNABLE, pc := Resume(User));
            Inv(Both(s, c, x, z, y), h[z := Free])
  {
    var p := Who(s, c);
    assert CpuOk(s, h, c) && ProcOk(s, h, p) && ProcOk(s, h, z) && ChildOk(s, z);
    var x, y, h' := s.procs[p].(pc := User), s.procs[z].(state := RUNNABLE, pc := Resume(User)), h[z := Free];
    var s' := Both(s, c, x, z, y);
    CpusSame(s, h, s', h');
    forall q | 0 <= q < |s.procs| ensures ProcOk(s', h', q) && ChildOk(s', q) {
      LaunchProc(s, h, c, z, q);
      LaunchChild(s, h, c, z, q);
    }
  }

  lemma GiveProc(s: State, h: seq<Home>, c: nat, z: nat, q: nat)
    requires Inv(s, h) && Busy(s, c) && s.procs[Who(s, c)].pc == ExitReparent(z)
    requires z < |s.procs| && s.procs[z].parent == Some(Who(s, c)) && Who(s, c) != z && q < |s.procs|
    ensures var x, y := s.procs[Who(s, c)].(pc := ExitWakeInit(z, 0)), s.procs[z].(parent := Some(s.init));
            ProcOk(Both(s, c, x, z, y), h, q)
  {
    var p := Who(s, c);
    assert CpuOk(s, h, c) && ProcOk(s, h, p) && ChildOk(s, z) && ProcOk(s, h, q);
    if q != p && q != z {
      OtherProc(s, h, Both(s, c, s.procs[p].(pc := ExitWakeInit(z, 0)), z, s.procs[z].(parent := Some(s.init))), h, q);
    }
  }

  lemma GivenChild(s: State, h: seq<Home>, c: nat, z: nat)
    requires Inv(s, h) && Busy(s, c) && s.procs[Who(s, c)].pc == ExitReparent(z)
    requires z < |s.procs| && s.procs[z].parent == Some(Who(s, c))
    ensures var x, y := s.procs[Who(s, c)].(pc := ExitWakeInit(z, 0)), s.procs[z].(parent := Some(s.init));
            ChildOk(Both(s, c, x, z, y), z)
  {
    assert CpuOk(s, h, c) && ProcOk(s, h, Who(s, c)) && ChildOk(s, z) && ProcOk(s, h, z) && ProcOk(s, h, s.init);
  }

  lemma GiveChild(s: State, h: seq<Home>, c: nat, z: nat, q: nat)
    requires Inv(s, h) && Busy(s, c) && s.procs[Who(s, c)].pc == ExitReparent(z)
    requires z < |s.procs| && s.procs[z].parent == Some(Who(s, c)) && q < |s.procs|
    ensures var x, y := s.procs[Who(s, c)].(pc := ExitWakeInit(z, 0)), s.procs[z].(parent := Some(s.init));
            ChildOk(Both(s, c, x, z, y), q)
  {
    if q == z {
      GivenChild(s, h, c, z);
    } else {
      assert CpuOk(s, h, c) && ProcOk(s, h, Who(s, c)) && ChildOk(s, q) && ChildOk(s, z);
    }
  }

  /** `reparent`: a child is given to init, which is about to be woken. */
  lemma GiveInv(s: State, h: seq<Home>, c: nat, z: nat)
    requires Inv(s, h) && Busy(s, c) && s.procs[Who(s, c)].pc == ExitReparent(z)
    requires z < |s.procs| && s.procs[z].parent == Some(Who(s, c))
    ensures Who(s, c) != z
    ensures var x, y := s.procs[Who(s, c)].(pc := ExitWakeInit(z, 0)), s.procs[z].(parent := Some(s.init));
            Inv(Both(s, c, x, z, y), h)
  {
    var p := Who(s, c);
    assert CpuOk(s, h, c) && ProcOk(s, h, p) && ProcOk(s, h, z) && ChildOk(s, z) && ProcOk(s, h, s.init);
    var x, y := s.procs[p].(pc := ExitWakeInit(z, 0)), s.procs[z].(parent := Some(s.init));
    var s' := Both(s, c, x, z, y);
    CpusSame(s, h, s', h);
    forall q | 0 <= q < |s.procs| ensures ProcOk(s', h, q) && ChildOk(s', q) {
      GiveProc(s, h, c, z, q);
      GiveChild(s, h, c, z, q);
    }
  }

  // ----- Every step ------------------------------------------------------------------------

  /** At most one process is inside a section guarded by `wait_lock`. */
  lemma OneHolder(s: State, h: seq<Home>, p: nat, q: nat)
    requires Inv(s, h) && p < |s.procs| && q < |s.procs|
    requires HoldsWait(s.procs[p].pc) && HoldsWait(s.procs[q].pc)
    ensures p == q
  {
    assert ProcOk(s, h, p) && ProcOk(s, h, q);
  }

  /** The places from which a process moves without changing another one. */
  predicate MovesAlone(pc: Pc) {
    || pc.Resume? || pc.WaitStart? || pc.WaitDecided? || pc.SleepLocked? || pc.SleepReady?
    || pc.ExitLast? || pc.ExitZombie?
  }

  /** What process `p` on CPU `c` becomes there, and what `wait_lock` does. */
  function Moved(x: Proc, p: nat, c: nat): Proc
    requires MovesAlone(x.pc)
  {
    match x.pc
    case Resume(after) => x.(lock := None, chan := NoChan, pc := after)
    case WaitStart => x.(pc := WaitScan(0, false))
    case WaitDecided => x.(lock := Some(c), pc := SleepLocked)
    case SleepLocked => x.(pc := SleepReady(OnProc(p), WaitStart))
    case SleepReady(chan, after) => x.(state := SLEEPING, chan := chan, pc := InSched(after))
    case ExitLast => x.(state := ZOMBIE, lock := Some(c), pc := ExitZombie)
    case ExitZombie => x.(pc := ExitSwitch)
  }

  function MovedLock(x: Proc, c: nat, w: Option<nat>): Option<nat> {
    if x.pc.WaitStart? then Some(c) else if x.pc.SleepLocked? || x.pc.ExitZombie? then None else w
  }

  lemma AloneOwn(s: State, h: seq<Home>, c: nat, flag: bool)
    requires Inv(s, h) && Enabled(s, Run(c, flag)) && MovesAlone(s.procs[Who(s, c)].pc)
    ensures var x := s.procs[Who(s, c)];
            Do(s, Run(c, flag)) == Own(s, c, Moved(x, Who(s, c), c), MovedLock(x, c, s.waitLock))
  {
  }

  lemma AloneFits(s: State, h: seq<Home>, c: nat)
    requires Inv(s, h) && Busy(s, c) && MovesAlone(s.procs[Who(s, c)].pc)
    requires s.procs[Who(s, c)].pc.WaitStart? ==> s.waitLock.None?
    ensures var x := s.procs[Who(s, c)]; OwnFits(s, c, Moved(x, Who(s, c), c), MovedLock(x, c, s.waitLock))
  {
    assert CpuOk(s, h, c) && ProcOk(s, h, Who(s, c));
  }

  /** What the parent of a process needs of its step. */
  lemma AloneParent(s: State, h: seq<Home>, c: nat)
    requires Inv(s, h) && Busy(s, c) && MovesAlone(s.procs[Who(s, c)].pc) && s.procs[Who(s, c)].parent.Some?
    ensures var x' := Moved(s.procs[Who(s, c)], Who(s, c), c);
            var r := x'.parent.value;
            r < |s.procs| && (Announced(x'.pc, r) || x'.state == ZOMBIE ==>
              !Waiting(s.procs[r], r) && !SeenAlive(s.procs[r].pc, Who(s, c)))
  {
    var p := Who(s, c);
    var r := s.procs[p].parent.value;
    assert CpuOk(s, h, c) && ProcOk(s, h, p) && ChildOk(s, p);
    if HoldsWait(s.procs[p].pc) && HoldsWait(s.procs[r].pc) { OneHolder(s, h, p, r); }
  }

  /** What a child needs of its parent's step. */
  lemma AloneChild(s: State, h: seq<Home>, c: nat, q: nat)
    requires Inv(s, h) && Busy(s, c) && MovesAlone(s.procs[Who(s, c)].pc)
    requires q < |s.procs| && s.procs[q].parent == Some(Who(s, c))
    ensures var p := Who(s, c); var x, x' := s.procs[p], Moved(s.procs[p], p, c);
            && !Reparented(x'.pc, q) && Alive(x'.state) && !SeenAlive(x'.pc, q)
            && (s.procs[q].state == ZOMBIE && Waiting(x', p) ==> Waiting(x, p))
            && (Waiting(x', p) ==> Waiting(x, p) || !Announced(s.procs[q].pc, p))
  {
    var p := Who(s, c);
    assert CpuOk(s, h, c) && ProcOk(s, h, p) && ChildOk(s, p) && ChildOk(s, q);
    if Announced(s.procs[q].pc, p) && HoldsWait(s.procs[p].pc) { OneHolder(s, h, p, q); }
  }

  lemma AloneFair(s: State, h: seq<Home>, c: nat)
    requires Inv(s, h) && Busy(s, c) && MovesAlone(s.procs[Who(s, c)].pc)
    requires s.procs[Who(s, c)].pc.WaitStart? ==> s.waitLock.None?
    ensures var x := s.procs[Who(s, c)]; OwnFair(s, c, Moved(x, Who(s, c), c), MovedLock(x, c, s.waitLock))
  {
    var p := Who(s, c);
    var x := s.procs[p];
    var x' := Moved(x, p, c);
    assert CpuOk(s, h, c) && ProcOk(s, h, p);
    forall q | 0 <= q < |s.procs| && s.procs[q].parent == Some(p)
      ensures !Reparented(x'.pc, q) && Alive(x'.state) && !SeenAlive(x'.pc, q)
      ensures s.procs[q].state == ZOMBIE && Waiting(x', p) ==> Waiting(x, p)
      ensures Waiting(x', p) ==> Waiting(x, p) || !Announced(s.procs[q].pc, p)
    {
      AloneChild(s, h, c, q);
    }
    if x.parent.Some? { AloneParent(s, h, c); }
  }

  lemma AloneInv(s: State, h: seq<Home>, c: nat, flag: bool)
    requires Inv(s, h) && Enabled(s, Run(c, flag)) && MovesAlone(s.procs[Who(s, c)].pc)
    ensures Inv(Do(s, Run(c, flag)), h)
  {
    var p := Who(s, c);
    AloneOwn(s, h, c, flag);
    AloneFits(s, h, c);
    AloneFair(s, h, c);
    assert ProcOk(s, h, p);
    OwnInv(s, h, c, Moved(s.procs[p], p, c), MovedLock(s.procs[p], c, s.waitLock));
  }

  /** `reparent` passes over a process that is not a child, or is done. */
  lemma PassInv(s: State, h: seq<Home>, c: nat, pc: Pc)
    requires Inv(s, h) && Busy(s, c) && s.procs[Who(s, c)].pc.ExitReparent?
    requires var k := s.procs[Who(s, c)].pc.k;
             if k < |s.procs| then s.procs[k].parent != Some(Who(s, c)) && pc == ExitReparent(k + 1)
             else pc == ExitWakeup(0)
    ensures Inv(Goto(s, Who(s, c), pc), h)
  {
    var p := Who(s, c);
    var x := s.procs[p].(pc := pc);
    assert CpuOk(s, h, c) && ProcOk(s, h, p) && ChildOk(s, p);
    forall q | 0 <= q < |s.procs| && s.procs[q].parent == Some(p) ensures !Reparented(pc, q) { assert ChildOk(s, q); }
    OwnInv(s, h, c, x, s.waitLock);
    assert Own(s, c, x, s.waitLock) == Goto(s, p, pc);
  }

  lemma LookOnFair(s: State, h: seq<Home>, c: nat, kids: bool)
    requires Inv(s, h) && Busy(s, c) && s.procs[Who(s, c)].pc.WaitScan?
    requires var k := s.procs[Who(s, c)].pc.k;
             k < |s.procs| && (s.procs[k].parent == Some(Who(s, c)) ==> s.procs[k].state != ZOMBIE)
    ensures var x := s.procs[Who(s, c)]; OwnFair(s, c, x.(pc := WaitScan(x.pc.k + 1, kids)), s.waitLock)
  {
    var p := Who(s, c);
    var pc := WaitScan(s.procs[p].pc.k + 1, kids);
    assert CpuOk(s, h, c) && ProcOk(s, h, p);
    forall q | 0 <= q < |s.procs| && s.procs[q].parent == Some(p) && s.procs[q].state == ZOMBIE
      ensures !SeenAlive(pc, q)
    {
      assert ChildOk(s, q);
    }
  }

  /** `wait` finds that child `k` is alive or not its own, and looks on. */
  lemma LookOnInv(s: State, h: seq<Home>, c: nat, kids: bool)
    requires Inv(s, h) && Busy(s, c) && s.procs[Who(s, c)].pc.WaitScan?
    requires var k := s.procs[Who(s, c)].pc.k;
             k < |s.procs| && (s.procs[k].parent == Some(Who(s, c)) ==> s.procs[k].state != ZOMBIE)
    ensures Inv(Goto(s, Who(s, c), WaitScan(s.procs[Who(s, c)].pc.k + 1, kids)), h)
  {
    var p := Who(s, c);
    var pc := WaitScan(s.procs[p].pc.k + 1, kids);
    var x := s.procs[p].(pc := pc);
    assert CpuOk(s, h, c) && ProcOk(s, h, p);
    LookOnFair(s, h, c, kids);
    OwnInv(s, h, c, x, s.waitLock);
    assert Own(s, c, x, s.waitLock) == Goto(s, p, pc);
  }

  /** `wait` has seen all its children alive. */
  lemma DecideInv(s: State, h: seq<Home>, c: nat)
    requires Inv(s, h) && Busy(s, c) && s.procs[Who(s, c)].pc.WaitScan? && s.procs[Who(s, c)].pc.k >= |s.procs|
    ensures Inv(Goto(s, Who(s, c), WaitDecided), h)
  {
    var p := Who(s, c);
    var x := s.procs[p].(pc := WaitDecided);
    assert CpuOk(s, h, c) && ProcOk(s, h, p) && ChildOk(s, p);
    forall q | 0 <= q < |s.procs| && s.procs[q].parent == Some(p) ensures s.procs[q].state != ZOMBIE {
      assert ChildOk(s, q);
    }
    OwnInv(s, h, c, x, s.waitLock);
    assert Own(s, c, x, s.waitLock) == Goto(s, p, WaitDecided);
  }

  /** `wait` returns. */
  lemma LeaveWaitInv(s: State, h: seq<Home>, c: nat)
    requires Inv(s, h) && Busy(s, c) && s.procs[Who(s, c)].pc.WaitScan?
    ensures Inv(Goto(s, Who(s, c), User).(waitLock := None), h)
  {
    var p := Who(s, c);
    var x := s.procs[p].(pc := User);
    assert CpuOk(s, h, c) && ProcOk(s, h, p) && ChildOk(s, p);
    OwnInv(s, h, c, x, None);
    assert Own(s, c, x, None) == Goto(s, p, User).(waitLock := None);
  }

  lemma ScanInv(s: State, h: seq<Home>, c: nat, flag: bool)
    requires Inv(s, h) && Enabled(s, Run(c, flag)) && s.procs[Who(s, c)].pc.WaitScan?
    ensures Inv(Do(s, Run(c, flag)), h)
  {
    var p := Who(s, c);
    var k, kids := s.procs[p].pc.k, s.procs[p].pc.kids;
    if k >= |s.procs| {
      if !kids || s.procs[p].killed { LeaveWaitInv(s, h, c); } else { DecideInv(s, h, c); }
    } else if s.procs[k].parent != Some(p) {
      LookOnInv(s, h, c, kids);
    } else if s.procs[k].state != ZOMBIE {
      LookOnInv(s, h, c, true);
    } else if flag {
      assert ChildOk(s, k);
      FreeInv(s, h, k);
      LeaveWaitInv(SetProc(s, k, Freed(s.procs[k])), h, c);
    } else {
      LeaveWaitInv(s, h, c);
    }
  }

  predicate ExitNext(s: State, c: nat, pc: Pc)
    requires Busy(s, c) && s.init < |s.procs|
  {
    var x := s.procs[Who(s, c)];
    match x.pc
    case ExitWakeInit(k, j) =>
      if j < |s.procs| then pc == ExitWakeInit(k, j + 1) && (j == s.init ==> !Waiting(s.procs[j], j))
      else pc == ExitReparent(k + 1)
    case ExitWakeup(j) =>
      if j < |s.procs| then pc == ExitWakeup(j + 1) && (x.parent == Some(j) ==> !Waiting(s.procs[j], j))
      else pc == ExitLast
    case _ => false
  }

  /** `exit` moves on in a `wakeup` loop, having woken whom it had to. */
  lemma ExitNextFair(s: State, h: seq<Home>, c: nat, pc: Pc)
    requires Inv(s, h) && Busy(s, c) && ExitNext(s, c, pc)
    ensures OwnFair(s, c, s.procs[Who(s, c)].(pc := pc), s.waitLock)
  {
    var p := Who(s, c);
    assert CpuOk(s, h, c) && ProcOk(s, h, p) && ChildOk(s, p);
    forall q | 0 <= q < |s.procs| && s.procs[q].parent == Some(p) ensures !Reparented(pc, q) { assert ChildOk(s, q); }
    if s.procs[p].parent.Some? {
      var r := s.procs[p].parent.value;
      if HoldsWait(s.procs[r].pc) { OneHolder(s, h, p, r); }
    }
  }

  lemma ExitNextInv(s: State, h: seq<Home>, c: nat, pc: Pc)
    requires Inv(s, h) && Busy(s, c) && ExitNext(s, c, pc)
    ensures Inv(Goto(s, Who(s, c), pc), h)
  {
    var p := Who(s, c);
    var x := s.procs[p].(pc := pc);
    assert CpuOk(s, h, c) && ProcOk(s, h, p);
    ExitNextFair(s, h, c, pc);
    OwnInv(s, h, c, x, s.waitLock);
    assert Own(s, c, x, s.waitLock) == Goto(s, p, pc);
  }

  /** After `wakeup(chan)` has passed process `j`, it does not sleep on `chan`. */
  lemma WakeInv(s: State, h: seq<Home>, j: nat, chan: Chan)
    requires Inv(s, h) && Unlocked(s, j)
    ensures Inv(Wakeup(s, j, chan), h) && (chan == OnProc(j) ==> !Waiting(Wakeup(s, j, chan).procs[j], j))
  {
    assert ProcOk(s, h, j);
    var s' := Wakeup(s, j, chan);
    if s' != s { PokeInv(s, h, j, s'.procs[j]); }
  }

  predicate InWakeup(pc: Pc) { pc.ExitWakeInit? || pc.ExitWakeup? }

  /** Whom a turn of a `wakeup` loop of `exit` wakes, if anybody. */
  function Woken(s: State, c: nat): State
    requires Busy(s, c) && InWakeup(s.procs[Who(s, c)].pc)
  {
    var p := Who(s, c);
    var x, j := s.procs[p], s.procs[p].pc.j;
    if j < |s.procs| && j != p && (x.pc.ExitWakeInit? || x.parent.Some?)
    then Wakeup(s, j, OnProc(if x.pc.ExitWakeInit? then s.init else x.parent.value)) else s
  }

  /** Where the loop goes on. */
  function NextTurn(s: State, pc: Pc): Pc
    requires InWakeup(pc)
  {
    match pc
    case ExitWakeInit(k, j) => if j >= |s.procs| then ExitReparent(k + 1) else ExitWakeInit(k, j + 1)
    case ExitWakeup(j) => if j >= |s.procs| then ExitLast else ExitWakeup(j + 1)
  }

  lemma WakeTurn(s: State, c: nat, flag: bool)
    requires Enabled(s, Run(c, flag)) && InWakeup(s.procs[Who(s, c)].pc)
    ensures var p := Who(s, c); Do(s, Run(c, flag)) == Goto(Woken(s, c), p, NextTurn(s, s.procs[p].pc))
  {
  }

  lemma WokenInv(s: State, h: seq<Home>, c: nat)
    requires Inv(s, h) && Busy(s, c) && InWakeup(s.procs[Who(s, c)].pc) && CanRun(s, c, s.procs[Who(s, c)].pc)
    ensures Inv(Woken(s, c), h) && ExitNext(Woken(s, c), c, NextTurn(s, s.procs[Who(s, c)].pc))
  {
    var p := Who(s, c);
    var x, j := s.procs[p], s.procs[p].pc.j;
    assert CpuOk(s, h, c) && ProcOk(s, h, p) && ChildOk(s, p);
    if j < |s.procs| && j != p && (x.pc.ExitWakeInit? || x.parent.Some?) {
      WakeInv(s, h, j, OnProc(if x.pc.ExitWakeInit? then s.init else x.parent.value));
    }
  }

  lemma ExitWakeInv(s: State, h: seq<Home>, c: nat, flag: bool)
    requires Inv(s, h) && Enabled(s, Run(c, flag)) && InWakeup(s.procs[Who(s, c)].pc)
    ensures Inv(Do(s, Run(c, flag)), h)
  {
    WokenInv(s, h, c);
    WakeTurn(s, c, flag);
    ExitNextInv(Woken(s, c), h, c, NextTurn(s, s.procs[Who(s, c)].pc));
  }

  lemma SwitchInv(s: State, h: seq<Home>, c: nat, flag: bool)
    requires Inv(s, h) && Enabled(s, Run(c, flag))
    requires s.procs[Who(s, c)].pc.InSched? || s.procs[Who(s, c)].pc.ExitSwitch?
    ensures Inv(Do(s, Run(c, flag)), h)
  {
    assert CpuOk(s, h, c) && ProcOk(s, h, Who(s, c));
    OutInv(s, h, c, Do(s, Run(c, flag)).procs[Who(s, c)]);
  }

  lemma RunInv(s: State, h: seq<Home>, c: nat, flag: bool) returns (h': seq<Home>)
    requires Inv(s, h) && Enabled(s, Run(c, flag))
    ensures Inv(Do(s, Run(c, flag)), h')
  {
    var p, s' := Who(s, c), Do(s, Run(c, flag));
    h' := h;
    match s.procs[p].pc
    case ForkParent(z) => AdoptInv(s, h, c, z);
    case ForkRun(z) => LaunchInv(s, h, c, z); h' := h[z := Free];
    case InSched(_) => SwitchInv(s, h, c, flag);
    case ExitSwitch => SwitchInv(s, h, c, flag);
    case WaitScan(k, _) => ScanInv(s, h, c, flag);
    case ExitReparent(k) =>
      if k < |s.procs| && s.procs[k].parent == Some(p) {
        GiveInv(s, h, c, k);
      } else {
        PassInv(s, h, c, s'.procs[p].pc);
      }
    case ExitWakeInit(_, _) => ExitWakeInv(s, h, c, flag);
    case ExitWakeup(_) => ExitWakeInv(s, h, c, flag);
    case _ => AloneInv(s, h, c, flag);
  }

  predicate Begins(step: Step) { step.Yield? || step.SleepOther? || step.Wait? || step.Exit? }

  /** What a process becomes by a step that it, or a trap, begins. */
  function Begun(x: Proc, step: Step): Proc
    requires Begins(step)
  {
    match step
    case Yield(c) => x.(state := RUNNABLE, lock := Some(c), pc := InSched(x.pc))
    case SleepOther(c, n) => x.(lock := Some(c), pc := SleepReady(OnOther(n), User))
    case Wait(_) => x.(pc := WaitStart)
    case Exit(_) => x.(pc := ExitReparent(0))
  }

  function BegunLock(step: Step, w: Option<nat>): Option<nat> { if step.Exit? then Some(step.c) else w }

  lemma BeginOwn(s: State, step: Step)
    requires Enabled(s, step) && Begins(step)
    ensures Do(s, step) == Own(s, step.c, Begun(s.procs[Who(s, step.c)], step), BegunLock(step, s.waitLock))
  {
  }

  lemma BeginFits(s: State, h: seq<Home>, step: Step)
    requires Inv(s, h) && Enabled(s, step) && Begins(step)
    ensures OwnFits(s, step.c, Begun(s.procs[Who(s, step.c)], step), BegunLock(step, s.waitLock))
  {
    assert CpuOk(s, h, step.c) && ProcOk(s, h, Who(s, step.c));
  }

  lemma BeginDown(s: State, h: seq<Home>, step: Step)
    requires Inv(s, h) && Enabled(s, step) && Begins(step)
    ensures FairDown(s, Who(s, step.c), Begun(s.procs[Who(s, step.c)], step))
  {
    var p := Who(s, step.c);
    assert CpuOk(s, h, step.c) && ProcOk(s, h, p);
  }

  lemma BeginFair(s: State, h: seq<Home>, step: Step)
    requires Inv(s, h) && Enabled(s, step) && Begins(step)
    ensures OwnFair(s, step.c, Begun(s.procs[Who(s, step.c)], step), BegunLock(step, s.waitLock))
  {
    var p := Who(s, step.c);
    BeginDown(s, h, step);
    assert CpuOk(s, h, step.c) && ProcOk(s, h, p);
  }

  lemma BeginInv(s: State, h: seq<Home>, step: Step)
    requires Inv(s, h) && Enabled(s, step) && Begins(step)
    ensures Inv(Do(s, step), h)
  {
    BeginOwn(s, step);
    BeginFits(s, h, step);
    BeginFair(s, h, step);
    assert ProcOk(s, h, Who(s, step.c));
    OwnInv(s, h, step.c, Begun(s.procs[Who(s, step.c)], step), BegunLock(step, s.waitLock));
  }

  lemma StepInv(s: State, h: seq<Home>, step: Step) returns (h': seq<Home>)
    requires Inv(s, h) && Enabled(s, step)
    ensures Inv(Do(s, step), h')
  {
    h' := h;
    match step
    case Pick(c, p) => PickInv(s, h, c, p); h' := h[p := OnCpu(c)];
    case Return(c) => ReturnInv(s, h, c); h' := h[s.cpus[c].proc.value := Free];
    case WakeOther(q, n) => WakeInv(s, h, q, OnOther(n));
    case Kill(q) => PokeInv(s, h, q, Do(s, step).procs[q]);
    case Fork(c, z) => ForkInv(s, h, c, z); h' := h[z := Claimed(Who(s, c))];
    case Run(c, flag) => h' := RunInv(s, h, c, flag);
    case _ => BeginInv(s, h, step);
  }

  lemma {:induction false} RunKeepsInv(run: seq<State>, i: nat) returns (h: seq<Home>)
    requires IsRun(run) && i < |run|
    ensures Inv(run[i], h)
  {
    if i == 0 {
      h := seq(|run[0].procs|, _ => Free);
    } else {
      h := RunKeepsInv(run, i - 1);
      assert StepsAt(run, i - 1);
      var step :| Enabled(run[i - 1], step) && run[i] == Do(run[i - 1], step);
      h := StepInv(run[i - 1], h, step);
    }
  }

  // ----- Main theorems ------------------------------------------------------------------------

  /** Never two CPUs on one kernel stack; and while its lock is free, a process
      is RUNNING exactly when some CPU's `c->proc` is the process, in which
      case that CPU executes on its stack. */
  lemma OneStackOneCpu(run: seq<State>, i: nat, p: nat)
    requires IsRun(run) && i < |run| && p < |run[i].procs|
    ensures forall c, d :: 0 <= c < d < |run[i].cpus| ==>
              run[i].cpus[c].on != Some(p) || run[i].cpus[d].on != Some(p)
    ensures forall c, d :: 0 <= c < d < |run[i].cpus| ==>
              run[i].cpus[c].proc != Some(p) || run[i].cpus[d].proc != Some(p)
    ensures run[i].procs[p].lock.None? ==>
              (run[i].procs[p].state == RUNNING <==>
               exists c :: 0 <= c < |run[i].cpus| && run[i].cpus[c].proc == Some(p))
    ensures forall c :: 0 <= c < |run[i].cpus| && run[i].cpus[c].proc == Some(p) && run[i].procs[p].lock.None? ==>
              run[i].cpus[c].on == Some(p)
  {
    var h := RunKeepsInv(run, i);
    var s := run[i];
    assert ProcOk(s, h, p);
    forall c | 0 <= c < |s.cpus| && (s.cpus[c].on == Some(p) || s.cpus[c].proc == Some(p))
      ensures h[p] == OnCpu(c) && (s.procs[p].lock.None? ==> s.cpus[c].on == Some(p))
    {
      assert CpuOk(s, h, c);
    }
  }

  /** `wait` frees a zombie only when no CPU is on its stack any more, and the
      zombie's thread can never be scheduled again. */
  lemma ReapsOffStack(run: seq<State>, i: nat, c: nat)
    requires IsRun(run) && i < |run| && Enabled(run[i], Run(c, true)) && run[i].procs[Who(run[i], c)].pc.WaitScan?
    requires var k := run[i].procs[Who(run[i], c)].pc.k;
             k < |run[i].procs| && run[i].procs[k].parent == Some(Who(run[i], c)) && run[i].procs[k].state == ZOMBIE
    ensures var k := run[i].procs[Who(run[i], c)].pc.k;
            && run[i].procs[k].pc == Dead && Do(run[i], Run(c, true)).procs[k].state == UNUSED
            && forall d :: 0 <= d < |run[i].cpus| ==> run[i].cpus[d].on != Some(k) && run[i].cpus[d].proc != Some(k)
  {
    var h := RunKeepsInv(run, i);
    var k := run[i].procs[Who(run[i], c)].pc.k;
    FreeInv(run[i], h, k);
    assert ProcOk(run[i], h, k) && ProcOk(run[i], h, Who(run[i], c)) && ChildOk(run[i], k);
  }

  /** No lost wakeups: whenever `wait_lock` is free, nobody asleep in `wait`
      has a zombie child. */
  lemma NoLostWakeup(run: seq<State>, i: nat, p: nat, q: nat)
    requires IsRun(run) && i < |run| && p < |run[i].procs| && q < |run[i].procs|
    requires run[i].waitLock.None?
    requires run[i].procs[p].state == SLEEPING && run[i].procs[p].chan == OnProc(p)
    requires run[i].procs[q].parent == Some(p)
    ensures run[i].procs[q].state != ZOMBIE
  {
    var h := RunKeepsInv(run, i);
    assert ChildOk(run[i], q);
  }

  /** Every parent pointer names a live process, in every state. */
  lemma ParentsAlive(run: seq<State>, i: nat, q: nat)
    requires IsRun(run) && i < |run| && q < |run[i].procs| && run[i].procs[q].parent.Some?
    ensures var p := run[i].procs[q].parent.value;
            p < |run[i].procs| && p != q && Alive(run[i].procs[p].state) && run[i].procs[q].state != UNUSED
  {
    var h := RunKeepsInv(run, i);
    assert ChildOk(run[i], q) && ProcOk(run[i], h, q);
  }

  /** How many spinlocks CPU `c` holds: its `noff` at the calls of `sched`. */
  function Held(s: State, c: nat): nat {
    |set q | 0 <= q < |s.procs| && s.procs[q].lock == Some(c)| + if s.waitLock == Some(c) then 1 else 0
  }

  /** The checks of `sched` on locks and state never fail: whenever a process,
      in `yield`, `sleep` or `exit`, is about to give up its CPU, it holds its
      own lock and no other, and it is no longer RUNNING. */
  lemma SchedChecks(run: seq<State>, i: nat, c: nat)
    requires IsRun(run) && i < |run| && Busy(run[i], c)
    requires run[i].procs[Who(run[i], c)].pc.InSched? || run[i].procs[Who(run[i], c)].pc.ExitSwitch?
    ensures run[i].procs[Who(run[i], c)].lock == Some(c) && Held(run[i], c) == 1
    ensures run[i].procs[Who(run[i], c)].state != RUNNING
  {
    var h := RunKeepsInv(run, i);
    var s, p := run[i], Who(run[i], c);
    assert CpuOk(s, h, c) && ProcOk(s, h, p) && WaitLockOk(s) && !HoldsWait(s.procs[p].pc);
    forall q | 0 <= q < |s.procs| && q != p ensures s.procs[q].lock != Some(c) { assert ProcOk(s, h, q); }
    assert (set q | 0 <= q < |s.procs| && s.procs[q].lock == Some(c)) == {p};
  }

  lemma RunKeepsCpus(s: State, c: nat, flag: bool)
    requires Busy(s, c) && CanRun(s, c, s.procs[Who(s, c)].pc)
    requires !s.procs[Who(s, c)].pc.InSched? && !s.procs[Who(s, c)].pc.ExitSwitch?
    ensures DoRun(s, c, flag).cpus == s.cpus
  {
  }

  lemma SwitchesOnly(s: State, step: Step, c: nat)
    requires Enabled(s, step) && Busy(s, c) && Do(s, step).cpus[c].on != s.cpus[c].on
    ensures step.Run? && step.c == c && (s.procs[Who(s, c)].pc.InSched? || s.procs[Who(s, c)].pc.ExitSwitch?)
  {
    if step.Run? && !s.procs[Who(s, step.c)].pc.InSched? && !s.procs[Who(s, step.c)].pc.ExitSwitch? {
      RunKeepsCpus(s, step.c, step.flag);
    }
  }

  /** A CPU leaves a kernel stack nowhere else. */
  lemma OnlySchedSwitches(run: seq<State>, i: nat, step: Step, c: nat)
    requires IsRun(run) && i < |run| && Enabled(run[i], step) && Busy(run[i], c)
    requires Do(run[i], step).cpus[c].on != run[i].cpus[c].on
    ensures step.Run? && step.c == c
    ensures run[i].procs[Who(run[i], c)].pc.InSched? || run[i].procs[Who(run[i], c)].pc.ExitSwitch?
  {
    SwitchesOnly(run[i], step, c);
  }
}
