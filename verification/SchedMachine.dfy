/** kernel/proc.c as a step machine: any number of processes on any number of
    CPUs, interleaved at the granularity of `wait_lock` and the `p->lock`s.
    A section that takes and releases one `p->lock` without touching another
    lock is one step.  `swtch` is a step of its own, which changes the stack a
    CPU executes on; the lock of the process stays taken across it. */
module SchedMachine {
  import opened Common

  datatype RunState = UNUSED | USED | SLEEPING | RUNNABLE | RUNNING | ZOMBIE

  /** A sleep channel: a process (used by `wait`) or anything else. */
  datatype Chan = NoChan | OnProc(p: nat) | OnOther(n: nat)

  /** What a process's kernel thread does next. */
  datatype Pc =
    | Unborn                          // slot not yet runnable
    | User                            // outside the functions below
    | ForkParent(child: nat)          // child allocated; about to set its parent
    | ForkRun(child: nat)             // about to make the child RUNNABLE
    | WaitStart                       // about to acquire wait_lock
    | WaitScan(k: nat, kids: bool)    // wait_lock held, looking at proc k
    | WaitDecided                     // wait_lock held, has children, not killed
    | SleepLocked                     // wait_lock and own lock held
    | SleepReady(chan: Chan, after: Pc)  // own lock held, about to sleep
    | InSched(after: Pc)              // own lock held, state changed, about to swtch
    | Resume(after: Pc)               // switched out, or just switched in
    | ExitReparent(k: nat)            // wait_lock held, looking at proc k
    | ExitWakeInit(k: nat, j: nat)    // in wakeup(initproc), at proc j
    | ExitWakeup(j: nat)              // in wakeup(p->parent), at proc j
    | ExitLast                        // about to acquire own lock
    | ExitZombie                      // both locks held, state is ZOMBIE
    | ExitSwitch                      // own lock held, about to swtch
    | Dead                            // switched out for ever

  datatype Proc = Proc(
    state: RunState, chan: Chan, killed: bool, parent: Option<nat>, lock: Option<nat>, pc: Pc)

  /** `proc` is `c->proc`; `on` is the process on whose kernel stack the CPU
      executes, None for the scheduler's own stack. */
  datatype Cpu = Cpu(proc: Option<nat>, on: Option<nat>)

  datatype State = State(procs: seq<Proc>, cpus: seq<Cpu>, waitLock: Option<nat>, init: nat)

  datatype Step =
    | Pick(c: nat, p: nat)            // scheduler: run a RUNNABLE process
    | Return(c: nat)                  // scheduler: swtch came back
    | Run(c: nat, flag: bool)         // one step of the process on CPU c
    | Yield(c: nat)
    | SleepOther(c: nat, n: nat)
    | WakeOther(q: nat, n: nat)       // wakeup(chan) by anybody else
    | Kill(q: nat)
    | Fork(c: nat, child: nat)
    | Wait(c: nat)
    | Exit(c: nat)

  function SetProc(s: State, p: nat, x: Proc): State
    requires p < |s.procs|
  {
    s.(procs := s.procs[p := x])
  }

  function SetCpu(s: State, c: nat, x: Cpu): State
    requires c < |s.cpus|
  {
    s.(cpus := s.cpus[c := x])
  }

  /** A CPU that executes on some process's stack. */
  predicate Busy(s: State, c: nat) {
    c < |s.cpus| && s.cpus[c].on.Some? && s.cpus[c].on.value < |s.procs|
  }

  function Who(s: State, c: nat): nat
    requires Busy(s, c)
  {
    s.cpus[c].on.value
  }

  predicate Unlocked(s: State, p: nat) { p < |s.procs| && s.procs[p].lock.None? }

  /** Places where a process holds no spinlock, so that it may be interrupted. */
  predicate Interruptible(pc: Pc) { pc.User? || pc.ForkParent? || pc.ForkRun? || pc.WaitStart? }

  /** The locks that the next step has to wait for are free. */
  predicate CanRun(s: State, c: nat, pc: Pc)
    requires Busy(s, c)
  {
    match pc
    case ForkParent(child) => child < |s.procs| && s.waitLock.None?
    case ForkRun(child) => Unlocked(s, child)
    case WaitStart => s.waitLock.None?
    case WaitScan(k, kids) =>
      if k < |s.procs| then s.procs[k].parent == Some(Who(s, c)) ==> Unlocked(s, k)
      else kids ==> Unlocked(s, Who(s, c))
    case WaitDecided => Unlocked(s, Who(s, c))
    case SleepLocked => true
    case SleepReady(_, _) => true
    case InSched(_) => true
    case Resume(_) => true
    case ExitReparent(_) => true
    case ExitWakeInit(_, j) => j < |s.procs| && j != Who(s, c) ==> Unlocked(s, j)
    case ExitWakeup(j) => j < |s.procs| && j != Who(s, c) ==> Unlocked(s, j)
    case ExitLast => Unlocked(s, Who(s, c))
    case ExitZombie => true
    case ExitSwitch => true
    case Unborn => false
    case User => false
    case Dead => false
  }

  predicate Enabled(s: State, step: Step) {
    match step
    case Pick(c, p) =>
      c < |s.cpus| && s.cpus[c] == Cpu(None, None) && Unlocked(s, p) && s.procs[p].state == RUNNABLE
    case Return(c) =>
      c < |s.cpus| && s.cpus[c].on.None? && s.cpus[c].proc.Some? && s.cpus[c].proc.value < |s.procs|
    case Yield(c) => Busy(s, c) && Interruptible(s.procs[Who(s, c)].pc) && Unlocked(s, Who(s, c))
    case SleepOther(c, n) => Busy(s, c) && s.procs[Who(s, c)].pc == User && Unlocked(s, Who(s, c))
    case WakeOther(q, n) => Unlocked(s, q)
    case Kill(q) => Unlocked(s, q)
    case Fork(c, child) =>
      Busy(s, c) && s.procs[Who(s, c)].pc == User && Unlocked(s, child) && s.procs[child].state == UNUSED
    case Wait(c) => Busy(s, c) && s.procs[Who(s, c)].pc == User
    case Exit(c) =>
      Busy(s, c) && s.procs[Who(s, c)].pc == User && Who(s, c) != s.init && s.waitLock.None?
    case Run(c, flag) => Busy(s, c) && CanRun(s, c, s.procs[Who(s, c)].pc)
  }

  function Goto(s: State, p: nat, pc: Pc): State
    requires p < |s.procs|
  {
    SetProc(s, p, s.procs[p].(pc := pc))
  }

  /** One turn of the loop of `wakeup(chan)`, at process `q`. */
  function Wakeup(s: State, q: nat, chan: Chan): State
    requires q < |s.procs|
  {
    if s.procs[q].state == SLEEPING && s.procs[q].chan == chan
    then SetProc(s, q, s.procs[q].(state := RUNNABLE))
    else s
  }

  /** `swtch` from the process on CPU `c` to the CPU's scheduler. */
  function SwitchOut(s: State, c: nat, x: Proc): State
    requires Busy(s, c)
  {
    SetCpu(SetProc(s, Who(s, c), x), c, Cpu(s.cpus[c].proc, None))
  }

  /** `freeproc`, as far as the scheduler can see it. */
  function Freed(x: Proc): Proc {
    x.(state := UNUSED, chan := NoChan, killed := false, parent := None, pc := Unborn)
  }

  /** The process on CPU `c` takes its next step; `flag` is the outcome of
      `copyout` in `wait`. */
  function DoRun(s: State, c: nat, flag: bool): State
    requires Busy(s, c) && CanRun(s, c, s.procs[Who(s, c)].pc)
  {
    var p := Who(s, c);
    var x := s.procs[p];
    match x.pc
    case Resume(after) =>
      SetProc(s, p, x.(lock := None, chan := NoChan, pc := after))   // after a yield chan is 0 already
    case ForkParent(child) =>
      Goto(SetProc(s, child, s.procs[child].(parent := Some(p))), p, ForkRun(child))
    case ForkRun(child) =>
      Goto(SetProc(s, child, s.procs[child].(state := RUNNABLE, pc := Resume(User))), p, User)
    case WaitStart => Goto(s, p, WaitScan(0, false)).(waitLock := Some(c))
    case WaitScan(k, kids) =>
      if k < |s.procs| then
        if s.procs[k].parent != Some(p) then Goto(s, p, WaitScan(k + 1, kids))
        else if s.procs[k].state != ZOMBIE then Goto(s, p, WaitScan(k + 1, true))
        else if flag then Goto(SetProc(s, k, Freed(s.procs[k])), p, User).(waitLock := None)
        else Goto(s, p, User).(waitLock := None)
      else if !kids || x.killed then Goto(s, p, User).(waitLock := None)
      else Goto(s, p, WaitDecided)
    case WaitDecided => SetProc(s, p, x.(lock := Some(c), pc := SleepLocked))
    case SleepLocked => Goto(s, p, SleepReady(OnProc(p), WaitStart)).(waitLock := None)
    case SleepReady(chan, after) => SetProc(s, p, x.(state := SLEEPING, chan := chan, pc := InSched(after)))
    case InSched(after) => SwitchOut(s, c, x.(pc := Resume(after)))
    case ExitReparent(k) =>
      if k >= |s.procs| then Goto(s, p, ExitWakeup(0))
      else if s.procs[k].parent == Some(p) then
        Goto(SetProc(s, k, s.procs[k].(parent := Some(s.init))), p, ExitWakeInit(k, 0))
      else Goto(s, p, ExitReparent(k + 1))
    case ExitWakeInit(k, j) =>
      if j >= |s.procs| then Goto(s, p, ExitReparent(k + 1))
      else Goto(if j == p then s else Wakeup(s, j, OnProc(s.init)), p, ExitWakeInit(k, j + 1))
    case ExitWakeup(j) =>
      if j >= |s.procs| then Goto(s, p, ExitLast)
      else Goto(if j == p || x.parent.None? then s else Wakeup(s, j, OnProc(x.parent.value)), p, ExitWakeup(j + 1))
    case ExitLast => SetProc(s, p, x.(state := ZOMBIE, lock := Some(c), pc := ExitZombie))
    case ExitZombie => Goto(s, p, ExitSwitch).(waitLock := None)
    case ExitSwitch => SwitchOut(s, c, x.(pc := Dead))
  }

  function Do(s: State, step: Step): State
    requires Enabled(s, step)
  {
    match step
    case Pick(c, p) =>
      SetCpu(SetProc(s, p, s.procs[p].(state := RUNNING, lock := Some(c))), c, Cpu(Some(p), Some(p)))
    case Return(c) =>
      var p := s.cpus[c].proc.value;
      SetCpu(SetProc(s, p, s.procs[p].(lock := None)), c, Cpu(None, None))
    case Yield(c) =>
      var x := s.procs[Who(s, c)];
      SetProc(s, Who(s, c), x.(state := RUNNABLE, lock := Some(c), pc := InSched(x.pc)))
    case SleepOther(c, n) =>
      var p := Who(s, c);
      SetProc(s, p, s.procs[p].(lock := Some(c), pc := SleepReady(OnOther(n), User)))
    case WakeOther(q, n) => Wakeup(s, q, OnOther(n))
    case Kill(q) =>
      var x := s.procs[q].(killed := true);
      SetProc(s, q, if x.state == SLEEPING then x.(state := RUNNABLE) else x)
    case Fork(c, child) =>
      var s' := SetProc(s, child, s.procs[child].(state := USED));
      Goto(s', Who(s, c), ForkParent(child))
    case Wait(c) => Goto(s, Who(s, c), WaitStart)
    case Exit(c) => Goto(s, Who(s, c), ExitReparent(0)).(waitLock := Some(c))
    case Run(c, flag) => DoRun(s, c, flag)
  }

  /** Boot: only the first process exists; all CPUs are in their schedulers. */
  predicate Init(s: State) {
    && s.init < |s.procs| && s.waitLock.None?
    && (forall c :: 0 <= c < |s.cpus| ==> s.cpus[c] == Cpu(None, None))
    && (forall p :: 0 <= p < |s.procs| ==>
          s.procs[p] == Proc(if p == s.init then RUNNABLE else UNUSED, NoChan, false, None, None,
                             if p == s.init then Resume(User) else Unborn))
  }

  ghost predicate Next(s: State, s': State) {
    exists step :: Enabled(s, step) && s' == Do(s, step)
  }

  ghost predicate StepsAt(run: seq<State>, i: nat) {
    i + 1 < |run| && Next(run[i], run[i + 1])
  }

  ghost predicate IsRun(run: seq<State>) {
    && |run| > 0 && Init(run[0])
    && forall i :: 0 <= i < |run| - 1 ==> StepsAt(run, i)
  }
}
