/** Log space: `begin_op` reserves MAXOPBLOCKS per operation, so when does
    `log_write` overrun the log?  The capacity test there comes before
    absorption, which makes the answer subtle. */
module LogCapacity {
  import opened LogMachine
  import opened LogSafety

  /** An operation logs at most `limit` distinct blocks. */
  predicate Within(limit: nat, s: State, step: Step) {
    step.LogWrite? && step.i < |s.open| ==> |s.open[step.i].blocks + {step.block}| <= limit
  }

  ghost predicate NextWithin(l: Layout, limit: nat, s: State, s': State) {
    exists step :: Enabled(l, s, step) && Within(limit, s, step) && s' == Do(l, s, step)
  }

  ghost predicate IsRunWithin(l: Layout, limit: nat, run: seq<State>) {
    && |run| > 0 && Init(l, run[0])
    && forall i :: 0 <= i < |run| - 1 ==> NextWithin(l, limit, run[i], run[i + 1])
  }

  lemma WithinIsRun(l: Layout, limit: nat, run: seq<State>)
    requires IsRunWithin(l, limit, run)
    ensures IsRun(l, run)
  {
    forall i | 0 <= i < |run| - 1 ensures StepsAt(l, run, i) {
      assert NextWithin(l, limit, run[i], run[i + 1]);
    }
  }

  // ----- Reserved but unused blocks ---------------------------------------------

  function Unused(open: seq<Op>): int {
    if open == [] then 0
    else Unused(open[..|open| - 1]) + (MAXOPBLOCKS - |open[|open| - 1].blocks|)
  }

  lemma UnusedSnoc(open: seq<Op>, o: Op)
    ensures Unused(open + [o]) == Unused(open) + MAXOPBLOCKS - |o.blocks|
  {
    assert (open + [o])[..|open|] == open;
  }

  lemma {:induction false} UnusedUpdate(open: seq<Op>, i: nat, o: Op)
    requires i < |open|
    ensures Unused(open[i := o]) == Unused(open) + |open[i].blocks| - |o.blocks|
  {
    var n := |open| - 1;
    if i == n {
      assert open[i := o][..n] == open[..n];
    } else {
      UnusedUpdate(open[..n], i, o);
      assert open[i := o][..n] == open[..n][i := o];
    }
  }

  lemma {:induction false} UnusedRemove(open: seq<Op>, i: nat)
    requires i < |open|
    ensures Unused(open[..i] + open[i + 1..]) == Unused(open) - (MAXOPBLOCKS - |open[i].blocks|)
  {
    var n := |open| - 1;
    if i == n {
      assert open[..i] + open[i + 1..] == open[..n];
    } else {
      UnusedRemove(open[..n], i);
      var r := open[..n][..i] + open[..n][i + 1..];
      assert open[..i] + open[i + 1..] == r + [open[n]];
      UnusedSnoc(r, open[n]);
    }
  }

  lemma {:induction false} UnusedBounds(open: seq<Op>, limit: nat)
    requires limit <= MAXOPBLOCKS
    requires forall i :: 0 <= i < |open| ==> |open[i].blocks| <= limit
    ensures |open| * (MAXOPBLOCKS - limit) <= Unused(open) <= |open| * MAXOPBLOCKS
  {
    if open != [] {
      UnusedBounds(open[..|open| - 1], limit);
    }
  }

  lemma {:induction false} UnusedOther(open: seq<Op>, limit: nat, i: nat)
    requires limit <= MAXOPBLOCKS && i < |open|
    requires forall k :: 0 <= k < |open| ==> |open[k].blocks| <= limit
    ensures Unused(open) >= MAXOPBLOCKS - |open[i].blocks| + (|open| - 1) * (MAXOPBLOCKS - limit)
  {
    UnusedRemove(open, i);
    UnusedBounds(open[..i] + open[i + 1..], limit);
  }

  // ----- The space invariant --------------------------------------------------------

  predicate Absorbs(limit: nat, s: State) {
    forall i :: 0 <= i < |s.open| ==>
      |s.open[i].blocks| <= limit && forall b :: b in s.open[i].blocks ==> b in s.lh
  }

  predicate Fits(limit: nat, s: State) {
    && Absorbs(limit, s)
    && (s.open != [] ==> |s.lh| + Unused(s.open) <= LOGSIZE)
  }

  /** What is left over beyond `Fits`: a lone operation either was alone from
      the start or inherited the slack of one that ended. */
  predicate Slack(s: State) {
    |s.open| == 1 ==> |s.lh| + Unused(s.open) < LOGSIZE || |s.lh| <= |s.open[0].blocks|
  }

  lemma FitsBegin(l: Layout, limit: nat, s: State)
    requires limit <= MAXOPBLOCKS && Counters(s) && Fits(limit, s) && Enabled(l, s, BeginOp)
    ensures Fits(limit, Do(l, s, BeginOp)) && Slack(Do(l, s, BeginOp))
  {
    UnusedSnoc(s.open, Op(s.nextOp, {}));
    UnusedBounds(s.open, limit);
    assert s.pc.Running?;
  }

  /** What one `log_write` that does not panic adds to the log is taken from the
      reservation of its operation. */
  lemma LogWriteRoom(s: State, s': State, i: nat, b: nat)
    requires i < |s.open| && (forall x :: x in s.open[i].blocks ==> x in s.lh)
    requires s'.lh == (if b in s.lh then s.lh else s.lh + [b])
    requires s'.open == s.open[i := s.open[i].(blocks := s.open[i].blocks + {b})]
    ensures |s'.lh| + Unused(s'.open) <= |s.lh| + Unused(s.open)
    ensures |s'.lh| <= |s'.open[i].blocks| || !(|s.lh| <= |s.open[i].blocks|)
  {
    var o := s.open[i];
    UnusedUpdate(s.open, i, o.(blocks := o.blocks + {b}));
    if b in o.blocks { assert o.blocks + {b} == o.blocks; }
  }

  lemma AbsorbsWrite(limit: nat, s: State, s': State, i: nat, b: nat)
    requires Absorbs(limit, s) && i < |s.open| && |s.open[i].blocks + {b}| <= limit
    requires s'.lh == (if b in s.lh then s.lh else s.lh + [b])
    requires s'.open == s.open[i := s.open[i].(blocks := s.open[i].blocks + {b})]
    ensures Absorbs(limit, s')
  {
    assert b in s'.lh by { if b !in s.lh { assert s'.lh[|s.lh|] == b; } }
  }

  lemma FitsLogWrite(l: Layout, limit: nat, s: State, i: nat, b: nat, data: Block)
    requires limit <= MAXOPBLOCKS && Fits(limit, s)
    requires Enabled(l, s, LogWrite(i, b, data)) && Within(limit, s, LogWrite(i, b, data))
    ensures var s' := Do(l, s, LogWrite(i, b, data));
            Fits(limit, s') && (Slack(s) ==> Slack(s'))
  {
    var s' := Do(l, s, LogWrite(i, b, data));
    if !s'.pc.Halted? {
      LogWriteRoom(s, s', i, b);
      AbsorbsWrite(limit, s, s', i, b);
    }
  }

  lemma AbsorbsRemove(limit: nat, s: State, s': State, i: nat)
    requires Absorbs(limit, s) && i < |s.open| && s'.open == s.open[..i] + s.open[i + 1..] && s'.lh == s.lh
    ensures Absorbs(limit, s')
  {
    forall k | 0 <= k < |s'.open|
      ensures |s'.open[k].blocks| <= limit && forall b :: b in s'.open[k].blocks ==> b in s'.lh
    {
      assert s'.open[k] == s.open[if k < i then k else k + 1];
    }
  }

  lemma FitsEnd(l: Layout, limit: nat, s: State, i: nat)
    requires limit <= MAXOPBLOCKS && Fits(limit, s) && Enabled(l, s, EndOp(i))
    ensures var s' := Do(l, s, EndOp(i));
            Fits(limit, s') && (limit < MAXOPBLOCKS ==> Slack(s'))
  {
    var s' := Do(l, s, EndOp(i));
    UnusedRemove(s.open, i);
    AbsorbsRemove(limit, s, s', i);
  }

  lemma FitsStep(l: Layout, limit: nat, s: State, step: Step)
    requires limit <= MAXOPBLOCKS && Counters(s) && Fits(limit, s)
    requires Enabled(l, s, step) && Within(limit, s, step)
    ensures var s' := Do(l, s, step);
            Fits(limit, s') && (limit < MAXOPBLOCKS && Slack(s) ==> Slack(s'))
  {
    match step
    case BeginOp => FitsBegin(l, limit, s);
    case LogWrite(i, b, data) => FitsLogWrite(l, limit, s, i, b, data);
    case EndOp(i) => FitsEnd(l, limit, s, i);
    case Advance =>
    case Crash =>
  }

  lemma {:induction false} UnusedSome(open: seq<Op>, limit: nat)
    requires limit < MAXOPBLOCKS && forall i :: 0 <= i < |open| ==> |open[i].blocks| <= limit
    ensures |open| <= Unused(open)
  {
    if open != [] {
      UnusedSome(open[..|open| - 1], limit);
    }
  }

  lemma SlackRoom(limit: nat, s: State)
    requires limit < MAXOPBLOCKS && Fits(limit, s) && Slack(s) && s.open != []
    ensures |s.lh| < LOGSIZE - 1
  {
    UnusedSome(s.open, limit);
  }

  /** Nothing panics in a state with slack. */
  lemma SlackNoPanic(l: Layout, limit: nat, s: State, step: Step)
    requires LOGSIZE <= l.size && limit < MAXOPBLOCKS
    requires Counters(s) && Fits(limit, s) && Slack(s) && !s.pc.Halted?
    requires Enabled(l, s, step)
    ensures !Do(l, s, step).pc.Halted?
  {
    if step.LogWrite? { SlackRoom(limit, s); }
  }

  lemma {:induction false} FitsRun(l: Layout, limit: nat, run: seq<State>, i: nat)
    requires limit <= MAXOPBLOCKS && IsRunWithin(l, limit, run) && i < |run|
    ensures Counters(run[i]) && Fits(limit, run[i])
    ensures limit < MAXOPBLOCKS ==> Slack(run[i])
    ensures limit < MAXOPBLOCKS && LOGSIZE <= l.size ==> !run[i].pc.Halted?
  {
    WithinIsRun(l, limit, run);
    InvRun(l, run, i);
    if i > 0 {
      FitsRun(l, limit, run, i - 1);
      assert NextWithin(l, limit, run[i - 1], run[i - 1 + 1]);
      var step :| Enabled(l, run[i - 1], step) && Within(limit, run[i - 1], step) && run[i] == Do(l, run[i - 1], step);
      FitsStep(l, limit, run[i - 1], step);
      if limit < MAXOPBLOCKS && LOGSIZE <= l.size { SlackNoPanic(l, limit, run[i - 1], step); }
    }
  }

  // ----- Main theorems ------------------------------------------------------------------

  /** If every operation leaves one reserved block unused, no run panics, even
      with the `log.size == LOGSIZE` that mkfs writes. */
  lemma NeverTooBig(l: Layout, run: seq<State>, i: nat)
    requires LOGSIZE <= l.size
    requires IsRunWithin(l, MAXOPBLOCKS - 1, run) && i < |run|
    ensures !run[i].pc.Halted?
  {
    FitsRun(l, MAXOPBLOCKS - 1, run, i);
  }

  /** How many blocks `log_write` accepts before it panics. */
  function Cap(l: Layout): int {
    if LOGSIZE < l.size - 1 then LOGSIZE else l.size - 1
  }

  /** With the full reservation in use, `log_write` panics exactly when the log
      is full, also in the log of LOGSIZE blocks that mkfs makes; then the
      operation has used up its reservation but for what that log is short of.
      In any larger log it has used up all of it, and the block is one it has
      logged before: the test comes before absorption. */
  lemma FullReservation(l: Layout, run: seq<State>, k: nat, i: nat, b: nat, data: Block)
    requires IsRunWithin(l, MAXOPBLOCKS, run) && k < |run|
    requires Enabled(l, run[k], LogWrite(i, b, data)) && Within(MAXOPBLOCKS, run[k], LogWrite(i, b, data))
    ensures |run[k].lh| <= Cap(l)
    ensures var halts, o := Do(l, run[k], LogWrite(i, b, data)).pc.Halted?, run[k].open[i];
            && (halts <==> |run[k].lh| == Cap(l))
            && (halts ==> MAXOPBLOCKS - |o.blocks| <= LOGSIZE - Cap(l))
            && (halts && LOGSIZE < l.size ==> b in o.blocks)
  {
    FitsRun(l, MAXOPBLOCKS, run, k);
    var s := run[k];
    UnusedOther(s.open, MAXOPBLOCKS, i);
    assert b !in s.open[i].blocks ==> |s.open[i].blocks + {b}| == |s.open[i].blocks| + 1;
  }

  // ----- The bound of NeverTooBig is tight ---------------------------------------------

  lemma Extend(l: Layout, limit: nat, run: seq<State>, step: Step)
    requires IsRunWithin(l, limit, run)
    requires Enabled(l, run[|run| - 1], step) && Within(limit, run[|run| - 1], step)
    ensures IsRunWithin(l, limit, run + [Do(l, run[|run| - 1], step)])
  {
    var run' := run + [Do(l, run[|run| - 1], step)];
    assert NextWithin(l, limit, run[|run| - 1], run'[|run|]);
    assert forall i :: 0 <= i < |run| ==> run'[i] == run[i];
  }

  /** How many of `k` blocks operation `o` logged when three operations take
      ten each in turn. */
  function Share(o: nat, k: nat): nat {
    if k <= 10 * o then 0 else if k <= 10 * o + 10 then k - 10 * o else 10
  }

  /** The blocks `h`, `h + 1`, ... have been logged by three operations in turn. */
  predicate FilledOps(h: nat, open: seq<Op>, k: nat) {
    && |open| == 3
    && (forall o :: 0 <= o < 3 ==> |open[o].blocks| == Share(o, k))
    && (forall o, b :: 0 <= o < 3 && b in open[o].blocks ==> b < h + k)
    && (k > 20 ==> h + k - 1 in open[2].blocks)
  }

  predicate FilledLh(h: nat, lh: seq<int>, k: nat) {
    |lh| == k && forall j :: 0 <= j < k ==> lh[j] == h + j
  }

  predicate Filled(l: Layout, s: State, k: nat) {
    && Sized(l, s) && s.pc == Running && !s.committing && s.outstanding == 3
    && FilledLh(l.start + l.size, s.lh, k) && FilledOps(l.start + l.size, s.open, k)
  }

  /** Boot an empty disk and begin three operations. */
  lemma ThreeOpen(l: Layout) returns (run: seq<State>)
    requires l.Valid()
    ensures IsRunWithin(l, MAXOPBLOCKS, run) && Filled(l, run[|run| - 1], 0)
  {
    var d: Disk := seq(l.blocks, _ => [0]);
    var s := State(d, d, [], 0, false, Boot, [], 0, [], []);
    run := [s];
    HeadRoundTrip(l, d, []);
    Extend(l, MAXOPBLOCKS, run, Advance); run := run + [Do(l, s, Advance)];
    s := run[|run| - 1];
    Extend(l, MAXOPBLOCKS, run, Advance); run := run + [Do(l, s, Advance)];
    s := run[|run| - 1];
    for n := 0 to 3
      invariant IsRunWithin(l, MAXOPBLOCKS, run) && s == run[|run| - 1]
      invariant Sized(l, s) && s.pc == Running && !s.committing && s.lh == [] && s.outstanding == |s.open| == n
      invariant forall o :: 0 <= o < n ==> s.open[o].blocks == {}
    {
      Extend(l, MAXOPBLOCKS, run, BeginOp); run := run + [Do(l, s, BeginOp)];
      s := run[|run| - 1];
    }
  }

  lemma FillOps(h: nat, open: seq<Op>, k: nat, o: nat, b: nat)
    requires k < LOGSIZE && FilledOps(h, open, k) && o == k / 10 && b == h + k
    ensures o < 3 && |open[o].blocks + {b}| <= MAXOPBLOCKS
    ensures FilledOps(h, open[o := open[o].(blocks := open[o].blocks + {b})], k + 1)
  {
    assert o < 3 && b !in open[o].blocks;
    assert |open[o].blocks + {b}| == Share(o, k) + 1 == Share(o, k + 1);
  }

  lemma FillLh(l: Layout, lh: seq<int>, k: nat)
    requires l.start + l.size + LOGSIZE <= l.blocks && k < LOGSIZE && k < l.size - 1
    requires FilledLh(l.start + l.size, lh, k) && LhOk(l, lh)
    ensures var b := l.start + l.size + k;
            b !in lh && l.Home(b) && FilledLh(l.start + l.size, lh + [b], k + 1) && LhOk(l, lh + [b])
  {
  }

  predicate Fills(l: Layout, s: State, step: Step, k: nat) {
    Enabled(l, s, step) && Within(MAXOPBLOCKS, s, step) && Filled(l, Do(l, s, step), k + 1)
  }

  lemma FillStep(l: Layout, s: State, k: nat, o: nat, b: nat)
    requires k < LOGSIZE && k < l.size - 1 && Filled(l, s, k) && o < 3 && b !in s.lh && l.Home(b)
    requires |s.open[o].blocks + {b}| <= MAXOPBLOCKS && LhOk(l, s.lh + [b])
    requires FilledLh(l.start + l.size, s.lh + [b], k + 1)
    requires FilledOps(l.start + l.size, s.open[o := s.open[o].(blocks := s.open[o].blocks + {b})], k + 1)
    ensures Fills(l, s, LogWrite(o, b, []), k)
  {
  }

  lemma FillOne(l: Layout, s: State, k: nat) returns (step: Step)
    requires LOGSIZE <= l.size && l.start + l.size + LOGSIZE <= l.blocks
    requires k < LOGSIZE && k < l.size - 1 && Filled(l, s, k)
    ensures Fills(l, s, step, k)
  {
    var o, b := k / 10, l.start + l.size + k;
    FillLh(l, s.lh, k);
    FillOps(l.start + l.size, s.open, k, o, b);
    FillStep(l, s, k, o, b);
    step := LogWrite(o, b, []);
  }

  /** Operations that use all ten reserved blocks can panic the kernel: with
      `log.size == LOGSIZE` on a new block, with any larger log on a block
      that would have been absorbed. */
  lemma TooBigReachable(l: Layout) returns (run: seq<State>)
    requires LOGSIZE <= l.size && l.start + l.size + LOGSIZE <= l.blocks
    ensures IsRunWithin(l, MAXOPBLOCKS, run)
    ensures run[|run| - 1].pc == Halted(TooBigTransaction)
  {
    run := ThreeOpen(l);
    var cap := if LOGSIZE < l.size then LOGSIZE else LOGSIZE - 1;
    for k := 0 to cap
      invariant IsRunWithin(l, MAXOPBLOCKS, run) && Filled(l, run[|run| - 1], k)
    {
      var step := FillOne(l, run[|run| - 1], k);
      Extend(l, MAXOPBLOCKS, run, step);
      run := run + [Do(l, run[|run| - 1], step)];
    }
    var s, b := run[|run| - 1], l.start + l.size + 29;
    assert b in s.open[2].blocks ==> s.open[2].blocks + {b} == s.open[2].blocks;
    Extend(l, MAXOPBLOCKS, run, LogWrite(2, b, []));
    run := run + [Do(l, s, LogWrite(2, b, []))];
  }
}
