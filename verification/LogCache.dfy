/** The log on top of the buffer cache.  The log machine reads and writes through a
    cache that holds every block; kernel/bio.c has NBUF buffers and evicts.  Here
    the two meet: as long as every change to a buffer is followed by log_write or
    bwrite, bread returns what the machine's cache holds, across evictions,
    commits, recoveries and crashes.  Every method is one step under a lock, and
    other processes may hold other buffers, changed or not, meanwhile. */
module LogCache {
  import opened Common
  import opened BufferList
  import opened BufferCache
  import M = LogMachine
  import LogSafety

  /** The buffer cache as a value. */
  datatype Buffers = Buffers(buf: seq<Buf>, use: seq<Use>, disk: M.Disk, store: M.Disk, stray: set<nat>) {
    predicate Ok() { BufferCache.CacheOk(buf, use, disk, store, stray) }
  }

  /** Somebody has the sleep lock of the buffer of block `b`. */
  predicate Locked(v: Buffers, b: nat) {
    exists j :: 0 <= j < |v.buf| && j < |v.use| && Is(v.buf[j], b) && v.use[j].holder.Some?
  }

  /** The block is as the machine has it, unless somebody is changing it. */
  predicate Agreed(v: Buffers, s: M.State, b: nat)
    requires b < |v.store| == |s.cache|
  {
    v.store[b] == s.cache[b] || Locked(v, b)
  }

  /** The blocks that log_write has pinned and install_trans not yet unpinned. */
  function Pinned(s: M.State): seq<int> {
    match s.pc
    case Install(t) => if t <= |s.lh| then s.lh[t..] else []
    case ClearHead => []
    case Finish => []
    case Boot => []
    case Reinstall(_) => []
    case Reclear => []
    case _ => s.lh
  }

  predicate PinOk(b: Buf, u: Use, s: M.State) {
    u.pins == if b.dev == ROOTDEV && b.blockno in Pinned(s) then 1 else 0
  }

  predicate Cached(v: Buffers, b: int) {
    exists j :: 0 <= j < |v.buf| && v.buf[j].dev == ROOTDEV && v.buf[j].blockno == b
  }

  /** The buffer cache and the log machine fit together. */
  ghost predicate Joined(v: Buffers, s: M.State) {
    && |v.buf| == |v.use| == NBUF && v.disk == s.disk && |v.store| == |s.cache| && v.stray == {}
    && (forall b :: 0 <= b < |v.store| ==> Agreed(v, s, b))
    && (forall j :: 0 <= j < NBUF ==> PinOk(v.buf[j], v.use[j], s))
    && (forall k :: 0 <= k < |Pinned(s)| ==> Cached(v, Pinned(s)[k]))
  }

  // ----- What the machine says about its cache -------------------------------------------

  /** A block that is not pinned is the same in the cache and on disk. */
  lemma Settled(l: M.Layout, base: M.Disk, s: M.State, b: nat)
    requires LogSafety.Inv(l, base, s) && b < l.blocks && b !in Pinned(s)
    ensures b < |s.cache| == |s.disk| && s.cache[b] == s.disk[b]
  {
    if b in s.lh {
      var j :| 0 <= j < |s.lh| && s.lh[j] == b;
    }
  }

  predicate Writes(pc: M.Pc) {
    pc.WriteLog? || pc.WriteHead? || pc.Install? || pc.ClearHead? || pc.Reinstall? || pc.Reclear?
  }

  /** The block that the next step of a commit or recovery writes, and what. */
  function Target(l: M.Layout, s: M.State): int
    requires M.Enabled(l, s, M.Advance) && Writes(s.pc)
  {
    match s.pc
    case WriteLog(t) => l.start + 1 + t
    case Install(t) => s.lh[t]
    case Reinstall(t) => s.lh[t]
    case _ => l.start
  }

  function Data(l: M.Layout, s: M.State): M.Block
    requires M.Enabled(l, s, M.Advance) && Writes(s.pc)
  {
    match s.pc
    case WriteLog(t) => s.cache[s.lh[t]]
    case Install(t) => s.cache[l.start + 1 + t]
    case Reinstall(t) => s.cache[l.start + 1 + t]
    case WriteHead => M.EncodeHead(s.cache[l.start], s.lh)
    case _ => M.EncodeHead(s.cache[l.start], [])
  }

  lemma AdvanceWrites(l: M.Layout, s: M.State)
    requires M.Enabled(l, s, M.Advance) && Writes(s.pc)
    ensures 0 <= Target(l, s) < l.blocks == |s.disk| == |s.cache|
    ensures var s' := M.Do(l, s, M.Advance);
            && s'.disk == s.disk[Target(l, s) := Data(l, s)] && s'.cache == s.cache[Target(l, s) := Data(l, s)]
            && Pinned(s') == if s.pc.Install? then Pinned(s)[1..] else Pinned(s)
    ensures s.pc.Install? ==> Pinned(s) != [] && Pinned(s)[0] == Target(l, s)
  {
    if s.pc.Install? {
      var t := s.pc.tail;
      assert s.lh[t..][1..] == s.lh[t + 1..];
      assert t + 1 == |s.lh| ==> s.lh[t + 1..] == [];
    }
  }

  /** Installing a block takes exactly that one off the list of pinned blocks. */
  lemma PinsAfter(l: M.Layout, s: M.State, s': M.State)
    requires M.Enabled(l, s, M.Advance) && Writes(s.pc) && s' == M.Do(l, s, M.Advance)
    ensures forall b :: b != Target(l, s) ==> (b in Pinned(s') <==> b in Pinned(s))
    ensures Target(l, s) in Pinned(s') <==> Target(l, s) in Pinned(s) && !s.pc.Install?
  {
    AdvanceWrites(l, s);
    if s.pc.Install? {
      var p := Pinned(s);
      assert p == [p[0]] + p[1..];
      assert p[0] !in p[1..];
    }
  }

  /** What a turn of `write_log` and one of `install_trans` copy. */
  lemma TurnCopies(l: M.Layout, s: M.State, tail: nat)
    requires M.Sized(l, s) && tail < |s.lh|
    requires s.pc == M.WriteLog(tail) || s.pc == M.Install(tail) || s.pc == M.Reinstall(tail)
    ensures var home, log := s.lh[tail], l.start + tail + 1;
            && M.Enabled(l, s, M.Advance) && Writes(s.pc) && 0 <= home < |s.cache| && log < |s.cache| && home != log
            && Target(l, s) == (if s.pc.WriteLog? then log else home)
            && Data(l, s) == s.cache[if s.pc.WriteLog? then home else log]
  {
    assert l.Home(s.lh[tail]);
  }

  lemma HeadWrites(l: M.Layout, s: M.State)
    requires M.Sized(l, s) && (s.pc.WriteHead? || s.pc.ClearHead? || s.pc.Reclear?)
    ensures M.Enabled(l, s, M.Advance) && Writes(s.pc) && Target(l, s) == l.start < |s.cache|
    ensures Data(l, s) == M.EncodeHead(s.cache[l.start], if s.pc.WriteHead? then s.lh else [])
  {
  }

  // ----- Steps of the buffer cache alone ---------------------------------------------------

  lemma StillCached(v: Buffers, v': Buffers, b: int)
    requires Cached(v, b) && |v'.buf| == |v.buf|
    requires forall j :: 0 <= j < |v.buf| && v.buf[j].dev == ROOTDEV && v.buf[j].blockno == b ==>
               v'.buf[j].dev == ROOTDEV && v'.buf[j].blockno == b
    ensures Cached(v', b)
  {
    var j :| 0 <= j < |v.buf| && v.buf[j].dev == ROOTDEV && v.buf[j].blockno == b;
    assert v'.buf[j].dev == ROOTDEV && v'.buf[j].blockno == b;
  }

  /** Locks may be taken, references come and go, and buffers be filled. */
  lemma SameJoined(v: Buffers, v': Buffers, s: M.State)
    requires Joined(v, s) && |v'.buf| == |v'.use| == NBUF
    requires v'.disk == v.disk && v'.store == v.store && v'.stray == v.stray
    requires forall j :: 0 <= j < NBUF ==> v'.buf[j].dev == v.buf[j].dev && v'.buf[j].blockno == v.buf[j].blockno
    requires forall j :: 0 <= j < NBUF ==>
               v'.use[j].pins == v.use[j].pins && (v.use[j].holder.Some? ==> v'.use[j].holder.Some?)
    ensures Joined(v', s)
  {
    forall b | 0 <= b < |v'.store| ensures Agreed(v', s, b) {
      assert Agreed(v, s, b);
      if Locked(v, b) {
        var j :| 0 <= j < NBUF && Is(v.buf[j], b) && v.use[j].holder.Some?;
        assert Is(v'.buf[j], b) && v'.use[j].holder.Some?;
      }
    }
    forall j | 0 <= j < NBUF ensures PinOk(v'.buf[j], v'.use[j], s) { assert PinOk(v.buf[j], v.use[j], s); }
    forall k | 0 <= k < |Pinned(s)| ensures Cached(v', Pinned(s)[k]) { StillCached(v, v', Pinned(s)[k]); }
  }

  /** An unused buffer, which is not pinned, is recycled. */
  lemma RecycleJoined(v: Buffers, v': Buffers, s: M.State, i: nat, blockno: nat, b: Buf, u: Use)
    requires Joined(v, s) && v.Ok() && i < NBUF && v.buf[i].refcnt == 0
    requires forall j :: 0 <= j < NBUF ==> !Is(v.buf[j], blockno)
    requires b.dev == ROOTDEV && b.blockno == blockno && u.pins == 0
    requires v' == v.(buf := v.buf[i := b], use := v.use[i := u])
    ensures Joined(v', s)
  {
    assert BufOk(v.buf[i], v.use[i], v.disk, v.store, v.stray) && PinOk(v.buf[i], v.use[i], s);
    forall k | 0 <= k < |Pinned(s)| ensures Cached(v', Pinned(s)[k]) && Pinned(s)[k] != blockno {
      assert Cached(v, Pinned(s)[k]);
      StillCached(v, v', Pinned(s)[k]);
    }
    forall x | 0 <= x < |v'.store| ensures Agreed(v', s, x) {
      assert Agreed(v, s, x);
      if Locked(v, x) {
        var j :| 0 <= j < NBUF && Is(v.buf[j], x) && v.use[j].holder.Some?;
        assert j != i && Is(v'.buf[j], x);
      }
    }
    forall j | 0 <= j < NBUF ensures PinOk(v'.buf[j], v'.use[j], s) { assert PinOk(v.buf[j], v.use[j], s); }
  }

  /** A block that nobody has locked reads as the machine has it. */
  lemma ReadsCache(v: Buffers, s: M.State, b: nat)
    requires Joined(v, s) && b < |v.store|
    requires forall j :: 0 <= j < NBUF && Is(v.buf[j], b) ==> v.use[j].holder.None?
    ensures v.store[b] == s.cache[b]
  {
    assert Agreed(v, s, b);
  }

  /** The holder of the lock changes the buffer. */
  lemma StoreJoined(v: Buffers, v': Buffers, s: M.State, i: nat, data: M.Block)
    requires Joined(v, s) && i < NBUF && v.buf[i].dev == ROOTDEV && v.buf[i].blockno < |v.store|
    requires v.use[i].holder.Some?
    requires v' == v.(buf := v.buf[i := v.buf[i].(data := data)], store := v.store[v.buf[i].blockno := data])
    ensures Joined(v', s)
  {
    forall b | 0 <= b < |v'.store| ensures Agreed(v', s, b) {
      assert Agreed(v, s, b);
      if b == v.buf[i].blockno {
        assert Is(v'.buf[i], b) && v'.use[i].holder.Some?;
      } else if Locked(v, b) {
        var j :| 0 <= j < NBUF && Is(v.buf[j], b) && v.use[j].holder.Some?;
        assert Is(v'.buf[j], b) && v'.use[j].holder.Some?;
      }
    }
    forall j | 0 <= j < NBUF ensures PinOk(v'.buf[j], v'.use[j], s) { assert PinOk(v.buf[j], v.use[j], s); }
    forall k | 0 <= k < |Pinned(s)| ensures Cached(v', Pinned(s)[k]) { StillCached(v, v', Pinned(s)[k]); }
  }

  /** A buffer that is as the machine has it is given back, and is not a stray one. */
  lemma NotStrayed(l: M.Layout, base: M.Disk, v: Buffers, s: M.State, i: nat)
    requires LogSafety.Inv(l, base, s) && Joined(v, s) && v.Ok() && i < NBUF
    requires v.buf[i].dev == ROOTDEV && v.buf[i].valid && v.buf[i].blockno < |s.cache|
    requires v.buf[i].data == s.cache[v.buf[i].blockno]
    ensures GivenBack(v.stray, v.buf[i], v.disk, v.use[i].pins > 0) == {}
  {
    assert PinOk(v.buf[i], v.use[i], s);
    if v.use[i].pins == 0 { Settled(l, base, s, v.buf[i].blockno); }
  }

  lemma ReleaseJoined(v: Buffers, v': Buffers, s: M.State, i: nat, b: Buf, u: Use)
    requires Joined(v, s) && i < NBUF && v.buf[i].blockno < |s.cache|
    requires v.store[v.buf[i].blockno] == s.cache[v.buf[i].blockno]
    requires v' == v.(buf := v.buf[i := b], use := v.use[i := u])
    requires u.pins == v.use[i].pins && b.dev == v.buf[i].dev && b.blockno == v.buf[i].blockno
    ensures Joined(v', s)
  {
    forall x | 0 <= x < |v'.store| ensures Agreed(v', s, x) {
      assert Agreed(v, s, x);
      if x != b.blockno && Locked(v, x) {
        var j :| 0 <= j < NBUF && Is(v.buf[j], x) && v.use[j].holder.Some?;
        assert Is(v'.buf[j], x) && v'.use[j].holder.Some?;
      }
    }
    forall j | 0 <= j < NBUF ensures PinOk(v'.buf[j], v'.use[j], s) { assert PinOk(v.buf[j], v.use[j], s); }
    forall k | 0 <= k < |Pinned(s)| ensures Cached(v', Pinned(s)[k]) { StillCached(v, v', Pinned(s)[k]); }
  }

  // ----- Steps of both -----------------------------------------------------------------------

  /** The pins of buffer `i` become those that `s'` wants, the others keep theirs. */
  ghost predicate Repinned(v: Buffers, v': Buffers, s: M.State, s': M.State, i: nat)
    requires |v.buf| == |v.use| == NBUF && i < NBUF
  {
    && |v'.buf| == |v'.use| == NBUF
    && (forall j :: 0 <= j < NBUF ==> v'.buf[j].dev == v.buf[j].dev && v'.buf[j].blockno == v.buf[j].blockno)
    && (forall j :: 0 <= j < NBUF ==> v'.use[j].holder == v.use[j].holder)
    && (forall j :: 0 <= j < NBUF && j != i ==> v'.use[j].pins == v.use[j].pins)
    && PinOk(v'.buf[i], v'.use[i], s')
    && (forall b :: b != v.buf[i].blockno ==> (b in Pinned(s') <==> b in Pinned(s)))
  }

  lemma RepinnedOne(v: Buffers, v': Buffers, s: M.State, s': M.State, i: nat, refcnt: nat, pins: nat)
    requires |v.buf| == |v.use| == NBUF && i < NBUF && v.buf[i].dev == ROOTDEV
    requires v'.buf == v.buf[i := v.buf[i].(refcnt := refcnt)] && v'.use == v.use[i := v.use[i].(pins := pins)]
    requires pins == if v.buf[i].blockno in Pinned(s') then 1 else 0
    requires forall b :: b != v.buf[i].blockno ==> (b in Pinned(s') <==> b in Pinned(s))
    ensures Repinned(v, v', s, s', i)
  {
  }

  /** `log_write` gives block `b` the contents of its buffer, and pins exactly it. */
  lemma LogWriteReady(l: M.Layout, base: M.Disk, v: Buffers, s: M.State, i: nat, op: nat)
    requires LogSafety.Inv(l, base, s) && Joined(v, s) && v.Ok() && i < NBUF && v.buf[i].valid
    requires v.buf[i].dev == ROOTDEV && M.Up(s.pc) && op < |s.open| && l.Home(v.buf[i].blockno)
    requires |s.lh| < M.LOGSIZE && |s.lh| < l.size - 1
    ensures var b, step := v.buf[i].blockno, M.LogWrite(op, v.buf[i].blockno, v.buf[i].data);
            && M.Enabled(l, s, step) && b < |v.store| == |s.cache| && v.store[b] == v.buf[i].data
            && var s' := M.Do(l, s, step);
            && s'.disk == s.disk && s'.cache == s.cache[b := v.store[b]] && b in Pinned(s')
            && forall x :: x != b ==> (x in Pinned(s') <==> x in Pinned(s))
    ensures v.use[i].pins == if v.buf[i].blockno in s.lh then 1 else 0
  {
    assert BufOk(v.buf[i], v.use[i], v.disk, v.store, v.stray) && PinOk(v.buf[i], v.use[i], s);
  }

  /** So does the next write of a commit or recovery, which unpins what it installs. */
  lemma AdvanceReady(l: M.Layout, v: Buffers, s: M.State, i: nat)
    requires Joined(v, s) && v.Ok() && i < NBUF && v.buf[i].valid && M.Enabled(l, s, M.Advance) && Writes(s.pc)
    requires Is(v.buf[i], Target(l, s)) && v.buf[i].data == Data(l, s)
    ensures var b, s' := v.buf[i].blockno, M.Do(l, s, M.Advance);
            && b < |v.store| == |v.disk| == |s.cache| && v.store[b] == v.buf[i].data
            && s'.disk == s.disk[b := v.store[b]] && s'.cache == s.cache[b := v.store[b]]
            && (forall x :: x != b ==> (x in Pinned(s') <==> x in Pinned(s)))
            && v.use[i].pins == (if s.pc.Install? || b in Pinned(s') then 1 else 0)
            && (s.pc.Install? ==> b !in Pinned(s'))
  {
    assert BufOk(v.buf[i], v.use[i], v.disk, v.store, v.stray) && PinOk(v.buf[i], v.use[i], s);
    AdvanceWrites(l, s);
    PinsAfter(l, s, M.Do(l, s, M.Advance));
  }

  /** A step of the machine that gives block `b`, whose buffer `i` somebody has
      locked, the contents of the buffer, and touches no other block. */
  lemma StepJoined(v: Buffers, v': Buffers, s: M.State, s': M.State, i: nat)
    requires Joined(v, s) && v.Ok() && i < NBUF && v.buf[i].dev == ROOTDEV && v.buf[i].blockno < |s.cache|
    requires Repinned(v, v', s, s', i) && v'.store == v.store && v'.stray == {} && v'.disk == s'.disk
    requires s'.cache == s.cache[v.buf[i].blockno := v.store[v.buf[i].blockno]]
    ensures Joined(v', s')
  {
    forall x | 0 <= x < |v'.store| ensures Agreed(v', s', x) {
      assert Agreed(v, s, x);
      if x != v.buf[i].blockno && Locked(v, x) {
        var j :| 0 <= j < NBUF && Is(v.buf[j], x) && v.use[j].holder.Some?;
        assert Is(v'.buf[j], x) && v'.use[j].holder.Some?;
      }
    }
    forall j | 0 <= j < NBUF ensures PinOk(v'.buf[j], v'.use[j], s') { assert PinOk(v.buf[j], v.use[j], s); }
    forall k | 0 <= k < |Pinned(s')| ensures Cached(v', Pinned(s')[k]) {
      var b := Pinned(s')[k];
      if b == v.buf[i].blockno {
        assert v'.buf[i].dev == ROOTDEV && v'.buf[i].blockno == b;
      } else {
        assert b in Pinned(s);
        StillCached(v, v', b);
      }
    }
  }

  lemma LogWriteJoined(l: M.Layout, base: M.Disk, v: Buffers, v': Buffers, s: M.State, i: nat, op: nat, isNew: bool,
                       step: M.Step)
    requires LogSafety.Inv(l, base, s) && Joined(v, s) && v.Ok() && i < NBUF && v.buf[i].valid
    requires v.buf[i].dev == ROOTDEV && M.Up(s.pc) && op < |s.open| && l.Home(v.buf[i].blockno)
    requires |s.lh| < M.LOGSIZE && |s.lh| < l.size - 1 && (isNew <==> v.buf[i].blockno !in s.lh)
    requires |v'.buf| == NBUF && v'.buf == v.buf[i := v.buf[i].(refcnt := v'.buf[i].refcnt)]
    requires v'.use == v.use[i := v.use[i].(pins := v.use[i].pins + if isNew then 1 else 0)]
    requires v'.disk == v.disk && v'.store == v.store && v'.stray == v.stray
    requires step == M.LogWrite(op, v.buf[i].blockno, v.buf[i].data)
    ensures M.Enabled(l, s, step) && LogSafety.Inv(l, base, M.Do(l, s, step)) && Joined(v', M.Do(l, s, step))
  {
    LogWriteReady(l, base, v, s, i, op);
    LogSafety.InvStep(l, base, s, step);
    RepinnedOne(v, v', s, M.Do(l, s, step), i, v'.buf[i].refcnt, v'.use[i].pins);
    StepJoined(v, v', s, M.Do(l, s, step), i);
  }

  lemma SameTwice<T>(a: seq<T>, b: seq<T>, c: seq<T>, i: nat)
    requires i < |a| == |b| == |c| && b == a[i := b[i]] && c == b[i := c[i]]
    ensures c == a[i := c[i]]
  {
  }

  lemma AdvancePinned(l: M.Layout, v: Buffers, s: M.State, s': M.State, i: nat, b: nat)
    requires Joined(v, s) && v.Ok() && i < NBUF && v.buf[i].valid && M.Enabled(l, s, M.Advance) && Writes(s.pc)
    requires Is(v.buf[i], b) && b == Target(l, s) && v.buf[i].data == Data(l, s) && s' == M.Do(l, s, M.Advance)
    ensures b < |s.cache| && s'.cache == s.cache[b := v.buf[i].data]
    ensures s.pc.Install? ==> v.use[i].pins == 1
  {
    AdvanceReady(l, v, s, i);
  }

  lemma AdvanceJoined(l: M.Layout, base: M.Disk, v: Buffers, v': Buffers, s: M.State, s': M.State, i: nat)
    requires LogSafety.Inv(l, base, s) && Joined(v, s) && v.Ok() && i < NBUF && v.buf[i].valid
    requires M.Enabled(l, s, M.Advance) && Writes(s.pc) && s' == M.Do(l, s, M.Advance)
    requires Is(v.buf[i], Target(l, s)) && v.buf[i].data == Data(l, s)
    requires |v'.buf| == NBUF && v'.buf == v.buf[i := v.buf[i].(refcnt := v'.buf[i].refcnt)]
    requires v'.use == v.use[i := v.use[i].(pins := if s.pc.Install? then 0 else v.use[i].pins)]
    requires v'.store == v.store && v'.stray == {} && v.buf[i].blockno < |v.disk|
    requires v'.disk == v.disk[v.buf[i].blockno := v.buf[i].data]
    ensures LogSafety.Inv(l, base, s') && Joined(v', s')
  {
    AdvanceReady(l, v, s, i);
    LogSafety.InvStep(l, base, s, M.Advance);
    RepinnedOne(v, v', s, s', i, v'.buf[i].refcnt, v'.use[i].pins);
    StepJoined(v, v', s, s', i);
  }

  /** A step of the machine that writes nothing. */
  lemma QuietJoined(v: Buffers, s: M.State, s': M.State)
    requires Joined(v, s) && s'.disk == s.disk && s'.cache == s.cache && Pinned(s') == Pinned(s)
    ensures Joined(v, s')
  {
    forall b | 0 <= b < |v.store| ensures Agreed(v, s', b) { assert Agreed(v, s, b); }
    forall j | 0 <= j < NBUF ensures PinOk(v.buf[j], v.use[j], s') { assert PinOk(v.buf[j], v.use[j], s); }
  }

  /** A fresh cache, on the disk that the machine has. */
  lemma FreshJoined(v: Buffers, s: M.State)
    requires |v.buf| == |v.use| == NBUF && v.disk == v.store == s.disk == s.cache && v.stray == {} && Pinned(s) == []
    requires forall j :: 0 <= j < NBUF ==> v.use[j].pins == 0
    ensures Joined(v, s)
  {
  }

  // ----- The code ------------------------------------------------------------

  class LogCache {
    const l: M.Layout
    var bc: BCache
    ghost var base: M.Disk
    ghost var s: M.State

    ghost function View(): Buffers
      reads this, bc
    {
      Buffers(bc.buf, bc.use, bc.disk, bc.store, bc.stray)
    }

    ghost predicate Valid()
      reads this, bc
    {
      bc.Valid() && LogSafety.Inv(l, base, s) && Joined(View(), s)
    }

    /** Process `h` has locked buffer `i`, of block `b`. */
    ghost predicate Holding(i: nat, b: nat, h: nat)
      reads this, bc
    {
      && |bc.buf| == |bc.use| == NBUF && i < NBUF && b < |s.cache|
      && Is(bc.buf[i], b) && bc.buf[i].valid && bc.use[i].holder == Some(h)
    }

    /** Boot on a well-formed image. */
    constructor (l: M.Layout, image: M.Disk)
      requires l.Valid() && |image| == l.blocks && M.HeadOk(l, image)
      ensures Valid() && fresh(bc) && this.l == l && M.Init(l, s) && s.disk == image
    {
      this.l := l;
      bc := new BCache(image);
      s := M.State(image, image, [], 0, false, M.Boot, [], 0, [], []);
      base := M.Recovered(l, image);
      new;
      LogSafety.InvInit(l, s);
      FreshJoined(View(), s);
    }

    /** `bget` up to the sleep lock. */
    method Get(blockno: nat, ghost h: nat) returns (i: nat)
      requires Valid() && blockno < l.blocks && forall j :: 0 <= j < NBUF ==> h !in bc.use[j].refs
      requires forall j :: 0 <= j < NBUF && Is(bc.buf[j], blockno) ==> bc.use[j].holder.None?
      modifies bc
      ensures Valid() && i <= NBUF
      ensures i == HEAD ==> forall j :: 0 <= j < NBUF ==> bc.buf[j].refcnt > 0 && !Is(bc.buf[j], blockno)
      ensures i != HEAD ==> Is(bc.buf[i], blockno) && bc.use[i].holder.None? && h in bc.use[i].refs
      ensures i != HEAD ==> old(bc.use)[i].holder.None? && bc.use[i].refs <= old(bc.use)[i].refs + {h}
      ensures forall j :: 0 <= j < NBUF && j != i ==> bc.buf[j] == old(bc.buf)[j] && bc.use[j] == old(bc.use)[j]
    {
      ghost var v := View();
      assert forall j :: 0 <= j < NBUF ==> BufOk(v.buf[j], v.use[j], v.disk, v.store, v.stray);
      i := bc.Bget(blockno, h);
      if i == HEAD || Is(v.buf[i], blockno) {
        SameJoined(v, View(), s);
      } else {
        RecycleJoined(v, View(), s, i, blockno, bc.buf[i], bc.use[i]);
      }
    }

    /** `acquiresleep` of a lock that is free, and the rest of `bread`. */
    method Lock(i: nat, ghost h: nat) returns (data: M.Block)
      requires Valid() && i < NBUF && h in bc.use[i].refs && bc.use[i].holder.None?
      requires bc.buf[i].dev == ROOTDEV && bc.buf[i].blockno < l.blocks
      modifies bc
      ensures Valid() && Is(bc.buf[i], old(bc.buf)[i].blockno) && bc.buf[i].valid && bc.use[i].holder == Some(h)
      ensures bc.buf[i].blockno < |s.cache| && data == bc.buf[i].data == s.cache[bc.buf[i].blockno]
      ensures bc.use[i].refs == old(bc.use)[i].refs
      ensures forall j :: 0 <= j < NBUF && j != i ==> bc.buf[j] == old(bc.buf)[j] && bc.use[j] == old(bc.use)[j]
    {
      ghost var v := View();
      ReadsCache(v, s, bc.buf[i].blockno);
      bc.Acquire(i, h);
      data := bc.Fill(i, h);
      SameJoined(v, View(), s);
    }

    /** `bread`, once the buffer's sleep lock is free: the contents that the log
        machine's cache has for the block.  HEAD stands for the panic "no
        buffers". */
    method Bread(blockno: nat, ghost h: nat) returns (i: nat, data: M.Block)
      requires Valid() && blockno < l.blocks && forall j :: 0 <= j < NBUF ==> h !in bc.use[j].refs
      requires forall j :: 0 <= j < NBUF && Is(bc.buf[j], blockno) ==> bc.use[j].holder.None?
      modifies bc
      ensures Valid()
      ensures i == HEAD ==> forall j :: 0 <= j < NBUF ==> bc.buf[j].refcnt > 0 && !Is(bc.buf[j], blockno)
      ensures i != HEAD ==> i < NBUF && Is(bc.buf[i], blockno) && bc.buf[i].valid && bc.use[i].holder == Some(h)
      ensures i != HEAD ==> blockno < |s.cache| && data == bc.buf[i].data == s.cache[blockno]
      ensures i != HEAD ==> old(bc.use)[i].holder.None? && bc.use[i].refs <= old(bc.use)[i].refs + {h}
      ensures forall j :: 0 <= j < NBUF && j != i ==> bc.buf[j] == old(bc.buf)[j] && bc.use[j] == old(bc.use)[j]
    {
      data := [];
      i := Get(blockno, h);
      if i != HEAD {
        data := Lock(i, h);
      }
    }

    /** The holder of the lock changes the data. */
    method Modify(i: nat, data: M.Block, ghost h: nat)
      requires Valid() && i < NBUF && bc.use[i].holder == Some(h) && bc.buf[i].valid && bc.buf[i].dev == ROOTDEV
      modifies bc
      ensures Valid() && bc.use == old(bc.use) && bc.buf == old(bc.buf)[i := old(bc.buf)[i].(data := data)]
    {
      ghost var v := View();
      bc.Store(i, data, h);
      StoreJoined(v, View(), s, i, data);
    }

    /** `brelse` of a buffer that holds what the machine has: it was not changed, or
        the change was logged or written. */
    method Release(i: nat, ghost h: nat)
      requires Valid() && i < NBUF && bc.use[i].holder == Some(h) && bc.buf[i].valid && bc.buf[i].dev == ROOTDEV
      requires bc.buf[i].blockno < |s.cache| && bc.buf[i].data == s.cache[bc.buf[i].blockno]
      modifies bc
      ensures Valid()
      ensures bc.use[i].holder.None? && bc.use[i].refs == old(bc.use)[i].refs - {h}
      ensures forall j :: 0 <= j < NBUF && j != i ==> bc.buf[j] == old(bc.buf)[j] && bc.use[j] == old(bc.use)[j]
    {
      ghost var v := View();
      NotStrayed(l, base, v, s, i);
      assert BufOk(v.buf[i], v.use[i], v.disk, v.store, v.stray);
      bc.Brelse(i, h);
      assert bc.use == v.use[i := bc.use[i]];
      ReleaseJoined(v, View(), s, i, bc.buf[i], bc.use[i]);
    }

    /** `bpin`, if the block is new in the header. */
    method Pin(i: nat, isNew: bool, ghost h: nat)
      requires bc.Valid() && i < NBUF && bc.use[i].holder == Some(h) && bc.stray == {}
      modifies bc
      ensures bc.Valid() && bc.stray == {} && bc.store == old(bc.store) && bc.disk == old(bc.disk)
      ensures bc.buf == old(bc.buf)[i := old(bc.buf)[i].(refcnt := bc.buf[i].refcnt)]
      ensures bc.use == old(bc.use)[i := old(bc.use)[i].(pins := old(bc.use)[i].pins + if isNew then 1 else 0)]
    {
      if isNew {
        bc.Bpin(i, h);
      }
    }

    /** `log_write` of a changed buffer, when there is room: `isNew` says that the
        block is not in the header yet. */
    method LogWrite(i: nat, ghost op: nat, isNew: bool, ghost h: nat)
      requires Valid() && i < NBUF && bc.use[i].holder == Some(h) && bc.buf[i].valid && bc.buf[i].dev == ROOTDEV
      requires M.Up(s.pc) && op < |s.open| && l.Home(bc.buf[i].blockno) && (isNew <==> bc.buf[i].blockno !in s.lh)
      requires |s.lh| < M.LOGSIZE && |s.lh| < l.size - 1
      modifies this`s, bc
      ensures Valid() && M.Enabled(l, old(s), M.LogWrite(op, old(bc.buf)[i].blockno, old(bc.buf)[i].data))
      ensures s == M.Do(l, old(s), M.LogWrite(op, old(bc.buf)[i].blockno, old(bc.buf)[i].data))
      ensures bc.buf[i].data == old(bc.buf)[i].data && Is(bc.buf[i], old(bc.buf)[i].blockno) && bc.buf[i].valid
      ensures bc.use[i].holder == Some(h)
      ensures bc.buf == old(bc.buf)[i := bc.buf[i]] && bc.use == old(bc.use)[i := bc.use[i]]
    {
      ghost var v, step := View(), M.LogWrite(op, bc.buf[i].blockno, bc.buf[i].data);
      Pin(i, isNew, h);
      LogWriteJoined(l, base, v, View(), s, i, op, isNew, step);
      s := M.Do(l, s, step);
    }

    /** `bwrite`, and `bunpin` of a block that has been installed. */
    method WriteThrough(i: nat, unpin: bool, ghost h: nat)
      requires bc.Valid() && i < NBUF && bc.use[i].holder == Some(h) && bc.buf[i].valid && bc.stray == {}
      requires unpin ==> bc.use[i].pins == 1
      modifies bc
      ensures bc.Valid() && bc.stray == {} && bc.store == old(bc.store)
      ensures bc.buf[i].blockno < |old(bc.disk)| && bc.disk == old(bc.disk)[bc.buf[i].blockno := bc.buf[i].data]
      ensures bc.buf == old(bc.buf)[i := old(bc.buf)[i].(refcnt := bc.buf[i].refcnt)]
      ensures bc.use == old(bc.use)[i := old(bc.use)[i].(pins := if unpin then 0 else old(bc.use)[i].pins)]
      ensures bc.buf == old(bc.buf)[i := bc.buf[i]] && bc.use == old(bc.use)[i := bc.use[i]]
    {
      bc.Bwrite(i, h);
      if unpin {
        bc.Bunpin(i);
      }
      assert bc.use == old(bc.use)[i := old(bc.use)[i].(pins := if unpin then 0 else old(bc.use)[i].pins)];
    }

    /** `bwrite` by a commit or a recovery: the next write of the machine.  Blocks
        that have been installed are no longer pinned. */
    method WriteBlock(i: nat, installing: bool, ghost b: nat, ghost h: nat)
      requires Valid() && Holding(i, b, h) && M.Enabled(l, s, M.Advance) && Writes(s.pc)
      requires (installing <==> s.pc.Install?) && b == Target(l, s) && bc.buf[i].data == Data(l, s)
      modifies this`s, bc
      ensures Valid() && s == M.Do(l, old(s), M.Advance) && s.cache == old(s).cache[b := old(bc.buf)[i].data]
      ensures Holding(i, b, h) && bc.buf[i].data == old(bc.buf)[i].data
      ensures bc.buf == old(bc.buf)[i := bc.buf[i]] && bc.use == old(bc.use)[i := bc.use[i]]
    {
      ghost var v, s1 := View(), M.Do(l, s, M.Advance);
      AdvancePinned(l, v, s, s1, i, b);
      WriteThrough(i, installing, h);
      AdvanceJoined(l, base, v, View(), s, s1, i);
      s := s1;
    }

    /** Process `h` has no buffer, and nobody has that of block `b` locked. */
    ghost predicate Ready(b: nat, h: nat)
      reads this, bc
      requires |bc.buf| == |bc.use| == NBUF
    {
      && b < l.blocks && (forall j :: 0 <= j < NBUF ==> h !in bc.use[j].refs)
      && forall j :: 0 <= j < NBUF && Is(bc.buf[j], b) ==> bc.use[j].holder.None?
    }

    /** Put `data` into a buffer and write it, which is the machine's next step. */
    method Put(i: nat, data: M.Block, installing: bool, ghost b: nat, ghost h: nat)
      requires Valid() && Holding(i, b, h) && M.Enabled(l, s, M.Advance) && Writes(s.pc)
      requires (installing <==> s.pc.Install?) && b == Target(l, s) && data == Data(l, s)
      modifies this`s, bc
      ensures Valid() && s == M.Do(l, old(s), M.Advance) && s.cache == old(s).cache[b := data]
      ensures Holding(i, b, h) && bc.buf[i].data == data
      ensures bc.buf == old(bc.buf)[i := bc.buf[i]] && bc.use == old(bc.use)[i := bc.use[i]]
    {
      Modify(i, data, h);
      ghost var was := bc.buf;
      WriteBlock(i, installing, b, h);
      SameTwice(old(bc.buf), was, bc.buf, i);
    }

    /** The buffers of two blocks. */
    method TwoBreads(b1: nat, b2: nat, ghost h1: nat, ghost h2: nat) returns (i1: nat, i2: nat, ok: bool)
      requires Valid() && h1 != h2 && b1 != b2 && Ready(b1, h1) && Ready(b2, h2)
      modifies bc
      ensures Valid()
      ensures ok ==> Holding(i1, b1, h1) && Holding(i2, b2, h2) && i1 != i2
      ensures ok ==> bc.buf[i1].data == s.cache[b1] && bc.buf[i2].data == s.cache[b2]
    {
      var data;
      i2, ok := HEAD, false;
      i1, data := Bread(b1, h1);
      if i1 != HEAD {
        i2, data := Bread(b2, h2);
        ok := i2 != HEAD;
      }
    }

    /** memmove from one buffer to the other, bwrite, and brelse of both. */
    method Copy(src: nat, dst: nat, installing: bool, ghost b1: nat, ghost b2: nat, ghost h1: nat, ghost h2: nat)
      requires Valid() && Holding(src, b1, h1) && Holding(dst, b2, h2) && src != dst && b1 != b2
      requires M.Enabled(l, s, M.Advance) && Writes(s.pc) && (installing <==> s.pc.Install?)
      requires bc.buf[src].data == s.cache[b1] == Data(l, s) && b2 == Target(l, s)
      modifies this`s, bc
      ensures Valid() && s == M.Do(l, old(s), M.Advance)
    {
      Put(dst, bc.buf[src].data, installing, b2, h2);
      Release(src, h1);
      Release(dst, h2);
    }

    /** A turn of the loop of `write_log` or of `install_trans`, by `TurnCopies`;
        `false` means a panic for want of buffers.  `h1` and `h2` stand for the two
        references of the process. */
    method CopyBlock(from: nat, to: nat, installing: bool, ghost h1: nat, ghost h2: nat) returns (ok: bool)
      requires Valid() && M.Enabled(l, s, M.Advance) && Writes(s.pc) && (installing <==> s.pc.Install?)
      requires from < |s.cache| && from != to == Target(l, s) && Data(l, s) == s.cache[from]
      requires h1 != h2 && Ready(from, h1) && Ready(to, h2)
      modifies this`s, bc
      ensures Valid() && s == if ok then M.Do(l, old(s), M.Advance) else old(s)
    {
      var src, dst;
      src, dst, ok := TwoBreads(from, to, h1, h2);
      if ok {
        Copy(src, dst, installing, from, to, h1, h2);
      }
    }

    /** Change a buffer, write it, and give it back. */
    method WriteOut(i: nat, data: M.Block, ghost b: nat, ghost h: nat)
      requires Valid() && Holding(i, b, h) && M.Enabled(l, s, M.Advance) && Writes(s.pc) && !s.pc.Install?
      requires b == Target(l, s) && data == Data(l, s)
      modifies this`s, bc
      ensures Valid() && s == M.Do(l, old(s), M.Advance)
    {
      Put(i, data, false, b, h);
      Release(i, h);
    }

    /** `write_head` of the header `lh`, by `HeadWrites`, to commit or to clear. */
    method WriteHead(lh: seq<int>, ghost h: nat) returns (ok: bool)
      requires Valid() && Ready(l.start, h) && M.Enabled(l, s, M.Advance) && Writes(s.pc) && !s.pc.Install?
      requires Target(l, s) == l.start < |s.cache| && Data(l, s) == M.EncodeHead(s.cache[l.start], lh)
      modifies this`s, bc
      ensures Valid() && s == if ok then M.Do(l, old(s), M.Advance) else old(s)
    {
      var i, data := Bread(l.start, h);
      ok := i != HEAD;
      if ok {
        WriteOut(i, M.EncodeHead(data, lh), l.start, h);
      }
    }

    /** A step of the machine that neither reads nor writes a block. */
    ghost method Quiet(step: M.Step)
      requires Valid() && M.Enabled(l, s, step)
      requires step.BeginOp? || step.EndOp? || (step.Advance? && !Writes(s.pc))
      modifies this`s
      ensures Valid() && s == M.Do(l, old(s), step)
    {
      LogSafety.InvStep(l, base, s, step);
      QuietJoined(View(), s, M.Do(l, s, step));
      s := M.Do(l, s, step);
    }

    /** Power failure and reboot: the buffers are gone. */
    method Crash()
      requires Valid()
      modifies this
      ensures Valid() && fresh(bc) && M.Enabled(l, old(s), M.Crash) && s == M.Do(l, old(s), M.Crash)
    {
      LogSafety.InvStep(l, base, s, M.Crash);
      s := M.Do(l, s, M.Crash);
      bc := new BCache(bc.disk);
      FreshJoined(View(), s);
    }
  }
}
