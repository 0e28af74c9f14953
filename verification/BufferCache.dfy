/** The buffer cache of kernel/bio.c.  Every method is one atomic step, under
    `bcache.lock` or under the sleep lock of one buffer, so that any order of
    calls is an interleaving of processes.  Ghost state says who uses each
    buffer and what the disk blocks are meant to hold. */
module BufferCache {
  import opened Common
  import opened BufferList
  import M = LogMachine

  const ROOTDEV := 1

  datatype Buf = Buf(dev: nat, blockno: nat, valid: bool, refcnt: nat, data: M.Block)

  /** Who uses a buffer: `refs` have called bget and not yet brelse, `holder`
      has its sleep lock, `pins` counts bpin without bunpin, `stamp` is when
      brelse last moved it to the front. */
  datatype Use = Use(refs: set<nat>, holder: Option<nat>, pins: nat, stamp: nat)

  predicate Dirty(b: Buf, disk: M.Disk) { b.valid && b.blockno < |disk| && b.data != disk[b.blockno] }

  predicate BufOk(b: Buf, u: Use, disk: M.Disk, store: M.Disk, stray: set<nat>) {
    && b.refcnt == |u.refs| + u.pins
    && (u.holder.Some? ==> u.holder.value in u.refs)
    && (b.dev == 0 || b.dev == ROOTDEV)
    && (b.dev == 0 ==> !b.valid && b.refcnt == 0)
    && (b.dev == ROOTDEV ==> b.blockno < |disk| == |store|)
    && (b.valid ==> b.blockno < |store| && b.data == store[b.blockno])
    && (Dirty(b, disk) ==> u.holder.Some? || u.pins > 0 || b.blockno in stray)
  }

  predicate Is(b: Buf, blockno: nat) { b.dev == ROOTDEV && b.blockno == blockno }

  predicate Unique(buf: seq<Buf>) {
    forall i, j :: 0 <= i < |buf| && 0 <= j < |buf| && i != j && buf[i].dev == ROOTDEV && buf[j].dev == ROOTDEV ==>
      buf[i].blockno != buf[j].blockno
  }

  /** A block whose latest contents are not on disk is in a valid buffer. */
  predicate Backed(buf: seq<Buf>, disk: M.Disk, store: M.Disk, b: nat)
    requires b < |disk| == |store|
  {
    disk[b] != store[b] ==> exists i :: 0 <= i < |buf| && Is(buf[i], b) && buf[i].valid
  }

  predicate CacheOk(buf: seq<Buf>, use: seq<Use>, disk: M.Disk, store: M.Disk, stray: set<nat>) {
    && |buf| == |use| == NBUF && |disk| == |store|
    && (forall i :: 0 <= i < NBUF ==> BufOk(buf[i], use[i], disk, store, stray))
    && Unique(buf)
    && (forall b :: 0 <= b < |disk| ==> Backed(buf, disk, store, b))
  }

  /** What the blocks hold once buffer `b` is gone: its own block what is on disk. */
  function Evicted(b: Buf, disk: M.Disk, store: M.Disk): M.Disk {
    if b.valid && b.blockno < |disk| == |store| then store[b.blockno := disk[b.blockno]] else store
  }

  /** The stray blocks once nobody holds buffer `b`: it is `kept` if it is pinned. */
  function GivenBack(stray: set<nat>, b: Buf, disk: M.Disk, kept: bool): set<nat> {
    if Dirty(b, disk) && !kept then stray + {b.blockno} else stray
  }

  /** Nearer the front means moved there later. */
  predicate Recent(cyc: seq<nat>, use: seq<Use>, clock: nat) {
    && |cyc| == NBUF + 1 && |use| == NBUF
    && (forall k :: 0 < k <= NBUF ==> cyc[k] < NBUF && use[cyc[k]].stamp <= clock)
    && (forall j, k :: 0 < j < k <= NBUF ==> use[cyc[k]].stamp <= use[cyc[j]].stamp)
  }

  // ----- One step, on values --------------------------------------------------------------

  /** A change of one buffer that keeps its block, its validity and its data. */
  lemma SameBlocks(buf: seq<Buf>, use: seq<Use>, disk: M.Disk, store: M.Disk, stray: set<nat>, i: nat, b: Buf, u: Use)
    requires CacheOk(buf, use, disk, store, stray)
    requires i < NBUF && b == buf[i].(refcnt := b.refcnt) && BufOk(b, u, disk, store, stray)
    ensures CacheOk(buf[i := b], use[i := u], disk, store, stray)
  {
    var buf', use' := buf[i := b], use[i := u];
    forall k | 0 <= k < NBUF ensures BufOk(buf'[k], use'[k], disk, store, stray) {
      assert BufOk(buf[k], use[k], disk, store, stray);
    }
    forall x | 0 <= x < |disk| ensures Backed(buf', disk, store, x) {
      assert Backed(buf, disk, store, x);
      if disk[x] != store[x] {
        var k :| 0 <= k < |buf| && Is(buf[k], x) && buf[k].valid;
        assert Is(buf'[k], x) && buf'[k].valid;
      }
    }
  }

  lemma Referenced(buf: seq<Buf>, use: seq<Use>, disk: M.Disk, store: M.Disk, stray: set<nat>, i: nat, h: nat)
    requires CacheOk(buf, use, disk, store, stray) && i < NBUF && h !in use[i].refs && buf[i].dev == ROOTDEV
    ensures CacheOk(buf[i := buf[i].(refcnt := buf[i].refcnt + 1)], use[i := use[i].(refs := use[i].refs + {h})],
                    disk, store, stray)
  {
    var b := buf[i].(refcnt := buf[i].refcnt + 1);
    SameBlocks(buf, use, disk, store, stray, i, b, use[i].(refs := use[i].refs + {h}));
  }

  lemma MoreStray(buf: seq<Buf>, use: seq<Use>, disk: M.Disk, store: M.Disk, stray: set<nat>, more: set<nat>)
    requires CacheOk(buf, use, disk, store, stray) && stray <= more
    ensures CacheOk(buf, use, disk, store, more)
  {
    forall k | 0 <= k < NBUF ensures BufOk(buf[k], use[k], disk, store, more) {
      assert BufOk(buf[k], use[k], disk, store, stray);
    }
  }

  /** A block whose buffer is held, pinned or clean is no stray one. */
  lemma NotStray(buf: seq<Buf>, use: seq<Use>, disk: M.Disk, store: M.Disk, stray: set<nat>, i: nat)
    requires CacheOk(buf, use, disk, store, stray) && i < NBUF && buf[i].dev == ROOTDEV
    requires Dirty(buf[i], disk) ==> use[i].holder.Some? || use[i].pins > 0
    ensures CacheOk(buf, use, disk, store, stray - {buf[i].blockno})
  {
    forall k | 0 <= k < NBUF ensures BufOk(buf[k], use[k], disk, store, stray - {buf[i].blockno}) {
      assert BufOk(buf[k], use[k], disk, store, stray);
      assert k == i || buf[k].dev == 0 || buf[k].blockno != buf[i].blockno;
    }
  }

  /** An unused buffer whose block is not a stray one holds nothing that is not on
      disk, so evicting it loses nothing. */
  lemma CleanEvicted(buf: seq<Buf>, use: seq<Use>, disk: M.Disk, store: M.Disk, stray: set<nat>, i: nat)
    requires CacheOk(buf, use, disk, store, stray) && i < NBUF && buf[i].refcnt == 0
    ensures |Evicted(buf[i], disk, store)| == |store|
    ensures buf[i].blockno !in stray ==> Evicted(buf[i], disk, store) == store
  {
    assert BufOk(buf[i], use[i], disk, store, stray);
  }

  /** Evicting an unused buffer: every block still holds what was last stored in
      it, but for that of the buffer if it is a stray one. */
  lemma Recycled(buf: seq<Buf>, use: seq<Use>, disk: M.Disk, store: M.Disk, stray: set<nat>, i: nat, blockno: nat,
                 h: nat)
    requires CacheOk(buf, use, disk, store, stray) && i < NBUF && buf[i].refcnt == 0 && blockno < |disk|
    requires forall j :: 0 <= j < NBUF ==> !Is(buf[j], blockno)
    ensures buf[i].blockno !in stray ==> Evicted(buf[i], disk, store) == store
    ensures CacheOk(buf[i := Buf(ROOTDEV, blockno, false, 1, buf[i].data)], use[i := Use({h}, None, 0, use[i].stamp)],
                    disk, Evicted(buf[i], disk, store), if buf[i].valid then stray - {buf[i].blockno} else stray)
  {
    CleanEvicted(buf, use, disk, store, stray, i);
    var store', stray' := Evicted(buf[i], disk, store), if buf[i].valid then stray - {buf[i].blockno} else stray;
    var buf', use' := buf[i := Buf(ROOTDEV, blockno, false, 1, buf[i].data)], use[i := Use({h}, None, 0, use[i].stamp)];
    assert BufOk(buf[i], use[i], disk, store, stray);
    forall k | 0 <= k < NBUF ensures BufOk(buf'[k], use'[k], disk, store', stray') {
      assert BufOk(buf[k], use[k], disk, store, stray);
      assert k == i || buf[k].dev == 0 || buf[i].dev == 0 || buf[k].blockno != buf[i].blockno;
    }
    forall j, k | 0 <= j < NBUF && 0 <= k < NBUF && j != k && buf'[j].dev == ROOTDEV && buf'[k].dev == ROOTDEV
      ensures buf'[j].blockno != buf'[k].blockno
    {
      assert !Is(buf[j], blockno) && !Is(buf[k], blockno);
    }
    forall x | 0 <= x < |disk| ensures Backed(buf', disk, store', x) {
      assert Backed(buf, disk, store, x);
      if disk[x] != store'[x] {
        var k :| 0 <= k < |buf| && Is(buf[k], x) && buf[k].valid;
        assert k != i && Is(buf'[k], x) && buf'[k].valid;
      }
    }
  }

  lemma OldestUnused(cyc: seq<nat>, pos: seq<nat>, buf: seq<Buf>, use: seq<Use>, clock: nat, i: nat)
    requires IsCycle(cyc, pos) && |buf| == NBUF && Recent(cyc, use, clock) && i < NBUF
    requires forall j :: pos[i] < j <= NBUF ==> cyc[j] < NBUF && buf[cyc[j]].refcnt > 0
    ensures forall j :: 0 <= j < NBUF && buf[j].refcnt == 0 ==> use[i].stamp <= use[j].stamp
  {
    forall j | 0 <= j < NBUF && buf[j].refcnt == 0 ensures use[i].stamp <= use[j].stamp {
      assert cyc[pos[j]] == j && cyc[pos[i]] == i && cyc[0] == HEAD;
    }
  }

  lemma Held(buf: seq<Buf>, use: seq<Use>, disk: M.Disk, store: M.Disk, stray: set<nat>, i: nat, h: nat)
    requires CacheOk(buf, use, disk, store, stray) && i < NBUF && use[i].holder == Some(h)
    ensures h in use[i].refs && buf[i].refcnt > 0 && buf[i].dev == ROOTDEV && buf[i].blockno < |disk| == |store|
  {
    assert BufOk(buf[i], use[i], disk, store, stray);
    assert |use[i].refs| > 0;
  }

  /** A block in a buffer that is not valid is up to date on disk. */
  lemma OnDisk(buf: seq<Buf>, use: seq<Use>, disk: M.Disk, store: M.Disk, stray: set<nat>, i: nat)
    requires CacheOk(buf, use, disk, store, stray)
    requires i < NBUF && buf[i].dev == ROOTDEV && !buf[i].valid && use[i].holder.Some?
    ensures buf[i].blockno < |disk| == |store| && disk[buf[i].blockno] == store[buf[i].blockno]
    ensures CacheOk(buf[i := buf[i].(data := disk[buf[i].blockno], valid := true)], use, disk, store, stray)
  {
    assert BufOk(buf[i], use[i], disk, store, stray);
    assert Backed(buf, disk, store, buf[i].blockno);
    var buf' := buf[i := buf[i].(data := disk[buf[i].blockno], valid := true)];
    forall k | 0 <= k < NBUF ensures BufOk(buf'[k], use[k], disk, store, stray) {
      assert BufOk(buf[k], use[k], disk, store, stray);
    }
    forall x | 0 <= x < |disk| ensures Backed(buf', disk, store, x) {
      assert Backed(buf, disk, store, x);
      if disk[x] != store[x] {
        var k :| 0 <= k < |buf| && Is(buf[k], x) && buf[k].valid;
        assert Is(buf'[k], x) && buf'[k].valid;
      }
    }
  }

  lemma Stored(buf: seq<Buf>, use: seq<Use>, disk: M.Disk, store: M.Disk, stray: set<nat>, i: nat, data: M.Block)
    requires CacheOk(buf, use, disk, store, stray)
    requires i < NBUF && buf[i].dev == ROOTDEV && buf[i].valid && use[i].holder.Some?
    ensures buf[i].blockno < |store|
    ensures CacheOk(buf[i := buf[i].(data := data)], use, disk, store[buf[i].blockno := data], stray)
  {
    assert BufOk(buf[i], use[i], disk, store, stray);
    var b := buf[i].blockno;
    var buf', store' := buf[i := buf[i].(data := data)], store[b := data];
    forall k | 0 <= k < NBUF ensures BufOk(buf'[k], use[k], disk, store', stray) {
      assert BufOk(buf[k], use[k], disk, store, stray);
      assert k == i || buf[k].dev == 0 || buf[k].blockno != b;
    }
    forall x | 0 <= x < |disk| ensures Backed(buf', disk, store', x) {
      assert Backed(buf, disk, store, x);
      if x == b {
        assert Is(buf'[i], x) && buf'[i].valid;
      } else if disk[x] != store'[x] {
        var k :| 0 <= k < |buf| && Is(buf[k], x) && buf[k].valid;
        assert Is(buf'[k], x) && buf'[k].valid;
      }
    }
  }

  lemma Written(buf: seq<Buf>, use: seq<Use>, disk: M.Disk, store: M.Disk, stray: set<nat>, i: nat)
    requires CacheOk(buf, use, disk, store, stray) && i < NBUF && buf[i].dev == ROOTDEV && buf[i].valid
    ensures buf[i].blockno < |disk|
    ensures CacheOk(buf, use, disk[buf[i].blockno := buf[i].data], store, stray)
  {
    assert BufOk(buf[i], use[i], disk, store, stray);
    var disk' := disk[buf[i].blockno := buf[i].data];
    forall k | 0 <= k < NBUF ensures BufOk(buf[k], use[k], disk', store, stray) {
      assert BufOk(buf[k], use[k], disk, store, stray);
    }
    forall x | 0 <= x < |disk| ensures Backed(buf, disk', store, x) {
      assert Backed(buf, disk, store, x);
    }
  }

  lemma Pinned(buf: seq<Buf>, use: seq<Use>, disk: M.Disk, store: M.Disk, stray: set<nat>, i: nat)
    requires CacheOk(buf, use, disk, store, stray) && i < NBUF && buf[i].dev == ROOTDEV
    ensures CacheOk(buf[i := buf[i].(refcnt := buf[i].refcnt + 1)], use[i := use[i].(pins := use[i].pins + 1)],
                    disk, store, stray)
  {
    assert BufOk(buf[i], use[i], disk, store, stray);
    SameBlocks(buf, use, disk, store, stray, i, buf[i].(refcnt := buf[i].refcnt + 1), use[i].(pins := use[i].pins + 1));
  }

  lemma Unpinned(buf: seq<Buf>, use: seq<Use>, disk: M.Disk, store: M.Disk, stray: set<nat>, i: nat)
    requires CacheOk(buf, use, disk, store, stray) && i < NBUF && use[i].pins > 0
    ensures buf[i].refcnt > 0
    ensures CacheOk(buf[i := buf[i].(refcnt := buf[i].refcnt - 1)], use[i := use[i].(pins := use[i].pins - 1)],
                    disk, store, GivenBack(stray, buf[i], disk, use[i].holder.Some? || use[i].pins > 1))
  {
    assert BufOk(buf[i], use[i], disk, store, stray);
    var more := GivenBack(stray, buf[i], disk, use[i].holder.Some? || use[i].pins > 1);
    MoreStray(buf, use, disk, store, stray, more);
    SameBlocks(buf, use, disk, store, more, i, buf[i].(refcnt := buf[i].refcnt - 1), use[i].(pins := use[i].pins - 1));
  }

  lemma Released(buf: seq<Buf>, use: seq<Use>, disk: M.Disk, store: M.Disk, stray: set<nat>, i: nat, h: nat)
    requires CacheOk(buf, use, disk, store, stray) && i < NBUF && use[i].holder == Some(h)
    ensures buf[i].refcnt > 0
    ensures CacheOk(buf[i := buf[i].(refcnt := buf[i].refcnt - 1)],
                    use[i := use[i].(refs := use[i].refs - {h}, holder := None)],
                    disk, store, GivenBack(stray, buf[i], disk, use[i].pins > 0))
  {
    Held(buf, use, disk, store, stray, i, h);
    assert BufOk(buf[i], use[i], disk, store, stray);
    var more := GivenBack(stray, buf[i], disk, use[i].pins > 0);
    MoreStray(buf, use, disk, store, stray, more);
    var u := use[i].(refs := use[i].refs - {h}, holder := None);
    SameBlocks(buf, use, disk, store, more, i, buf[i].(refcnt := buf[i].refcnt - 1), u);
  }

  lemma Stamped(buf: seq<Buf>, use: seq<Use>, disk: M.Disk, store: M.Disk, stray: set<nat>, i: nat, stamp: nat)
    requires CacheOk(buf, use, disk, store, stray) && i < NBUF
    ensures CacheOk(buf, use[i := use[i].(stamp := stamp)], disk, store, stray)
  {
    assert BufOk(buf[i], use[i], disk, store, stray);
    SameBlocks(buf, use, disk, store, stray, i, buf[i], use[i].(stamp := stamp));
    assert buf[i := buf[i]] == buf;
  }

  lemma FrontIsRecent(cyc: seq<nat>, pos: seq<nat>, use: seq<Use>, clock: nat, i: nat)
    requires IsCycle(cyc, pos) && Recent(cyc, use, clock) && i < NBUF && 0 < pos[i]
    ensures Recent(Moved(cyc, pos[i]), use[i := use[i].(stamp := clock + 1)], clock + 1)
    ensures |Moved(cyc, pos[i])| > 1 && Moved(cyc, pos[i])[1] == i
  {
    assert cyc[pos[i]] == i;
  }

  /** The buffer moves to the front and its stamp becomes the newest. */
  lemma Fronted(cyc: seq<nat>, pos: seq<nat>, buf: seq<Buf>, use: seq<Use>, disk: M.Disk, store: M.Disk,
                stray: set<nat>, clock: nat, i: nat, cyc1: seq<nat>, use1: seq<Use>)
    requires IsCycle(cyc, pos) && Recent(cyc, use, clock) && CacheOk(buf, use, disk, store, stray)
    requires i < NBUF && 0 < pos[i] && cyc1 == Moved(cyc, pos[i]) && use1 == use[i := use[i].(stamp := clock + 1)]
    ensures CacheOk(buf, use1, disk, store, stray) && Recent(cyc1, use1, clock + 1) && |cyc1| > 1 && cyc1[1] == i
  {
    FrontIsRecent(cyc, pos, use, clock, i);
    Stamped(buf, use, disk, store, stray, i, clock + 1);
  }

  // ----- The code ------------------------------------------------------------

  class BCache {
    var next: seq<nat>
    var prev: seq<nat>
    var buf: seq<Buf>
    var disk: M.Disk
    ghost var cyc: seq<nat>
    ghost var pos: seq<nat>
    ghost var use: seq<Use>
    ghost var store: M.Disk
    ghost var stray: set<nat>     // blocks given back changed, neither written nor pinned
    ghost var clock: nat

    ghost predicate Valid()
      reads this
    {
      Linked(next, prev, cyc, pos) && CacheOk(buf, use, disk, store, stray) && Recent(cyc, use, clock)
    }

    /** The first loop of `bget`. */
    method Find(blockno: nat) returns (i: nat)
      requires Valid()
      ensures i <= NBUF && (i < NBUF ==> Is(buf[i], blockno))
      ensures i == HEAD ==> forall j :: 0 <= j < NBUF ==> !Is(buf[j], blockno)
    {
      ghost var k := 1;
      assert Follows(next, prev, cyc, pos, HEAD) && cyc[0] == HEAD;
      i := next[HEAD];
      while i != HEAD
        invariant 0 < k <= NBUF + 1 && i == (if k <= NBUF then cyc[k] else HEAD)
        invariant forall j :: 0 < j < k ==> cyc[j] < NBUF && !Is(buf[cyc[j]], blockno)
        decreases NBUF + 1 - k
      {
        assert pos[cyc[k]] == k;
        if Is(buf[i], blockno) {
          return;
        }
        assert Follows(next, prev, cyc, pos, i);
        i, k := next[i], k + 1;
      }
      assert pos[cyc[0]] == 0 && k == NBUF + 1;
      forall j | 0 <= j < NBUF ensures !Is(buf[j], blockno) {
        assert cyc[pos[j]] == j && cyc[0] == HEAD;
      }
    }

    /** The second loop of `bget`: the last unused buffer of the list. */
    method FindUnused() returns (i: nat)
      requires Valid()
      ensures i <= NBUF
      ensures i < NBUF ==> buf[i].refcnt == 0
      ensures i < NBUF ==> forall j :: pos[i] < j <= NBUF ==> cyc[j] < NBUF && buf[cyc[j]].refcnt > 0
      ensures i == HEAD ==> forall j :: 0 <= j < NBUF ==> buf[j].refcnt > 0
    {
      ghost var k := NBUF;
      assert Follows(next, prev, cyc, pos, HEAD) && cyc[0] == HEAD && pos[cyc[0]] == 0;
      i := prev[HEAD];
      while i != HEAD
        invariant 0 <= k <= NBUF && i == cyc[k]
        invariant forall j :: k < j <= NBUF ==> cyc[j] < NBUF && buf[cyc[j]].refcnt > 0
        decreases k
      {
        assert pos[cyc[k]] == k;
        if buf[i].refcnt == 0 {
          return;
        }
        assert Follows(next, prev, cyc, pos, i);
        i, k := prev[i], k - 1;
      }
      assert k == 0 by { assert pos[cyc[k]] == k && pos[cyc[0]] == 0; }
      forall j | 0 <= j < NBUF ensures buf[j].refcnt > 0 {
        assert cyc[pos[j]] == j && cyc[0] == HEAD;
      }
    }

    /** `binit`: the list holds every buffer, in reverse order. */
    constructor (disk: M.Disk)
      ensures Valid() && this.disk == disk && store == disk && stray == {}
      ensures forall i :: 0 <= i < NBUF ==> buf[i].refcnt == 0 && use[i] == Use({}, None, 0, 0)
    {
      var n: seq<nat> := seq(NBUF + 1, _ => HEAD);
      var p: seq<nat> := seq(NBUF + 1, _ => HEAD);
      var b := 0;
      while b < NBUF
        invariant 0 <= b <= NBUF && |n| == |p| == NBUF + 1
        invariant forall x :: 0 <= x < b ==>
                   n[x] == (if x == 0 then HEAD else x - 1) && p[x] == (if x == b - 1 then HEAD else x + 1)
        invariant n[HEAD] == (if b == 0 then HEAD else b - 1) && p[HEAD] == (if b == 0 then HEAD else 0)
      {
        n := n[b := n[HEAD]];
        p := p[b := HEAD];
        p := p[n[HEAD] := b];
        n := n[HEAD := b];
        b := b + 1;
      }
      next, prev := n, p;
      buf := seq(NBUF, _ => Buf(0, 0, false, 0, []));
      this.disk := disk;
      cyc := seq(NBUF + 1, (k: nat) => if k == 0 then HEAD else if k <= NBUF then NBUF - k else 0);
      pos := seq(NBUF + 1, (x: nat) => if x < NBUF then NBUF - x else 0);
      use := seq(NBUF, _ => Use({}, None, 0, 0));
      store, stray := disk, {};
      clock := 0;
    }

    /** One more user of a buffer. */
    method Ref(i: nat, ghost h: nat)
      requires Valid() && i < NBUF && buf[i].dev == ROOTDEV && h !in use[i].refs
      modifies this`buf, this`use
      ensures Valid() && buf == old(buf)[i := old(buf)[i].(refcnt := old(buf)[i].refcnt + 1)]
      ensures use == old(use)[i := old(use)[i].(refs := old(use)[i].refs + {h})]
    {
      Referenced(buf, use, disk, store, stray, i, h);
      buf := buf[i := buf[i].(refcnt := buf[i].refcnt + 1)];
      use := use[i := use[i].(refs := use[i].refs + {h})];
    }

    /** The rest of `bget` when the block is not cached: buffer `i` becomes its. */
    method Recycle(i: nat, blockno: nat, ghost h: nat)
      requires Valid() && i < NBUF && blockno < |disk| && buf[i].refcnt == 0
      requires forall j :: pos[i] < j <= NBUF ==> cyc[j] < NBUF && buf[cyc[j]].refcnt > 0
      requires forall j :: 0 <= j < NBUF ==> !Is(buf[j], blockno)
      modifies this`buf, this`use, this`store, this`stray
      ensures Valid()
      ensures forall j :: 0 <= j < NBUF && old(buf)[j].refcnt == 0 ==> old(use)[i].stamp <= old(use)[j].stamp
      ensures buf == old(buf)[i := Buf(ROOTDEV, blockno, false, 1, old(buf)[i].data)]
      ensures use == old(use)[i := Use({h}, None, 0, old(use)[i].stamp)]
      ensures store == Evicted(old(buf)[i], disk, old(store)) && stray <= old(stray)
      ensures old(buf)[i].blockno !in old(stray) ==> store == old(store)
    {
      OldestUnused(cyc, pos, buf, use, clock, i);
      Recycled(buf, use, disk, store, stray, i, blockno, h);
      store, stray := Evicted(buf[i], disk, store), if buf[i].valid then stray - {buf[i].blockno} else stray;
      buf := buf[i := Buf(ROOTDEV, blockno, false, 1, buf[i].data)];
      use := use[i := Use({h}, None, 0, use[i].stamp)];
    }

    /** Get a reference to a buffer for `blockno`; HEAD stands for the panic "no
        buffers".  A cached block keeps its buffer.  Otherwise the unused buffer
        that was moved to the front longest ago is recycled, and nothing is lost
        unless its block is a stray one. */
    method Bget(blockno: nat, ghost h: nat) returns (i: nat)
      requires Valid() && blockno < |disk| && forall j :: 0 <= j < NBUF ==> h !in use[j].refs
      modifies this
      ensures Valid() && disk == old(disk)
      ensures i == HEAD ==> buf == old(buf) && use == old(use) && store == old(store) && stray == old(stray)
      ensures i == HEAD ==> forall j :: 0 <= j < NBUF ==> old(buf)[j].refcnt > 0 && !Is(old(buf)[j], blockno)
      ensures i != HEAD ==> i < NBUF && Is(buf[i], blockno)
      ensures i != HEAD && Is(old(buf)[i], blockno) ==>
                && buf == old(buf)[i := old(buf)[i].(refcnt := old(buf)[i].refcnt + 1)]
                && use == old(use)[i := old(use)[i].(refs := old(use)[i].refs + {h})]
                && store == old(store) && stray == old(stray)
      ensures i != HEAD && !Is(old(buf)[i], blockno) ==>
                && old(buf)[i].refcnt == 0 && (forall j :: 0 <= j < NBUF ==> !Is(old(buf)[j], blockno))
                && (forall j :: 0 <= j < NBUF && old(buf)[j].refcnt == 0 ==> old(use)[i].stamp <= old(use)[j].stamp)
                && buf == old(buf)[i := Buf(ROOTDEV, blockno, false, 1, old(buf)[i].data)]
                && use == old(use)[i := Use({h}, None, 0, old(use)[i].stamp)]
                && store == Evicted(old(buf)[i], disk, old(store)) && stray <= old(stray)
                && (old(buf)[i].blockno !in old(stray) ==> store == old(store))
    {
      i := Find(blockno);
      if i != HEAD {
        Ref(i, h);
        return;
      }
      i := FindUnused();
      if i != HEAD {
        Recycle(i, blockno, h);
      }
    }

    /** `acquiresleep`, when the lock is free. */
    ghost method Acquire(i: nat, h: nat)
      requires Valid() && i < NBUF && h in use[i].refs && use[i].holder == None
      modifies this`use
      ensures Valid() && use == old(use)[i := old(use)[i].(holder := Some(h))]
    {
      use := use[i := use[i].(holder := Some(h))];
    }

    /** The rest of `bread`, holding the lock: the buffer shows what was last
        stored in its block, however often it has been evicted. */
    method Fill(i: nat, ghost h: nat) returns (data: M.Block)
      requires Valid() && i < NBUF && use[i].holder == Some(h)
      modifies this`buf
      ensures Valid() && buf == old(buf)[i := old(buf)[i].(valid := true, data := data)]
      ensures buf[i].blockno < |store| && data == store[buf[i].blockno]
    {
      Held(buf, use, disk, store, stray, i, h);
      if !buf[i].valid {
        OnDisk(buf, use, disk, store, stray, i);
        buf := buf[i := buf[i].(data := disk[buf[i].blockno], valid := true)];
      }
      data := buf[i].data;
    }

    /** The lock holder changes the data. */
    method Store(i: nat, data: M.Block, ghost h: nat)
      requires Valid() && i < NBUF && use[i].holder == Some(h) && buf[i].valid
      modifies this`buf, this`store
      ensures Valid() && buf == old(buf)[i := old(buf)[i].(data := data)]
      ensures buf[i].blockno < |old(store)| && store == old(store)[buf[i].blockno := data]
    {
      Held(buf, use, disk, store, stray, i, h);
      Stored(buf, use, disk, store, stray, i, data);
      buf := buf[i := buf[i].(data := data)];
      store := store[buf[i].blockno := data];
    }

    method Bwrite(i: nat, ghost h: nat)
      requires Valid() && i < NBUF && use[i].holder == Some(h) && buf[i].valid
      modifies this`disk, this`stray
      ensures Valid() && buf[i].blockno < |old(disk)| && disk == old(disk)[buf[i].blockno := buf[i].data]
      ensures stray == old(stray) - {buf[i].blockno}
    {
      Held(buf, use, disk, store, stray, i, h);
      Written(buf, use, disk, store, stray, i);
      disk := disk[buf[i].blockno := buf[i].data];
      NotStray(buf, use, disk, store, stray, i);
      stray := stray - {buf[i].blockno};
    }

    /** `bpin`, from log_write. */
    method Bpin(i: nat, ghost h: nat)
      requires Valid() && i < NBUF && use[i].holder == Some(h)
      modifies this`buf, this`use, this`stray
      ensures Valid() && buf == old(buf)[i := old(buf)[i].(refcnt := old(buf)[i].refcnt + 1)]
      ensures use == old(use)[i := old(use)[i].(pins := old(use)[i].pins + 1)]
      ensures stray == old(stray) - {buf[i].blockno}
    {
      Held(buf, use, disk, store, stray, i, h);
      Pinned(buf, use, disk, store, stray, i);
      buf := buf[i := buf[i].(refcnt := buf[i].refcnt + 1)];
      use := use[i := use[i].(pins := use[i].pins + 1)];
      NotStray(buf, use, disk, store, stray, i);
      stray := stray - {buf[i].blockno};
    }

    /** `bunpin`.  A block that has been installed does not become a stray one. */
    method Bunpin(i: nat)
      requires Valid() && i < NBUF && use[i].pins > 0
      modifies this`buf, this`use, this`stray
      ensures Valid() && old(buf)[i].refcnt > 0
      ensures buf == old(buf)[i := old(buf)[i].(refcnt := old(buf)[i].refcnt - 1)]
      ensures use == old(use)[i := old(use)[i].(pins := old(use)[i].pins - 1)]
      ensures stray == GivenBack(old(stray), old(buf)[i], disk, use[i].holder.Some? || use[i].pins > 0)
    {
      Unpinned(buf, use, disk, store, stray, i);
      stray := GivenBack(stray, buf[i], disk, use[i].holder.Some? || use[i].pins > 1);
      buf := buf[i := buf[i].(refcnt := buf[i].refcnt - 1)];
      use := use[i := use[i].(pins := use[i].pins - 1)];
    }

    /** The pointer surgery of `brelse`. */
    method Splice(i: nat)
      requires Linked(next, prev, cyc, pos) && i < NBUF
      modifies this`next, this`prev
      ensures 0 < pos[i] <= NBUF && Linked(next, prev, Moved(cyc, pos[i]), MovedPos(pos, i))
    {
      MoveToFront(next, prev, cyc, pos, i);
      assert Follows(next, prev, cyc, pos, i) && pos[next[i]] == After(pos[i]);
      prev := prev[next[i] := prev[i]];
      next := next[prev[i] := next[i]];
      next := next[i := next[HEAD]];
      prev := prev[i := HEAD];
      prev := prev[next[HEAD] := i];
      next := next[HEAD := i];
    }

    method ToFront(i: nat)
      requires Valid() && i < NBUF
      modifies this`next, this`prev, this`cyc, this`pos, this`use, this`clock
      ensures Valid() && cyc[1] == i && clock == old(clock) + 1 && use == old(use)[i := old(use)[i].(stamp := clock)]
    {
      Splice(i);
      ghost var cyc1, use1 := Moved(cyc, pos[i]), use[i := use[i].(stamp := clock + 1)];
      Fronted(cyc, pos, buf, use, disk, store, stray, clock, i, cyc1, use1);
      cyc, pos, use, clock := cyc1, MovedPos(pos, i), use1, clock + 1;
    }

    /** `brelse` up to the test whether anybody still uses the buffer. */
    method Unref(i: nat, ghost h: nat)
      requires Valid() && i < NBUF && use[i].holder == Some(h)
      modifies this`buf, this`use, this`stray
      ensures Valid() && old(buf)[i].refcnt > 0
      ensures buf == old(buf)[i := old(buf)[i].(refcnt := old(buf)[i].refcnt - 1)]
      ensures use == old(use)[i := old(use)[i].(refs := old(use)[i].refs - {h}, holder := None)]
      ensures stray == GivenBack(old(stray), old(buf)[i], disk, use[i].pins > 0)
    {
      Released(buf, use, disk, store, stray, i, h);
      stray := GivenBack(stray, buf[i], disk, use[i].pins > 0);
      buf := buf[i := buf[i].(refcnt := buf[i].refcnt - 1)];
      use := use[i := use[i].(refs := use[i].refs - {h}, holder := None)];
    }

    /** Give a buffer back.  If it has been changed and neither written nor
        pinned, its block becomes a stray one.  The last one to give it back moves
        it to the front. */
    method Brelse(i: nat, ghost h: nat)
      requires Valid() && i < NBUF && use[i].holder == Some(h)
      modifies this
      ensures Valid() && store == old(store) && disk == old(disk)
      ensures stray == GivenBack(old(stray), old(buf)[i], disk, use[i].pins > 0)
      ensures old(buf)[i].refcnt > 0 && buf == old(buf)[i := old(buf)[i].(refcnt := old(buf)[i].refcnt - 1)]
      ensures use[i].refs == old(use)[i].refs - {h} && use[i].holder == None && use[i].pins == old(use)[i].pins
      ensures forall j :: 0 <= j < NBUF && j != i ==> use[j] == old(use)[j]
      ensures buf[i].refcnt == 0 ==> cyc[1] == i && use[i].stamp == clock > old(clock)
      ensures buf[i].refcnt > 0 ==> cyc == old(cyc) && use[i].stamp == old(use)[i].stamp
    {
      Unref(i, h);
      if buf[i].refcnt == 0 {
        ToFront(i);
      }
    }
  }
}
