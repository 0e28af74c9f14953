/** The descriptors and rings of kernel/virtio_disk.c.  Each method of `Disk` is
    one atomic step: of the driver, under `vdisk_lock`, or of the device, which
    takes and completes requests in any order. */
module Virtio {
  import opened Common
  import M = LogMachine

  const NUM := 8
  const WRAP := 0x1_0000               // ring indices are uint16

  /** What a descriptor points at. */
  datatype Addr = Null | Op(i: nat) | Data(b: nat) | Status(i: nat)

  datatype Desc = Desc(addr: Addr, next: nat, hasNext: bool, deviceWrites: bool)

  const EMPTY := Desc(Null, 0, false, false)

  datatype BlkReq = BlkReq(write: bool, sector: nat)

  datatype Info = Info(b: Option<nat>, status: nat)

  /** In the avail ring, in the device, in the used ring, or told to the
      process that waits for it. */
  datatype Stage = Queued | Taken | Done | Seen

  /** A pending request: its buffer, what it is, and its other descriptors. */
  datatype Req = Req(b: nat, write: bool, blockno: nat, i1: nat, i2: nat, stage: Stage)

  /** The driver's tables. */
  datatype Tables = Tables(free: seq<bool>, desc: seq<Desc>, info: seq<Info>, ops: seq<BlkReq>)

  /** The three descriptors of chain `h` are those of request `r`. */
  predicate Laid(t: Tables, h: nat, r: Req) {
    && |t.free| == |t.desc| == |t.info| == |t.ops| == NUM
    && h < NUM && r.i1 < NUM && r.i2 < NUM && h != r.i1 && h != r.i2 && r.i1 != r.i2
    && !t.free[h] && !t.free[r.i1] && !t.free[r.i2]
    && t.desc[h] == Desc(Op(h), r.i1, true, false)
    && t.desc[r.i1] == Desc(Data(r.b), r.i2, true, !r.write)
    && t.desc[r.i2] == Desc(Status(h), 0, false, true)
  }

  /** Chain `h` is laid out for request `r`. */
  predicate ChainOk(t: Tables, h: nat, r: Req) {
    Laid(t, h, r) && t.info[h].b == Some(r.b) && t.ops[h] == BlkReq(r.write, r.blockno * 2)
  }

  predicate InChain(d: nat, h: nat, r: Req) { d == h || d == r.i1 || d == r.i2 }

  predicate DescOk(t: Tables, reqs: map<nat, Req>, owner: seq<Option<nat>>, d: nat)
    requires |t.free| == |t.desc| == |owner| == NUM && d < NUM
  {
    if owner[d].None? then t.free[d] && t.desc[d] == EMPTY
    else owner[d].value in reqs && InChain(d, owner[d].value, reqs[owner[d].value])
  }

  predicate ReqOk(t: Tables, reqs: map<nat, Req>, owner: seq<Option<nat>>, h: nat)
    requires h in reqs && |owner| == NUM
  {
    ChainOk(t, h, reqs[h]) && owner[h] == owner[reqs[h].i1] == owner[reqs[h].i2] == Some(h)
  }

  /** Free descriptors and the chains of pending requests partition all of
      them: `owner[d]` is the head of the chain that `d` is in. */
  predicate Partition(t: Tables, reqs: map<nat, Req>, owner: seq<Option<nat>>) {
    && |t.free| == |t.desc| == |t.info| == |t.ops| == |owner| == NUM
    && (forall d :: 0 <= d < NUM ==> DescOk(t, reqs, owner, d))
    && (forall h {:trigger ReqOk(t, reqs, owner, h)} :: h in reqs ==> ReqOk(t, reqs, owner, h))
  }

  predicate Different(reqs: map<nat, Req>, h: nat, g: nat) {
    h in reqs && g in reqs && h != g ==> reqs[h].b != reqs[g].b
  }

  /** Pending requests use different buffers. */
  ghost predicate OwnBuffers(reqs: map<nat, Req>) { forall h, g :: Different(reqs, h, g) }

  // ----- Rings ------------------------------------------------------------------------------

  predicate Unlike(q: seq<nat>, i: nat, j: nat) { i < j < |q| ==> q[i] != q[j] }

  predicate Distinct(q: seq<nat>) { forall i, j :: 0 <= i < j < |q| ==> Unlike(q, i, j) }

  predicate SlotOk(ring: seq<nat>, total: nat, q: seq<nat>, k: nat)
    requires |ring| == NUM && k < |q| <= total
  {
    ring[(total - |q| + k) % NUM] == q[k]
  }

  /** The last |q| entries ever written to the ring are `q`, and they are all
      still there; `idx` counts all entries modulo WRAP. */
  predicate RingOk(ring: seq<nat>, idx: nat, total: nat, q: seq<nat>) {
    && |ring| == NUM && idx == total % WRAP && |q| <= NUM && |q| <= total
    && forall k :: 0 <= k < |q| ==> SlotOk(ring, total, q, k)
  }

  /** Different numbers below NUM are at most NUM many. */
  lemma {:induction false} Pigeons(q: seq<nat>, n: nat)
    requires Distinct(q) && forall i :: 0 <= i < |q| ==> q[i] < n
    ensures |q| <= n
    decreases n
  {
    if |q| > 0 {
      assert q[0] < n;
      if i :| 0 <= i < |q| && q[i] == n - 1 {
        var rest := q[..i] + q[i + 1..];
        forall j, k | 0 <= j < k < |rest| ensures Unlike(rest, j, k) {
          assert Unlike(q, if j < i then j else j + 1, if k < i then k else k + 1);
        }
        forall j | 0 <= j < |rest| ensures rest[j] < n - 1 {
          assert if j < i then Unlike(q, j, i) else Unlike(q, i, j + 1);
        }
        Pigeons(rest, n - 1);
      } else {
        Pigeons(q, n - 1);
      }
    }
  }

  lemma WrapSlot(total: nat)
    ensures total % WRAP % NUM == total % NUM
  {
    AddMultiple(NUM, 8192 * (total / WRAP), total % WRAP);
  }

  /** A ring, its writer's index and its reader's index. */
  predicate Ring(ring: seq<nat>, idx: nat, seen: nat, total: nat, q: seq<nat>) {
    RingOk(ring, idx, total, q) && seen == (total - |q|) % WRAP
  }

  lemma Behind(total: nat, n: nat)
    requires n <= NUM && n <= total
    ensures (total - n) % WRAP == total % WRAP <==> n == 0
    ensures n > 0 ==> ((total - n) % WRAP + 1) % WRAP == (total - n + 1) % WRAP
  {
    var a := total - n;
    assert a == WRAP * (a / WRAP) + a % WRAP && total == WRAP * (total / WRAP) + total % WRAP;
  }

  /** Adding an entry overwrites none that is still needed. */
  lemma RingPush(ring: seq<nat>, idx: nat, seen: nat, total: nat, q: seq<nat>, x: nat)
    requires Ring(ring, idx, seen, total, q) && |q| < NUM
    ensures Ring(ring[idx % NUM := x], (idx + 1) % WRAP, seen, total + 1, q + [x])
  {
    WrapSlot(total);
    Behind(total + 1, 1);
    var ring', q', total' := ring[idx % NUM := x], q + [x], total + 1;
    assert total' - |q'| == total - |q|;
    forall k | 0 <= k < |q'| ensures SlotOk(ring', total', q', k) {
      if k < |q| {
        assert SlotOk(ring, total, q, k);
        SlotsDiffer(NUM, total - |q| + k, total);
      }
    }
  }

  /** The reader's index tells whether there is an entry, and where. */
  lemma RingPop(ring: seq<nat>, idx: nat, total: nat, q: seq<nat>, seen: nat)
    requires Ring(ring, idx, seen, total, q)
    ensures seen != idx <==> q != []
    ensures q != [] ==> ring[seen % NUM] == q[0] && Ring(ring, idx, (seen + 1) % WRAP, total, q[1..])
  {
    Behind(total, |q|);
    WrapSlot(total - |q|);
    if q != [] {
      assert SlotOk(ring, total, q, 0);
      forall k | 0 <= k < |q[1..]| ensures SlotOk(ring, total, q[1..], k) {
        assert SlotOk(ring, total, q, k + 1);
      }
    }
  }

  // ----- Requests in the rings ------------------------------------------------------------------

  predicate InStage(q: seq<nat>, reqs: map<nat, Req>, stage: Stage, k: nat) {
    k < |q| ==> q[k] in reqs && reqs[q[k]].stage == stage
  }

  predicate Listed(q: seq<nat>, reqs: map<nat, Req>, stage: Stage, h: nat) {
    h in reqs && reqs[h].stage == stage ==> h in q
  }

  /** `q` holds exactly the requests of one stage, each once. */
  ghost predicate Holds(q: seq<nat>, reqs: map<nat, Req>, stage: Stage) {
    && Distinct(q) && (forall k :: 0 <= k < |q| ==> InStage(q, reqs, stage, k))
    && (forall h :: Listed(q, reqs, stage, h))
  }

  /** Request `h` moves on; nothing else does. */
  function Advance(reqs: map<nat, Req>, h: nat, stage: Stage): map<nat, Req>
    requires h in reqs
  {
    reqs[h := reqs[h].(stage := stage)]
  }

  lemma AdvancePartition(t: Tables, reqs: map<nat, Req>, owner: seq<Option<nat>>, h: nat, stage: Stage)
    requires Partition(t, reqs, owner) && h in reqs && OwnBuffers(reqs)
    ensures Partition(t, Advance(reqs, h, stage), owner) && OwnBuffers(Advance(reqs, h, stage))
  {
    var reqs' := Advance(reqs, h, stage);
    forall g | g in reqs' ensures ReqOk(t, reqs', owner, g) {
      assert ReqOk(t, reqs, owner, g);
    }
    forall d | 0 <= d < NUM ensures DescOk(t, reqs', owner, d) {
      assert DescOk(t, reqs, owner, d);
    }
    forall g, k ensures Different(reqs', g, k) {
      assert Different(reqs, g, k);
    }
  }

  lemma HoldsFirst(q: seq<nat>, reqs: map<nat, Req>, stage: Stage, next: Stage)
    requires Holds(q, reqs, stage) && q != [] && next != stage
    ensures q[0] in reqs && reqs[q[0]].stage == stage && Holds(q[1..], Advance(reqs, q[0], next), stage)
  {
    assert InStage(q, reqs, stage, 0);
    var q', reqs' := q[1..], Advance(reqs, q[0], next);
    forall k | 0 <= k < |q'| ensures InStage(q', reqs', stage, k) {
      assert Unlike(q, 0, k + 1) && InStage(q, reqs, stage, k + 1);
    }
    forall i, j | 0 <= i < j < |q'| ensures Unlike(q', i, j) { assert Unlike(q, i + 1, j + 1); }
    forall h ensures Listed(q', reqs', stage, h) { assert Listed(q, reqs, stage, h); }
  }

  lemma HoldsAdded(q: seq<nat>, reqs: map<nat, Req>, stage: Stage, h: nat, r: Req)
    requires Holds(q, reqs, stage) && (h in reqs ==> reqs[h].stage != stage) && r.stage == stage
    ensures Holds(q + [h], reqs[h := r], stage)
  {
    var q', reqs' := q + [h], reqs[h := r];
    forall k | 0 <= k < |q'| ensures InStage(q', reqs', stage, k) {
      if k < |q| { assert InStage(q, reqs, stage, k); }
    }
    forall i, j | 0 <= i < j < |q'| ensures Unlike(q', i, j) {
      assert InStage(q, reqs, stage, i) && Unlike(q, i, j);
    }
    forall g ensures Listed(q', reqs', stage, g) { assert Listed(q, reqs, stage, g); }
  }

  lemma HoldsMore(q: seq<nat>, reqs: map<nat, Req>, stage: Stage, h: nat)
    requires Holds(q, reqs, stage) && h in reqs && reqs[h].stage != stage
    ensures Holds(q + [h], Advance(reqs, h, stage), stage)
  {
    HoldsAdded(q, reqs, stage, h, reqs[h].(stage := stage));
  }

  /** A request of other stages, before and after, does not matter. */
  lemma HoldsStill(q: seq<nat>, reqs: map<nat, Req>, stage: Stage, h: nat, reqs': map<nat, Req>)
    requires Holds(q, reqs, stage) && (h in reqs ==> reqs[h].stage != stage) && (h in reqs' ==> reqs'[h].stage != stage)
    requires forall g :: g != h ==> (g in reqs <==> g in reqs') && (g in reqs ==> reqs'[g] == reqs[g])
    ensures Holds(q, reqs', stage)
  {
    forall k | 0 <= k < |q| ensures InStage(q, reqs', stage, k) { assert InStage(q, reqs, stage, k); }
    forall g ensures Listed(q, reqs', stage, g) { assert Listed(q, reqs, stage, g); }
  }

  /** There is room in a ring for one more. */
  lemma RoomLeft(t: Tables, q: seq<nat>, reqs: map<nat, Req>, owner: seq<Option<nat>>, stage: Stage, h: nat)
    requires Partition(t, reqs, owner) && Holds(q, reqs, stage) && h < NUM && h !in q
    ensures |q| < NUM
  {
    var q' := q + [h];
    forall i | 0 <= i < |q'| ensures q'[i] < NUM {
      if i < |q| { assert InStage(q, reqs, stage, i); assert ReqOk(t, reqs, owner, q[i]); }
    }
    forall i, j | 0 <= i < j < |q'| ensures Unlike(q', i, j) { assert Unlike(q, i, j); }
    Pigeons(q', NUM);
  }

  // ----- Making and freeing a chain ---------------------------------------------------------------

  /** The tables once a request has been written into three free descriptors. */
  function Formatted(t: Tables, h: nat, r: Req): Tables
    requires |t.free| == |t.desc| == |t.info| == |t.ops| == NUM && h < NUM && r.i1 < NUM && r.i2 < NUM
  {
    Tables(t.free[h := false][r.i1 := false][r.i2 := false],
           t.desc[h := Desc(Op(h), r.i1, true, false)]
                 [r.i1 := Desc(Data(r.b), r.i2, true, !r.write)]
                 [r.i2 := Desc(Status(h), 0, false, true)],
           t.info[h := Info(Some(r.b), 0xff)],
           t.ops[h := BlkReq(r.write, r.blockno * 2)])
  }

  function Owned(owner: seq<Option<nat>>, h: nat, r: Req, o: Option<nat>): seq<Option<nat>>
    requires |owner| == NUM && h < NUM && r.i1 < NUM && r.i2 < NUM
  {
    owner[h := o][r.i1 := o][r.i2 := o]
  }

  predicate AllFree(t: Tables, h: nat, r: Req) {
    && |t.free| == NUM && h < NUM && r.i1 < NUM && r.i2 < NUM && h != r.i1 && h != r.i2 && r.i1 != r.i2
    && t.free[h] && t.free[r.i1] && t.free[r.i2]
  }

  lemma FormatDesc(t: Tables, reqs: map<nat, Req>, owner: seq<Option<nat>>, h: nat, r: Req, d: nat)
    requires |t.free| == |t.desc| == |t.info| == |t.ops| == |owner| == NUM
    requires AllFree(t, h, r) && d < NUM && DescOk(t, reqs, owner, d) && h !in reqs
    ensures DescOk(Formatted(t, h, r), reqs[h := r], Owned(owner, h, r, Some(h)), d)
  {
  }

  lemma FormatOther(t: Tables, h: nat, r: Req, g: nat, q: Req)
    requires ChainOk(t, g, q) && AllFree(t, h, r)
    ensures ChainOk(Formatted(t, h, r), g, q)
  {
  }

  lemma FreeUnowned(t: Tables, reqs: map<nat, Req>, owner: seq<Option<nat>>, d: nat)
    requires Partition(t, reqs, owner) && d < NUM && t.free[d]
    ensures owner[d].None? && d !in reqs && t.desc[d] == EMPTY
  {
    assert DescOk(t, reqs, owner, d);
    assert owner[d].Some? ==> owner[d].value in reqs && ReqOk(t, reqs, owner, owner[d].value);
    assert d in reqs ==> ReqOk(t, reqs, owner, d);
  }

  lemma FormatPartition(t: Tables, reqs: map<nat, Req>, owner: seq<Option<nat>>, h: nat, r: Req)
    requires Partition(t, reqs, owner) && AllFree(t, h, r)
    ensures h !in reqs && Partition(Formatted(t, h, r), reqs[h := r], Owned(owner, h, r, Some(h)))
  {
    FreeUnowned(t, reqs, owner, h);
    FreeUnowned(t, reqs, owner, r.i1);
    FreeUnowned(t, reqs, owner, r.i2);
    var t', reqs', owner' := Formatted(t, h, r), reqs[h := r], Owned(owner, h, r, Some(h));
    assert ReqOk(t', reqs', owner', h);
    forall g | g in reqs && g != h ensures ReqOk(t', reqs', owner', g) {
      assert ReqOk(t, reqs, owner, g);
      FormatOther(t, h, r, g, reqs[g]);
    }
    forall d | 0 <= d < NUM ensures DescOk(t', reqs', owner', d) {
      FormatDesc(t, reqs, owner, h, r, d);
    }
  }

  /** The tables once the chain of `h` has been freed. */
  function Released(t: Tables, h: nat, r: Req): Tables
    requires |t.free| == |t.desc| == NUM && h < NUM && r.i1 < NUM && r.i2 < NUM
  {
    t.(free := t.free[h := true][r.i1 := true][r.i2 := true], desc := t.desc[h := EMPTY][r.i1 := EMPTY][r.i2 := EMPTY])
  }

  /** `info[h]` no longer refers to a buffer. */
  function Forgotten(t: Tables, h: nat): Tables
    requires h < |t.info|
  {
    t.(info := t.info[h := t.info[h].(b := None)])
  }

  /** The tables when request `r` is over. */
  function Ended(t: Tables, h: nat, r: Req): Tables
    requires ChainOk(t, h, r)
  {
    Released(Forgotten(t, h), h, r)
  }

  lemma ReleasePartition(t: Tables, reqs: map<nat, Req>, owner: seq<Option<nat>>, h: nat)
    requires Partition(t, reqs, owner) && h in reqs
    ensures ChainOk(t, h, reqs[h]) && Partition(Ended(t, h, reqs[h]), reqs - {h}, Owned(owner, h, reqs[h], None))
  {
    assert ReqOk(t, reqs, owner, h);
    var r := reqs[h];
    var t', reqs', owner' := Ended(t, h, r), reqs - {h}, Owned(owner, h, r, None);
    forall g | g in reqs' ensures ReqOk(t', reqs', owner', g) {
      assert ReqOk(t, reqs, owner, g);
    }
    forall d | 0 <= d < NUM ensures DescOk(t', reqs', owner', d) {
      assert DescOk(t, reqs, owner, d);
    }
  }

  /** Another request keeps its descriptors when `info[h]` changes. */
  lemma InfoPartition(t: Tables, reqs: map<nat, Req>, owner: seq<Option<nat>>, h: nat, info: Info)
    requires Partition(t, reqs, owner) && h in reqs && h < NUM && info.b == t.info[h].b
    ensures Partition(t.(info := t.info[h := info]), reqs, owner)
  {
    var t' := t.(info := t.info[h := info]);
    forall g | g in reqs ensures ReqOk(t', reqs, owner, g) { assert ReqOk(t, reqs, owner, g); }
    forall d | 0 <= d < NUM ensures DescOk(t', reqs, owner, d) { assert DescOk(t, reqs, owner, d); }
  }

  /** A write copies the buffer to its block, a read the block to its buffer. */
  predicate Transferred(r: Req, data: map<nat, M.Block>, platter: seq<M.Block>, data': map<nat, M.Block>,
                      platter': seq<M.Block>) {
    && r.b in data && r.blockno < |platter|
    && if r.write then platter' == platter[r.blockno := data[r.b]] && data' == data
       else data' == data[r.b := platter[r.blockno]] && platter' == platter
  }

  // ----- The whole state ------------------------------------------------------------------------

  ghost predicate BufferOk(reqs: map<nat, Req>, busy: set<nat>, data: map<nat, M.Block>, blocks: nat, h: nat) {
    h in reqs ==> (reqs[h].b in busy <==> reqs[h].stage != Seen) && reqs[h].b in data && reqs[h].blockno < blocks
  }

  predicate StatusOk(t: Tables, reqs: map<nat, Req>, h: nat) {
    h in reqs && h < |t.info| && reqs[h].stage == Done ==> t.info[h].status == 0
  }

  /** The tables fit the pending requests. */
  ghost predicate Requests(t: Tables, reqs: map<nat, Req>, owner: seq<Option<nat>>, busy: set<nat>,
                      data: map<nat, M.Block>, blocks: nat) {
    && Partition(t, reqs, owner) && OwnBuffers(reqs)
    && (forall h :: BufferOk(reqs, busy, data, blocks, h)) && (forall h :: StatusOk(t, reqs, h))
  }

  ghost predicate Queues(reqs: map<nat, Req>, availQ: seq<nat>, usedQ: seq<nat>) {
    Holds(availQ, reqs, Queued) && Holds(usedQ, reqs, Done)
  }

  /** What the interrupt handler may do to a request. */
  predicate Passed(r: Req, r': Req) { r' == r || (r.stage == Done && r' == r.(stage := Seen)) }

  predicate AllPassed(reqs: map<nat, Req>, reqs': map<nat, Req>) {
    reqs'.Keys == reqs.Keys && forall h :: h in reqs ==> Passed(reqs[h], reqs'[h])
  }

  lemma PassedOne(reqs: map<nat, Req>, reqs1: map<nat, Req>, h: nat)
    requires AllPassed(reqs, reqs1) && h in reqs1 && reqs1[h].stage == Done
    ensures AllPassed(reqs, Advance(reqs1, h, Seen))
  {
    var reqs' := Advance(reqs1, h, Seen);
    assert reqs'.Keys == reqs1.Keys;
  }

  lemma Undone(t: Tables, t': Tables, ds: seq<nat>)
    requires |t.free| == |t.desc| == |t'.free| == |t'.desc| == NUM && t'.info == t.info && t'.ops == t.ops
    requires forall d :: 0 <= d < NUM && t.free[d] ==> t.desc[d] == EMPTY
    requires forall k :: 0 <= k < |ds| ==> ds[k] < NUM && t.free[ds[k]]
    requires forall d :: 0 <= d < NUM ==> t'.free[d] == t.free[d] && t'.desc[d] == if d in ds then EMPTY else t.desc[d]
    ensures t' == t
  {
    assert t'.free == t.free && t'.desc == t.desc;
  }

  lemma FreeEmpty(t: Tables, reqs: map<nat, Req>, owner: seq<Option<nat>>)
    requires Partition(t, reqs, owner)
    ensures forall d :: 0 <= d < NUM && t.free[d] ==> t.desc[d] == EMPTY
  {
    forall d | 0 <= d < NUM && t.free[d] ensures t.desc[d] == EMPTY { FreeUnowned(t, reqs, owner, d); }
  }

  // ----- Steps on the whole state -------------------------------------------------------------------

  lemma HeldElsewhere(q: seq<nat>, reqs: map<nat, Req>, stage: Stage, h: nat)
    requires Holds(q, reqs, stage) && (h in reqs ==> reqs[h].stage != stage)
    ensures h !in q
  {
    forall k | 0 <= k < |q| ensures q[k] != h { assert InStage(q, reqs, stage, k); }
  }

  lemma NewRequest(t: Tables, reqs: map<nat, Req>, owner: seq<Option<nat>>, busy: set<nat>, data: map<nat, M.Block>,
                   blocks: nat, h: nat, r: Req, availQ: seq<nat>, usedQ: seq<nat>)
    requires Requests(t, reqs, owner, busy, data, blocks) && Queues(reqs, availQ, usedQ)
    requires AllFree(t, h, r) && h !in reqs && Partition(Formatted(t, h, r), reqs[h := r], Owned(owner, h, r, Some(h)))
    requires r.stage == Queued && r.b in data && r.blockno < blocks && forall g :: g in reqs ==> reqs[g].b != r.b
    ensures Requests(Formatted(t, h, r), reqs[h := r], Owned(owner, h, r, Some(h)), busy + {r.b}, data, blocks)
    ensures Queues(reqs[h := r], availQ + [h], usedQ) && |availQ| < NUM
  {
    var reqs' := reqs[h := r];
    forall g, k ensures Different(reqs', g, k) { assert Different(reqs, g, k); }
    forall g ensures BufferOk(reqs', busy + {r.b}, data, blocks, g) { assert BufferOk(reqs, busy, data, blocks, g); }
    forall g ensures StatusOk(Formatted(t, h, r), reqs', g) { assert StatusOk(t, reqs, g); }
    HoldsAdded(availQ, reqs, Queued, h, r);
    HoldsStill(usedQ, reqs, Done, h, reqs');
    HeldElsewhere(availQ, reqs, Queued, h);
    RoomLeft(t, availQ, reqs, owner, Queued, h);
  }

  lemma ReadyToComplete(t: Tables, reqs: map<nat, Req>, owner: seq<Option<nat>>, busy: set<nat>, data: map<nat,
                        M.Block>, blocks: nat, usedQ: seq<nat>, h: nat)
    requires Requests(t, reqs, owner, busy, data, blocks)
    requires Holds(usedQ, reqs, Done) && h in reqs && reqs[h].stage == Taken
    ensures ChainOk(t, h, reqs[h]) && reqs[h].b in data && reqs[h].blockno < blocks && |usedQ| < NUM
  {
    assert BufferOk(reqs, busy, data, blocks, h) && ReqOk(t, reqs, owner, h);
    HeldElsewhere(usedQ, reqs, Done, h);
    RoomLeft(t, usedQ, reqs, owner, Done, h);
  }

  lemma TakeEffect(t: Tables, reqs: map<nat, Req>, owner: seq<Option<nat>>, busy: set<nat>, data: map<nat, M.Block>,
                   blocks: nat, availQ: seq<nat>, usedQ: seq<nat>)
    requires Requests(t, reqs, owner, busy, data, blocks) && Queues(reqs, availQ, usedQ) && availQ != []
    ensures availQ[0] in reqs && Requests(t, Advance(reqs, availQ[0], Taken), owner, busy, data, blocks)
    ensures Queues(Advance(reqs, availQ[0], Taken), availQ[1..], usedQ)
  {
    HoldsFirst(availQ, reqs, Queued, Taken);
    var h := availQ[0];
    var reqs' := Advance(reqs, h, Taken);
    HoldsStill(usedQ, reqs, Done, h, reqs');
    AdvancePartition(t, reqs, owner, h, Taken);
    forall g ensures BufferOk(reqs', busy, data, blocks, g) { assert BufferOk(reqs, busy, data, blocks, g); }
    forall g ensures StatusOk(t, reqs', g) { assert StatusOk(t, reqs, g); }
  }

  lemma DoneEffect(t: Tables, reqs: map<nat, Req>, owner: seq<Option<nat>>, busy: set<nat>, data: map<nat, M.Block>,
                   data': map<nat, M.Block>, blocks: nat, availQ: seq<nat>, usedQ: seq<nat>, h: nat)
    requires Requests(t, reqs, owner, busy, data, blocks)
    requires Queues(reqs, availQ, usedQ) && h in reqs && reqs[h].stage == Taken
    requires h < |t.info| && forall b :: b in data ==> b in data'
    ensures Requests(t.(info := t.info[h := t.info[h].(status := 0)]), Advance(reqs, h, Done), owner, busy, data',
                     blocks)
    ensures Queues(Advance(reqs, h, Done), availQ, usedQ + [h])
  {
    var t', reqs' := t.(info := t.info[h := t.info[h].(status := 0)]), Advance(reqs, h, Done);
    HoldsMore(usedQ, reqs, Done, h);
    HoldsStill(availQ, reqs, Queued, h, reqs');
    AdvancePartition(t, reqs, owner, h, Done);
    InfoPartition(t, reqs', owner, h, t.info[h].(status := 0));
    forall g ensures BufferOk(reqs', busy, data', blocks, g) { assert BufferOk(reqs, busy, data, blocks, g); }
    forall g ensures StatusOk(t', reqs', g) { assert StatusOk(t, reqs, g); }
  }

  lemma SeenEffect(t: Tables, reqs: map<nat, Req>, owner: seq<Option<nat>>, busy: set<nat>, data: map<nat, M.Block>,
                   blocks: nat, availQ: seq<nat>, usedQ: seq<nat>)
    requires Requests(t, reqs, owner, busy, data, blocks) && Queues(reqs, availQ, usedQ) && usedQ != []
    ensures usedQ[0] in reqs && usedQ[0] < NUM
    ensures t.info[usedQ[0]].status == 0 && t.info[usedQ[0]].b == Some(reqs[usedQ[0]].b) && reqs[usedQ[0]].b in busy
    ensures Requests(t, Advance(reqs, usedQ[0], Seen), owner, busy - {reqs[usedQ[0]].b}, data, blocks)
    ensures Queues(Advance(reqs, usedQ[0], Seen), availQ, usedQ[1..])
  {
    HoldsFirst(usedQ, reqs, Done, Seen);
    var h := usedQ[0];
    var reqs' := Advance(reqs, h, Seen);
    assert ReqOk(t, reqs, owner, h) && StatusOk(t, reqs, h) && BufferOk(reqs, busy, data, blocks, h);
    HoldsStill(availQ, reqs, Queued, h, reqs');
    AdvancePartition(t, reqs, owner, h, Seen);
    forall g ensures BufferOk(reqs', busy - {reqs[h].b}, data, blocks, g) {
      assert BufferOk(reqs, busy, data, blocks, g) && Different(reqs, g, h);
    }
    forall g ensures StatusOk(t, reqs', g) { assert StatusOk(t, reqs, g); }
  }

  lemma FinishEffect(t: Tables, reqs: map<nat, Req>, owner: seq<Option<nat>>, busy: set<nat>, data: map<nat, M.Block>,
                     blocks: nat, availQ: seq<nat>, usedQ: seq<nat>, h: nat)
    requires Requests(t, reqs, owner, busy, data, blocks)
    requires Queues(reqs, availQ, usedQ) && h in reqs && reqs[h].b !in busy
    requires ChainOk(t, h, reqs[h]) && Partition(Ended(t, h, reqs[h]), reqs - {h}, Owned(owner, h, reqs[h], None))
    ensures Requests(Ended(t, h, reqs[h]), reqs - {h}, Owned(owner, h, reqs[h], None), busy, data, blocks)
    ensures Queues(reqs - {h}, availQ, usedQ)
  {
    assert BufferOk(reqs, busy, data, blocks, h);
    var t', reqs' := Ended(t, h, reqs[h]), reqs - {h};
    HoldsStill(availQ, reqs, Queued, h, reqs');
    HoldsStill(usedQ, reqs, Done, h, reqs');
    forall g, k ensures Different(reqs', g, k) { assert Different(reqs, g, k); }
    forall g ensures BufferOk(reqs', busy, data, blocks, g) { assert BufferOk(reqs, busy, data, blocks, g); }
    forall g ensures StatusOk(t', reqs', g) { assert StatusOk(t, reqs, g); }
  }

  // ----- The code ------------------------------------------------------------

  class Disk {
    var t: Tables
    var avail: seq<nat>
    var availIdx: nat
    var used: seq<nat>
    var usedIdx: nat                   // disk.used->idx, the device's
    var seenIdx: nat                   // disk.used_idx, the driver's
    var devIdx: nat                    // how far the device has read the avail ring
    var busy: set<nat>                 // buffers with b->disk == 1
    var data: map<nat, M.Block>        // contents of buffers
    var platter: seq<M.Block>
    ghost var reqs: map<nat, Req>
    ghost var owner: seq<Option<nat>>
    ghost var availQ: seq<nat>
    ghost var usedQ: seq<nat>
    ghost var availTotal: nat
    ghost var usedTotal: nat

    ghost predicate Rings()
      reads this
    {
      Ring(avail, availIdx, devIdx, availTotal, availQ) && Ring(used, usedIdx, seenIdx, usedTotal, usedQ)
    }

    ghost predicate Valid()
      reads this
    {
      Requests(t, reqs, owner, busy, data, |platter|) && Queues(reqs, availQ, usedQ) && Rings()
    }

    constructor (data: map<nat, M.Block>, platter: seq<M.Block>)
      ensures Valid() && reqs == map[] && this.data == data && this.platter == platter && busy == {}
    {
      t := Tables(seq(NUM, _ => true), seq(NUM, _ => EMPTY), seq(NUM, _ => Info(None, 0)),
                  seq(NUM, _ => BlkReq(false, 0)));
      avail, used := seq(NUM, _ => 0), seq(NUM, _ => 0);
      availIdx, usedIdx, seenIdx, devIdx, busy := 0, 0, 0, 0, {};
      this.data, this.platter := data, platter;
      reqs, owner := map[], seq(NUM, _ => None);
      availQ, usedQ, availTotal, usedTotal := [], [], 0, 0;
    }

    /** The first free descriptor, or NUM for -1. */
    method AllocDesc() returns (i: nat)
      requires |t.free| == NUM
      modifies this`t
      ensures i <= NUM && (forall j :: 0 <= j < i ==> !old(t).free[j])
      ensures i < NUM ==> old(t).free[i] && t == old(t).(free := old(t).free[i := false])
      ensures i == NUM ==> t == old(t)
    {
      i := 0;
      while i < NUM
        invariant 0 <= i <= NUM && t == old(t) && forall j :: 0 <= j < i ==> !t.free[j]
      {
        if t.free[i] {
          t := t.(free := t.free[i := false]);
          return;
        }
        i := i + 1;
      }
    }

    /** "free_desc 1" and "free_desc 2" are what its callers must rule out. */
    method FreeDesc(i: nat)
      requires |t.free| == |t.desc| == NUM && i < NUM && !t.free[i]
      modifies this`t
      ensures t == old(t).(free := old(t).free[i := true], desc := old(t).desc[i := EMPTY])
    {
      t := t.(desc := t.desc[i := EMPTY]);
      t := t.(free := t.free[i := true]);
    }

    /** Three free descriptors, or none if there are not three. */
    method Alloc3() returns (ok: bool, i0: nat, i1: nat, i2: nat)
      requires |t.free| == |t.desc| == NUM && forall d :: 0 <= d < NUM && t.free[d] ==> t.desc[d] == EMPTY
      modifies this`t
      ensures ok ==> && i0 < i1 < i2 < NUM && old(t).free[i0] && old(t).free[i1] && old(t).free[i2]
                     && t == old(t).(free := old(t).free[i0 := false][i1 := false][i2 := false])
      ensures !ok ==> t == old(t) && forall a, b, c :: 0 <= a < b < c < NUM ==> !(t.free[a] && t.free[b] && t.free[c])
    {
      i1, i2 := 0, 0;
      i0 := AllocDesc();
      if i0 == NUM {
        return false, i0, i1, i2;
      }
      i1 := AllocDesc();
      if i1 == NUM {
        FreeDesc(i0);
        Undone(old(t), t, [i0]);
        return false, i0, i1, i2;
      }
      i2 := AllocDesc();
      if i2 == NUM {
        FreeDesc(i0);
        FreeDesc(i1);
        Undone(old(t), t, [i0, i1]);
        return false, i0, i1, i2;
      }
      return true, i0, i1, i2;
    }

    /** Free the chain of request `h`, following the descriptors. */
    method FreeChain(h: nat, ghost r: Req)
      requires Laid(t, h, r)
      modifies this`t
      ensures t == Released(old(t), h, r)
    {
      var i := h;
      ghost var k := 0;
      ghost var chain := [h, r.i1, r.i2];
      while true
        invariant 0 <= k < 3 && i == chain[k] && |t.free| == |t.desc| == NUM
        invariant forall j :: k <= j < 3 ==> !t.free[chain[j]] && t.desc[chain[j]] == old(t).desc[chain[j]]
        invariant t == (if k == 0 then old(t)
                        else if k == 1 then old(t).(free := old(t).free[h := true], desc := old(t).desc[h := EMPTY])
                        else old(t).(free := old(t).free[h := true][r.i1 := true],
                                     desc := old(t).desc[h := EMPTY][r.i1 := EMPTY]))
        decreases 3 - k
      {
        var more, next := t.desc[i].hasNext, t.desc[i].next;
        FreeDesc(i);
        if !more {
          break;
        }
        i, k := next, k + 1;
      }
    }

    /** Fill in the three descriptors. */
    method Format(b: nat, write: bool, blockno: nat, h: nat, i1: nat, i2: nat, ghost r: Req, ghost t0: Tables)
      requires |t0.free| == |t0.desc| == |t0.info| == |t0.ops| == NUM && h < i1 < i2 < NUM
      requires t == t0.(free := t0.free[h := false][i1 := false][i2 := false])
      requires r == Req(b, write, blockno, i1, i2, Queued)
      modifies this`t
      ensures t == Formatted(t0, h, r)
    {
      t := t.(ops := t.ops[h := BlkReq(write, blockno * 2)]);
      t := t.(desc := t.desc[h := Desc(Op(h), i1, true, false)]);
      t := t.(desc := t.desc[i1 := Desc(Data(b), i2, true, !write)]);
      t := t.(desc := t.desc[i2 := Desc(Status(h), 0, false, true)]);
      t := t.(info := t.info[h := Info(Some(b), 0xff)]);
    }

    method PushAvail(h: nat)
      requires Ring(avail, availIdx, devIdx, availTotal, availQ) && |availQ| < NUM
      modifies this`avail, this`availIdx, this`availQ, this`availTotal
      ensures Ring(avail, availIdx, devIdx, availTotal, availQ) && availQ == old(availQ) + [h]
    {
      RingPush(avail, availIdx, devIdx, availTotal, availQ, h);
      avail := avail[availIdx % NUM := h];
      availIdx := (availIdx + 1) % WRAP;
      availQ, availTotal := availQ + [h], availTotal + 1;
    }

    method PushUsed(h: nat)
      requires Ring(used, usedIdx, seenIdx, usedTotal, usedQ) && |usedQ| < NUM
      modifies this`used, this`usedIdx, this`usedQ, this`usedTotal
      ensures Ring(used, usedIdx, seenIdx, usedTotal, usedQ) && usedQ == old(usedQ) + [h]
    {
      RingPush(used, usedIdx, seenIdx, usedTotal, usedQ, h);
      used := used[usedIdx % NUM := h];
      usedIdx := (usedIdx + 1) % WRAP;
      usedQ, usedTotal := usedQ + [h], usedTotal + 1;
    }

    /** b->disk = 1 and the avail ring. */
    method Enqueue(b: nat, h: nat, ghost reqs1: map<nat, Req>, ghost owner1: seq<Option<nat>>, ghost q1: seq<nat>)
      requires |availQ| < NUM && q1 == availQ + [h]
      requires Requests(t, reqs1, owner1, busy + {b}, data, |platter|) && Queues(reqs1, q1, usedQ)
      requires Rings()
      modifies this`busy, this`avail, this`availIdx, this`reqs, this`owner, this`availQ, this`availTotal
      ensures Valid() && busy == old(busy) + {b} && reqs == reqs1 && availQ == q1
    {
      busy := busy + {b};
      PushAvail(h);
      reqs, owner := reqs1, owner1;
    }

    /** Queue the request once it has its descriptors. */
    method Launch(b: nat, write: bool, blockno: nat, h: nat, i1: nat, i2: nat, ghost r: Req, ghost t0: Tables)
      requires Requests(t0, reqs, owner, busy, data, |platter|) && Queues(reqs, availQ, usedQ) && Rings()
      requires b in data && blockno < |platter| && forall g :: g in reqs ==> reqs[g].b != b
      requires h < i1 < i2 < NUM && AllFree(t0, h, r) && r == Req(b, write, blockno, i1, i2, Queued)
      requires t == t0.(free := t0.free[h := false][i1 := false][i2 := false])
      modifies this`t, this`busy, this`avail, this`availIdx, this`reqs, this`owner, this`availQ, this`availTotal
      ensures Valid() && h !in old(reqs) && reqs == old(reqs)[h := r]
      ensures busy == old(busy) + {b} && availQ == old(availQ) + [h]
    {
      FormatPartition(t0, reqs, owner, h, r);
      NewRequest(t0, reqs, owner, busy, data, |platter|, h, r, availQ, usedQ);
      Format(b, write, blockno, h, i1, i2, r, t0);
      Enqueue(b, h, reqs[h := r], Owned(owner, h, r, Some(h)), availQ + [h]);
    }

    /** The first half of `virtio_disk_rw`: queue a request, or report that there
        are not three free descriptors. */
    method Submit(b: nat, write: bool, blockno: nat) returns (ok: bool, h: nat, ghost r: Req)
      requires Valid() && b !in busy && b in data && blockno < |platter| && forall g :: g in reqs ==> reqs[g].b != b
      modifies this
      ensures Valid() && data == old(data) && platter == old(platter) && usedQ == old(usedQ)
      ensures !ok ==> t == old(t) && reqs == old(reqs) && busy == old(busy) && availQ == old(availQ)
      ensures !ok ==> forall x, y, z :: 0 <= x < y < z < NUM ==> !(t.free[x] && t.free[y] && t.free[z])
      ensures ok ==> && h !in old(reqs) && r == Req(b, write, blockno, r.i1, r.i2, Queued) && reqs == old(reqs)[h := r]
                     && busy == old(busy) + {b} && availQ == old(availQ) + [h]
    {
      FreeEmpty(t, reqs, owner);
      var i1, i2;
      ok, h, i1, i2 := Alloc3();
      r := Req(b, write, blockno, i1, i2, Queued);
      if !ok {
        return;
      }
      Launch(b, write, blockno, h, i1, i2, r, old(t));
    }

    /** The device reads the next entry of the avail ring. */
    method DeviceTake() returns (h: nat)
      requires Valid() && devIdx != availIdx
      modifies this`devIdx, this`reqs, this`availQ
      ensures Valid() && old(availQ) != [] && h == old(availQ)[0] && availQ == old(availQ)[1..] && h in old(reqs)
      ensures reqs == Advance(old(reqs), h, Taken)
    {
      RingPop(avail, availIdx, availTotal, availQ, devIdx);
      TakeEffect(t, reqs, owner, busy, data, |platter|, availQ, usedQ);
      h := avail[devIdx % NUM];
      devIdx := (devIdx + 1) % WRAP;
      reqs, availQ := Advance(reqs, h, Taken), availQ[1..];
    }

    /** The device carries out a request as its descriptors say. */
    method Transfer(h: nat, ghost r: Req)
      requires ChainOk(t, h, r) && r.b in data && r.blockno < |platter|
      modifies this`t, this`data, this`platter
      ensures t == old(t).(info := old(t).info[h := old(t).info[h].(status := 0)])
      ensures Transferred(r, old(data), old(platter), data, platter)
    {
      var op := t.ops[t.desc[h].addr.i];
      var d1 := t.desc[h].next;
      var b := t.desc[d1].addr.b;
      var d2 := t.desc[d1].next;
      if op.write {
        platter := platter[op.sector / 2 := data[b]];
      } else {
        data := data[b := platter[op.sector / 2]];
      }
      var st := t.desc[d2].addr.i;
      t := t.(info := t.info[st := t.info[st].(status := 0)]);
    }

    /** A carried-out request goes in the used ring. */
    method Publish(h: nat)
      requires h in reqs && |usedQ| < NUM && Requests(t, Advance(reqs, h, Done), owner, busy, data, |platter|)
      requires Queues(Advance(reqs, h, Done), availQ, usedQ + [h])
      requires Ring(avail, availIdx, devIdx, availTotal, availQ) && Ring(used, usedIdx, seenIdx, usedTotal, usedQ)
      modifies this`used, this`usedIdx, this`usedQ, this`usedTotal, this`reqs
      ensures Valid() && reqs == Advance(old(reqs), h, Done) && usedQ == old(usedQ) + [h]
    {
      PushUsed(h);
      reqs := Advance(reqs, h, Done);
    }

    /** The device completes any request it has taken: the data go where the
        request says, and the request goes in the used ring. */
    method DeviceComplete(h: nat)
      requires Valid() && h in reqs && reqs[h].stage == Taken
      modifies this`t, this`data, this`platter, this`used, this`usedIdx, this`usedQ, this`usedTotal, this`reqs
      ensures Valid() && reqs == Advance(old(reqs), h, Done) && usedQ == old(usedQ) + [h]
      ensures Transferred(old(reqs)[h], old(data), old(platter), data, platter)
    {
      ghost var t0, data0 := t, data;
      ReadyToComplete(t, reqs, owner, busy, data, |platter|, usedQ, h);
      Transfer(h, reqs[h]);
      DoneEffect(t0, reqs, owner, busy, data0, data, |platter|, availQ, usedQ, h);
      Publish(h);
    }

    /** One turn of the loop of `virtio_disk_intr`: tells exactly one buffer, and
        never panics. */
    method IntrOne() returns (b: nat)
      requires Valid() && seenIdx != usedIdx
      modifies this`busy, this`seenIdx, this`reqs, this`usedQ
      ensures Valid() && old(usedQ) != [] && old(usedQ)[0] in old(reqs) && usedQ == old(usedQ)[1..]
      ensures reqs == Advance(old(reqs), old(usedQ)[0], Seen) && b == old(reqs)[old(usedQ)[0]].b
      ensures b in old(busy) && busy == old(busy) - {b}
    {
      RingPop(used, usedIdx, usedTotal, usedQ, seenIdx);
      SeenEffect(t, reqs, owner, busy, data, |platter|, availQ, usedQ);
      var id := used[seenIdx % NUM];
      assert t.info[id].status == 0;
      b := t.info[id].b.value;
      busy := busy - {b};
      seenIdx := (seenIdx + 1) % WRAP;
      reqs, usedQ := Advance(reqs, id, Seen), usedQ[1..];
    }

    /** `virtio_disk_intr` with no completion in its midst: every completion is
        passed on. */
    method Intr()
      requires Valid()
      modifies this`busy, this`seenIdx, this`reqs, this`usedQ
      ensures Valid() && usedQ == [] && seenIdx == usedIdx
      ensures AllPassed(old(reqs), reqs) && forall h :: h in reqs ==> reqs[h].stage != Done
    {
      while seenIdx != usedIdx
        invariant Valid() && AllPassed(old(reqs), reqs)
        decreases |usedQ|
      {
        ghost var reqs1, h := reqs, if usedQ != [] then usedQ[0] else 0;
        assert InStage(usedQ, reqs, Done, 0);
        var b := IntrOne();
        PassedOne(old(reqs), reqs1, h);
      }
      RingPop(used, usedIdx, usedTotal, usedQ, seenIdx);
      forall h | h in reqs ensures reqs[h].stage != Done { assert Listed(usedQ, reqs, Done, h); }
    }

    /** The second half of `virtio_disk_rw`, woken with b->disk == 0. */
    method Finish(h: nat)
      requires Valid() && h in reqs && reqs[h].b !in busy
      modifies this`t, this`reqs, this`owner
      ensures Valid() && reqs == old(reqs) - {h}
      ensures ChainOk(old(t), h, old(reqs)[h]) && t == Ended(old(t), h, old(reqs)[h])
    {
      ReleasePartition(t, reqs, owner, h);
      FinishEffect(t, reqs, owner, busy, data, |platter|, availQ, usedQ, h);
      t := Forgotten(t, h);                           // disk.info[idx[0]].b = 0
      FreeChain(h, reqs[h]);
      reqs, owner := reqs - {h}, Owned(owner, h, reqs[h], None);
    }
  }
}
