/** malloc and free of user/umalloc.c, on headers in memory. */
module Umalloc {
  import opened Common
  import opened FreeList

  const HEADER := 16                   // sizeof(Header)
  const CHUNK := 4096                  // least number of units to ask for

  /** An allocation: its header says its size, and it overlaps no free block. */
  predicate LiveOk(mem: Mem, blocks: seq<Block>, top: nat, x: Block) {
    && x.n > 0 && BASE < x.a && x.a + x.n <= top && x.a in mem && mem[x.a].size == x.n
    && forall i :: 0 <= i < |blocks| ==> Apart(x, blocks[i])
  }

  predicate Disjoint(live: seq<Block>) {
    forall i, j {:trigger Apart(live[i], live[j])} :: 0 <= i < j < |live| ==> Apart(live[i], live[j])
  }

  /** The free list: in address order, no two blocks touching, none empty but
      `base`. */
  predicate FreeOk(mem: Mem, blocks: seq<Block>, top: nat) {
    && |blocks| > 0 && blocks[0] == Block(BASE, 0) && top > BASE && Ordered(blocks) && Chain(mem, blocks, BASE)
    && (forall i :: 0 < i < |blocks| ==> blocks[i].n > 0)
    && (forall i :: 0 <= i < |blocks| ==> blocks[i].a + blocks[i].n <= top)
  }

  predicate HeapOk(mem: Mem, blocks: seq<Block>, live: seq<Block>, top: nat, obtained: nat) {
    && FreeOk(mem, blocks, top)
    && (forall j :: 0 <= j < |live| ==> LiveOk(mem, blocks, top, live[j])) && Disjoint(live)
    && Sum(blocks) + Sum(live) == obtained
  }

  function Without(bs: seq<Block>, j: nat): seq<Block>
    requires j < |bs|
  {
    bs[..j] + bs[j + 1..]
  }

  lemma SumWithout(bs: seq<Block>, j: nat)
    requires j < |bs|
    ensures Sum(Without(bs, j)) == Sum(bs) - bs[j].n
  {
    SumConcat3(bs[..j], bs[j], bs[j + 1..]);
    SumConcat(bs[..j], bs[j + 1..]);
    assert bs == bs[..j] + [bs[j]] + bs[j + 1..];
  }

  lemma SumSnoc(bs: seq<Block>, b: Block)
    ensures Sum(bs + [b]) == Sum(bs) + b.n
  {
    SumConcat(bs, [b]);
    SumOne(b);
  }

  // ----- Where a block belongs ------------------------------------------------------------

  /** The last block that starts below `a`. */
  predicate Place(blocks: seq<Block>, a: nat, k: nat) {
    k < |blocks| && blocks[k].a < a && (k + 1 < |blocks| ==> a < blocks[k + 1].a)
  }

  lemma {:induction false} PlaceExists(blocks: seq<Block>, a: nat, n: nat) returns (k: nat)
    requires 0 < n <= |blocks| && blocks[0].a < a && (n < |blocks| ==> a < blocks[n].a)
    requires forall i :: 0 <= i < |blocks| ==> blocks[i].a != a
    ensures Place(blocks, a, k)
  {
    if blocks[n - 1].a < a {
      k := n - 1;
    } else {
      k := PlaceExists(blocks, a, n - 1);
    }
  }

  /** The search for `a` is not over before it gets to its place. */
  lemma Passed(blocks: seq<Block>, a: nat, i: nat, k: nat)
    requires Ordered(blocks) && Place(blocks, a, k) && i < |blocks|
    ensures i < k ==> blocks[i].a < blocks[i + 1].a < a
    ensures blocks[0].a <= blocks[i].a
    ensures i > k ==>
             a < blocks[i].a && blocks[0].a < blocks[i].a && (i + 1 < |blocks| ==> blocks[i].a < blocks[i + 1].a)
  {
    assert i < k ==> Below(blocks[i], blocks[i + 1]) && (i + 1 < k ==> Below(blocks[i + 1], blocks[k]));
    assert i > 0 ==> Below(blocks[0], blocks[i]);
    assert i > k ==> (i > k + 1 ==> Below(blocks[k + 1], blocks[i]));
    assert i + 1 < |blocks| ==> Below(blocks[i], blocks[i + 1]);
  }

  lemma LiveFits(mem: Mem, blocks: seq<Block>, top: nat, x: Block, k: nat)
    requires FreeOk(mem, blocks, top) && LiveOk(mem, blocks, top, x) && Place(blocks, x.a, k)
    ensures FitsAfter(blocks, k, x)
  {
    assert Apart(x, blocks[k]);
    if k + 1 < |blocks| { assert Apart(x, blocks[k + 1]); }
  }

  lemma HeadersDiffer(mem: Mem, blocks: seq<Block>, top: nat, x: Block, i: nat)
    requires FreeOk(mem, blocks, top) && LiveOk(mem, blocks, top, x) && i < |blocks|
    ensures blocks[i].a != x.a
  {
    assert Apart(x, blocks[i]);
  }

  /** Steps from `i` to `k` around a cycle of `n`. */
  function Distance(i: nat, k: nat, n: nat): nat { if i <= k then k - i else if k + n >= i then k + n - i else 0 }

  // ----- The headers after free ------------------------------------------------------------

  /** The two joins of `free`, as updates of headers. */
  function JoinUpper(mem: Mem, p: nat, bp: nat): Mem
    requires p in mem && bp in mem
  {
    if bp + mem[bp].size == mem[p].ptr && mem[p].ptr in mem
    then mem[bp := Header(mem[mem[p].ptr].ptr, mem[bp].size + mem[mem[p].ptr].size)]
    else mem[bp := Header(mem[p].ptr, mem[bp].size)]
  }

  function JoinLower(mem: Mem, p: nat, bp: nat): Mem
    requires p in mem && bp in mem
  {
    if p + mem[p].size == bp then mem[p := Header(mem[bp].ptr, mem[p].size + mem[bp].size)]
    else mem[p := Header(bp, mem[p].size)]
  }

  lemma UpperJoined(mem: Mem, blocks: seq<Block>, top: nat, x: Block, k: nat)
    requires FreeOk(mem, blocks, top) && LiveOk(mem, blocks, top, x) && Place(blocks, x.a, k)
    ensures blocks[k].a in mem
    ensures var mem' := JoinUpper(mem, blocks[k].a, x.a);
            && mem' == mem[x.a := Header(Addr(Rest(blocks, k, x), BASE), Upper(blocks, k, x).n)]
            && Chain(mem', blocks[..k + 1], Addr(blocks[k + 1..], BASE)) && Chain(mem', Rest(blocks, k, x), BASE)
  {
    assert HeaderOk(mem, blocks, BASE, k);
    if k + 1 < |blocks| { assert HeaderOk(mem, blocks, BASE, k + 1); }
    forall i | 0 <= i < |blocks| ensures blocks[i].a != x.a && blocks[i].a in mem {
      HeadersDiffer(mem, blocks, top, x, i);
      assert HeaderOk(mem, blocks, BASE, i);
    }
    var mem', r := JoinUpper(mem, blocks[k].a, x.a), Rest(blocks, k, x);
    ChainSplit(mem, blocks, BASE, k + 1);
    ChainSplit(mem, blocks, BASE, |blocks| - |r|);
    ChainFrame(mem, mem', blocks[..k + 1], Addr(blocks[k + 1..], BASE));
    var m := |blocks| - |r|;
    assert r == blocks[m..];
    forall i | 0 <= i < |r| ensures r[i].a in mem && r[i].a in mem' && mem'[r[i].a] == mem[r[i].a] {
      assert r[i] == blocks[m + i];
    }
    ChainFrame(mem, mem', r, BASE);
  }

  lemma KeepPrefix(mem: Mem, mem': Mem, blocks: seq<Block>, k: nat, x: Block)
    requires k < |blocks| && Ordered(blocks) && Chain(mem, blocks[..k], blocks[k].a)
    requires forall a :: a in mem && a != blocks[k].a ==> a in mem' && mem'[a] == mem[a]
    ensures forall i :: 0 <= i < |blocks[..k]| ==>
             blocks[..k][i].a in mem && blocks[..k][i].a in mem' && mem'[blocks[..k][i].a] == mem[blocks[..k][i].a]
  {
    forall i | 0 <= i < |blocks[..k]|
      ensures blocks[..k][i].a in mem && blocks[..k][i].a in mem' && mem'[blocks[..k][i].a] == mem[blocks[..k][i].a]
    {
      assert HeaderOk(mem, blocks[..k], blocks[k].a, i);
      assert Below(blocks[i], blocks[k]);
    }
  }

  lemma KeepRest(mem: Mem, mem': Mem, blocks: seq<Block>, k: nat, x: Block)
    requires k < |blocks| && Ordered(blocks) && Chain(mem, Rest(blocks, k, x), BASE)
    requires forall a :: a in mem && a != blocks[k].a ==> a in mem' && mem'[a] == mem[a]
    ensures var r := Rest(blocks, k, x); forall i :: 0 <= i < |r| ==>
             r[i].a in mem && r[i].a in mem' && mem'[r[i].a] == mem[r[i].a]
  {
    var r := Rest(blocks, k, x);
    forall i | 0 <= i < |r| ensures r[i].a in mem && r[i].a in mem' && mem'[r[i].a] == mem[r[i].a] {
      assert HeaderOk(mem, r, BASE, i);
      assert r[i] == blocks[|blocks| - |r| + i] && Below(blocks[k], blocks[|blocks| - |r| + i]);
    }
  }

  lemma LowerJoined(mem: Mem, blocks: seq<Block>, k: nat, x: Block)
    requires k < |blocks|
    requires Ordered(blocks) && Place(blocks, x.a, k) && (forall i :: 0 <= i < |blocks| ==> blocks[i].a != x.a)
    requires Chain(mem, blocks[..k + 1], Addr(blocks[k + 1..], BASE)) && Chain(mem, Rest(blocks, k, x), BASE)
    requires x.a in mem && mem[x.a] == Header(Addr(Rest(blocks, k, x), BASE), Upper(blocks, k, x).n)
    ensures blocks[k].a in mem && Chain(JoinLower(mem, blocks[k].a, x.a), Insert(blocks, k, x), BASE)
  {
    var r, u, p := Rest(blocks, k, x), Upper(blocks, k, x), blocks[k].a;
    assert HeaderOk(mem, blocks[..k + 1], Addr(blocks[k + 1..], BASE), k);
    var mem' := JoinLower(mem, p, x.a);
    ChainSplit(mem, blocks[..k + 1], Addr(blocks[k + 1..], BASE), k);
    assert blocks[..k + 1][..k] == blocks[..k] && blocks[..k + 1][k..] == [blocks[k]];
    ChainFrame(mem, mem', blocks[..k], p) by { KeepPrefix(mem, mem', blocks, k, x); }
    ChainFrame(mem, mem', r, BASE) by { KeepRest(mem, mem', blocks, k, x); }
    if p + blocks[k].n == x.a {
      var c := Block(p, blocks[k].n + u.n);
      assert HeaderOk(mem', [c], Addr(r, BASE), 0);
      ChainConcat(mem', blocks[..k], [c], Addr(r, BASE));
      ChainConcat(mem', blocks[..k] + [c], r, BASE);
    } else {
      assert HeaderOk(mem', [blocks[k], u], Addr(r, BASE), 0) && HeaderOk(mem', [blocks[k], u], Addr(r, BASE), 1);
      ChainConcat(mem', blocks[..k], [blocks[k], u], Addr(r, BASE));
      ChainConcat(mem', blocks[..k] + [blocks[k], u], r, BASE);
      assert blocks[..k] + [blocks[k], u] + r == Insert(blocks, k, x);
    }
  }

  // ----- Steps on the whole heap -----------------------------------------------------------

  lemma InsertFreeOk(mem: Mem, mem': Mem, blocks: seq<Block>, top: nat, k: nat, x: Block)
    requires FreeOk(mem, blocks, top)
    requires FitsAfter(blocks, k, x) && x.a + x.n <= top && Chain(mem', Insert(blocks, k, x), BASE)
    requires blocks[k].a < x.a
    ensures FreeOk(mem', Insert(blocks, k, x), top)
  {
    InsertOrdered(blocks, k, x);
    var bs := Insert(blocks, k, x);
    forall i | 0 <= i < |bs| ensures bs[i].a + bs[i].n <= top && (i > 0 ==> bs[i].n > 0) {
      InsertedAt(blocks, k, x, i);
    }
    InsertedAt(blocks, k, x, 0);
  }

  lemma StillLive(mem: Mem, mem': Mem, blocks: seq<Block>, top: nat, y: Block, k: nat, x: Block)
    requires FreeOk(mem, blocks, top) && LiveOk(mem, blocks, top, y) && Apart(y, x) && FitsAfter(blocks, k, x)
    requires forall a :: a in mem && a != blocks[k].a && a != x.a ==> a in mem' && mem'[a] == mem[a]
    ensures LiveOk(mem', Insert(blocks, k, x), top, y)
  {
    HeadersDiffer(mem, blocks, top, y, k);
    InsertApart(blocks, k, x, y);
  }

  /** `free` moves a block from the allocations to the free list. */
  lemma FreeEffect(mem: Mem, blocks: seq<Block>, live: seq<Block>, top: nat, obtained: nat, j: nat, k: nat)
    requires HeapOk(mem, blocks, live, top, obtained) && j < |live| && Place(blocks, live[j].a, k)
    ensures blocks[k].a in mem && live[j].a in mem && mem[live[j].a].size == live[j].n
    ensures HeapOk(JoinLower(JoinUpper(mem, blocks[k].a, live[j].a), blocks[k].a, live[j].a),
                   Insert(blocks, k, live[j]), Without(live, j), top, obtained)
  {
    var x := live[j];
    assert LiveOk(mem, blocks, top, x);
    LiveFits(mem, blocks, top, x, k);
    UpperJoined(mem, blocks, top, x, k);
    var m1 := JoinUpper(mem, blocks[k].a, x.a);
    forall i | 0 <= i < |blocks| ensures blocks[i].a != x.a { HeadersDiffer(mem, blocks, top, x, i); }
    LowerJoined(m1, blocks, k, x);
    var m2, bs, rest := JoinLower(m1, blocks[k].a, x.a), Insert(blocks, k, x), Without(live, j);
    InsertFreeOk(mem, m2, blocks, top, k, x);
    InsertSum(blocks, k, x);
    SumWithout(live, j);
    forall i | 0 <= i < |rest| ensures LiveOk(m2, bs, top, rest[i]) {
      var l := if i < j then i else i + 1;
      assert rest[i] == live[l] && LiveOk(mem, blocks, top, live[l]);
      assert if l < j then Apart(live[l], live[j]) else Apart(live[j], live[l]);
      StillLive(mem, m2, blocks, top, live[l], k, x);
    }
    forall i, l | 0 <= i < l < |rest| ensures Apart(rest[i], rest[l]) {
      var i', l' := if i < j then i else i + 1, if l < j then l else l + 1;
      assert rest[i] == live[i'] && rest[l] == live[l'] && i' < l';
    }
  }

  lemma NextThere(mem: Mem, blocks: seq<Block>, k: nat)
    requires k < |blocks| && Chain(mem, blocks, BASE) && blocks[0].a == BASE
    ensures blocks[k].a in mem && mem[blocks[k].a].ptr in mem
  {
    assert HeaderOk(mem, blocks, BASE, k) && HeaderOk(mem, blocks, BASE, 0);
    if k + 1 < |blocks| { assert HeaderOk(mem, blocks, BASE, k + 1); }
  }

  // ----- Taking a block out -----------------------------------------------------------------

  /** Some free block has `n` units. */
  predicate Fits(blocks: seq<Block>, i: nat, n: nat) { i < |blocks| && blocks[i].n >= n }

  lemma UnlinkFree(mem: Mem, blocks: seq<Block>, top: nat, i: nat)
    requires FreeOk(mem, blocks, top) && 0 < i < |blocks|
    ensures blocks[i].a in mem && blocks[i - 1].a in mem
    ensures var p, q := blocks[i].a, blocks[i - 1].a;
            FreeOk(mem[q := Header(mem[p].ptr, mem[q].size)], Without(blocks, i), top)
  {
    var p, q := blocks[i].a, blocks[i - 1].a;
    assert HeaderOk(mem, blocks, BASE, i) && HeaderOk(mem, blocks, BASE, i - 1);
    var mem', bs := mem[q := Header(mem[p].ptr, mem[q].size)], Without(blocks, i);
    forall j | 0 <= j < |bs| ensures HeaderOk(mem', bs, BASE, j) {
      var l := if j < i then j else j + 1;
      assert bs[j] == blocks[l] && HeaderOk(mem, blocks, BASE, l);
      if l < i - 1 { assert Below(blocks[l], blocks[i - 1]); }
      if l > i - 1 { assert Below(blocks[i - 1], blocks[l]); }
    }
    forall j, l | 0 <= j < l < |bs| ensures Below(bs[j], bs[l]) {
      assert bs[j] == blocks[if j < i then j else j + 1] && bs[l] == blocks[if l < i then l else l + 1];
    }
  }

  lemma ApartFromRest(blocks: seq<Block>, i: nat, l: nat)
    requires Ordered(blocks) && i < |blocks| && l < |Without(blocks, i)|
    ensures Apart(blocks[i], Without(blocks, i)[l])
  {
    var m := if l < i then l else l + 1;
    assert Without(blocks, i)[l] == blocks[m];
    assert if m < i then Below(blocks[m], blocks[i]) else Below(blocks[i], blocks[m]);
  }

  /** An exact fit leaves the list. */
  lemma UnlinkEffect(mem: Mem, blocks: seq<Block>, live: seq<Block>, top: nat, obtained: nat, i: nat)
    requires HeapOk(mem, blocks, live, top, obtained) && 0 < i < |blocks|
    ensures blocks[i].a in mem && blocks[i - 1].a in mem
    ensures var p, q := blocks[i].a, blocks[i - 1].a;
            HeapOk(mem[q := Header(mem[p].ptr, mem[q].size)], Without(blocks, i), live + [blocks[i]], top, obtained)
  {
    var x, q := blocks[i], blocks[i - 1].a;
    UnlinkFree(mem, blocks, top, i);
    var mem', bs := mem[q := Header(mem[x.a].ptr, mem[q].size)], Without(blocks, i);
    SumWithout(blocks, i);
    SumSnoc(live, x);
    forall j | 0 <= j < |live| ensures LiveOk(mem', bs, top, live[j]) && Apart(live[j], x) {
      assert LiveOk(mem, blocks, top, live[j]) && Apart(live[j], blocks[i]);
      HeadersDiffer(mem, blocks, top, live[j], i - 1);
      forall l | 0 <= l < |bs| ensures Apart(live[j], bs[l]) { assert bs[l] == blocks[if l < i then l else l + 1]; }
    }
    forall l | 0 <= l < |bs| ensures Apart(x, bs[l]) { ApartFromRest(blocks, i, l); }
    assert Below(blocks[0], blocks[i]) && Below(blocks[i - 1], blocks[i]) && HeaderOk(mem, blocks, BASE, i);
    assert LiveOk(mem', bs, top, x);
  }

  lemma SplitHeader(mem: Mem, blocks: seq<Block>, i: nat, n: nat, stale: nat, j: nat)
    requires Ordered(blocks) && Chain(mem, blocks, BASE) && i < |blocks| && 0 < n < blocks[i].n && j < |blocks|
    ensures blocks[i].a in mem
    ensures var p, rest := blocks[i].a, blocks[i].n - n; var bs := blocks[i := Block(p, rest)];
            && HeaderOk(mem[p := Header(mem[p].ptr, rest)][p + rest := Header(stale, n)], bs, BASE, j)
            && Apart(Block(p + rest, n), bs[j])
  {
    assert HeaderOk(mem, blocks, BASE, i) && HeaderOk(mem, blocks, BASE, j);
    if j < i { assert Below(blocks[j], blocks[i]); }
    if j > i { assert Below(blocks[i], blocks[j]); }
  }

  lemma ShrunkOrdered(blocks: seq<Block>, i: nat, rest: nat)
    requires Ordered(blocks) && i < |blocks| && rest <= blocks[i].n
    ensures Ordered(blocks[i := Block(blocks[i].a, rest)])
  {
    var bs := blocks[i := Block(blocks[i].a, rest)];
    forall j, l | 0 <= j < l < |bs| ensures Below(bs[j], bs[l]) { assert Below(blocks[j], blocks[l]); }
  }

  lemma SplitFree(mem: Mem, blocks: seq<Block>, top: nat, i: nat, n: nat, stale: nat)
    requires FreeOk(mem, blocks, top) && 0 < i < |blocks| && 0 < n < blocks[i].n
    ensures blocks[i].a in mem && BASE < blocks[i].a
    ensures var p, rest := blocks[i].a, blocks[i].n - n; var bs := blocks[i := Block(p, rest)];
            && FreeOk(mem[p := Header(mem[p].ptr, rest)][p + rest := Header(stale, n)], bs, top)
            && forall j :: 0 <= j < |bs| ==> Apart(Block(p + rest, n), bs[j])
  {
    var p, rest := blocks[i].a, blocks[i].n - n;
    assert HeaderOk(mem, blocks, BASE, i) && Below(blocks[0], blocks[i]);
    var mem', bs := mem[p := Header(mem[p].ptr, rest)][p + rest := Header(stale, n)], blocks[i := Block(p, rest)];
    forall j | 0 <= j < |bs| ensures HeaderOk(mem', bs, BASE, j) && Apart(Block(p + rest, n), bs[j]) {
      SplitHeader(mem, blocks, i, n, stale, j);
    }
    ShrunkOrdered(blocks, i, rest);
  }

  lemma SumShrunk(bs: seq<Block>, i: nat, n: nat)
    requires i < |bs| && n <= bs[i].n
    ensures Sum(bs[i := Block(bs[i].a, n)]) == Sum(bs) - bs[i].n + n
  {
    var b := Block(bs[i].a, n);
    SumConcat3(bs[..i], bs[i], bs[i + 1..]);
    SumConcat3(bs[..i], b, bs[i + 1..]);
    assert bs == bs[..i] + [bs[i]] + bs[i + 1..];
    assert bs[i := b] == bs[..i] + [b] + bs[i + 1..];
  }

  /** A block with room to spare gives up its tail. */
  lemma SplitEffect(mem: Mem, blocks: seq<Block>, live: seq<Block>, top: nat, obtained: nat, i: nat, n: nat, stale: nat)
    requires HeapOk(mem, blocks, live, top, obtained) && 0 < i < |blocks| && 0 < n < blocks[i].n
    ensures blocks[i].a in mem
    ensures var p, rest := blocks[i].a, blocks[i].n - n;
            HeapOk(mem[p := Header(mem[p].ptr, rest)][p + rest := Header(stale, n)],
                   blocks[i := Block(p, rest)], live + [Block(p + rest, n)], top, obtained)
  {
    var p, rest := blocks[i].a, blocks[i].n - n;
    var x := Block(p + rest, n);
    SplitFree(mem, blocks, top, i, n, stale);
    var mem' := mem[p := Header(mem[p].ptr, rest)][p + rest := Header(stale, n)];
    var bs, live' := blocks[i := Block(p, rest)], live + [x];
    SumShrunk(blocks, i, rest);
    SumSnoc(live, x);
    forall j | 0 <= j < |live| ensures LiveOk(mem', bs, top, live[j]) && Apart(live[j], x) {
      assert LiveOk(mem, blocks, top, live[j]) && Apart(live[j], blocks[i]);
      forall l | 0 <= l < |bs| ensures Apart(live[j], bs[l]) { assert Apart(live[j], blocks[l]); }
    }
    assert LiveOk(mem', bs, top, x);
  }

  // ----- Getting more memory ------------------------------------------------------------------

  lemma ObtainEffect(mem: Mem, blocks: seq<Block>, live: seq<Block>, top: nat, obtained: nat, a: nat, n: nat,
                     stale: nat)
    requires HeapOk(mem, blocks, live, top, obtained) && a >= top && n > 0
    ensures HeapOk(mem[a := Header(stale, n)], blocks, live + [Block(a, n)], a + n, obtained + n)
  {
    var mem', x := mem[a := Header(stale, n)], Block(a, n);
    var live' := live + [x];
    SumSnoc(live, x);
    forall i | 0 <= i < |blocks| ensures HeaderOk(mem', blocks, BASE, i) && Apart(x, blocks[i]) {
      assert HeaderOk(mem, blocks, BASE, i);
      assert blocks[i].a + blocks[i].n <= top && (i > 0 ==> blocks[i].n > 0);
    }
    forall j | 0 <= j < |live'| ensures LiveOk(mem', blocks, a + n, live'[j]) {
      if j < |live| { assert LiveOk(mem, blocks, top, live[j]); }
    }
    forall j | 0 <= j < |live| ensures Apart(live[j], x) { assert LiveOk(mem, blocks, top, live[j]); }
  }

  lemma InsertFits(blocks: seq<Block>, k: nat, x: Block) returns (i: nat)
    requires k < |blocks|
    ensures Fits(Insert(blocks, k, x), i, x.n)
  {
    if blocks[k].a + blocks[k].n == x.a {
      InsertedAt(blocks, k, x, k);
      i := k;
    } else {
      InsertedAt(blocks, k, x, k + 1);
      i := k + 1;
    }
  }

  /** Units for `nbytes` bytes: a header, and no more than it takes. */
  function Units(nbytes: nat): (n: nat)
    ensures n > 0 && nbytes <= HEADER * (n - 1) < nbytes + HEADER
  {
    (nbytes + HEADER - 1) / HEADER + 1
  }

  /** The units that `morecore` asks for when `nu` are needed. */
  function Asked(nu: nat): nat { if nu < CHUNK then CHUNK else nu }

  function Succ(i: nat, n: nat): nat { if i + 1 < n then i + 1 else 0 }

  /** Strictly between `f` and `i`, going round. */
  predicate Between(f: nat, l: nat, i: nat) { if f < i then f < l < i else f < l || l < i }

  lemma SameAddress(blocks: seq<Block>, i: nat, j: nat)
    requires Ordered(blocks) && i < |blocks| && j < |blocks| && blocks[i].a == blocks[j].a
    ensures i == j
  {
    assert i < j ==> Below(blocks[i], blocks[j]);
    assert j < i ==> Below(blocks[j], blocks[i]);
  }

  // ----- The code ------------------------------------------------------------

  class Heap {
    var mem: Mem
    var freep: nat
    ghost var blocks: seq<Block>       // the free list, from `base` on
    ghost var live: seq<Block>         // allocations not yet freed
    ghost var top: nat                 // end of the memory obtained
    ghost var obtained: nat            // units obtained from sbrk
    ghost var f: nat                   // where freep points

    ghost predicate Ready()
      reads this
    {
      HeapOk(mem, blocks, live, top, obtained) && f < |blocks| && freep == blocks[f].a
    }

    ghost predicate Valid()
      reads this
    {
      if freep == 0 then blocks == [] && live == [] && obtained == 0 && top > BASE else Ready()
    }

    constructor (top: nat)
      requires top > BASE
      ensures Valid() && live == [] && this.top == top && freep == 0 && obtained == 0
    {
      mem, freep := map[], 0;
      blocks, live, obtained, f := [], [], 0, 0;
      this.top := top;
    }

    /** The loop of `free`: the free block just below `bp`. */
    method FindPlace(bp: nat, ghost x: Block) returns (p: nat, ghost k: nat)
      requires Ready() && x.a == bp && LiveOk(mem, blocks, top, x)
      ensures Place(blocks, bp, k) && p == blocks[k].a
    {
      forall i | 0 <= i < |blocks| ensures blocks[i].a != bp { HeadersDiffer(mem, blocks, top, x, i); }
      k := PlaceExists(blocks, bp, |blocks|);
      p := freep;
      ghost var i: nat := f;
      assert HeaderOk(mem, blocks, BASE, i);
      Passed(blocks, bp, i, k);
      while !(bp > p && bp < mem[p].ptr)
        invariant i < |blocks| && p == blocks[i].a && HeaderOk(mem, blocks, BASE, i)
        decreases Distance(i, k, |blocks|)
      {
        if p >= mem[p].ptr && (bp > p || bp < mem[p].ptr) {
          break;
        }
        Passed(blocks, bp, i, k);
        i := if i + 1 < |blocks| then i + 1 else 0;
        p := mem[p].ptr;
        assert HeaderOk(mem, blocks, BASE, i);
      }
      Passed(blocks, bp, i, k);
      k := i;
    }

    /** Link the block at `bp` in after `p`, joining what touches. */
    method Join(p: nat, bp: nat)
      requires p in mem && bp in mem && mem[p].ptr in mem
      modifies this`mem
      ensures bp in JoinUpper(old(mem), p, bp) && mem == JoinLower(JoinUpper(old(mem), p, bp), p, bp)
    {
      var q := mem[p].ptr;
      if bp + mem[bp].size == q {
        mem := mem[bp := Header(mem[q].ptr, mem[bp].size + mem[q].size)];
      } else {
        mem := mem[bp := Header(q, mem[bp].size)];
      }
      if p + mem[p].size == bp {
        mem := mem[p := Header(mem[bp].ptr, mem[p].size + mem[bp].size)];
      } else {
        mem := mem[p := Header(bp, mem[p].size)];
      }
    }

    /** Give back allocation `j`, whose header is at `bp`. */
    method Free(bp: nat, ghost j: nat) returns (ghost k: nat)
      requires Ready() && j < |live| && live[j].a == bp
      modifies this
      ensures Ready() && live == Without(old(live), j) && top == old(top) && obtained == old(obtained)
      ensures Place(old(blocks), bp, k) && blocks == Insert(old(blocks), k, old(live)[j]) && f == k
    {
      assert LiveOk(mem, blocks, top, live[j]);
      var p;
      p, k := FindPlace(bp, live[j]);
      FreeEffect(mem, blocks, live, top, obtained, j, k);
      NextThere(mem, blocks, k);
      Join(p, bp);
      InsertedAt(blocks, k, live[j], k);
      blocks, live, f := Insert(blocks, k, live[j]), Without(live, j), k;
      freep := p;
    }

    /** One round of the search of `malloc`, from freep: the first block of `n`
        units and the block before it, or nothing if no block is that big. */
    method Search(n: nat) returns (found: bool, prevp: nat, p: nat, ghost i: nat)
      requires Ready() && n > 0
      ensures found ==> 0 < i && Fits(blocks, i, n) && p == blocks[i].a && prevp == blocks[i - 1].a
      ensures !found ==> forall l :: 0 <= l < |blocks| ==> blocks[l].n < n
    {
      prevp := freep;
      assert HeaderOk(mem, blocks, BASE, f);
      i := Succ(f, |blocks|);
      p := mem[prevp].ptr;
      while true
        invariant i < |blocks| && p == blocks[i].a && (i > 0 ==> prevp == blocks[i - 1].a)
        invariant forall l :: 0 <= l < |blocks| && Between(f, l, i) ==> blocks[l].n < n
        decreases Distance(i, f, |blocks|)
      {
        assert HeaderOk(mem, blocks, BASE, i);
        if mem[p].size >= n {
          return true, prevp, p, i;
        }
        if p == freep {
          assert i == f by { SameAddress(blocks, i, f); }
          return false, prevp, p, i;
        }
        i, prevp, p := Succ(i, |blocks|), p, mem[p].ptr;
      }
    }

    method TakeAll(prevp: nat, p: nat, ghost i: nat)
      requires Ready() && 0 < i < |blocks| && p == blocks[i].a && prevp == blocks[i - 1].a
      modifies this`mem, this`live, this`blocks, this`freep, this`f
      ensures Ready() && live == old(live) + [old(blocks)[i]]
    {
      UnlinkEffect(mem, blocks, live, top, obtained, i);
      mem := mem[prevp := Header(mem[p].ptr, mem[prevp].size)];
      live, blocks := live + [blocks[i]], Without(blocks, i);
      freep, f := prevp, i - 1;
    }

    method TakeTail(prevp: nat, p: nat, n: nat, ghost i: nat) returns (q: nat)
      requires Ready() && 0 < i < |blocks| && 0 < n < blocks[i].n && p == blocks[i].a && prevp == blocks[i - 1].a
      modifies this`mem, this`live, this`blocks, this`freep, this`f
      ensures Ready() && live == old(live) + [Block(q, n)] && q == p + old(blocks)[i].n - n
    {
      assert HeaderOk(mem, blocks, BASE, i);
      q := p + mem[p].size - n;
      var stale := if q in mem then mem[q].ptr else 0;
      SplitEffect(mem, blocks, live, top, obtained, i, n, stale);
      mem := mem[p := Header(mem[p].ptr, mem[p].size - n)];
      mem := mem[q := Header(stale, n)];
      live, blocks := live + [Block(q, n)], blocks[i := Block(p, blocks[i].n - n)];
      freep, f := prevp, i - 1;
    }

    /** Hand out `n` units from block `i` at `p`: all of it, or its tail. */
    method Take(prevp: nat, p: nat, n: nat, ghost i: nat) returns (q: nat)
      requires Ready() && 0 < i && 0 < n && Fits(blocks, i, n) && p == blocks[i].a && prevp == blocks[i - 1].a
      modifies this`mem, this`live, this`blocks, this`freep, this`f
      ensures Ready() && live == old(live) + [Block(q, n)]
      ensures q + n == old(blocks)[i].a + old(blocks)[i].n
    {
      assert HeaderOk(mem, blocks, BASE, i);
      if mem[p].size == n {
        TakeAll(prevp, p, i);
        q := p;
      } else {
        q := TakeTail(prevp, p, n, i);
      }
    }

    /** Memory from sbrk starts out as an allocation. */
    method Obtain(hp: nat, n: nat)
      requires Ready() && hp >= top && n > 0
      modifies this`mem, this`live, this`top, this`obtained
      ensures Ready() && live == old(live) + [Block(hp, n)] && obtained == old(obtained) + n
    {
      var stale := if hp in mem then mem[hp].ptr else 0;
      ObtainEffect(mem, blocks, live, top, obtained, hp, n, stale);
      mem := mem[hp := Header(stale, n)];
      live, top, obtained := live + [Block(hp, n)], hp + n, obtained + n;
    }

    /** Ask sbrk, whose answer is `sb`, for at least `nu` units. */
    method Morecore(nu: nat, sb: Option<nat>) returns (ok: bool, ghost i: nat)
      requires Ready() && 0 < nu && (sb.Some? ==> sb.value >= top)
      modifies this
      ensures Ready() && live == old(live) && ok == sb.Some?
      ensures !ok ==> blocks == old(blocks) && obtained == old(obtained) && top == old(top)
      ensures ok ==> obtained == old(obtained) + Asked(nu) && Fits(blocks, i, nu)
    {
      var n := Asked(nu);
      if sb.None? {
        return false, 0;
      }
      ghost var live0, blocks0 := live, blocks;
      Obtain(sb.value, n);
      ghost var k;
      k := Free(sb.value, |live0|);
      assert Without(live0 + [Block(sb.value, n)], |live0|) == live0;
      i := InsertFits(blocks0, k, Block(sb.value, n));
      return true, i;
    }

    /** The first call makes the free list, of `base` alone. */
    method Start()
      requires Valid()
      modifies this`mem, this`freep, this`blocks, this`f
      ensures Ready()
    {
      if freep == 0 {
        mem, freep := mem[BASE := Header(BASE, 0)], BASE;
        blocks, f := [Block(BASE, 0)], 0;
        assert HeaderOk(mem, blocks, BASE, 0);
        SumOne(Block(BASE, 0));
      }
    }

    /** The loop of malloc: `n` units of a block that is big enough, with more
        memory from sbrk if there is none. */
    method FindUnits(n: nat, sb: Option<nat>) returns (ap: nat)
      requires Ready() && 0 < n && (sb.Some? ==> sb.value >= top)
      modifies this
      ensures Ready()
      ensures ap == 0 ==> live == old(live) && obtained == old(obtained) && sb.None?
      ensures ap == 0 ==> forall l :: 0 <= l < |blocks| ==> blocks[l].n < n
      ensures ap != 0 ==> live == old(live) + [Block(ap - 1, n)]
      ensures obtained == old(obtained) || (sb.Some? && obtained == old(obtained) + Asked(n))
    {
      var found, prevp, p;
      ghost var i;
      found, prevp, p, i := Search(n);
      if !found {
        var ok;
        ok, i := Morecore(n, sb);
        if !ok {
          return 0;
        }
        found, prevp, p, i := Search(n);
      }
      var q := Take(prevp, p, n, i);
      return q + 1;
    }

    /** At least `nbytes` that overlap nothing that is in use, or null when sbrk
        refuses and no free block is big enough. */
    method Malloc(nbytes: nat, sb: Option<nat>) returns (ap: nat)
      requires Valid() && (sb.Some? ==> sb.value >= top)
      modifies this
      ensures Ready()
      ensures ap == 0 ==> live == old(live) && obtained == old(obtained) && sb.None?
      ensures ap == 0 ==> forall l :: 0 <= l < |blocks| ==> blocks[l].n < Units(nbytes)
      ensures ap != 0 ==> live == old(live) + [Block(ap - 1, Units(nbytes))]
      ensures obtained == old(obtained) || sb.Some?
      ensures obtained == old(obtained) || obtained == old(obtained) + Asked(Units(nbytes))
    {
      Start();
      ap := FindUnits(Units(nbytes), sb);
    }
  }
}
