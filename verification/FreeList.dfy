/** The free list of user/umalloc.c as an address-ordered sequence of blocks, in
    units of one header, and the headers in memory that represent it. */
module FreeList {
  const BASE := 1                      // the static header `base`; 0 is the null pointer

  datatype Block = Block(a: nat, n: nat)
  datatype Header = Header(ptr: nat, size: nat)

  /** Block `x` ends before `y` begins, with a gap. */
  predicate Below(x: Block, y: Block) { x.a + x.n < y.a }

  /** Ordered by address, and no two blocks touch. */
  predicate Ordered(bs: seq<Block>) {
    forall i, j {:trigger Below(bs[i], bs[j])} :: 0 <= i < j < |bs| ==> Below(bs[i], bs[j])
  }

  predicate Apart(x: Block, y: Block) { x.a + x.n <= y.a || y.a + y.n <= x.a }

  /** Units in the first `n` blocks. */
  function SumTo(bs: seq<Block>, n: nat): nat
    requires n <= |bs|
  {
    if n == 0 then 0 else SumTo(bs, n - 1) + bs[n - 1].n
  }

  function Sum(bs: seq<Block>): nat { SumTo(bs, |bs|) }

  predicate SameSize(xs: seq<Block>, i: nat, ys: seq<Block>, j: nat, t: nat) {
    i + t < |xs| && j + t < |ys| && xs[i + t].n == ys[j + t].n
  }

  lemma {:induction false} SumShift(xs: seq<Block>, i: nat, ys: seq<Block>, j: nat, m: nat)
    requires i + m <= |xs| && j + m <= |ys| && forall t :: 0 <= t < m ==> SameSize(xs, i, ys, j, t)
    ensures SumTo(xs, i + m) - SumTo(xs, i) == SumTo(ys, j + m) - SumTo(ys, j)
  {
    if m > 0 {
      SumShift(xs, i, ys, j, m - 1);
      assert SameSize(xs, i, ys, j, m - 1);
    }
  }

  lemma SumConcat(xs: seq<Block>, ys: seq<Block>)
    ensures Sum(xs + ys) == Sum(xs) + Sum(ys)
  {
    forall t | 0 <= t < |xs| ensures SameSize(xs + ys, 0, xs, 0, t) {}
    forall t | 0 <= t < |ys| ensures SameSize(xs + ys, |xs|, ys, 0, t) {}
    SumShift(xs + ys, 0, xs, 0, |xs|);
    SumShift(xs + ys, |xs|, ys, 0, |ys|);
  }

  lemma SumOne(b: Block)
    ensures Sum([b]) == b.n
  {
    assert SumTo([b], 1) == SumTo([b], 0) + [b][0].n;
  }

  lemma SumConcat3(xs: seq<Block>, b: Block, ys: seq<Block>)
    ensures Sum(xs + [b] + ys) == Sum(xs) + b.n + Sum(ys)
  {
    SumConcat(xs + [b], ys);
    SumConcat(xs, [b]);
    SumOne(b);
  }

  // ----- Headers in memory ---------------------------------------------------------------

  type Mem = map<nat, Header>

  function Addr(bs: seq<Block>, end: nat): nat { if bs == [] then end else bs[0].a }

  predicate HeaderOk(mem: Mem, bs: seq<Block>, end: nat, i: nat)
    requires i < |bs|
  {
    bs[i].a in mem && mem[bs[i].a] == Header(if i + 1 < |bs| then bs[i + 1].a else end, bs[i].n)
  }

  /** The headers of `bs` are linked in order, the last one to `end`. */
  predicate Chain(mem: Mem, bs: seq<Block>, end: nat) {
    forall i :: 0 <= i < |bs| ==> HeaderOk(mem, bs, end, i)
  }

  lemma ChainConcat(mem: Mem, xs: seq<Block>, ys: seq<Block>, end: nat)
    requires Chain(mem, xs, Addr(ys, end)) && Chain(mem, ys, end)
    ensures Chain(mem, xs + ys, end)
  {
    forall i | 0 <= i < |xs + ys| ensures HeaderOk(mem, xs + ys, end, i) {
      if i < |xs| {
        assert HeaderOk(mem, xs, Addr(ys, end), i);
      } else {
        assert HeaderOk(mem, ys, end, i - |xs|);
      }
    }
  }

  lemma ChainSplit(mem: Mem, bs: seq<Block>, end: nat, k: nat)
    requires Chain(mem, bs, end) && k <= |bs|
    ensures Chain(mem, bs[..k], Addr(bs[k..], end)) && Chain(mem, bs[k..], end)
  {
    forall i | 0 <= i < k ensures HeaderOk(mem, bs[..k], Addr(bs[k..], end), i) {
      assert HeaderOk(mem, bs, end, i);
    }
    forall i | 0 <= i < |bs| - k ensures HeaderOk(mem, bs[k..], end, i) {
      assert HeaderOk(mem, bs, end, k + i);
    }
  }

  lemma ChainFrame(mem: Mem, mem': Mem, bs: seq<Block>, end: nat)
    requires Chain(mem, bs, end)
    requires forall i :: 0 <= i < |bs| ==> bs[i].a in mem && bs[i].a in mem' && mem'[bs[i].a] == mem[bs[i].a]
    ensures Chain(mem', bs, end)
  {
    forall i | 0 <= i < |bs| ensures HeaderOk(mem', bs, end, i) {
      assert HeaderOk(mem, bs, end, i);
    }
  }

  // ----- Inserting a block ---------------------------------------------------------------

  /** Block `b` goes after `bs[k]` and is joined with the neighbours it touches. */
  function Rest(bs: seq<Block>, k: nat, b: Block): seq<Block>
    requires k < |bs|
  {
    if k + 1 < |bs| && b.a + b.n == bs[k + 1].a then bs[k + 2..] else bs[k + 1..]
  }

  function Upper(bs: seq<Block>, k: nat, b: Block): Block
    requires k < |bs|
  {
    if k + 1 < |bs| && b.a + b.n == bs[k + 1].a then Block(b.a, b.n + bs[k + 1].n) else b
  }

  function Insert(bs: seq<Block>, k: nat, b: Block): seq<Block>
    requires k < |bs|
  {
    if bs[k].a + bs[k].n == b.a
    then bs[..k] + [Block(bs[k].a, bs[k].n + Upper(bs, k, b).n)] + Rest(bs, k, b)
    else bs[..k + 1] + [Upper(bs, k, b)] + Rest(bs, k, b)
  }

  /** Block `b` belongs between `bs[k]` and its successor. */
  predicate FitsAfter(bs: seq<Block>, k: nat, b: Block) {
    k < |bs| && bs[k].a + bs[k].n <= b.a && b.n > 0 && (k + 1 < |bs| ==> b.a + b.n <= bs[k + 1].a)
  }

  lemma UpperSum(bs: seq<Block>, k: nat, b: Block)
    requires k < |bs|
    ensures Upper(bs, k, b).n + Sum(Rest(bs, k, b)) == b.n + Sum(bs[k + 1..])
  {
    if k + 1 < |bs| {
      SumOne(bs[k + 1]);
      SumConcat([bs[k + 1]], bs[k + 2..]);
      assert bs[k + 1..] == [bs[k + 1]] + bs[k + 2..];
    }
  }

  /** Nothing is lost and nothing is gained. */
  lemma InsertSum(bs: seq<Block>, k: nat, b: Block)
    requires k < |bs|
    ensures Sum(Insert(bs, k, b)) == Sum(bs) + b.n
  {
    var u, r := Upper(bs, k, b), Rest(bs, k, b);
    UpperSum(bs, k, b);
    SumConcat3(bs[..k], bs[k], bs[k + 1..]);
    assert bs == bs[..k] + [bs[k]] + bs[k + 1..];
    if bs[k].a + bs[k].n == b.a {
      SumConcat3(bs[..k], Block(bs[k].a, bs[k].n + u.n), r);
    } else {
      SumConcat3(bs[..k + 1], u, r);
      SumOne(bs[k]);
      SumConcat(bs[..k], [bs[k]]);
      assert bs[..k + 1] == bs[..k] + [bs[k]];
    }
  }

  /** Where each block of the result comes from. */
  lemma InsertedAt(bs: seq<Block>, k: nat, b: Block, i: nat)
    requires k < |bs| && i < |Insert(bs, k, b)|
    ensures var u, r, down, x := Upper(bs, k, b), Rest(bs, k, b), bs[k].a + bs[k].n == b.a, Insert(bs, k, b)[i];
            if i < k then x == bs[i]
            else if i == k then x == if down then Block(bs[k].a, bs[k].n + u.n) else bs[k]
            else if i == k + 1 && !down then x == u
            else var m := if down then i - k - 1 else i - k - 2; m < |r| && x == r[m]
  {
  }

  /** Still in order, and still no two blocks touch. */
  lemma InsertOrdered(bs: seq<Block>, k: nat, b: Block)
    requires Ordered(bs) && FitsAfter(bs, k, b)
    ensures Ordered(Insert(bs, k, b)) && Insert(bs, k, b) != [] && Insert(bs, k, b)[0].a == bs[0].a
  {
    var u, r, bs' := Upper(bs, k, b), Rest(bs, k, b), Insert(bs, k, b);
    forall j | 0 <= j < |r| ensures Below(bs[k], r[j]) && Below(u, r[j]) {
      assert r[j] == bs[j + |bs| - |r|];
      if k + 1 < |bs| && j + |bs| - |r| > k + 1 { assert Below(bs[k + 1], bs[j + |bs| - |r|]); }
    }
    forall i | 0 <= i < k ensures Below(bs[i], bs[k]) {}
    forall i, j | 0 <= i < j < |bs'| ensures Below(bs'[i], bs'[j]) {
      InsertedAt(bs, k, b, i);
      InsertedAt(bs, k, b, j);
    }
  }

  /** What was apart from `b` and from every block is apart from the result. */
  lemma InsertApart(bs: seq<Block>, k: nat, b: Block, x: Block)
    requires k < |bs| && x.n > 0 && Apart(x, b) && forall i :: 0 <= i < |bs| ==> Apart(x, bs[i])
    requires FitsAfter(bs, k, b)
    ensures forall i :: 0 <= i < |Insert(bs, k, b)| ==> Apart(x, Insert(bs, k, b)[i])
  {
    assert Apart(x, bs[k]);
    if k + 1 < |bs| { assert Apart(x, bs[k + 1]); }
    var u := Upper(bs, k, b);
    assert Apart(x, u);
  }
}
