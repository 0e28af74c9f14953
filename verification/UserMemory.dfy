/** kernel/vm.c, kernel/proc.c and kernel/exec.c on user memory: growing,
    shrinking, copying and freeing an address space, with every out-of-memory
    path. */
module UserMemory {
  import opened PageTable
  import opened Vm

  /** Exactly the first `n` pages of user memory are mapped. */
  predicate Region(s: Mem, t: nat, n: nat) {
    n <= TRAPFRAME && forall z :: 0 <= z < TRAPFRAME ==> (LeafPte(s, t, z) != 0 <==> z < n)
  }

  // ----- Memory is smaller than the address space ------------------------------------

  lemma {:induction false} CountLeaves(s: Mem, o: seq<Owner>, t: nat, n: nat, k: nat, pages: set<nat>)
    requires TreesOk(s, o) && t < |o| && o[t] == Root && Region(s, t, n) && k <= n
    requires pages == set x | 0 <= x < |o| && o[x].Leaf? && o[x].t == t && o[x].v < k
    ensures |pages| == k
    decreases k
  {
    if k > 0 {
      LeafPteOk(s, o, t, k - 1);
      var y := Ppn(LeafPte(s, t, k - 1));
      var rest := set x | 0 <= x < |o| && o[x].Leaf? && o[x].t == t && o[x].v < k - 1;
      forall x | x in pages ensures x in rest || x == y {
        assert PageOk(s, o, x);
      }
      assert y !in rest && pages == rest + {y};
      CountLeaves(s, o, t, n, k - 1, rest);
    }
  }

  lemma {:induction false} SetBound(pages: set<nat>, m: nat)
    requires forall x :: x in pages ==> x < m
    ensures |pages| <= m
    decreases m
  {
    if m > 0 {
      SetBound(pages - {m - 1}, m - 1);
    } else {
      assert pages == {};
    }
  }

  /** So many pages mapped, so many physical pages in use. */
  lemma RegionBound(s: Mem, o: seq<Owner>, t: nat, n: nat)
    requires TreesOk(s, o) && t < |o| && o[t] == Root && Region(s, t, n)
    ensures n <= |o| < TRAPFRAME
  {
    var pages := set x | 0 <= x < |o| && o[x].Leaf? && o[x].t == t && o[x].v < n;
    CountLeaves(s, o, t, n, n, pages);
    SetBound(pages, |o|);
  }

  // ----- Growing ----------------------------------------------------------------------------

  /** What a page of user memory should be: the flags of its mapping and its
      contents. */
  datatype Image = Image(flags: nat, data: Page)

  predicate Shows(s: Mem, w: nat, im: Image) {
    w != 0 && Flags(w) == im.flags && Ppn(w) < |s| && s[Ppn(w)] == im.data
  }

  /** Since `s0`, pages n0..n of `t` were mapped to fresh pages as in `img`. */
  ghost predicate Grown(s0: Mem, o0: seq<Owner>, s: Mem, o: seq<Owner>, t: nat, n0: nat, n: nat, img: seq<Image>) {
    && n0 <= n <= |img| && Kept(s0, o0, s, o)
    && (forall u, z :: 0 <= u < |o0| && o0[u] == Root && 0 <= z < NPTE * NPTE * NPTE && !(u == t && n0 <= z < n) ==>
          LeafPte(s, u, z) == LeafPte(s0, u, z))
    && (forall z :: n0 <= z < n ==> Shows(s, LeafPte(s, t, z), img[z]))
    && (forall y :: 0 <= y < |o0| && o[y] != o0[y] ==>
          o0[y] == Free && (((o[y].Mid? || o[y].Low?) && o[y].t == t) || InRange(o[y], t, n0, n - n0)))
  }

  method Uvmdealloc(vm: Vm, t: nat, oldsz: nat, newsz: nat) returns (r: nat)
    requires vm.Valid() && t < |vm.o| && vm.o[t] == Root && Region(vm.mem, t, PagesOf(oldsz))
    modifies vm
    ensures vm.Valid() && |vm.o| == |old(vm.o)|
    ensures r == if newsz >= oldsz then oldsz else newsz
    ensures Region(vm.mem, t, PagesOf(r))
    ensures RangeCleared(old(vm.mem), old(vm.o), vm.mem, vm.o, t, PagesOf(r), PagesOf(oldsz) - PagesOf(r), true)
    ensures |vm.free| == |old(vm.free)| + PagesOf(oldsz) - PagesOf(r)
  {
    if newsz >= oldsz {
      return oldsz;
    }
    if PagesOf(newsz) < PagesOf(oldsz) {
      vm.Uvmunmap(t, PagesOf(newsz), PagesOf(oldsz) - PagesOf(newsz), true);
    }
    return newsz;
  }

  lemma GaveBack(s0: Mem, o0: seq<Owner>, s1: Mem, s2: Mem, o2: seq<Owner>, s3: Mem, o3: seq<Owner>, t: nat, x: nat,
                 p: Page)
    requires |s0| == |o0| && x < |o0| && o0[x] == Free && s1 == s0[x := p] && SameLeaves(s0, s1, o0)
    requires SameLeaves(s1, s2, o0[x := Loose]) && TablesGrew(o0[x := Loose], o2, t) && Kept(s1, o0[x := Loose], s2, o2)
    requires SameLeaves(s2, s3, o2)
    requires o3 == o2[x := Free] && |s3| == |s2| && forall y :: 0 <= y < |s2| && y != x ==> s3[y] == s2[y]
    ensures NoGrowth(s0, o0, s3, o3, t)
  {
    SameLeavesTrans(s0, s1, s2, o0, o0[x := Loose]);
    SameLeavesTrans(s0, s2, s3, o0, o2);
  }

  lemma GrewOne(s0: Mem, o0: seq<Owner>, s1: Mem, s2: Mem, o2: seq<Owner>, t: nat, v: nat, x: nat, perm: nat, p: Page,
                img: seq<Image>)
    requires |s0| == |o0| && 0 < x < |o0| && o0[x] == Free
    requires s1 == s0[x := p] && v < |img| && img[v] == Image(perm + PTE_V, p) && SameLeaves(s0, s1, o0)
    requires v < TRAPFRAME && PermOk(perm) && t < |o0| && o0[t] == Root
    requires Mapped(s1, o0[x := Loose], s2, o2, t, v, x, perm) && Kept(s1, o0[x := Loose], s2, o2) && TreesOk(s2, o2)
    ensures Grown(s0, o0, s2, o2, t, v, v + 1, img)
  {
    PteFields(x, perm + PTE_V);
    var o1 := o0[x := Loose];
    forall u, z | 0 <= u < |o0| && o0[u] == Root && 0 <= z < NPTE * NPTE * NPTE && !(u == t && z == v)
      ensures LeafPte(s2, u, z) == LeafPte(s0, u, z)
    {
      assert o1[u] == Root && LeafPte(s2, u, z) == LeafPte(s1, u, z);
    }
    assert LeafPte(s2, t, v) == Pte(x, perm + PTE_V) by { assert o1[t] == Root; }
  }

  /** Map a fresh page with contents `p`: one turn of the loops of `uvmalloc`
      and `uvmcopy`. */
  method AddPage(vm: Vm, t: nat, v: nat, perm: nat, p: Page, ghost img: seq<Image>) returns (ok: bool)
    requires vm.Valid() && t < |vm.o| && vm.o[t] == Root && v < TRAPFRAME && LeafPte(vm.mem, t, v) == 0 && PermOk(perm)
    requires v < |img| && img[v] == Image(perm + PTE_V, p)
    modifies vm
    ensures vm.Valid() && |vm.o| == |old(vm.o)|
    ensures ok ==> Grown(old(vm.mem), old(vm.o), vm.mem, vm.o, t, v, v + 1, img)
    ensures !ok ==> NoGrowth(old(vm.mem), old(vm.o), vm.mem, vm.o, t) && |old(vm.free)| < 3
    ensures |vm.free| + 3 >= |old(vm.free)|
  {
    var x := vm.NewPage(p);
    if x == 0 {
      return false;
    }
    ghost var m1, o1 := vm.mem, vm.o;
    assert LeafPte(m1, t, v) == 0;
    assert Mappable(o1, v, x, 0);
    ghost var done;
    ok, done := vm.Mappages(t, v, 1, x, perm);
    if !ok {
      ghost var m2, o2 := vm.mem, vm.o;
      NoneMapped(m1, o1, m2, o2, t, v, x, perm);
      vm.Kfree(x);
      GaveBack(old(vm.mem), old(vm.o), m1, m2, o2, vm.mem, vm.o, t, x, p);
    } else {
      OneMapped(m1, o1, vm.mem, vm.o, t, v, x, perm);
      GrewOne(old(vm.mem), old(vm.o), m1, vm.mem, vm.o, t, v, x, perm, p, img);
    }
  }

  lemma GrownMore(s0: Mem, o0: seq<Owner>, s1: Mem, o1: seq<Owner>, s2: Mem, o2: seq<Owner>, t: nat, n0: nat, n: nat,
                  img: seq<Image>)
    requires Grown(s0, o0, s1, o1, t, n0, n, img) && Grown(s1, o1, s2, o2, t, n, n + 1, img)
    requires t < |o0| && o0[t] == Root && n < TRAPFRAME && TreesOk(s1, o1)
    ensures Grown(s0, o0, s2, o2, t, n0, n + 1, img)
  {
    forall u, z | 0 <= u < |o0| && o0[u] == Root && 0 <= z < NPTE * NPTE * NPTE && !(u == t && n0 <= z < n + 1)
      ensures LeafPte(s2, u, z) == LeafPte(s0, u, z)
    {
      assert o1[u] == Root && LeafPte(s2, u, z) == LeafPte(s1, u, z);
    }
    forall z | n0 <= z < n + 1 ensures Shows(s2, LeafPte(s2, t, z), img[z]) {
      if z < n {
        assert o1[t] == Root && LeafPte(s2, t, z) == LeafPte(s1, t, z);
        LeafPteOk(s1, o1, t, z);
        assert Shows(s1, LeafPte(s1, t, z), img[z]);
      }
    }
  }

  /** The leaf labels of a tree are within its region. */
  lemma NoLeafBeyond(s: Mem, o: seq<Owner>, t: nat, n: nat, y: nat)
    requires TreesOk(s, o) && t < |o| && Region(s, t, n) && y < |o| && o[y].Leaf? && o[y].t == t
    ensures o[y].v < n
  {
    assert PageOk(s, o, y);
  }

  /** Growth that got stuck and was taken back is no growth. */
  lemma GrowthUndone(s0: Mem, o0: seq<Owner>, s1: Mem, o1: seq<Owner>, s2: Mem, o2: seq<Owner>, s3: Mem, o3: seq<Owner>,
                     t: nat, n0: nat, n: nat, img: seq<Image>)
    requires Grown(s0, o0, s1, o1, t, n0, n, img) && NoGrowth(s1, o1, s2, o2, t)
    requires RangeCleared(s2, o2, s3, o3, t, n0, n - n0, true) && t < |o0| && o0[t] == Root && n <= TRAPFRAME
    requires TreesOk(s0, o0) && Region(s0, t, n0)
    ensures NoGrowth(s0, o0, s3, o3, t)
  {
    forall y | 0 <= y < |o0| ensures !InRange(o0[y], t, n0, n - n0) {
      if o0[y].Leaf? && o0[y].t == t { NoLeafBeyond(s0, o0, t, n0, y); }
    }
    forall u, z | 0 <= u < |o0| && o0[u] == Root && 0 <= z < NPTE * NPTE * NPTE
      ensures LeafPte(s3, u, z) == LeafPte(s0, u, z)
    {
      assert o1[u] == Root && o2[u] == Root;
      assert LeafPte(s2, u, z) == LeafPte(s1, u, z);
    }
    forall y | 0 <= y < |o0| && o3[y] == o0[y] && !IsTable(o0[y]) && o0[y] != Free ensures s3[y] == s0[y] {
      assert o1[y] == o0[y] && o2[y] == o1[y];
    }
  }

  lemma GrownRegion(s0: Mem, o0: seq<Owner>, s: Mem, o: seq<Owner>, t: nat, n0: nat, n: nat, img: seq<Image>)
    requires Grown(s0, o0, s, o, t, n0, n, img) && t < |o0| && o0[t] == Root && Region(s0, t, n0) && n <= TRAPFRAME
    ensures Region(s, t, n)
  {
    forall z | 0 <= z < TRAPFRAME ensures LeafPte(s, t, z) != 0 <==> z < n {
      if n0 <= z < n { assert Shows(s, LeafPte(s, t, z), img[z]); }
    }
  }

  lemma StuckRegion(s0: Mem, o0: seq<Owner>, s1: Mem, o1: seq<Owner>, s2: Mem, o2: seq<Owner>, t: nat, n0: nat, n: nat,
                    img: seq<Image>)
    requires Grown(s0, o0, s1, o1, t, n0, n, img) && NoGrowth(s1, o1, s2, o2, t)
    requires t < |o0| && o0[t] == Root && Region(s0, t, n0) && n <= TRAPFRAME
    ensures o2[t] == Root && Region(s2, t, n)
  {
    GrownRegion(s0, o0, s1, o1, t, n0, n, img);
    assert o1[t] == Root;
    forall z | 0 <= z < TRAPFRAME ensures LeafPte(s2, t, z) == LeafPte(s1, t, z) {}
  }

  /** Pages of zeros, readable, for the user, with permissions `xperm`. */
  function Zeroed(sz: nat, xperm: nat): seq<Image> {
    seq(PagesOf(sz), _ => Image(PTE_R + PTE_U + xperm + PTE_V, Fill(0)))
  }

  /** `uvmdealloc` from `v` pages down to `n0`. */
  method DropPages(vm: Vm, t: nat, v: nat, n0: nat) returns (r: nat)
    requires vm.Valid() && t < |vm.o| && vm.o[t] == Root && Region(vm.mem, t, v) && n0 <= v
    modifies vm
    ensures vm.Valid() && |vm.o| == |old(vm.o)| && |vm.free| >= |old(vm.free)| && r == 0
    ensures RangeCleared(old(vm.mem), old(vm.o), vm.mem, vm.o, t, n0, v - n0, true)
  {
    WholePages(v);
    WholePages(n0);
    var d := Uvmdealloc(vm, t, v * PGSIZE, n0 * PGSIZE);
    return 0;
  }

  /** The error path of `uvmalloc`. */
  method TakeBack(vm: Vm, t: nat, n0: nat, v: nat, ghost s0: Mem, ghost o0: seq<Owner>, ghost s1: Mem,
                  ghost o1: seq<Owner>, ghost img: seq<Image>)
    returns (r: nat)
    requires vm.Valid() && TreesOk(s0, o0) && t < |o0| == |vm.o| && o0[t] == Root && Region(s0, t, n0) && v <= TRAPFRAME
    requires Grown(s0, o0, s1, o1, t, n0, v, img) && NoGrowth(s1, o1, vm.mem, vm.o, t)
    modifies vm
    ensures vm.Valid() && |vm.o| == |o0| && r == 0 && NoGrowth(s0, o0, vm.mem, vm.o, t) && |vm.free| >= |old(vm.free)|
  {
    ghost var s2, o2 := vm.mem, vm.o;
    StuckRegion(s0, o0, s1, o1, s2, o2, t, n0, v, img);
    r := DropPages(vm, t, v, n0);
    GrowthUndone(s0, o0, s1, o1, s2, o2, vm.mem, vm.o, t, n0, v, img);
  }

  /** Grow to `newsz`.  0 means out of memory, and then no translation has
      changed and every page that was taken is free again, page tables apart. */
  method Uvmalloc(vm: Vm, t: nat, oldsz: nat, newsz: nat, xperm: nat) returns (r: nat)
    requires vm.Valid() && t < |vm.o| && vm.o[t] == Root && Region(vm.mem, t, PagesOf(oldsz))
    requires PermOk(PTE_R + PTE_U + xperm)
    modifies vm
    ensures vm.Valid() && |vm.o| == |old(vm.o)|
    ensures newsz < oldsz ==> r == oldsz && vm.mem == old(vm.mem) && vm.o == old(vm.o) && vm.free == old(vm.free)
    ensures newsz >= oldsz ==> r == newsz || r == 0
    ensures newsz >= oldsz && r == newsz > 0 ==>
              && Region(vm.mem, t, PagesOf(newsz))
              && Grown(old(vm.mem), old(vm.o), vm.mem, vm.o, t, PagesOf(oldsz), PagesOf(newsz), Zeroed(newsz, xperm))
    ensures newsz >= oldsz && r == 0 ==> NoGrowth(old(vm.mem), old(vm.o), vm.mem, vm.o, t)
    ensures newsz >= oldsz && r == 0 < newsz ==> |old(vm.free)| < 3 * (PagesOf(newsz) - PagesOf(oldsz))
    ensures newsz >= oldsz ==> |vm.free| + 3 * (PagesOf(newsz) - PagesOf(oldsz)) >= |old(vm.free)|
  {
    if newsz < oldsz {
      return oldsz;
    }
    ghost var s0, o0 := vm.mem, vm.o;
    var n0, n1, perm := PagesOf(oldsz), PagesOf(newsz), PTE_R + PTE_U + xperm;
    ghost var img := Zeroed(newsz, xperm);
    var v := n0;
    while v < n1
      invariant n0 <= v <= n1 && vm.Valid() && |vm.o| == |o0| && v <= TRAPFRAME
      invariant Grown(s0, o0, vm.mem, vm.o, t, n0, v, img) && |vm.free| + 3 * (v - n0) >= |old(vm.free)|
    {
      ghost var s1, o1 := vm.mem, vm.o;
      assert o1[t] == Root;
      GrownRegion(s0, o0, s1, o1, t, n0, v, img);
      RegionBound(s1, o1, t, v);
      var ok := AddPage(vm, t, v, perm, Fill(0), img);
      if !ok {
        r := TakeBack(vm, t, n0, v, s0, o0, s1, o1, img);
        return;
      }
      GrownMore(s0, o0, s1, o1, vm.mem, vm.o, t, n0, v, img);
      v := v + 1;
    }
    GrownRegion(s0, o0, vm.mem, vm.o, t, n0, n1, img);
    return newsz;
  }
}
