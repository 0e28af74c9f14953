/** The memory of processes: `uvmcopy` of kernel/vm.c; `allocproc`, `freeproc`,
    `growproc` and the memory part of `fork` of kernel/proc.c. */
module ProcMemory {
  import opened PageTable
  import opened Vm
  import opened UserMemory
  import opened TreeFree
  import opened AddressSpace

  // ----- Copying an address space -----------------------------------------------------

  /** What the entry `w` shows. */
  function Look(s: Mem, w: nat): Image { Image(Flags(w), if Ppn(w) < |s| then s[Ppn(w)] else Fill(0)) }

  /** The first `n` pages of user memory of `t`. */
  function Memory(s: Mem, t: nat, n: nat): seq<Image> { seq(n, (z: nat) => Look(s, LeafPte(s, t, z))) }

  lemma PermOfFlags(f: nat)
    requires f < 1024 && V(f) && HasRWX(f)
    ensures f >= 1 && PermOk(f - PTE_V)
  {
    assert f / 2 == (f - 1) / 2;
  }

  lemma FlagsFit(w: nat)
    requires V(w) && HasRWX(w)
    ensures Flags(w) >= 1 && PermOk(Flags(w) - PTE_V)
  {
    SplitPte(w);
    PteFields(Ppn(w), Flags(w));
    PermOfFlags(Flags(w));
  }

  /** While the child grows, the parent's page `v` stays what it was. */
  lemma ParentKept(s0: Mem, o0: seq<Owner>, s: Mem, o: seq<Owner>, p: nat, t: nat, n: nat, v: nat, img: seq<Image>)
    requires TreesOk(s0, o0)
    requires Grown(s0, o0, s, o, t, 0, n, img) && p < |o0| && o0[p] == Root && p != t && v < TRAPFRAME
    requires LeafPte(s0, p, v) != 0
    ensures LeafPte(s, p, v) == LeafPte(s0, p, v) && V(LeafPte(s, p, v)) && HasRWX(LeafPte(s, p, v))
    ensures Ppn(LeafPte(s, p, v)) < |s| && Look(s, LeafPte(s, p, v)) == Look(s0, LeafPte(s0, p, v))
  {
    LeafPteOk(s0, o0, p, v);
    var x := Ppn(LeafPte(s0, p, v));
    assert o0[x] == Leaf(p, v) && o[x] == o0[x];
  }

  /** One turn of the loop of `uvmcopy`. */
  method CopyPage(vm: Vm, p: nat, t: nat, v: nat, ghost s0: Mem, ghost o0: seq<Owner>, ghost img: seq<Image>)
    returns (ok: bool)
    requires vm.Valid() && TreesOk(s0, o0) && Grown(s0, o0, vm.mem, vm.o, t, 0, v, img)
    requires p < |o0| && o0[p] == Root && t < |o0| && o0[t] == Root && p != t && v < TRAPFRAME
    requires v < |img| && LeafPte(s0, p, v) != 0 && img[v] == Look(s0, LeafPte(s0, p, v)) && LeafPte(s0, t, v) == 0
    modifies vm
    ensures vm.Valid() && |vm.free| + 3 >= |old(vm.free)|
    ensures ok ==> Grown(s0, o0, vm.mem, vm.o, t, 0, v + 1, img)
    ensures !ok ==> NoGrowth(old(vm.mem), old(vm.o), vm.mem, vm.o, t) && |old(vm.free)| < 3
  {
    ghost var s1, o1 := vm.mem, vm.o;
    ParentKept(s0, o0, s1, o1, p, t, v, v, img);
    assert o1[t] == Root && o1[p] == Root && LeafPte(s1, t, v) == LeafPte(s0, t, v);
    var l := vm.Walk(p, v, false);
    var pte := vm.mem[l][v % NPTE];
    assert pte == LeafPte(s1, p, v);
    FlagsFit(pte);
    ok := AddPage(vm, t, v, Flags(pte) - PTE_V, vm.mem[Ppn(pte)], img);
    if ok {
      GrownMore(s0, o0, s1, o1, vm.mem, vm.o, t, 0, v, img);
    }
  }

  method UndoCopy(vm: Vm, t: nat, v: nat, ghost s0: Mem, ghost o0: seq<Owner>, ghost s1: Mem, ghost o1: seq<Owner>,
                  ghost img: seq<Image>)
    requires vm.Valid() && TreesOk(s0, o0) && t < |o0| == |vm.o| && o0[t] == Root && Region(s0, t, 0) && v <= TRAPFRAME
    requires Grown(s0, o0, s1, o1, t, 0, v, img) && NoGrowth(s1, o1, vm.mem, vm.o, t)
    modifies vm
    ensures vm.Valid() && NoGrowth(s0, o0, vm.mem, vm.o, t)
  {
    ghost var s2, o2 := vm.mem, vm.o;
    StuckRegion(s0, o0, s1, o1, s2, o2, t, 0, v, img);
    vm.Uvmunmap(t, 0, v, true);
    GrowthUndone(s0, o0, s1, o1, s2, o2, vm.mem, vm.o, t, 0, v, img);
  }

  /** Copy the first `sz` bytes of `p` into the empty `t`: same flags, same
      contents, on fresh pages.  On failure no copy is left. */
  method Uvmcopy(vm: Vm, p: nat, t: nat, sz: nat) returns (ok: bool)
    requires vm.Valid() && p < |vm.o| && vm.o[p] == Root && t < |vm.o| && vm.o[t] == Root && p != t
    requires Region(vm.mem, p, PagesOf(sz)) && Region(vm.mem, t, 0)
    modifies vm
    ensures vm.Valid() && |vm.o| == |old(vm.o)|
    ensures ok ==> Region(vm.mem, t, PagesOf(sz))
    ensures ok ==>
              Grown(old(vm.mem), old(vm.o), vm.mem, vm.o, t, 0, PagesOf(sz), Memory(old(vm.mem), p, PagesOf(sz)))
    ensures !ok ==> NoGrowth(old(vm.mem), old(vm.o), vm.mem, vm.o, t) && |old(vm.free)| < 3 * PagesOf(sz)
  {
    ghost var s0, o0 := vm.mem, vm.o;
    var n := PagesOf(sz);
    ghost var img := Memory(s0, p, n);
    var v := 0;
    while v < n
      invariant v <= n && vm.Valid() && Grown(s0, o0, vm.mem, vm.o, t, 0, v, img)
      invariant |vm.free| + 3 * v >= |old(vm.free)|
    {
      ghost var s1, o1 := vm.mem, vm.o;
      assert img[v] == Look(s0, LeafPte(s0, p, v));
      ok := CopyPage(vm, p, t, v, s0, o0, img);
      if !ok {
        UndoCopy(vm, t, v, s0, o0, s1, o1, img);
        return;
      }
      v := v + 1;
    }
    GrownRegion(s0, o0, vm.mem, vm.o, t, 0, n, img);
    return true;
  }

  // ----- Processes --------------------------------------------------------------------

  const WORD := 0x1_0000_0000_0000_0000           // uint64 arithmetic is modulo this

  class Proc {
    var pagetable: nat
    var sz: nat
    var trapframe: nat
  }

  /** A process with its address space and its trapframe page. */
  predicate Alive(s: Mem, o: seq<Owner>, t: nat, sz: nat, tf: nat) {
    HasSpace(s, o, t, sz, tf) && 0 < tf < |o| && o[tf] == Kernel
  }

  /** Since `s0` the space `t` and the trapframe page `tf` were taken from the
      free list, and nothing else changed. */
  ghost predicate Gained(s0: Mem, o0: seq<Owner>, s: Mem, o: seq<Owner>, t: nat, tf: nat) {
    && SameLeaves(s0, s, o0) && Kept(s0, o0, s, o)
    && forall y :: 0 <= y < |o0| && o[y] != o0[y] ==>
         o0[y] == Free && (InTree(o[y], y, t) || (y == tf && o[y] == Kernel))
  }

  lemma GrownAlive(s: Mem, o: seq<Owner>, s': Mem, o': seq<Owner>, t: nat, sz: nat, sz': nat, tf: nat, img: seq<Image>)
    requires Alive(s, o, t, sz, tf) && sz <= sz' && PagesOf(sz') <= TRAPFRAME
    requires Grown(s, o, s', o', t, PagesOf(sz), PagesOf(sz'), img)
    ensures Alive(s', o', t, sz', tf)
  {
    GrownRegion(s, o, s', o', t, PagesOf(sz), PagesOf(sz'), img);
    assert LeafPte(s', t, TRAPFRAME) == LeafPte(s, t, TRAPFRAME);
    assert LeafPte(s', t, TRAMPOLINE) == LeafPte(s, t, TRAMPOLINE);
  }

  lemma StuckAlive(s: Mem, o: seq<Owner>, s': Mem, o': seq<Owner>, t: nat, sz: nat, tf: nat)
    requires Alive(s, o, t, sz, tf) && NoGrowth(s, o, s', o', t)
    ensures Alive(s', o', t, sz, tf)
  {
    forall z | 0 <= z < MAXVPN ensures LeafPte(s', t, z) == LeafPte(s, t, z) {}
  }

  lemma ClearedAlive(s: Mem, o: seq<Owner>, s': Mem, o': seq<Owner>, t: nat, sz: nat, sz': nat, tf: nat)
    requires Alive(s, o, t, sz, tf) && sz' <= sz && Region(s', t, PagesOf(sz'))
    requires RangeCleared(s, o, s', o', t, PagesOf(sz'), PagesOf(sz) - PagesOf(sz'), true)
    ensures Alive(s', o', t, sz', tf)
  {
    assert LeafPte(s', t, TRAPFRAME) == LeafPte(s, t, TRAPFRAME);
    assert LeafPte(s', t, TRAMPOLINE) == LeafPte(s, t, TRAMPOLINE);
  }

  /** The size that `sz + n` comes to, for n < 0, after `uvmdealloc` has seen
      it. */
  lemma WrappedSize(sz: nat, n: int)
    requires sz < WORD && -0x8000_0000 <= n < 0
    ensures (if (sz + n) % WORD >= sz then sz else (sz + n) % WORD) == if sz + n >= 0 then sz + n else sz
  {
    if sz + n >= 0 {
      assert (sz + n) % WORD == sz + n;
    } else {
      assert (sz + n) % WORD == sz + n + WORD;
    }
  }

  /** What shrinking by `-n` bytes leaves. */
  function ShrunkSize(sz: nat, n: int): nat
    requires n <= 0
  {
    if sz + n >= 0 then sz + n else sz
  }

  method Shrink(vm: Vm, t: nat, sz: nat, n: int, ghost tf: nat) returns (r: nat)
    requires vm.Valid() && Alive(vm.mem, vm.o, t, sz, tf) && sz < WORD && -0x8000_0000 <= n < 0
    modifies vm
    ensures vm.Valid() && Alive(vm.mem, vm.o, t, r, tf) && r == ShrunkSize(sz, n)
    ensures RangeCleared(old(vm.mem), old(vm.o), vm.mem, vm.o, t, PagesOf(r), PagesOf(sz) - PagesOf(r), true)
  {
    ghost var s0, o0 := vm.mem, vm.o;
    WrappedSize(sz, n);
    r := Uvmdealloc(vm, t, sz, (sz + n) % WORD);
    ClearedAlive(s0, o0, vm.mem, vm.o, t, sz, r, tf);
  }

  method Enlarge(vm: Vm, t: nat, sz: nat, n: nat, ghost tf: nat) returns (r: nat)
    requires vm.Valid() && Alive(vm.mem, vm.o, t, sz, tf) && n > 0
    modifies vm
    ensures vm.Valid() && Alive(vm.mem, vm.o, t, if r == 0 then sz else r, tf) && (r == 0 || r == sz + n)
    ensures r != 0 ==> Grown(old(vm.mem), old(vm.o), vm.mem, vm.o, t, PagesOf(sz), PagesOf(r), Zeroed(r, PTE_W))
    ensures r == 0 ==> && NoGrowth(old(vm.mem), old(vm.o), vm.mem, vm.o, t)
                       && |old(vm.free)| < 3 * (PagesOf(sz + n) - PagesOf(sz))
  {
    ghost var s0, o0 := vm.mem, vm.o;
    r := Uvmalloc(vm, t, sz, sz + n, PTE_W);
    if r == 0 {
      StuckAlive(s0, o0, vm.mem, vm.o, t, sz, tf);
    } else {
      GrownAlive(s0, o0, vm.mem, vm.o, t, sz, r, tf, Zeroed(r, PTE_W));
    }
  }

  /** What `growproc(n)` does to a process of `sz` bytes when there are `room`
      free pages: growing adds zeroed pages or, out of memory, nothing;
      shrinking frees the pages above the new size; shrinking by more than there
      is does nothing and yet succeeds, because the new size wraps around. */
  ghost predicate Resized(s: Mem, o: seq<Owner>, s': Mem, o': seq<Owner>, t: nat, sz: nat, n: int, room: nat, ok: bool,
                      sz': nat) {
    if n > 0 && ok then sz' == sz + n && Grown(s, o, s', o', t, PagesOf(sz), PagesOf(sz'), Zeroed(sz', PTE_W))
    else if n > 0 then sz' == sz && NoGrowth(s, o, s', o', t) && room < 3 * (PagesOf(sz + n) - PagesOf(sz))
    else if n < 0 then
      ok && sz' == ShrunkSize(sz, n) && RangeCleared(s, o, s', o', t, PagesOf(sz'), PagesOf(sz) - PagesOf(sz'), true)
    else ok && sz' == sz && s' == s && o' == o
  }

  method Resize(vm: Vm, t: nat, sz: nat, n: int, ghost tf: nat) returns (ok: bool, r: nat)
    requires vm.Valid() && Alive(vm.mem, vm.o, t, sz, tf) && sz < WORD && -0x8000_0000 <= n < 0x8000_0000
    modifies vm
    ensures vm.Valid() && Alive(vm.mem, vm.o, t, r, tf)
    ensures Resized(old(vm.mem), old(vm.o), vm.mem, vm.o, t, sz, n, |old(vm.free)|, ok, r)
  {
    if n > 0 {
      r := Enlarge(vm, t, sz, n, tf);
      if r == 0 {
        return false, sz;
      }
      return true, r;
    } else if n < 0 {
      r := Shrink(vm, t, sz, n, tf);
      return true, r;
    }
    return true, sz;
  }

  method Growproc(vm: Vm, p: Proc, n: int) returns (ok: bool)
    requires vm.Valid()
    requires Alive(vm.mem, vm.o, p.pagetable, p.sz, p.trapframe) && p.sz < WORD && -0x8000_0000 <= n < 0x8000_0000
    modifies vm, p
    ensures vm.Valid() && p.pagetable == old(p.pagetable) && p.trapframe == old(p.trapframe)
    ensures Alive(vm.mem, vm.o, p.pagetable, p.sz, p.trapframe)
    ensures Resized(old(vm.mem), old(vm.o), vm.mem, vm.o, p.pagetable, old(p.sz), n, |old(vm.free)|, ok, p.sz)
  {
    var sz;
    ok, sz := Resize(vm, p.pagetable, p.sz, n, p.trapframe);
    p.sz := sz;
  }

  // ----- fork -------------------------------------------------------------------------

  lemma KernelInv(s: Mem, head: nat, o: seq<Owner>, free: seq<nat>, x: nat, a: Owner)
    requires Inv(s, head, o, free) && 0 < x < |o| && (o[x] == Loose || o[x] == Kernel) && (a == Loose || a == Kernel)
    ensures Inv(s, head, o[x := a], free)
  {
    Relabel(s, o, x, a);
    KeepFree(s, s, head, o, o[x := a], free);
  }

  lemma RootsSame(s: Mem, s': Mem, o: seq<Owner>, o': seq<Owner>)
    requires SameLeaves(s, s', o) && |o| == |o'| && forall y :: 0 <= y < |o| ==> (o'[y] == Root <==> o[y] == Root)
    ensures SameLeaves(s, s', o')
  {
  }

  method FreeTrapframe(vm: Vm, tf: nat)
    requires vm.Valid() && 0 < tf < |vm.o| && vm.o[tf] == Kernel
    modifies vm
    ensures vm.Valid() && vm.o == old(vm.o)[tf := Free] && SameLeaves(old(vm.mem), vm.mem, old(vm.o))
    ensures |vm.mem| == |old(vm.mem)| && (forall y :: 0 <= y < |vm.mem| && y != tf ==> vm.mem[y] == old(vm.mem)[y])
    ensures |vm.free| == |old(vm.free)| + 1
  {
    KernelInv(vm.mem, vm.head, vm.o, vm.free, tf, Loose);
    vm.o := vm.o[tf := Loose];
    ghost var o1 := vm.o;
    vm.Kfree(tf);
    RootsSame(old(vm.mem), vm.mem, o1, old(vm.o));
  }

  method NewTrapframe(vm: Vm) returns (tf: nat)
    requires vm.Valid()
    modifies vm
    ensures vm.Valid() && SameLeaves(old(vm.mem), vm.mem, old(vm.o)) && |vm.free| + 1 >= |old(vm.free)|
    ensures tf == 0 ==> |old(vm.free)| == 0 && vm.o == old(vm.o) && vm.mem == old(vm.mem)
    ensures tf != 0 ==> tf < |old(vm.o)| && old(vm.o)[tf] == Free && vm.o == old(vm.o)[tf := Kernel]
    ensures |vm.mem| == |old(vm.mem)| && (forall y :: 0 <= y < |vm.mem| && y != tf ==> vm.mem[y] == old(vm.mem)[y])
  {
    tf := vm.Kalloc();
    if tf != 0 {
      KernelInv(vm.mem, vm.head, vm.o, vm.free, tf, Kernel);
      vm.o := vm.o[tf := Kernel];
    }
  }

  /** What a process may have when `freeproc` gets it: perhaps no trapframe yet,
      perhaps no page table. */
  predicate MayFree(s: Mem, o: seq<Owner>, t: nat, sz: nat, tf: nat) {
    && (tf != 0 ==> tf < |o| && o[tf] == Kernel)
    && (t != 0 ==> && t < |o| && o[t] == Root && Region(s, t, PagesOf(sz))
                   && LeafPte(s, t, TRAMPOLINE) != 0 && LeafPte(s, t, TRAPFRAME) != 0)
  }

  /** Space `t` and trapframe `tf`, as far as there are any, went back to the free
      list. */
  ghost predicate Buried(s0: Mem, o0: seq<Owner>, s: Mem, o: seq<Owner>, t: nat, tf: nat) {
    && Kept(s0, o0, s, o)
    && (forall u, z :: 0 <= u < |o0| && o0[u] == Root && u != t && 0 <= z < NPTE * NPTE * NPTE ==>
          LeafPte(s, u, z) == LeafPte(s0, u, z))
    && forall y :: 0 <= y < |o0| ==>
         o[y] == if (t != 0 && InTree(o0[y], y, t)) || (tf != 0 && y == tf) then Free else o0[y]
  }

  lemma BothGone(s0: Mem, o0: seq<Owner>, s1: Mem, o1: seq<Owner>, s2: Mem, o2: seq<Owner>, t: nat, tf: nat)
    requires |s0| == |s1| == |o0| && t < |o0| && tf < |o0| && (tf != 0 ==> o0[tf] == Kernel)
    requires o1 == (if tf == 0 then o0 else o0[tf := Free])
    requires SameLeaves(s0, s1, o0) && (forall y :: 0 <= y < |s0| && (tf == 0 || y != tf) ==> s1[y] == s0[y])
    requires if t == 0 then s2 == s1 && o2 == o1 else TreeGone(s1, o1, s2, o2, t)
    ensures Buried(s0, o0, s2, o2, t, tf)
  {
    forall u, z | 0 <= u < |o0| && o0[u] == Root && u != t && 0 <= z < NPTE * NPTE * NPTE
      ensures LeafPte(s2, u, z) == LeafPte(s0, u, z)
    {
      assert o1[u] == Root && LeafPte(s1, u, z) == LeafPte(s0, u, z);
    }
  }

  /** The two steps of `freeproc` that free memory. */
  method FreeBoth(vm: Vm, t: nat, sz: nat, tf: nat)
    requires vm.Valid() && MayFree(vm.mem, vm.o, t, sz, tf)
    modifies vm
    ensures vm.Valid() && Buried(old(vm.mem), old(vm.o), vm.mem, vm.o, t, tf)
  {
    ghost var s0, o0 := vm.mem, vm.o;
    if tf != 0 {
      FreeTrapframe(vm, tf);
    }
    ghost var s1, o1 := vm.mem, vm.o;
    if t != 0 {
      forall z | 0 <= z < MAXVPN ensures LeafPte(s1, t, z) == LeafPte(s0, t, z) {}
      ProcFreepagetable(vm, t, sz);
    }
    BothGone(s0, o0, s1, o1, vm.mem, vm.o, t, tf);
  }

  /** `freeproc`: everything the process has goes back to the free list. */
  method FreeProc(vm: Vm, p: Proc)
    requires vm.Valid() && MayFree(vm.mem, vm.o, p.pagetable, p.sz, p.trapframe)
    modifies vm, p
    ensures vm.Valid() && p.pagetable == 0 && p.sz == 0 && p.trapframe == 0
    ensures Buried(old(vm.mem), old(vm.o), vm.mem, vm.o, old(p.pagetable), old(p.trapframe))
  {
    FreeBoth(vm, p.pagetable, p.sz, p.trapframe);
    p.pagetable, p.sz, p.trapframe := 0, 0, 0;
  }

  /** A process that is gained and then buried leaves nothing behind. */
  lemma GainedAndBuried(s0: Mem, o0: seq<Owner>, s1: Mem, o1: seq<Owner>, s2: Mem, o2: seq<Owner>, t: nat, tf: nat)
    requires TreesOk(s0, o0) && t < |o0| && o0[t] == Free && tf < |o0| && o0[tf] == Free
    requires Gained(s0, o0, s1, o1, t, tf) && Buried(s1, o1, s2, o2, t, tf)
    ensures Restored(s0, o0, s2, o2)
  {
    forall y | 0 <= y < |o0| ensures o2[y] == o0[y] {
      assert PageOk(s0, o0, y);
    }
    assert o2 == o0;
    forall u, z | 0 <= u < |o0| && o0[u] == Root && 0 <= z < NPTE * NPTE * NPTE
      ensures LeafPte(s2, u, z) == LeafPte(s0, u, z)
    {
      assert o1[u] == Root && LeafPte(s1, u, z) == LeafPte(s0, u, z);
    }
  }

  lemma TrapframeBack(s0: Mem, o0: seq<Owner>, s1: Mem, s2: Mem, s3: Mem, o3: seq<Owner>, tf: nat)
    requires TreesOk(s0, o0) && 0 < tf < |o0| && o0[tf] == Free && SameLeaves(s0, s1, o0) && |s1| == |s0|
    requires forall y :: 0 <= y < |s0| && y != tf ==> s1[y] == s0[y]
    requires Restored(s1, o0[tf := Kernel], s2, o0[tf := Kernel]) && Buried(s2, o0[tf := Kernel], s3, o3, 0, tf)
    ensures Restored(s0, o0, s3, o3)
  {
    var o1 := o0[tf := Kernel];
    assert o3 == o0;
    SameLeavesTrans(s0, s1, s2, o0, o1);
    forall u, z | 0 <= u < |o0| && o0[u] == Root && 0 <= z < NPTE * NPTE * NPTE
      ensures LeafPte(s3, u, z) == LeafPte(s0, u, z)
    {
      assert o1[u] == Root && LeafPte(s2, u, z) == LeafPte(s0, u, z);
    }
  }

  lemma SpaceGained(s0: Mem, o0: seq<Owner>, s1: Mem, s2: Mem, o2: seq<Owner>, t: nat, tf: nat)
    requires |s0| == |o0|
    requires tf < |o0| && t < |o0| && o0[tf] == Free && o0[t] == Free && SameLeaves(s0, s1, o0) && |s1| == |s0|
    requires TreesOk(s0, o0)
    requires (forall y :: 0 <= y < |s0| && y != tf ==> s1[y] == s0[y]) && OnlyTree(s1, o0[tf := Kernel], s2, o2, t)
    ensures Gained(s0, o0, s2, o2, t, tf)
  {
    var o1 := o0[tf := Kernel];
    forall u, z | 0 <= u < |o0| && o0[u] == Root && 0 <= z < NPTE * NPTE * NPTE
      ensures LeafPte(s2, u, z) == LeafPte(s0, u, z)
    {
      assert o1[u] == Root && LeafPte(s1, u, z) == LeafPte(s0, u, z);
    }
    forall y | 0 <= y < |o0| && o2[y] == o0[y] && !IsTable(o0[y]) && o0[y] != Free ensures s2[y] == s0[y] {
      assert PageOk(s0, o0, y) && o1[y] == o0[y];
    }
  }

  /** The two steps of `allocproc` that allocate memory. */
  method AllocBoth(vm: Vm, trampoline: nat) returns (tf: nat, t: nat)
    requires vm.Valid()
    modifies vm
    ensures vm.Valid() && |vm.free| + 6 >= |old(vm.free)|
    ensures t == 0 ==> tf == 0 && Restored(old(vm.mem), old(vm.o), vm.mem, vm.o) && |old(vm.free)| < 6
    ensures t != 0 ==> && Alive(vm.mem, vm.o, t, 0, tf) && t < |old(vm.o)| && old(vm.o)[t] == Free
                       && tf < |old(vm.o)| && old(vm.o)[tf] == Free
                       && Gained(old(vm.mem), old(vm.o), vm.mem, vm.o, t, tf)
  {
    ghost var s0, o0 := vm.mem, vm.o;
    tf := NewTrapframe(vm);
    if tf == 0 {
      return 0, 0;
    }
    ghost var s1, o1 := vm.mem, vm.o;
    t := ProcPagetable(vm, trampoline, tf);
    if t == 0 {
      ghost var s2 := vm.mem;
      FreeBoth(vm, 0, 0, tf);                      // freeproc
      TrapframeBack(s0, o0, s1, s2, vm.mem, vm.o, tf);
      return 0, 0;
    }
    SpaceGained(s0, o0, s1, vm.mem, vm.o, t, tf);
  }

  /** `allocproc`: a trapframe page and an empty address space, or nothing. */
  method AllocProc(vm: Vm, np: Proc, trampoline: nat) returns (ok: bool)
    requires vm.Valid() && np.pagetable == 0 && np.sz == 0 && np.trapframe == 0
    modifies vm, np
    ensures vm.Valid() && |vm.free| + 6 >= |old(vm.free)|
    ensures !ok ==>
             Restored(old(vm.mem), old(vm.o), vm.mem, vm.o) && np.pagetable == np.sz == np.trapframe == 0
             && |old(vm.free)| < 6
    ensures ok ==> && np.sz == 0 && Alive(vm.mem, vm.o, np.pagetable, 0, np.trapframe)
                   && np.pagetable < |old(vm.o)| && old(vm.o)[np.pagetable] == Free
                   && np.trapframe < |old(vm.o)| && old(vm.o)[np.trapframe] == Free
                   && Gained(old(vm.mem), old(vm.o), vm.mem, vm.o, np.pagetable, np.trapframe)
  {
    var tf, t := AllocBoth(vm, trampoline);
    np.trapframe, np.pagetable := tf, t;
    return t != 0;
  }

  /** Page by page the same flags and contents, and no page shared. */
  ghost predicate Twins(s: Mem, p: nat, t: nat, n: nat) {
    forall z :: 0 <= z < n ==>
      var w, w' := LeafPte(s, p, z), LeafPte(s, t, z);
      w != 0 && w' != 0 && Look(s, w) == Look(s, w') && Ppn(w) != Ppn(w')
  }

  lemma GainedGrown(s0: Mem, o0: seq<Owner>, s1: Mem, o1: seq<Owner>, s2: Mem, o2: seq<Owner>, t: nat, tf: nat)
    requires t < |o0|
    requires o0[t] == Free && Gained(s0, o0, s1, o1, t, tf) && OnlyTree(s1, o1, s2, o2, t) && TreesOk(s0, o0)
    ensures Gained(s0, o0, s2, o2, t, tf)
  {
    forall u, z | 0 <= u < |o0| && o0[u] == Root && 0 <= z < NPTE * NPTE * NPTE
      ensures LeafPte(s2, u, z) == LeafPte(s0, u, z)
    {
      assert o1[u] == Root && LeafPte(s1, u, z) == LeafPte(s0, u, z);
    }
    forall y | 0 <= y < |o0| && o2[y] == o0[y] && !IsTable(o0[y]) && o0[y] != Free ensures s2[y] == s0[y] {
      assert PageOk(s0, o0, y) && o1[y] == o0[y];
    }
  }

  /** Another process does not notice. */
  lemma GainedAlive(s0: Mem, o0: seq<Owner>, s: Mem, o: seq<Owner>, t: nat, tf: nat, p: nat, sz: nat, ptf: nat)
    requires Gained(s0, o0, s, o, t, tf) && Alive(s0, o0, p, sz, ptf)
    ensures Alive(s, o, p, sz, ptf)
  {
    forall z | 0 <= z < MAXVPN ensures LeafPte(s, p, z) == LeafPte(s0, p, z) {}
  }

  lemma CopiedTwins(s1: Mem, o1: seq<Owner>, s2: Mem, o2: seq<Owner>, p: nat, t: nat, n: nat)
    requires TreesOk(s1, o1)
    requires TreesOk(s2, o2) && p < |o1| && o1[p] == Root && t < |o1| && o1[t] == Root && p != t && n <= TRAPFRAME
    requires Grown(s1, o1, s2, o2, t, 0, n, Memory(s1, p, n)) && forall z :: 0 <= z < n ==> LeafPte(s1, p, z) != 0
    ensures Twins(s2, p, t, n)
  {
    var img := Memory(s1, p, n);
    forall z | 0 <= z < n
      ensures var w, w' := LeafPte(s2, p, z), LeafPte(s2, t, z);
              w != 0 && w' != 0 && Look(s2, w) == Look(s2, w') && Ppn(w) != Ppn(w')
    {
      ParentKept(s1, o1, s2, o2, p, t, n, z, img);
      assert Shows(s2, LeafPte(s2, t, z), img[z]);
      assert o2[p] == Root && o2[t] == Root;
      LeafPteOk(s2, o2, p, z);
      LeafPteOk(s2, o2, t, z);
    }
  }

  lemma ChildCopied(s0: Mem, o0: seq<Owner>, s1: Mem, o1: seq<Owner>, s2: Mem, o2: seq<Owner>, p: nat, t: nat, sz: nat,
                    tf: nat)
    requires TreesOk(s0, o0)
    requires TreesOk(s1, o1) && TreesOk(s2, o2) && t < |o0| && o0[t] == Free && Gained(s0, o0, s1, o1, t, tf)
    requires Alive(s1, o1, t, 0, tf) && p < |o1| && o1[p] == Root && p != t && Region(s1, p, PagesOf(sz))
    requires Grown(s1, o1, s2, o2, t, 0, PagesOf(sz), Memory(s1, p, PagesOf(sz)))
    ensures Alive(s2, o2, t, sz, tf) && Twins(s2, p, t, PagesOf(sz)) && Gained(s0, o0, s2, o2, t, tf)
  {
    var img := Memory(s1, p, PagesOf(sz));
    GrownAlive(s1, o1, s2, o2, t, 0, sz, tf, img);
    GrownOnlyTree(s1, o1, s2, o2, t, 0, PagesOf(sz), img);
    GainedGrown(s0, o0, s1, o1, s2, o2, t, tf);
    CopiedTwins(s1, o1, s2, o2, p, t, PagesOf(sz));
  }

  /** `freeproc` of a child that was made since `s0`. */
  method AbandonChild(vm: Vm, t: nat, tf: nat, ghost s0: Mem, ghost o0: seq<Owner>)
    requires vm.Valid() && Alive(vm.mem, vm.o, t, 0, tf)
    requires TreesOk(s0, o0) && t < |o0| && o0[t] == Free && tf < |o0| && o0[tf] == Free
    requires Gained(s0, o0, vm.mem, vm.o, t, tf)
    modifies vm
    ensures vm.Valid() && Restored(s0, o0, vm.mem, vm.o)
  {
    ghost var s1, o1 := vm.mem, vm.o;
    FreeBoth(vm, t, 0, tf);
    GainedAndBuried(s0, o0, s1, o1, vm.mem, vm.o, t, tf);
  }

  /** The memory part of `fork`: a twin of the process with tree `p`. */
  method ForkMemory(vm: Vm, p: nat, sz: nat, ghost ptf: nat, trampoline: nat) returns (tf: nat, t: nat)
    requires vm.Valid() && Alive(vm.mem, vm.o, p, sz, ptf)
    modifies vm
    ensures vm.Valid()
    ensures t == 0 ==> tf == 0 && Restored(old(vm.mem), old(vm.o), vm.mem, vm.o) && |old(vm.free)| < 6 + 3 * PagesOf(sz)
    ensures t != 0 ==> && Alive(vm.mem, vm.o, t, sz, tf) && Twins(vm.mem, p, t, PagesOf(sz))
                       && tf < |old(vm.o)| && old(vm.o)[tf] == Free
                       && Gained(old(vm.mem), old(vm.o), vm.mem, vm.o, t, tf)
  {
    ghost var s0, o0 := vm.mem, vm.o;
    tf, t := AllocBoth(vm, trampoline);
    if t == 0 {
      return;
    }
    ghost var s1, o1 := vm.mem, vm.o;
    GainedAlive(s0, o0, s1, o1, t, tf, p, sz, ptf);
    var ok := Uvmcopy(vm, p, t, sz);
    ghost var s2, o2 := vm.mem, vm.o;
    if !ok {
      StuckAlive(s1, o1, s2, o2, t, 0, tf);
      StuckOnlyTree(s1, o1, s2, o2, t);
      GainedGrown(s0, o0, s1, o1, s2, o2, t, tf);
      AbandonChild(vm, t, tf, s0, o0);
      return 0, 0;
    }
    ChildCopied(s0, o0, s1, o1, s2, o2, p, t, sz, tf);
  }

  const TFWORDS := 36           // sizeof(struct trapframe) / 8
  const A0 := 14                // offset of a0

  function ForkedFrame(parent: Page, child: Page): Page {
    seq(NPTE, i requires 0 <= i < NPTE => if i == A0 then 0 else if i < TFWORDS then parent[i] else child[i])
  }

  /** A page of the kernel is not part of the memory of a process. */
  lemma StillTwins(s: Mem, o: seq<Owner>, tf: nat, page: Page, p: nat, t: nat, n: nat)
    requires TreesOk(s, o) && Twins(s, p, t, n) && p < |o| && o[p] == Root && t < |o| && o[t] == Root && n <= TRAPFRAME
    requires tf < |o| && o[tf] == Kernel && SameLeaves(s, s[tf := page], o)
    ensures Twins(s[tf := page], p, t, n)
  {
    var s' := s[tf := page];
    forall z | 0 <= z < n
      ensures var w, w' := LeafPte(s', p, z), LeafPte(s', t, z);
              w != 0 && w' != 0 && Look(s', w) == Look(s', w') && Ppn(w) != Ppn(w')
    {
      LeafPteOk(s, o, p, z);
      LeafPteOk(s, o, t, z);
    }
  }

  lemma FrameWritten(s: Mem, head: nat, o: seq<Owner>, free: seq<nat>, tf: nat, page: Page, p: nat, t: nat, sz: nat)
    requires Inv(s, head, o, free) && Alive(s, o, t, sz, tf) && Twins(s, p, t, PagesOf(sz)) && p < |o| && o[p] == Root
    ensures var s' := s[tf := page];
            && Inv(s', head, o, free) && SameLeaves(s, s', o)
            && Alive(s', o, t, sz, tf) && Twins(s', p, t, PagesOf(sz))
  {
    var s' := s[tf := page];
    NonTableWrite(s, o, tf, page);
    KeepFree(s, s', head, o, o, free);
    forall z | 0 <= z < MAXVPN ensures LeafPte(s', t, z) == LeafPte(s, t, z) && LeafPte(s', p, z) == LeafPte(s, p, z) {}
    StillTwins(s, o, tf, page, p, t, PagesOf(sz));
  }

  lemma FrameGained(s0: Mem, o0: seq<Owner>, s1: Mem, s2: Mem, o: seq<Owner>, t: nat, tf: nat)
    requires Gained(s0, o0, s1, o, t, tf) && SameLeaves(s1, s2, o) && tf < |o0| && o0[tf] == Free
    requires |s2| == |s1| && forall y :: 0 <= y < |s1| && y != tf ==> s2[y] == s1[y]
    ensures Gained(s0, o0, s2, o, t, tf)
  {
    SameLeavesTrans(s0, s1, s2, o0, o);
  }

  /** The child's registers. */
  method CopyFrame(vm: Vm, ptf: nat, tf: nat, ghost p: nat, ghost t: nat, ghost sz: nat, ghost s0: Mem,
                   ghost o0: seq<Owner>)
    requires vm.Valid()
    requires Alive(s0, o0, p, sz, ptf) && Alive(vm.mem, vm.o, t, sz, tf) && Twins(vm.mem, p, t, PagesOf(sz))
    requires Gained(s0, o0, vm.mem, vm.o, t, tf) && tf < |o0| && o0[tf] == Free
    modifies vm
    ensures vm.Valid() && vm.o == old(vm.o) && Alive(vm.mem, vm.o, p, sz, ptf) && Alive(vm.mem, vm.o, t, sz, tf)
    ensures Gained(s0, o0, vm.mem, vm.o, t, tf) && Twins(vm.mem, p, t, PagesOf(sz))
    ensures vm.mem[tf][A0] == 0
    ensures forall i :: 0 <= i < TFWORDS && i != A0 ==> vm.mem[tf][i] == vm.mem[ptf][i]
  {
    ghost var s1 := vm.mem;
    GainedAlive(s0, o0, s1, vm.o, t, tf, p, sz, ptf);
    var frame := ForkedFrame(vm.mem[ptf], vm.mem[tf]);
    FrameWritten(vm.mem, vm.head, vm.o, vm.free, tf, frame, p, t, sz);
    vm.mem := vm.mem[tf := frame];
    FrameGained(s0, o0, s1, vm.mem, vm.o, t, tf);
    GainedAlive(s0, o0, vm.mem, vm.o, t, tf, p, sz, ptf);
  }

  /** Memory and registers of the child. */
  method ForkImage(vm: Vm, p: nat, sz: nat, ptf: nat, trampoline: nat) returns (tf: nat, t: nat)
    requires vm.Valid() && Alive(vm.mem, vm.o, p, sz, ptf)
    modifies vm
    ensures vm.Valid()
    ensures t == 0 ==> tf == 0 && Restored(old(vm.mem), old(vm.o), vm.mem, vm.o) && |old(vm.free)| < 6 + 3 * PagesOf(sz)
    ensures t != 0 ==> && Gained(old(vm.mem), old(vm.o), vm.mem, vm.o, t, tf)
                       && Alive(vm.mem, vm.o, t, sz, tf) && Alive(vm.mem, vm.o, p, sz, ptf)
                       && Twins(vm.mem, p, t, PagesOf(sz))
                       && vm.mem[tf][A0] == 0
                       && forall i :: 0 <= i < TFWORDS && i != A0 ==> vm.mem[tf][i] == vm.mem[ptf][i]
  {
    ghost var s0, o0 := vm.mem, vm.o;
    tf, t := ForkMemory(vm, p, sz, ptf, trampoline);
    if t != 0 {
      CopyFrame(vm, ptf, tf, p, t, sz, s0, o0);
    }
  }

  /** `fork`: the child has the parent's memory, on pages of its own, and its
      registers but for a0, which is 0.  Out of memory, nothing has changed. */
  method Fork(vm: Vm, p: Proc, np: Proc, trampoline: nat) returns (ok: bool)
    requires vm.Valid() && p != np && Alive(vm.mem, vm.o, p.pagetable, p.sz, p.trapframe)
    requires np.pagetable == 0 && np.sz == 0 && np.trapframe == 0
    modifies vm, np
    ensures vm.Valid()
    ensures !ok ==> && Restored(old(vm.mem), old(vm.o), vm.mem, vm.o) && np.pagetable == np.sz == np.trapframe == 0
                    && |old(vm.free)| < 6 + 3 * PagesOf(p.sz)
    ensures ok ==> && Gained(old(vm.mem), old(vm.o), vm.mem, vm.o, np.pagetable, np.trapframe)
                   && np.sz == p.sz && Alive(vm.mem, vm.o, np.pagetable, np.sz, np.trapframe)
                   && Alive(vm.mem, vm.o, p.pagetable, p.sz, p.trapframe)
                   && Twins(vm.mem, p.pagetable, np.pagetable, PagesOf(p.sz))
                   && vm.mem[np.trapframe][A0] == 0
                   && forall i :: 0 <= i < TFWORDS && i != A0 ==> vm.mem[np.trapframe][i] == vm.mem[p.trapframe][i]
  {
    var tf, t := ForkImage(vm, p.pagetable, p.sz, p.trapframe, trampoline);
    np.pagetable, np.trapframe := t, tf;
    if t == 0 {
      return false;
    }
    np.sz := p.sz;
    return true;
  }
}
