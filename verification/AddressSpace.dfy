/** Making and freeing a whole address space: `uvmcreate` and `uvmfree` of
    kernel/vm.c, `proc_pagetable` and `proc_freepagetable` of kernel/proc.c. */
module AddressSpace {
  import opened PageTable
  import opened Vm
  import opened UserMemory
  import opened TreeFree

  /** Tree `t` is the address space of a process of `sz` bytes whose trapframe
      is page `tf`. */
  predicate HasSpace(s: Mem, o: seq<Owner>, t: nat, sz: nat, tf: nat) {
    && 0 < t < |o| && o[t] == Root && Region(s, t, PagesOf(sz))
    && Flags(LeafPte(s, t, TRAMPOLINE)) == PTE_R + PTE_X + PTE_V
    && LeafPte(s, t, TRAPFRAME) == Pte(tf, PTE_R + PTE_W + PTE_V)
  }

  /** Between two states nothing but tree `t` and its memory changed, and those
      took only pages that were free. */
  ghost predicate OnlyTree(s: Mem, o: seq<Owner>, s': Mem, o': seq<Owner>, t: nat) {
    && |s| == |s'| == |o| == |o'|
    && (forall u, z :: 0 <= u < |o| && o[u] == Root && u != t && 0 <= z < NPTE * NPTE * NPTE ==>
          LeafPte(s', u, z) == LeafPte(s, u, z))
    && (forall y :: 0 <= y < |o| && o'[y] == o[y] && !IsTable(o[y]) && o[y] != Free && !InTree(o[y], y, t) ==>
          s'[y] == s[y])
    && (forall y :: 0 <= y < |o| && o'[y] != o[y] ==> o[y] == Free && InTree(o'[y], y, t))
  }

  lemma OnlyTreeTrans(s0: Mem, o0: seq<Owner>, s1: Mem, o1: seq<Owner>, s2: Mem, o2: seq<Owner>, t: nat)
    requires OnlyTree(s0, o0, s1, o1, t) && OnlyTree(s1, o1, s2, o2, t)
    ensures OnlyTree(s0, o0, s2, o2, t)
  {
    forall u, z | 0 <= u < |o0| && o0[u] == Root && u != t && 0 <= z < NPTE * NPTE * NPTE
      ensures LeafPte(s2, u, z) == LeafPte(s0, u, z)
    {
      assert o1[u] == Root && LeafPte(s1, u, z) == LeafPte(s0, u, z);
    }
  }

  lemma GrownOnlyTree(s: Mem, o: seq<Owner>, s': Mem, o': seq<Owner>, t: nat, n0: nat, n: nat, img: seq<Image>)
    requires Grown(s, o, s', o', t, n0, n, img)
    ensures OnlyTree(s, o, s', o', t)
  {
  }

  lemma StuckOnlyTree(s: Mem, o: seq<Owner>, s': Mem, o': seq<Owner>, t: nat)
    requires NoGrowth(s, o, s', o', t)
    ensures OnlyTree(s, o, s', o', t)
  {
  }

  /** Everything is as in `s0` again: every page has its old use and, page
      tables and free pages apart, its old contents; every translation is as
      it was. */
  ghost predicate Restored(s0: Mem, o0: seq<Owner>, s: Mem, o: seq<Owner>) {
    o == o0 && SameLeaves(s0, s, o0) && Kept(s0, o0, s, o)
  }

  /** A tree built from free pages and then freed leaves nothing behind. */
  lemma BuiltAndGone(s0: Mem, o0: seq<Owner>, s1: Mem, o1: seq<Owner>, s2: Mem, o2: seq<Owner>, t: nat)
    requires TreesOk(s0, o0) && t < |o0| && o0[t] == Free && OnlyTree(s0, o0, s1, o1, t) && TreeGone(s1, o1, s2, o2, t)
    ensures Restored(s0, o0, s2, o2)
  {
    forall y | 0 <= y < |o0| ensures o2[y] == o0[y] && !InTree(o0[y], y, t) {
      assert PageOk(s0, o0, y);
    }
    assert o2 == o0;
    forall u, z | 0 <= u < |o0| && o0[u] == Root && 0 <= z < NPTE * NPTE * NPTE
      ensures LeafPte(s2, u, z) == LeafPte(s0, u, z)
    {
      assert o1[u] == Root && LeafPte(s1, u, z) == LeafPte(s0, u, z);
    }
  }

  // ----- Freeing ---------------------------------------------------------------------

  /** No mapping lies beyond MAXVA. */
  lemma LeafBelowMax(s: Mem, o: seq<Owner>, t: nat, v: nat)
    requires TreesOk(s, o) && t < |o| && o[t] == Root && v < NPTE * NPTE * NPTE
    ensures LeafPte(s, t, v) != 0 ==> v < MAXVPN
  {
    LeafPteOk(s, o, t, v);
    var w := LeafPte(s, t, v);
    if w != 0 && !Special(v) {
      assert PageOk(s, o, Ppn(w));
    }
  }

  lemma AllUnmapped(s: Mem, o: seq<Owner>, t: nat)
    requires TreesOk(s, o) && t < |o| && o[t] == Root && Region(s, t, 0)
    requires LeafPte(s, t, TRAMPOLINE) == 0 && LeafPte(s, t, TRAPFRAME) == 0
    ensures NoLeaves(s, t)
  {
    forall v | 0 <= v < NPTE * NPTE * NPTE ensures LeafPte(s, t, v) == 0 {
      LeafBelowMax(s, o, t, v);
    }
  }

  lemma ClearedAndGone(s0: Mem, o0: seq<Owner>, s1: Mem, o1: seq<Owner>, s2: Mem, o2: seq<Owner>, t: nat, n: nat)
    requires TreesOk(s0, o0) && t < |o0| && o0[t] == Root && Region(s0, t, n)
    requires RangeCleared(s0, o0, s1, o1, t, 0, n, true) && TreeGone(s1, o1, s2, o2, t)
    ensures TreeGone(s0, o0, s2, o2, t)
  {
    forall u, z | 0 <= u < |o0| && o0[u] == Root && u != t && 0 <= z < NPTE * NPTE * NPTE
      ensures LeafPte(s2, u, z) == LeafPte(s0, u, z)
    {
      assert o1[u] == Root && LeafPte(s1, u, z) == LeafPte(s0, u, z);
    }
    forall y | 0 <= y < |o0| ensures o2[y] == if InTree(o0[y], y, t) then Free else o0[y] {
      if o0[y].Leaf? && o0[y].t == t { NoLeafBeyond(s0, o0, t, n, y); }
    }
  }

  method Uvmfree(vm: Vm, t: nat, sz: nat)
    requires vm.Valid() && 0 < t < |vm.o| && vm.o[t] == Root && Region(vm.mem, t, PagesOf(sz))
    requires LeafPte(vm.mem, t, TRAMPOLINE) == 0 && LeafPte(vm.mem, t, TRAPFRAME) == 0
    modifies vm
    ensures vm.Valid() && TreeGone(old(vm.mem), old(vm.o), vm.mem, vm.o, t) && |vm.free| >= |old(vm.free)|
  {
    if sz > 0 {
      vm.Uvmunmap(t, 0, PagesOf(sz), true);
    }
    ghost var m1, o1 := vm.mem, vm.o;
    AllUnmapped(m1, o1, t);
    Freewalk(vm, t);
    ClearedAndGone(old(vm.mem), old(vm.o), m1, o1, vm.mem, vm.o, t, PagesOf(sz));
  }

  lemma LeafChangedGone(s0: Mem, o0: seq<Owner>, s1: Mem, s2: Mem, o2: seq<Owner>, t: nat, v: nat)
    requires LeafChanged(s0, s1, o0, t, v, 0) && Kept(s0, o0, s1, o0) && TreeGone(s1, o0, s2, o2, t)
    ensures TreeGone(s0, o0, s2, o2, t)
  {
    forall u, z | 0 <= u < |o0| && o0[u] == Root && u != t && 0 <= z < NPTE * NPTE * NPTE
      ensures LeafPte(s2, u, z) == LeafPte(s0, u, z)
    {
      assert LeafPte(s1, u, z) == LeafPte(s0, u, z);
    }
  }

  /** Back to the free list go the tree and all the memory it maps, apart from
      the trampoline and the trapframe. */
  method ProcFreepagetable(vm: Vm, t: nat, sz: nat)
    requires vm.Valid() && 0 < t < |vm.o| && vm.o[t] == Root && Region(vm.mem, t, PagesOf(sz))
    requires LeafPte(vm.mem, t, TRAMPOLINE) != 0 && LeafPte(vm.mem, t, TRAPFRAME) != 0
    modifies vm
    ensures vm.Valid() && TreeGone(old(vm.mem), old(vm.o), vm.mem, vm.o, t) && |vm.free| >= |old(vm.free)|
  {
    ghost var s0, o0 := vm.mem, vm.o;
    vm.Uvmunmap(t, TRAMPOLINE, 1, false);
    ghost var s1 := vm.mem;
    SpecialCleared(s0, o0, s1, vm.o, t, TRAMPOLINE);
    assert LeafPte(s1, t, TRAPFRAME) == LeafPte(s0, t, TRAPFRAME);
    vm.Uvmunmap(t, TRAPFRAME, 1, false);
    ghost var s2 := vm.mem;
    SpecialCleared(s1, o0, s2, vm.o, t, TRAPFRAME);
    assert LeafPte(s2, t, TRAMPOLINE) == 0;
    Uvmfree(vm, t, sz);
    LeafChangedGone(s1, o0, s2, vm.mem, vm.o, t, TRAPFRAME);
    LeafChangedGone(s0, o0, s1, vm.mem, vm.o, t, TRAMPOLINE);
  }

  // ----- Making -----------------------------------------------------------------------

  lemma NewRootInv(s: Mem, head: nat, o: seq<Owner>, free: seq<nat>, x: nat)
    requires Inv(s, head, o, free) && 0 < x < |o| && o[x] == Loose && s[x] == Fill(0)
    ensures Inv(s, head, o[x := Root], free) && NoLeaves(s, x)
  {
    NewRoot(s, o, x);
    KeepFree(s, s, head, o, o[x := Root], free);
  }

  method Uvmcreate(vm: Vm) returns (t: nat)
    requires vm.Valid()
    modifies vm
    ensures vm.Valid() && |vm.free| + 1 >= |old(vm.free)|
    ensures t == 0 ==> |old(vm.free)| == 0 && vm.mem == old(vm.mem) && vm.o == old(vm.o)
    ensures t != 0 ==> && t < |vm.o| == |old(vm.o)| && old(vm.o)[t] == Free && vm.o == old(vm.o)[t := Root]
                       && NoLeaves(vm.mem, t)
                       && OnlyTree(old(vm.mem), old(vm.o), vm.mem, vm.o, t)
  {
    t := vm.NewPage(Fill(0));
    if t != 0 {
      NewRootInv(vm.mem, vm.head, vm.o, vm.free, t);
      vm.o := vm.o[t := Root];
    }
  }

  /** Mapping one of the two special pages touches only the tree. */
  lemma SpecialOnlyTree(s: Mem, o: seq<Owner>, s': Mem, o': seq<Owner>, t: nat, v: nat, x: nat, perm: nat)
    requires Special(v) && Mapped(s, o, s', o', t, v, x, perm) && Kept(s, o, s', o')
    ensures OnlyTree(s, o, s', o', t)
  {
  }

  ghost predicate OnlyTrampoline(s: Mem, o: seq<Owner>, t: nat, trampoline: nat) {
    && 0 < t < |o| && o[t] == Root
    && forall v :: 0 <= v < NPTE * NPTE * NPTE ==>
         LeafPte(s, t, v) == if v == TRAMPOLINE then Pte(trampoline, PTE_R + PTE_X + PTE_V) else 0
  }

  lemma LeafOnlyTree(s: Mem, o: seq<Owner>, s': Mem, t: nat, v: nat, w: nat)
    requires LeafChanged(s, s', o, t, v, w) && Kept(s, o, s', o)
    ensures OnlyTree(s, o, s', o, t)
  {
  }

  /** `uvmfree` of a tree that was made since `s0`. */
  method Abandon(vm: Vm, t: nat, ghost s0: Mem, ghost o0: seq<Owner>)
    requires vm.Valid() && TreesOk(s0, o0) && 0 < t < |vm.o| && vm.o[t] == Root && NoLeaves(vm.mem, t)
    requires OnlyTree(s0, o0, vm.mem, vm.o, t) && o0[t] == Free
    modifies vm
    ensures vm.Valid() && Restored(s0, o0, vm.mem, vm.o) && |vm.free| >= |old(vm.free)|
  {
    ghost var s1, o1 := vm.mem, vm.o;
    Uvmfree(vm, t, 0);
    BuiltAndGone(s0, o0, s1, o1, vm.mem, vm.o, t);
  }

  /** The two pages that every address space has, and nothing else. */
  lemma EmptySpace(s1: Mem, s2: Mem, o2: seq<Owner>, t: nat, trampoline: nat, tf: nat)
    requires 0 < t < |o2| && o2[t] == Root
    requires LeafPte(s2, t, TRAMPOLINE) == Pte(trampoline, PTE_R + PTE_X + PTE_V)
    requires LeafPte(s2, t, TRAPFRAME) == Pte(tf, PTE_R + PTE_W + PTE_V)
    requires forall v :: 0 <= v < TRAPFRAME ==> LeafPte(s2, t, v) == LeafPte(s1, t, v) == 0
    ensures HasSpace(s2, o2, t, 0, tf)
  {
    PteFields(trampoline, PTE_R + PTE_X + PTE_V);
  }

  /** The second half of `proc_pagetable`. */
  method MapTrapframe(vm: Vm, t: nat, trampoline: nat, tf: nat, ghost s0: Mem, ghost o0: seq<Owner>) returns (r: nat)
    requires vm.Valid() && TreesOk(s0, o0) && OnlyTrampoline(vm.mem, vm.o, t, trampoline)
    requires OnlyTree(s0, o0, vm.mem, vm.o, t) && o0[t] == Free
    modifies vm
    ensures vm.Valid() && |vm.free| + 2 >= |old(vm.free)|
    ensures r == 0 ==> Restored(s0, o0, vm.mem, vm.o) && |old(vm.free)| < 2
    ensures r != 0 ==> r == t && OnlyTree(s0, o0, vm.mem, vm.o, t) && HasSpace(vm.mem, vm.o, t, 0, tf)
    ensures r != 0 ==> LeafPte(vm.mem, t, TRAMPOLINE) == Pte(trampoline, PTE_R + PTE_X + PTE_V)
  {
    ghost var s1, o1 := vm.mem, vm.o;
    assert Mappable(o1, TRAPFRAME, tf, 0);
    ghost var done;
    var ok;
    ok, done := vm.Mappages(t, TRAPFRAME, 1, tf, PTE_R + PTE_W);
    ghost var s2, o2 := vm.mem, vm.o;
    assert LeafPte(s2, t, TRAMPOLINE) == LeafPte(s1, t, TRAMPOLINE);
    if ok {
      OneMapped(s1, o1, s2, o2, t, TRAPFRAME, tf, PTE_R + PTE_W);
      SpecialOnlyTree(s1, o1, s2, o2, t, TRAPFRAME, tf, PTE_R + PTE_W);
      OnlyTreeTrans(s0, o0, s1, o1, s2, o2, t);
      EmptySpace(s1, s2, o2, t, trampoline, tf);
      return t;
    }
    NoneMapped(s1, o1, s2, o2, t, TRAPFRAME, tf, PTE_R + PTE_W);
    StuckOnlyTree(s1, o1, s2, o2, t);
    OnlyTreeTrans(s0, o0, s1, o1, s2, o2, t);
    vm.Uvmunmap(t, TRAMPOLINE, 1, false);
    SpecialCleared(s2, o2, vm.mem, vm.o, t, TRAMPOLINE);
    LeafOnlyTree(s2, o2, vm.mem, t, TRAMPOLINE, 0);
    OnlyTreeTrans(s0, o0, s2, o2, vm.mem, o2, t);
    Abandon(vm, t, s0, o0);
    return 0;
  }

  /** An address space with no user memory, or nothing at all. */
  method ProcPagetable(vm: Vm, trampoline: nat, tf: nat) returns (t: nat)
    requires vm.Valid()
    modifies vm
    ensures vm.Valid() && |vm.free| + 5 >= |old(vm.free)|
    ensures t == 0 ==> Restored(old(vm.mem), old(vm.o), vm.mem, vm.o) && |old(vm.free)| < 5
    ensures t != 0 ==> && OnlyTree(old(vm.mem), old(vm.o), vm.mem, vm.o, t)
                       && t < |vm.o| && old(vm.o)[t] == Free && HasSpace(vm.mem, vm.o, t, 0, tf)
                       && LeafPte(vm.mem, t, TRAMPOLINE) == Pte(trampoline, PTE_R + PTE_X + PTE_V)
  {
    ghost var s0, o0 := vm.mem, vm.o;
    t := Uvmcreate(vm);
    if t == 0 {
      return;
    }
    ghost var s1, o1 := vm.mem, vm.o;
    assert Mappable(o1, TRAMPOLINE, trampoline, 0);
    ghost var done;
    var ok;
    ok, done := vm.Mappages(t, TRAMPOLINE, 1, trampoline, PTE_R + PTE_X);
    if !ok {
      NoneMapped(s1, o1, vm.mem, vm.o, t, TRAMPOLINE, trampoline, PTE_R + PTE_X);
      StuckOnlyTree(s1, o1, vm.mem, vm.o, t);
      OnlyTreeTrans(s0, o0, s1, o1, vm.mem, vm.o, t);
      Abandon(vm, t, s0, o0);
      return 0;
    }
    ghost var s2, o2 := vm.mem, vm.o;
    OneMapped(s1, o1, s2, o2, t, TRAMPOLINE, trampoline, PTE_R + PTE_X);
    SpecialOnlyTree(s1, o1, s2, o2, t, TRAMPOLINE, trampoline, PTE_R + PTE_X);
    OnlyTreeTrans(s0, o0, s1, o1, s2, o2, t);
    t := MapTrapframe(vm, t, trampoline, tf, s0, o0);
  }
}
