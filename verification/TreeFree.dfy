/** Taking a page-table tree apart: `freewalk` and `uvmfree` of kernel/vm.c. */
module TreeFree {
  import opened PageTable
  import opened Vm

  ghost predicate NoLeaves(s: Mem, t: nat) {
    forall v :: 0 <= v < NPTE * NPTE * NPTE ==> LeafPte(s, t, v) == 0
  }

  /** Since `s0`, only pages of `t` below its root were given back. */
  ghost predicate Pruned(s0: Mem, o0: seq<Owner>, s: Mem, o: seq<Owner>, t: nat) {
    && SameLeaves(s0, s, o0) && Kept(s0, o0, s, o)
    && forall y :: 0 <= y < |o0| ==> o[y] == o0[y] || (o[y] == Free && (o0[y].Mid? || o0[y].Low?) && o0[y].t == t)
  }

  /** Page `y`, labelled `a`, is part of tree `t` or of the memory it maps. */
  predicate InTree(a: Owner, y: nat, t: nat) {
    match a
    case Root => y == t
    case Mid(u, _) => u == t
    case Low(u, _) => u == t
    case Leaf(u, _) => u == t
    case _ => false
  }

  /** Since `s0`, tree `t` and its memory went back to the free list, and
      nothing else did. */
  ghost predicate TreeGone(s0: Mem, o0: seq<Owner>, s: Mem, o: seq<Owner>, t: nat) {
    && Kept(s0, o0, s, o)
    && (forall u, z :: 0 <= u < |o0| && o0[u] == Root && u != t && 0 <= z < NPTE * NPTE * NPTE ==>
          LeafPte(s, u, z) == LeafPte(s0, u, z))
    && forall y :: 0 <= y < |o0| ==> o[y] == if InTree(o0[y], y, t) then Free else o0[y]
  }

  lemma PrunedTrans(s0: Mem, o0: seq<Owner>, s1: Mem, o1: seq<Owner>, s2: Mem, o2: seq<Owner>, t: nat)
    requires Pruned(s0, o0, s1, o1, t) && Pruned(s1, o1, s2, o2, t)
    ensures Pruned(s0, o0, s2, o2, t)
  {
    SameLeavesTrans(s0, s1, s2, o0, o1);
  }

  lemma LowEntry(s: Mem, o: seq<Owner>, t: nat, b: nat, i: nat)
    requires TreesOk(s, o)
    requires t < |o| && o[t] == Root && b < NPTE * NPTE && LowPage(s, t, b) != 0 && i < NPTE && NoLeaves(s, t)
    ensures LowPage(s, t, b) < |s| && s[LowPage(s, t, b)][i] == 0
  {
    PathOk(s, o, t, b);
    assert (b * NPTE + i) / NPTE == b && (b * NPTE + i) % NPTE == i;
    assert LeafPte(s, t, b * NPTE + i) == 0;
  }

  /** Cutting off lowest page `x`. */
  lemma CutLow(s: Mem, head: nat, o: seq<Owner>, free: seq<nat>, t: nat, b: nat, m: nat, x: nat)
    requires Inv(s, head, o, free) && t < |o| && o[t] == Root && b < NPTE * NPTE
    requires m == MidPage(s, t, b / NPTE) && x == LowPage(s, t, b) != 0 && x < |s| && Empty(s[x])
    ensures 0 < x < |o| && o[x] == Low(t, b) && m < |o| && o[m] == Mid(t, b / NPTE)
    ensures var s' := s[m := s[m][b % NPTE := 0]]; Inv(s', head, o[x := Loose], free) && SameLeaves(s, s', o)
  {
    UnlinkLow(s, o, t, b);
    KeepFree(s, s[m := s[m][b % NPTE := 0]], head, o, o[x := Loose], free);
  }

  lemma CutMid(s: Mem, head: nat, o: seq<Owner>, free: seq<nat>, t: nat, a: nat, x: nat)
    requires Inv(s, head, o, free) && t < |o| && o[t] == Root && a < NPTE
    requires x == MidPage(s, t, a) != 0 && x < |s| && Empty(s[x])
    ensures 0 < x < |o| && o[x] == Mid(t, a)
    ensures var s' := s[t := s[t][a := 0]]; Inv(s', head, o[x := Loose], free) && SameLeaves(s, s', o)
  {
    UnlinkMid(s, o, t, a);
    KeepFree(s, s[t := s[t][a := 0]], head, o, o[x := Loose], free);
  }

  /** A cut-off table page went back to the free list. */
  lemma Cut(s0: Mem, o0: seq<Owner>, s1: Mem, s2: Mem, o2: seq<Owner>, t: nat, x: nat, y: nat)
    requires |s0| == |s1| == |s2| == |o0|
    requires x < |o0| && (o0[x].Mid? || o0[x].Low?) && o0[x].t == t && y < |o0| && IsTable(o0[y])
    requires SameLeaves(s0, s1, o0) && SameLeaves(s1, s2, o0[x := Loose]) && o2 == o0[x := Free]
    requires forall z :: 0 <= z < |o0| && z != x && z != y ==> s2[z] == s0[z]
    ensures Pruned(s0, o0, s2, o2, t)
  {
    SameLeavesTrans(s0, s1, s2, o0, o0[x := Loose]);
  }

  /** The loop of `freewalk` on a lowest page finds nothing, so it never meets
      "freewalk: leaf". */
  method CheckLow(vm: Vm, t: nat, b: nat, x: nat)
    requires vm.Valid() && t < |vm.o| && vm.o[t] == Root && b < NPTE * NPTE && NoLeaves(vm.mem, t)
    requires x == LowPage(vm.mem, t, b) != 0
    ensures x < |vm.mem| && Empty(vm.mem[x])
  {
    PathOk(vm.mem, vm.o, t, b);
    var i := 0;
    while i < NPTE
      invariant i <= NPTE && forall j :: 0 <= j < i ==> vm.mem[x][j] == 0
    {
      LowEntry(vm.mem, vm.o, t, b, i);
      assert !V(vm.mem[x][i]);
      i := i + 1;
    }
  }

  /** Clear entry `i` of page `y`, which named the table `x`, and free `x`. */
  method DropTable(vm: Vm, t: nat, y: nat, i: nat, x: nat, ghost s1: Mem)
    requires vm.Valid() && 0 < x < |vm.o| && (vm.o[x].Mid? || vm.o[x].Low?) && vm.o[x].t == t
    requires y < |vm.o| && y != x && IsTable(vm.o[y]) && i < NPTE
    requires s1 == vm.mem[y := vm.mem[y][i := 0]]
    requires Inv(s1, vm.head, vm.o[x := Loose], vm.free) && SameLeaves(vm.mem, s1, vm.o)
    modifies vm
    ensures vm.Valid() && Pruned(old(vm.mem), old(vm.o), vm.mem, vm.o, t)
    ensures vm.o == old(vm.o)[x := Free] && |vm.free| >= |old(vm.free)|
    ensures |vm.mem| == |old(vm.mem)| && vm.mem[y] == old(vm.mem)[y][i := 0]
    ensures forall z :: 0 <= z < |vm.mem| && z != y && z != x ==> vm.mem[z] == old(vm.mem)[z]
  {
    vm.mem := vm.mem[y := vm.mem[y][i := 0]];
    vm.o := vm.o[x := Loose];
    vm.Kfree(x);
    Cut(old(vm.mem), old(vm.o), s1, vm.mem, vm.o, t, x, y);
  }

  /** `freewalk` on a lowest page, and the clearing of the entry that named it. */
  method FreeLow(vm: Vm, t: nat, b: nat, m: nat, x: nat)
    requires vm.Valid() && t < |vm.o| && vm.o[t] == Root && b < NPTE * NPTE && NoLeaves(vm.mem, t)
    requires m == MidPage(vm.mem, t, b / NPTE) && x == LowPage(vm.mem, t, b) != 0 && x < |vm.o|
    modifies vm
    ensures vm.Valid() && Pruned(old(vm.mem), old(vm.o), vm.mem, vm.o, t)
    ensures vm.o == old(vm.o)[x := Free] && |vm.free| >= |old(vm.free)|
    ensures m < |vm.mem| == |old(vm.mem)| && vm.mem[m] == old(vm.mem)[m][b % NPTE := 0]
    ensures forall y :: 0 <= y < |vm.mem| && y != m && y != x ==> vm.mem[y] == old(vm.mem)[y]
  {
    CheckLow(vm, t, b, x);
    CutLow(vm.mem, vm.head, vm.o, vm.free, t, b, m, x);
    DropTable(vm, t, m, b % NPTE, x, vm.mem[m := vm.mem[m][b % NPTE := 0]]);
  }

  /** Midway through middle page `m` of `t`. */
  ghost predicate MidCleared(s0: Mem, s: Mem, o: seq<Owner>, t: nat, a: nat, m: nat, i: nat) {
    && a < NPTE && i <= NPTE && t < |o| == |s| == |s0| && o[t] == Root
    && m == MidPage(s, t, a) != 0 && m < |o| && o[m] == Mid(t, a)
    && s[t] == s0[t] && NoLeaves(s, t) && forall j :: 0 <= j < i ==> s[m][j] == 0
  }

  lemma MidEntry(s: Mem, o: seq<Owner>, t: nat, a: nat, m: nat, i: nat)
    requires TreesOk(s, o) && t < |o| && o[t] == Root && a < NPTE && i < NPTE && m == MidPage(s, t, a) != 0
    ensures var b := a * NPTE + i; b < NPTE * NPTE && b / NPTE == a && b % NPTE == i
    ensures m < |s| && LowPage(s, t, a * NPTE + i) == Next(s[m][i])
    ensures var w := s[m][i]; if V(w) then !HasRWX(w) && 0 < Ppn(w) < |o| && o[Ppn(w)].Low? else w == 0
  {
    var b := a * NPTE + i;
    assert b / NPTE == a && b % NPTE == i;
    PathOk(s, o, t, b);
    assert PageOk(s, o, m);
    UpperEntry(o, s[m][i], Low(t, b));
  }

  lemma MidClearedStep(s0: Mem, s1: Mem, o1: seq<Owner>, s2: Mem, o2: seq<Owner>, t: nat, a: nat, m: nat, i: nat)
    requires MidCleared(s0, s1, o1, t, a, m, i) && i < NPTE && |s2| == |s1| && |o2| == |o1|
    requires o2[t] == Root && o2[m] == o1[m] && s2[t] == s1[t] && s2[m] == s1[m][i := 0] && SameLeaves(s1, s2, o1)
    ensures MidCleared(s0, s2, o2, t, a, m, i + 1)
  {
  }

  /** Turn `i` of `freewalk` on a middle page. */
  method FreeMidNext(vm: Vm, t: nat, a: nat, m: nat, i: nat, ghost s0: Mem, ghost o0: seq<Owner>)
    requires vm.Valid() && MidCleared(s0, vm.mem, vm.o, t, a, m, i) && i < NPTE && Pruned(s0, o0, vm.mem, vm.o, t)
    modifies vm
    ensures vm.Valid() && MidCleared(s0, vm.mem, vm.o, t, a, m, i + 1) && Pruned(s0, o0, vm.mem, vm.o, t)
    ensures |vm.free| >= |old(vm.free)|
  {
    ghost var m1, o1 := vm.mem, vm.o;
    var pte := vm.mem[m][i];
    MidEntry(m1, o1, t, a, m, i);
    if V(pte) {
      assert !HasRWX(pte);
      FreeLow(vm, t, a * NPTE + i, m, Ppn(pte));
      PrunedTrans(s0, o0, m1, o1, vm.mem, vm.o, t);
      MidClearedStep(s0, m1, o1, vm.mem, vm.o, t, a, m, i);
    }
  }

  /** `freewalk` on a middle page. */
  method FreeMid(vm: Vm, t: nat, a: nat, m: nat)
    requires vm.Valid()
    requires t < |vm.o| && vm.o[t] == Root && a < NPTE && NoLeaves(vm.mem, t) && m == MidPage(vm.mem, t, a) != 0
    modifies vm
    ensures vm.Valid() && Pruned(old(vm.mem), old(vm.o), vm.mem, vm.o, t)
    ensures |vm.mem| == |old(vm.mem)| && vm.mem[t] == old(vm.mem)[t][a := 0] && |vm.free| >= |old(vm.free)|
  {
    ghost var s0, o0 := vm.mem, vm.o;
    PathOk(s0, o0, t, a * NPTE);
    var i := 0;
    while i < NPTE
      invariant vm.Valid() && MidCleared(s0, vm.mem, vm.o, t, a, m, i) && Pruned(s0, o0, vm.mem, vm.o, t)
      invariant |vm.free| >= |old(vm.free)|
    {
      FreeMidNext(vm, t, a, m, i, s0, o0);
      i := i + 1;
    }
    ghost var m1, o1 := vm.mem, vm.o;
    CutMid(vm.mem, vm.head, vm.o, vm.free, t, a, m);
    DropTable(vm, t, t, a, m, m1[t := m1[t][a := 0]]);
    PrunedTrans(s0, o0, m1, o1, vm.mem, vm.o, t);
  }

  ghost predicate RootCleared(s: Mem, o: seq<Owner>, t: nat, a: nat) {
    a <= NPTE && t < |o| == |s| && o[t] == Root && NoLeaves(s, t) && forall j :: 0 <= j < a ==> s[t][j] == 0
  }

  lemma RootClearedStep(s1: Mem, o1: seq<Owner>, s2: Mem, o2: seq<Owner>, t: nat, a: nat)
    requires RootCleared(s1, o1, t, a) && a < NPTE && Pruned(s1, o1, s2, o2, t) && s2[t] == s1[t][a := 0]
    ensures RootCleared(s2, o2, t, a + 1)
  {
  }

  method FreeRootNext(vm: Vm, t: nat, a: nat, ghost s0: Mem, ghost o0: seq<Owner>)
    requires vm.Valid() && RootCleared(vm.mem, vm.o, t, a) && a < NPTE && Pruned(s0, o0, vm.mem, vm.o, t)
    modifies vm
    ensures vm.Valid()
    ensures RootCleared(vm.mem, vm.o, t, a + 1) && Pruned(s0, o0, vm.mem, vm.o, t) && |vm.free| >= |old(vm.free)|
  {
    ghost var m1, o1 := vm.mem, vm.o;
    var pte := vm.mem[t][a];
    assert PageOk(m1, o1, t);
    UpperEntry(o1, pte, Mid(t, a));
    if V(pte) {
      assert !HasRWX(pte);
      FreeMid(vm, t, a, Ppn(pte));
      PrunedTrans(s0, o0, m1, o1, vm.mem, vm.o, t);
      RootClearedStep(m1, o1, vm.mem, vm.o, t, a);
    }
  }

  /** An empty root has nothing under it. */
  lemma NothingLeft(s0: Mem, o0: seq<Owner>, s: Mem, o: seq<Owner>, t: nat, y: nat)
    requires TreesOk(s, o) && Pruned(s0, o0, s, o, t) && t < |o| && o[t] == Root && Empty(s[t]) && y < |o|
    ensures o[t := Free][y] == if InTree(o0[y], y, t) then Free else o0[y]
  {
    assert PageOk(s, o, y);
  }

  lemma RootGone(s0: Mem, o0: seq<Owner>, s1: Mem, o1: seq<Owner>, s2: Mem, o2: seq<Owner>, t: nat)
    requires TreesOk(s1, o1) && Pruned(s0, o0, s1, o1, t) && t < |o0| && o1[t] == Root && Empty(s1[t])
    requires SameLeaves(s1, s2, o1[t := Loose])
    requires |s2| == |s1| && o2 == o1[t := Free] && forall y :: 0 <= y < |s1| && y != t ==> s2[y] == s1[y]
    ensures TreeGone(s0, o0, s2, o2, t)
  {
    forall u, z | 0 <= u < |o0| && o0[u] == Root && u != t && 0 <= z < NPTE * NPTE * NPTE
      ensures LeafPte(s2, u, z) == LeafPte(s0, u, z)
    {
      assert o1[u] == Root && LeafPte(s1, u, z) == LeafPte(s0, u, z);
    }
    forall y | 0 <= y < |o0| ensures o2[y] == if InTree(o0[y], y, t) then Free else o0[y] {
      NothingLeft(s0, o0, s1, o1, t, y);
    }
  }

  /** The last `kfree` of `freewalk`. */
  method FreeRoot(vm: Vm, t: nat, ghost s0: Mem, ghost o0: seq<Owner>)
    requires vm.Valid() && 0 < t && RootCleared(vm.mem, vm.o, t, NPTE) && Pruned(s0, o0, vm.mem, vm.o, t)
    modifies vm
    ensures vm.Valid() && TreeGone(s0, o0, vm.mem, vm.o, t) && |vm.free| >= |old(vm.free)|
  {
    ghost var m1, o1 := vm.mem, vm.o;
    DropRoot(vm.mem, vm.o, t);
    KeepFree(vm.mem, vm.mem, vm.head, vm.o, vm.o[t := Loose], vm.free);
    vm.o := vm.o[t := Loose];
    vm.Kfree(t);
    RootGone(s0, o0, m1, o1, vm.mem, vm.o, t);
  }

  /** `freewalk` on a whole tree whose mappings have all been removed. */
  method Freewalk(vm: Vm, t: nat)
    requires vm.Valid() && 0 < t < |vm.o| && vm.o[t] == Root && NoLeaves(vm.mem, t)
    modifies vm
    ensures vm.Valid() && TreeGone(old(vm.mem), old(vm.o), vm.mem, vm.o, t) && |vm.free| >= |old(vm.free)|
  {
    ghost var s0, o0 := vm.mem, vm.o;
    var a := 0;
    while a < NPTE
      invariant vm.Valid()
      invariant RootCleared(vm.mem, vm.o, t, a) && Pruned(s0, o0, vm.mem, vm.o, t) && |vm.free| >= |old(vm.free)|
    {
      FreeRootNext(vm, t, a, s0, o0);
      a := a + 1;
    }
    FreeRoot(vm, t, s0, o0);
  }
}
