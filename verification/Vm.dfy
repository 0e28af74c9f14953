/** kernel/kalloc.c and kernel/vm.c on physical memory as words, updated in
    place.  Contracts speak of translations (`LeafPte`) and of who owns every
    physical page (`o`). */
module Vm {
  import opened PageTable

  const PGSIZE := 4096

  function PagesOf(sz: nat): nat { (sz + PGSIZE - 1) / PGSIZE }     // PGROUNDUP(sz) / PGSIZE

  lemma WholePages(n: nat)
    ensures PagesOf(n * PGSIZE) == n
  {
  }

  /** Page-table pages of `t` may have been added, nothing else. */
  predicate TablesGrew(o: seq<Owner>, o': seq<Owner>, t: nat) {
    && |o'| == |o|
    && forall x :: 0 <= x < |o| && o'[x] != o[x] ==> o[x] == Free && (o'[x].Mid? || o'[x].Low?) && o'[x].t == t
  }

  /** Pages that keep a use other than page table keep their contents. */
  predicate Kept(s: Mem, o: seq<Owner>, s': Mem, o': seq<Owner>) {
    && |s| == |s'| == |o| == |o'|
    && forall y :: 0 <= y < |o| && o'[y] == o[y] && !IsTable(o[y]) && o[y] != Free ==> s'[y] == s[y]
  }

  /** Page `x + i` may be mapped at `v + i`: nothing else uses it, or it is the
      trampoline or a trapframe. */
  predicate Mappable(o: seq<Owner>, v: nat, x: nat, i: nat) {
    Special(v + i) || (0 < x + i < |o| && o[x + i] == Loose)
  }

  /** The `n` pages from `x` on are mapped at `v`; tables may have been added. */
  ghost predicate RangeMapped(s: Mem, o: seq<Owner>, s': Mem, o': seq<Owner>, t: nat, v: nat, n: nat, x: nat,
                      perm: nat) {
    && Kept(s, o, s', o')
    && (forall u, z :: 0 <= u < |o| && o[u] == Root && 0 <= z < NPTE * NPTE * NPTE ==>
          LeafPte(s', u, z) == if u == t && v <= z < v + n then Pte(x + z - v, perm + PTE_V) else LeafPte(s, u, z))
    && (forall y :: 0 <= y < |o| ==>
          if x <= y < x + n && !Special(v + y - x) then o'[y] == Leaf(t, v + y - x) && s'[y] == s[y]
          else o'[y] == o[y] || (o[y] == Free && (o'[y].Mid? || o'[y].Low?) && o'[y].t == t))
  }

  lemma RangeNext(s: Mem, o: seq<Owner>, s1: Mem, o1: seq<Owner>, t: nat, v: nat, i: nat, x: nat, perm: nat)
    requires RangeMapped(s, o, s1, o1, t, v, i, x, perm) && t < |o| && o[t] == Root && v + i < MAXVPN
    requires LeafPte(s, t, v + i) == 0 && forall j :: 0 <= j <= i ==> Mappable(o, v, x, j)
    ensures LeafPte(s1, t, v + i) == 0 && Mappable(o1, v, x, i) && o1[t] == Root
  {
    assert Mappable(o, v, x, i);
    assert x <= t < x + i ==> Mappable(o, v, x, t - x);
  }

  /** Page `x` is now mapped at `v`; tables may have been added; that is all. */
  ghost predicate Mapped(s: Mem, o: seq<Owner>, s': Mem, o': seq<Owner>, t: nat, v: nat, x: nat, perm: nat) {
    && LeafChanged(s, s', o, t, v, Pte(x, perm + PTE_V))
    && if Special(v) then TablesGrew(o, o', t)
       else x < |o| == |s| == |s'| && TablesGrew(o[x := Leaf(t, v)], o', t) && s'[x] == s[x]
  }

  lemma RangeStep(s: Mem, o: seq<Owner>, s1: Mem, o1: seq<Owner>, s2: Mem, o2: seq<Owner>, t: nat, v: nat, i: nat,
                  x: nat, perm: nat)
    requires RangeMapped(s, o, s1, o1, t, v, i, x, perm) && |o2| == |o|
    requires Mapped(s1, o1, s2, o2, t, v + i, x + i, perm) && Kept(s1, o1, s2, o2)
    requires forall j :: 0 <= j <= i ==> Mappable(o, v, x, j)
    ensures RangeMapped(s, o, s2, o2, t, v, i + 1, x, perm)
  {
    assert Mappable(o, v, x, i);
    forall u, z | 0 <= u < |o| && o[u] == Root && 0 <= z < NPTE * NPTE * NPTE
      ensures LeafPte(s2, u, z)
              == if u == t && v <= z < v + i + 1 then Pte(x + z - v, perm + PTE_V) else LeafPte(s, u, z)
    {
      assert x <= u < x + i ==> Mappable(o, v, x, u - x);
      assert o1[u] == Root;
      assert LeafPte(s2, u, z) == if u == t && z == v + i then Pte(x + i, perm + PTE_V) else LeafPte(s1, u, z);
    }
  }

  lemma RangeStuck(s: Mem, o: seq<Owner>, s1: Mem, o1: seq<Owner>, s2: Mem, o2: seq<Owner>, t: nat, v: nat, i: nat,
                   x: nat, perm: nat)
    requires RangeMapped(s, o, s1, o1, t, v, i, x, perm) && SameLeaves(s1, s2, o1) && TablesGrew(o1, o2, t)
    requires Kept(s1, o1, s2, o2) && forall j :: 0 <= j <= i ==> Mappable(o, v, x, j)
    ensures RangeMapped(s, o, s2, o2, t, v, i, x, perm)
  {
    forall u, z | 0 <= u < |o| && o[u] == Root && 0 <= z < NPTE * NPTE * NPTE
      ensures LeafPte(s2, u, z) == LeafPte(s1, u, z)
    {
      assert x <= u < x + i ==> Mappable(o, v, x, u - x);
      assert o1[u] == Root;
    }
  }

  /** One page mapped by `mappages`. */
  lemma OneMapped(s: Mem, o: seq<Owner>, s': Mem, o': seq<Owner>, t: nat, v: nat, x: nat, perm: nat)
    requires RangeMapped(s, o, s', o', t, v, 1, x, perm) && Mappable(o, v, x, 0)
    ensures Mapped(s, o, s', o', t, v, x, perm)
  {
  }

  /** No page mapped by it. */
  lemma NoneMapped(s: Mem, o: seq<Owner>, s': Mem, o': seq<Owner>, t: nat, v: nat, x: nat, perm: nat)
    requires RangeMapped(s, o, s', o', t, v, 0, x, perm)
    ensures TablesGrew(o, o', t) && SameLeaves(s, s', o)
  {
  }

  predicate InRange(a: Owner, t: nat, v: nat, n: nat) { a.Leaf? && a.t == t && v <= a.v < v + n }

  /** The mappings v..v+n of `t` are gone, and their pages with them. */
  ghost predicate RangeCleared(s: Mem, o: seq<Owner>, s': Mem, o': seq<Owner>, t: nat, v: nat, n: nat, freed: bool) {
    && Kept(s, o, s', o')
    && (forall u, z :: 0 <= u < |o| && o[u] == Root && 0 <= z < NPTE * NPTE * NPTE ==>
          LeafPte(s', u, z) == if u == t && v <= z < v + n then 0 else LeafPte(s, u, z))
    && (forall y :: 0 <= y < |o| ==>
          o'[y] == if InRange(o[y], t, v, n) then (if freed then Free else Loose) else o[y])
  }

  /** The page mapped at `v + i` is the only one labelled so. */
  lemma ClearedOwner(s: Mem, o: seq<Owner>, t: nat, v: nat, i: nat, y: nat)
    requires TreesOk(s, o) && t < |o| && o[t] == Root && v + i < MAXVPN && LeafPte(s, t, v + i) != 0 && y < |o|
    ensures InRange(o[y], t, v, i + 1)
            <==> InRange(o[y], t, v, i) || (!Special(v + i) && y == Ppn(LeafPte(s, t, v + i)))
  {
    LeafPteOk(s, o, t, v + i);
    assert PageOk(s, o, y);
  }

  /** Page `v` is no longer mapped and its page is free, or loose. */
  ghost predicate Unmapped(s: Mem, o: seq<Owner>, s': Mem, o': seq<Owner>, t: nat, v: nat, freed: bool) {
    && LeafChanged(s, s', o, t, v, 0)
    && if Special(v) then o' == o
       else var x := Ppn(LeafPte(s, t, v)); x < |o| && o' == o[x := if freed then Free else Loose]
  }

  lemma ClearedStep(s: Mem, o: seq<Owner>, s1: Mem, o1: seq<Owner>, s2: Mem, o2: seq<Owner>, t: nat, v: nat, i: nat,
                    freed: bool)
    requires RangeCleared(s, o, s1, o1, t, v, i, freed) && TreesOk(s, o) && t < |o| && o[t] == Root && v + i < MAXVPN
    requires LeafPte(s, t, v + i) != 0 && Unmapped(s1, o1, s2, o2, t, v + i, freed) && Kept(s1, o1, s2, o2)
    ensures RangeCleared(s, o, s2, o2, t, v, i + 1, freed)
  {
    assert LeafPte(s1, t, v + i) == LeafPte(s, t, v + i);
    LeafPteOk(s, o, t, v + i);
    forall u, z | 0 <= u < |o| && o[u] == Root && 0 <= z < NPTE * NPTE * NPTE
      ensures LeafPte(s2, u, z) == if u == t && v <= z < v + i + 1 then 0 else LeafPte(s, u, z)
    {
      assert LeafPte(s2, u, z) == if u == t && z == v + i then 0 else LeafPte(s1, u, z);
    }
    forall y | 0 <= y < |o|
      ensures o2[y] == if InRange(o[y], t, v, i + 1) then (if freed then Free else Loose) else o[y]
    {
      ClearedOwner(s, o, t, v, i, y);
    }
  }

  /** One mapping removed by `uvmunmap`, that of the trampoline or a trapframe. */
  lemma SpecialCleared(s: Mem, o: seq<Owner>, s': Mem, o': seq<Owner>, t: nat, v: nat)
    requires RangeCleared(s, o, s', o', t, v, 1, false) && TreesOk(s, o) && Special(v)
    ensures o' == o && LeafChanged(s, s', o, t, v, 0) && Kept(s, o, s', o)
  {
    forall y | 0 <= y < |o| ensures !InRange(o[y], t, v, 1) { assert PageOk(s, o, y); }
  }

  /** Flags other than PTE_V that allow some access. */
  predicate PermOk(perm: nat) { perm < 1024 && perm % 2 == 0 && HasRWX(perm) }

  /** Writes outside the free list leave it alone. */
  lemma KeepFree(s: Mem, s': Mem, head: nat, o: seq<Owner>, o': seq<Owner>, free: seq<nat>)
    requires Inv(s, head, o, free) && |s'| == |s| && |o'| == |o|
    requires forall x :: 0 <= x < |o| && o[x] == Free ==> s'[x] == s[x]
    requires forall x :: 0 <= x < |o| ==> (o'[x] == Free <==> o[x] == Free)
    ensures FreeOk(s', head, o', free)
  {
    ChainFrame(s, s', head, free);
  }

  lemma MapHere(s: Mem, head: nat, o: seq<Owner>, free: seq<nat>, t: nat, v: nat, x: nat, perm: nat)
    requires Inv(s, head, o, free)
    requires t < |o| && o[t] == Root && v < MAXVPN && LowPage(s, t, v / NPTE) != 0 && LeafPte(s, t, v) == 0
    requires PermOk(perm) && (Special(v) || (0 < x < |o| && o[x] == Loose))
    ensures LowPage(s, t, v / NPTE) < |s| && o[LowPage(s, t, v / NPTE)].Low?
    ensures var w := Pte(x, perm + PTE_V); var s' := PutLeaf(s, t, v, w);
            && Inv(s', head, if Special(v) then o else o[x := Leaf(t, v)], free) && LeafChanged(s, s', o, t, v, w)
  {
    MapLeaf(s, o, t, v, x, perm + PTE_V);
    PathOk(s, o, t, v / NPTE);
    var s', o' := PutLeaf(s, t, v, Pte(x, perm + PTE_V)), if Special(v) then o else o[x := Leaf(t, v)];
    KeepFree(s, s', head, o, o', free);
  }

  lemma LeafChangedTrans(s0: Mem, s: Mem, s': Mem, o0: seq<Owner>, o: seq<Owner>, t: nat, v: nat, w: nat)
    requires SameLeaves(s0, s, o0) && LeafChanged(s, s', o, t, v, w) && |o0| == |o|
    requires forall y :: 0 <= y < |o0| && o0[y] == Root ==> o[y] == Root
    ensures LeafChanged(s0, s', o0, t, v, w)
  {
    forall u, z | 0 <= u < |o0| && o0[u] == Root && 0 <= z < NPTE * NPTE * NPTE
      ensures LeafPte(s', u, z) == if u == t && z == v then w else LeafPte(s0, u, z)
    {
      assert LeafPte(s, u, z) == LeafPte(s0, u, z);
    }
  }

  lemma MappedSince(s0: Mem, o0: seq<Owner>, s: Mem, o: seq<Owner>, t: nat, v: nat, x: nat, perm: nat)
    requires t < |o0| && TablesGrew(o0, o, t) && SameLeaves(s0, s, o0) && Kept(s0, o0, s, o)
    requires Special(v) || (0 < x < |o0| && o0[x] == Loose)
    requires LowPage(s, t, v / NPTE) < |s| && o[LowPage(s, t, v / NPTE)].Low?
    requires LeafChanged(s, PutLeaf(s, t, v, Pte(x, perm + PTE_V)), o, t, v, Pte(x, perm + PTE_V))
    ensures var s', o' := PutLeaf(s, t, v, Pte(x, perm + PTE_V)), if Special(v) then o else o[x := Leaf(t, v)];
            Mapped(s0, o0, s', o', t, v, x, perm) && Kept(s0, o0, s', o')
  {
    LeafChangedTrans(s0, s, PutLeaf(s, t, v, Pte(x, perm + PTE_V)), o0, o, t, v, Pte(x, perm + PTE_V));
  }

  lemma MapInv(s0: Mem, o0: seq<Owner>, s: Mem, head: nat, o: seq<Owner>, free: seq<nat>, t: nat, v: nat, x: nat,
               perm: nat)
    requires Inv(s, head, o, free)
    requires t < |o0| && o0[t] == Root && v < MAXVPN && TablesGrew(o0, o, t) && SameLeaves(s0, s, o0)
    requires LowPage(s, t, v / NPTE) != 0 && LeafPte(s, t, v) == 0
    requires PermOk(perm) && (Special(v) || (0 < x < |o0| && o0[x] == Loose)) && Kept(s0, o0, s, o)
    ensures LowPage(s, t, v / NPTE) < |s|
    ensures var s', o' := PutLeaf(s, t, v, Pte(x, perm + PTE_V)), if Special(v) then o else o[x := Leaf(t, v)];
            Inv(s', head, o', free) && Mapped(s0, o0, s', o', t, v, x, perm) && Kept(s0, o0, s', o')
  {
    MapHere(s, head, o, free, t, v, x, perm);
    MappedSince(s0, o0, s, o, t, v, x, perm);
  }

  lemma UnmapInv(s: Mem, head: nat, o: seq<Owner>, free: seq<nat>, t: nat, v: nat)
    requires Inv(s, head, o, free) && t < |o| && o[t] == Root && v < MAXVPN && LeafPte(s, t, v) != 0
    ensures LowPage(s, t, v / NPTE) < |s|
    ensures var x, s' := Ppn(LeafPte(s, t, v)), PutLeaf(s, t, v, 0);
            && (Special(v) || (0 < x < |o| && o[x] == Leaf(t, v)))
            && Inv(s', head, if Special(v) then o else o[x := Loose], free)
            && LeafChanged(s, s', o, t, v, 0) && Kept(s, o, s', if Special(v) then o else o[x := Loose])
  {
    UnmapLeaf(s, o, t, v);
    PathOk(s, o, t, v / NPTE);
    var x, s' := Ppn(LeafPte(s, t, v)), PutLeaf(s, t, v, 0);
    KeepFree(s, s', head, o, if Special(v) then o else o[x := Loose], free);
  }

  lemma UnmappedFree(s: Mem, o: seq<Owner>, s1: Mem, s': Mem, o': seq<Owner>, t: nat, v: nat, x: nat)
    requires !Special(v) && x < |o| && o[x].Leaf? && x == Ppn(LeafPte(s, t, v)) && LeafChanged(s, s1, o, t, v, 0)
    requires SameLeaves(s1, s', o[x := Loose]) && o' == o[x := Free]
    requires Kept(s, o, s1, o[x := Loose]) && |s'| == |s1| && forall y :: 0 <= y < |s1| && y != x ==> s'[y] == s1[y]
    ensures Unmapped(s, o, s', o', t, v, true) && Kept(s, o, s', o')
  {
    forall u, z | 0 <= u < |o| && o[u] == Root && 0 <= z < NPTE * NPTE * NPTE
      ensures LeafPte(s', u, z) == if u == t && z == v then 0 else LeafPte(s, u, z)
    {
      assert LeafPte(s', u, z) == LeafPte(s1, u, z);
    }
  }

  /** An entry of an upper level is empty or points to a table, never to a
      leaf. */
  lemma UpperEntry(o: seq<Owner>, w: nat, target: Owner)
    requires UpperOk(o, w, target)
    ensures V(w) ==> !HasRWX(w) && 0 < Ppn(w) < |o| && o[Ppn(w)] == target
    ensures !V(w) ==> w == 0
  {
    PteFields(Ppn(w), PTE_V);
  }

  lemma RootEntry(s: Mem, o: seq<Owner>, t: nat, a: nat)
    requires TreesOk(s, o) && t < |o| && o[t] == Root && a < NPTE
    ensures MidPage(s, t, a) == if V(s[t][a]) then Ppn(s[t][a]) else 0
    ensures if V(s[t][a]) then Ppn(s[t][a]) > 0 else s[t][a] == 0
  {
    assert PageOk(s, o, t);
    UpperEntry(o, s[t][a], Mid(t, a));
  }

  lemma LowEntry(s: Mem, o: seq<Owner>, t: nat, b: nat, m: nat)
    requires TreesOk(s, o) && t < |o| && o[t] == Root && b < NPTE * NPTE && m == MidPage(s, t, b / NPTE) != 0
    ensures m < |s|
    ensures LowPage(s, t, b) == if V(s[m][b % NPTE]) then Ppn(s[m][b % NPTE]) else 0
    ensures V(s[m][b % NPTE]) ==> Ppn(s[m][b % NPTE]) > 0
  {
    PathOk(s, o, t, b);
    assert PageOk(s, o, m);
    UpperEntry(o, s[m][b % NPTE], Low(t, b / NPTE * NPTE + b % NPTE));
  }

  /** No translation has changed; at most page-table pages of `t` were added. */
  ghost predicate NoGrowth(s: Mem, o: seq<Owner>, s': Mem, o': seq<Owner>, t: nat) {
    TablesGrew(o, o', t) && SameLeaves(s, s', o) && Kept(s, o, s', o')
  }

  lemma SameLeavesTrans(s0: Mem, s1: Mem, s2: Mem, o0: seq<Owner>, o1: seq<Owner>)
    requires SameLeaves(s0, s1, o0) && SameLeaves(s1, s2, o1) && |o1| == |o0|
    requires forall x :: 0 <= x < |o0| && o0[x] == Root ==> o1[x] == Root
    ensures SameLeaves(s0, s2, o0)
  {
    forall t, v | 0 <= t < |o0| && o0[t] == Root && 0 <= v < NPTE * NPTE * NPTE
      ensures LeafPte(s2, t, v) == LeafPte(s0, t, v)
    {
      assert LeafPte(s1, t, v) == LeafPte(s0, t, v);
    }
  }

  /** From `s0` a zeroed loose page `x` was taken; now it goes under the root. */
  lemma LinkMidInv(s0: Mem, o0: seq<Owner>, s: Mem, head: nat, o: seq<Owner>, free: seq<nat>, t: nat, a: nat, x: nat)
    requires Inv(s, head, o, free) && t < |o| == |o0| && o0[t] == Root && a < NPTE && 0 < x < |o| == |s0|
    requires o0[x] == Free && o == o0[x := Loose] && s == s0[x := Fill(0)] && s0[t][a] == 0
    requires SameLeaves(s0, s, o0)
    ensures var s', o' := s[t := s[t][a := Pte(x, PTE_V)]], o[x := Mid(t, a)];
            Inv(s', head, o', free) && NoGrowth(s0, o0, s', o', t) && MidPage(s', t, a) == x
  {
    LinkMid(s, o, t, a, x);
    var s', o' := s[t := s[t][a := Pte(x, PTE_V)]], o[x := Mid(t, a)];
    KeepFree(s, s', head, o, o', free);
    SameLeavesTrans(s0, s, s', o0, o);
  }

  lemma LinkLowInv(s0: Mem, o0: seq<Owner>, s: Mem, head: nat, o: seq<Owner>, free: seq<nat>, t: nat, b: nat, m: nat,
                   x: nat)
    requires TreesOk(s0, o0) && Inv(s, head, o, free) && t < |o| == |o0| && o0[t] == Root && b < NPTE * NPTE
    requires 0 < x < |o| && o0[x] == Free && o == o0[x := Loose] && s == s0[x := Fill(0)]
    requires m == MidPage(s0, t, b / NPTE) != 0 && LowPage(s0, t, b) == 0
    requires SameLeaves(s0, s, o0)
    ensures m < |s|
    ensures var s', o' := s[m := s[m][b % NPTE := Pte(x, PTE_V)]], o[x := Low(t, b)];
            Inv(s', head, o', free) && NoGrowth(s0, o0, s', o', t) && LowPage(s', t, b) == x
  {
    PathOk(s0, o0, t, b);
    LinkLow(s, o, t, b, x);
    var s', o' := s[m := s[m][b % NPTE := Pte(x, PTE_V)]], o[x := Low(t, b)];
    KeepFree(s, s', head, o, o', free);
    SameLeavesTrans(s0, s, s', o0, o);
  }

  /** Filling a page that was just allocated. */
  lemma Refilled(s0: Mem, o0: seq<Owner>, s: Mem, head: nat, o: seq<Owner>, free: seq<nat>, x: nat, q: Page, p: Page)
    requires Inv(s, head, o, free) && SameLeaves(s0, s, o0) && 0 < x < |o| == |o0| == |s0|
    requires o0[x] == Free && o == o0[x := Loose] && s == s0[x := q]
    ensures Inv(s[x := p], head, o, free) && SameLeaves(s0, s[x := p], o0) && s[x := p] == s0[x := p]
  {
    NonTableWrite(s, o, x, p);
    KeepFree(s, s[x := p], head, o, o, free);
    SameLeavesTrans(s0, s, s[x := p], o0, o);
  }

  lemma NoGrowthTrans(s0: Mem, o0: seq<Owner>, s1: Mem, o1: seq<Owner>, s2: Mem, o2: seq<Owner>, t: nat)
    requires NoGrowth(s0, o0, s1, o1, t) && NoGrowth(s1, o1, s2, o2, t)
    ensures NoGrowth(s0, o0, s2, o2, t)
  {
    SameLeavesTrans(s0, s1, s2, o0, o1);
  }

  // ----- The code ------------------------------------------------------------

  class Vm {
    var mem: Mem
    var head: nat                       // kmem.freelist
    ghost var o: seq<Owner>
    ghost var free: seq<nat>

    ghost predicate Valid()
      reads this
    {
      Inv(mem, head, o, free)
    }

    /** `kinit`: of the `n` pages of memory the kernel itself is in the first
        `kernel`; `freerange` frees the others one by one. */
    constructor (n: nat, kernel: nat)
      requires 0 < kernel <= n <= MAXPHYS
      ensures Valid() && |o| == n && |free| == n - kernel
      ensures forall x :: 0 <= x < n ==> o[x] == if x < kernel then Kernel else Free
      ensures forall i :: 0 <= i < |free| ==> free[i] == n - 1 - i
    {
      mem := seq(n, _ => Fill(0));
      head := 0;
      o := seq(n, x => if x < kernel then Kernel else Loose);
      free := [];
      new;
      var p := kernel;
      while p < n
        invariant kernel <= p <= n && Valid() && |o| == n && |free| == p - kernel
        invariant forall x :: 0 <= x < n ==> o[x] == if x < kernel then Kernel else if x < p then Free else Loose
        invariant forall i :: 0 <= i < |free| ==> free[i] == p - 1 - i
      {
        Kfree(p);
        p := p + 1;
      }
    }

    /** The null pointer when there is no free page. */
    method Kalloc() returns (x: nat)
      requires Valid()
      modifies this
      ensures Valid() && |o| == |old(o)| && SameLeaves(old(mem), mem, old(o))
      ensures x == 0 ==> old(free) == [] && free == [] && o == old(o) && mem == old(mem)
      ensures x != 0 ==> old(free) != [] && x == old(free)[0] && free == old(free)[1..]
      ensures x != 0 ==> x < |o| && old(o)[x] == Free && o == old(o)[x := Loose]
      ensures x != 0 ==> mem == old(mem)[x := Fill(0x0505_0505_0505_0505)]
    {
      x := head;
      if x != 0 {
        AllocEffect(mem, head, o, free, Fill(0x0505_0505_0505_0505));
        head := mem[x][0];
        mem := mem[x := Fill(0x0505_0505_0505_0505)];
        o, free := o[x := Loose], free[1..];
      }
    }

    method Kfree(x: nat)
      requires Valid() && 0 < x < |o| && o[x] == Loose
      modifies this
      ensures Valid() && o == old(o)[x := Free] && free == [x] + old(free)
      ensures SameLeaves(old(mem), mem, old(o)) && |mem| == |old(mem)|
      ensures forall y :: 0 <= y < |mem| && y != x ==> mem[y] == old(mem)[y]
    {
      var p := Fill(0x0101_0101_0101_0101);
      p := p[0 := head];
      FreeEffect(mem, head, o, free, x, p);
      mem := mem[x := p];
      head := x;
      o, free := o[x := Free], [x] + free;
    }

    /** `kalloc` and then `memset` or `memmove` of a whole page. */
    method NewPage(p: Page) returns (x: nat)
      requires Valid()
      modifies this
      ensures Valid() && |o| == |old(o)| && SameLeaves(old(mem), mem, old(o))
      ensures x == 0 ==> |old(free)| == 0 && o == old(o) && mem == old(mem)
      ensures x != 0 ==> x < |o| && old(o)[x] == Free && o == old(o)[x := Loose] && mem == old(mem)[x := p]
      ensures |free| + 1 >= |old(free)|
    {
      x := Kalloc();
      if x != 0 {
        Refilled(old(mem), old(o), mem, head, o, free, x, Fill(0x0505_0505_0505_0505), p);
        mem := mem[x := p];
      }
    }

    /** A new middle page under `a`, where there is none. */
    method AddMid(t: nat, a: nat) returns (m: nat)
      requires Valid() && t < |o| && o[t] == Root && a < NPTE && mem[t][a] == 0
      modifies this
      ensures Valid() && NoGrowth(old(mem), old(o), mem, o, t) && m == MidPage(mem, t, a)
      ensures |free| + 1 >= |old(free)| && (m == 0 ==> |old(free)| == 0)
    {
      m := NewPage(Fill(0));
      if m != 0 {
        LinkMidInv(old(mem), old(o), mem, head, o, free, t, a, m);
        mem := mem[t := mem[t][a := Pte(m, PTE_V)]];
        o := o[m := Mid(t, a)];
      }
    }

    /** A new lowest page under `b`, where there is none. */
    method AddLow(t: nat, b: nat, m: nat) returns (l: nat)
      requires Valid() && t < |o| && o[t] == Root && b < NPTE * NPTE && m == MidPage(mem, t, b / NPTE) != 0
      requires LowPage(mem, t, b) == 0
      modifies this
      ensures Valid() && NoGrowth(old(mem), old(o), mem, o, t) && l == LowPage(mem, t, b)
      ensures |free| + 1 >= |old(free)| && (l == 0 ==> |old(free)| == 0)
    {
      l := NewPage(Fill(0));
      if l != 0 {
        LinkLowInv(old(mem), old(o), mem, head, o, free, t, b, m, l);
        mem := mem[m := mem[m][b % NPTE := Pte(l, PTE_V)]];
        o := o[l := Low(t, b)];
      }
    }

    /** One level of `walk`: the middle page under `a`, allocated if asked for. */
    method WalkMid(t: nat, a: nat, alloc: bool) returns (m: nat)
      requires Valid() && t < |o| && o[t] == Root && a < NPTE
      modifies this
      ensures Valid() && NoGrowth(old(mem), old(o), mem, o, t) && m == MidPage(mem, t, a)
      ensures !alloc ==> mem == old(mem) && o == old(o) && free == old(free) && head == old(head)
      ensures |free| + 1 >= |old(free)| && (alloc && m == 0 ==> |old(free)| == 0)
    {
      RootEntry(mem, o, t, a);
      var pte := mem[t][a];
      if V(pte) {
        return Ppn(pte);
      }
      if !alloc {
        return 0;
      }
      m := AddMid(t, a);
    }

    /** The next level: the lowest page under `b`, given its middle page. */
    method WalkLow(t: nat, b: nat, m: nat, alloc: bool) returns (l: nat)
      requires Valid() && t < |o| && o[t] == Root && b < NPTE * NPTE && m == MidPage(mem, t, b / NPTE) != 0
      modifies this
      ensures Valid() && NoGrowth(old(mem), old(o), mem, o, t) && l == LowPage(mem, t, b)
      ensures !alloc ==> mem == old(mem) && o == old(o) && free == old(free) && head == old(head)
      ensures |free| + 1 >= |old(free)| && (alloc && l == 0 ==> |old(free)| == 0)
    {
      LowEntry(mem, o, t, b, m);
      var pte := mem[m][b % NPTE];
      if V(pte) {
        return Ppn(pte);
      }
      if !alloc {
        return 0;
      }
      l := AddLow(t, b, m);
    }

    /** `walk`: the table page that holds the entry for `v`, or 0.  No
        translation changes, whether or not it succeeds. */
    method Walk(t: nat, v: nat, alloc: bool) returns (l: nat)
      requires Valid() && t < |o| && o[t] == Root && v < MAXVPN
      modifies this
      ensures Valid() && NoGrowth(old(mem), old(o), mem, o, t) && l == LowPage(mem, t, v / NPTE)
      ensures !alloc ==> mem == old(mem) && o == old(o) && free == old(free) && head == old(head)
      ensures |free| + 2 >= |old(free)| && (alloc && l == 0 ==> |old(free)| < 2)
    {
      var m := WalkMid(t, v / NPTE / NPTE, alloc);
      if m == 0 {
        return 0;
      }
      ghost var m1, o1 := mem, o;
      l := WalkLow(t, v / NPTE, m, alloc);
      NoGrowthTrans(old(mem), old(o), m1, o1, mem, o, t);
    }

    /** `walkaddr`: the page that user address page `v` is translated to, or 0. */
    method Walkaddr(t: nat, v: nat) returns (x: nat)
      requires Valid() && t < |o| && o[t] == Root
      modifies this
      ensures Valid() && mem == old(mem) && o == old(o) && free == old(free)
      ensures x == if v < MAXVPN && V(LeafPte(mem, t, v)) && LeafPte(mem, t, v) / 16 % 2 == 1
                   then Ppn(LeafPte(mem, t, v)) else 0
    {
      if v >= MAXVPN {
        return 0;
      }
      var l := Walk(t, v, false);
      if l == 0 {
        return 0;
      }
      PathOk(mem, o, t, v / NPTE);
      var pte := mem[l][v % NPTE];
      if !V(pte) || pte / 16 % 2 == 0 {
        return 0;
      }
      return Ppn(pte);
    }

    /** `uvmclear`: the user can no longer use page `v`. */
    method Uvmclear(t: nat, v: nat)
      requires Valid() && t < |o| && o[t] == Root && v < TRAPFRAME && LeafPte(mem, t, v) != 0
      modifies this
      ensures Valid() && o == old(o) && free == old(free) && Kept(old(mem), old(o), mem, o)
      ensures LeafChanged(old(mem), mem, old(o), t, v, ClearU(LeafPte(old(mem), t, v)))
    {
      PathOk(mem, o, t, v / NPTE);
      LeafPteOk(mem, o, t, v);
      ClearUFields(LeafPte(mem, t, v));
      ReflagLeaf(mem, o, t, v, ClearU(LeafPte(mem, t, v)));
      var l := Walk(t, v, false);
      ghost var m0 := mem;
      mem := mem[l := mem[l][v % NPTE := ClearU(mem[l][v % NPTE])]];
      KeepFree(m0, mem, head, o, o, free);
    }

    /** One turn of the loop of `mappages`: map page `x` at the unmapped `v`.
        If that fails no translation has changed. */
    method MapPage(t: nat, v: nat, x: nat, perm: nat) returns (ok: bool)
      requires Valid() && t < |o| && o[t] == Root && v < MAXVPN && LeafPte(mem, t, v) == 0
      requires PermOk(perm) && (Special(v) || (0 < x < |o| && o[x] == Loose))
      modifies this
      ensures Valid() && |o| == |old(o)| && Kept(old(mem), old(o), mem, o)
      ensures ok ==> Mapped(old(mem), old(o), mem, o, t, v, x, perm)
      ensures !ok ==> TablesGrew(old(o), o, t) && SameLeaves(old(mem), mem, old(o)) && |old(free)| < 2
      ensures |free| + 2 >= |old(free)|
    {
      var l := Walk(t, v, true);
      if l == 0 {
        return false;
      }
      ghost var m1, o1 := mem, o;
      assert LeafPte(mem, t, v) == 0;
      MapInv(old(mem), old(o), mem, head, o, free, t, v, x, perm);
      mem := mem[l := mem[l][v % NPTE := Pte(x, perm + PTE_V)]];
      if !Special(v) {
        o := o[x := Leaf(t, v)];
      }
      return true;
    }

    /** Clear the entry of `v`; the page `x` it named stays allocated. */
    method ClearPage(t: nat, v: nat) returns (x: nat)
      requires Valid() && t < |o| && o[t] == Root && v < MAXVPN && LeafPte(mem, t, v) != 0
      modifies this
      ensures Valid() && |o| == |old(o)| && x == Ppn(LeafPte(old(mem), t, v)) && free == old(free)
      ensures Unmapped(old(mem), old(o), mem, o, t, v, false) && Kept(old(mem), old(o), mem, o)
      ensures !Special(v) ==> 0 < x < |o| && old(o)[x] == Leaf(t, v)
    {
      UnmapInv(mem, head, o, free, t, v);
      var l := Walk(t, v, false);
      x := Ppn(mem[l][v % NPTE]);
      mem := mem[l := mem[l][v % NPTE := 0]];
      if !Special(v) {
        o := o[x := Loose];
      }
    }

    /** One turn of the loop of `uvmunmap`; clearing the entry commutes with the
        `kfree` that precedes it there. */
    method UnmapPage(t: nat, v: nat, doFree: bool)
      requires Valid() && t < |o| && o[t] == Root && v < MAXVPN && LeafPte(mem, t, v) != 0 && !(doFree && Special(v))
      modifies this
      ensures Valid() && |o| == |old(o)| && Unmapped(old(mem), old(o), mem, o, t, v, doFree)
      ensures Kept(old(mem), old(o), mem, o) && |free| == |old(free)| + if doFree then 1 else 0
    {
      var x := ClearPage(t, v);
      ghost var m1 := mem;
      if doFree {
        Kfree(x);
        UnmappedFree(old(mem), old(o), m1, mem, o, t, v, x);
      }
    }

    /** The `i`th turn of the loop of `mappages`. */
    method MapNext(t: nat, v: nat, i: nat, x: nat, perm: nat, ghost s0: Mem, ghost o0: seq<Owner>) returns (ok: bool)
      requires Valid() && RangeMapped(s0, o0, mem, o, t, v, i, x, perm)
      requires t < |o0| && o0[t] == Root && v + i < MAXVPN && PermOk(perm)
      requires LeafPte(s0, t, v + i) == 0 && forall j :: 0 <= j <= i ==> Mappable(o0, v, x, j)
      modifies this
      ensures Valid() && RangeMapped(s0, o0, mem, o, t, v, if ok then i + 1 else i, x, perm)
      ensures |free| + 2 >= |old(free)| && (!ok ==> |old(free)| < 2)
    {
      ghost var m1, o1 := mem, o;
      RangeNext(s0, o0, mem, o, t, v, i, x, perm);
      ok := MapPage(t, v + i, x + i, perm);
      if ok {
        RangeStep(s0, o0, m1, o1, mem, o, t, v, i, x, perm);
      } else {
        RangeStuck(s0, o0, m1, o1, mem, o, t, v, i, x, perm);
      }
    }

    /** Map `n` pages from `x` at `v`.  On failure the first `done` of them stay
        mapped. */
    method Mappages(t: nat, v: nat, n: nat, x: nat, perm: nat) returns (ok: bool, ghost done: nat)
      requires Valid() && t < |o| && o[t] == Root && 0 < n && v + n <= MAXVPN && PermOk(perm)
      requires forall z :: v <= z < v + n ==> LeafPte(mem, t, z) == 0
      requires forall j :: 0 <= j < n ==> Mappable(o, v, x, j)
      modifies this
      ensures Valid() && done <= n && (ok <==> done == n) && (!ok ==> |old(free)| < 2 * n)
      ensures RangeMapped(old(mem), old(o), mem, o, t, v, done, x, perm) && |free| + 2 * n >= |old(free)|
    {
      var i := 0;
      while i < n
        invariant 0 <= i <= n && Valid()
        invariant RangeMapped(old(mem), old(o), mem, o, t, v, i, x, perm) && |free| + 2 * i >= |old(free)|
      {
        ok := MapNext(t, v, i, x, perm, old(mem), old(o));
        if !ok {
          return false, i;
        }
        i := i + 1;
      }
      return true, n;
    }

    /** The `i`th turn of the loop of `uvmunmap`. */
    method UnmapNext(t: nat, v: nat, i: nat, doFree: bool, ghost s0: Mem, ghost o0: seq<Owner>)
      requires Valid() && TreesOk(s0, o0) && RangeCleared(s0, o0, mem, o, t, v, i, doFree)
      requires t < |o0| && o0[t] == Root && v + i < MAXVPN && LeafPte(s0, t, v + i) != 0 && !(doFree && Special(v + i))
      modifies this
      ensures Valid() && RangeCleared(s0, o0, mem, o, t, v, i + 1, doFree)
      ensures |free| == |old(free)| + if doFree then 1 else 0
    {
      ghost var m1, o1 := mem, o;
      assert o[t] == Root && LeafPte(mem, t, v + i) == LeafPte(s0, t, v + i);
      UnmapPage(t, v + i, doFree);
      ClearedStep(s0, o0, m1, o1, mem, o, t, v, i, doFree);
    }

    /** Remove `n` mappings from `v` on; free their pages if `doFree`.  The
        trampoline and the trapframe are never freed so. */
    method Uvmunmap(t: nat, v: nat, n: nat, doFree: bool)
      requires Valid() && t < |o| && o[t] == Root && v + n <= (if doFree then TRAPFRAME else MAXVPN)
      requires forall z :: v <= z < v + n ==> LeafPte(mem, t, z) != 0
      modifies this
      ensures Valid() && |o| == |old(o)| && RangeCleared(old(mem), old(o), mem, o, t, v, n, doFree)
      ensures |free| == |old(free)| + if doFree then n else 0
    {
      var i := 0;
      while i < n
        invariant 0 <= i <= n && Valid() && RangeCleared(old(mem), old(o), mem, o, t, v, i, doFree)
        invariant |free| == |old(free)| + if doFree then i else 0
      {
        UnmapNext(t, v, i, doFree, old(mem), old(o));
        i := i + 1;
      }
    }
  }
}
