/** Physical memory, the free page list and Sv39 page-table trees, as the words
    that kernel/vm.c and kernel/kalloc.c keep in memory.  An `Owner` label for
    every physical page states what the page is used for; that the labels fit
    the words is the invariant. */
module PageTable {
  const NPTE := 512
  const MAXVPN := 0x400_0000           // MAXVA / PGSIZE
  const TRAMPOLINE := MAXVPN - 1
  const TRAPFRAME := MAXVPN - 2
  const MAXPHYS := 0x8001              // 128 Mbyte of memory, and the null page

  const PTE_V := 1
  const PTE_R := 2
  const PTE_W := 4
  const PTE_X := 8
  const PTE_U := 16

  type Page = p: seq<nat> | |p| == NPTE witness seq(NPTE, _ => 0)

  function Fill(w: nat): Page { seq(NPTE, _ => w) }

  // ----- Page-table entries --------------------------------------------------------

  function Pte(x: nat, flags: nat): nat { x * 1024 + flags }
  function Ppn(w: nat): nat { w / 1024 }
  function Flags(w: nat): nat { w % 1024 }
  predicate V(w: nat) { w % 2 == 1 }
  predicate HasRWX(w: nat) { w / 2 % 8 != 0 }

  /** The table page that an entry of an upper level points to, or 0. */
  function Next(w: nat): nat { if V(w) then Ppn(w) else 0 }

  lemma Halves(a: nat, r: nat)
    ensures (2 * a + r) / 2 == a + r / 2 && (2 * a + r) % 2 == r % 2
  {
  }

  lemma Eighths(a: nat, b: nat)
    requires b < 8
    ensures (8 * a + b) % 8 == b
  {
  }

  lemma PteFields(x: nat, flags: nat)
    requires flags < 1024
    ensures Ppn(Pte(x, flags)) == x && Flags(Pte(x, flags)) == flags
    ensures V(Pte(x, flags)) == V(flags) && HasRWX(Pte(x, flags)) == HasRWX(flags)
  {
    Halves(512 * x, flags);
    Eighths(64 * x + flags / 16, flags / 2 % 8);
    Eighths(flags / 16, flags / 2 % 8);
  }

  // ----- Memory ----------------------------------------------------------------------

  /** `m[x]` is physical page `x`; page 0 stands for the null pointer. */
  type Mem = seq<Page>

  function Entry(s: Mem, x: nat, i: nat): nat {
    if x < |s| && i < NPTE then s[x][i] else 0
  }

  /** Walking the tree of `t`: the middle page under index `a`, the lowest page
      under index `b`, the entry for virtual page `v`. */
  function MidPage(s: Mem, t: nat, a: nat): nat { Next(Entry(s, t, a)) }

  function LowPage(s: Mem, t: nat, b: nat): nat {
    var m := MidPage(s, t, b / NPTE);
    if m == 0 then 0 else Next(Entry(s, m, b % NPTE))
  }

  function LeafPte(s: Mem, t: nat, v: nat): nat {
    var l := LowPage(s, t, v / NPTE);
    if l == 0 then 0 else Entry(s, l, v % NPTE)
  }

  // ----- Ownership --------------------------------------------------------------------

  datatype Owner =
    | Free                     // on the free list
    | Loose                    // allocated, not yet put to use
    | Kernel                   // used by the kernel for something else
    | Root                     // top page of a tree
    | Mid(t: nat, a: nat)
    | Low(t: nat, b: nat)
    | Leaf(t: nat, v: nat)     // user memory mapped at page v of tree t

  predicate IsTable(o: Owner) { o.Root? || o.Mid? || o.Low? }

  /** Mapped in every process, never freed with its tree. */
  predicate Special(v: nat) { v == TRAMPOLINE || v == TRAPFRAME }

  predicate UpperOk(o: seq<Owner>, w: nat, target: Owner) {
    w == 0 || (0 < Ppn(w) < |o| && w == Pte(Ppn(w), PTE_V) && o[Ppn(w)] == target)
  }

  predicate LeafOk(o: seq<Owner>, w: nat, t: nat, v: nat) {
    w == 0 || (V(w) && HasRWX(w) && (Special(v) || (0 < Ppn(w) < |o| && o[Ppn(w)] == Leaf(t, v))))
  }

  predicate PageOk(s: Mem, o: seq<Owner>, x: nat)
    requires x < |s| == |o|
  {
    match o[x]
    case Root => forall i :: 0 <= i < NPTE ==> UpperOk(o, s[x][i], Mid(x, i))
    case Mid(t, a) =>
      && t < |o| && o[t] == Root && a < NPTE && MidPage(s, t, a) == x
      && forall i :: 0 <= i < NPTE ==> UpperOk(o, s[x][i], Low(t, a * NPTE + i))
    case Low(t, b) =>
      && t < |o| && o[t] == Root && b < NPTE * NPTE && LowPage(s, t, b) == x
      && forall i :: 0 <= i < NPTE ==> LeafOk(o, s[x][i], t, b * NPTE + i)
    case Leaf(t, v) =>
      && t < |o| && o[t] == Root && v < MAXVPN && !Special(v)
      && LeafPte(s, t, v) != 0 && Ppn(LeafPte(s, t, v)) == x
    case _ => true
  }

  /** The free list threads through the first word of each free page. */
  predicate Chain(s: Mem, head: nat, free: seq<nat>)
    decreases |free|
  {
    if free == [] then head == 0
    else head == free[0] && 0 < head < |s| && Chain(s, s[head][0], free[1..])
  }

  predicate FreeOk(s: Mem, head: nat, o: seq<Owner>, free: seq<nat>)
    requires |s| == |o|
  {
    && Chain(s, head, free)
    && (forall i, j :: 0 <= i < j < |free| ==> free[i] != free[j])
    && (forall i :: 0 <= i < |free| ==> 0 < free[i] < |o| && o[free[i]] == Free)
    && (forall x :: 0 <= x < |o| && o[x] == Free ==> x in free)
  }

  predicate TreesOk(s: Mem, o: seq<Owner>) {
    && |s| == |o| && 0 < |o| <= MAXPHYS && o[0] == Kernel
    && forall x :: 0 <= x < |o| ==> PageOk(s, o, x)
  }

  predicate Inv(s: Mem, head: nat, o: seq<Owner>, free: seq<nat>) {
    TreesOk(s, o) && FreeOk(s, head, o, free)
  }

  /** What a walk meets on its way is labelled as such. */
  lemma PathOk(s: Mem, o: seq<Owner>, t: nat, b: nat)
    requires TreesOk(s, o) && t < |o| && o[t] == Root && b < NPTE * NPTE
    ensures var m := MidPage(s, t, b / NPTE); m != 0 ==> m < |o| && o[m] == Mid(t, b / NPTE)
    ensures var l := LowPage(s, t, b); l != 0 ==> l < |o| && o[l] == Low(t, b)
  {
    assert PageOk(s, o, t);
    assert UpperOk(o, s[t][b / NPTE], Mid(t, b / NPTE));
    var m := MidPage(s, t, b / NPTE);
    if m != 0 {
      assert PageOk(s, o, m);
      assert UpperOk(o, s[m][b % NPTE], Low(t, b / NPTE * NPTE + b % NPTE));
    }
  }

  ghost predicate SameLeaves(s: Mem, s': Mem, o: seq<Owner>) {
    forall t, v :: 0 <= t < |o| && o[t] == Root && 0 <= v < NPTE * NPTE * NPTE ==> LeafPte(s', t, v) == LeafPte(s, t, v)
  }

  /** Nothing in a tree depends on the contents of a page that is not a table. */
  lemma NonTableWrite(s: Mem, o: seq<Owner>, x: nat, p: Page)
    requires TreesOk(s, o) && x < |o| && !IsTable(o[x])
    ensures TreesOk(s[x := p], o) && SameLeaves(s, s[x := p], o)
  {
    var s' := s[x := p];
    forall t, b | 0 <= t < |o| && o[t] == Root && 0 <= b < NPTE * NPTE
      ensures LowPage(s', t, b) == LowPage(s, t, b) && MidPage(s', t, b / NPTE) == MidPage(s, t, b / NPTE)
    {
      PathOk(s, o, t, b);
    }
    forall t, v | 0 <= t < |o| && o[t] == Root && 0 <= v < NPTE * NPTE * NPTE
      ensures LeafPte(s', t, v) == LeafPte(s, t, v)
    {
      PathOk(s, o, t, v / NPTE);
      assert LowPage(s', t, v / NPTE) == LowPage(s, t, v / NPTE);
    }
    forall y | 0 <= y < |o| ensures PageOk(s', o, y) {
      assert PageOk(s, o, y);
      match o[y]
      case Mid(t, a) => assert MidPage(s', t, a) == MidPage(s, t, a);
      case Low(t, b) => assert LowPage(s', t, b) == LowPage(s, t, b);
      case _ =>
    }
  }

  // ----- The free list ---------------------------------------------------------------

  lemma {:induction false} ChainFrame(s: Mem, s': Mem, head: nat, free: seq<nat>)
    requires Chain(s, head, free) && |s'| == |s|
    requires forall i :: 0 <= i < |free| ==> free[i] < |s| && s'[free[i]] == s[free[i]]
    ensures Chain(s', head, free)
    decreases |free|
  {
    if free != [] {
      var x := free[0];
      forall i | 0 <= i < |free[1..]| ensures free[1..][i] < |s| && s'[free[1..][i]] == s[free[1..][i]] {
        assert free[1..][i] == free[i + 1];
      }
      ChainFrame(s, s', s[x][0], free[1..]);
    }
  }

  /** Page `y`, labelled `p`, is where an entry for a page labelled `q` belongs. */
  predicate Points(p: Owner, y: nat, q: Owner) {
    match p
    case Root => q.Mid? && q.t == y
    case Mid(t, a) => q.Low? && q.t == t && q.b / NPTE == a
    case Low(t, b) => q.Leaf? && q.t == t && q.v / NPTE == b
    case _ => false
  }

  /** Entries that do not point to `x` do not mind what becomes of it. */
  lemma EntryKept(o: seq<Owner>, x: nat, a: Owner, w: nat, target: Owner)
    requires x < |o| && o[x] != target
    ensures UpperOk(o, w, target) ==> UpperOk(o[x := a], w, target)
    ensures target.Leaf? && LeafOk(o, w, target.t, target.v) ==> LeafOk(o[x := a], w, target.t, target.v)
  {
  }

  /** A page that did not change keeps its label when the paths to it do and it
      does not point to the page `x` that gets a new one. */
  lemma PageKept(s: Mem, s': Mem, o: seq<Owner>, x: nat, a: Owner, y: nat)
    requires |s'| == |s| == |o| && x < |o| && y < |o| && y != x && s'[y] == s[y] && PageOk(s, o, y)
    requires !Points(o[y], y, o[x])
    requires o[x] == Root ==> (o[y].Mid? || o[y].Low? || o[y].Leaf? ==> o[y].t != x)
    requires o[y].Mid? ==> MidPage(s', o[y].t, o[y].a) == MidPage(s, o[y].t, o[y].a)
    requires o[y].Low? ==> LowPage(s', o[y].t, o[y].b) == LowPage(s, o[y].t, o[y].b)
    requires o[y].Leaf? ==> LeafPte(s', o[y].t, o[y].v) == LeafPte(s, o[y].t, o[y].v)
    ensures PageOk(s', o[x := a], y)
  {
    match o[y]
    case Root =>
      forall i | 0 <= i < NPTE ensures UpperOk(o[x := a], s'[y][i], Mid(y, i)) {
        EntryKept(o, x, a, s[y][i], Mid(y, i));
      }
    case Mid(t, b) =>
      forall i | 0 <= i < NPTE ensures UpperOk(o[x := a], s'[y][i], Low(t, b * NPTE + i)) {
        assert (b * NPTE + i) / NPTE == b;
        EntryKept(o, x, a, s[y][i], Low(t, b * NPTE + i));
      }
    case Low(t, b) =>
      forall i | 0 <= i < NPTE ensures LeafOk(o[x := a], s'[y][i], t, b * NPTE + i) {
        assert (b * NPTE + i) / NPTE == b;
        EntryKept(o, x, a, s[y][i], Leaf(t, b * NPTE + i));
      }
    case _ =>
  }

  /** A page in no tree may get any label that fits its contents. */
  lemma Relabel(s: Mem, o: seq<Owner>, x: nat, a: Owner)
    requires TreesOk(s, o) && 0 < x < |o|
    requires !IsTable(o[x]) && !o[x].Leaf? && PageOk(s, o[x := a], x)
    ensures TreesOk(s, o[x := a])
  {
    var o' := o[x := a];
    forall y | 0 <= y < |o| ensures PageOk(s, o', y) {
      assert PageOk(s, o, y);
      if y != x { PageKept(s, s, o, x, a, y); }
    }
  }

  /** `kalloc` takes the first page of the list and fills it with junk. */
  lemma AllocEffect(s: Mem, head: nat, o: seq<Owner>, free: seq<nat>, p: Page)
    requires Inv(s, head, o, free) && head != 0
    ensures free != [] && head == free[0] < |o| && o[head] == Free
    ensures Inv(s[head := p], s[head][0], o[head := Loose], free[1..])
    ensures SameLeaves(s, s[head := p], o)
  {
    var s', o' := s[head := p], o[head := Loose];
    NonTableWrite(s, o, head, p);
    Relabel(s', o, head, Loose);
    forall i | 0 <= i < |free[1..]| ensures free[1..][i] == free[i + 1] != head {}
    ChainFrame(s, s', s[head][0], free[1..]);
    forall y | 0 <= y < |o| && o'[y] == Free ensures y in free[1..] {
      assert y in free && y != head;
    }
  }

  /** `kfree` puts a page in front of the list. */
  lemma PushFree(s: Mem, head: nat, o: seq<Owner>, free: seq<nat>, x: nat)
    requires |s| == |o| && FreeOk(s, head, o, free) && 0 < x < |o| && o[x] == Loose && s[x][0] == head
    ensures FreeOk(s, x, o[x := Free], [x] + free)
  {
    assert ([x] + free)[1..] == free;
  }

  lemma FreeEffect(s: Mem, head: nat, o: seq<Owner>, free: seq<nat>, x: nat, p: Page)
    requires Inv(s, head, o, free) && 0 < x < |o| && o[x] == Loose && p[0] == head
    ensures Inv(s[x := p], x, o[x := Free], [x] + free) && SameLeaves(s, s[x := p], o)
  {
    var s', o' := s[x := p], o[x := Free];
    NonTableWrite(s, o, x, p);
    Relabel(s', o, x, Free);
    ChainFrame(s, s', head, free);
    PushFree(s', head, o, free, x);
  }

  // ----- Growing a tree -----------------------------------------------------------------

  /** A new, empty tree. */
  lemma NewRoot(s: Mem, o: seq<Owner>, x: nat)
    requires TreesOk(s, o) && 0 < x < |o| && o[x] == Loose && s[x] == Fill(0)
    ensures TreesOk(s, o[x := Root])
    ensures forall v :: 0 <= v ==> LeafPte(s, x, v) == 0
  {
    Relabel(s, o, x, Root);
    forall v | 0 <= v ensures LeafPte(s, x, v) == 0 {
      assert Entry(s, x, v / NPTE / NPTE) == 0;
    }
  }

  /** If every lowest page is where it was, and is as it was unless this says
      otherwise, so is every mapping. */
  lemma LowsSameLeaves(s: Mem, s': Mem, o: seq<Owner>)
    requires TreesOk(s, o) && |s'| == |s|
    requires forall u, b :: 0 <= u < |o| && o[u] == Root && 0 <= b < NPTE * NPTE ==>
              LowPage(s', u, b) == LowPage(s, u, b)
    requires forall y :: 0 <= y < |o| && o[y].Low? ==> s'[y] == s[y]
    ensures SameLeaves(s, s', o)
  {
    forall u, v | 0 <= u < |o| && o[u] == Root && 0 <= v < NPTE * NPTE * NPTE
      ensures LeafPte(s', u, v) == LeafPte(s, u, v)
    {
      PathOk(s, o, u, v / NPTE);
      assert LowPage(s', u, v / NPTE) == LowPage(s, u, v / NPTE);
    }
  }

  /** Hang the empty page `x` under entry `a` of the root. */
  lemma LinkMid(s: Mem, o: seq<Owner>, t: nat, a: nat, x: nat)
    requires TreesOk(s, o) && t < |o| && o[t] == Root && a < NPTE && s[t][a] == 0
    requires 0 < x < |o| && o[x] == Loose && s[x] == Fill(0)
    ensures var s' := s[t := s[t][a := Pte(x, PTE_V)]];
            TreesOk(s', o[x := Mid(t, a)]) && SameLeaves(s, s', o) && MidPage(s', t, a) == x
  {
    var s', o' := s[t := s[t][a := Pte(x, PTE_V)]], o[x := Mid(t, a)];
    PteFields(x, PTE_V);
    forall u, b | 0 <= u < |o| && o[u] == Root && 0 <= b < NPTE * NPTE ensures LowPage(s', u, b) == LowPage(s, u, b) {
      PathOk(s, o, u, b);
    }
    LowsSameLeaves(s, s', o);
    forall y | 0 <= y < |o| ensures PageOk(s', o', y) {
      assert PageOk(s, o, y);
      if y == t {
        forall i | 0 <= i < NPTE ensures UpperOk(o', s'[y][i], Mid(y, i)) { assert UpperOk(o, s[y][i], Mid(y, i)); }
      } else if y != x {
        PageKept(s, s', o, x, o'[x], y);
      }
    }
  }

  /** Only the lowest page under `b` changes when that entry of its middle page
      does. */
  lemma PutLowEffect(s: Mem, o: seq<Owner>, t: nat, b: nat, m: nat, w: nat)
    requires TreesOk(s, o) && t < |o| && o[t] == Root && b < NPTE * NPTE && m == MidPage(s, t, b / NPTE) != 0 && m < |s|
    ensures var s' := s[m := s[m][b % NPTE := w]];
            forall u, c :: 0 <= u < |o| && o[u] == Root && 0 <= c < NPTE * NPTE ==>
              LowPage(s', u, c) == if u == t && c == b then Next(w) else LowPage(s, u, c)
    ensures var s' := s[m := s[m][b % NPTE := w]];
            forall u, a :: 0 <= u < |o| && o[u] == Root && 0 <= a < NPTE ==> MidPage(s', u, a) == MidPage(s, u, a)
  {
    PathOk(s, o, t, b);
    var s' := s[m := s[m][b % NPTE := w]];
    forall u, c | 0 <= u < |o| && o[u] == Root && 0 <= c < NPTE * NPTE
      ensures LowPage(s', u, c) == if u == t && c == b then Next(w) else LowPage(s, u, c)
    {
      PathOk(s, o, u, c);
    }
  }

  predicate Empty(p: Page) { forall i :: 0 <= i < NPTE ==> p[i] == 0 }

  /** An empty lowest page, or none: the translations are the same. */
  lemma EmptyLowSame(s: Mem, s': Mem, o: seq<Owner>, t: nat, b: nat)
    requires TreesOk(s, o) && |s'| == |s| && t < |o| && o[t] == Root && b < NPTE * NPTE
    requires forall u, c :: 0 <= u < |o| && o[u] == Root && 0 <= c < NPTE * NPTE && !(u == t && c == b) ==>
              LowPage(s', u, c) == LowPage(s, u, c)
    requires LowPage(s, t, b) == 0 || (LowPage(s, t, b) < |s| && Empty(s[LowPage(s, t, b)]))
    requires LowPage(s', t, b) == 0 || (LowPage(s', t, b) < |s| && Empty(s'[LowPage(s', t, b)]))
    requires forall y :: 0 <= y < |o| && o[y].Low? ==> s'[y] == s[y]
    ensures SameLeaves(s, s', o)
  {
    forall u, v | 0 <= u < |o| && o[u] == Root && 0 <= v < NPTE * NPTE * NPTE
      ensures LeafPte(s', u, v) == LeafPte(s, u, v)
    {
      PathOk(s, o, u, v / NPTE);
      if !(u == t && v / NPTE == b) {
        assert LowPage(s', u, v / NPTE) == LowPage(s, u, v / NPTE);
      }
    }
  }

  lemma NewEntry(o: seq<Owner>, x: nat)
    requires 0 < x < |o|
    ensures UpperOk(o, Pte(x, PTE_V), o[x])
  {
    PteFields(x, PTE_V);
  }

  /** A middle page with the new page `x` as its entry `r`. */
  lemma LinkedMid(s: Mem, o: seq<Owner>, t: nat, a: nat, r: nat, b: nat, x: nat, m: nat)
    requires |s| == |o| && m < |o| && o[m] == Mid(t, a) && PageOk(s, o, m) && t != m && r < NPTE && b == a * NPTE + r
    requires 0 < x < |o| && o[x] == Loose
    ensures PageOk(s[m := s[m][r := Pte(x, PTE_V)]], o[x := Low(t, b)], m)
  {
    var s', o' := s[m := s[m][r := Pte(x, PTE_V)]], o[x := Low(t, b)];
    forall i | 0 <= i < NPTE ensures UpperOk(o', s'[m][i], Low(t, a * NPTE + i)) {
      if i == r {
        NewEntry(o', x);
      } else {
        EntryKept(o, x, Low(t, b), s[m][i], Low(t, a * NPTE + i));
      }
    }
  }

  /** Hang the empty page `x` under entry `b % NPTE` of a middle page. */
  lemma LinkLow(s: Mem, o: seq<Owner>, t: nat, b: nat, x: nat)
    requires TreesOk(s, o) && t < |o| && o[t] == Root && b < NPTE * NPTE
    requires MidPage(s, t, b / NPTE) != 0 && LowPage(s, t, b) == 0
    requires 0 < x < |o| && o[x] == Loose && s[x] == Fill(0)
    ensures var m := MidPage(s, t, b / NPTE);
            && m < |o|
            && var s' := s[m := s[m][b % NPTE := Pte(x, PTE_V)]];
            TreesOk(s', o[x := Low(t, b)]) && SameLeaves(s, s', o) && LowPage(s', t, b) == x
  {
    PathOk(s, o, t, b);
    var m := MidPage(s, t, b / NPTE);
    var s', o' := s[m := s[m][b % NPTE := Pte(x, PTE_V)]], o[x := Low(t, b)];
    PteFields(x, PTE_V);
    PutLowEffect(s, o, t, b, m, Pte(x, PTE_V));
    EmptyLowSame(s, s', o, t, b);
    forall y | 0 <= y < |o| ensures PageOk(s', o', y) {
      assert PageOk(s, o, y);
      if y == m {
        LinkedMid(s, o, t, b / NPTE, b % NPTE, b, x, m);
      } else if y != x {
        if o[y].Low? { PathOk(s, o, o[y].t, o[y].b); }
        PageKept(s, s', o, x, o'[x], y);
      }
    }
  }

  // ----- Changing a mapping ----------------------------------------------------------------

  /** `*pte = w` for the entry of virtual page `v`. */
  function PutLeaf(s: Mem, t: nat, v: nat, w: nat): Mem
    requires LowPage(s, t, v / NPTE) < |s|
  {
    var l := LowPage(s, t, v / NPTE);
    s[l := s[l][v % NPTE := w]]
  }

  ghost predicate LeafChanged(s: Mem, s': Mem, o: seq<Owner>, t: nat, v: nat, w: nat) {
    forall u, z :: 0 <= u < |o| && o[u] == Root && 0 <= z < NPTE * NPTE * NPTE ==>
      LeafPte(s', u, z) == if u == t && z == v then w else LeafPte(s, u, z)
  }

  /** Exactly one translation of one tree changes. */
  lemma PutLeafEffect(s: Mem, o: seq<Owner>, t: nat, v: nat, w: nat)
    requires TreesOk(s, o) && t < |o| && o[t] == Root && v < NPTE * NPTE * NPTE && LowPage(s, t, v / NPTE) != 0
    ensures LowPage(s, t, v / NPTE) < |s| && LeafChanged(s, PutLeaf(s, t, v, w), o, t, v, w)
    ensures forall u, b :: 0 <= u < |o| && o[u] == Root && 0 <= b < NPTE * NPTE ==>
              LowPage(PutLeaf(s, t, v, w), u, b) == LowPage(s, u, b)
    ensures forall u, a :: 0 <= u < |o| && o[u] == Root && 0 <= a < NPTE ==>
              MidPage(PutLeaf(s, t, v, w), u, a) == MidPage(s, u, a)
  {
    PathOk(s, o, t, v / NPTE);
    var s' := PutLeaf(s, t, v, w);
    forall u, b | 0 <= u < |o| && o[u] == Root && 0 <= b < NPTE * NPTE ensures LowPage(s', u, b) == LowPage(s, u, b) {
      PathOk(s, o, u, b);
    }
    forall u, z | 0 <= u < |o| && o[u] == Root && 0 <= z < NPTE * NPTE * NPTE
      ensures LeafPte(s', u, z) == if u == t && z == v then w else LeafPte(s, u, z)
    {
      PathOk(s, o, u, z / NPTE);
      assert LowPage(s', u, z / NPTE) == LowPage(s, u, z / NPTE);
    }
  }

  /** What the entry for `v` says fits the labels. */
  lemma LeafPteOk(s: Mem, o: seq<Owner>, t: nat, v: nat)
    requires TreesOk(s, o) && t < |o| && o[t] == Root && v < NPTE * NPTE * NPTE
    ensures LeafOk(o, LeafPte(s, t, v), t, v)
  {
    PathOk(s, o, t, v / NPTE);
    var l := LowPage(s, t, v / NPTE);
    if l != 0 {
      assert PageOk(s, o, l);
      assert LeafOk(o, s[l][v % NPTE], t, v / NPTE * NPTE + v % NPTE);
    }
  }

  lemma MappedLow(s: Mem, o: seq<Owner>, t: nat, v: nat, x: nat, flags: nat, l: nat)
    requires TreesOk(s, o) && t < |o| && o[t] == Root && v < MAXVPN && l == LowPage(s, t, v / NPTE) != 0
    requires flags < 1024 && V(flags) && HasRWX(flags) && (Special(v) || (0 < x < |o| && o[x] == Loose))
    ensures l < |o| && PageOk(PutLeaf(s, t, v, Pte(x, flags)), if Special(v) then o else o[x := Leaf(t, v)], l)
  {
    PathOk(s, o, t, v / NPTE);
    PutLeafEffect(s, o, t, v, Pte(x, flags));
    PteFields(x, flags);
    var s', o' := PutLeaf(s, t, v, Pte(x, flags)), if Special(v) then o else o[x := Leaf(t, v)];
    assert PageOk(s, o, l);
    forall i | 0 <= i < NPTE ensures LeafOk(o', s'[l][i], t, v / NPTE * NPTE + i) {
      assert LeafOk(o, s[l][i], t, v / NPTE * NPTE + i);
    }
  }

  lemma SamePage(s: Mem, s': Mem, o: seq<Owner>, y: nat)
    requires |s'| == |s| == |o| && y < |o| && s'[y] == s[y] && PageOk(s, o, y)
    requires o[y].Mid? ==> MidPage(s', o[y].t, o[y].a) == MidPage(s, o[y].t, o[y].a)
    requires o[y].Low? ==> LowPage(s', o[y].t, o[y].b) == LowPage(s, o[y].t, o[y].b)
    requires o[y].Leaf? ==> LeafPte(s', o[y].t, o[y].v) == LeafPte(s, o[y].t, o[y].v)
    ensures PageOk(s', o, y)
  {
  }

  /** Map the loose page `x` at `v` (or anything at the two special pages). */
  lemma MapLeaf(s: Mem, o: seq<Owner>, t: nat, v: nat, x: nat, flags: nat)
    requires TreesOk(s, o) && t < |o| && o[t] == Root && v < MAXVPN
    requires LowPage(s, t, v / NPTE) != 0 && LeafPte(s, t, v) == 0
    requires flags < 1024 && V(flags) && HasRWX(flags) && (Special(v) || (0 < x < |o| && o[x] == Loose))
    ensures LowPage(s, t, v / NPTE) < |s|
    ensures TreesOk(PutLeaf(s, t, v, Pte(x, flags)), if Special(v) then o else o[x := Leaf(t, v)])
    ensures LeafChanged(s, PutLeaf(s, t, v, Pte(x, flags)), o, t, v, Pte(x, flags))
  {
    var w := Pte(x, flags);
    PutLeafEffect(s, o, t, v, w);
    PathOk(s, o, t, v / NPTE);
    var l, s', o' := LowPage(s, t, v / NPTE), PutLeaf(s, t, v, w), if Special(v) then o else o[x := Leaf(t, v)];
    PteFields(x, flags);
    forall y | 0 <= y < |o| ensures PageOk(s', o', y) {
      assert PageOk(s, o, y);
      if y == l {
        MappedLow(s, o, t, v, x, flags, l);
      } else if Special(v) {
        SamePage(s, s', o, y);
      } else if y != x {
        PageKept(s, s', o, x, o'[x], y);
      }
    }
  }

  /** The lowest page of `v` without its entry for it. */
  lemma RowUnmapped(s: Mem, s': Mem, o: seq<Owner>, t: nat, v: nat, x: nat, l: nat)
    requires |s'| == |s| == |o| && x < |o| && l < |o| && o[l] == Low(t, v / NPTE) && PageOk(s, o, l) && v < MAXVPN
    requires o[x] == Leaf(t, v) && s'[l] == s[l][v % NPTE := 0] && LowPage(s', t, v / NPTE) == l
    ensures PageOk(s', o[x := Loose], l)
  {
    forall i | 0 <= i < NPTE ensures LeafOk(o[x := Loose], s'[l][i], t, v / NPTE * NPTE + i) {
      if i != v % NPTE {
        EntryKept(o, x, Loose, s[l][i], Leaf(t, v / NPTE * NPTE + i));
      }
    }
  }

  /** Remove the mapping of `v`; its page is loose again. */
  lemma UnmapLeaf(s: Mem, o: seq<Owner>, t: nat, v: nat)
    requires TreesOk(s, o) && t < |o| && o[t] == Root && v < MAXVPN && LeafPte(s, t, v) != 0
    ensures LowPage(s, t, v / NPTE) < |s|
    ensures var x, s' := Ppn(LeafPte(s, t, v)), PutLeaf(s, t, v, 0);
            && (Special(v) || (0 < x < |o| && o[x] == Leaf(t, v)))
            && TreesOk(s', if Special(v) then o else o[x := Loose])
            && LeafChanged(s, s', o, t, v, 0)
  {
    PutLeafEffect(s, o, t, v, 0);
    PathOk(s, o, t, v / NPTE);
    LeafPteOk(s, o, t, v);
    var x, l, s' := Ppn(LeafPte(s, t, v)), LowPage(s, t, v / NPTE), PutLeaf(s, t, v, 0);
    var o' := if Special(v) then o else o[x := Loose];
    forall y | 0 <= y < |o| ensures PageOk(s', o', y) {
      assert PageOk(s, o, y);
      if y == l && !Special(v) {
        RowUnmapped(s, s', o, t, v, x, y);
      } else if Special(v) {
        if y != l { SamePage(s, s', o, y); }
      } else if y != x {
        PageKept(s, s', o, x, Loose, y);
      }
    }
  }

  function ClearU(w: nat): nat { if w / 16 % 2 == 1 then w - PTE_U else w }

  lemma ClearUSplit(k: nat, f: nat)
    requires f < 1024
    ensures ClearU(Pte(k, f)) == Pte(k, ClearU(f)) && Pte(k, f) / 16 % 2 == f / 16 % 2
  {
    assert Pte(k, f) / 16 == 2 * (32 * k) + f / 16;
  }

  lemma SplitPte(w: nat)
    ensures w == Pte(Ppn(w), Flags(w)) && Flags(w) < 1024
  {
  }

  lemma BitFour(q: nat, r: nat)
    requires r < 16
    ensures (32 * q + 16 + r) / 2 % 8 == r / 2 == (32 * q + r) / 2 % 8
    ensures (32 * q + 16 + r) % 2 == (32 * q + r) % 2 && (32 * q + r) / 16 % 2 == 0
  {
    Halves(16 * q + 8, r);
    Halves(16 * q, r);
    Eighths(2 * q + 1, r / 2);
    Eighths(2 * q, r / 2);
    assert (32 * q + r) / 16 == 2 * q;
  }

  lemma FlagBits(f: nat)
    requires f < 1024
    ensures var g := ClearU(f); g < 1024 && V(g) == V(f) && HasRWX(g) == HasRWX(f) && g / 16 % 2 == 0
  {
    if f / 16 % 2 == 1 {
      var q, r := f / 32, f % 16;
      assert f == 32 * q + 16 + r;
      BitFour(q, r);
    }
  }

  lemma ClearUPte(k: nat, f: nat, w: nat)
    requires f < 1024 && w == Pte(k, f)
    ensures Ppn(ClearU(w)) == k && V(ClearU(w)) == V(w) && HasRWX(ClearU(w)) == HasRWX(w)
    ensures ClearU(w) / 16 % 2 == 0 && Flags(ClearU(w)) == ClearU(f)
  {
    var g := ClearU(f);
    ClearUSplit(k, f);
    FlagBits(f);
    PteFields(k, f);
    PteFields(k, g);
    ClearUSplit(k, g);
  }

  lemma ClearUFields(w: nat)
    ensures Ppn(ClearU(w)) == Ppn(w) && V(ClearU(w)) == V(w) && HasRWX(ClearU(w)) == HasRWX(w)
    ensures ClearU(w) / 16 % 2 == 0 && Flags(ClearU(w)) == ClearU(Flags(w))
  {
    SplitPte(w);
    ClearUPte(Ppn(w), Flags(w), w);
  }

  /** Changing the flags of a mapping, but not its page. */
  lemma ReflagLeaf(s: Mem, o: seq<Owner>, t: nat, v: nat, w: nat)
    requires TreesOk(s, o) && t < |o| && o[t] == Root && v < MAXVPN && LeafPte(s, t, v) != 0
    requires Ppn(w) == Ppn(LeafPte(s, t, v)) && V(w) && HasRWX(w)
    ensures LowPage(s, t, v / NPTE) < |s|
    ensures TreesOk(PutLeaf(s, t, v, w), o) && LeafChanged(s, PutLeaf(s, t, v, w), o, t, v, w)
  {
    PutLeafEffect(s, o, t, v, w);
    PathOk(s, o, t, v / NPTE);
    var l, s' := LowPage(s, t, v / NPTE), PutLeaf(s, t, v, w);
    forall y | 0 <= y < |o| ensures PageOk(s', o, y) {
      assert PageOk(s, o, y);
      if y == l {
        forall i | 0 <= i < NPTE ensures LeafOk(o, s'[y][i], t, v / NPTE * NPTE + i) {
          assert LeafOk(o, s[y][i], t, v / NPTE * NPTE + i);
        }
      } else if o[y].Leaf? {
        assert LeafPte(s', o[y].t, o[y].v) == if o[y].t == t && o[y].v == v then w else LeafPte(s, o[y].t, o[y].v);
      } else {
        SamePage(s, s', o, y);
      }
    }
  }

  // ----- Taking a tree apart -----------------------------------------------------------------

  /** Cut off an empty lowest page. */
  lemma UnlinkLow(s: Mem, o: seq<Owner>, t: nat, b: nat)
    requires TreesOk(s, o) && t < |o| && o[t] == Root && b < NPTE * NPTE
    requires LowPage(s, t, b) != 0 && LowPage(s, t, b) < |s| && Empty(s[LowPage(s, t, b)])
    ensures var x, m := LowPage(s, t, b), MidPage(s, t, b / NPTE);
            && 0 < x < |o| && o[x] == Low(t, b) && m < |o| && o[m] == Mid(t, b / NPTE)
            && var s' := s[m := s[m][b % NPTE := 0]];
            TreesOk(s', o[x := Loose]) && SameLeaves(s, s', o)
  {
    PathOk(s, o, t, b);
    var x, m := LowPage(s, t, b), MidPage(s, t, b / NPTE);
    var s', o' := s[m := s[m][b % NPTE := 0]], o[x := Loose];
    PutLowEffect(s, o, t, b, m, 0);
    EmptyLowSame(s, s', o, t, b);
    forall y | 0 <= y < |o| ensures PageOk(s', o', y) {
      assert PageOk(s, o, y);
      if y == m {
        forall i | 0 <= i < NPTE ensures UpperOk(o', s'[y][i], Low(t, b / NPTE * NPTE + i)) {
          assert UpperOk(o, s[y][i], Low(t, b / NPTE * NPTE + i));
        }
      } else if y != x {
        if o[y].Low? { PathOk(s, o, o[y].t, o[y].b); }
        PageKept(s, s', o, x, Loose, y);
      }
    }
  }

  /** Cut off an empty middle page. */
  lemma UnlinkMid(s: Mem, o: seq<Owner>, t: nat, a: nat)
    requires TreesOk(s, o) && t < |o| && o[t] == Root && a < NPTE
    requires MidPage(s, t, a) != 0 && MidPage(s, t, a) < |s| && Empty(s[MidPage(s, t, a)])
    ensures var x := MidPage(s, t, a);
            && 0 < x < |o| && o[x] == Mid(t, a)
            && var s' := s[t := s[t][a := 0]];
            TreesOk(s', o[x := Loose]) && SameLeaves(s, s', o)
  {
    PathOk(s, o, t, a * NPTE);
    var x := MidPage(s, t, a);
    var s', o' := s[t := s[t][a := 0]], o[x := Loose];
    forall u, c | 0 <= u < |o| && o[u] == Root && 0 <= c < NPTE * NPTE ensures LowPage(s', u, c) == LowPage(s, u, c) {
      PathOk(s, o, u, c);
    }
    LowsSameLeaves(s, s', o);
    forall y | 0 <= y < |o| ensures PageOk(s', o', y) {
      assert PageOk(s, o, y);
      if y == t {
        forall i | 0 <= i < NPTE ensures UpperOk(o', s'[y][i], Mid(y, i)) { assert UpperOk(o, s[y][i], Mid(y, i)); }
      } else if y != x {
        PageKept(s, s', o, x, Loose, y);
      }
    }
  }

  /** An empty root belongs to no tree any more. */
  lemma DropRoot(s: Mem, o: seq<Owner>, t: nat)
    requires TreesOk(s, o) && 0 < t < |o| && o[t] == Root && Empty(s[t])
    ensures TreesOk(s, o[t := Loose])
  {
    var o' := o[t := Loose];
    forall y | 0 <= y < |o| ensures PageOk(s, o', y) {
      assert PageOk(s, o, y);
      if y != t { PageKept(s, s, o, t, Loose, y); }
    }
  }
}
