/** `copyout`, `copyin` and `copyinstr` of kernel/vm.c: bytes between the kernel and
    the memory of a process, page by page through its page table. */
module UserCopy {
  import opened BlockFormat
  import opened PageTable
  import opened Vm
  import opened PageBytes
  import opened AddressSpace

  /** The user may read page `v` of tree `t`, or write it if `w`. */
  predicate Allowed(s: Mem, t: nat, v: nat, w: bool) {
    v < MAXVPN && var pte := LeafPte(s, t, v); V(pte) && pte / 16 % 2 == 1 && (w ==> pte / 4 % 2 == 1)
  }

  predicate AllowedAt(s: Mem, t: nat, a: nat, w: bool) { Allowed(s, t, a / PGSIZE, w) }

  /** The trampoline and the trapframe are not for the user. */
  predicate KernelOnly(s: Mem, t: nat) { !Allowed(s, t, TRAMPOLINE, false) && !Allowed(s, t, TRAPFRAME, false) }

  lemma SpaceKernelOnly(s: Mem, o: seq<Owner>, t: nat, sz: nat, tf: nat)
    requires HasSpace(s, o, t, sz, tf)
    ensures KernelOnly(s, t)
  {
    var w := LeafPte(s, t, TRAMPOLINE);
    SplitPte(w);
    ClearUSplit(Ppn(w), Flags(w));
    ClearUSplit(tf, PTE_R + PTE_W + PTE_V);
  }

  /** The byte at user address `a`. */
  function UserByte(s: Mem, t: nat, a: nat): byte {
    var x := Ppn(LeafPte(s, t, a / PGSIZE));
    if x < |s| then PageByte(s[x], a % PGSIZE) else 0
  }

  function UserBytes(s: Mem, t: nat, a: nat, n: nat): seq<byte> { seq<byte>(n, (i: nat) => UserByte(s, t, a + i)) }

  /** How much of `n` bytes at `a` is on one page. */
  function Chunk(a: nat, n: nat): (m: nat)
    ensures m <= n && (n > 0 ==> 0 < m) && a % PGSIZE + m <= PGSIZE
  {
    if n < PGSIZE - a % PGSIZE then n else PGSIZE - a % PGSIZE
  }

  lemma SamePage(a: nat, n: nat, i: nat)
    requires i < Chunk(a, n)
    ensures (a + i) / PGSIZE == a / PGSIZE && (a + i) % PGSIZE == a % PGSIZE + i
  {
  }

  /** The addresses that the user may read, or write if `w`. */
  function Rights(s: Mem, t: nat, w: bool): nat -> bool { (a: nat) => AllowedAt(s, t, a, w) }

  /** The length of the longest prefix of the `n` addresses from `a` on that are all
      `ok`. */
  function Reach(ok: nat -> bool, a: nat, n: nat): (r: nat)
    ensures r <= n && (forall b :: a <= b < a + r ==> ok(b)) && (r < n ==> !ok(a + r))
    decreases n
  {
    if n == 0 || !ok(a) then 0 else 1 + Reach(ok, a + 1, n - 1)
  }

  lemma {:induction false} ReachSkip(ok: nat -> bool, a: nat, n: nat, m: nat)
    requires m <= n && forall b :: a <= b < a + m ==> ok(b)
    ensures Reach(ok, a, n) == m + Reach(ok, a + m, n - m)
    decreases m
  {
    if m > 0 { ReachSkip(ok, a + 1, n - 1, m - 1); }
  }

  /** A page is all for the user or not at all. */
  lemma ChunkReach(s: Mem, t: nat, w: bool, a: nat, n: nat, m: nat)
    requires 0 < n && m == Chunk(a, n)
    ensures Reach(Rights(s, t, w), a, n)
            == if AllowedAt(s, t, a, w) then m + Reach(Rights(s, t, w), a + m, n - m) else 0
  {
    var ok := Rights(s, t, w);
    if AllowedAt(s, t, a, w) {
      forall b | a <= b < a + m ensures ok(b) { SamePage(a, n, b - a); }
      ReachSkip(ok, a, n, m);
    }
  }

  // ----- Writing -------------------------------------------------------------------------

  /** Page `y` is where the tree has some of the `n` bytes at `a`. */
  predicate Touched(p: Owner, t: nat, a: nat, n: nat) {
    p.Leaf? && p.t == t && n > 0 && a / PGSIZE <= p.v <= (a + n - 1) / PGSIZE
  }

  /** Between `s0` and `s` the bytes `d` were put at user address `a`, and nothing
      else changed. */
  ghost predicate Copied(s0: Mem, o: seq<Owner>, s: Mem, t: nat, a: nat, d: seq<byte>) {
    && |s| == |s0| == |o| && SameLeaves(s0, s, o)
    && (forall b: nat :: AllowedAt(s0, t, b, false) ==>
          UserByte(s, t, b) == if a <= b < a + |d| then d[b - a] else UserByte(s0, t, b))
    && (forall y :: 0 <= y < |o| && !Touched(o[y], t, a, |d|) ==> s[y] == s0[y])
  }

  /** A user page belongs to its address. */
  lemma UserPage(s: Mem, o: seq<Owner>, t: nat, v: nat)
    requires TreesOk(s, o) && t < |o| && o[t] == Root && KernelOnly(s, t) && Allowed(s, t, v, false)
    ensures var x := Ppn(LeafPte(s, t, v)); 0 < x < |o| && o[x] == Leaf(t, v)
  {
    LeafPteOk(s, o, t, v);
  }

  lemma NothingCopied(s: Mem, o: seq<Owner>, t: nat, a: nat)
    requires |s| == |o|
    ensures Copied(s, o, s, t, a, [])
  {
  }

  /** One byte of the user, after a write of `e` into page `v`. */
  lemma ByteAfter(s: Mem, o: seq<Owner>, s': Mem, t: nat, v: nat, at: nat, e: seq<byte>, b: nat)
    requires TreesOk(s, o) && t < |o| && o[t] == Root && KernelOnly(s, t) && Allowed(s, t, v, false)
    requires at + |e| <= PGSIZE && Allowed(s, t, b / PGSIZE, false) && Ppn(LeafPte(s, t, v)) < |s|
    requires var x := Ppn(LeafPte(s, t, v)); s' == s[x := PutBytes(s[x], at, e, |e|)]
    requires LeafPte(s', t, b / PGSIZE) == LeafPte(s, t, b / PGSIZE)
    ensures UserByte(s', t, b)
            == if b / PGSIZE == v && at <= b % PGSIZE < at + |e| then e[b % PGSIZE - at] else UserByte(s, t, b)
  {
    var x := Ppn(LeafPte(s, t, v));
    UserPage(s, o, t, v);
    UserPage(s, o, t, b / PGSIZE);
    if b / PGSIZE == v { BytesPut(s[x], at, e, |e|, b % PGSIZE); }
  }

  /** Where the bytes of a chunk lie. */
  lemma InChunk(a: nat, n: nat, b: nat)
    requires a % PGSIZE + n <= PGSIZE
    ensures b / PGSIZE == a / PGSIZE && a % PGSIZE <= b % PGSIZE < a % PGSIZE + n <==> a <= b < a + n
    ensures a <= b < a + n ==> b % PGSIZE - a % PGSIZE == b - a
  {
  }

  lemma StillTouched(p: Owner, t: nat, a: nat, n: nat, m: nat)
    requires n <= m
    ensures Touched(p, t, a, n) ==> Touched(p, t, a, m)
  {
    assert n > 0 ==> (a + n - 1) / PGSIZE <= (a + m - 1) / PGSIZE;
  }

  lemma TouchedLast(t: nat, a: nat, n: nat, m: nat)
    requires 0 < m && (a + n) % PGSIZE + m <= PGSIZE
    ensures Touched(Leaf(t, (a + n) / PGSIZE), t, a, n + m)
  {
    InChunk(a + n, m, a + n + m - 1);
    assert a / PGSIZE <= (a + n) / PGSIZE;
  }

  lemma TwoParts(a: nat, d: seq<byte>, e: seq<byte>, b: nat)
    ensures a <= b < a + |d| ==> (d + e)[b - a] == d[b - a]
    ensures a + |d| <= b < a + |d + e| ==> (d + e)[b - a] == e[b - a - |d|]
  {
  }

  lemma SameRights(s: Mem, s': Mem, o: seq<Owner>, t: nat, v: nat)
    requires SameLeaves(s, s', o) && t < |o| && o[t] == Root
    ensures v < MAXVPN ==> LeafPte(s', t, v) == LeafPte(s, t, v)
    ensures forall w :: Allowed(s', t, v, w) == Allowed(s, t, v, w)
  {
  }

  lemma ByteMore(s0: Mem, o: seq<Owner>, s: Mem, s': Mem, t: nat, a: nat, d: seq<byte>, e: seq<byte>, at: nat, v: nat,
                 b: nat)
    requires TreesOk(s, o) && t < |o| && o[t] == Root && KernelOnly(s, t) && SameLeaves(s, s', o)
    requires at == a + |d| && v == at / PGSIZE && at % PGSIZE + |e| <= PGSIZE
    requires Allowed(s, t, v, false) && Ppn(LeafPte(s, t, v)) < |s| && AllowedAt(s, t, b, false)
    requires UserByte(s, t, b) == if a <= b < a + |d| then d[b - a] else UserByte(s0, t, b)
    requires var x := Ppn(LeafPte(s, t, v)); s' == s[x := PutBytes(s[x], at % PGSIZE, e, |e|)]
    ensures UserByte(s', t, b) == if a <= b < a + |d + e| then (d + e)[b - a] else UserByte(s0, t, b)
  {
    SameRights(s, s', o, t, b / PGSIZE);
    ByteAfter(s, o, s', t, v, at % PGSIZE, e, b);
    InChunk(at, |e|, b);
    TwoParts(a, d, e, b);
  }

  /** A user page gets other contents. */
  lemma PageSet(s: Mem, head: nat, o: seq<Owner>, free: seq<nat>, t: nat, v: nat, p: Page)
    requires Inv(s, head, o, free) && t < |o| && o[t] == Root && KernelOnly(s, t) && Allowed(s, t, v, false)
    ensures var x := Ppn(LeafPte(s, t, v));
            && 0 < x < |o| && o[x] == Leaf(t, v)
            && Inv(s[x := p], head, o, free) && SameLeaves(s, s[x := p], o)
  {
    UserPage(s, o, t, v);
    var x := Ppn(LeafPte(s, t, v));
    NonTableWrite(s, o, x, p);
    KeepFree(s, s[x := p], head, o, o, free);
  }

  /** One more chunk, `e`, behind the bytes `d` that were copied to `a`. */
  lemma CopiedMore(s0: Mem, o: seq<Owner>, s: Mem, s': Mem, t: nat, a: nat, d: seq<byte>, e: seq<byte>, at: nat, v: nat,
                   x: nat)
    requires TreesOk(s, o) && t < |o| && o[t] == Root && KernelOnly(s, t) && Allowed(s, t, v, false)
    requires Copied(s0, o, s, t, a, d) && at == a + |d| && v == at / PGSIZE && at % PGSIZE + |e| <= PGSIZE && e != []
    requires x == Ppn(LeafPte(s, t, v)) < |s| && o[x] == Leaf(t, v) && SameLeaves(s, s', o)
    requires s' == s[x := PutBytes(s[x], at % PGSIZE, e, |e|)]
    ensures Copied(s0, o, s', t, a, d + e)
  {
    var all := d + e;
    SameLeavesTrans(s0, s, s', o, o);
    forall b: nat | AllowedAt(s0, t, b, false)
      ensures UserByte(s', t, b) == if a <= b < a + |all| then all[b - a] else UserByte(s0, t, b)
    {
      SameRights(s0, s, o, t, b / PGSIZE);
      ByteMore(s0, o, s, s', t, a, d, e, at, v, b);
    }
    TouchedLast(t, a, |d|, |e|);
    forall y | 0 <= y < |o| && !Touched(o[y], t, a, |all|) ensures s'[y] == s0[y] {
      StillTouched(o[y], t, a, |d|, |all|);
    }
  }

  /** The page of `v` if the user may use it, otherwise 0. */
  method FindPage(vm: Vm, t: nat, v: nat, w: bool) returns (pa: nat)
    requires vm.Valid() && t < |vm.o| && vm.o[t] == Root && KernelOnly(vm.mem, t)
    modifies vm
    ensures vm.Valid() && vm.mem == old(vm.mem) && vm.o == old(vm.o) && vm.free == old(vm.free)
    ensures pa != 0 <==> Allowed(vm.mem, t, v, w)
    ensures pa != 0 ==> pa == Ppn(LeafPte(vm.mem, t, v)) < |vm.mem|
  {
    if v >= MAXVPN {
      return 0;
    }
    var l := vm.Walk(t, v, false);
    if l == 0 {
      return 0;
    }
    PathOk(vm.mem, vm.o, t, v / NPTE);
    var pte := vm.mem[l][v % NPTE];
    if !V(pte) || pte / 16 % 2 == 0 || (w && pte / 4 % 2 == 0) {
      return 0;
    }
    UserPage(vm.mem, vm.o, t, v);
    return Ppn(pte);
  }

  /** Of a copy of `n` bytes at `a`, `done` are done, and it goes on from there. */
  predicate Halfway(ok: nat -> bool, a: nat, n: nat, done: nat) {
    done <= n && done + Reach(ok, a + done, n - done) == Reach(ok, a, n)
  }

  lemma NextTurn(s: Mem, t: nat, w: bool, a: nat, n: nat, done: nat, at: nat, v: nat, next: nat)
    requires Halfway(Rights(s, t, w), a, n, done) && done < n && at == a + done && v == at / PGSIZE
    requires next == done + Chunk(at, n - done)
    ensures done < next <= n && at % PGSIZE + (next - done) <= PGSIZE
    ensures if Allowed(s, t, v, w) then Halfway(Rights(s, t, w), a, n, next)
            else Reach(Rights(s, t, w), a, n) == done
  {
    ChunkReach(s, t, w, at, n - done, next - done);
  }

  /** Where a copy of `src` to `a` has come. */
  ghost predicate Copying(s0: Mem, o: seq<Owner>, s: Mem, t: nat, a: nat, src: seq<byte>, done: nat) {
    Halfway(Rights(s0, t, true), a, |src|, done) && Copied(s0, o, s, t, a, src[..done])
  }

  /** `memmove` into a page that the user may write. */
  method PutChunk(vm: Vm, t: nat, v: nat, pa: nat, e: seq<byte>, at: nat, ghost a: nat, ghost d: seq<byte>,
                  ghost all: seq<byte>, ghost s0: Mem)
    requires vm.Valid() && t < |vm.o| && vm.o[t] == Root && KernelOnly(vm.mem, t) && Allowed(vm.mem, t, v, true)
    requires Copied(s0, vm.o, vm.mem, t, a, d) && at == a + |d| && v == at / PGSIZE && all == d + e
    requires at % PGSIZE + |e| <= PGSIZE && e != [] && pa == Ppn(LeafPte(vm.mem, t, v)) < |vm.mem|
    modifies vm
    ensures vm.Valid() && vm.o == old(vm.o) && vm.free == old(vm.free) && Copied(s0, vm.o, vm.mem, t, a, all)
  {
    ghost var s := vm.mem;
    var p := PutBytes(vm.mem[pa], at % PGSIZE, e, |e|);
    PageSet(vm.mem, vm.head, vm.o, vm.free, t, v, p);
    vm.mem := vm.mem[pa := p];
    CopiedMore(s0, vm.o, s, vm.mem, t, a, d, e, at, v, pa);
  }

  lemma SlicesJoin(d: seq<byte>, i: nat, j: nat)
    requires i <= j <= |d|
    ensures d[..j] == d[..i] + d[i..j]
  {
  }

  lemma RightsKept(s0: Mem, s: Mem, o: seq<Owner>, t: nat, v: nat)
    requires SameLeaves(s0, s, o) && t < |o| && o[t] == Root
    ensures KernelOnly(s, t) == KernelOnly(s0, t) && forall w :: Allowed(s, t, v, w) == Allowed(s0, t, v, w)
  {
    SameRights(s0, s, o, t, v);
    SameRights(s0, s, o, t, TRAMPOLINE);
    SameRights(s0, s, o, t, TRAPFRAME);
  }

  /** One turn of the loop of `copyout`; `next` is `done` when the page is not
      there for the user to write. */
  method CopyoutTurn(vm: Vm, t: nat, a: nat, src: seq<byte>, done: nat, ghost s0: Mem) returns (next: nat)
    requires vm.Valid() && t < |vm.o| && vm.o[t] == Root && KernelOnly(s0, t) && done < |src|
    requires Copying(s0, vm.o, vm.mem, t, a, src, done)
    modifies vm
    ensures vm.Valid() && vm.o == old(vm.o) && vm.free == old(vm.free)
    ensures Copying(s0, vm.o, vm.mem, t, a, src, next) && done <= next
    ensures next == done ==> Reach(Rights(s0, t, true), a, |src|) == done
  {
    var at := a + done;
    var v := at / PGSIZE;
    next := done + Chunk(at, |src| - done);
    NextTurn(s0, t, true, a, |src|, done, at, v, next);
    RightsKept(s0, vm.mem, vm.o, t, v);
    var pa := FindPage(vm, t, v, true);
    if pa == 0 {
      return done;
    }
    SlicesJoin(src, done, next);
    PutChunk(vm, t, v, pa, src[done..next], at, a, src[..done], src[..next], s0);
  }

  /** `copyout`: exactly the longest prefix on pages the user may write arrives, and
      nothing else changes; -1 unless that is all. */
  method Copyout(vm: Vm, t: nat, a: nat, src: seq<byte>) returns (r: int)
    requires vm.Valid() && t < |vm.o| && vm.o[t] == Root && KernelOnly(vm.mem, t)
    modifies vm
    ensures vm.Valid() && vm.o == old(vm.o) && vm.free == old(vm.free)
    ensures var k := Reach(Rights(old(vm.mem), t, true), a, |src|);
            Copied(old(vm.mem), vm.o, vm.mem, t, a, src[..k]) && r == if k == |src| then 0 else -1
  {
    ghost var s0 := vm.mem;
    NothingCopied(s0, vm.o, t, a);
    assert src[..0] == [];
    var done := 0;
    while done < |src|
      invariant 0 <= done && vm.Valid() && vm.o == old(vm.o) && vm.free == old(vm.free)
      invariant Copying(s0, vm.o, vm.mem, t, a, src, done)
      decreases |src| - done
    {
      var next := CopyoutTurn(vm, t, a, src, done, s0);
      if next == done {
        return -1;
      }
      done := next;
    }
    return 0;
  }

  // ----- Reading ---------------------------------------------------------------------------

  /** `n` bytes of a page from byte `at` on. */
  function PageSlice(p: Page, at: nat, n: nat): (r: seq<byte>)
    requires at + n <= PGSIZE
    ensures |r| == n
  {
    seq<byte>(n, i requires 0 <= i < n => PageByte(p, at + i))
  }

  lemma SliceRead(s: Mem, t: nat, v: nat, a: nat, d: seq<byte>, at: nat, off: nat, pa: nat, e: seq<byte>, n: nat)
    requires at == a + |d| && v == at / PGSIZE && off == at % PGSIZE && off + |e| <= PGSIZE
    requires pa == Ppn(LeafPte(s, t, v)) < |s| && e == PageSlice(s[pa], off, |e|)
    requires d == UserBytes(s, t, a, |d|) && n == |d| + |e|
    ensures d + e == UserBytes(s, t, a, n)
  {
    forall i | 0 <= i < |e| ensures e[i] == UserByte(s, t, a + (|d| + i)) { SamePage(at, |e|, i); }
  }

  /** One turn of the loop of `copyin`. */
  method CopyinTurn(vm: Vm, t: nat, a: nat, n: nat, dst: seq<byte>) returns (ok: bool, dst': seq<byte>)
    requires vm.Valid() && t < |vm.o| && vm.o[t] == Root && KernelOnly(vm.mem, t) && |dst| < n
    requires Halfway(Rights(vm.mem, t, false), a, n, |dst|) && dst == UserBytes(vm.mem, t, a, |dst|)
    modifies vm
    ensures vm.Valid() && vm.mem == old(vm.mem) && vm.o == old(vm.o) && vm.free == old(vm.free)
    ensures Halfway(Rights(vm.mem, t, false), a, n, |dst'|) && dst' == UserBytes(vm.mem, t, a, |dst'|)
    ensures if ok then |dst| < |dst'| else dst' == dst && Reach(Rights(vm.mem, t, false), a, n) == |dst|
  {
    var at := a + |dst|;
    var v := at / PGSIZE;
    var next := |dst| + Chunk(at, n - |dst|);
    NextTurn(vm.mem, t, false, a, n, |dst|, at, v, next);
    var pa := FindPage(vm, t, v, false);
    if pa == 0 {
      return false, dst;
    }
    var off := at % PGSIZE;
    var e := PageSlice(vm.mem[pa], off, next - |dst|);
    SliceRead(vm.mem, t, v, a, dst, at, off, pa, e, next);
    return true, dst + e;
  }

  /** `copyin`: the bytes of the longest prefix on pages the user may read; -1
      unless that is all. */
  method Copyin(vm: Vm, t: nat, a: nat, n: nat) returns (r: int, dst: seq<byte>)
    requires vm.Valid() && t < |vm.o| && vm.o[t] == Root && KernelOnly(vm.mem, t)
    modifies vm
    ensures vm.Valid() && vm.mem == old(vm.mem) && vm.o == old(vm.o) && vm.free == old(vm.free)
    ensures var k := Reach(Rights(vm.mem, t, false), a, n);
            dst == UserBytes(vm.mem, t, a, k) && r == if k == n then 0 else -1
  {
    dst := [];
    while |dst| < n
      invariant vm.Valid() && vm.mem == old(vm.mem) && vm.o == old(vm.o) && vm.free == old(vm.free)
      invariant Halfway(Rights(vm.mem, t, false), a, n, |dst|) && dst == UserBytes(vm.mem, t, a, |dst|)
      decreases n - |dst|
    {
      var ok;
      ok, dst := CopyinTurn(vm, t, a, n, dst);
      if !ok {
        return -1, dst;
      }
    }
    return 0, dst;
  }

  /** The inner loop of `copyinstr`: the bytes before the first NUL. */
  method ScanChunk(p: Page, at: nat, n: nat) returns (gotNull: bool, e: seq<byte>)
    requires at + n <= PGSIZE
    ensures |e| <= n && e == PageSlice(p, at, |e|) && 0 !in e
    ensures if gotNull then |e| < n && PageByte(p, at + |e|) == 0 else |e| == n
  {
    e := [];
    while |e| < n
      invariant |e| <= n && e == PageSlice(p, at, |e|) && 0 !in e
      decreases n - |e|
    {
      var b := PageByte(p, at + |e|);
      if b == 0 {
        return true, e;
      }
      e := e + [b];
    }
    return false, e;
  }

  /** The `d` bytes at `a` are those, and no NUL is among them. */
  predicate Text(s: Mem, t: nat, a: nat, d: seq<byte>) { d == UserBytes(s, t, a, |d|) && 0 !in d }

  lemma TextMore(s: Mem, t: nat, v: nat, a: nat, d: seq<byte>, at: nat, off: nat, pa: nat, e: seq<byte>)
    requires at == a + |d| && v == at / PGSIZE && off == at % PGSIZE && off + |e| <= PGSIZE
    requires pa == Ppn(LeafPte(s, t, v)) < |s| && e == PageSlice(s[pa], off, |e|) && 0 !in e && Text(s, t, a, d)
    ensures Text(s, t, a, d + e)
  {
    SliceRead(s, t, v, a, d, at, off, pa, e, |d| + |e|);
  }

  /** How `copyinstr` of at most `max` bytes ends after `n`: with a NUL, or with no
      more that can be read. */
  predicate Ended(s: Mem, t: nat, a: nat, max: nat, n: nat, gotNull: bool) {
    var k := Reach(Rights(s, t, false), a, max);
    if gotNull then n < k && UserByte(s, t, a + n) == 0 else n == k
  }

  lemma NullThere(s: Mem, t: nat, v: nat, at: nat, off: nat, pa: nat, k: nat, z: nat)
    requires v == at / PGSIZE && off == at % PGSIZE && off + k < PGSIZE && pa == Ppn(LeafPte(s, t, v)) < |s|
    requires z == at + k && PageByte(s[pa], off + k) == 0
    ensures UserByte(s, t, z) == 0
  {
    SamePage(at, k + 1, k);
  }

  lemma NotYetReached(ok: nat -> bool, a: nat, max: nat, n: nat, next: nat)
    requires n < next && Halfway(ok, a, max, next)
    ensures n < Reach(ok, a, max)
  {
  }

  lemma EndsHere(s: Mem, t: nat, a: nat, max: nat, n: nat, z: nat, next: nat)
    requires z == a + n && UserByte(s, t, z) == 0 && n < next && Halfway(Rights(s, t, false), a, max, next)
    ensures Ended(s, t, a, max, n, true)
  {
    NotYetReached(Rights(s, t, false), a, max, n, next);
  }

  lemma NullEnds(s: Mem, t: nat, a: nat, max: nat, n: nat, v: nat, at: nat, off: nat, pa: nat, k: nat, next: nat)
    requires v == at / PGSIZE && off == at % PGSIZE && off + k < PGSIZE && pa == Ppn(LeafPte(s, t, v)) < |s|
    requires at + k == a + n && PageByte(s[pa], off + k) == 0
    requires n < next && Halfway(Rights(s, t, false), a, max, next)
    ensures Ended(s, t, a, max, n, true)
  {
    var z := a + n;
    NullThere(s, t, v, at, off, pa, k, z);
    EndsHere(s, t, a, max, n, z, next);
  }

  /** The part of the string that is on page `p`. */
  method StringChunk(p: Page, dst: seq<byte>, at: nat, next: nat, ghost a: nat, ghost max: nat, ghost t: nat,
                     ghost v: nat, ghost pa: nat, ghost s: Mem)
    returns (gotNull: bool, dst': seq<byte>)
    requires at == a + |dst| && v == at / PGSIZE && |dst| < next && at % PGSIZE + (next - |dst|) <= PGSIZE
    requires pa == Ppn(LeafPte(s, t, v)) < |s| && p == s[pa]
    requires Text(s, t, a, dst) && Halfway(Rights(s, t, false), a, max, next)
    ensures Text(s, t, a, dst')
    ensures if gotNull then Ended(s, t, a, max, |dst'|, true) else |dst'| == next
  {
    var off := at % PGSIZE;
    var e;
    gotNull, e := ScanChunk(p, off, next - |dst|);
    TextMore(s, t, v, a, dst, at, off, pa, e);
    dst' := dst + e;
    if gotNull { NullEnds(s, t, a, max, |dst'|, v, at, off, pa, |e|, next); }
  }

  /** One turn of the outer loop: `stop` at a NUL, or at a page that is not there. */
  method CopyinstrTurn(vm: Vm, t: nat, a: nat, max: nat, dst: seq<byte>)
    returns (stop: bool, gotNull: bool, dst': seq<byte>)
    requires vm.Valid() && t < |vm.o| && vm.o[t] == Root && KernelOnly(vm.mem, t) && |dst| < max
    requires Halfway(Rights(vm.mem, t, false), a, max, |dst|) && Text(vm.mem, t, a, dst)
    modifies vm
    ensures vm.Valid() && vm.mem == old(vm.mem) && vm.o == old(vm.o) && vm.free == old(vm.free)
    ensures Text(vm.mem, t, a, dst') && (gotNull ==> stop) && (stop ==> Ended(vm.mem, t, a, max, |dst'|, gotNull))
    ensures !stop ==> |dst| < |dst'| && Halfway(Rights(vm.mem, t, false), a, max, |dst'|)
  {
    var at := a + |dst|;
    var v := at / PGSIZE;
    var next := |dst| + Chunk(at, max - |dst|);
    NextTurn(vm.mem, t, false, a, max, |dst|, at, v, next);
    var pa := FindPage(vm, t, v, false);
    if pa == 0 {
      return true, false, dst;
    }
    gotNull, dst' := StringChunk(vm.mem[pa], dst, at, next, a, max, t, v, pa, vm.mem);
    stop := gotNull;
  }

  /** `copyinstr`: the string before its NUL, if that comes within `max` bytes on
      pages the user may read; otherwise -1, with the bytes that could be read. */
  method Copyinstr(vm: Vm, t: nat, a: nat, max: nat) returns (r: int, dst: seq<byte>)
    requires vm.Valid() && t < |vm.o| && vm.o[t] == Root && KernelOnly(vm.mem, t)
    modifies vm
    ensures vm.Valid() && vm.mem == old(vm.mem) && vm.o == old(vm.o) && vm.free == old(vm.free)
    ensures (r == 0 || r == -1) && Text(vm.mem, t, a, dst) && Ended(vm.mem, t, a, max, |dst|, r == 0)
  {
    var stop, gotNull := false, false;
    dst := [];
    while !stop && |dst| < max
      invariant vm.Valid() && vm.mem == old(vm.mem) && vm.o == old(vm.o) && vm.free == old(vm.free)
      invariant Text(vm.mem, t, a, dst) && (stop ==> Ended(vm.mem, t, a, max, |dst|, gotNull))
      invariant !stop ==> !gotNull && Halfway(Rights(vm.mem, t, false), a, max, |dst|)
      decreases !stop, max - |dst|
    {
      stop, gotNull, dst := CopyinstrTurn(vm, t, a, max, dst);
    }
    r := if gotNull then 0 else -1;
  }
}
