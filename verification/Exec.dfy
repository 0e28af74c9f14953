/** kernel/exec.c: building a new address space from a program file and swapping
    it in, or leaving everything as it was. */
module Exec {
  import opened BlockFormat
  import opened Common
  import opened PageTable
  import opened Vm
  import opened UserMemory
  import opened TreeFree
  import opened AddressSpace
  import opened ProcMemory
  import opened PageBytes
  import opened Elf
  import opened Arguments
  import opened ExecImage
  import F = FsState
  import I = Inodes

  // ----- The state while building -----------------------------------------------------

  ghost predicate Showing(s: Mem, t: nat, img: seq<Image>) {
    forall z :: 0 <= z < |img| ==> Shows(s, LeafPte(s, t, z), img[z])
  }

  /** The flags of a page of a program: valid, readable, for the user, and
      perhaps writable or executable. */
  predicate UserFlags(f: nat) { f == 19 || f == 23 || f == 27 || f == 31 }

  predicate ForUser(img: seq<Image>) {
    forall z :: 0 <= z < |img| ==> UserFlags(img[z].flags)
  }

  /** Tree `t`, made since `s0`, is the address space `g`. */
  ghost predicate Standing(s0: Mem, o0: seq<Owner>, s: Mem, o: seq<Owner>, t: nat, tf: nat, g: Program) {
    && OnlyTree(s0, o0, s, o, t) && t < |o0| && o0[t] == Free && HasSpace(s, o, t, g.sz, tf)
    && |g.img| == PagesOf(g.sz) && Showing(s, t, g.img)
  }

  /** It is so far, and the user may use all of it. */
  ghost predicate Building(s0: Mem, o0: seq<Owner>, s: Mem, o: seq<Owner>, t: nat, tf: nat, g: Program) {
    Standing(s0, o0, s, o, t, tf, g) && ForUser(g.img)
  }

  lemma PermFlags(x: nat)
    requires ExtraPerm(x)
    ensures PermOk(PTE_R + PTE_U + x) && UserFlags(PTE_R + PTE_U + x + PTE_V)
  {
  }

  lemma GrownHasSpace(s: Mem, o: seq<Owner>, s': Mem, o': seq<Owner>, t: nat, sz: nat, sz': nat, tf: nat,
                      img: seq<Image>)
    requires HasSpace(s, o, t, sz, tf) && PagesOf(sz) <= PagesOf(sz') <= TRAPFRAME
    requires Grown(s, o, s', o', t, PagesOf(sz), PagesOf(sz'), img)
    ensures HasSpace(s', o', t, sz', tf)
  {
    GrownRegion(s, o, s', o', t, PagesOf(sz), PagesOf(sz'), img);
    assert LeafPte(s', t, TRAPFRAME) == LeafPte(s, t, TRAPFRAME);
    assert LeafPte(s', t, TRAMPOLINE) == LeafPte(s, t, TRAMPOLINE);
  }

  lemma SpaceKept(s: Mem, o: seq<Owner>, s': Mem, o': seq<Owner>, t: nat, sz: nat, tf: nat)
    requires HasSpace(s, o, t, sz, tf) && SameLeaves(s, s', o) && |o'| == |o| && o'[t] == Root
    ensures HasSpace(s', o', t, sz, tf)
  {
    forall z | 0 <= z < MAXVPN ensures LeafPte(s', t, z) == LeafPte(s, t, z) {}
  }

  /** Growth keeps what the older pages show. */
  lemma GrownShowing(s: Mem, o: seq<Owner>, s': Mem, o': seq<Owner>, t: nat, n: nat, m: nat, img: seq<Image>,
                     more: seq<Image>)
    requires TreesOk(s, o) && t < |o| && o[t] == Root && n <= m <= TRAPFRAME && |img| == n && Showing(s, t, img)
    requires Grown(s, o, s', o', t, n, m, more)
    ensures Showing(s', t, img + more[n..m])
  {
    forall z | 0 <= z < m ensures Shows(s', LeafPte(s', t, z), (img + more[n..m])[z]) {
      if z < n {
        assert Shows(s, LeafPte(s, t, z), img[z]);
        LeafPteOk(s, o, t, z);
        assert LeafPte(s', t, z) == LeafPte(s, t, z);
      } else {
        assert (img + more[n..m])[z] == more[z];
        assert Shows(s', LeafPte(s', t, z), more[z]);
      }
    }
  }

  /** `uvmalloc` succeeded. */
  lemma Extended(s0: Mem, o0: seq<Owner>, s: Mem, o: seq<Owner>, s': Mem, o': seq<Owner>, t: nat, tf: nat, g: Program,
                 newsz: nat, xperm: nat)
    requires Building(s0, o0, s, o, t, tf, g) && TreesOk(s, o) && newsz >= g.sz && PagesOf(newsz) <= TRAPFRAME
    requires Grown(s, o, s', o', t, PagesOf(g.sz), PagesOf(newsz), Zeroed(newsz, xperm))
    requires ExtraPerm(xperm)
    ensures Building(s0, o0, s', o', t, tf, Extend(g, newsz, xperm))
  {
    var n, m, more := PagesOf(g.sz), PagesOf(newsz), Zeroed(newsz, xperm);
    GrownOnlyTree(s, o, s', o', t, n, m, more);
    OnlyTreeTrans(s0, o0, s, o, s', o', t);
    GrownHasSpace(s, o, s', o', t, g.sz, newsz, tf, more);
    GrownShowing(s, o, s', o', t, n, m, g.img, more);
    assert more[n..m] == Blank(m - n, xperm);
  }

  lemma StuckBuilding(s0: Mem, o0: seq<Owner>, s: Mem, o: seq<Owner>, s': Mem, o': seq<Owner>, t: nat, tf: nat,
                      g: Program)
    requires Building(s0, o0, s, o, t, tf, g) && TreesOk(s, o) && NoGrowth(s, o, s', o', t)
    ensures Building(s0, o0, s', o', t, tf, g)
  {
    StuckOnlyTree(s, o, s', o', t);
    OnlyTreeTrans(s0, o0, s, o, s', o', t);
    SpaceKept(s, o, s', o', t, g.sz, tf);
    forall z | 0 <= z < |g.img| ensures Shows(s', LeafPte(s', t, z), g.img[z]) {
      assert Shows(s, LeafPte(s, t, z), g.img[z]);
      LeafPteOk(s, o, t, z);
    }
  }

  /** One `uvmalloc` of `exec`. */
  method Grow(vm: Vm, t: nat, sz: nat, newsz: nat, xperm: nat, ghost tf: nat, ghost g: Program, ghost s0: Mem,
              ghost o0: seq<Owner>)
    returns (r: nat)
    requires vm.Valid() && Building(s0, o0, vm.mem, vm.o, t, tf, g) && sz == g.sz
    requires ExtraPerm(xperm)
    modifies vm
    ensures vm.Valid() && |vm.o| == |old(vm.o)|
    ensures r != 0 ==> && Building(s0, o0, vm.mem, vm.o, t, tf, Extend(g, newsz, xperm))
                       && r == Extend(g, newsz, xperm).sz
                       && |vm.free| + 3 * |Extend(g, newsz, xperm).img| >= |old(vm.free)| + 3 * |g.img|
    ensures r == 0 ==> && Building(s0, o0, vm.mem, vm.o, t, tf, g)
                       && (Extend(g, newsz, xperm).sz == 0 || |old(vm.free)| + 3 * |g.img| < 3 * PagesOf(newsz))
  {
    ghost var s, o := vm.mem, vm.o;
    PermFlags(xperm);
    r := Uvmalloc(vm, t, sz, newsz, xperm);
    if newsz >= sz {
      if r == 0 {
        StuckBuilding(s0, o0, s, o, vm.mem, vm.o, t, tf, g);
      } else {
        Extended(s0, o0, s, o, vm.mem, vm.o, t, tf, g, newsz, xperm);
      }
    }
  }

  // ----- The file ------------------------------------------------------------------------

  /** Byte `i` of file `ino` is that of `file`. */
  predicate SameByte(v: F.Fs, ino: nat, file: seq<byte>, i: int)
    requires F.Shape(v) && ino < |v.inodes| && |file| == v.inodes[ino].size
  {
    0 <= i < |file| ==> file[i] == F.ByteAt(v, ino, i)
  }

  /** A file system, and in it the program file `ino` with the bytes `file`. */
  datatype Source = Source(v: F.Fs, ino: nat, file: seq<byte>) {
    ghost predicate Ok() {
      && F.Inv(v) && ino < |v.inodes| && |file| == v.inodes[ino].size
      && forall i {:trigger SameByte(v, ino, file, i)} :: SameByte(v, ino, file, i)
    }
  }

  lemma FileOf(src: Source)
    requires src.Ok()
    ensures F.Contents(src.v, src.ino) == src.file
  {
    forall i | 0 <= i < |src.file| ensures F.Contents(src.v, src.ino)[i] == src.file[i] {
      assert SameByte(src.v, src.ino, src.file, i);
    }
  }

  /** `readi` of `n` bytes into the kernel. */
  method ReadFile(fs: I.FileSystem, ino: nat, off: nat, n: nat, ghost src: Source) returns (ok: bool, d: seq<byte>)
    requires src.Ok() && fs.View() == src.v && ino == src.ino && 0 < n <= PGSIZE && off < UINT
    modifies fs
    ensures fs.View() == src.v
    ensures ok <==> off + n <= |src.file|
    ensures ok ==> d == src.file[off..off + n]
  {
    FileOf(src);
    var r;
    r, d := fs.Readi(ino, off, n, n);
    ok := r == n;
  }

  // ----- loadseg ------------------------------------------------------------------------

  /** Every page that is described is mapped as described. */
  lemma PageThere(s0: Mem, o0: seq<Owner>, s: Mem, o: seq<Owner>, t: nat, tf: nat, g: Program, v: nat)
    requires Standing(s0, o0, s, o, t, tf, g) && TreesOk(s, o) && v < |g.img|
    ensures var w := LeafPte(s, t, v);
            && v < TRAPFRAME && V(w) && Flags(w) == g.img[v].flags && w / 16 % 2 == g.img[v].flags / 16 % 2
            && 0 < Ppn(w) < |o| && o[Ppn(w)] == Leaf(t, v) && s[Ppn(w)] == g.img[v].data
  {
    var w := LeafPte(s, t, v);
    assert Shows(s, w, g.img[v]);
    LeafPteOk(s, o, t, v);
    SplitPte(w);
    ClearUSplit(Ppn(w), Flags(w));
  }

  lemma UserBit(f: nat)
    requires UserFlags(f)
    ensures f / 16 % 2 == 1
  {
  }

  /** `g` with other contents of page `v`. */
  function WithPage(g: Program, v: nat, p: Page): Program
    requires v < |g.img|
  {
    g.(img := g.img[v := g.img[v].(data := p)])
  }

  lemma PageTwice(g: Program, v: nat, p: Page, q: Page)
    requires v < |g.img|
    ensures WithPage(g, v, p).img[v] == g.img[v].(data := p) && WithPage(WithPage(g, v, p), v, q) == WithPage(g, v, q)
  {
    assert WithPage(WithPage(g, v, p), v, q).img == WithPage(g, v, q).img;
  }

  lemma PageWritten(s0: Mem, o0: seq<Owner>, s: Mem, head: nat, o: seq<Owner>, free: seq<nat>, t: nat, tf: nat,
                    g: Program, v: nat, p: Page)
    requires Standing(s0, o0, s, o, t, tf, g) && Inv(s, head, o, free) && v < |g.img|
    ensures Ppn(LeafPte(s, t, v)) < |s|
    ensures var s' := s[Ppn(LeafPte(s, t, v)) := p];
            Inv(s', head, o, free) && Standing(s0, o0, s', o, t, tf, WithPage(g, v, p))
  {
    PageThere(s0, o0, s, o, t, tf, g, v);
    var x := Ppn(LeafPte(s, t, v));
    var s', img := s[x := p], g.img[v := g.img[v].(data := p)];
    NonTableWrite(s, o, x, p);
    KeepFree(s, s', head, o, o, free);
    assert OnlyTree(s, o, s', o, t);
    OnlyTreeTrans(s0, o0, s, o, s', o, t);
    SpaceKept(s, o, s', o, t, g.sz, tf);
    forall z | 0 <= z < |img| ensures Shows(s', LeafPte(s', t, z), img[z]) {
      PageThere(s0, o0, s, o, t, tf, g, z);
      assert Shows(s, LeafPte(s, t, z), g.img[z]) && LeafPte(s', t, z) == LeafPte(s, t, z);
    }
  }

  /** Where page `v`, which the user may use, is; "loadseg: address should exist"
      cannot happen, and neither can a failure of the `walkaddr` in `copyout`. */
  method FindPage(vm: Vm, t: nat, v: nat, ghost tf: nat, ghost g: Program, ghost s0: Mem, ghost o0: seq<Owner>)
    returns (pa: nat)
    requires vm.Valid() && Standing(s0, o0, vm.mem, vm.o, t, tf, g) && v < |g.img| && UserFlags(g.img[v].flags)
    modifies vm
    ensures vm.Valid() && vm.mem == old(vm.mem) && vm.o == old(vm.o) && vm.free == old(vm.free)
    ensures 0 < pa < |vm.mem| && pa == Ppn(LeafPte(vm.mem, t, v)) && vm.mem[pa] == g.img[v].data
  {
    PageThere(s0, o0, vm.mem, vm.o, t, tf, g, v);
    UserBit(g.img[v].flags);
    pa := vm.Walkaddr(t, v);
  }

  /** Give a page of the address space new contents. */
  method SetPage(vm: Vm, t: nat, v: nat, pa: nat, p: Page, ghost tf: nat, ghost g: Program, ghost s0: Mem,
                 ghost o0: seq<Owner>)
    requires vm.Valid() && Standing(s0, o0, vm.mem, vm.o, t, tf, g) && v < |g.img| && pa == Ppn(LeafPte(vm.mem, t, v))
    modifies vm
    ensures vm.Valid() && |vm.free| == |old(vm.free)| && Standing(s0, o0, vm.mem, vm.o, t, tf, WithPage(g, v, p))
  {
    PageWritten(s0, o0, vm.mem, vm.head, vm.o, vm.free, t, tf, g, v, p);
    vm.mem := vm.mem[pa := p];
  }

  /** Move bytes into a page, as `readi` does for `loadseg`, and `copyout`. */
  method MoveBytes(vm: Vm, t: nat, v: nat, at: nat, d: seq<byte>, ghost tf: nat, ghost g: Program, ghost s0: Mem,
                   ghost o0: seq<Owner>)
    requires vm.Valid() && Standing(s0, o0, vm.mem, vm.o, t, tf, g) && v < |g.img| && UserFlags(g.img[v].flags)
    requires at + |d| <= PGSIZE
    modifies vm
    ensures vm.Valid() && |vm.free| == |old(vm.free)|
    ensures Standing(s0, o0, vm.mem, vm.o, t, tf, WithPage(g, v, PutBytes(g.img[v].data, at, d, |d|)))
  {
    var pa := FindPage(vm, t, v, tf, g, s0, o0);
    SetPage(vm, t, v, pa, PutBytes(vm.mem[pa], at, d, |d|), tf, g, s0, o0);
  }

  /** Move words into a page. */
  method MoveWords(vm: Vm, t: nat, v: nat, j: nat, ws: seq<nat>, ghost tf: nat, ghost g: Program, ghost s0: Mem,
                   ghost o0: seq<Owner>)
    requires vm.Valid() && Standing(s0, o0, vm.mem, vm.o, t, tf, g) && v < |g.img| && UserFlags(g.img[v].flags)
    requires j + |ws| <= NPTE
    modifies vm
    ensures vm.Valid() && |vm.free| == |old(vm.free)|
    ensures Standing(s0, o0, vm.mem, vm.o, t, tf, WithPage(g, v, PutWords(g.img[v].data, j, ws)))
  {
    var pa := FindPage(vm, t, v, tf, g, s0, o0);
    SetPage(vm, t, v, pa, PutWords(vm.mem[pa], j, ws), tf, g, s0, o0);
  }

  /** The first `i` pieces of `d` have been put at page `v`. */
  ghost predicate Loaded(s0: Mem, o0: seq<Owner>, s: Mem, o: seq<Owner>, t: nat, tf: nat, g: Program, v: nat,
                         d: seq<byte>, i: nat) {
    Building(s0, o0, s, o, t, tf, g.(img := Overlay(g.img, v, d, i)))
  }

  lemma OverlayStep(g: Program, v: nat, d: seq<byte>, i: nat)
    requires v + i < |g.img|
    ensures var gi, x := g.(img := Overlay(g.img, v, d, i)), Piece(d, i);
            && gi.img[v + i] == g.img[v + i]
            && WithPage(gi, v + i, PutBytes(gi.img[v + i].data, 0, x, |x|)) == g.(img := Overlay(g.img, v, d, i + 1))
  {
    OverlayNext(g.img, v, d, i, v + i);
  }

  /** Other contents do not take a page from the user. */
  lemma StillForUser(g: Program, v: nat, p: Page)
    requires v < |g.img| && ForUser(g.img)
    ensures ForUser(WithPage(g, v, p).img)
  {
  }

  method LoadPiece(vm: Vm, t: nat, v: nat, i: nat, x: seq<byte>, ghost d: seq<byte>, ghost tf: nat, ghost g: Program,
                   ghost s0: Mem, ghost o0: seq<Owner>)
    requires vm.Valid() && Loaded(s0, o0, vm.mem, vm.o, t, tf, g, v, d, i) && v + i < |g.img| && x == Piece(d, i)
    modifies vm
    ensures vm.Valid() && |vm.free| == |old(vm.free)| && Loaded(s0, o0, vm.mem, vm.o, t, tf, g, v, d, i + 1)
  {
    ghost var gi := g.(img := Overlay(g.img, v, d, i));
    MoveBytes(vm, t, v + i, 0, x, tf, gi, s0, o0);
    StillForUser(gi, v + i, PutBytes(gi.img[v + i].data, 0, x, |x|));
    OverlayStep(g, v, d, i);
  }

  /** How many bytes the `i`th turn of the loop of `loadseg` reads. */
  function TurnSize(sz: nat, i: nat): nat
    requires i * PGSIZE < sz
  {
    if sz - i * PGSIZE < PGSIZE then sz - i * PGSIZE else PGSIZE
  }

  lemma AddMod(a: nat, b: nat, m: nat)
    requires 0 < m && a % m + b < m
    ensures (a + b) % m == a % m + b
  {
    var q := a / m;
    assert a + b == m * q + (a % m + b);
    Remainder(m, q, a % m + b, a + b);
  }

  lemma PieceRead(file: seq<byte>, seg: Segment, i: nat)
    requires seg.Load? && i * PGSIZE < seg.filesz
    requires seg.off % UINT + i * PGSIZE + TurnSize(seg.filesz, i) <= |file|
    ensures var from, m := seg.off % UINT + i * PGSIZE, TurnSize(seg.filesz, i);
            Piece(DataOf(file, seg), i) == file[from..from + m]
  {
    var from, m, d := seg.off % UINT + i * PGSIZE, TurnSize(seg.filesz, i), DataOf(file, seg);
    var x, y := Piece(d, i), file[from..from + m];
    assert |x| == m;
    forall k | 0 <= k < m ensures x[k] == y[k] {
      PieceAt(d, i, k);
    }
  }

  /** All pieces before the `i`th are in the file. */
  predicate SoFar(file: seq<byte>, seg: Segment, i: nat)
    requires seg.Load?
  {
    if i * PGSIZE < seg.filesz then i == 0 || seg.off % UINT + i * PGSIZE <= |file| else Readable(file, seg)
  }

  /** Where a turn reads, that it reads a piece of the segment, and what it means
      that it cannot. */
  lemma TurnReads(file: seq<byte>, seg: Segment, i: nat)
    requires seg.Load? && i * PGSIZE < seg.filesz && |file| < UINT && SoFar(file, seg, i)
    ensures var from, m := seg.off % UINT + i * PGSIZE, TurnSize(seg.filesz, i);
            && 0 < m <= PGSIZE && (seg.off + i * PGSIZE) % UINT == from
            && (if from + m <= |file|
                then Piece(DataOf(file, seg), i) == file[from..from + m] && SoFar(file, seg, i + 1)
                else !Readable(file, seg))
  {
    AddMod(seg.off, i * PGSIZE, UINT);
    if seg.off % UINT + i * PGSIZE + TurnSize(seg.filesz, i) <= |file| { PieceRead(file, seg, i); }
  }

  lemma TurnsOf(sz: nat, i: nat)
    ensures i < PagesOf(sz) <==> i * PGSIZE < sz
  {
  }

  /** One turn of the loop of `loadseg`. */
  method LoadTurn(vm: Vm, fs: I.FileSystem, ino: nat, t: nat, seg: Segment, v: nat, i: nat, ghost d: seq<byte>,
                  ghost src: Source, ghost tf: nat, ghost g: Program, ghost s0: Mem, ghost o0: seq<Owner>)
    returns (ok: bool, next: nat)
    requires vm.Valid() && src.Ok() && fs.View() == src.v && ino == src.ino && seg.Load? && i < PagesOf(seg.filesz)
    requires Loaded(s0, o0, vm.mem, vm.o, t, tf, g, v, d, i) && d == DataOf(src.file, seg)
    requires v + i < |g.img| && SoFar(src.file, seg, i)
    modifies vm, fs
    ensures vm.Valid() && |vm.free| == |old(vm.free)| && fs.View() == src.v
    ensures next == (if ok then i + 1 else i) && Loaded(s0, o0, vm.mem, vm.o, t, tf, g, v, d, next)
    ensures if ok then SoFar(src.file, seg, next) else !Readable(src.file, seg)
  {
    next := i;
    TurnsOf(seg.filesz, i);
    TurnReads(src.file, seg, i);
    var x;
    ok, x := ReadFile(fs, ino, (seg.off + i * PGSIZE) % UINT, TurnSize(seg.filesz, i), src);
    if ok {
      LoadPiece(vm, t, v, i, x, d, tf, g, s0, o0);
      next := i + 1;
    }
  }

  lemma NotYetLoaded(s0: Mem, o0: seq<Owner>, s: Mem, o: seq<Owner>, t: nat, tf: nat, g: Program, v: nat, d: seq<byte>)
    requires Building(s0, o0, s, o, t, tf, g)
    ensures Loaded(s0, o0, s, o, t, tf, g, v, d, 0)
  {
    assert Overlay(g.img, v, d, 0) == g.img;
  }

  lemma AllSoFar(file: seq<byte>, seg: Segment)
    requires seg.Load?
    ensures SoFar(file, seg, 0)
    ensures SoFar(file, seg, PagesOf(seg.filesz)) ==> Readable(file, seg)
  {
    TurnsOf(seg.filesz, PagesOf(seg.filesz));
  }

  /** Read the bytes of a segment into its pages. */
  method Loadseg(vm: Vm, fs: I.FileSystem, ino: nat, t: nat, seg: Segment, ghost src: Source, ghost tf: nat,
                 ghost g: Program, ghost s0: Mem, ghost o0: seq<Owner>)
    returns (ok: bool, ghost k: nat)
    requires vm.Valid() && src.Ok() && fs.View() == src.v && ino == src.ino && seg.Load?
    requires Building(s0, o0, vm.mem, vm.o, t, tf, g) && seg.vaddr / PGSIZE + PagesOf(seg.filesz) <= |g.img|
    modifies vm, fs
    ensures vm.Valid() && |vm.free| == |old(vm.free)| && fs.View() == src.v
    ensures ok <==> Readable(src.file, seg)
    ensures Loaded(s0, o0, vm.mem, vm.o, t, tf, g, seg.vaddr / PGSIZE, DataOf(src.file, seg), k)
    ensures ok ==> k == PagesOf(seg.filesz)
  {
    var v, n, i := seg.vaddr / PGSIZE, PagesOf(seg.filesz), 0;
    ghost var d := DataOf(src.file, seg);
    NotYetLoaded(s0, o0, vm.mem, vm.o, t, tf, g, v, d);
    AllSoFar(src.file, seg);
    while i < n
      invariant 0 <= i <= n && vm.Valid() && |vm.free| == |old(vm.free)| && fs.View() == src.v
      invariant Loaded(s0, o0, vm.mem, vm.o, t, tf, g, v, d, i) && SoFar(src.file, seg, i)
    {
      ok, i := LoadTurn(vm, fs, ino, t, seg, v, i, d, src, tf, g, s0, o0);
      if !ok {
        return false, i;
      }
    }
    return true, i;
  }

  // ----- Segments -----------------------------------------------------------------------

  /** A failed build that must be given back. */
  ghost predicate Doomed(s0: Mem, o0: seq<Owner>, s: Mem, o: seq<Owner>, t: nat, tf: nat, sz: nat) {
    OnlyTree(s0, o0, s, o, t) && t < |o0| && o0[t] == Free && HasSpace(s, o, t, sz, tf)
  }

  /** The segment lies within what was allocated, and its size fits a uint. */
  lemma SegmentFits(s0: Mem, o0: seq<Owner>, s: Mem, o: seq<Owner>, t: nat, tf: nat, g: Program, seg: Segment)
    requires seg.Load? && seg.vaddr % PGSIZE == 0 && seg.memsz >= seg.filesz && seg.vaddr + seg.memsz <= g.sz
    requires Building(s0, o0, s, o, t, tf, g) && TreesOk(s, o)
    ensures seg.vaddr / PGSIZE + PagesOf(seg.filesz) <= |g.img| && seg.(filesz := seg.filesz % UINT) == seg
  {
    RegionBound(s, o, t, PagesOf(g.sz));
    PageSum(seg.vaddr / PGSIZE, seg.filesz);
    PagesMonotone(seg.vaddr + seg.filesz, g.sz);
    assert g.sz <= PagesOf(g.sz) * PGSIZE;
  }

  /** One program header has been dealt with. */
  ghost predicate SegmentIn(s0: Mem, o0: seq<Owner>, s: Mem, o: seq<Owner>, t: nat, tf: nat, g: Program,
                            file: seq<byte>, seg: Segment, r: nat)
    requires seg.Load?
  {
    var d := AddSegment(g, file, seg);
    d.Some? && Building(s0, o0, s, o, t, tf, d.value) && r == d.value.sz
  }

  lemma SegmentAdded(s0: Mem, o0: seq<Owner>, s: Mem, o: seq<Owner>, t: nat, tf: nat, g: Program, file: seq<byte>,
                     seg: Segment, newsz: nat, g1: Program, v: nat, d: seq<byte>, k: nat)
    requires seg.Load? && newsz == seg.vaddr + seg.memsz && g1 == Extend(g, newsz, seg.perm) && g1.sz != 0
    requires v == seg.vaddr / PGSIZE && d == DataOf(file, seg) && k == PagesOf(seg.filesz)
    requires Readable(file, seg) && Loaded(s0, o0, s, o, t, tf, g1, v, d, k)
    ensures SegmentIn(s0, o0, s, o, t, tf, g, file, seg, g1.sz)
  {
  }

  lemma LoadFailed(s0: Mem, o0: seq<Owner>, s: Mem, o: seq<Owner>, t: nat, tf: nat, g: Program, file: seq<byte>,
                   seg: Segment, g1: Program, v: nat, d: seq<byte>, k: nat)
    requires seg.Load? && !Readable(file, seg) && Loaded(s0, o0, s, o, t, tf, g1, v, d, k)
    ensures Doomed(s0, o0, s, o, t, tf, g1.sz) && AddSegment(g, file, seg).None?
  {
  }

  /** `loadseg` into the pages that `g` was just extended by, giving `g1`. */
  method FillNew(vm: Vm, fs: I.FileSystem, ino: nat, t: nat, seg: Segment, ghost src: Source, ghost tf: nat,
                 ghost g: Program, ghost newsz: nat, ghost g1: Program, ghost s0: Mem, ghost o0: seq<Owner>)
    returns (ok: bool)
    requires vm.Valid() && Building(s0, o0, vm.mem, vm.o, t, tf, g1) && src.Ok() && fs.View() == src.v && ino == src.ino
    requires seg.Load? && Fitting(seg) && g1.sz != 0
    requires newsz == seg.vaddr + seg.memsz && g1 == Extend(g, newsz, seg.perm)
    modifies vm, fs
    ensures vm.Valid() && |vm.free| == |old(vm.free)| && fs.View() == src.v
    ensures ok ==> SegmentIn(s0, o0, vm.mem, vm.o, t, tf, g, src.file, seg, g1.sz)
    ensures !ok ==> Doomed(s0, o0, vm.mem, vm.o, t, tf, g1.sz) && AddSegment(g, src.file, seg).None?
  {
    SegmentFits(s0, o0, vm.mem, vm.o, t, tf, g1, seg);
    ghost var k;
    ok, k := Loadseg(vm, fs, ino, t, seg.(filesz := seg.filesz % UINT), src, tf, g1, s0, o0);
    ghost var v, d := seg.vaddr / PGSIZE, DataOf(src.file, seg);
    if ok {
      SegmentAdded(s0, o0, vm.mem, vm.o, t, tf, g, src.file, seg, newsz, g1, v, d, k);
    } else {
      LoadFailed(s0, o0, vm.mem, vm.o, t, tf, g, src.file, seg, g1, v, d, k);
    }
  }

  /** What a step of the build may cost: pages of `g1` beyond those of `g`. */
  ghost predicate Cost(free0: nat, free: nat, n: nat, n1: nat) { free + 3 * n1 >= free0 + 3 * n }

  lemma NoRoom(g: Program, file: seq<byte>, seg: Segment, newsz: nat, room: nat)
    requires seg.Load? && newsz == seg.vaddr + seg.memsz
    requires Extend(g, newsz, seg.perm).sz == 0 || room + 3 * |g.img| < 3 * PagesOf(newsz)
    ensures Short(AddSegment(g, file, seg), room, |g.img|)
  {
    if AddSegment(g, file, seg).Some? { SegmentSize(g, file, seg); }
  }

  /** `uvmalloc` and `loadseg` for a segment that passed the checks. */
  method PlaceSegment(vm: Vm, fs: I.FileSystem, ino: nat, t: nat, sz: nat, seg: Segment, newsz: nat,
                      ghost src: Source, ghost tf: nat, ghost g: Program, ghost s0: Mem, ghost o0: seq<Owner>)
    returns (ok: bool, r: nat)
    requires vm.Valid()
    requires Building(s0, o0, vm.mem, vm.o, t, tf, g) && sz == g.sz && src.Ok() && fs.View() == src.v && ino == src.ino
    requires seg.Load? && Fitting(seg) && ExtraPerm(seg.perm) && newsz == seg.vaddr + seg.memsz
    modifies vm, fs
    ensures vm.Valid() && fs.View() == src.v
    ensures ok ==> SegmentIn(s0, o0, vm.mem, vm.o, t, tf, g, src.file, seg, r)
                   && Cost(|old(vm.free)|, |vm.free|, |g.img|, PagesOf(r))
    ensures !ok ==> Doomed(s0, o0, vm.mem, vm.o, t, tf, r)
    ensures !ok ==> Short(AddSegment(g, src.file, seg), |old(vm.free)|, |g.img|)
  {
    r := Grow(vm, t, sz, newsz, seg.perm, tf, g, s0, o0);
    if r == 0 {
      NoRoom(g, src.file, seg, newsz, |old(vm.free)|);
      return false, sz;
    }
    ok := FillNew(vm, fs, ino, t, seg, src, tf, g, newsz, Extend(g, newsz, seg.perm), s0, o0);
  }

  /** `ph.vaddr + ph.memsz`, which does not wrap around once it is checked. */
  method EndOf(seg: Segment) returns (r: nat)
    requires seg.Load? && SegmentOk(seg) && Checked(seg)
    ensures r == seg.vaddr + seg.memsz
  {
    r := (seg.vaddr + seg.memsz) % ULONG;
  }

  /** One program header of a segment: checks, `uvmalloc`, `loadseg`. */
  method LoadSegment(vm: Vm, fs: I.FileSystem, ino: nat, t: nat, sz: nat, seg: Segment, ghost src: Source,
                     ghost tf: nat, ghost g: Program, ghost s0: Mem, ghost o0: seq<Owner>)
    returns (ok: bool, r: nat)
    requires vm.Valid() && Building(s0, o0, vm.mem, vm.o, t, tf, g) && sz == g.sz
    requires src.Ok() && fs.View() == src.v && ino == src.ino && seg.Load? && SegmentOk(seg)
    modifies vm, fs
    ensures vm.Valid() && fs.View() == src.v
    ensures ok ==> Checked(seg) && SegmentIn(s0, o0, vm.mem, vm.o, t, tf, g, src.file, seg, r)
                   && Cost(|old(vm.free)|, |vm.free|, |g.img|, PagesOf(r))
    ensures !ok ==> Doomed(s0, o0, vm.mem, vm.o, t, tf, r)
    ensures !ok ==> Short(AddHeader(g, src.file, seg), |old(vm.free)|, |g.img|)
  {
    if !Checked(seg) {
      return false, sz;
    }
    var newsz := EndOf(seg);
    ok, r := PlaceSegment(vm, fs, ino, t, sz, seg, newsz, src, tf, g, s0, o0);
  }

  /** Read program header `i`. */
  method ReadHeader(fs: I.FileSystem, ino: nat, h: Header, i: nat, ghost src: Source) returns (seg: Segment)
    requires src.Ok() && fs.View() == src.v && ino == src.ino && i < h.phnum
    modifies fs
    ensures fs.View() == src.v
    ensures seg == SegmentsIn(src.file, h)[i] && SegmentOk(seg)
  {
    var ok, d := ReadFile(fs, ino, HeaderPlace(h, i), PHSIZE, src);
    if !ok {
      return Unreadable;
    }
    return SegmentOf(d);
  }

  /** One program header, of any kind: `g` becomes `g'`. */
  method LoadHeader(vm: Vm, fs: I.FileSystem, ino: nat, t: nat, sz: nat, seg: Segment, ghost src: Source,
                    ghost tf: nat, ghost g: Program, ghost s0: Mem, ghost o0: seq<Owner>)
    returns (ok: bool, r: nat, ghost g': Program)
    requires vm.Valid() && Building(s0, o0, vm.mem, vm.o, t, tf, g) && sz == g.sz && SegmentOk(seg)
    requires src.Ok() && fs.View() == src.v && ino == src.ino
    modifies vm, fs
    ensures vm.Valid() && fs.View() == src.v
    ensures ok ==> AddHeader(g, src.file, seg) == Some(g') && Building(s0, o0, vm.mem, vm.o, t, tf, g') && r == g'.sz
    ensures ok ==> Cost(|old(vm.free)|, |vm.free|, |g.img|, |g'.img|)
    ensures !ok ==> Doomed(s0, o0, vm.mem, vm.o, t, tf, r)
    ensures !ok ==> Short(AddHeader(g, src.file, seg), |old(vm.free)|, |g.img|)
  {
    g' := g;
    if seg.Unreadable? {
      return false, sz, g;
    }
    if seg.Other? {
      return true, sz, g;
    }
    ok, r := LoadSegment(vm, fs, ino, t, sz, seg, src, tf, g, s0, o0);
    if ok {
      g' := AddSegment(g, src.file, seg).value;
    }
  }

  /** How far the loop over the program headers has come. */
  ghost predicate HeadersDone(src: Source, h: Header, i: nat, g: Program) {
    var segs := SegmentsIn(src.file, h);
    i <= |segs| && AddSegments(g, src.file, segs, i) == AddSegments(Program(0, []), src.file, segs, 0)
  }

  lemma HeadersNext(src: Source, h: Header, i: nat, g: Program)
    requires HeadersDone(src, h, i, g) && i < h.phnum
    ensures var g' := AddHeader(g, src.file, SegmentsIn(src.file, h)[i]);
            var d := AddSegments(Program(0, []), src.file, SegmentsIn(src.file, h), 0);
            if g'.None? then d.None?
            else HeadersDone(src, h, i + 1, g'.value) && (d.Some? ==> PagesOf(g'.value.sz) <= PagesOf(d.value.sz))
  {
    TooBig(g, src.file, SegmentsIn(src.file, h), i);
  }

  /** All program headers. */
  method LoadSegments(vm: Vm, fs: I.FileSystem, ino: nat, t: nat, h: Header, ghost src: Source, ghost tf: nat,
                      ghost s0: Mem, ghost o0: seq<Owner>)
    returns (ok: bool, sz: nat, ghost g: Program)
    requires vm.Valid() && Building(s0, o0, vm.mem, vm.o, t, tf, Program(0, []))
    requires src.Ok() && fs.View() == src.v && ino == src.ino
    modifies vm, fs
    ensures vm.Valid() && fs.View() == src.v
    ensures ok ==> && AddSegments(Program(0, []), src.file, SegmentsIn(src.file, h), 0) == Some(g)
                   && Building(s0, o0, vm.mem, vm.o, t, tf, g) && sz == g.sz
                   && Cost(|old(vm.free)|, |vm.free|, 0, |g.img|)
    ensures !ok ==> Doomed(s0, o0, vm.mem, vm.o, t, tf, sz)
    ensures var d := AddSegments(Program(0, []), src.file, SegmentsIn(src.file, h), 0);
            !ok ==> d.None? || |old(vm.free)| < 3 * PagesOf(d.value.sz)
  {
    ok, sz, g := true, 0, Program(0, []);
    var i := 0;
    while i < h.phnum
      invariant i <= h.phnum && vm.Valid() && Building(s0, o0, vm.mem, vm.o, t, tf, g) && sz == g.sz && ok
      invariant fs.View() == src.v && HeadersDone(src, h, i, g) && Cost(|old(vm.free)|, |vm.free|, 0, |g.img|)
    {
      var seg := ReadHeader(fs, ino, h, i, src);
      HeadersNext(src, h, i, g);
      ok, sz, g := LoadHeader(vm, fs, ino, t, sz, seg, src, tf, g, s0, o0);
      if !ok {
        return;
      }
      i := i + 1;
    }
  }

  // ----- The stack ------------------------------------------------------------------------

  lemma GuardShows(s0: Mem, o0: seq<Owner>, s: Mem, o: seq<Owner>, s': Mem, t: nat, tf: nat, g: Program, v: nat, z: nat)
    requires Standing(s0, o0, s, o, t, tf, g) && TreesOk(s, o) && v < |g.img| && z < |g.img| && Kept(s, o, s', o)
    requires LeafPte(s', t, z) == if z == v then ClearU(LeafPte(s, t, v)) else LeafPte(s, t, z)
    ensures Shows(s', LeafPte(s', t, z), if z == v then g.img[v].(flags := ClearU(g.img[v].flags)) else g.img[z])
  {
    PageThere(s0, o0, s, o, t, tf, g, z);
    ClearUFields(LeafPte(s, t, v));
    assert Shows(s, LeafPte(s, t, z), g.img[z]);
  }

  lemma GuardSet(s0: Mem, o0: seq<Owner>, s: Mem, o: seq<Owner>, s': Mem, t: nat, tf: nat, g: Program, v: nat)
    requires Standing(s0, o0, s, o, t, tf, g) && TreesOk(s, o) && v < |g.img| && Kept(s, o, s', o)
    requires LeafChanged(s, s', o, t, v, ClearU(LeafPte(s, t, v)))
    ensures Standing(s0, o0, s', o, t, tf, g.(img := g.img[v := g.img[v].(flags := ClearU(g.img[v].flags))]))
  {
    var img := g.img[v := g.img[v].(flags := ClearU(g.img[v].flags))];
    LeafOnlyTree(s, o, s', t, v, ClearU(LeafPte(s, t, v)));
    OnlyTreeTrans(s0, o0, s, o, s', o, t);
    PageThere(s0, o0, s, o, t, tf, g, v);
    ClearUFields(LeafPte(s, t, v));
    forall z | 0 <= z < MAXVPN
      ensures LeafPte(s', t, z) == if z == v then ClearU(LeafPte(s, t, v)) else LeafPte(s, t, z)
    {}
    forall z | 0 <= z < |img| ensures Shows(s', LeafPte(s', t, z), img[z]) {
      GuardShows(s0, o0, s, o, s', t, tf, g, v, z);
    }
  }

  /** `sz = PGROUNDUP(sz)` */
  function RoundUp(g: Program): Program { g.(sz := PagesOf(g.sz) * PGSIZE) }

  /** Two more pages, as `uvmalloc` makes them. */
  function AddPages(g: Program): Program {
    Extend(RoundUp(g), PagesOf(g.sz) * PGSIZE + (USERSTACK + 1) * PGSIZE, PTE_W)
  }

  lemma Rounded(n: nat)
    ensures PagesOf(n * PGSIZE) == n && PagesOf(n * PGSIZE + (USERSTACK + 1) * PGSIZE) == n + 2
  {
  }

  /** And the lower one out of the user's reach. */
  function Guarded(g: Program): Program
    requires |g.img| == PagesOf(g.sz)
  {
    var g1, n := AddPages(g), |g.img|;
    Rounded(n);
    g1.(img := g1.img[n := g1.img[n].(flags := ClearU(g1.img[n].flags))])
  }

  lemma StackAdded(g: Program, stack: Page)
    requires |g.img| == PagesOf(g.sz)
    ensures var g1, n := Guarded(g), |g.img|;
            && |g1.img| == n + 2 && g1.sz == (n + 2) * PGSIZE
            && UserFlags(g1.img[n + 1].flags) && WithPage(g1, n + 1, Fill(0)) == g1
            && AddStack(g, stack) == WithPage(g1, n + 1, stack)
  {
    var g1, n := Guarded(g), |g.img|;
    Rounded(n);
    assert AddPages(g).img == g.img + Blank(2, PTE_W);
    assert AddStack(g, stack).img == WithPage(g1, n + 1, stack).img;
    assert WithPage(g1, n + 1, Fill(0)).img == g1.img;
  }

  /** Rounding up the size changes nothing else. */
  lemma RoundedUp(s0: Mem, o0: seq<Owner>, s: Mem, o: seq<Owner>, t: nat, tf: nat, g: Program)
    ensures PagesOf(RoundUp(g).sz) == PagesOf(g.sz)
    ensures Building(s0, o0, s, o, t, tf, g) ==> Building(s0, o0, s, o, t, tf, RoundUp(g))
  {
    Rounded(PagesOf(g.sz));
  }

  /** Where the stack begins and ends. */
  method StackEnds(sz: nat, ghost g: Program) returns (base: nat, top: nat)
    requires sz == g.sz
    ensures base == RoundUp(g).sz && Extend(RoundUp(g), top, PTE_W) == AddPages(g) && AddPages(g).sz > 0
    ensures PagesOf(top) <= PagesOf(sz) + 2
  {
    base := PagesOf(sz) * PGSIZE;
    top := base + (USERSTACK + 1) * PGSIZE;
    Rounded(PagesOf(sz));
  }

  /** The `uvmalloc` for the stack. */
  method GrowStack(vm: Vm, t: nat, sz: nat, ghost tf: nat, ghost g: Program, ghost s0: Mem, ghost o0: seq<Owner>)
    returns (r: nat)
    requires vm.Valid() && Building(s0, o0, vm.mem, vm.o, t, tf, g) && sz == g.sz
    modifies vm
    ensures vm.Valid()
    ensures r != 0 ==> Building(s0, o0, vm.mem, vm.o, t, tf, AddPages(g)) && r == AddPages(g).sz
    ensures r == 0 ==> Doomed(s0, o0, vm.mem, vm.o, t, tf, PagesOf(sz) * PGSIZE) && |old(vm.free)| < 3 * 2
  {
    RoundedUp(s0, o0, vm.mem, vm.o, t, tf, g);
    var base, top := StackEnds(sz, g);
    r := Grow(vm, t, base, top, PTE_W, tf, RoundUp(g), s0, o0);
  }

  /** The two pages of the stack, the lower one as a guard. */
  method MakeStack(vm: Vm, t: nat, sz: nat, ghost tf: nat, ghost g: Program, ghost s0: Mem, ghost o0: seq<Owner>)
    returns (r: nat)
    requires vm.Valid() && Building(s0, o0, vm.mem, vm.o, t, tf, g) && sz == g.sz
    modifies vm
    ensures vm.Valid()
    ensures r != 0 ==> Standing(s0, o0, vm.mem, vm.o, t, tf, Guarded(g)) && r == Guarded(g).sz
    ensures r == 0 ==> Doomed(s0, o0, vm.mem, vm.o, t, tf, PagesOf(sz) * PGSIZE) && |old(vm.free)| < 3 * 2
  {
    r := GrowStack(vm, t, sz, tf, g, s0, o0);
    if r != 0 {
      ghost var s, o := vm.mem, vm.o;
      Rounded(|g.img|);
      PageThere(s0, o0, s, o, t, tf, AddPages(g), |g.img|);
      vm.Uvmclear(t, PagesOf(sz));
      GuardSet(s0, o0, s, o, vm.mem, t, tf, AddPages(g), |g.img|);
    }
  }

  /** The stack page `v` of `g` holds `page`. */
  ghost predicate StackHolds(s0: Mem, o0: seq<Owner>, s: Mem, o: seq<Owner>, t: nat, tf: nat, g: Program, v: nat,
                             page: Page) {
    v < |g.img| && UserFlags(g.img[v].flags) && Standing(s0, o0, s, o, t, tf, WithPage(g, v, page))
  }

  /** What was pushed stays pushed. */
  lemma {:induction false} PushFails(base: nat, argv: seq<seq<byte>>, k: nat, n: nat)
    requires BaseOk(base) && k <= n <= |argv| && PushStrings(base, argv, k).None?
    ensures PushStrings(base, argv, n).None?
  {
    if k < n { PushFails(base, argv, k, n - 1); }
  }

  /** `copyout` to the stack page, of bytes. */
  method StackBytes(vm: Vm, t: nat, v: nat, at: nat, d: seq<byte>, ghost page: Page, ghost page': Page, ghost tf: nat,
                    ghost g: Program, ghost s0: Mem, ghost o0: seq<Owner>)
    requires vm.Valid() && StackHolds(s0, o0, vm.mem, vm.o, t, tf, g, v, page)
    requires at + |d| <= PGSIZE && page' == PutBytes(page, at, d, |d|)
    modifies vm
    ensures vm.Valid() && StackHolds(s0, o0, vm.mem, vm.o, t, tf, g, v, page')
  {
    PageTwice(g, v, page, page');
    MoveBytes(vm, t, v, at, d, tf, WithPage(g, v, page), s0, o0);
  }

  /** Pushing the first `k` strings gives `a`. */
  predicate Pushes(base: nat, argv: seq<seq<byte>>, k: nat, a: Args) {
    && ArgvOk(argv) && BaseOk(base) && k <= |argv| && PushStrings(base, argv, k) == Some(a)
  }

  /** What pushing one more string does. */
  lemma PushesNext(base: nat, argv: seq<seq<byte>>, k: nat, a: Args)
    requires Pushes(base, argv, k, a) && k < |argv|
    ensures Inside(base, a)
    ensures k < MAXARG && PushString(base, a, argv[k]).Some? ==>
              Pushes(base, argv, k + 1, PushString(base, a, argv[k]).value)
    ensures k >= MAXARG || PushString(base, a, argv[k]).None? ==> PushStrings(base, argv, |argv|).None?
  {
    if PushStrings(base, argv, k + 1).None? { PushFails(base, argv, k + 1, |argv|); }
  }

  /** Where the next string goes, if it fits and is not one too many. */
  method NextPlace(base: nat, argv: seq<seq<byte>>, k: nat, sp: nat, ghost a: Args)
    returns (ok: bool, sp': nat, d: seq<byte>, ghost b: Args)
    requires Pushes(base, argv, k, a) && sp == a.sp && k < |argv|
    ensures ok ==> Pushes(base, argv, k + 1, b) && b.sp == sp' && b.ptrs == a.ptrs + [sp']
    ensures ok ==> base <= sp' && sp' - base + |d| <= PGSIZE && b.page == PutBytes(a.page, sp' - base, d, |d|)
    ensures !ok ==> PushStrings(base, argv, |argv|).None?
  {
    PushesNext(base, argv, k, a);
    ok, sp', d, b := false, sp, argv[k] + [0], a;
    if k < MAXARG && |d| <= sp {
      sp' := Lowered(sp, |d|);
      ok := base <= sp';
    }
    if ok {
      b := PushString(base, a, argv[k]).value;
    }
  }

  /** The first `k` strings are on the stack page. */
  ghost predicate StringsOn(s0: Mem, o0: seq<Owner>, s: Mem, o: seq<Owner>, t: nat, tf: nat, g: Program, v: nat,
                            base: nat, argv: seq<seq<byte>>, k: nat, a: Args) {
    Pushes(base, argv, k, a) && StackHolds(s0, o0, s, o, t, tf, g, v, a.page)
  }

  lemma NoStrings(s0: Mem, o0: seq<Owner>, s: Mem, o: seq<Owner>, t: nat, tf: nat, g: Program, v: nat, base: nat,
                  argv: seq<seq<byte>>)
    returns (a: Args)
    requires ArgvOk(argv) && BaseOk(base) && StackHolds(s0, o0, s, o, t, tf, g, v, Fill(0))
    ensures StringsOn(s0, o0, s, o, t, tf, g, v, base, argv, 0, a) && a.sp == base + PGSIZE && a.ptrs == []
  {
    a := Args(base + PGSIZE, Fill(0), []);
  }

  /** One turn of the loop that pushes them. */
  method PushNext(vm: Vm, t: nat, v: nat, base: nat, argv: seq<seq<byte>>, k: nat, sp: nat, ghost a: Args,
                  ghost tf: nat, ghost g: Program, ghost s0: Mem, ghost o0: seq<Owner>)
    returns (ok: bool, sp': nat, ghost b: Args)
    requires vm.Valid() && StringsOn(s0, o0, vm.mem, vm.o, t, tf, g, v, base, argv, k, a) && sp == a.sp && k < |argv|
    modifies vm
    ensures vm.Valid()
    ensures ok ==> StringsOn(s0, o0, vm.mem, vm.o, t, tf, g, v, base, argv, k + 1, b)
    ensures ok ==> sp' == b.sp && b.ptrs == a.ptrs + [sp']
    ensures !ok ==> PushStrings(base, argv, |argv|).None? && StackHolds(s0, o0, vm.mem, vm.o, t, tf, g, v, a.page)
  {
    var d;
    ok, sp', d, b := NextPlace(base, argv, k, sp, a);
    if ok {
      StackBytes(vm, t, v, sp' - base, d, a.page, b.page, tf, g, s0, o0);
    }
  }

  /** The loop that pushes the strings. */
  method PushAll(vm: Vm, t: nat, v: nat, base: nat, argv: seq<seq<byte>>, ghost tf: nat, ghost g: Program,
                 ghost s0: Mem, ghost o0: seq<Owner>)
    returns (ok: bool, sp: nat, ptrs: seq<nat>, ghost a: Args)
    requires vm.Valid() && BaseOk(base) && ArgvOk(argv) && StackHolds(s0, o0, vm.mem, vm.o, t, tf, g, v, Fill(0))
    modifies vm
    ensures vm.Valid()
    ensures ok ==> StringsOn(s0, o0, vm.mem, vm.o, t, tf, g, v, base, argv, |argv|, a) && a.sp == sp && a.ptrs == ptrs
    ensures !ok ==> PushStrings(base, argv, |argv|).None? && StackHolds(s0, o0, vm.mem, vm.o, t, tf, g, v, a.page)
  {
    sp, ptrs := base + PGSIZE, [];
    a := NoStrings(s0, o0, vm.mem, vm.o, t, tf, g, v, base, argv);
    var argc := 0;
    while argc < |argv|
      invariant 0 <= argc <= |argv| && vm.Valid() && a.sp == sp && a.ptrs == ptrs
      invariant StringsOn(s0, o0, vm.mem, vm.o, t, tf, g, v, base, argv, argc, a)
    {
      ghost var b;
      ok, sp, b := PushNext(vm, t, v, base, argv, argc, sp, a, tf, g, s0, o0);
      if !ok {
        return;
      }
      a, ptrs, argc := b, ptrs + [sp], argc + 1;
    }
    ok := true;
  }

  /** The array of pointers. */
  method PushArray(vm: Vm, t: nat, v: nat, base: nat, sp: nat, ptrs: seq<nat>, ghost a: Args, ghost tf: nat,
                   ghost g: Program, ghost s0: Mem, ghost o0: seq<Owner>)
    returns (ok: bool, sp': nat)
    requires vm.Valid() && BaseOk(base) && Inside(base, a) && a.sp == sp && a.ptrs == ptrs && |ptrs| < MAXARG
    requires StackHolds(s0, o0, vm.mem, vm.o, t, tf, g, v, a.page)
    modifies vm
    ensures vm.Valid() && ok == PushPointers(base, a).Some?
    ensures ok ==> sp' == PushPointers(base, a).value.sp
                   && StackHolds(s0, o0, vm.mem, vm.o, t, tf, g, v, PushPointers(base, a).value.page)
    ensures !ok ==> StackHolds(s0, o0, vm.mem, vm.o, t, tf, g, v, a.page)
  {
    sp' := Lowered(sp, 8 * (|ptrs| + 1));
    if sp' < base {
      return false, sp';
    }
    ArrayFits(base, sp', |ptrs| + 1);
    PageTwice(g, v, a.page, PutWords(a.page, WordAt(base, sp'), ptrs + [0]));
    MoveWords(vm, t, v, WordAt(base, sp'), ptrs + [0], tf, WithPage(g, v, a.page), s0, o0);
    return true, sp';
  }

  /** The arguments on the stack, in page `v`. */
  method PushArgs(vm: Vm, t: nat, v: nat, base: nat, argv: seq<seq<byte>>, ghost tf: nat, ghost g: Program,
                  ghost s0: Mem, ghost o0: seq<Owner>)
    returns (ok: bool, sp: nat)
    requires vm.Valid() && BaseOk(base) && ArgvOk(argv) && StackHolds(s0, o0, vm.mem, vm.o, t, tf, g, v, Fill(0))
    modifies vm
    ensures vm.Valid() && ok == Pushed(base, argv).Some?
    ensures ok ==> sp == Pushed(base, argv).value.sp
                   && StackHolds(s0, o0, vm.mem, vm.o, t, tf, g, v, Pushed(base, argv).value.page)
    ensures !ok ==> Doomed(s0, o0, vm.mem, vm.o, t, tf, g.sz)
  {
    var ptrs;
    ghost var a;
    ok, sp, ptrs, a := PushAll(vm, t, v, base, argv, tf, g, s0, o0);
    if ok {
      ok, sp := PushArray(vm, t, v, base, sp, ptrs, a, tf, g, s0, o0);
    }
  }

  /** The stack of `g` with the arguments on it. */
  ghost predicate StackBuilt(s0: Mem, o0: seq<Owner>, s: Mem, o: seq<Owner>, t: nat, tf: nat, g: Program,
                             a: Option<Args>, r: nat, sp: nat) {
    && a.Some? && Standing(s0, o0, s, o, t, tf, AddStack(g, a.value.page))
    && r == AddStack(g, a.value.page).sz && sp == a.value.sp
  }

  lemma StackFrom(g: Program, r: nat)
    requires |g.img| == PagesOf(g.sz) && r == (|g.img| + 2) * PGSIZE
    ensures r - USERSTACK * PGSIZE == StackBase(g.sz)
  {
  }

  /** The new stack page is empty and the user's. */
  lemma StackReady(s0: Mem, o0: seq<Owner>, s: Mem, o: seq<Owner>, t: nat, tf: nat, g: Program, r: nat)
    requires |g.img| == PagesOf(g.sz) && Standing(s0, o0, s, o, t, tf, Guarded(g)) && r == Guarded(g).sz
    ensures StackHolds(s0, o0, s, o, t, tf, Guarded(g), PagesOf(g.sz) + 1, Fill(0))
    ensures r - USERSTACK * PGSIZE == StackBase(g.sz)
  {
    StackAdded(g, Fill(0));
    StackFrom(g, r);
  }

  lemma StackDone(s0: Mem, o0: seq<Owner>, s: Mem, o: seq<Owner>, t: nat, tf: nat, g: Program, v: nat, page: Page)
    requires |g.img| == PagesOf(g.sz) && v == PagesOf(g.sz) + 1
    requires StackHolds(s0, o0, s, o, t, tf, Guarded(g), v, page)
    ensures Standing(s0, o0, s, o, t, tf, AddStack(g, page)) && AddStack(g, page).sz == Guarded(g).sz
  {
    StackAdded(g, page);
  }

  /** The arguments in the stack of `g`, which has been made. */
  method FillStack(vm: Vm, t: nat, sz: nat, r: nat, argv: seq<seq<byte>>, ghost tf: nat, ghost g: Program,
                   ghost s0: Mem, ghost o0: seq<Owner>)
    returns (ok: bool, sp: nat)
    requires vm.Valid() && |g.img| == PagesOf(g.sz) && sz == g.sz && ArgvOk(argv)
    requires Standing(s0, o0, vm.mem, vm.o, t, tf, Guarded(g)) && r == Guarded(g).sz
    modifies vm
    ensures vm.Valid() && ok == Pushed(StackBase(sz), argv).Some?
    ensures ok ==> StackBuilt(s0, o0, vm.mem, vm.o, t, tf, g, Pushed(StackBase(sz), argv), r, sp)
    ensures !ok ==> Doomed(s0, o0, vm.mem, vm.o, t, tf, r)
  {
    ghost var a := Pushed(StackBase(sz), argv);
    StackReady(s0, o0, vm.mem, vm.o, t, tf, g, r);
    var v, base := PagesOf(sz) + 1, r - USERSTACK * PGSIZE;
    ok, sp := PushArgs(vm, t, v, base, argv, tf, Guarded(g), s0, o0);
    if ok {
      StackDone(s0, o0, vm.mem, vm.o, t, tf, g, v, a.value.page);
    }
  }

  /** The stack, its guard page and the arguments on it. */
  method BuildStack(vm: Vm, t: nat, sz: nat, argv: seq<seq<byte>>, ghost tf: nat, ghost g: Program, ghost s0: Mem,
                    ghost o0: seq<Owner>)
    returns (ok: bool, r: nat, sp: nat)
    requires vm.Valid() && Building(s0, o0, vm.mem, vm.o, t, tf, g) && sz == g.sz && ArgvOk(argv)
    modifies vm
    ensures vm.Valid()
    ensures ok ==> StackBuilt(s0, o0, vm.mem, vm.o, t, tf, g, Pushed(StackBase(sz), argv), r, sp)
    ensures !ok ==> Doomed(s0, o0, vm.mem, vm.o, t, tf, r)
    ensures !ok ==> Pushed(StackBase(sz), argv).None? || |old(vm.free)| < 3 * 2
  {
    sp := 0;
    r := MakeStack(vm, t, sz, tf, g, s0, o0);
    if r == 0 {
      return false, PagesOf(sz) * PGSIZE, 0;
    }
    ok, sp := FillStack(vm, t, sz, r, argv, tf, g, s0, o0);
  }

  // ----- exec --------------------------------------------------------------------------------

  /** The `bad` exit: `proc_freepagetable` of what was built. */
  method GiveBack(vm: Vm, t: nat, sz: nat, ghost tf: nat, ghost s0: Mem, ghost o0: seq<Owner>)
    requires vm.Valid() && TreesOk(s0, o0) && Doomed(s0, o0, vm.mem, vm.o, t, tf, sz)
    modifies vm
    ensures vm.Valid() && Restored(s0, o0, vm.mem, vm.o)
  {
    ghost var s1, o1 := vm.mem, vm.o;
    ProcFreepagetable(vm, t, sz);
    BuiltAndGone(s0, o0, s1, o1, vm.mem, vm.o, t);
  }

  /** With less room than this a good program may fail. */
  function Needs(d: Program): nat { 5 + 3 * PagesOf(d.sz) }

  /** Why `exec` may fail: the file describes no program, or there is no room. */
  predicate MayFail(file: seq<byte>, argv: seq<seq<byte>>, room: nat)
    requires ArgvOk(argv)
  {
    Described(file, argv).Some? ==> room < Needs(Described(file, argv).value.prog)
  }

  /** The whole needs room for its segments and for two pages more. */
  lemma StackNeeds(file: seq<byte>, argv: seq<seq<byte>>)
    requires ArgvOk(argv) && HeaderIn(file).Some?
    ensures var g := AddSegments(Program(0, []), file, SegmentsIn(file, HeaderIn(file).value), 0);
            var d := Described(file, argv);
            d.Some? ==> g.Some? && PagesOf(d.value.prog.sz) == PagesOf(g.value.sz) + 2
  {
    var g := AddSegments(Program(0, []), file, SegmentsIn(file, HeaderIn(file).value), 0);
    if g.Some? { Rounded(PagesOf(g.value.sz)); }
  }

  /** Tree `t`, made since `s0`, is what `d` describes. */
  ghost predicate BuiltAs(s0: Mem, o0: seq<Owner>, s: Mem, o: seq<Owner>, t: nat, tf: nat, d: Option<Ready>, sz: nat,
                          entry: nat, sp: nat) {
    && d.Some? && Standing(s0, o0, s, o, t, tf, d.value.prog)
    && sz == d.value.prog.sz && entry == d.value.entry && sp == d.value.sp
  }

  /** The file header. */
  method ReadElf(fs: I.FileSystem, ino: nat, ghost src: Source) returns (h: Option<Header>)
    requires src.Ok() && fs.View() == src.v && ino == src.ino
    modifies fs
    ensures fs.View() == src.v && h == HeaderIn(src.file)
  {
    var ok, d := ReadFile(fs, ino, 0, HDRSIZE, src);
    if !ok {
      return None;
    }
    return HeaderOf(d);
  }

  lemma SegmentsFail(file: seq<byte>, argv: seq<seq<byte>>, room: nat)
    requires ArgvOk(argv) && HeaderIn(file).Some?
    requires var d := AddSegments(Program(0, []), file, SegmentsIn(file, HeaderIn(file).value), 0);
             d.None? || room < 3 * PagesOf(d.value.sz)
    ensures MayFail(file, argv, room + 5)
  {
    StackNeeds(file, argv);
  }

  lemma StackFails(file: seq<byte>, argv: seq<seq<byte>>, h: Header, g: Program, room: nat)
    requires ArgvOk(argv) && HeaderIn(file) == Some(h)
    requires AddSegments(Program(0, []), file, SegmentsIn(file, h), 0) == Some(g)
    requires Pushed(StackBase(g.sz), argv).None? || room < 6 + 3 * PagesOf(g.sz)
    ensures MayFail(file, argv, room + 5)
  {
    DescribedBy(file, argv, h, g);
    StackNeeds(file, argv);
  }

  /** The stack of a program whose segments are in. */
  method Finish(vm: Vm, t: nat, sz: nat, h: Header, argv: seq<seq<byte>>, ghost file: seq<byte>, ghost room: nat,
                ghost tf: nat, ghost g: Program, ghost s0: Mem, ghost o0: seq<Owner>)
    returns (ok: bool, r: nat, sp: nat)
    requires vm.Valid() && Building(s0, o0, vm.mem, vm.o, t, tf, g) && sz == g.sz && ArgvOk(argv)
    requires HeaderIn(file) == Some(h) && AddSegments(Program(0, []), file, SegmentsIn(file, h), 0) == Some(g)
    requires Cost(room, |vm.free|, 0, |g.img|)
    modifies vm
    ensures vm.Valid()
    ensures ok ==> BuiltAs(s0, o0, vm.mem, vm.o, t, tf, Described(file, argv), r, h.entry, sp)
    ensures !ok ==> Doomed(s0, o0, vm.mem, vm.o, t, tf, r) && MayFail(file, argv, room + 5)
  {
    ok, r, sp := BuildStack(vm, t, sz, argv, tf, g, s0, o0);
    if ok {
      DescribedBy(file, argv, h, g);
    } else {
      StackFails(file, argv, h, g, room);
    }
  }

  /** The segments and the stack, in the new tree `t`. */
  method FillSpace(vm: Vm, fs: I.FileSystem, ino: nat, t: nat, h: Header, argv: seq<seq<byte>>, ghost src: Source,
                   ghost tf: nat, ghost s0: Mem, ghost o0: seq<Owner>)
    returns (ok: bool, sz: nat, sp: nat)
    requires vm.Valid() && Building(s0, o0, vm.mem, vm.o, t, tf, Program(0, []))
    requires src.Ok() && fs.View() == src.v && ino == src.ino && HeaderIn(src.file) == Some(h) && ArgvOk(argv)
    modifies vm, fs
    ensures vm.Valid() && fs.View() == src.v
    ensures ok ==> BuiltAs(s0, o0, vm.mem, vm.o, t, tf, Described(src.file, argv), sz, h.entry, sp)
    ensures !ok ==> Doomed(s0, o0, vm.mem, vm.o, t, tf, sz) && MayFail(src.file, argv, |old(vm.free)| + 5)
  {
    ghost var g;
    ok, sz, g := LoadSegments(vm, fs, ino, t, h, src, tf, s0, o0);
    if !ok {
      SegmentsFail(src.file, argv, |old(vm.free)|);
      return false, sz, 0;
    }
    ok, sz, sp := Finish(vm, t, sz, h, argv, src.file, |old(vm.free)|, tf, g, s0, o0);
  }

  /** `exec` up to the commit: a new tree `t` that shows the program, or 0 and
      everything as it was. */
  method Build(vm: Vm, fs: I.FileSystem, ino: nat, tf: nat, argv: seq<seq<byte>>, trampoline: nat, ghost src: Source)
    returns (t: nat, sz: nat, entry: nat, sp: nat)
    requires vm.Valid() && src.Ok() && fs.View() == src.v && ino == src.ino && ArgvOk(argv)
    modifies vm, fs
    ensures vm.Valid() && fs.View() == old(fs.View())
    ensures t == 0 ==> Restored(old(vm.mem), old(vm.o), vm.mem, vm.o) && MayFail(src.file, argv, |old(vm.free)|)
    ensures t != 0 ==>
              BuiltAs(old(vm.mem), old(vm.o), vm.mem, vm.o, t, tf, Described(src.file, argv), sz, entry, sp)
  {
    ghost var s0, o0 := vm.mem, vm.o;
    t, sz, entry, sp := 0, 0, 0, 0;
    var h := ReadElf(fs, ino, src);
    if h.None? {
      return;
    }
    t := ProcPagetable(vm, trampoline, tf);
    if t == 0 {
      return;
    }
    var ok;
    ok, sz, sp := FillSpace(vm, fs, ino, t, h.value, argv, src, tf, s0, o0);
    if !ok {
      GiveBack(vm, t, sz, tf, s0, o0);
      return 0, 0, 0, 0;
    }
    entry := h.value.entry;
  }

  const EPC := 3                // offsets in struct trapframe
  const SP := 6
  const A1 := 15

  /** The registers of the process, set to start the program. */
  function Started(frame: Page, entry: nat, sp: nat): Page { frame[A1 := sp][EPC := entry][SP := sp] }

  /** Tree `told` and its memory are free; tree `t` took free pages; the trapframe
      is `frame`; all else is as it was. */
  ghost predicate Replaced(s0: Mem, o0: seq<Owner>, s: Mem, o: seq<Owner>, told: nat, t: nat, tf: nat, frame: Page) {
    && |s| == |s0| == |o| == |o0| && tf < |s| && s[tf] == frame
    && (forall y :: 0 <= y < |o0| && y != tf && o[y] == o0[y] && !IsTable(o0[y]) && o0[y] != Free ==> s[y] == s0[y])
    && (forall u, z :: 0 <= u < |o0| && o0[u] == Root && u != told && 0 <= z < NPTE * NPTE * NPTE ==>
          LeafPte(s, u, z) == LeafPte(s0, u, z))
    && forall y :: 0 <= y < |o0| ==>
         if InTree(o0[y], y, told) then o[y] == Free
         else o[y] == o0[y] || (o0[y] == Free && InTree(o[y], y, t))
  }

  /** Setting registers touches no tree and no memory of a process. */
  lemma FrameSet(s0: Mem, o0: seq<Owner>, s: Mem, head: nat, o: seq<Owner>, free: seq<nat>, t: nat, tf: nat, g: Program,
                 frame: Page)
    requires Inv(s, head, o, free) && Standing(s0, o0, s, o, t, tf, g) && 0 < tf < |o| && o[tf] == Kernel
    ensures var s' := s[tf := frame];
            && Inv(s', head, o, free) && SameLeaves(s, s', o)
            && HasSpace(s', o, t, g.sz, tf) && Showing(s', t, g.img)
  {
    var s' := s[tf := frame];
    NonTableWrite(s, o, tf, frame);
    KeepFree(s, s', head, o, o, free);
    SpaceKept(s, o, s', o, t, g.sz, tf);
    forall z | 0 <= z < |g.img| ensures Shows(s', LeafPte(s', t, z), g.img[z]) {
      PageThere(s0, o0, s, o, t, tf, g, z);
      assert Shows(s, LeafPte(s, t, z), g.img[z]);
    }
  }

  lemma Swapped(s0: Mem, o0: seq<Owner>, s1: Mem, o1: seq<Owner>, s2: Mem, o2: seq<Owner>, told: nat, t: nat, tf: nat,
                frame: Page)
    requires TreesOk(s0, o0) && told < |o0| && o0[told] == Root && t < |o0| && o0[t] == Free
    requires tf < |o0| && o0[tf] == Kernel && OnlyTree(s0, o0, s1, o1, t) && SameLeaves(s1, s1[tf := frame], o1)
    requires TreeGone(s1[tf := frame], o1, s2, o2, told)
    ensures Replaced(s0, o0, s2, o2, told, t, tf, frame)
  {
    forall u, z | 0 <= u < |o0| && o0[u] == Root && u != told && 0 <= z < NPTE * NPTE * NPTE
      ensures LeafPte(s2, u, z) == LeafPte(s0, u, z)
    {
      assert o1[u] == Root && LeafPte(s1, u, z) == LeafPte(s0, u, z);
      assert LeafPte(s1[tf := frame], u, z) == LeafPte(s1, u, z);
    }
    forall y | 0 <= y < |o0| ensures !InTree(o0[y], y, t) {
      assert PageOk(s0, o0, y);
    }
  }

  /** The new address space outlives the old one. */
  lemma StillStanding(s1: Mem, o1: seq<Owner>, s2: Mem, o2: seq<Owner>, told: nat, t: nat, tf: nat, g: Program)
    requires TreesOk(s1, o1) && HasSpace(s1, o1, t, g.sz, tf) && Showing(s1, t, g.img) && |g.img| <= TRAPFRAME
    requires told != t && TreeGone(s1, o1, s2, o2, told)
    ensures HasSpace(s2, o2, t, g.sz, tf) && Showing(s2, t, g.img)
  {
    forall z | 0 <= z < MAXVPN ensures LeafPte(s2, t, z) == LeafPte(s1, t, z) {}
    forall z | 0 <= z < |g.img| ensures Shows(s2, LeafPte(s2, t, z), g.img[z]) {
      assert Shows(s1, LeafPte(s1, t, z), g.img[z]);
      LeafPteOk(s1, o1, t, z);
    }
  }

  /** The old address space is still there when the new one is built. */
  lemma OldSpace(s0: Mem, o0: seq<Owner>, s1: Mem, o1: seq<Owner>, s2: Mem, told: nat, oldsz: nat, t: nat, tf: nat)
    requires HasSpace(s0, o0, told, oldsz, tf) && t < |o0| && o0[t] == Free && OnlyTree(s0, o0, s1, o1, t)
    requires SameLeaves(s1, s2, o1)
    ensures HasSpace(s2, o1, told, oldsz, tf)
  {
    forall z | 0 <= z < MAXVPN ensures LeafPte(s2, told, z) == LeafPte(s0, told, z) {
      assert o1[told] == Root && LeafPte(s1, told, z) == LeafPte(s0, told, z);
    }
  }

  /** Set the registers, and free the old address space once the new one is in
      use. */
  method Commit(vm: Vm, told: nat, oldsz: nat, tf: nat, entry: nat, sp: nat, ghost t: nat, ghost g: Program,
                ghost s0: Mem, ghost o0: seq<Owner>)
    requires vm.Valid() && TreesOk(s0, o0) && Alive(s0, o0, told, oldsz, tf) && Standing(s0, o0, vm.mem, vm.o, t, tf, g)
    modifies vm
    ensures vm.Valid() && Replaced(s0, o0, vm.mem, vm.o, told, t, tf, Started(s0[tf], entry, sp))
    ensures Alive(vm.mem, vm.o, t, g.sz, tf) && Showing(vm.mem, t, g.img)
  {
    ghost var s1, o1 := vm.mem, vm.o;
    var frame := Started(vm.mem[tf], entry, sp);
    assert vm.mem[tf] == s0[tf];
    FrameSet(s0, o0, s1, vm.head, o1, vm.free, t, tf, g, frame);
    vm.mem := vm.mem[tf := frame];
    ghost var s2 := vm.mem;
    OldSpace(s0, o0, s1, o1, s2, told, oldsz, t, tf);
    ProcFreepagetable(vm, told, oldsz);
    Swapped(s0, o0, s1, o1, vm.mem, vm.o, told, t, tf, frame);
    StillStanding(s2, o1, vm.mem, vm.o, told, t, tf, g);
  }

  /** What `exec` leaves of a process whose address space was `told`: exactly the
      memory that `d` describes, the registers set to start it, and the old
      memory free. */
  ghost predicate Executed(s0: Mem, o0: seq<Owner>, s: Mem, o: seq<Owner>, told: nat, t: nat, sz: nat, tf: nat,
                           d: Option<Ready>) {
    && tf < |s0| && d.Some? && sz == d.value.prog.sz && Showing(s, t, d.value.prog.img)
    && Replaced(s0, o0, s, o, told, t, tf, Started(s0[tf], d.value.entry, d.value.sp))
  }

  /** The process gets the new image, and its old address space goes. */
  method Install(vm: Vm, p: Proc, t: nat, sz: nat, entry: nat, sp: nat, ghost d: Option<Ready>, ghost s0: Mem,
                 ghost o0: seq<Owner>)
    requires vm.Valid() && TreesOk(s0, o0) && Alive(s0, o0, p.pagetable, p.sz, p.trapframe)
    requires BuiltAs(s0, o0, vm.mem, vm.o, t, p.trapframe, d, sz, entry, sp)
    modifies vm, p
    ensures vm.Valid() && Alive(vm.mem, vm.o, p.pagetable, p.sz, p.trapframe) && p.trapframe == old(p.trapframe)
    ensures Executed(s0, o0, vm.mem, vm.o, old(p.pagetable), p.pagetable, p.sz, p.trapframe, d)
  {
    var told, oldsz := p.pagetable, p.sz;
    p.pagetable, p.sz := t, sz;
    Commit(vm, told, oldsz, p.trapframe, entry, sp, t, d.value.prog, s0, o0);
  }

  /** Either the process has exactly the memory that the file and the arguments
      describe, is set to start at the program's entry with its arguments, and
      its old memory is free; or nothing has changed.  It fails only for a file
      that is no program, arguments that do not fit, or want of memory. */
  method Run(vm: Vm, p: Proc, fs: I.FileSystem, ino: nat, argv: seq<seq<byte>>, trampoline: nat) returns (r: int)
    requires vm.Valid() && Alive(vm.mem, vm.o, p.pagetable, p.sz, p.trapframe)
    requires F.Inv(fs.View()) && ino < |fs.inodes| && ArgvOk(argv)
    modifies vm, p, fs
    ensures fs.View() == old(fs.View()) && p.trapframe == old(p.trapframe)
    ensures vm.Valid() && Alive(vm.mem, vm.o, p.pagetable, p.sz, p.trapframe) && (r == -1 || r == |argv|)
    ensures r != -1 ==> Executed(old(vm.mem), old(vm.o), vm.mem, vm.o, old(p.pagetable), p.pagetable, p.sz, p.trapframe,
                                 Described(F.Contents(fs.View(), ino), argv))
    ensures r == -1 ==> && Restored(old(vm.mem), old(vm.o), vm.mem, vm.o)
                        && p.pagetable == old(p.pagetable) && p.sz == old(p.sz)
                        && MayFail(F.Contents(fs.View(), ino), argv, |old(vm.free)|)
  {
    ghost var s0, o0 := vm.mem, vm.o;
    ghost var src := Source(fs.View(), ino, F.Contents(fs.View(), ino));
    var t, sz, entry, sp := Build(vm, fs, ino, p.trapframe, argv, trampoline, src);
    if t == 0 {
      SpaceKept(s0, o0, vm.mem, vm.o, p.pagetable, p.sz, p.trapframe);
      return -1;
    }
    Install(vm, p, t, sz, entry, sp, Described(src.file, argv), s0, o0);
    return |argv|;
  }
}
