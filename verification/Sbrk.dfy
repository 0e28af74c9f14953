/** What malloc asks of the kernel, and what it gets: user/umalloc.c passes a size
    to sbrk, whose parameter is an `int`, and kernel/proc.c adds it to the size
    of the process. */
module Sbrk {
  import opened PageTable
  import opened Vm
  import opened UserMemory
  import opened ProcMemory
  import Umalloc

  const UINT := 0x1_0000_0000
  const LARGEST := 0x7FFF_FFE0           // the largest size that sbrk can be asked for

  /** The conversion to a 32-bit `int`. */
  function AsInt(x: nat): (r: int)
    ensures -0x8000_0000 <= r < 0x8000_0000
  {
    var w := x % UINT;
    if w < 0x8000_0000 then w else w - UINT
  }

  /** The bytes that `malloc(nbytes)` wants when no free block is big enough. */
  function Wanted(nbytes: nat): nat { Umalloc.HEADER * Umalloc.Asked(Umalloc.Units(nbytes)) }

  lemma WantedSize(nbytes: nat)
    requires nbytes < UINT
    ensures 0 < Wanted(nbytes) < 2 * UINT
    ensures Wanted(nbytes) < 0x8000_0000 <==> nbytes <= LARGEST
  {
    var n := Umalloc.Units(nbytes);
    assert nbytes <= 16 * (n - 1) < nbytes + 16;
  }

  /** The argument of sbrk is what is wanted if and only if the size is at most
      LARGEST. */
  lemma ArgumentExact(nbytes: nat)
    requires nbytes < UINT
    ensures AsInt(Wanted(nbytes)) == Wanted(nbytes) <==> nbytes <= LARGEST
  {
    WantedSize(nbytes);
  }

  /** When `growproc` succeeds with that argument, the process has grown by what
      malloc wanted if and only if the size is at most LARGEST. */
  lemma SbrkGives(s: Mem, o: seq<Owner>, s': Mem, o': seq<Owner>, t: nat, sz: nat, nbytes: nat, room: nat, sz': nat)
    requires nbytes < UINT && Resized(s, o, s', o', t, sz, AsInt(Wanted(nbytes)), room, true, sz')
    ensures sz' == sz + Wanted(nbytes) <==> nbytes <= LARGEST
  {
    ArgumentExact(nbytes);
    WantedSize(nbytes);
  }

  lemma SizeBound(s: Mem, o: seq<Owner>, t: nat, sz: nat, tf: nat)
    requires TreesOk(s, o) && Alive(s, o, t, sz, tf)
    ensures sz < 0x7FFF_FFF0
  {
    RegionBound(s, o, t, PagesOf(sz));
  }

  lemma HugeArgument()
    ensures AsInt(Wanted(0x8000_0000)) == -0x7FFF_FFF0
  {
  }

  /** What `malloc(0x80000000)` does to any process: sbrk is asked to shrink it by
      more than it has, which changes its size by nothing and counts as success. */
  method HugeRequest(vm: Vm, p: Proc) returns (n: int, ok: bool)
    requires vm.Valid() && Alive(vm.mem, vm.o, p.pagetable, p.sz, p.trapframe)
    modifies vm, p
    ensures n == AsInt(Wanted(0x8000_0000)) && ok && p.sz == old(p.sz)
    ensures vm.Valid() && Alive(vm.mem, vm.o, p.pagetable, p.sz, p.trapframe)
  {
    SizeBound(vm.mem, vm.o, p.pagetable, p.sz, p.trapframe);
    HugeArgument();
    n := -0x7FFF_FFF0;
    ok := Growproc(vm, p, n);
  }
}
