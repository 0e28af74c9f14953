/** The memory of a process as a program file and its arguments describe it:
    what `exec` of kernel/exec.c should build. */
module ExecImage {
  import opened BlockFormat
  import opened Common
  import opened PageTable
  import opened Vm
  import opened UserMemory
  import opened PageBytes
  import opened Elf
  import opened Arguments

  const USERSTACK := 1

  /** An address space being built: its size and what its pages show. */
  datatype Program = Program(sz: nat, img: seq<Image>)

  function Blank(n: nat, xperm: nat): seq<Image> { seq(n, _ => Image(PTE_R + PTE_U + xperm + PTE_V, Fill(0))) }

  /** Grow to `newsz` with zeroed pages, as `uvmalloc` does; never shrink. */
  function Extend(g: Program, newsz: nat, xperm: nat): Program {
    if newsz < g.sz then g
    else Program(newsz, g.img + Blank(if PagesOf(newsz) >= |g.img| then PagesOf(newsz) - |g.img| else 0, xperm))
  }

  // ----- Segments -----------------------------------------------------------------------

  /** The part of a segment's bytes that goes to its page `i`. */
  function Piece(d: seq<byte>, i: nat): (r: seq<byte>)
    ensures |r| <= PGSIZE
  {
    if |d| <= i * PGSIZE then []
    else if |d| < (i + 1) * PGSIZE then d[i * PGSIZE..] else d[i * PGSIZE..(i + 1) * PGSIZE]
  }

  /** The page with `d` moved to byte `at`. */
  function Store(im: Image, at: nat, d: seq<byte>): Image
    requires at + |d| <= PGSIZE
  {
    im.(data := PutBytes(im.data, at, d, |d|))
  }

  function Overlaid(x: Image, v: nat, d: seq<byte>, n: nat, z: nat): Image {
    if v <= z < v + n then Store(x, 0, Piece(d, z - v)) else x
  }

  /** The first `n` pieces of `d` are in the pages from `v` on. */
  function Overlay(img: seq<Image>, v: nat, d: seq<byte>, n: nat): (r: seq<Image>)
    ensures |r| == |img|
  {
    seq(|img|, z requires 0 <= z < |img| => Overlaid(img[z], v, d, n, z))
  }

  predicate Fitting(g: Segment)
    requires g.Load?
  {
    g.memsz >= g.filesz && g.vaddr % PGSIZE == 0
  }

  /** The checks of a program header. */
  predicate Checked(g: Segment)
    requires g.Load?
  {
    (g.vaddr + g.memsz) % ULONG >= g.vaddr && Fitting(g)
  }

  /** A segment that passed them; None when memory cannot begin with nothing or
      the file is short. */
  function AddSegment(g: Program, file: seq<byte>, seg: Segment): Option<Program>
    requires seg.Load?
  {
    var grown := Extend(g, seg.vaddr + seg.memsz, seg.perm);
    if grown.sz == 0 || !Readable(file, seg) then None
    else Some(grown.(img := Overlay(grown.img, seg.vaddr / PGSIZE, DataOf(file, seg), PagesOf(seg.filesz))))
  }

  /** One program header, of any kind. */
  function AddHeader(g: Program, file: seq<byte>, seg: Segment): Option<Program> {
    match seg
    case Unreadable => None
    case Other => Some(g)
    case Load(_, _, _, _, _) => if Checked(seg) then AddSegment(g, file, seg) else None
  }

  function AddSegments(g: Program, file: seq<byte>, segs: seq<Segment>, i: nat): Option<Program>
    decreases |segs| - i
  {
    if i >= |segs| then Some(g)
    else
      var g' := AddHeader(g, file, segs[i]);
      if g'.None? then None else AddSegments(g'.value, file, segs, i + 1)
  }

  lemma {:induction false} SegmentsGrow(g: Program, file: seq<byte>, segs: seq<Segment>, i: nat)
    requires AddSegments(g, file, segs, i).Some?
    ensures AddSegments(g, file, segs, i).value.sz >= g.sz
    decreases |segs| - i
  {
    if i < |segs| { SegmentsGrow(AddHeader(g, file, segs[i]).value, file, segs, i + 1); }
  }

  lemma PagesMonotone(a: nat, b: nat)
    requires a <= b
    ensures PagesOf(a) <= PagesOf(b)
  {
  }

  /** There are not enough pages for `d`, of which `n` pages were there already. */
  predicate Short(d: Option<Program>, room: nat, n: nat) { d.None? || room + 3 * n < 3 * PagesOf(d.value.sz) }

  lemma SegmentSize(g: Program, file: seq<byte>, seg: Segment)
    requires seg.Load? && AddSegment(g, file, seg).Some?
    ensures var g1 := Extend(g, seg.vaddr + seg.memsz, seg.perm);
            && g1.sz != 0 && AddSegment(g, file, seg).value.sz == g1.sz
            && PagesOf(seg.vaddr + seg.memsz) <= PagesOf(g1.sz)
  {
    PagesMonotone(seg.vaddr + seg.memsz, Extend(g, seg.vaddr + seg.memsz, seg.perm).sz);
  }

  /** What all the rest makes of `g` is at least as big as what one header does. */
  lemma TooBig(g: Program, file: seq<byte>, segs: seq<Segment>, i: nat)
    requires i < |segs|
    ensures var d := AddSegments(g, file, segs, i);
            d.Some? ==> AddHeader(g, file, segs[i]).Some?
                        && PagesOf(AddHeader(g, file, segs[i]).value.sz) <= PagesOf(d.value.sz)
  {
    var d := AddSegments(g, file, segs, i);
    if d.Some? {
      SegmentsGrow(AddHeader(g, file, segs[i]).value, file, segs, i + 1);
      PagesMonotone(AddHeader(g, file, segs[i]).value.sz, d.value.sz);
    }
  }

  // ----- The stack and the whole ------------------------------------------------------------

  /** The stack goes on the next page boundary, above a guard page that the user
      cannot touch. */
  function AddStack(g: Program, stack: Page): Program {
    Program((PagesOf(g.sz) + USERSTACK + 1) * PGSIZE,
            g.img + [Image(PTE_R + PTE_W + PTE_V, Fill(0)), Image(PTE_R + PTE_W + PTE_U + PTE_V, stack)])
  }

  function StackBase(sz: nat): (r: nat)
    ensures BaseOk(r)
  {
    PagesOf(sz) * PGSIZE + PGSIZE
  }

  /** A process about to run: its memory, the program counter and the stack
      pointer. */
  datatype Ready = Ready(prog: Program, entry: nat, sp: nat)

  /** What the file and the arguments describe; None if the file is no program
      or the arguments do not fit. */
  function Described(file: seq<byte>, argv: seq<seq<byte>>): Option<Ready>
    requires ArgvOk(argv)
  {
    var h := HeaderIn(file);
    if h.None? then None else
      var g := AddSegments(Program(0, []), file, SegmentsIn(file, h.value), 0);
      if g.None? then None else
        var a := Pushed(StackBase(g.value.sz), argv);
        if a.None? then None else Some(Ready(AddStack(g.value, a.value.page), h.value.entry, a.value.sp))
  }

  lemma DescribedBy(file: seq<byte>, argv: seq<seq<byte>>, h: Header, g: Program)
    requires ArgvOk(argv) && HeaderIn(file) == Some(h)
    requires AddSegments(Program(0, []), file, SegmentsIn(file, h), 0) == Some(g)
    ensures var a := Pushed(StackBase(g.sz), argv);
            Described(file, argv)
            == if a.None? then None else Some(Ready(AddStack(g, a.value.page), h.entry, a.value.sp))
  {
  }

  // ----- Byte by byte ------------------------------------------------------------------------

  /** The byte at address `a`; what is not mapped counts as 0. */
  function ByteIn(img: seq<Image>, a: nat): byte {
    if a / PGSIZE < |img| then PageByte(img[a / PGSIZE].data, a % PGSIZE) else 0
  }

  predicate Covers(seg: Segment, a: nat) { seg.Load? && seg.vaddr <= a < seg.vaddr + seg.filesz }

  lemma PieceAt(d: seq<byte>, i: nat, k: nat)
    requires k < PGSIZE
    ensures k < |Piece(d, i)| <==> i * PGSIZE + k < |d|
    ensures k < |Piece(d, i)| ==> Piece(d, i)[k] == d[i * PGSIZE + k]
  {
  }

  lemma BlankBytes(k: nat)
    requires k < PGSIZE
    ensures PageByte(Fill(0), k) == 0
  {
    ZeroBytes(k % 8);
  }

  lemma ExtendBytes(g: Program, newsz: nat, xperm: nat, a: nat)
    ensures ByteIn(Extend(g, newsz, xperm).img, a) == ByteIn(g.img, a)
  {
    BlankBytes(a % PGSIZE);
  }

  lemma NotBelow(v: nat, n: nat, a: nat)
    requires !(v <= a / PGSIZE < v + n)
    ensures !(v * PGSIZE <= a < v * PGSIZE + n * PGSIZE)
  {
  }

  /** A page of a segment, byte by byte. */
  lemma StoredBytes(im: Image, d: seq<byte>, i: nat, k: nat)
    requires k < PGSIZE
    ensures PageByte(Store(im, 0, Piece(d, i)).data, k)
            == if i * PGSIZE + k < |d| then d[i * PGSIZE + k] else PageByte(im.data, k)
  {
    PieceAt(d, i, k);
    BytesPut(im.data, 0, Piece(d, i), |Piece(d, i)|, k);
  }

  lemma PageOffset(v: nat, a: nat)
    requires v <= a / PGSIZE
    ensures v * PGSIZE <= a && (a / PGSIZE - v) * PGSIZE + a % PGSIZE == a - v * PGSIZE
  {
  }

  lemma OverlaidNext(x: Image, v: nat, d: seq<byte>, n: nat, z: nat)
    ensures Overlaid(x, v, d, n + 1, z) == if z == v + n then Store(x, 0, Piece(d, n)) else Overlaid(x, v, d, n, z)
    ensures z == v + n ==> Overlaid(x, v, d, n, z) == x
  {
  }

  lemma OverlayNext(img: seq<Image>, v: nat, d: seq<byte>, n: nat, p: nat)
    requires p == v + n < |img|
    ensures Overlay(img, v, d, n)[p] == img[p]
    ensures Overlay(img, v, d, n + 1) == Overlay(img, v, d, n)[p := Store(img[p], 0, Piece(d, n))]
  {
    forall z | 0 <= z < |img| { OverlaidNext(img[z], v, d, n, z); }
  }

  lemma OverlayAt(img: seq<Image>, v: nat, d: seq<byte>, n: nat, p: nat)
    requires v + n <= |img| && v <= p < v + n
    ensures p < |Overlay(img, v, d, n)| && Overlay(img, v, d, n)[p] == Store(img[p], 0, Piece(d, p - v))
  {
  }

  /** In the pages of the segment. */
  lemma OverlayInside(img: seq<Image>, v: nat, d: seq<byte>, n: nat, p: nat, k: nat)
    requires v + n <= |img| && v <= p < v + n && k < PGSIZE
    ensures p < |Overlay(img, v, d, n)|
    ensures var i := (p - v) * PGSIZE + k;
            PageByte(Overlay(img, v, d, n)[p].data, k) == if i < |d| then d[i] else PageByte(img[p].data, k)
  {
    OverlayAt(img, v, d, n, p);
    StoredBytes(img[p], d, p - v, k);
  }

  lemma OverlayBytes(img: seq<Image>, v: nat, d: seq<byte>, n: nat, a: nat)
    requires v + n <= |img| && |d| <= n * PGSIZE
    ensures ByteIn(Overlay(img, v, d, n), a)
            == if v * PGSIZE <= a < v * PGSIZE + |d| then d[a - v * PGSIZE] else ByteIn(img, a)
  {
    if v <= a / PGSIZE < v + n {
      PageOffset(v, a);
      OverlayInside(img, v, d, n, a / PGSIZE, a % PGSIZE);
    } else {
      NotBelow(v, n, a);
    }
  }

  lemma OverlayAligned(img: seq<Image>, v: nat, vaddr: nat, d: seq<byte>, n: nat, a: nat)
    requires v + n <= |img| && |d| <= n * PGSIZE && v * PGSIZE == vaddr
    ensures ByteIn(Overlay(img, v, d, n), a) == if vaddr <= a < vaddr + |d| then d[a - vaddr] else ByteIn(img, a)
  {
    OverlayBytes(img, v, d, n, a);
  }

  lemma PageSum(v: nat, n: nat)
    ensures PagesOf(v * PGSIZE + n) == v + PagesOf(n)
  {
  }

  /** The pages of a segment are within what `g` is extended to. */
  lemma SegmentRoom(g: Program, seg: Segment, g1: Program)
    requires seg.Load? && Fitting(seg) && |g.img| == PagesOf(g.sz)
    requires g1 == Extend(g, seg.vaddr + seg.memsz, seg.perm)
    ensures |g1.img| == PagesOf(g1.sz) && g1.sz >= g.sz && g1.sz >= seg.vaddr + seg.memsz
    ensures var v, n := seg.vaddr / PGSIZE, PagesOf(seg.filesz);
            v * PGSIZE == seg.vaddr && v + n <= |g1.img| && seg.filesz <= n * PGSIZE
  {
    PagesMonotone(g.sz, g1.sz);
    PageSum(seg.vaddr / PGSIZE, seg.filesz);
    PagesMonotone(seg.vaddr + seg.filesz, g1.sz);
  }

  /** A segment puts the bytes of the file at its address; of the rest nothing
      changes, and what is new is zero. */
  lemma SegmentBytes(g: Program, file: seq<byte>, seg: Segment, a: nat)
    requires seg.Load? && Fitting(seg) && AddSegment(g, file, seg).Some? && |g.img| == PagesOf(g.sz)
    ensures var g' := AddSegment(g, file, seg).value;
            && |g'.img| == PagesOf(g'.sz) && g'.sz >= g.sz && g'.sz >= seg.vaddr + seg.memsz
            && ByteIn(g'.img, a) == if Covers(seg, a) then DataOf(file, seg)[a - seg.vaddr] else ByteIn(g.img, a)
  {
    var g1 := Extend(g, seg.vaddr + seg.memsz, seg.perm);
    SegmentRoom(g, seg, g1);
    ExtendBytes(g, seg.vaddr + seg.memsz, seg.perm, a);
    OverlayAligned(g1.img, seg.vaddr / PGSIZE, seg.vaddr, DataOf(file, seg), PagesOf(seg.filesz), a);
  }

  /** Byte `a` after segment `seg`, when it was `b` before. */
  function After(file: seq<byte>, seg: Segment, a: nat, b: byte): byte {
    if Covers(seg, a) && Readable(file, seg) then DataOf(file, seg)[a - seg.vaddr] else b
  }

  /** Byte `a` after the segments from `i` on, when it was `b` before: the last
      segment that covers it decides. */
  function Final(file: seq<byte>, segs: seq<Segment>, i: nat, a: nat, b: byte): byte
    decreases |segs| - i
  {
    if i >= |segs| then b else Final(file, segs, i + 1, a, After(file, segs[i], a, b))
  }

  lemma LoadHeaderIs(g: Program, file: seq<byte>, seg: Segment)
    requires seg.Load? && AddHeader(g, file, seg).Some?
    ensures AddHeader(g, file, seg) == AddSegment(g, file, seg) && Fitting(seg) && Readable(file, seg)
  {
  }

  lemma HeaderBytes(g: Program, file: seq<byte>, seg: Segment, a: nat)
    requires AddHeader(g, file, seg).Some? && |g.img| == PagesOf(g.sz)
    ensures var g' := AddHeader(g, file, seg).value;
            |g'.img| == PagesOf(g'.sz) && ByteIn(g'.img, a) == After(file, seg, a, ByteIn(g.img, a))
  {
    if seg.Load? {
      LoadHeaderIs(g, file, seg);
      SegmentBytes(g, file, seg, a);
    }
  }

  lemma {:induction false} SegmentsBytes(g: Program, file: seq<byte>, segs: seq<Segment>, i: nat, a: nat)
    requires AddSegments(g, file, segs, i).Some? && |g.img| == PagesOf(g.sz)
    ensures var g' := AddSegments(g, file, segs, i).value;
            |g'.img| == PagesOf(g'.sz) && ByteIn(g'.img, a) == Final(file, segs, i, a, ByteIn(g.img, a))
    decreases |segs| - i
  {
    if i < |segs| {
      HeaderBytes(g, file, segs[i], a);
      SegmentsBytes(AddHeader(g, file, segs[i]).value, file, segs, i + 1, a);
    }
  }

  /** Every byte below the guard page is the byte of the last segment of the file
      that covers its address, and 0 if none does. */
  lemma DescribedBytes(file: seq<byte>, argv: seq<seq<byte>>, a: nat)
    requires ArgvOk(argv) && Described(file, argv).Some?
    ensures HeaderIn(file).Some? && |Described(file, argv).value.prog.img| >= 2
    ensures var img := Described(file, argv).value.prog.img;
            a / PGSIZE < |img| - 2 ==> ByteIn(img, a) == Final(file, SegmentsIn(file, HeaderIn(file).value), 0, a, 0)
  {
    SegmentsBytes(Program(0, []), file, SegmentsIn(file, HeaderIn(file).value), 0, a);
  }

  // ----- Permissions --------------------------------------------------------------------------

  /** The segment reaches page `p`. */
  predicate Reaches(seg: Segment, p: nat) { seg.Load? && p < PagesOf(seg.vaddr + seg.memsz) }

  /** The flags that page `p` gets from the first of the segments from `i` on that
      reaches it. */
  function FirstFlags(segs: seq<Segment>, i: nat, p: nat): nat
    decreases |segs| - i
  {
    if i >= |segs| then 0
    else if Reaches(segs[i], p) then PTE_R + PTE_U + segs[i].perm + PTE_V else FirstFlags(segs, i + 1, p)
  }

  lemma ExtendFlags(g: Program, newsz: nat, xperm: nat, p: nat)
    requires |g.img| == PagesOf(g.sz)
    ensures var g' := Extend(g, newsz, xperm);
            && |g'.img| == PagesOf(g'.sz) && |g.img| <= |g'.img|
            && (p < |g.img| ==> g'.img[p].flags == g.img[p].flags)
            && (p >= |g.img| ==> (p < |g'.img| <==> p < PagesOf(newsz)))
            && (|g.img| <= p < |g'.img| ==> g'.img[p].flags == PTE_R + PTE_U + xperm + PTE_V)
  {
    if newsz < g.sz { PagesMonotone(newsz, g.sz); } else { PagesMonotone(g.sz, newsz); }
  }

  lemma OverlayFlags(img: seq<Image>, v: nat, d: seq<byte>, n: nat, p: nat)
    requires p < |img|
    ensures Overlay(img, v, d, n)[p].flags == img[p].flags
  {
  }

  lemma HeaderFlags(g: Program, file: seq<byte>, seg: Segment, p: nat)
    requires AddHeader(g, file, seg).Some? && |g.img| == PagesOf(g.sz)
    ensures var g' := AddHeader(g, file, seg).value;
            && |g'.img| == PagesOf(g'.sz) && |g.img| <= |g'.img|
            && (p < |g.img| ==> g'.img[p].flags == g.img[p].flags)
            && (p >= |g.img| ==> (p < |g'.img| <==> Reaches(seg, p)))
            && (|g.img| <= p < |g'.img| ==> g'.img[p].flags == PTE_R + PTE_U + seg.perm + PTE_V)
  {
    if seg.Load? {
      LoadHeaderIs(g, file, seg);
      var g1 := Extend(g, seg.vaddr + seg.memsz, seg.perm);
      ExtendFlags(g, seg.vaddr + seg.memsz, seg.perm, p);
      if p < |g1.img| {
        OverlayFlags(g1.img, seg.vaddr / PGSIZE, DataOf(file, seg), PagesOf(seg.filesz), p);
      }
    }
  }

  lemma {:induction false} SegmentsFlags(g: Program, file: seq<byte>, segs: seq<Segment>, i: nat, p: nat)
    requires AddSegments(g, file, segs, i).Some? && |g.img| == PagesOf(g.sz)
    ensures var g' := AddSegments(g, file, segs, i).value;
            && |g'.img| == PagesOf(g'.sz) && |g.img| <= |g'.img|
            && (p < |g'.img| ==> g'.img[p].flags == if p < |g.img| then g.img[p].flags else FirstFlags(segs, i, p))
    decreases |segs| - i
  {
    if i < |segs| {
      HeaderFlags(g, file, segs[i], p);
      SegmentsFlags(AddHeader(g, file, segs[i]).value, file, segs, i + 1, p);
    }
  }

  /** Every page below the guard page has the permissions of the first segment
      that reaches it, whatever later segments over it ask for. */
  lemma DescribedFlags(file: seq<byte>, argv: seq<seq<byte>>, p: nat)
    requires ArgvOk(argv) && Described(file, argv).Some?
    ensures HeaderIn(file).Some? && |Described(file, argv).value.prog.img| >= 2
    ensures var img := Described(file, argv).value.prog.img;
            p < |img| - 2 ==> img[p].flags == FirstFlags(SegmentsIn(file, HeaderIn(file).value), 0, p)
  {
    SegmentsFlags(Program(0, []), file, SegmentsIn(file, HeaderIn(file).value), 0, p);
  }

  lemma StackAbove(g: Program, stack: Page)
    requires |g.img| == PagesOf(g.sz)
    ensures var r, n := AddStack(g, stack), |g.img|;
            && |r.img| == n + 2 && r.sz == (n + 2) * PGSIZE && StackBase(g.sz) == (n + 1) * PGSIZE
            && r.img[n].flags / 16 % 2 == 0 && r.img[n + 1].flags / 16 % 2 == 1 && r.img[n + 1].flags / 4 % 2 == 1
            && r.img[n + 1].data == stack
  {
  }

  /** Above it, the guard page is out of the user's reach, and on the stack page
      the program finds its arguments. */
  lemma DescribedStack(file: seq<byte>, argv: seq<seq<byte>>)
    requires ArgvOk(argv) && Described(file, argv).Some?
    ensures var r := Described(file, argv).value;
            var img, n := r.prog.img, |r.prog.img|;
            && 2 <= n && r.prog.sz == n * PGSIZE
            && img[n - 2].flags / 16 % 2 == 0 && img[n - 1].flags / 16 % 2 == 1 && img[n - 1].flags / 4 % 2 == 1
            && Sees(img[n - 1].data, (n - 1) * PGSIZE, r.sp, argv)
  {
    var segs := SegmentsIn(file, HeaderIn(file).value);
    SegmentsBytes(Program(0, []), file, segs, 0, 0);
    var g := AddSegments(Program(0, []), file, segs, 0).value;
    ArgumentsSeen(StackBase(g.sz), argv);
    StackAbove(g, Pushed(StackBase(g.sz), argv).value.page);
  }
}
