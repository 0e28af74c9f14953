/** kernel/elf.h: what `exec` reads in a program file. */
module Elf {
  import opened BlockFormat
  import opened Common
  import opened PageTable

  const ELF_MAGIC := 0x464C457F
  const ELF_PROG_LOAD := 1
  const HDRSIZE := 64                  // sizeof(struct elfhdr)
  const PHSIZE := 56                   // sizeof(struct proghdr)
  const UINT := 0x1_0000_0000
  const ULONG := 0x1_0000_0000_0000_0000

  function U16(d: seq<byte>, at: nat): (r: nat)
    requires at + 2 <= |d|
    ensures r < 0x1_0000
  {
    var b0: int, b1: int := d[at], d[at + 1];
    b0 + 0x100 * b1
  }

  function U32(d: seq<byte>, at: nat): (r: nat)
    requires at + 4 <= |d|
    ensures r < UINT
  {
    U16(d, at) + 0x1_0000 * U16(d, at + 2)
  }

  function U64(d: seq<byte>, at: nat): (r: nat)
    requires at + 8 <= |d|
    ensures r < ULONG
  {
    U32(d, at) + UINT * U32(d, at + 4)
  }

  datatype Header = Header(entry: nat, phoff: nat, phnum: nat)

  /** The file header in its first 64 bytes. */
  function HeaderOf(d: seq<byte>): Option<Header>
    requires |d| == HDRSIZE
  {
    if U32(d, 0) != ELF_MAGIC then None else Some(Header(U64(d, 24), U64(d, 32), U16(d, 56)))
  }

  function HeaderIn(file: seq<byte>): Option<Header> {
    if |file| < HDRSIZE then None else HeaderOf(file[..HDRSIZE])
  }

  datatype Segment =
    | Unreadable                         // the program header cannot be read
    | Other                              // not ELF_PROG_LOAD
    | Load(vaddr: nat, memsz: nat, filesz: nat, perm: nat, off: nat)

  /** Perhaps writable, perhaps executable. */
  predicate ExtraPerm(x: nat) { x == 0 || x == PTE_W || x == PTE_X || x == PTE_W + PTE_X }

  function FlagsToPerm(flags: nat): (x: nat)
    ensures ExtraPerm(x)
  {
    (if flags % 2 == 1 then PTE_X else 0) + if flags / 2 % 2 == 1 then PTE_W else 0
  }

  predicate SegmentOk(g: Segment) {
    g.Load? ==> g.vaddr < ULONG && g.memsz < ULONG && g.filesz < ULONG && ExtraPerm(g.perm)
  }

  /** A program header in its 56 bytes. */
  function SegmentOf(d: seq<byte>): (g: Segment)
    requires |d| == PHSIZE
    ensures SegmentOk(g) && !g.Unreadable?
  {
    if U32(d, 0) != ELF_PROG_LOAD then Other
    else Load(U64(d, 16), U64(d, 40), U64(d, 32), FlagsToPerm(U32(d, 4)), U64(d, 8))
  }

  /** Where `exec` looks for program header `i`: the offset is an `int`. */
  function HeaderPlace(h: Header, i: nat): nat { (h.phoff + PHSIZE * i) % UINT }

  function SegmentAt(file: seq<byte>, off: nat): (g: Segment)
    ensures SegmentOk(g)
  {
    if off + PHSIZE > |file| then Unreadable else SegmentOf(file[off..off + PHSIZE])
  }

  function SegmentsIn(file: seq<byte>, h: Header): seq<Segment> {
    seq(h.phnum, (i: nat) => SegmentAt(file, HeaderPlace(h, i)))
  }

  /** All the bytes of the segment are in the file. */
  predicate Readable(file: seq<byte>, g: Segment)
    requires g.Load?
  {
    g.filesz == 0 || g.off % UINT + g.filesz <= |file|
  }

  /** As many of them as there are. */
  function DataOf(file: seq<byte>, g: Segment): (d: seq<byte>)
    requires g.Load?
    ensures Readable(file, g) ==> |d| == g.filesz
  {
    var from := g.off % UINT;
    if g.filesz == 0 || |file| <= from then []
    else if from + g.filesz <= |file| then file[from..from + g.filesz] else file[from..]
  }
}
