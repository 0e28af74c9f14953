/** The arguments that `exec` pushes on the new stack, a page at `base`. */
module Arguments {
  import opened BlockFormat
  import opened Common
  import opened PageTable
  import opened Vm
  import opened PageBytes

  const MAXARG := 32

  /** The stack pointer, the contents of the stack page, and where the strings
      are that have been pushed. */
  datatype Args = Args(sp: nat, page: Page, ptrs: seq<nat>)

  /** The stack page is not the first page. */
  predicate BaseOk(base: nat) { base % 16 == 0 && PGSIZE <= base }

  predicate Inside(base: nat, a: Args) { base <= a.sp <= base + PGSIZE && a.sp % 16 == 0 }

  /** The test of `exec` is one too late for exactly MAXARG strings: `ustack` has
      no room for the null pointer then.  `sys_exec` does not pass as many. */
  predicate ArgvOk(argv: seq<seq<byte>>) { |argv| != MAXARG }

  /** The stack pointer after `n` bytes were pushed. */
  function Lowered(sp: nat, n: nat): (r: nat)
    requires n <= sp
    ensures r % 16 == 0 && r <= sp - n < r + 16
  {
    sp - n - (sp - n) % 16
  }

  /** A string and its NUL; None when they do not fit the page.  A stack pointer
      that wraps around is beyond every address, so that `copyout` fails. */
  function PushString(base: nat, a: Args, s: seq<byte>): (r: Option<Args>)
    requires Inside(base, a) && BaseOk(base)
    ensures r.Some? ==> Inside(base, r.value)
  {
    if a.sp < |s| + 1 then None
    else
      var sp := Lowered(a.sp, |s| + 1);
      if sp < base then None else Some(Args(sp, PutBytes(a.page, sp - base, s + [0], |s| + 1), a.ptrs + [sp]))
  }

  /** The first `n` strings. */
  function PushStrings(base: nat, argv: seq<seq<byte>>, n: nat): (r: Option<Args>)
    requires n <= |argv| && BaseOk(base)
    ensures r.Some? ==> Inside(base, r.value) && |r.value.ptrs| == n <= MAXARG
  {
    if n == 0 then Some(Args(base + PGSIZE, Fill(0), []))
    else
      var a := PushStrings(base, argv, n - 1);
      if a.None? || n > MAXARG then None else PushString(base, a.value, argv[n - 1])
  }

  /** Which word of the stack page is at `sp`. */
  function WordAt(base: nat, sp: nat): nat
    requires base <= sp
  {
    (sp - base) / 8
  }

  lemma ArrayFits(base: nat, sp: nat, n: nat)
    requires base <= sp && sp + 8 * n <= base + PGSIZE
    ensures WordAt(base, sp) + n <= NPTE
  {
  }

  /** The array of pointers to the strings, and a null pointer. */
  function PushPointers(base: nat, a: Args): (r: Option<Args>)
    requires Inside(base, a) && |a.ptrs| < MAXARG && BaseOk(base)
    ensures r.Some? ==> Inside(base, r.value)
  {
    var sp := Lowered(a.sp, 8 * (|a.ptrs| + 1));
    if sp < base then None
    else
      ArrayFits(base, sp, |a.ptrs| + 1);
      Some(Args(sp, PutWords(a.page, WordAt(base, sp), a.ptrs + [0]), a.ptrs))
  }

  function Pushed(base: nat, argv: seq<seq<byte>>): (r: Option<Args>)
    requires ArgvOk(argv) && BaseOk(base)
    ensures r.Some? ==> Inside(base, r.value)
  {
    var a := PushStrings(base, argv, |argv|);
    if a.None? then None else PushPointers(base, a.value)
  }

  // ----- What the program sees ------------------------------------------------------

  /** At address `x` of the stack there is the string `s`, ended by NUL. */
  predicate StringAt(page: Page, base: nat, x: nat, s: seq<byte>) {
    && base <= x && x + |s| < base + PGSIZE
    && (forall k :: 0 <= k < |s| ==> PageByte(page, x - base + k) == s[k])
    && PageByte(page, x - base + |s|) == 0
  }

  /** The strings that have been pushed are still there, above `sp`. */
  predicate Held(base: nat, argv: seq<seq<byte>>, n: nat, a: Args) {
    && n <= |argv| && |a.ptrs| == n
    && forall i :: 0 <= i < n ==> a.sp <= a.ptrs[i] && StringAt(a.page, base, a.ptrs[i], argv[i])
  }

  /** A store below a string leaves it alone. */
  lemma StringKept(page: Page, page': Page, base: nat, sp: nat, x: nat, s: seq<byte>)
    requires base <= sp <= x && StringAt(page, base, x, s)
    requires forall i :: sp - base <= i < PGSIZE ==> PageByte(page', i) == PageByte(page, i)
    ensures StringAt(page', base, x, s)
  {
    forall k | 0 <= k < |s| ensures PageByte(page', x - base + k) == s[k] {
      assert PageByte(page, x - base + k) == s[k];
    }
  }

  lemma StringPushed(base: nat, a: Args, s: seq<byte>)
    requires Inside(base, a) && BaseOk(base) && PushString(base, a, s).Some?
    ensures var b := PushString(base, a, s).value;
            && StringAt(b.page, base, b.sp, s)
            && forall i :: a.sp - base <= i < PGSIZE ==> PageByte(b.page, i) == PageByte(a.page, i)
  {
    var b := PushString(base, a, s).value;
    var at := b.sp - base;
    forall i | 0 <= i < PGSIZE
      ensures PageByte(b.page, i) == if at <= i < at + |s| + 1 then (s + [0])[i - at] else PageByte(a.page, i)
    {
      BytesPut(a.page, at, s + [0], |s| + 1, i);
    }
  }

  /** One more string, below the others. */
  lemma HeldMore(base: nat, argv: seq<seq<byte>>, n: nat, a: Args, b: Args)
    requires 0 < n <= |argv| && Held(base, argv, n - 1, a) && base <= b.sp <= a.sp && b.ptrs == a.ptrs + [b.sp]
    requires StringAt(b.page, base, b.sp, argv[n - 1])
    requires forall i :: a.sp - base <= i < PGSIZE ==> PageByte(b.page, i) == PageByte(a.page, i)
    ensures Held(base, argv, n, b)
  {
    forall i | 0 <= i < n ensures b.sp <= b.ptrs[i] && StringAt(b.page, base, b.ptrs[i], argv[i]) {
      if i < n - 1 { StringKept(a.page, b.page, base, a.sp, a.ptrs[i], argv[i]); }
    }
  }

  lemma {:induction false} StringsHeld(base: nat, argv: seq<seq<byte>>, n: nat)
    requires n <= |argv| && BaseOk(base) && PushStrings(base, argv, n).Some?
    ensures Held(base, argv, n, PushStrings(base, argv, n).value)
  {
    if n > 0 {
      StringsHeld(base, argv, n - 1);
      var a, b := PushStrings(base, argv, n - 1).value, PushStrings(base, argv, n).value;
      StringPushed(base, a, argv[n - 1]);
      HeldMore(base, argv, n, a, b);
    }
  }

  /** Entry `i` of the array of pointers at `sp`. */
  function Pointer(page: Page, base: nat, sp: nat, i: nat): nat {
    if base <= sp && WordAt(base, sp) + i < NPTE then page[WordAt(base, sp) + i] else 0
  }

  /** `main(argc, argv)` with `argv` at `sp` sees exactly the strings. */
  predicate Sees(page: Page, base: nat, sp: nat, argv: seq<seq<byte>>) {
    && base <= sp && sp + 8 * (|argv| + 1) <= base + PGSIZE && sp % 16 == 0
    && (forall i :: 0 <= i < |argv| ==> StringAt(page, base, Pointer(page, base, sp, i), argv[i]))
    && Pointer(page, base, sp, |argv|) == 0
  }

  lemma EighthOf(x: nat, k: nat)
    requires x == 8 * k
    ensures x / 8 == k
  {
  }

  lemma Aligned(base: nat, sp: nat)
    requires base % 16 == 0 && sp % 16 == 0 && base <= sp
    ensures 8 * WordAt(base, sp) == sp - base
  {
    EighthOf(sp - base, 2 * (sp / 16 - base / 16));
  }

  lemma PointersPushed(base: nat, a: Args)
    requires Inside(base, a) && |a.ptrs| < MAXARG && BaseOk(base) && PushPointers(base, a).Some?
    ensures var b := PushPointers(base, a).value;
            && b.sp + 8 * (|a.ptrs| + 1) <= a.sp
            && (forall i :: 0 <= i < |a.ptrs| ==> Pointer(b.page, base, b.sp, i) == a.ptrs[i])
            && Pointer(b.page, base, b.sp, |a.ptrs|) == 0
            && forall i :: a.sp - base <= i < PGSIZE ==> PageByte(b.page, i) == PageByte(a.page, i)
  {
    var b := PushPointers(base, a).value;
    var j, ws := WordAt(base, b.sp), a.ptrs + [0];
    Aligned(base, b.sp);
    forall i | a.sp - base <= i < PGSIZE ensures PageByte(b.page, i) == PageByte(a.page, i) {
      WordsPut(a.page, j, ws, i);
    }
  }

  lemma SeesPushed(base: nat, argv: seq<seq<byte>>, a: Args)
    requires BaseOk(base) && |argv| < MAXARG && Inside(base, a) && Held(base, argv, |argv|, a)
    requires PushPointers(base, a).Some?
    ensures var b := PushPointers(base, a).value; Sees(b.page, base, b.sp, argv)
  {
    var b := PushPointers(base, a).value;
    PointersPushed(base, a);
    forall i | 0 <= i < |argv| ensures StringAt(b.page, base, Pointer(b.page, base, b.sp, i), argv[i]) {
      StringKept(a.page, b.page, base, a.sp, a.ptrs[i], argv[i]);
    }
  }

  /** However many strings of whatever lengths: if they fit, the program finds
      the array of pointers at a stack pointer that is a multiple of 16, and
      through it every string intact. */
  lemma ArgumentsSeen(base: nat, argv: seq<seq<byte>>)
    requires ArgvOk(argv) && BaseOk(base) && Pushed(base, argv).Some?
    ensures var a := Pushed(base, argv).value; Sees(a.page, base, a.sp, argv)
  {
    StringsHeld(base, argv, |argv|);
    SeesPushed(base, argv, PushStrings(base, argv, |argv|).value);
  }

  // ----- When they fit ----------------------------------------------------------------

  function Up16(n: nat): (r: nat)
    ensures r % 16 == 0 && n <= r < n + 16
  {
    (n + 15) / 16 * 16
  }

  /** The bytes that the first `n` strings take. */
  function StringRoom(argv: seq<seq<byte>>, n: nat): nat
    requires n <= |argv|
  {
    if n == 0 then 0 else StringRoom(argv, n - 1) + Up16(|argv[n - 1]| + 1)
  }

  lemma LoweredBy(sp: nat, n: nat)
    requires n <= sp && sp % 16 == 0
    ensures Lowered(sp, n) == sp - Up16(n)
  {
  }

  lemma {:induction false} StringsFit(base: nat, argv: seq<seq<byte>>, n: nat)
    requires n <= |argv| && BaseOk(base)
    ensures PushStrings(base, argv, n).Some? <==> n <= MAXARG && StringRoom(argv, n) <= PGSIZE
    ensures PushStrings(base, argv, n).Some? ==>
              PushStrings(base, argv, n).value.sp == base + PGSIZE - StringRoom(argv, n)
  {
    if n > 0 {
      StringsFit(base, argv, n - 1);
      var a := PushStrings(base, argv, n - 1);
      if a.Some? && |argv[n - 1]| < a.value.sp { LoweredBy(a.value.sp, |argv[n - 1]| + 1); }
    }
  }

  /** They fit if and only if there are not too many and the page has room for
      the strings and the array, each rounded up to 16 bytes. */
  lemma ArgumentsFit(base: nat, argv: seq<seq<byte>>)
    requires ArgvOk(argv) && BaseOk(base)
    ensures Pushed(base, argv).Some? <==>
              |argv| < MAXARG && StringRoom(argv, |argv|) + Up16(8 * (|argv| + 1)) <= PGSIZE
  {
    StringsFit(base, argv, |argv|);
    var a := PushStrings(base, argv, |argv|);
    if a.Some? { LoweredBy(a.value.sp, 8 * (|argv| + 1)); }
  }
}
