/** The bytes of a physical page, whose words the page tables are made of. */
module PageBytes {
  import opened BlockFormat
  import opened PageTable
  import opened Vm

  /** Byte `k` of the little-endian word `w`. */
  function ByteOf(w: nat, k: nat): byte {
    if k == 0 then w % 256 else ByteOf(w / 256, k - 1)
  }

  function PutByte(w: nat, k: nat, b: byte): nat {
    if k == 0 then w / 256 * 256 + b else 256 * PutByte(w / 256, k - 1, b) + w % 256
  }

  /** A stored byte is read back and no other byte changes. */
  lemma {:induction false} ByteOfPutByte(w: nat, k: nat, b: byte, j: nat)
    ensures ByteOf(PutByte(w, k, b), j) == if j == k then b else ByteOf(w, j)
  {
    var y := PutByte(w, k, b);
    if k > 0 {
      assert y / 256 == PutByte(w / 256, k - 1, b);
      if j > 0 { ByteOfPutByte(w / 256, k - 1, b, j - 1); }
    } else {
      assert y / 256 == w / 256;
    }
  }

  lemma {:induction false} ZeroBytes(k: nat)
    ensures ByteOf(0, k) == 0
  {
    if k > 0 { ZeroBytes(k - 1); }
  }

  function PageByte(p: Page, i: nat): byte
    requires i < PGSIZE
  {
    ByteOf(p[i / 8], i % 8)
  }

  function PutPageByte(p: Page, i: nat, b: byte): Page
    requires i < PGSIZE
  {
    p[i / 8 := PutByte(p[i / 8], i % 8, b)]
  }

  lemma PageByteOfPut(p: Page, i: nat, b: byte, j: nat)
    requires i < PGSIZE && j < PGSIZE
    ensures PageByte(PutPageByte(p, i, b), j) == if j == i then b else PageByte(p, j)
  {
    ByteOfPutByte(p[i / 8], i % 8, b, j % 8);
  }

  /** `memmove` of the first `n` bytes of `d` to byte `at` of a page. */
  function PutBytes(p: Page, at: nat, d: seq<byte>, n: nat): Page
    requires n <= |d| && at + n <= PGSIZE
  {
    if n == 0 then p else PutPageByte(PutBytes(p, at, d, n - 1), at + n - 1, d[n - 1])
  }

  /** What was moved there is there, and the rest of the page is as it was. */
  lemma {:induction false} BytesPut(p: Page, at: nat, d: seq<byte>, n: nat, i: nat)
    requires n <= |d| && at + n <= PGSIZE && i < PGSIZE
    ensures PageByte(PutBytes(p, at, d, n), i) == if at <= i < at + n then d[i - at] else PageByte(p, i)
  {
    if n > 0 {
      BytesPut(p, at, d, n - 1, i);
      PageByteOfPut(PutBytes(p, at, d, n - 1), at + n - 1, d[n - 1], i);
    }
  }

  /** `memmove` of words to word `j` of a page. */
  function PutWords(p: Page, j: nat, ws: seq<nat>): Page
    requires j + |ws| <= NPTE
  {
    p[..j] + ws + p[j + |ws|..]
  }

  lemma WordsPut(p: Page, j: nat, ws: seq<nat>, i: nat)
    requires j + |ws| <= NPTE && i < PGSIZE && !(8 * j <= i < 8 * (j + |ws|))
    ensures PageByte(PutWords(p, j, ws), i) == PageByte(p, i)
  {
    assert i / 8 < j || j + |ws| <= i / 8;
  }
}
