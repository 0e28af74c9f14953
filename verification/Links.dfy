/** Link counts and directory entries: sys_link, sys_unlink and create of
    kernel/sysfile.c, dirlookup, dirlink and iput of kernel/fs.c.  A method is
    what a process does while it holds the locks it needs, so any order of calls
    is an interleaving of system calls. */
module Links {
  datatype Kind = Unused | Dir | File | Device

  /** A slot of a directory; inum 0 means empty. */
  datatype Entry = Entry(name: string, inum: nat)

  datatype Inode = Inode(kind: Kind, nlink: int, entries: seq<Entry>)

  predicate IsDot(name: string) { name == "." || name == ".." }

  /** Slot `k` of directory `d` holds an entry other than "." and "..". */
  predicate Holds(ino: seq<Inode>, d: nat, k: nat) {
    && d < |ino| && ino[d].kind == Dir && k < |ino[d].entries|
    && ino[d].entries[k].inum != 0 && !IsDot(ino[d].entries[k].name)
  }

  /** The slots that name inode `i`. */
  function NamedBy(ino: seq<Inode>, i: nat): set<(nat, nat)> {
    set d, k | 0 <= d < |ino| && 0 <= k < |ino[d].entries| && Holds(ino, d, k) && ino[d].entries[k].inum == i :: (d, k)
  }

  predicate IsDir(ino: seq<Inode>, i: nat) { i < |ino| && ino[i].kind == Dir }

  /** The slots of directory `d` that name directories, whose ".." is `d`. */
  function Subdirs(ino: seq<Inode>, d: nat): set<nat>
    requires d < |ino|
  {
    set k | 0 <= k < |ino[d].entries| && Holds(ino, d, k) && IsDir(ino, ino[d].entries[k].inum)
  }

  /** Links that are counted while a system call is about to make or has just
      removed the entry for them are `credit`. */
  predicate CountOk(ino: seq<Inode>, credit: seq<nat>, i: nat)
    requires i < |ino| == |credit|
  {
    ino[i].nlink >= |NamedBy(ino, i)| + |Subdirs(ino, i)| + credit[i]
  }

  /** What a slot of a directory may hold: the first two are "." and "..", and
      the others name inodes in use. */
  predicate SlotOk(ino: seq<Inode>, d: nat, k: nat)
    requires d < |ino| && k < |ino[d].entries|
  {
    var e := ino[d].entries[k];
    if k == 0 then e.name == "." && e.inum != 0
    else if k == 1 then e.name == ".." && e.inum != 0
    else e.inum != 0 ==> !IsDot(e.name) && e.inum < |ino| && ino[e.inum].kind != Unused
  }

  predicate InodeOk(ino: seq<Inode>, d: nat)
    requires d < |ino|
  {
    && (ino[d].kind == Dir ==> |ino[d].entries| >= 2)
    && (ino[d].kind != Dir ==> ino[d].entries == [])
    && forall k :: 0 <= k < |ino[d].entries| ==> SlotOk(ino, d, k)
  }

  /** No used slot has that name. */
  predicate Absent(es: seq<Entry>, name: string) {
    forall j :: 0 <= j < |es| && es[j].inum != 0 ==> es[j].name != name
  }

  /** No two used slots of a directory have the same name. */
  predicate NamesDiffer(es: seq<Entry>) {
    forall j, k :: 0 <= j < k < |es| && es[j].inum != 0 && es[k].inum != 0 ==> es[j].name != es[k].name
  }

  /** Whoever answers for a link refers to the inode, and inodes that are
      referred to are in use. */
  predicate CreditOk(ino: seq<Inode>, ref: seq<nat>, credit: seq<nat>, i: nat)
    requires i < |ino| == |ref| == |credit|
  {
    credit[i] <= ref[i] && (ref[i] > 0 ==> ino[i].kind != Unused)
  }

  predicate LinksOk(ino: seq<Inode>, ref: seq<nat>, credit: seq<nat>) {
    && |ino| == |ref| == |credit|
    && (forall i :: 0 <= i < |ino| ==> CountOk(ino, credit, i))
    && (forall d :: 0 <= d < |ino| ==> InodeOk(ino, d))
    && (forall i :: 0 <= i < |ino| ==> CreditOk(ino, ref, credit, i))
    && (forall d :: 0 <= d < |ino| ==> NamesDiffer(ino[d].entries))
  }

  // ----- One slot changes -----------------------------------------------------------------------

  function PutSlot(es: seq<Entry>, k: nat, e: Entry): seq<Entry>
    requires k <= |es|
  {
    if k < |es| then es[k := e] else es + [e]
  }

  function Put(ino: seq<Inode>, d: nat, k: nat, e: Entry): seq<Inode>
    requires d < |ino| && k <= |ino[d].entries|
  {
    ino[d := ino[d].(entries := PutSlot(ino[d].entries, k, e))]
  }

  /** Slot `k` is empty, or the one after the last. */
  predicate Empty(es: seq<Entry>, k: nat) { k <= |es| && (k < |es| ==> es[k].inum == 0) }

  /** An entry appears in an empty slot, or at the end. */
  lemma PutNamed(ino: seq<Inode>, d: nat, k: nat, e: Entry, i: nat)
    requires IsDir(ino, d) && Empty(ino[d].entries, k) && e.inum != 0 && !IsDot(e.name)
    ensures NamedBy(Put(ino, d, k, e), i) == NamedBy(ino, i) + if e.inum == i then {(d, k)} else {}
    ensures (d, k) !in NamedBy(ino, i)
  {
    var ino' := Put(ino, d, k, e);
    forall a, b | (a, b) in NamedBy(ino', i) ensures (a, b) in NamedBy(ino, i) + if e.inum == i then {(d, k)} else {} {
      assert Holds(ino', a, b);
      if (a, b) != (d, k) { assert Holds(ino, a, b); }
    }
    forall a, b | (a, b) in NamedBy(ino, i) ensures (a, b) in NamedBy(ino', i) {
      assert Holds(ino, a, b) && Holds(ino', a, b);
    }
    if e.inum == i { assert Holds(ino', d, k); }
  }

  lemma PutSubdirs(ino: seq<Inode>, d: nat, k: nat, e: Entry, i: nat)
    requires IsDir(ino, d) && Empty(ino[d].entries, k) && e.inum != 0 && !IsDot(e.name)
    requires i < |ino|
    ensures Subdirs(Put(ino, d, k, e), i) == Subdirs(ino, i) + if i == d && IsDir(ino, e.inum) then {k} else {}
    ensures i == d ==> k !in Subdirs(ino, i)
  {
    var ino' := Put(ino, d, k, e);
    forall b | b in Subdirs(ino', i) ensures b in Subdirs(ino, i) + if i == d && IsDir(ino, e.inum) then {k} else {} {
      assert Holds(ino', i, b);
      if (i, b) != (d, k) { assert Holds(ino, i, b); }
    }
    forall b | b in Subdirs(ino, i) ensures b in Subdirs(ino', i) {
      assert Holds(ino, i, b) && Holds(ino', i, b);
    }
    if i == d && IsDir(ino, e.inum) { assert Holds(ino', d, k); }
  }

  /** An entry goes away. */
  lemma ClearNamed(ino: seq<Inode>, d: nat, k: nat, i: nat)
    requires Holds(ino, d, k)
    ensures NamedBy(Put(ino, d, k, Entry("", 0)), i) == NamedBy(ino, i) - {(d, k)}
    ensures (d, k) in NamedBy(ino, i) <==> ino[d].entries[k].inum == i
  {
    var ino' := Put(ino, d, k, Entry("", 0));
    forall a, b | (a, b) in NamedBy(ino', i) ensures (a, b) in NamedBy(ino, i) - {(d, k)} {
      assert Holds(ino', a, b) && (a, b) != (d, k) && Holds(ino, a, b);
    }
    forall a, b | (a, b) in NamedBy(ino, i) && (a, b) != (d, k) ensures (a, b) in NamedBy(ino', i) {
      assert Holds(ino, a, b) && Holds(ino', a, b);
    }
  }

  lemma ClearSubdirs(ino: seq<Inode>, d: nat, k: nat, i: nat)
    requires Holds(ino, d, k) && i < |ino|
    ensures Subdirs(Put(ino, d, k, Entry("", 0)), i) == Subdirs(ino, i) - if i == d then {k} else {}
    ensures k in Subdirs(ino, d) <==> IsDir(ino, ino[d].entries[k].inum)
  {
    var ino' := Put(ino, d, k, Entry("", 0));
    forall b | b in Subdirs(ino', i) ensures b in Subdirs(ino, i) - if i == d then {k} else {} {
      assert Holds(ino', i, b) && (i, b) != (d, k) && Holds(ino, i, b);
    }
    forall b | b in Subdirs(ino, i) && !(i == d && b == k) ensures b in Subdirs(ino', i) {
      assert Holds(ino, i, b) && Holds(ino', i, b);
    }
  }

  /** Counts and kinds aside, the entries are what matters. */
  lemma SameEntries(ino: seq<Inode>, ino': seq<Inode>, i: nat)
    requires |ino'| == |ino| && i < |ino|
    requires forall d :: 0 <= d < |ino| ==> ino'[d].kind == ino[d].kind && ino'[d].entries == ino[d].entries
    ensures NamedBy(ino', i) == NamedBy(ino, i) && Subdirs(ino', i) == Subdirs(ino, i)
  {
    forall d: nat, k: nat ensures Holds(ino', d, k) == Holds(ino, d, k) {}
  }

  // ----- Steps ------------------------------------------------------------------------------------

  /** Count a link, or stop counting it, without an entry. */
  lemma CountEffect(ino: seq<Inode>, ref: seq<nat>, credit: seq<nat>, i: nat, n: int)
    requires LinksOk(ino, ref, credit) && i < |ino| && ino[i].kind != Unused && 0 <= credit[i] + n <= ref[i]
    ensures LinksOk(ino[i := ino[i].(nlink := ino[i].nlink + n)], ref, credit[i := credit[i] + n])
  {
    var ino', credit' := ino[i := ino[i].(nlink := ino[i].nlink + n)], credit[i := credit[i] + n];
    forall j | 0 <= j < |ino| ensures CountOk(ino', credit', j) {
      assert CountOk(ino, credit, j);
      SameEntries(ino, ino', j);
    }
    forall d | 0 <= d < |ino| ensures InodeOk(ino', d) {
      assert InodeOk(ino, d);
      forall k | 0 <= k < |ino'[d].entries| ensures SlotOk(ino', d, k) { assert SlotOk(ino, d, k); }
    }
    forall j | 0 <= j < |ino| ensures CreditOk(ino', ref, credit', j) { assert CreditOk(ino, ref, credit, j); }
  }

  /** The entry for a counted link appears; a directory is counted in its parent
      as well. */
  function Linked(ino: seq<Inode>, d: nat, k: nat, e: Entry): seq<Inode>
    requires d < |ino| && k <= |ino[d].entries|
  {
    var ino' := Put(ino, d, k, e);
    if IsDir(ino, e.inum) then ino'[d := ino'[d].(nlink := ino'[d].nlink + 1)] else ino'
  }

  predicate FreeSlot(ino: seq<Inode>, d: nat, k: nat) {
    IsDir(ino, d) && 2 <= k && Empty(ino[d].entries, k)
  }

  lemma AddOne<T>(s: set<T>, x: T)
    ensures x !in s ==> |s + {x}| == |s| + 1
    ensures s + {} == s
  {
  }

  lemma PutCounts(ino: seq<Inode>, d: nat, k: nat, e: Entry, j: nat)
    requires FreeSlot(ino, d, k) && e.inum != 0 && !IsDot(e.name) && j < |ino|
    ensures |NamedBy(Put(ino, d, k, e), j)| == |NamedBy(ino, j)| + if e.inum == j then 1 else 0
    ensures |Subdirs(Put(ino, d, k, e), j)| == |Subdirs(ino, j)| + if j == d && IsDir(ino, e.inum) then 1 else 0
  {
    PutNamed(ino, d, k, e, j);
    PutSubdirs(ino, d, k, e, j);
    AddOne(NamedBy(ino, j), (d, k));
    AddOne(Subdirs(ino, j), k);
  }

  lemma LinkCount(ino: seq<Inode>, credit: seq<nat>, d: nat, k: nat, e: Entry, j: nat)
    requires |ino| == |credit| && FreeSlot(ino, d, k) && 0 < e.inum < |ino| && !IsDot(e.name) && credit[e.inum] > 0
    requires j < |ino| && CountOk(ino, credit, j)
    ensures CountOk(Linked(ino, d, k, e), credit[e.inum := credit[e.inum] - 1], j)
  {
    PutCounts(ino, d, k, e, j);
    SameEntries(Put(ino, d, k, e), Linked(ino, d, k, e), j);
  }

  lemma LinkEffect(ino: seq<Inode>, ref: seq<nat>, credit: seq<nat>, d: nat, k: nat, e: Entry)
    requires LinksOk(ino, ref, credit) && FreeSlot(ino, d, k) && 0 < e.inum < |ino| && credit[e.inum] > 0
    requires !IsDot(e.name) && Absent(ino[d].entries, e.name)
    ensures LinksOk(Linked(ino, d, k, e), ref, credit[e.inum := credit[e.inum] - 1])
  {
    var i := e.inum;
    var ino', credit' := Linked(ino, d, k, e), credit[i := credit[i] - 1];
    assert CreditOk(ino, ref, credit, i);
    forall j | 0 <= j < |ino| ensures CountOk(ino', credit', j) {
      assert CountOk(ino, credit, j);
      LinkCount(ino, credit, d, k, e, j);
    }
    forall a | 0 <= a < |ino| ensures InodeOk(ino', a) {
      assert InodeOk(ino, a);
      forall b | 0 <= b < |ino'[a].entries| ensures SlotOk(ino', a, b) {
        if b < |ino[a].entries| { assert SlotOk(ino, a, b); }
      }
    }
    forall j | 0 <= j < |ino| ensures CreditOk(ino', ref, credit', j) { assert CreditOk(ino, ref, credit, j); }
  }

  function Unlinked(ino: seq<Inode>, d: nat, k: nat): seq<Inode>
    requires d < |ino| && k < |ino[d].entries|
  {
    var ino' := Put(ino, d, k, Entry("", 0));
    if IsDir(ino, ino[d].entries[k].inum) then ino'[d := ino'[d].(nlink := ino'[d].nlink - 1)] else ino'
  }

  lemma UnlinkCount(ino: seq<Inode>, credit: seq<nat>, d: nat, k: nat, j: nat)
    requires |ino| == |credit|
    requires Holds(ino, d, k) && ino[d].entries[k].inum < |ino| && j < |ino| && CountOk(ino, credit, j)
    ensures var i := ino[d].entries[k].inum; CountOk(Unlinked(ino, d, k), credit[i := credit[i] + 1], j)
  {
    ClearNamed(ino, d, k, j);
    ClearSubdirs(ino, d, k, j);
    SameEntries(Put(ino, d, k, Entry("", 0)), Unlinked(ino, d, k), j);
  }

  /** The entry goes; its link is still counted. */
  lemma UnlinkEffect(ino: seq<Inode>, ref: seq<nat>, credit: seq<nat>, d: nat, k: nat)
    requires LinksOk(ino, ref, credit) && Holds(ino, d, k)
    requires ino[d].entries[k].inum < |ino| && credit[ino[d].entries[k].inum] < ref[ino[d].entries[k].inum]
    ensures var i := ino[d].entries[k].inum; LinksOk(Unlinked(ino, d, k), ref, credit[i := credit[i] + 1])
  {
    var i := ino[d].entries[k].inum;
    var ino', credit' := Unlinked(ino, d, k), credit[i := credit[i] + 1];
    forall j | 0 <= j < |ino| ensures CountOk(ino', credit', j) {
      assert CountOk(ino, credit, j);
      UnlinkCount(ino, credit, d, k, j);
    }
    forall a | 0 <= a < |ino| ensures InodeOk(ino', a) {
      assert InodeOk(ino, a);
      forall b | 0 <= b < |ino'[a].entries| ensures SlotOk(ino', a, b) { assert SlotOk(ino, a, b); }
    }
    forall j | 0 <= j < |ino| ensures CreditOk(ino', ref, credit', j) { assert CreditOk(ino, ref, credit, j); }
  }

  /** What an entry names has a link, so "unlink: nlink < 1" cannot happen. */
  lemma NamedHasLink(ino: seq<Inode>, ref: seq<nat>, credit: seq<nat>, d: nat, k: nat)
    requires LinksOk(ino, ref, credit) && Holds(ino, d, k)
    ensures var i := ino[d].entries[k].inum; 0 < i < |ino| && ino[i].nlink >= 1 && ino[i].kind != Unused
  {
    var i := ino[d].entries[k].inum;
    assert InodeOk(ino, d) && SlotOk(ino, d, k);
    assert CountOk(ino, credit, i) && (d, k) in NamedBy(ino, i);
  }

  /** Nothing names an inode without links, so freeing it leaves no entry that
      names a free inode. */
  lemma NoLinksNoNames(ino: seq<Inode>, ref: seq<nat>, credit: seq<nat>, i: nat)
    requires LinksOk(ino, ref, credit) && i < |ino| && ino[i].nlink <= 0
    ensures NamedBy(ino, i) == {} && Subdirs(ino, i) == {} && credit[i] == 0
  {
    assert CountOk(ino, credit, i);
  }

  function Freed(ino: seq<Inode>, i: nat): seq<Inode>
    requires i < |ino|
  {
    ino[i := Inode(Unused, ino[i].nlink, [])]
  }

  lemma {:induction false} Subset<T>(a: set<T>, b: set<T>)
    requires a <= b
    ensures |a| <= |b|
  {
    if a != {} {
      var x :| x in a;
      Subset(a - {x}, b - {x});
    }
  }

  lemma FewerEntries(ino: seq<Inode>, i: nat, j: nat)
    requires i < |ino| && j < |ino|
    ensures |NamedBy(Freed(ino, i), j)| <= |NamedBy(ino, j)| && |Subdirs(Freed(ino, i), j)| <= |Subdirs(ino, j)|
  {
    var ino' := Freed(ino, i);
    forall d, k | (d, k) in NamedBy(ino', j)
      ensures (d, k) in NamedBy(ino, j)
    {
      assert Holds(ino', d, k) && Holds(ino, d, k);
    }
    forall k | k in Subdirs(ino', j) ensures k in Subdirs(ino, j) { assert Holds(ino', j, k) && Holds(ino, j, k); }
    Subset(NamedBy(ino', j), NamedBy(ino, j));
    Subset(Subdirs(ino', j), Subdirs(ino, j));
  }

  lemma FreeEffect(ino: seq<Inode>, ref: seq<nat>, credit: seq<nat>, i: nat)
    requires LinksOk(ino, ref, credit) && i < |ino| && ino[i].nlink == 0 && ref[i] == 1
    ensures LinksOk(Freed(ino, i), ref[i := 0], credit)
  {
    NoLinksNoNames(ino, ref, credit, i);
    var ino', ref' := Freed(ino, i), ref[i := 0];
    forall j | 0 <= j < |ino| ensures CountOk(ino', credit, j) {
      assert CountOk(ino, credit, j);
      FewerEntries(ino, i, j);
    }
    forall a | 0 <= a < |ino| ensures InodeOk(ino', a) {
      assert InodeOk(ino, a);
      forall b | 0 <= b < |ino'[a].entries| ensures SlotOk(ino', a, b) {
        assert SlotOk(ino, a, b);
        assert (a, b) !in NamedBy(ino, i);
      }
    }
    forall j | 0 <= j < |ino| ensures CreditOk(ino', ref', credit, j) { assert CreditOk(ino, ref, credit, j); }
  }

  /** A new inode, with a link that has no entry yet. */
  function Fresh(kind: Kind, i: nat, parent: nat): Inode {
    Inode(kind, 1, if kind == Dir then [Entry(".", i), Entry("..", parent)] else [])
  }

  lemma AllocEffect(ino: seq<Inode>, ref: seq<nat>, credit: seq<nat>, i: nat, kind: Kind, parent: nat)
    requires LinksOk(ino, ref, credit) && 0 < i < |ino| && ino[i].kind == Unused && kind != Unused && parent != 0
    ensures LinksOk(ino[i := Fresh(kind, i, parent)], ref[i := 1], credit[i := 1])
  {
    assert CreditOk(ino, ref, credit, i) && InodeOk(ino, i);
    var ino', ref', credit' := ino[i := Fresh(kind, i, parent)], ref[i := 1], credit[i := 1];
    forall d: nat, k: nat ensures Holds(ino', d, k) == Holds(ino, d, k) {}
    forall d: nat, k: nat | Holds(ino, d, k)
      ensures ino[d].entries[k].inum != i
    {
      assert InodeOk(ino, d) && SlotOk(ino, d, k);
    }
    forall j | 0 <= j < |ino| ensures CountOk(ino', credit', j) {
      assert CountOk(ino, credit, j);
      assert NamedBy(ino', j) == NamedBy(ino, j) && Subdirs(ino', j) == Subdirs(ino, j);
      if j == i { assert NamedBy(ino, i) == {} && Subdirs(ino, i) == {}; }
    }
    forall a | 0 <= a < |ino| ensures InodeOk(ino', a) {
      assert InodeOk(ino, a);
      forall b | 0 <= b < |ino'[a].entries| ensures SlotOk(ino', a, b) {
        if a != i { assert SlotOk(ino, a, b); }
      }
    }
    forall j | 0 <= j < |ino| ensures CreditOk(ino', ref', credit', j) { assert CreditOk(ino, ref, credit, j); }
  }

  lemma RefEffect(ino: seq<Inode>, ref: seq<nat>, credit: seq<nat>, i: nat, n: nat)
    requires LinksOk(ino, ref, credit) && i < |ino| && ino[i].kind != Unused && credit[i] <= n
    ensures LinksOk(ino, ref[i := n], credit)
  {
    var ref' := ref[i := n];
    forall j | 0 <= j < |ino| ensures CreditOk(ino, ref', credit, j) { assert CreditOk(ino, ref, credit, j); }
  }

  /** While somebody refers to an inode its kind does not change. */
  predicate KindsKept(ino: seq<Inode>, ref: seq<nat>, ino': seq<Inode>, ref': seq<nat>) {
    && |ino'| == |ino| == |ref| == |ref'|
    && forall i :: 0 <= i < |ino| && ref[i] > 0 && ref'[i] > 0 ==> ino'[i].kind == ino[i].kind
  }

  predicate HasEmpty(es: seq<Entry>) { exists j :: 0 <= j < |es| && es[j].inum == 0 }

  function Counted(ino: seq<Inode>, i: nat): seq<Inode>
    requires i < |ino|
  {
    ino[i := ino[i].(nlink := ino[i].nlink + 1)]
  }

  /** Inodes in use are as they were. */
  predicate SameUsed(ino: seq<Inode>, ino': seq<Inode>) {
    |ino'| == |ino| && forall j :: 0 <= j < |ino| && ino[j].kind != Unused ==> ino'[j] == ino[j]
  }

  /** The contents of a free inode do not matter. */
  lemma UnusedEffect(ino: seq<Inode>, ref: seq<nat>, credit: seq<nat>, i: nat)
    requires LinksOk(ino, ref, credit) && i < |ino| && ino[i].kind == Unused && credit[i] == 0
    ensures LinksOk(ino[i := Inode(Unused, 0, [])], ref, credit)
  {
    var ino' := ino[i := Inode(Unused, 0, [])];
    assert InodeOk(ino, i);
    forall d: nat, k: nat ensures Holds(ino', d, k) == Holds(ino, d, k) {}
    forall d: nat, k: nat | Holds(ino, d, k) ensures ino[d].entries[k].inum != i {
      assert InodeOk(ino, d) && SlotOk(ino, d, k);
    }
    forall j | 0 <= j < |ino| ensures CountOk(ino', credit, j) {
      assert CountOk(ino, credit, j);
      assert NamedBy(ino', j) == NamedBy(ino, j) && Subdirs(ino', j) == Subdirs(ino, j);
      if j == i { assert NamedBy(ino, i) == {} && Subdirs(ino, i) == {}; }
    }
    forall a | 0 <= a < |ino| ensures InodeOk(ino', a) {
      assert InodeOk(ino, a);
      forall b | 0 <= b < |ino'[a].entries| ensures SlotOk(ino', a, b) { assert SlotOk(ino, a, b); }
    }
    forall j | 0 <= j < |ino| ensures CreditOk(ino', ref, credit, j) { assert CreditOk(ino, ref, credit, j); }
  }

  /** Nothing but "." and "..". */
  predicate NoEntries(es: seq<Entry>) {
    forall k :: 2 <= k < |es| ==> es[k].inum == 0
  }

  /** What `sys_unlink` leaves when slot `k` of `d` named an inode to which there
      are `refs` other references: the slot is empty, a directory is no longer
      counted in its parent, and the inode has a link less, or is free. */
  function Removed(ino: seq<Inode>, d: nat, k: nat, refs: nat): seq<Inode>
    requires d < |ino| && k < |ino[d].entries| && ino[d].entries[k].inum < |ino|
  {
    var i := ino[d].entries[k].inum;
    var dir := ino[d].(entries := ino[d].entries[k := Entry("", 0)],
                       nlink := ino[d].nlink - if ino[i].kind == Dir then 1 else 0);
    var gone := refs == 0 && ino[i].nlink == 1;
    ino[d := dir][i := if gone then Inode(Unused, 0, []) else ino[i].(nlink := ino[i].nlink - 1)]
  }

  /** Slot `k` of `d` has come to name `i`; no other inode has a name more or less. */
  ghost predicate OneNameMore(ino: seq<Inode>, ino': seq<Inode>, i: nat, d: nat, k: nat) {
    && (d, k) !in NamedBy(ino, i) && NamedBy(ino', i) == NamedBy(ino, i) + {(d, k)}
    && forall j: nat :: j != i ==> NamedBy(ino', j) == NamedBy(ino, j)
  }

  /** Slot `k` of `d` no longer names `i`; no other inode has a name more or less. */
  ghost predicate OneNameLess(ino: seq<Inode>, ino': seq<Inode>, i: nat, d: nat, k: nat) {
    && (d, k) in NamedBy(ino, i) && NamedBy(ino', i) == NamedBy(ino, i) - {(d, k)}
    && forall j: nat :: j != i ==> NamedBy(ino', j) == NamedBy(ino, j)
  }

  lemma LinkedNames(ino: seq<Inode>, i: nat, d: nat, k: nat, name: string)
    requires 0 < i < |ino| && FreeSlot(ino, d, k) && !IsDot(name)
    ensures OneNameMore(ino, Put(Counted(ino, i), d, k, Entry(name, i)), i, d, k)
  {
    var ino1 := Counted(ino, i);
    forall a: nat, b: nat ensures Holds(ino1, a, b) == Holds(ino, a, b) {}
    forall j: nat ensures NamedBy(ino1, j) == NamedBy(ino, j) {}
    forall j: nat
      ensures NamedBy(Put(ino1, d, k, Entry(name, i)), j) == NamedBy(ino1, j) + if i == j then {(d, k)} else {}
    {
      PutNamed(ino1, d, k, Entry(name, i), j);
    }
    PutNamed(ino1, d, k, Entry(name, i), i);
  }

  /** After `sys_unlink` the slot is gone from the names of the inode, and nothing
      in the directory has that name. */
  lemma RemovedNames(ino: seq<Inode>, ref: seq<nat>, credit: seq<nat>, d: nat, k: nat, refs: nat)
    requires LinksOk(ino, ref, credit)
    requires Holds(ino, d, k) && ino[d].entries[k].inum < |ino| && ino[d].entries[k].inum != d
    requires var i := ino[d].entries[k].inum; ino[i].kind == Dir ==> NoEntries(ino[i].entries)
    ensures var ino' := Removed(ino, d, k, refs);
            OneNameLess(ino, ino', ino[d].entries[k].inum, d, k) && Absent(ino'[d].entries, ino[d].entries[k].name)
  {
    var i, ino' := ino[d].entries[k].inum, Removed(ino, d, k, refs);
    assert InodeOk(ino, i) && InodeOk(ino, d) && NamesDiffer(ino[d].entries);
    forall b: nat ensures !Holds(ino, i, b) && !Holds(ino', i, b) {
      if b < |ino[i].entries| { assert SlotOk(ino, i, b); }
    }
    forall a: nat, b: nat | (a, b) != (d, k) ensures Holds(ino', a, b) == Holds(ino, a, b) {}
    assert !Holds(ino', d, k);
    forall j: nat ensures NamedBy(ino', j) == NamedBy(ino, j) - {(d, k)} {}
  }

  class LinkTable {
    var ino: seq<Inode>
    var ref: seq<nat>                  // references to in-memory inodes
    ghost var credit: seq<nat>

    ghost predicate Valid()
      reads this
    {
      LinksOk(ino, ref, credit)
    }

    /** The file system that mkfs makes, with an empty root directory. */
    constructor (n: nat)
      requires n >= 2
      ensures Valid() && |ino| == n && ino[1] == Fresh(Dir, 1, 1)
      ensures forall i :: 0 <= i < n ==> ref[i] == 0 && (i != 1 ==> ino[i].kind == Unused)
    {
      ino := seq(n, i => if i == 1 then Fresh(Dir, 1, 1) else Inode(Unused, 0, []));
      ref := seq(n, _ => 0);
      credit := seq(n, _ => 0);
      new;
      forall d: nat, k: nat ensures !Holds(ino, d, k) {}
      forall i | 0 <= i < n ensures CountOk(ino, credit, i) {
        assert NamedBy(ino, i) == {} && Subdirs(ino, i) == {};
      }
    }

    /** The slot with that name, or the number of slots. */
    method DirLookup(d: nat, name: string) returns (k: nat)
      requires IsDir(ino, d)
      ensures k <= |ino[d].entries|
      ensures k < |ino[d].entries| ==> ino[d].entries[k].inum != 0 && ino[d].entries[k].name == name
      ensures k == |ino[d].entries| <==> Absent(ino[d].entries, name)
    {
      k := 0;
      while k < |ino[d].entries|
        invariant 0 <= k <= |ino[d].entries|
        invariant forall j :: 0 <= j < k && ino[d].entries[j].inum != 0 ==> ino[d].entries[j].name != name
      {
        if ino[d].entries[k].inum != 0 && ino[d].entries[k].name == name {
          return;
        }
        k := k + 1;
      }
    }

    /** Write an entry into the first empty slot, or after the last if there is
        `room` on the disk.  Never a second entry of that name. */
    method DirLink(d: nat, name: string, i: nat, room: bool) returns (ok: bool, k: nat)
      requires IsDir(ino, d)
      modifies this`ino
      ensures ok <==> Absent(old(ino)[d].entries, name)
                      && (room || HasEmpty(old(ino)[d].entries))
      ensures !ok ==> ino == old(ino)
      ensures ok ==> Empty(old(ino)[d].entries, k) && ino == Put(old(ino), d, k, Entry(name, i))
      ensures ok ==> forall j :: 0 <= j < k ==> old(ino)[d].entries[j].inum != 0
    {
      k := DirLookup(d, name);
      if k < |ino[d].entries| {
        return false, k;
      }
      k := 0;
      while k < |ino[d].entries| && ino[d].entries[k].inum != 0
        invariant 0 <= k <= |ino[d].entries| && forall j :: 0 <= j < k ==> ino[d].entries[j].inum != 0
      {
        k := k + 1;
      }
      if k == |ino[d].entries| && !room {
        return false, k;
      }
      ino := Put(ino, d, k, Entry(name, i));
      return true, k;
    }

    /** Nothing but "." and ".."? */
    method IsDirEmpty(d: nat) returns (r: bool)
      requires IsDir(ino, d) && InodeOk(ino, d)
      ensures r <==> NoEntries(ino[d].entries)
    {
      var k := 2;
      while k < |ino[d].entries|
        invariant 2 <= k <= |ino[d].entries| && forall j :: 2 <= j < k ==> ino[d].entries[j].inum == 0
      {
        if ino[d].entries[k].inum != 0 {
          return false;
        }
        k := k + 1;
      }
      return true;
    }

    /** A new reference to an inode in use, as dirlookup or idup gives. */
    method Iget(i: nat)
      requires Valid() && i < |ino| && ino[i].kind != Unused
      modifies this`ref
      ensures Valid() && ref == old(ref)[i := old(ref)[i] + 1]
    {
      assert CreditOk(ino, ref, credit, i);
      RefEffect(ino, ref, credit, i, ref[i] + 1);
      ref := ref[i := ref[i] + 1];
    }

    /** Give up a reference.  The inode is freed only if nothing names it. */
    method Iput(i: nat, valid: bool)
      requires Valid() && i < |ino| && credit[i] < ref[i]
      modifies this`ino, this`ref
      ensures Valid() && ref == old(ref)[i := old(ref)[i] - 1] && KindsKept(old(ino), old(ref), ino, ref)
      ensures if old(ref)[i] == 1 && valid && old(ino)[i].nlink == 0
              then ino == Freed(old(ino), i) && NamedBy(old(ino), i) == {} else ino == old(ino)
    {
      if ref[i] == 1 && valid && ino[i].nlink == 0 {
        NoLinksNoNames(ino, ref, credit, i);
        FreeEffect(ino, ref, credit, i);
        ino := Freed(ino, i);
        ref := ref[i := 0];
      } else {
        assert CreditOk(ino, ref, credit, i);
        RefEffect(ino, ref, credit, i, ref[i] - 1);
        ref := ref[i := ref[i] - 1];
      }
    }

    /** The first part of sys_link: count the link, unless it is a directory. */
    method LinkBegin(i: nat) returns (ok: bool)
      requires Valid() && i < |ino| && credit[i] < ref[i]
      modifies this`ino, this`credit
      ensures Valid() && (ok <==> old(ino)[i].kind != Dir) && KindsKept(old(ino), ref, ino, ref)
      ensures !ok ==> ino == old(ino) && credit == old(credit)
      ensures ok ==> ino == Counted(old(ino), i) && credit == old(credit)[i := old(credit)[i] + 1]
    {
      if ino[i].kind == Dir {
        return false;
      }
      assert CreditOk(ino, ref, credit, i);
      CountEffect(ino, ref, credit, i, 1);
      ino := ino[i := ino[i].(nlink := ino[i].nlink + 1)];
      credit := credit[i := credit[i] + 1];
      return true;
    }

    /** The second part: the entry for the link that was counted. */
    method LinkEntry(d: nat, name: string, i: nat, room: bool) returns (ok: bool, ghost k: nat)
      requires Valid() && IsDir(ino, d) && 0 < i < |ino| && credit[i] > 0 && ino[i].kind != Dir
      modifies this`ino, this`credit
      ensures Valid() && KindsKept(old(ino), ref, ino, ref)
      ensures ok <==> Absent(old(ino)[d].entries, name) && (room || HasEmpty(old(ino)[d].entries))
      ensures !ok ==> ino == old(ino) && credit == old(credit)
      ensures ok ==> credit == old(credit)[i := old(credit)[i] - 1]
      ensures ok ==> !IsDot(name) && FreeSlot(old(ino), d, k) && ino == Put(old(ino), d, k, Entry(name, i))
    {
      assert InodeOk(ino, d) && SlotOk(ino, d, 0) && SlotOk(ino, d, 1);
      ok, k := DirLink(d, name, i, room);
      if ok {
        LinkEffect(old(ino), ref, credit, d, k, Entry(name, i));
        credit := credit[i := credit[i] - 1];
      }
    }

    /** `ip->nlink--` of a link that has no entry: the error path of sys_link, and
        the end of sys_unlink. */
    method DropLink(i: nat)
      requires Valid() && i < |ino| && credit[i] > 0
      modifies this`ino, this`credit
      ensures Valid() && old(ino)[i].nlink >= 1 && credit == old(credit)[i := old(credit)[i] - 1]
      ensures ino == old(ino)[i := old(ino)[i].(nlink := old(ino)[i].nlink - 1)]
    {
      assert CreditOk(ino, ref, credit, i) && CountOk(ino, credit, i);
      CountEffect(ino, ref, credit, i, -1);
      ino := ino[i := ino[i].(nlink := ino[i].nlink - 1)];
      credit := credit[i := credit[i] - 1];
    }

    /** The checks of sys_unlink: the slot of an entry that may go.  Not "." and
        "..", nor a directory with entries. */
    method FindEntry(d: nat, name: string) returns (ok: bool, i: nat, k: nat)
      requires Valid() && IsDir(ino, d)
      ensures !ok ==> IsDot(name) || Absent(ino[d].entries, name)
                      || (IsDir(ino, i) && !NoEntries(ino[i].entries) && Entry(name, i) in ino[d].entries)
      ensures ok ==> !IsDot(name) && Holds(ino, d, k) && ino[d].entries[k] == Entry(name, i) && i != d
      ensures ok ==> i < |ino| && ino[i].kind != Unused && ino[i].nlink >= 1
      ensures ok && IsDir(ino, i) ==> NoEntries(ino[i].entries)
    {
      i, k := 0, 0;
      if IsDot(name) {
        return false, i, k;
      }
      k := DirLookup(d, name);
      if k == |ino[d].entries| {
        return false, i, k;
      }
      NamedHasLink(ino, ref, credit, d, k);
      assert InodeOk(ino, d) && SlotOk(ino, d, k);
      i := ino[d].entries[k].inum;
      if ino[i].kind == Dir {
        assert InodeOk(ino, i);
        ok := IsDirEmpty(i);
        return ok, i, k;
      }
      return true, i, k;
    }

    /** The entry goes; its link is still counted. */
    method DropEntry(d: nat, k: nat, i: nat)
      requires Valid() && Holds(ino, d, k) && ino[d].entries[k].inum == i < |ino| && credit[i] < ref[i]
      modifies this`ino, this`credit
      ensures Valid() && credit == old(credit)[i := old(credit)[i] + 1] && ino == Unlinked(old(ino), d, k)
      ensures KindsKept(old(ino), ref, ino, ref)
    {
      UnlinkEffect(ino, ref, credit, d, k);
      var isDir := ino[i].kind == Dir;
      ino := Put(ino, d, k, Entry("", 0));
      if isDir {
        ino := ino[d := ino[d].(nlink := ino[d].nlink - 1)];
      }
      credit := credit[i := credit[i] + 1];
    }

    /** sys_unlink up to the end of its work on the directory: the entry goes.
        Not for "." and "..", nor for a directory with entries. */
    method UnlinkEntry(d: nat, name: string) returns (ok: bool, i: nat, ghost slot: nat)
      requires Valid() && IsDir(ino, d)
      modifies this`ino, this`ref, this`credit
      ensures Valid() && KindsKept(old(ino), old(ref), ino, ref)
      ensures !ok ==> ino == old(ino) && ref == old(ref) && credit == old(credit)
      ensures !ok ==> IsDot(name) || Absent(ino[d].entries, name)
                      || (IsDir(ino, i) && !NoEntries(ino[i].entries) && Entry(name, i) in ino[d].entries)
      ensures ok ==> !IsDot(name) && i < |ino| && i != d && old(ino)[i].nlink >= 1
      ensures ok ==> ref == old(ref)[i := old(ref)[i] + 1] && credit == old(credit)[i := old(credit)[i] + 1]
      ensures ok && IsDir(old(ino), i) ==> NoEntries(old(ino)[i].entries)
      ensures ok ==> Holds(old(ino), d, slot) && old(ino)[d].entries[slot] == Entry(name, i)
                     && ino == Unlinked(old(ino), d, slot)
    {
      var k;
      ok, i, k := FindEntry(d, name);
      slot := k;
      if ok {
        assert CreditOk(ino, ref, credit, i);
        Iget(i);
        DropEntry(d, k, i);
      }
    }

    /** A free inode, or the number of inodes. */
    method FindUnused() returns (i: nat)
      requires |ino| > 0
      ensures 0 < i <= |ino| && (i < |ino| ==> ino[i].kind == Unused)
      ensures forall j :: 1 <= j < i ==> ino[j].kind != Unused
    {
      i := 1;
      while i < |ino|
        invariant 1 <= i <= |ino| && forall j :: 1 <= j < i ==> ino[j].kind != Unused
      {
        if ino[i].kind == Unused {
          return;
        }
        i := i + 1;
      }
    }

    /** The entries "." and ".." of a new directory; `room` says whether the disk
        has room for them. */
    method DotEntries(i: nat, d: nat, room: bool) returns (ok: bool)
      requires i < |ino| && ino[i] == Inode(Dir, 1, []) && i != 0 && d != 0
      modifies this`ino
      ensures ok == room
      ensures if ok then ino == old(ino)[i := Fresh(Dir, i, d)] else ino == old(ino)
    {
      var k;
      ok, k := DirLink(i, ".", i, room);
      if ok {
        ok, k := DirLink(i, "..", d, true);           // in the same block
        assert ino[i].entries == [Entry(".", i), Entry("..", d)];
        assert ino == old(ino)[i := Fresh(Dir, i, d)];
      }
    }

    /** The `fail` exit of `create`: the new inode, which only the caller refers
        to, loses its link and is freed. */
    method Uncreate(i: nat, ghost was: seq<Inode>)
      requires |ino| == |ref| == |credit| == |was| && 0 < i < |ino| && was[i].kind == Unused
      requires ino[i].kind != Unused && ino == was[i := ino[i]]
      requires ref[i] == 1 && credit[i] == 1 && LinksOk(was, ref[i := 0], credit[i := 0])
      modifies this`ino, this`ref, this`credit
      ensures Valid() && ref == old(ref)[i := 0] && credit == old(credit)[i := 0]
      ensures ino == was[i := Inode(Unused, 0, [])]
    {
      ino := ino[i := ino[i].(nlink := 0)];
      ino := Freed(ino, i);
      ref, credit := ref[i := 0], credit[i := 0];
      assert ino == was[i := Inode(Unused, 0, [])];
      UnusedEffect(was, ref, credit, i);
    }

    /** The entry of the new inode `i` in `d`; for a directory also the link that
        its ".." is. */
    method Enter(d: nat, name: string, i: nat, room: bool) returns (ok: bool, k: nat)
      requires Valid() && IsDir(ino, d) && 0 < i < |ino| && i != d && credit[i] == 1
      modifies this`ino, this`credit
      ensures ok <==> Absent(old(ino)[d].entries, name) && (room || HasEmpty(old(ino)[d].entries))
      ensures !ok ==> ino == old(ino) && credit == old(credit)
      ensures ok ==> Valid() && credit == old(credit)[i := 0] && FreeSlot(old(ino), d, k)
      ensures ok ==> ino == Linked(old(ino), d, k, Entry(name, i))
    {
      assert InodeOk(ino, d) && SlotOk(ino, d, 0) && SlotOk(ino, d, 1);
      ok, k := DirLink(d, name, i, room);
      if ok {
        LinkEffect(old(ino), ref, credit, d, k, Entry(name, i));
        if ino[i].kind == Dir {
          ino := ino[d := ino[d].(nlink := ino[d].nlink + 1)];
        }
        credit := credit[i := 0];
      }
    }

    /** The free inode `i` with one link, which only the caller counts, and the
        slots of a new directory if there is room for them. */
    method NewInode(d: nat, i: nat, kind: Kind, room: bool) returns (ok: bool)
      requires Valid() && d != 0 && 0 < i < |ino| && ino[i].kind == Unused && kind != Unused
      requires ref[i] == 0 && credit[i] == 0
      modifies this`ino, this`ref, this`credit
      ensures ref == old(ref)[i := 1] && credit == old(credit)[i := 1]
      ensures ref[i := 0] == old(ref) && credit[i := 0] == old(credit)
      ensures ok ==> Valid() && ino == old(ino)[i := Fresh(kind, i, d)]
      ensures !ok ==> |ino| == |old(ino)| && ino == old(ino)[i := ino[i]] && ino[i].kind != Unused
    {
      AllocEffect(ino, ref, credit, i, kind, d);
      ino := ino[i := Inode(kind, 1, [])];
      ref, credit := ref[i := 1], credit[i := 1];
      ok := true;
      if kind == Dir {
        ok := DotEntries(i, d, room);
      }
      assert ok ==> ino == old(ino)[i := Fresh(kind, i, d)];
    }

    /** The middle of `create`: a new inode with its entry in `d`, or, when the
        disk is full, nothing.  `roomNew` and `room` say whether the disk has
        room for the slots of the new directory and for the entry. */
    method CreateNew(d: nat, name: string, kind: Kind, room: bool, roomNew: bool)
      returns (ok: bool, i: nat, ghost slot: nat)
      requires Valid() && d != 0 && IsDir(ino, d) && kind != Unused && ref[d] > 0
      modifies this`ino, this`ref, this`credit
      ensures Valid() && KindsKept(old(ino), old(ref), ino, ref) && credit == old(credit)
      ensures ok ==> 0 < i < |ino| && old(ino)[i].kind == Unused && ref == old(ref)[i := 1] && i != d
      ensures ok ==> FreeSlot(old(ino), d, slot) && Absent(old(ino)[d].entries, name)
                     && ino == Linked(old(ino)[i := Fresh(kind, i, d)], d, slot, Entry(name, i))
      ensures !ok ==> ref == old(ref) && SameUsed(old(ino), ino)
    {
      slot := 0;
      i := FindUnused();
      if i == |ino| {
        return false, i, 0;
      }
      assert CreditOk(ino, ref, credit, i) && CreditOk(ino, ref, credit, d);
      ok := NewInode(d, i, kind, roomNew);
      if ok {
        ok, slot := Enter(d, name, i, room);
      }
      if !ok {
        Uncreate(i, old(ino));
      }
    }

    /** `create`: an existing file of that name, or a new inode; otherwise nothing
        that was in use has changed. */
    method Create(d: nat, name: string, kind: Kind, room: bool, roomNew: bool) returns (ok: bool, i: nat)
      requires Valid() && d != 0 && IsDir(ino, d) && kind != Unused && ref[d] > 0
      modifies this`ino, this`ref, this`credit
      ensures Valid() && KindsKept(old(ino), old(ref), ino, ref) && credit == old(credit)
      ensures ok ==> i < |ino| && ref == old(ref)[i := old(ref)[i] + 1]
      ensures ok && old(ino)[i].kind != Unused ==>
                ino == old(ino) && kind == File && (ino[i].kind == File || ino[i].kind == Device)
      ensures ok && old(ino)[i].kind == Unused ==>
                ino[i] == Fresh(kind, i, d) && Absent(old(ino)[d].entries, name)
                && forall j :: 0 <= j < |ino| && j != i && j != d ==> ino[j] == old(ino)[j]
      ensures ok ==> Entry(name, i) in ino[d].entries
      ensures !ok ==> ref == old(ref) && SameUsed(old(ino), ino)
    {
      var k := DirLookup(d, name);
      if k < |ino[d].entries| {
        i := ino[d].entries[k].inum;
        assert InodeOk(ino, d) && SlotOk(ino, d, k);
        if k >= 2 && kind == File && (ino[i].kind == File || ino[i].kind == Device) {
          Iget(i);
          return true, i;
        }
        return false, i;
      }
      ghost var slot;
      ok, i, slot := CreateNew(d, name, kind, room, roomNew);
      if ok {
        assert CreditOk(old(ino), old(ref), old(credit), i);
        assert ino[d].entries[slot] == Entry(name, i);
      }
    }

    /** sys_link without interruption, on the inode `i` that it refers to: a link
        and its entry, or nothing; the reference is given up. */
    method SysLink(i: nat, d: nat, name: string, room: bool) returns (ok: bool, ghost slot: nat)
      requires Valid() && 0 < i < |ino| && credit[i] < ref[i] && IsDir(ino, d)
      modifies this`ino, this`ref, this`credit
      ensures Valid() && credit == old(credit) && ref == old(ref)[i := old(ref)[i] - 1]
      ensures ok <==> old(ino)[i].kind != Dir && Absent(old(ino)[d].entries, name)
                      && (room || HasEmpty(old(ino)[d].entries))
      ensures !ok ==> ino == if old(ref)[i] == 1 && old(ino)[i].nlink == 0 then Freed(old(ino), i) else old(ino)
      ensures ok ==> FreeSlot(old(ino), d, slot) && i != d
                     && ino == Put(Counted(old(ino), i), d, slot, Entry(name, i))
      ensures ok ==> OneNameMore(old(ino), ino, i, d, slot)
    {
      slot := 0;
      ok := LinkBegin(i);
      if ok {
        ok, slot := LinkEntry(d, name, i, room);
        if ok {
          LinkedNames(old(ino), i, d, slot, name);
          assert CountOk(old(ino), old(credit), i);
        } else {
          DropLink(i);
          assert ino == old(ino);
        }
      }
      assert credit == old(credit);
      Iput(i, true);
    }

    /** sys_unlink without interruption: the entry and its link go, and with the
        last link and reference the inode; nothing else changes. */
    method SysUnlink(d: nat, name: string) returns (ok: bool, i: nat, ghost slot: nat)
      requires Valid() && IsDir(ino, d)
      modifies this`ino, this`ref, this`credit
      ensures Valid() && credit == old(credit) && ref == old(ref)
      ensures !ok ==> ino == old(ino)
      ensures !ok ==> IsDot(name) || Absent(ino[d].entries, name)
                      || (IsDir(ino, i) && !NoEntries(ino[i].entries) && Entry(name, i) in ino[d].entries)
      ensures ok ==> Holds(old(ino), d, slot) && old(ino)[d].entries[slot] == Entry(name, i) && i < |ino| && i != d
      ensures ok ==> old(ino)[i].nlink >= 1 && ino == Removed(old(ino), d, slot, ref[i])
      ensures ok ==> Absent(ino[d].entries, name) && OneNameLess(old(ino), ino, i, d, slot)
    {
      ok, i, slot := UnlinkEntry(d, name);
      if !ok {
        return;
      }
      assert CreditOk(old(ino), old(ref), old(credit), i);
      DropLink(i);
      Iput(i, true);
      assert ino == Removed(old(ino), d, slot, ref[i]);
      RemovedNames(old(ino), old(ref), old(credit), d, slot, ref[i]);
    }
  }
}
