/** The doubly linked list of buffers of kernel/bio.c, by index: buffer i is i,
    the list head is HEAD. */
module BufferList {
  const NBUF := 30
  const HEAD := NBUF

  /** A cycle through HEAD and all the buffers; `pos` is its inverse. */
  predicate IsCycle(cyc: seq<nat>, pos: seq<nat>) {
    && |cyc| == |pos| == NBUF + 1 && cyc[0] == HEAD
    && (forall k :: 0 <= k <= NBUF ==> cyc[k] <= NBUF && pos[cyc[k]] == k)
    && (forall x :: 0 <= x <= NBUF ==> pos[x] <= NBUF && cyc[pos[x]] == x)
  }

  function After(k: nat): nat { if k >= NBUF then 0 else k + 1 }
  function Before(k: nat): nat { if k == 0 then NBUF else k - 1 }

  predicate Follows(next: seq<nat>, prev: seq<nat>, cyc: seq<nat>, pos: seq<nat>, x: nat) {
    && |next| == |prev| == |cyc| == |pos| == NBUF + 1 && x <= NBUF && pos[x] <= NBUF
    && next[x] == cyc[After(pos[x])] && prev[x] == cyc[Before(pos[x])]
  }

  /** The pointers follow the cycle, forwards and backwards. */
  predicate Linked(next: seq<nat>, prev: seq<nat>, cyc: seq<nat>, pos: seq<nat>) {
    && |next| == |prev| == NBUF + 1 && IsCycle(cyc, pos)
    && (forall x :: 0 <= x <= NBUF ==> Follows(next, prev, cyc, pos, x))
  }

  /** The two pointers of an element are inverse to each other. */
  lemma Inverse(next: seq<nat>, prev: seq<nat>, cyc: seq<nat>, pos: seq<nat>, x: nat)
    requires Linked(next, prev, cyc, pos) && x <= NBUF
    ensures next[x] <= NBUF && prev[x] <= NBUF && prev[next[x]] == x && next[prev[x]] == x
  {
    var y, z := next[x], prev[x];
    assert Follows(next, prev, cyc, pos, x);
    assert Follows(next, prev, cyc, pos, y) && Follows(next, prev, cyc, pos, z);
    assert pos[y] == After(pos[x]) && pos[z] == Before(pos[x]);
    assert Before(After(pos[x])) == pos[x] && After(Before(pos[x])) == pos[x];
  }

  /** Element `x` moves to the front; those before it move back by one. */
  function Moved(cyc: seq<nat>, k: nat): seq<nat>
    requires |cyc| == NBUF + 1 && 0 < k <= NBUF
  {
    seq(NBUF + 1, (j: nat) requires j <= NBUF => if j == 1 then cyc[k] else if 1 < j <= k then cyc[j - 1] else cyc[j])
  }

  function MovedPos(pos: seq<nat>, x: nat): seq<nat>
    requires |pos| == NBUF + 1 && x < NBUF
  {
    seq(NBUF + 1, (y: nat) requires y <= NBUF =>
      if y == x then 1 else if 0 < pos[y] < pos[x] then pos[y] + 1 else pos[y])
  }

  lemma MovedIsCycle(cyc: seq<nat>, pos: seq<nat>, x: nat)
    requires IsCycle(cyc, pos) && x < NBUF
    ensures 0 < pos[x] <= NBUF && IsCycle(Moved(cyc, pos[x]), MovedPos(pos, x))
  {
    assert pos[HEAD] == 0 by { assert cyc[0] == HEAD; }
    assert cyc[pos[x]] == x;
    var k, cyc', pos' := pos[x], Moved(cyc, pos[x]), MovedPos(pos, x);
    forall j | 0 <= j <= NBUF ensures cyc'[j] <= NBUF && pos'[cyc'[j]] == j {
      assert pos[cyc[j]] == j;
      if 1 < j <= k { assert pos[cyc[j - 1]] == j - 1; }
    }
    forall y | 0 <= y <= NBUF ensures pos'[y] <= NBUF && cyc'[pos'[y]] == y {
      assert cyc[pos[y]] == y;
    }
  }

  /** Take `x` out of the list and put it after the head. */
  function Unlinked(next: seq<nat>, prev: seq<nat>, x: nat): (seq<nat>, seq<nat>)
    requires |next| == |prev| == NBUF + 1 && x < NBUF && next[x] <= NBUF && prev[x] <= NBUF
  {
    (next[prev[x] := next[x]], prev[next[x] := prev[x]])
  }

  function Relinked(next: seq<nat>, prev: seq<nat>, x: nat): (seq<nat>, seq<nat>)
    requires |next| == |prev| == NBUF + 1 && x < NBUF && next[HEAD] <= NBUF
  {
    var n, p := next[x := next[HEAD]], prev[x := HEAD];
    var p' := p[n[HEAD] := x];
    (n[HEAD := x], p')
  }

  /** After being taken out, the neighbours of `x` are each other's. */
  lemma UnlinkedLinks(next: seq<nat>, prev: seq<nat>, cyc: seq<nat>, pos: seq<nat>, x: nat, y: nat)
    requires Linked(next, prev, cyc, pos) && x < NBUF && y <= NBUF && y != x
    ensures next[x] <= NBUF && prev[x] <= NBUF
    ensures Unlinked(next, prev, x).0[y] == (if After(pos[y]) == pos[x] then next[x] else next[y])
    ensures Unlinked(next, prev, x).1[y] == (if Before(pos[y]) == pos[x] then prev[x] else prev[y])
  {
    Inverse(next, prev, cyc, pos, x);
    Inverse(next, prev, cyc, pos, y);
    assert Follows(next, prev, cyc, pos, y);
    assert next[y] == x <==> After(pos[y]) == pos[x];
    assert prev[y] == x <==> Before(pos[y]) == pos[x];
  }

  /** The first element once `x` is out. */
  function First(cyc: seq<nat>, pos: seq<nat>, x: nat): nat
    requires IsCycle(cyc, pos) && x < NBUF
  {
    if pos[x] == 1 then cyc[2] else cyc[1]
  }

  lemma FirstOut(next: seq<nat>, prev: seq<nat>, cyc: seq<nat>, pos: seq<nat>, x: nat)
    requires Linked(next, prev, cyc, pos) && x < NBUF
    ensures next[x] <= NBUF && prev[x] <= NBUF && Unlinked(next, prev, x).0[HEAD] == First(cyc, pos, x)
    ensures First(cyc, pos, x) != x && First(cyc, pos, x) <= NBUF
  {
    assert pos[HEAD] == 0 by { assert cyc[0] == HEAD; }
    UnlinkedLinks(next, prev, cyc, pos, x, HEAD);
    assert Follows(next, prev, cyc, pos, x) && Follows(next, prev, cyc, pos, HEAD);
    assert pos[cyc[1]] == 1 && pos[cyc[2]] == 2 && cyc[pos[x]] == x;
  }

  lemma RelinkedLinks(next: seq<nat>, prev: seq<nat>, x: nat, y: nat, first: nat)
    requires |next| == |prev| == NBUF + 1 && x < NBUF && y <= NBUF && next[HEAD] == first != x && first <= NBUF
    ensures var r := Relinked(next, prev, x);
            && r.0[y] == (if y == HEAD then x else if y == x then first else next[y])
            && r.1[y] == (if y == x then HEAD else if y == first then x else prev[y])
  {
  }

  lemma MovedNext(cyc: seq<nat>, pos: seq<nat>, x: nat, y: nat)
    requires IsCycle(cyc, pos) && x < NBUF && y <= NBUF && 0 < pos[x]
    ensures var cyc', pos' := Moved(cyc, pos[x]), MovedPos(pos, x);
            pos'[y] <= NBUF &&
            cyc'[After(pos'[y])] == if y == HEAD then x else if y == x then First(cyc, pos, x)
                                    else if After(pos[y]) == pos[x] then cyc[After(pos[x])] else cyc[After(pos[y])]
  {
    assert cyc[pos[y]] == y && cyc[pos[x]] == x;
    assert pos[HEAD] == 0 by { assert cyc[0] == HEAD; }
  }

  lemma MovedPrev(cyc: seq<nat>, pos: seq<nat>, x: nat, y: nat)
    requires IsCycle(cyc, pos) && x < NBUF && y <= NBUF && 0 < pos[x]
    ensures var cyc', pos' := Moved(cyc, pos[x]), MovedPos(pos, x);
            pos'[y] <= NBUF &&
            cyc'[Before(pos'[y])] == if y == x then HEAD else if y == First(cyc, pos, x) then x
                                     else if Before(pos[y]) == pos[x] then cyc[Before(pos[x])] else cyc[Before(pos[y])]
  {
    assert cyc[pos[y]] == y && cyc[pos[x]] == x;
    assert pos[HEAD] == 0 by { assert cyc[0] == HEAD; }
    assert pos[cyc[1]] == 1 && pos[cyc[2]] == 2;
  }

  lemma MovedAt(next: seq<nat>, prev: seq<nat>, cyc: seq<nat>, pos: seq<nat>, x: nat, y: nat)
    requires Linked(next, prev, cyc, pos) && x < NBUF && y <= NBUF && 0 < pos[x]
    ensures next[x] <= NBUF && prev[x] <= NBUF && Unlinked(next, prev, x).0[HEAD] <= NBUF
    ensures var u := Unlinked(next, prev, x); var r := Relinked(u.0, u.1, x);
            Follows(r.0, r.1, Moved(cyc, pos[x]), MovedPos(pos, x), y)
  {
    FirstOut(next, prev, cyc, pos, x);
    var u := Unlinked(next, prev, x);
    RelinkedLinks(u.0, u.1, x, y, First(cyc, pos, x));
    MovedNext(cyc, pos, x, y);
    MovedPrev(cyc, pos, x, y);
    assert Follows(next, prev, cyc, pos, x) && Follows(next, prev, cyc, pos, y);
    if y != x { UnlinkedLinks(next, prev, cyc, pos, x, y); }
  }

  /** The pointer surgery of `brelse` moves one buffer to the front, and the
      list is a cycle through all buffers again. */
  lemma MoveToFront(next: seq<nat>, prev: seq<nat>, cyc: seq<nat>, pos: seq<nat>, x: nat)
    requires Linked(next, prev, cyc, pos) && x < NBUF
    ensures next[x] <= NBUF && prev[x] <= NBUF && Unlinked(next, prev, x).0[HEAD] <= NBUF
    ensures 0 < pos[x] <= NBUF
    ensures var u := Unlinked(next, prev, x); var r := Relinked(u.0, u.1, x);
            Linked(r.0, r.1, Moved(cyc, pos[x]), MovedPos(pos, x))
  {
    MovedIsCycle(cyc, pos, x);
    MovedAt(next, prev, cyc, pos, x, HEAD);
    var u := Unlinked(next, prev, x);
    var r, cyc', pos' := Relinked(u.0, u.1, x), Moved(cyc, pos[x]), MovedPos(pos, x);
    forall y | 0 <= y <= NBUF ensures Follows(r.0, r.1, cyc', pos', y) {
      MovedAt(next, prev, cyc, pos, x, y);
    }
  }
}
