/** What several modules share. */
module Common {
  datatype Option<T> = None | Some(value: T)

  // ----- Ring buffers: slot `k % n` of a ring of `n` -------------------------------------------

  lemma Grows(n: nat, k: nat)
    requires k > 0
    ensures n * k >= n
  {
    assert n * k == n + n * (k - 1);
  }

  lemma Remainder(n: nat, q: nat, r: nat, x: nat)
    requires 0 <= r < n && x == n * q + r
    ensures x % n == r
  {
    var q', r' := x / n, x % n;
    assert x == n * q' + r';
    assert n * (q - q') == r' - r;
    if q > q' { Grows(n, q - q'); }
    if q' > q { Grows(n, q' - q); }
  }

  lemma AddOnce(n: nat, x: nat)
    requires n > 0
    ensures (x + n) % n == x % n
  {
    var q, r := x / n, x % n;
    assert x + n == n * (q + 1) + r;
    Remainder(n, q + 1, r, x + n);
  }

  lemma {:induction false} AddMultiple(n: nat, a: nat, r: nat)
    requires n > 0
    ensures (n * a + r) % n == r % n
    decreases a
  {
    if a > 0 {
      AddMultiple(n, a - 1, r);
      var x := n * (a - 1) + r;
      assert n * a + r == x + n;
      AddOnce(n, x);
    }
  }

  /** Fewer than `n` apart means different slots. */
  lemma SlotsDiffer(n: nat, a: nat, b: nat)
    requires n > 0 && a < b < a + n
    ensures a % n != b % n
  {
    var qa, qb := a / n, b / n;
    assert a == n * qa + a % n && b == n * qb + b % n;
    if a % n == b % n {
      assert b - a == n * (qb - qa);
      if qb > qa { Grows(n, qb - qa); }
    }
  }
}
