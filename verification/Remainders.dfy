/** Facts about `/` and `%` on naturals, shared by every ring in the model. */
module Remainders {
  lemma MultipleIsFar(n: nat, d: int)
    requires n > 0
    ensures d >= 1 ==> n * d >= n
    ensures d <= -1 ==> n * d + n <= 0
  {
    if d <= -1 {
      assert n * (d + 1) <= 0;
    }
  }

  lemma DivModUnique(k: nat, n: nat, q: nat, r: nat)
    requires n > 0 && r < n && k == n * q + r
    ensures k / n == q && k % n == r
  {
    assert n * (k / n - q) == r - k % n;
    MultipleIsFar(n, k / n - q);
  }

  // Two counters less than n apart share a remainder only when equal.
  lemma SameRemainder(a: nat, b: nat, n: nat)
    requires n > 0 && a <= b < a + n && a % n == b % n
    ensures a == b
  {
    assert b - a == n * (b / n - a / n);
    MultipleIsFar(n, b / n - a / n);
  }

  lemma ShiftedRemainder(k: nat, d: nat, n: nat)
    requires n > 0
    ensures (k % n + d) % n == (k + d) % n
  {
    var r := k % n + d;
    assert k + d == n * (k / n + r / n) + r % n by {
      assert n * (k / n + r / n) == n * (k / n) + n * (r / n);
    }
    DivModUnique(k + d, n, k / n + r / n, r % n);
  }

  /** The ring slot of the k-th item counted from a position. */
  function At(first: nat, k: nat, n: nat): (slot: nat)
    requires n > 0
  {
    (first + k) % n
  }

  lemma AtNext(first: nat, k: nat, n: nat)
    requires n > 0
    ensures At(first + 1, k, n) == At(first, k + 1, n)
  {
  }

  // Comparing the successor of one index with another decides whether n - 1 items separate them.
  lemma FullIff(tail: nat, waiting: nat, n: nat)
    requires n >= 2 && waiting <= n - 1
    ensures (tail + waiting + 1) % n == tail % n <==> waiting == n - 1
  {
    ShiftedRemainder(tail, n, n);
    DivModUnique(tail % n + n, n, 1, tail % n);
    if (tail + waiting + 1) % n == tail % n {
      SameRemainder(tail + waiting + 1, tail + n, n);
    }
  }

  lemma EmptyIff(tail: nat, waiting: nat, n: nat)
    requires waiting < n
    ensures tail % n == (tail + waiting) % n <==> waiting == 0
  {
    if tail % n == (tail + waiting) % n {
      SameRemainder(tail, tail + waiting, n);
    }
  }

  // Masked index subtraction counts the items between two wrapped positions.
  lemma CountBetween(tail: nat, waiting: nat, n: nat, t: nat, h: nat)
    requires waiting < n && t == tail % n && h == (tail + waiting) % n
    ensures t <= h + n && (h + n - t) % n == waiting
  {
    var r := t + waiting;
    ShiftedRemainder(tail, waiting, n);
    if r < n {
      DivModUnique(r, n, 0, r);
      DivModUnique(n + waiting, n, 1, waiting);
    } else {
      DivModUnique(r, n, 1, r - n);
      DivModUnique(waiting, n, 0, waiting);
    }
  }
}
