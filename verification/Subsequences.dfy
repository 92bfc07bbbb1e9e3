/** "Occurs in the same order, using each position at most once." */
module Subsequences {
  predicate Subsequence<T(==)>(a: seq<T>, b: seq<T>)
    decreases |b|
  {
    || a == []
    || (&& b != []
        && var front := b[..|b| - 1];
           (a[|a| - 1] == b[|b| - 1] && Subsequence(a[..|a| - 1], front)) || Subsequence(a, front))
  }

  lemma Keep<T>(a: seq<T>, b: seq<T>, x: T)
    requires Subsequence(a, b)
    ensures Subsequence(a + [x], b + [x])
  {
    assert (a + [x])[..|a|] == a && (b + [x])[..|b|] == b;
  }

  lemma {:induction false} Grow<T>(a: seq<T>, b: seq<T>, c: seq<T>)
    requires Subsequence(a, b)
    ensures Subsequence(a, b + c)
    decreases |c|
  {
    if c == [] {
      assert b + c == b;
    } else {
      Grow(a, b, c[..|c| - 1]);
      assert (b + c)[..|b + c| - 1] == b + c[..|c| - 1];
    }
  }

  lemma {:induction false} Drop<T>(p: seq<T>, x: T, q: seq<T>, b: seq<T>)
    requires Subsequence(p + [x] + q, b)
    ensures Subsequence(p + q, b)
    decreases |b|
  {
    var a, front, last := p + [x] + q, b[..|b| - 1], b[|b| - 1];
    assert b == front + [last];
    if Subsequence(a, front) {
      Drop(p, x, q, front);
      Grow(p + q, front, [last]);
    } else if q == [] {
      assert a[..|a| - 1] == p;
      Grow(p, front, [last]);
      assert p + q == p;
    } else {
      var q' := q[..|q| - 1];
      assert q == q' + [last];
      assert a[..|a| - 1] == p + [x] + q';
      Drop(p, x, q', front);
      Keep(p + q', front, last);
      assert (p + q') + [last] == p + q;
    }
  }

  lemma {:induction false} DropTail<T>(p: seq<T>, q: seq<T>, b: seq<T>)
    requires Subsequence(p + q, b)
    ensures Subsequence(p, b)
    decreases |q|
  {
    if q == [] {
      assert p + q == p;
    } else {
      assert p + q == p + [q[0]] + q[1..];
      Drop(p, q[0], q[1..], b);
      DropTail(p, q[1..], b);
    }
  }
}
