/** The vector kernels: four accumulators stepped together, added across, then a scalar tail. */
module Lanes {
  import opened Sums

  method Avx2Sum(a: array<real>, n: nat) returns (result: real)
    requires n <= a.Length
    ensures result == Sum(a[..n])
  {
    hide *;
    EmptySums();
    var acc0, acc1, acc2, acc3 := 0.0, 0.0, 0.0, 0.0;
    var vecEnd := n - n % 4;
    var i := 0;
    while i < vecEnd
      invariant 0 <= i <= vecEnd && i % 4 == 0
      invariant acc0 + acc1 + acc2 + acc3 == Sum(a[..n][..i])
    {
      SumFour(a[..n], i);
      acc0, acc1, acc2, acc3 := acc0 + a[i], acc1 + a[i + 1], acc2 + a[i + 2], acc3 + a[i + 3];
      i := i + 4;
    }
    result := (acc0 + acc2) + (acc1 + acc3);
    while i < n
      invariant vecEnd <= i <= n
      invariant result == Sum(a[..n][..i])
    {
      SumStep(a[..n], i);
      result := result + a[i];
      i := i + 1;
    }
    assert a[..n][..n] == a[..n];
  }

  method Avx2SumSq(a: array<real>, n: nat) returns (result: real)
    requires n <= a.Length
    ensures result == Dot(a[..n], a[..n])
  {
    result := Avx2Dot(a, a, n);
  }

  method Avx2Dot(a: array<real>, b: array<real>, n: nat) returns (result: real)
    requires n <= a.Length && n <= b.Length
    ensures result == Dot(a[..n], b[..n])
  {
    hide *;
    EmptySums();
    var acc0, acc1, acc2, acc3 := 0.0, 0.0, 0.0, 0.0;
    var vecEnd := n - n % 4;
    var i := 0;
    while i < vecEnd
      invariant 0 <= i <= vecEnd && i % 4 == 0
      invariant acc0 + acc1 + acc2 + acc3 == Dot(a[..n][..i], b[..n][..i])
    {
      DotFour(a[..n], b[..n], i);
      acc0, acc1 := acc0 + Product(a[i], b[i]), acc1 + Product(a[i + 1], b[i + 1]);
      acc2, acc3 := acc2 + Product(a[i + 2], b[i + 2]), acc3 + Product(a[i + 3], b[i + 3]);
      i := i + 4;
    }
    result := (acc0 + acc2) + (acc1 + acc3);
    while i < n
      invariant vecEnd <= i <= n
      invariant result == Dot(a[..n][..i], b[..n][..i])
    {
      DotStep(a[..n], b[..n], i);
      result := result + Product(a[i], b[i]);
      i := i + 1;
    }
    assert a[..n][..n] == a[..n] && b[..n][..n] == b[..n];
  }

  lemma SumFour(a: seq<real>, i: nat)
    requires i + 4 <= |a|
    ensures Sum(a[..i + 4]) == Sum(a[..i]) + a[i] + a[i + 1] + a[i + 2] + a[i + 3]
  {
    SumStep(a, i);
    SumStep(a, i + 1);
    SumStep(a, i + 2);
    SumStep(a, i + 3);
  }

  lemma DotFour(a: seq<real>, b: seq<real>, i: nat)
    requires |a| == |b| && i + 4 <= |a|
    ensures Dot(a[..i + 4], b[..i + 4])
         == Dot(a[..i], b[..i]) + Product(a[i], b[i]) + Product(a[i + 1], b[i + 1])
            + Product(a[i + 2], b[i + 2]) + Product(a[i + 3], b[i + 3])
  {
    DotStep(a, b, i);
    DotStep(a, b, i + 1);
    DotStep(a, b, i + 2);
    DotStep(a, b, i + 3);
  }
}
