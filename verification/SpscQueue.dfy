/** The ring queue as its two owners call it, each call running to completion.
    The interleaved behaviour of the same code is in SpscProtocol. */
module SpscQueue {
  import Remainders
  import opened Options

  class Queue<T(0)> {
    var head: nat
    var tailCache: nat   // producer-side copy of tail
    var tail: nat
    var headCache: nat   // consumer-side copy of head
    const buffer: array<T>

    ghost var contents: seq<T>
    ghost var first: nat       // number of items popped so far; tail is its remainder
    ghost var tailLag: nat     // pops the producer has not noticed
    ghost var headKnown: nat   // waiting items the consumer has noticed

    ghost predicate Valid()
      reads this, buffer
    {
      var n := buffer.Length;
      && n >= 2
      && tail == first % n && head == (first + |contents|) % n
      && (forall k :: 0 <= k < |contents| ==> buffer[Remainders.At(first, k, n)] == contents[k])
      && tailLag <= first && |contents| + tailLag <= n - 1 && tailCache == (first - tailLag) % n
      && headKnown <= |contents| && headCache == (first + headKnown) % n
    }

    constructor (capacity: nat)
      requires capacity >= 2
      ensures Valid() && fresh(buffer) && buffer.Length == capacity && contents == []
    {
      buffer := new T[capacity];
      head, tailCache, tail, headCache := 0, 0, 0, 0;
      contents, first, tailLag, headKnown := [], 0, 0, 0;
    }

    // Accepts exactly when fewer than capacity - 1 items wait, however stale the cached tail was.
    method TryPush(item: T) returns (ok: bool)
      requires Valid()
      modifies this`head, this`tailCache, this`contents, this`tailLag, buffer
      ensures Valid()
      ensures ok <==> |old(contents)| < buffer.Length - 1
      ensures contents == if ok then old(contents) + [item] else old(contents)
    {
      ghost var n := buffer.Length;
      var next := (head + 1) % buffer.Length;
      Remainders.ShiftedRemainder(first + |contents|, 1, n);
      Remainders.FullIff(first - tailLag, tailLag + |contents|, n);
      Remainders.FullIff(first, |contents|, n);
      if next == tailCache {
        tailCache, tailLag := tail, 0;
        if next == tailCache {
          return false;
        }
      }
      forall k | 0 <= k < |contents| ensures Remainders.At(first, k, n) != head {
        if Remainders.At(first, k, n) == head {
          Remainders.SameRemainder(first + k, first + |contents|, n);
        }
      }
      buffer[head] := item;
      head := next;
      contents := contents + [item];
      ok := true;
    }

    method TryPop() returns (item: Option<T>)
      requires Valid()
      modifies this`tail, this`headCache, this`contents, this`first, this`tailLag, this`headKnown
      ensures Valid()
      ensures old(contents) == [] ==> item == None && contents == []
      ensures old(contents) != [] ==> item == Some(old(contents)[0]) && contents == old(contents)[1..]
    {
      ghost var n := buffer.Length;
      Remainders.EmptyIff(first, headKnown, n);
      Remainders.EmptyIff(first, |contents|, n);
      if tail == headCache {
        headCache, headKnown := head, |contents|;
        if tail == headCache {
          return None;
        }
      }
      item := Some(buffer[tail]);
      Remainders.ShiftedRemainder(first, 1, n);
      assert buffer[Remainders.At(first, 0, n)] == contents[0];
      forall k | 0 <= k < |contents[1..]|
        ensures buffer[Remainders.At(first + 1, k, n)] == contents[1..][k]
      {
        Remainders.AtNext(first, k, n);
      }
      tail := (tail + 1) % buffer.Length;
      contents, first, tailLag, headKnown := contents[1..], first + 1, tailLag + 1, headKnown - 1;
    }

    method ApproxSize() returns (size: nat)
      requires Valid()
      ensures size == |contents|
    {
      Remainders.CountBetween(first, |contents|, buffer.Length, tail, head);
      size := (head + buffer.Length - tail) % buffer.Length;
    }
  }
}
