/** Bits of unsigned words, defined on the binary expansion. */
module Bits {
  import Remainders

  const WORD_LIMIT: nat := 0x1_0000_0000_0000_0000

  type Word = w: nat | w < WORD_LIMIT

  function Pow2(k: nat): (p: nat)
    ensures p > 0
  {
    if k == 0 then 1 else 2 * Pow2(k - 1)
  }

  predicate Bit(w: nat, i: nat) {
    if i == 0 then w % 2 == 1 else Bit(w / 2, i - 1)
  }

  function AndOp(a: bool, b: bool): bool { a && b }
  function OrOp(a: bool, b: bool): bool { a || b }
  function XorOp(a: bool, b: bool): bool { a != b }
  function AndNotOp(a: bool, b: bool): bool { a && !b }

  /** The bitwise operation whose truth table is `op`. */
  function Bitwise(op: (bool, bool) -> bool, x: nat, y: nat): nat
    requires !op(false, false)
  {
    if x == 0 && y == 0 then 0
    else (if op(x % 2 == 1, y % 2 == 1) then 1 else 0) + 2 * Bitwise(op, x / 2, y / 2)
  }

  function And(x: nat, y: nat): nat { Bitwise(AndOp, x, y) }

  /** Number of trailing zero bits. */
  function Ctz(w: nat): nat
    requires w > 0
  {
    if w % 2 == 1 then 0 else 1 + Ctz(w / 2)
  }

  function ClearLowest(w: nat): nat
    requires w > 0
  {
    And(w, w - 1)
  }

  function Popcount(w: nat): nat {
    if w == 0 then 0 else w % 2 + Popcount(w / 2)
  }

  lemma {:induction false} BitOfZero(i: nat)
    ensures !Bit(0, i)
  {
    if i > 0 {
      BitOfZero(i - 1);
    }
  }

  lemma {:induction false} BitwiseBit(op: (bool, bool) -> bool, x: nat, y: nat, i: nat)
    requires !op(false, false)
    ensures Bit(Bitwise(op, x, y), i) == op(Bit(x, i), Bit(y, i))
    decreases i
  {
    if x == 0 && y == 0 {
      BitOfZero(i);
    } else if i > 0 {
      BitwiseBit(op, x / 2, y / 2, i - 1);
    }
  }

  lemma {:induction false} BitwiseFits(op: (bool, bool) -> bool, x: nat, y: nat, k: nat)
    requires !op(false, false) && x < Pow2(k) && y < Pow2(k)
    ensures Bitwise(op, x, y) < Pow2(k)
    decreases k
  {
    if k > 0 && !(x == 0 && y == 0) {
      BitwiseFits(op, x / 2, y / 2, k - 1);
    }
  }

  lemma {:induction false} BitOfPow2(b: nat, i: nat)
    ensures Bit(Pow2(b), i) <==> i == b
    decreases b
  {
    if b == 0 {
      if i > 0 {
        BitOfZero(i - 1);
      }
    } else if i > 0 {
      BitOfPow2(b - 1, i - 1);
    }
  }

  // Testing a bit by shifting it down and masking.
  lemma {:induction false} BitIsShift(w: nat, b: nat)
    ensures Bit(w, b) <==> (w / Pow2(b)) % 2 == 1
    decreases b
  {
    if b > 0 {
      BitIsShift(w / 2, b - 1);
      HalveTwice(w, Pow2(b - 1));
    }
  }

  lemma HalveTwice(w: nat, p: nat)
    requires p > 0
    ensures w / 2 / p == w / (2 * p)
  {
    var q := w / 2 / p;
    assert w == 2 * (p * q + (w / 2) % p) + w % 2;
    Remainders.DivModUnique(w, 2 * p, q, 2 * ((w / 2) % p) + w % 2);
  }

  // Bits of a k-bit word lie below k.
  lemma {:induction false} BitsFit(w: nat, k: nat, i: nat)
    requires w < Pow2(k) && Bit(w, i)
    ensures i < k
    decreases k
  {
    if k == 0 {
      BitOfZero(i);
    } else if i > 0 {
      BitsFit(w / 2, k - 1, i - 1);
    }
  }

  lemma {:induction false} CtzIsLowest(w: nat, i: nat)
    requires w > 0
    ensures Bit(w, Ctz(w))
    ensures i < Ctz(w) ==> !Bit(w, i)
    decreases w
  {
    if w % 2 == 0 {
      CtzIsLowest(w / 2, if i > 0 then i - 1 else 0);
    }
  }

  lemma {:induction false} AndSelf(w: nat)
    ensures And(w, w) == w
    decreases w
  {
    if w > 0 {
      AndSelf(w / 2);
    }
  }

  lemma ClearLowestHalves(w: nat)
    requires w > 0
    ensures ClearLowest(w) == if w % 2 == 1 then w - 1 else 2 * ClearLowest(w / 2)
  {
    if w % 2 == 1 {
      assert (w - 1) / 2 == w / 2;
      AndSelf(w / 2);
    } else {
      assert (w - 1) / 2 == w / 2 - 1 && (w - 1) % 2 == 1;
    }
  }

  // w & (w - 1) removes exactly the lowest set bit.
  lemma {:induction false} ClearLowestBit(w: nat, i: nat)
    requires w > 0
    ensures Bit(ClearLowest(w), i) <==> Bit(w, i) && i != Ctz(w)
    decreases w
  {
    ClearLowestHalves(w);
    if w % 2 == 1 {
      assert (w - 1) / 2 == w / 2;
    } else if i > 0 {
      ClearLowestBit(w / 2, i - 1);
    }
  }

  lemma {:induction false} ClearLowestCount(w: nat)
    requires w > 0
    ensures ClearLowest(w) < w && Popcount(ClearLowest(w)) == Popcount(w) - 1
    decreases w
  {
    ClearLowestHalves(w);
    if w % 2 == 1 {
      assert (w - 1) / 2 == w / 2;
    } else {
      ClearLowestCount(w / 2);
    }
  }

  /** The bit positions the sparse scan visits, in order. */
  function Scan(w: nat): seq<nat>
    decreases w
  {
    if w == 0 then []
    else
      ClearLowestCount(w);
      [Ctz(w)] + Scan(ClearLowest(w))
  }

  // The scan visits each set bit exactly once, lowest first, in popcount steps.
  lemma {:induction false} ScanVisitsSetBits(w: nat)
    ensures |Scan(w)| == Popcount(w)
    ensures forall i :: i in Scan(w) <==> Bit(w, i)
    ensures forall p, q :: 0 <= p < q < |Scan(w)| ==> Scan(w)[p] < Scan(w)[q]
    decreases w
  {
    if w == 0 {
      forall i: nat ensures !Bit(0, i) {
        BitOfZero(i);
      }
    } else {
      ClearLowestCount(w);
      var rest := ClearLowest(w);
      ScanVisitsSetBits(rest);
      forall i: nat ensures i in Scan(w) <==> Bit(w, i) {
        ClearLowestBit(w, i);
        CtzIsLowest(w, i);
      }
      forall q | 0 <= q < |Scan(rest)| ensures Ctz(w) < Scan(rest)[q] {
        assert Scan(rest)[q] in Scan(rest);
        ClearLowestBit(w, Scan(rest)[q]);
        CtzIsLowest(w, Scan(rest)[q]);
      }
    }
  }
}
