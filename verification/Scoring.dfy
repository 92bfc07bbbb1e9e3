/** Sparse dot products over a mask, the rule registry and its score. */
module Scoring {
  import opened Bits
  import opened RuleMask
  import Remainders

  // ---- the sparse scan against the dense definition

  function Shifted(positions: seq<nat>, base: nat): (s: seq<nat>)
    ensures |s| == |positions|
  {
    seq(|positions|, i requires 0 <= i < |positions| => base + positions[i])
  }

  /** Every index the word loop and the bit loop visit, in order. */
  function MaskScan(words: seq<Word>): seq<nat> {
    if words == [] then []
    else MaskScan(words[..|words| - 1]) + Shifted(Scan(words[|words| - 1]), 64 * (|words| - 1))
  }

  /** Weight of index i where it is registered, zero elsewhere. */
  function WeightAt(weights: seq<real>, count: nat, i: nat): real {
    if i < count && i < |weights| then weights[i] else 0.0
  }

  function SparseSum(weights: seq<real>, count: nat, idx: seq<nat>): real {
    if idx == [] then 0.0
    else SparseSum(weights, count, idx[..|idx| - 1]) + WeightAt(weights, count, idx[|idx| - 1])
  }

  /** The dense definition: set and sum over all indices below n. */
  function DenseSum(words: seq<Word>, weights: seq<real>, count: nat, n: nat): real {
    if n == 0 then 0.0
    else DenseSum(words, weights, count, n - 1) + (if Test(words, n - 1) then WeightAt(weights, count, n - 1) else 0.0)
  }

  ghost predicate Increasing(idx: seq<nat>) {
    forall p, q :: 0 <= p < q < |idx| ==> idx[p] < idx[q]
  }

  /** idx lists exactly the set bits below n, once each, in order. */
  ghost predicate Lists(idx: seq<nat>, words: seq<Word>, n: nat) {
    Increasing(idx) && forall i: nat :: i in idx <==> i < n && Test(words, i)
  }

  // The scan of the whole mask visits every set bit exactly once, in order.
  lemma {:induction false} MaskScanLists(words: seq<Word>)
    ensures Lists(MaskScan(words), words, 64 * |words|)
    decreases |words|
  {
    if words != [] {
      var n := |words| - 1;
      var front, last := words[..n], words[n];
      var head, tail := MaskScan(front), Shifted(Scan(last), 64 * n);
      MaskScanLists(front);
      ScanVisitsSetBits(last);
      forall i: nat ensures i in MaskScan(words) <==> i < 64 * |words| && Test(words, i) {
        if i < 64 * n {
          assert i !in tail;
          assert i / 64 < n && front[i / 64] == words[i / 64];
        } else {
          assert i !in head;
          InTail(last, n, i);
        }
      }
      forall p, q | 0 <= p < q < |MaskScan(words)| ensures MaskScan(words)[p] < MaskScan(words)[q] {
        if p < |head| <= q {
          assert MaskScan(words)[p] in head;
        }
      }
    }
  }

  lemma ShiftedMember(positions: seq<nat>, base: nat, b: nat)
    ensures base + b in Shifted(positions, base) <==> b in positions
  {
    if b in positions {
      var p :| 0 <= p < |positions| && positions[p] == b;
      assert Shifted(positions, base)[p] == base + b;
    }
  }

  lemma InTail(last: Word, n: nat, i: nat)
    requires 64 * n <= i
    ensures i in Shifted(Scan(last), 64 * n) <==> i < 64 * (n + 1) && Bit(last, i % 64)
  {
    var b := i - 64 * n;
    ScanVisitsSetBits(last);
    ShiftedMember(Scan(last), 64 * n, b);
    Pow2OfWord();
    if Bit(last, b) {
      BitsFit(last, 64, b);
    }
    if b < 64 {
      Remainders.DivModUnique(i, 64, n, b);
    }
  }

  lemma {:induction false} ListedSum(idx: seq<nat>, words: seq<Word>, weights: seq<real>, count: nat, n: nat)
    requires Lists(idx, words, n)
    ensures SparseSum(weights, count, idx) == DenseSum(words, weights, count, n)
    decreases n
  {
    if n == 0 {
      HasMember(idx);
    } else if Test(words, n - 1) {
      assert n - 1 in idx;
      LastIsLargest(idx, n - 1);
      var front := idx[..|idx| - 1];
      forall i: nat ensures i in front <==> i < n - 1 && Test(words, i) {
        InFront(idx, i);
      }
      ListedSum(front, words, weights, count, n - 1);
    } else {
      ListedSum(idx, words, weights, count, n - 1);
    }
  }

  lemma HasMember(idx: seq<nat>)
    ensures idx == [] || exists i: nat :: i in idx
  {
    if idx != [] {
      assert idx[0] in idx;
    }
  }

  lemma LastIsLargest(idx: seq<nat>, top: nat)
    requires Increasing(idx) && top in idx && forall i :: i in idx ==> i <= top
    ensures idx[|idx| - 1] == top
  {
    assert idx[|idx| - 1] in idx;
    var p :| 0 <= p < |idx| && idx[p] == top;
  }

  lemma InFront(idx: seq<nat>, i: nat)
    requires Increasing(idx) && idx != []
    ensures i in idx[..|idx| - 1] <==> i in idx && i != idx[|idx| - 1]
  {
    var n := |idx| - 1;
    if i in idx && i != idx[n] {
      var p :| 0 <= p < |idx| && idx[p] == i;
      assert idx[..n][p] == i;
    }
  }

  lemma SparseIsDense(words: seq<Word>, weights: seq<real>, count: nat)
    ensures SparseSum(weights, count, MaskScan(words)) == DenseSum(words, weights, count, 64 * |words|)
  {
    MaskScanLists(words);
    ListedSum(MaskScan(words), words, weights, count, 64 * |words|);
  }

  lemma {:induction false} SparseAppend(weights: seq<real>, count: nat, a: seq<nat>, b: seq<nat>)
    ensures SparseSum(weights, count, a + b) == SparseSum(weights, count, a) + SparseSum(weights, count, b)
    decreases |b|
  {
    if b == [] {
      assert a + b == a;
    } else {
      assert (a + b)[..|a + b| - 1] == a + b[..|b| - 1];
      SparseAppend(weights, count, a, b[..|b| - 1]);
    }
  }

  lemma ScanStep(weights: seq<real>, count: nat, bits: nat, base: nat)
    requires bits > 0
    ensures SparseSum(weights, count, Shifted(Scan(bits), base))
         == WeightAt(weights, count, base + Ctz(bits))
            + SparseSum(weights, count, Shifted(Scan(ClearLowest(bits)), base))
  {
    ClearLowestCount(bits);
    var rest := Shifted(Scan(ClearLowest(bits)), base);
    assert Shifted(Scan(bits), base) == [base + Ctz(bits)] + rest;
    SparseAppend(weights, count, [base + Ctz(bits)], rest);
    assert [base + Ctz(bits)][..0] == [];
  }

  // The inner loop: take the lowest set bit, add its weight, clear it.
  method AddWord(word: Word, base: nat, weights: array<real>, count: nat, before: real) returns (total: real)
    requires base + 64 <= weights.Length
    ensures total == before + SparseSum(weights[..], count, Shifted(Scan(word), base))
  {
    total := before;
    var bits: nat := word;
    while bits != 0
      invariant bits <= word
      invariant total + SparseSum(weights[..], count, Shifted(Scan(bits), base))
             == before + SparseSum(weights[..], count, Shifted(Scan(word), base))
      decreases bits
    {
      ScanStep(weights[..], count, bits, base);
      ClearLowestCount(bits);
      BitInWord(bits);
      var idx := base + Ctz(bits);
      if idx < count {
        total := total + weights[idx];
      }
      bits := ClearLowest(bits);
    }
  }

  // The scan over all words computes the dense sum over the registered set bits.
  method SparseDot(words: seq<Word>, weights: array<real>, count: nat) returns (total: real)
    requires |words| == NUM_WORDS && weights.Length == MAX_RULES
    ensures total == DenseSum(words, weights[..], count, MAX_RULES)
  {
    total := 0.0;
    for w := 0 to NUM_WORDS
      invariant total == SparseSum(weights[..], count, MaskScan(words[..w]))
    {
      assert words[..w + 1][..w] == words[..w];
      SparseAppend(weights[..], count, MaskScan(words[..w]), Shifted(Scan(words[w]), 64 * w));
      total := AddWord(words[w], 64 * w, weights, count, total);
    }
    assert words[..NUM_WORDS] == words;
    SparseIsDense(words, weights[..], count);
  }

  lemma BitInWord(bits: nat)
    requires 0 < bits < WORD_LIMIT
    ensures Ctz(bits) < 64
  {
    Pow2OfWord();
    CtzIsLowest(bits, 0);
    BitsFit(bits, 64, Ctz(bits));
  }

  // score_mask sums over the full weight array.
  method ScoreMask(words: seq<Word>, weights: array<real>) returns (total: real)
    requires |words| == NUM_WORDS && weights.Length == MAX_RULES
    ensures total == DenseSum(words, weights[..], MAX_RULES, MAX_RULES)
  {
    total := SparseDot(words, weights, MAX_RULES);
  }

  /** apply_session_scaling: no scaling, only the clamp to [-1, 1]. */
  function ClampScore(raw: real): (score: real)
    ensures -1.0 <= score <= 1.0
    ensures -1.0 <= raw <= 1.0 ==> score == raw
    ensures (raw >= 1.0 ==> score == 1.0) && (raw <= -1.0 ==> score == -1.0)
  {
    if raw > 1.0 then 1.0 else if raw < -1.0 then -1.0 else raw
  }

  // The score is the nearest point of [-1, 1].
  lemma ClampIsNearest(raw: real, z: real)
    requires -1.0 <= z <= 1.0
    ensures (if raw >= ClampScore(raw) then raw - ClampScore(raw) else ClampScore(raw) - raw)
            <= (if raw >= z then raw - z else z - raw)
  {
  }

  // ---- the rule registry

  datatype Rule<!S> = Rule(weight: real, evaluate: S -> bool, bitIndex: nat, active: bool)

  class Registry<S(!new)> {
    const rules: array<Rule<S>>
    const weights: array<real>
    var count: nat

    ghost predicate Valid()
      reads this, rules, weights
    {
      && rules.Length == weights.Length == MAX_RULES && count <= MAX_RULES
      && (forall i :: 0 <= i < count ==> rules[i].bitIndex == i && rules[i].active)
      && (forall i :: count <= i < MAX_RULES ==> weights[i] == 0.0)
    }

    /** The rules that fire in a market state. */
    ghost function Firing(state: S): set<nat>
      requires Valid()
      reads this, rules, weights
    {
      set i | 0 <= i < count && rules[i].evaluate(state)
    }

    constructor ()
      ensures Valid() && count == 0 && fresh(rules) && fresh(weights)
    {
      rules := new Rule<S>[MAX_RULES](_ => Rule(0.0, (s: S) => false, 0, false));
      weights := new real[MAX_RULES](_ => 0.0);
      count := 0;
    }

    method AddRule(weight: real, fn: S -> bool) returns (idx: nat)
      requires Valid()
      modifies this, rules, weights
      ensures Valid()
      ensures if old(count) >= MAX_RULES then idx == MAX_RULES && count == old(count) && rules[..] == old(rules[..])
                                              && weights[..] == old(weights[..])
              else
                && idx == old(count) && count == old(count) + 1
                && rules[..] == old(rules[..])[idx := Rule(weight, fn, idx, true)]
                && weights[..] == old(weights[..])[idx := weight]
    {
      if count >= MAX_RULES {
        return MAX_RULES;
      }
      idx := count;
      rules[idx] := Rule(weight, fn, idx, true);
      weights[idx] := weight;
      count := count + 1;
    }

    method EvaluateAll(state: S) returns (mask: array<Word>)
      requires Valid()
      ensures fresh(mask) && mask.Length == NUM_WORDS
      ensures Members(mask[..]) == Firing(state)
    {
      mask := new Word[NUM_WORDS];
      Reset(mask);
      for i := 0 to count
        invariant Members(mask[..]) == set j | 0 <= j < i && rules[j].evaluate(state)
      {
        SetIf(mask, i, rules[i].evaluate(state));
      }
    }

    // score(evaluate_all(state)): the weights of exactly the firing rules, summed and clamped.
    method ScoreState(state: S) returns (score: real)
      requires Valid()
      ensures score == ClampScore(WeightOf(Firing(state), weights[..], MAX_RULES))
      ensures var total := WeightOf(Firing(state), weights[..], MAX_RULES);
              if total >= 1.0 then score == 1.0 else if total <= -1.0 then score == -1.0 else score == total
    {
      var mask := EvaluateAll(state);
      ghost var words := mask[..];
      var raw := ScoreMask(mask[..], weights);
      DenseIsWeight(words, weights[..], MAX_RULES);
      score := ClampScore(raw);
    }
  }

  /** Total weight of the members of a set of indices below n. */
  ghost function WeightOf(firing: set<nat>, weights: seq<real>, n: nat): real
    requires n <= |weights|
  {
    if n == 0 then 0.0 else WeightOf(firing, weights, n - 1) + (if n - 1 in firing then weights[n - 1] else 0.0)
  }

  lemma {:induction false} DenseIsWeight(words: seq<Word>, weights: seq<real>, n: nat)
    requires |words| == NUM_WORDS && n <= |weights| == MAX_RULES
    ensures DenseSum(words, weights, MAX_RULES, n) == WeightOf(Members(words), weights, n)
    decreases n
  {
    if n > 0 {
      DenseIsWeight(words, weights, n - 1);
    }
  }
}
