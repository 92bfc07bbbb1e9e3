/** Sparse stochastic gradient descent on the rule weights. */
module OnlineLearner {
  import opened Bits
  import opened RuleMask
  import opened Scoring
  import opened Sums
  import opened Numbers
  import Remainders

  const MAX_WEIGHT := 2.0
  const MIN_WEIGHT := -2.0
  const DEFAULT_LR := 0.001
  const DEFAULT_DECAY := 0.0001

  datatype TradeOutcome = TradeOutcome(y: real, activeRules: seq<Word>, conviction: real, closeNs: int)

  // ---- the update as a function of the old weights

  function Prediction(weights: seq<real>, words: seq<Word>, count: nat): real {
    DenseSum(words, weights, count, MAX_RULES)
  }

  /** New weight of an active rule; `push` is learning rate times error. */
  function Stepped(w: real, push: real, decay: real): real {
    Clamp(w + (push - Product(decay, w)), MIN_WEIGHT, MAX_WEIGHT)
  }

  /** One gradient step on the active registered rules. */
  function SparseStep(weights: seq<real>, words: seq<Word>, count: nat, push: real, decay: real): (r: seq<real>)
    ensures |r| == |weights|
  {
    seq(|weights|, i requires 0 <= i < |weights| =>
      if i < count && Test(words, i) then Stepped(weights[i], push, decay) else weights[i])
  }

  /** The dense decay of all registered weights. */
  function DenseDecay(weights: seq<real>, count: nat, decay: real): (r: seq<real>)
    ensures |r| == |weights|
  {
    seq(|weights|, i requires 0 <= i < |weights| => if i < count then Product(weights[i], 1.0 - decay) else weights[i])
  }

  /** `done` updates were made before this one. */
  function Updated(weights: seq<real>, count: nat, lr: real, decay: real, done: nat, o: TradeOutcome): (r: seq<real>)
    ensures |r| == |weights|
  {
    var error := o.y - Prediction(weights, o.activeRules, count);
    var stepped := SparseStep(weights, o.activeRules, count, Product(lr, error), decay);
    if (done + 1) % 128 == 0 then DenseDecay(stepped, count, decay) else stepped
  }

  /** A weight after a full step: target, cut to [-2, 2]. */
  function Cut(target: real): real {
    if target > 2.0 then 2.0 else if target < -2.0 then -2.0 else target
  }

  lemma SteppedIs(w: real, lr: real, error: real, decay: real)
    ensures Stepped(w, Product(lr, error), decay) == Cut(w + Product(lr, error) - Product(decay, w))
  {
  }

  // What one update does to each weight: nothing to an unregistered one, nothing but the decay of every 128th
  // update to a registered inactive one, and to an active one a step of lr * error less the decay, cut to [-2, 2].
  lemma WeightAfterUpdate(weights: seq<real>, count: nat, lr: real, decay: real, done: nat, o: TradeOutcome, i: nat)
    requires i < |weights|
    ensures var w := weights[i];
            var target := w + Product(lr, o.y - Prediction(weights, o.activeRules, count)) - Product(decay, w);
            var stepped := if Test(o.activeRules, i) then Cut(target) else w;
            var after := Updated(weights, count, lr, decay, done, o)[i];
            if i >= count then after == w
            else if (done + 1) % 128 == 0 then after == Product(stepped, 1.0 - decay)
            else after == stepped
  {
    hide Prediction, Product, Stepped, Cut, Test;
    SteppedIs(weights[i], lr, o.y - Prediction(weights, o.activeRules, count), decay);
  }

  class Learner {
    const weights: array<real>
    var count: nat
    var updateCount: nat
    var lr: real
    var decay: real

    ghost predicate Valid()
      reads this
    {
      weights.Length == MAX_RULES && count <= MAX_RULES
    }

    constructor ()
      ensures Valid() && fresh(weights) && count == 0 && updateCount == 0
      ensures lr == DEFAULT_LR && decay == DEFAULT_DECAY && forall i :: 0 <= i < MAX_RULES ==> weights[i] == 0.0
    {
      weights := new real[MAX_RULES](_ => 0.0);
      count, updateCount := 0, 0;
      lr, decay := DEFAULT_LR, DEFAULT_DECAY;
    }

    method Initialize(defaults: array<real>, n: nat)
      requires Valid() && n <= defaults.Length && defaults != weights
      modifies this`count, weights
      ensures Valid() && count == Min(n, MAX_RULES)
      ensures weights[..] == defaults[..count] + old(weights[..])[count..]
    {
      count := Min(n, MAX_RULES);
      for i := 0 to count
        modifies weights
        invariant forall j :: 0 <= j < i ==> weights[j] == defaults[j]
        invariant forall j :: i <= j < MAX_RULES ==> weights[j] == old(weights[j])
      {
        weights[i] := defaults[i];
      }
    }

    // The bit loop of the update pass over one word.
    method StepWord(word: Word, base: nat, push: real)
      requires Valid() && base + 64 <= MAX_RULES
      modifies weights
      ensures forall i :: 0 <= i < MAX_RULES ==>
                weights[i] == if base <= i < base + 64 && i < count && Bit(word, i - base)
                              then Stepped(old(weights[i]), push, decay) else old(weights[i])
    {
      var bits: nat := word;
      while bits != 0
        invariant bits <= word
        invariant forall j: nat :: Bit(bits, j) ==> Bit(word, j)
        invariant forall i :: 0 <= i < MAX_RULES ==>
                    weights[i] == if base <= i < base + 64 && i < count && Bit(word, i - base) && !Bit(bits, i - base)
                                  then Stepped(old(weights[i]), push, decay) else old(weights[i])
        decreases bits
      {
        ClearLowestCount(bits);
        BitInWord(bits);
        CtzIsLowest(bits, 0);
        forall j: nat ensures Bit(ClearLowest(bits), j) <==> Bit(bits, j) && j != Ctz(bits) {
          ClearLowestBit(bits, j);
        }
        var idx := base + Ctz(bits);
        if idx < count {
          weights[idx] := weights[idx] + (push - Product(decay, weights[idx]));
          weights[idx] := Clamp(weights[idx], MIN_WEIGHT, MAX_WEIGHT);
        }
        bits := ClearLowest(bits);
      }
      forall j: nat ensures !Bit(0, j) {
        BitOfZero(j);
      }
    }

    method StepAll(words: seq<Word>, push: real)
      requires Valid() && |words| == NUM_WORDS
      modifies weights
      ensures weights[..] == SparseStep(old(weights[..]), words, count, push, decay)
    {
      for w := 0 to NUM_WORDS
        invariant forall i :: 0 <= i < MAX_RULES ==>
                    weights[i] == if i < 64 * w && i < count && Test(words, i)
                                  then Stepped(old(weights[i]), push, decay) else old(weights[i])
      {
        forall i | 64 * w <= i < 64 * (w + 1) ensures Test(words, i) == Bit(words[w], i - 64 * w) {
          Remainders.DivModUnique(i, 64, w, i - 64 * w);
        }
        StepWord(words[w], 64 * w, push);
      }
    }

    method Update(o: TradeOutcome)
      requires Valid() && |o.activeRules| == NUM_WORDS
      modifies this`updateCount, weights
      ensures Valid() && updateCount == old(updateCount) + 1
      ensures weights[..] == Updated(old(weights[..]), count, lr, decay, old(updateCount), o)
      ensures forall i :: 0 <= i < MAX_RULES && (i >= count || (!Test(o.activeRules, i) && updateCount % 128 != 0))
                ==> weights[i] == old(weights[i])
    {
      var prediction := SparseDot(o.activeRules, weights, count);
      var error := o.y - prediction;
      StepAll(o.activeRules, Product(lr, error));
      updateCount := updateCount + 1;
      if updateCount % 128 == 0 {
        ghost var stepped := weights[..];
        for i := 0 to count
          modifies weights
          invariant weights[..] == DenseDecay(stepped, i, decay)
        {
          weights[i] := Product(weights[i], 1.0 - decay);
        }
      }
    }

    method ApplyTo(target: array<real>, n: nat)
      requires Valid() && n <= target.Length && target != weights
      modifies target
      ensures var m := Min(n, count);
              target[..] == weights[..m] + old(target[..])[m..]
    {
      var m := Min(n, count);
      for i := 0 to m
        invariant forall j :: 0 <= j < i ==> target[j] == weights[j]
        invariant forall j :: i <= j < target.Length ==> target[j] == old(target[j])
      {
        target[i] := weights[i];
      }
    }
  }

  // ---- what an update does to the error

  /** Number of active registered rules below n. */
  function ActiveCount(words: seq<Word>, count: nat, n: nat): nat {
    if n == 0 then 0 else ActiveCount(words, count, n - 1) + (if n - 1 < count && Test(words, n - 1) then 1 else 0)
  }

  ghost predicate InRange(weights: seq<real>) {
    forall i :: 0 <= i < |weights| ==> MIN_WEIGHT <= weights[i] <= MAX_WEIGHT
  }

  ghost predicate NothingClamps(weights: seq<real>, words: seq<Word>, count: nat, push: real, decay: real) {
    forall i :: 0 <= i < |weights| && i < count && Test(words, i) ==>
      MIN_WEIGHT <= weights[i] + (push - Product(decay, weights[i])) <= MAX_WEIGHT
  }

  // Each active weight moves towards the push by at most the push, clamped or not.
  lemma {:induction false} PredictionMoves(weights: seq<real>, words: seq<Word>, count: nat, push: real, n: nat)
    requires n <= |weights| && InRange(weights)
    ensures var before := DenseSum(words, weights, count, n);
            var after := DenseSum(words, SparseStep(weights, words, count, push, 0.0), count, n);
            var most := Product(ActiveCount(words, count, n) as real, push);
            && (push >= 0.0 ==> 0.0 <= after - before <= most)
            && (push <= 0.0 ==> most <= after - before <= 0.0)
            && (NothingClamps(weights, words, count, push, 0.0) ==> after - before == most)
    decreases n
  {
    OneMoreActive(0, push);
    if n > 0 {
      hide Stepped, Product;
      PredictionMoves(weights, words, count, push, n - 1);
      OneMove(weights[n - 1], push);
      OneMoreActive(ActiveCount(words, count, n - 1), push);
    }
  }

  lemma OneMove(w: real, push: real)
    requires MIN_WEIGHT <= w <= MAX_WEIGHT
    ensures var move := Stepped(w, push, 0.0) - w;
            && (push >= 0.0 ==> 0.0 <= move <= push)
            && (push <= 0.0 ==> push <= move <= 0.0)
            && (MIN_WEIGHT <= w + (push - Product(0.0, w)) <= MAX_WEIGHT ==> move == push)
  {
    assert Product(0.0, w) == 0.0;
  }

  lemma OneMoreActive(k: nat, push: real)
    ensures Product((k + 1) as real, push) == Product(k as real, push) + push && Product(0.0, push) == 0.0
  {
    assert (k + 1) as real == k as real + 1.0;
  }

  lemma NoDenseDecayAtZero(weights: seq<real>, count: nat)
    ensures DenseDecay(weights, count, 0.0) == weights
  {
  }

  lemma UpdateWithoutDecay(weights: seq<real>, count: nat, lr: real, done: nat, o: TradeOutcome)
    ensures var push := Product(lr, o.y - Prediction(weights, o.activeRules, count));
            Updated(weights, count, lr, 0.0, done, o) == SparseStep(weights, o.activeRules, count, push, 0.0)
  {
    var push := Product(lr, o.y - Prediction(weights, o.activeRules, count));
    NoDenseDecayAtZero(SparseStep(weights, o.activeRules, count, push, 0.0), count);
  }

  // Without decay and with 0 <= k * lr <= 2 one update never increases the error on its own
  // outcome, even when weights clamp; when nothing clamps the error shrinks by exactly 1 - k * lr.
  lemma ErrorNeverGrows(weights: seq<real>, count: nat, lr: real, done: nat, o: TradeOutcome)
    requires |weights| == MAX_RULES && InRange(weights)
    requires 0.0 <= ActiveCount(o.activeRules, count, MAX_RULES) as real * lr <= 2.0
    ensures var before := o.y - Prediction(weights, o.activeRules, count);
            var after := o.y - Prediction(Updated(weights, count, lr, 0.0, done, o), o.activeRules, count);
            var k := ActiveCount(o.activeRules, count, MAX_RULES) as real;
            && Abs(after) <= Abs(before)
            && (NothingClamps(weights, o.activeRules, count, Product(lr, before), 0.0)
                ==> after == (1.0 - k * lr) * before)
  {
    hide Prediction, Updated, DenseSum, SparseStep, ActiveCount, Product;
    var p := Prediction(weights, o.activeRules, count);
    var before := o.y - p;
    var push := Product(lr, before);
    var k := ActiveCount(o.activeRules, count, MAX_RULES) as real;
    UpdateWithoutDecay(weights, count, lr, done, o);
    PredictionChange(weights, o.activeRules, count, push);
    Contraction(k, lr, before, push,
                Prediction(SparseStep(weights, o.activeRules, count, push, 0.0), o.activeRules, count) - p);
  }

  // The condition is exact: when nothing clamps and there is an error, it does not grow if and only if
  // 0 <= k * lr <= 2.
  lemma ErrorGrowsOutsideTheRange(weights: seq<real>, count: nat, lr: real, done: nat, o: TradeOutcome)
    requires |weights| == MAX_RULES && InRange(weights)
    requires o.y != Prediction(weights, o.activeRules, count)
    requires NothingClamps(weights, o.activeRules, count,
                           Product(lr, o.y - Prediction(weights, o.activeRules, count)), 0.0)
    ensures var before := o.y - Prediction(weights, o.activeRules, count);
            var after := o.y - Prediction(Updated(weights, count, lr, 0.0, done, o), o.activeRules, count);
            Abs(after) <= Abs(before) <==> 0.0 <= ActiveCount(o.activeRules, count, MAX_RULES) as real * lr <= 2.0
  {
    hide Prediction, Updated, DenseSum, SparseStep, ActiveCount;
    var before := o.y - Prediction(weights, o.activeRules, count);
    var push := Product(lr, before);
    var k := ActiveCount(o.activeRules, count, MAX_RULES) as real;
    UpdateWithoutDecay(weights, count, lr, done, o);
    PredictionChange(weights, o.activeRules, count, push);
    assert Product(k, push) == k * lr * before;
    ScaledError(k * lr, before);
  }

  // ---- with decay, as shipped

  lemma DecayedStep(sum: real, k: real, push: real, decay: real, w: real)
    ensures sum + Product(k, push) - Product(decay, sum) + (w + (push - Product(decay, w)))
            == (sum + w) + Product(k + 1.0, push) - Product(decay, sum + w)
  {
  }

  lemma {:induction false} DecayedMoves(weights: seq<real>, words: seq<Word>, count: nat, push: real, decay: real,
                                         n: nat)
    requires n <= |weights| && NothingClamps(weights, words, count, push, decay)
    ensures var before := DenseSum(words, weights, count, n);
            DenseSum(words, SparseStep(weights, words, count, push, decay), count, n)
            == before + Product(ActiveCount(words, count, n) as real, push) - Product(decay, before)
    decreases n
  {
    hide Product;
    if n == 0 {
      OneMoreActive(0, push);
      ZeroProduct(decay, 0.0);
    } else {
      DecayedMoves(weights, words, count, push, decay, n - 1);
      DecayedStep(DenseSum(words, weights, count, n - 1), ActiveCount(words, count, n - 1) as real, push, decay,
                  weights[n - 1]);
    }
  }

  lemma ZeroProduct(x: real, zero: real)
    requires zero == 0.0
    ensures Product(x, zero) == 0.0
  {
  }

  lemma ShrunkStep(sum: real, w: real, f: real)
    ensures Product(sum, f) + Product(w, f) == Product(sum + w, f)
  {
  }

  lemma {:induction false} DenseDecayScales(weights: seq<real>, words: seq<Word>, count: nat, decay: real, n: nat)
    ensures DenseSum(words, DenseDecay(weights, count, decay), count, n)
            == Product(DenseSum(words, weights, count, n), 1.0 - decay)
    decreases n
  {
    hide Product;
    var f := 1.0 - decay;
    if n == 0 {
      OneMoreActive(0, f);
    } else {
      DenseDecayScales(weights, words, count, decay, n - 1);
      ShrunkStep(DenseSum(words, weights, count, n - 1), WeightAt(weights, count, n - 1), f);
    }
  }

  /** What is left of an error e after a step over k rules that clamps nothing. */
  function Shrunk(k: real, lr: real, e: real): real {
    (1.0 - k * lr) * e
  }

  /** What a plain update multiplies a gap by, when k rules are active. */
  function Factor(k: real, lr: real, decay: real): real {
    1.0 - k * lr - decay
  }

  lemma ShrunkIs(k: real, lr: real, e: real)
    ensures Shrunk(k, lr, e) == Product(Factor(k, lr, 0.0), e)
  {
  }

  lemma ErrorAlgebra(y: real, p: real, k: real, lr: real, decay: real, e: real)
    requires e == y - p
    ensures y - (p + Product(k, Product(lr, e)) - Product(decay, p)) == Shrunk(k, lr, e) + Product(decay, p)
  {
    assert k * (lr * e) == k * lr * e;
  }

  // With any decay: an update that clamps nothing turns the error e into (1 - k * lr) * e + decay * prediction,
  // and on every 128th update the prediction behind it shrinks by 1 - decay as well.
  lemma ErrorWithDecay(weights: seq<real>, count: nat, lr: real, decay: real, done: nat, o: TradeOutcome)
    requires |weights| == MAX_RULES
    requires NothingClamps(weights, o.activeRules, count,
                           Product(lr, o.y - Prediction(weights, o.activeRules, count)), decay)
    ensures var p := Prediction(weights, o.activeRules, count);
            var k := ActiveCount(o.activeRules, count, MAX_RULES) as real;
            var error := Shrunk(k, lr, o.y - p) + Product(decay, p);
            Prediction(Updated(weights, count, lr, decay, done, o), o.activeRules, count)
            == if (done + 1) % 128 == 0 then Product(o.y - error, 1.0 - decay) else o.y - error
  {
    hide DenseSum, SparseStep, DenseDecay, ActiveCount, Product, NothingClamps, Shrunk;
    var p := Prediction(weights, o.activeRules, count);
    var push := Product(lr, o.y - p);
    var k := ActiveCount(o.activeRules, count, MAX_RULES) as real;
    DecayedMoves(weights, o.activeRules, count, push, decay, MAX_RULES);
    DenseDecayScales(SparseStep(weights, o.activeRules, count, push, decay), o.activeRules, count, decay, MAX_RULES);
    ErrorAlgebra(o.y, p, k, lr, decay, o.y - p);
  }

  lemma {:induction false} ActiveAtMost(words: seq<Word>, count: nat, n: nat)
    ensures ActiveCount(words, count, n) <= n
    decreases n
  {
    if n > 0 {
      ActiveAtMost(words, count, n - 1);
    }
  }

  // The shipped learning rate meets the condition on k * lr for every mask.
  lemma DefaultRateIsInRange(words: seq<Word>, count: nat)
    ensures 0.0 <= ActiveCount(words, count, MAX_RULES) as real * DEFAULT_LR <= 1.024
  {
    ActiveAtMost(words, count, MAX_RULES);
  }

  lemma ScaledError(t: real, e: real)
    requires e != 0.0
    ensures Abs(e - t * e) <= Abs(e) <==> 0.0 <= t <= 2.0
  {
    var m := Abs(e);
    assert e - t * e == (1.0 - t) * e;
    assert Abs((1.0 - t) * e) == Abs(1.0 - t) * m;
    assert Abs(1.0 - t) > 1.0 ==> (Abs(1.0 - t) - 1.0) * m > 0.0;
    assert Abs(1.0 - t) <= 1.0 ==> (1.0 - Abs(1.0 - t)) * m >= 0.0;
  }

  lemma PredictionChange(weights: seq<real>, words: seq<Word>, count: nat, push: real)
    requires |weights| == MAX_RULES && InRange(weights)
    ensures var change := Prediction(SparseStep(weights, words, count, push, 0.0), words, count)
                          - Prediction(weights, words, count);
            var most := Product(ActiveCount(words, count, MAX_RULES) as real, push);
            && (push >= 0.0 ==> 0.0 <= change <= most)
            && (push <= 0.0 ==> most <= change <= 0.0)
            && (NothingClamps(weights, words, count, push, 0.0) ==> change == most)
  {
    hide DenseSum, Product, SparseStep, ActiveCount;
    PredictionMoves(weights, words, count, push, MAX_RULES);
  }

  lemma Contraction(k: real, lr: real, e: real, push: real, change: real)
    requires k >= 0.0 && 0.0 <= k * lr <= 2.0 && push == Product(lr, e)
    requires push >= 0.0 ==> 0.0 <= change <= Product(k, push)
    requires push <= 0.0 ==> Product(k, push) <= change <= 0.0
    ensures Abs(e - change) <= Abs(e)
    ensures change == Product(k, push) ==> e - change == (1.0 - k * lr) * e
  {
    assert k * push == k * lr * e;
    PushSign(k, lr, e, push);
    BoundedMove(k * lr, e, k * push, change);
  }

  // With active rules the push has the sign of the error; without, nothing moves.
  lemma PushSign(k: real, lr: real, e: real, push: real)
    requires k >= 0.0 && k * lr >= 0.0 && push == Product(lr, e)
    ensures k == 0.0 || (e >= 0.0 ==> push >= 0.0)
    ensures k == 0.0 || (e <= 0.0 ==> push <= 0.0)
    ensures k == 0.0 ==> k * push == 0.0
  {
    if k > 0.0 {
      Quotient(k, lr);
      if e >= 0.0 { ProductSign(lr, e); }
      if e <= 0.0 { ProductSign(lr, -e); }
    }
  }

  lemma BoundedMove(t: real, e: real, most: real, change: real)
    requires 0.0 <= t <= 2.0 && most == t * e
    requires e >= 0.0 ==> 0.0 <= change <= most
    requires e <= 0.0 ==> most <= change <= 0.0
    ensures Abs(e - change) <= Abs(e)
    ensures change == most ==> e - change == (1.0 - t) * e
  {
    if e >= 0.0 { ProductSign(2.0 - t, e); } else { ProductSign(2.0 - t, -e); }
  }

  // ---- weights stay bounded over any run

  function RunUpdates(weights: seq<real>, count: nat, lr: real, decay: real, done: nat,
                      outcomes: seq<TradeOutcome>): (r: seq<real>)
    ensures |r| == |weights|
    decreases |outcomes|
  {
    if outcomes == [] then weights
    else RunUpdates(Updated(weights, count, lr, decay, done, outcomes[0]), count, lr, decay, done + 1, outcomes[1..])
  }

  lemma UpdateKeepsRange(weights: seq<real>, count: nat, lr: real, decay: real, done: nat, o: TradeOutcome)
    requires InRange(weights) && 0.0 <= decay <= 1.0
    ensures InRange(Updated(weights, count, lr, decay, done, o))
  {
    hide Prediction, Stepped;
    var error := o.y - Prediction(weights, o.activeRules, count);
    var stepped := SparseStep(weights, o.activeRules, count, Product(lr, error), decay);
    forall i | 0 <= i < |stepped| ensures MIN_WEIGHT <= stepped[i] <= MAX_WEIGHT {
      SteppedInRange(weights[i], Product(lr, error), decay);
    }
    forall i | 0 <= i < |stepped| ensures MIN_WEIGHT <= Product(stepped[i], 1.0 - decay) <= MAX_WEIGHT {
      ShrinkInRange(stepped[i], 1.0 - decay);
    }
  }

  lemma SteppedInRange(w: real, push: real, decay: real)
    ensures MIN_WEIGHT <= Stepped(w, push, decay) <= MAX_WEIGHT
  {
  }

  lemma ShrinkInRange(w: real, f: real)
    requires MIN_WEIGHT <= w <= MAX_WEIGHT && 0.0 <= f <= 1.0
    ensures MIN_WEIGHT <= Product(w, f) <= MAX_WEIGHT
  {
    ProductSign(2.0 - w, f);
    ProductSign(2.0 + w, f);
  }

  // Whatever the outcomes, learning rate and labels, no weight ever leaves [-2, 2].
  lemma {:induction false} RunKeepsRange(weights: seq<real>, count: nat, lr: real, decay: real, done: nat,
                                          outcomes: seq<TradeOutcome>)
    requires InRange(weights) && 0.0 <= decay <= 1.0
    ensures InRange(RunUpdates(weights, count, lr, decay, done, outcomes))
    decreases |outcomes|
  {
    if outcomes != [] {
      UpdateKeepsRange(weights, count, lr, decay, done, outcomes[0]);
      RunKeepsRange(Updated(weights, count, lr, decay, done, outcomes[0]), count, lr, decay, done + 1, outcomes[1..]);
    }
  }

  function Repeat(o: TradeOutcome, times: nat): seq<TradeOutcome> {
    if times == 0 then [] else [o] + Repeat(o, times - 1)
  }

  // Over a whole run that repeats one outcome the error on it never grows.
  lemma {:induction false} RepeatedOutcomeNeverHurts(weights: seq<real>, count: nat, lr: real, done: nat,
                                                      o: TradeOutcome, times: nat)
    requires |weights| == MAX_RULES && InRange(weights)
    requires 0.0 <= ActiveCount(o.activeRules, count, MAX_RULES) as real * lr <= 2.0
    ensures var after := RunUpdates(weights, count, lr, 0.0, done, Repeat(o, times));
            Abs(o.y - Prediction(after, o.activeRules, count)) <= Abs(o.y - Prediction(weights, o.activeRules, count))
    decreases times
  {
    hide Prediction, Updated, ActiveCount, Abs;
    if times > 0 {
      var next := Updated(weights, count, lr, 0.0, done, o);
      ErrorNeverGrows(weights, count, lr, done, o);
      UpdateKeepsRange(weights, count, lr, 0.0, done, o);
      RepeatedOutcomeNeverHurts(next, count, lr, done + 1, o, times - 1);
      assert Repeat(o, times)[1..] == Repeat(o, times - 1);
    }
  }

  lemma ProductsCommute(f: real, rate: real, e: real)
    ensures rate * (f * e) == (f * rate) * e
  {
  }

  lemma PowerStep(f: real, n: nat, e: real)
    ensures Product(Power(f, n), Product(f, e)) == Product(Power(f, n + 1), e)
    ensures Product(Power(f, 0), e) == e
  {
    ProductsCommute(f, Power(f, n), e);
  }

  /** No weight clamps in any of a number of updates with one outcome. */
  ghost predicate RunClampsNothing(weights: seq<real>, count: nat, lr: real, done: nat, o: TradeOutcome, times: nat)
    decreases times
  {
    times == 0
    || (NothingClamps(weights, o.activeRules, count,
                      Product(lr, o.y - Prediction(weights, o.activeRules, count)), 0.0)
        && RunClampsNothing(Updated(weights, count, lr, 0.0, done, o), count, lr, done + 1, o, times - 1))
  }

  // The rate: while nothing clamps, n updates with one outcome multiply its error by (1 - k * lr)^n.
  lemma {:induction false} RepeatedOutcomeConverges(weights: seq<real>, count: nat, lr: real, done: nat,
                                                     o: TradeOutcome, times: nat)
    requires |weights| == MAX_RULES && RunClampsNothing(weights, count, lr, done, o, times)
    ensures var after := RunUpdates(weights, count, lr, 0.0, done, Repeat(o, times));
            var f := Factor(ActiveCount(o.activeRules, count, MAX_RULES) as real, lr, 0.0);
            o.y - Prediction(after, o.activeRules, count)
            == Product(Power(f, times), o.y - Prediction(weights, o.activeRules, count))
    decreases times
  {
    hide Prediction, Updated, ActiveCount, NothingClamps, Power, Product, Shrunk, Factor;
    var e := o.y - Prediction(weights, o.activeRules, count);
    var k := ActiveCount(o.activeRules, count, MAX_RULES) as real;
    var f := Factor(k, lr, 0.0);
    PowerStep(f, if times == 0 then 0 else times - 1, e);
    if times > 0 {
      ShrunkIs(k, lr, e);
      FreeUpdateScales(weights, count, lr, done, o);
      RepeatedOutcomeConverges(Updated(weights, count, lr, 0.0, done, o), count, lr, done + 1, o, times - 1);
      assert Repeat(o, times)[1..] == Repeat(o, times - 1);
    }
  }

  lemma NoDecay(x: real, p: real, decay: real)
    requires decay == 0.0
    ensures Product(x, 1.0 - decay) == x && Product(decay, p) == 0.0
  {
  }

  lemma FreeUpdateScales(weights: seq<real>, count: nat, lr: real, done: nat, o: TradeOutcome)
    requires |weights| == MAX_RULES
    requires NothingClamps(weights, o.activeRules, count,
                           Product(lr, o.y - Prediction(weights, o.activeRules, count)), 0.0)
    ensures o.y - Prediction(Updated(weights, count, lr, 0.0, done, o), o.activeRules, count)
            == Shrunk(ActiveCount(o.activeRules, count, MAX_RULES) as real, lr,
                      o.y - Prediction(weights, o.activeRules, count))
  {
    hide Prediction, Updated, ActiveCount, NothingClamps, Product, Shrunk;
    var p := Prediction(weights, o.activeRules, count);
    var k := ActiveCount(o.activeRules, count, MAX_RULES) as real;
    var decay := 0.0;
    ErrorWithDecay(weights, count, lr, decay, done, o);
    NoDecay(o.y - (Shrunk(k, lr, o.y - p) + Product(decay, p)), p, decay);
  }

  // ---- where repeated updates lead with decay

  /** The same run with decay: no weight clamps, and none of the updates is one with the dense decay. */
  ghost predicate RunIsPlain(weights: seq<real>, count: nat, lr: real, decay: real, done: nat, o: TradeOutcome,
                             times: nat)
    decreases times
  {
    times == 0
    || (NothingClamps(weights, o.activeRules, count,
                      Product(lr, o.y - Prediction(weights, o.activeRules, count)), decay)
        && (done + 1) % 128 != 0
        && RunIsPlain(Updated(weights, count, lr, decay, done, o), count, lr, decay, done + 1, o, times - 1))
  }

  /** The prediction that an update with decay leaves alone. */
  predicate IsFixed(k: real, lr: real, decay: real, y: real, star: real) {
    (k * lr + decay) * star == k * lr * y
  }

  lemma GapShrinks(y: real, p: real, k: real, lr: real, decay: real, star: real)
    requires IsFixed(k, lr, decay, y, star)
    ensures y - (Shrunk(k, lr, y - p) + Product(decay, p)) - star == Product(Factor(k, lr, decay), p - star)
  {
    assert (k * lr + decay) * star == k * lr * star + decay * star;
  }

  // One such update moves the prediction towards the fixed point by the factor 1 - k * lr - decay.
  lemma PlainUpdateContracts(weights: seq<real>, count: nat, lr: real, decay: real, done: nat, o: TradeOutcome,
                             star: real)
    requires |weights| == MAX_RULES && (done + 1) % 128 != 0
    requires NothingClamps(weights, o.activeRules, count,
                           Product(lr, o.y - Prediction(weights, o.activeRules, count)), decay)
    requires IsFixed(ActiveCount(o.activeRules, count, MAX_RULES) as real, lr, decay, o.y, star)
    ensures Prediction(Updated(weights, count, lr, decay, done, o), o.activeRules, count) - star
            == Product(Factor(ActiveCount(o.activeRules, count, MAX_RULES) as real, lr, decay),
                       Prediction(weights, o.activeRules, count) - star)
  {
    hide Prediction, Updated, ActiveCount, NothingClamps, Product, Shrunk, IsFixed, Factor;
    ErrorWithDecay(weights, count, lr, decay, done, o);
    GapShrinks(o.y, Prediction(weights, o.activeRules, count),
               ActiveCount(o.activeRules, count, MAX_RULES) as real, lr, decay, star);
  }

  // n such updates with one outcome bring the prediction closer to the fixed point, which decay puts short of
  // the label, by the n-th power of that factor.
  lemma {:induction false} RepeatedOutcomeSettles(weights: seq<real>, count: nat, lr: real, decay: real, done: nat,
                                                   o: TradeOutcome, times: nat, star: real)
    requires |weights| == MAX_RULES && RunIsPlain(weights, count, lr, decay, done, o, times)
    requires IsFixed(ActiveCount(o.activeRules, count, MAX_RULES) as real, lr, decay, o.y, star)
    ensures var after := RunUpdates(weights, count, lr, decay, done, Repeat(o, times));
            var f := Factor(ActiveCount(o.activeRules, count, MAX_RULES) as real, lr, decay);
            Prediction(after, o.activeRules, count) - star
            == Product(Power(f, times), Prediction(weights, o.activeRules, count) - star)
    decreases times
  {
    hide Prediction, Updated, ActiveCount, NothingClamps, Power, Product, IsFixed, Factor;
    var f := Factor(ActiveCount(o.activeRules, count, MAX_RULES) as real, lr, decay);
    var gap := Prediction(weights, o.activeRules, count) - star;
    PowerStep(f, if times == 0 then 0 else times - 1, gap);
    if times > 0 {
      PlainUpdateContracts(weights, count, lr, decay, done, o, star);
      RepeatedOutcomeSettles(Updated(weights, count, lr, decay, done, o), count, lr, decay, done + 1, o, times - 1,
                             star);
      assert Repeat(o, times)[1..] == Repeat(o, times - 1);
    }
  }

  // With active rules, the shipped rate and the shipped decay the factor is strictly between -1 and 1.
  lemma DefaultFactorContracts(words: seq<Word>, count: nat)
    requires ActiveCount(words, count, MAX_RULES) > 0
    ensures -1.0 < Factor(ActiveCount(words, count, MAX_RULES) as real, DEFAULT_LR, DEFAULT_DECAY) < 1.0
  {
    DefaultRateIsInRange(words, count);
  }
}
