/** WideBitmask and its bulk operations: sixteen 64-bit words standing for a set of rule indices. */
module RuleMask {
  import opened Bits
  import Remainders

  const NUM_WORDS: nat := 16
  const MAX_RULES: nat := 1024

  predicate Test(words: seq<Word>, i: nat) {
    i / 64 < |words| && Bit(words[i / 64], i % 64)
  }

  /** The set of rule indices a mask stands for. */
  ghost function Members(words: seq<Word>): set<nat> {
    set i | 0 <= i < 64 * |words| && Test(words, i)
  }

  lemma Pow2OfWord()
    ensures Pow2(64) == WORD_LIMIT
  {
    assert Pow2(1) == 2;
    Pow2Adds(1, 1);
    Pow2Adds(2, 2);
    Pow2Adds(4, 4);
    Pow2Adds(8, 8);
    Pow2Adds(16, 16);
    Pow2Adds(32, 32);
  }

  lemma {:induction false} Pow2Adds(a: nat, b: nat)
    ensures Pow2(a + b) == Pow2(a) * Pow2(b)
  {
    if a > 0 {
      Pow2Adds(a - 1, b);
    }
  }

  lemma {:induction false} Pow2Below(b: nat, k: nat)
    requires b < k
    ensures Pow2(b) < Pow2(k)
    decreases k
  {
    if b < k - 1 {
      Pow2Below(b, k - 1);
    }
  }

  lemma WordOpFits(op: (bool, bool) -> bool, x: Word, y: Word)
    requires !op(false, false)
    ensures Bitwise(op, x, y) < WORD_LIMIT
  {
    Pow2OfWord();
    BitwiseFits(op, x, y, 64);
  }

  function WordOp(op: (bool, bool) -> bool, x: Word, y: Word): Word
    requires !op(false, false)
  {
    WordOpFits(op, x, y);
    Bitwise(op, x, y)
  }

  /** 1ULL << b */
  function Flag(b: nat): Word
    requires b < 64
  {
    Pow2OfWord();
    Pow2Below(b, 64);
    Pow2(b)
  }

  // ---- block-wise in-place operations, four words per step

  method BlockwiseInplace(op: (bool, bool) -> bool, a: array<Word>, b: array<Word>)
    requires a.Length == b.Length == NUM_WORDS && !op(false, false)
    modifies a
    ensures forall i :: 0 <= i < 64 * NUM_WORDS ==> Test(a[..], i) == op(Test(old(a[..]), i), Test(old(b[..]), i))
  {
    var i := 0;
    while i < NUM_WORDS
      invariant 0 <= i <= NUM_WORDS && i % 4 == 0
      invariant forall k :: 0 <= k < i ==> a[k] == WordOp(op, old(a[k]), old(b[k]))
      invariant forall k :: i <= k < NUM_WORDS ==> a[k] == old(a[k]) && b[k] == old(b[k])
    {
      a[i], a[i + 1], a[i + 2], a[i + 3] :=
        WordOp(op, a[i], b[i]), WordOp(op, a[i + 1], b[i + 1]),
        WordOp(op, a[i + 2], b[i + 2]), WordOp(op, a[i + 3], b[i + 3]);
      i := i + 4;
    }
    forall j | 0 <= j < 64 * NUM_WORDS
      ensures Test(a[..], j) == op(Test(old(a[..]), j), Test(old(b[..]), j))
    {
      BitwiseBit(op, old(a[..])[j / 64], old(b[..])[j / 64], j % 64);
    }
  }

  method AndInplace(a: array<Word>, b: array<Word>)
    requires a.Length == b.Length == NUM_WORDS
    modifies a
    ensures Members(a[..]) == Members(old(a[..])) * Members(old(b[..]))
  {
    BlockwiseInplace(AndOp, a, b);
  }

  method OrInplace(a: array<Word>, b: array<Word>)
    requires a.Length == b.Length == NUM_WORDS
    modifies a
    ensures Members(a[..]) == Members(old(a[..])) + Members(old(b[..]))
  {
    BlockwiseInplace(OrOp, a, b);
  }

  method XorInplace(a: array<Word>, b: array<Word>)
    requires a.Length == b.Length == NUM_WORDS
    modifies a
    ensures var x, y := Members(old(a[..])), Members(old(b[..]));
            Members(a[..]) == (x - y) + (y - x)
  {
    BlockwiseInplace(XorOp, a, b);
  }

  method AndNotInplace(a: array<Word>, b: array<Word>)
    requires a.Length == b.Length == NUM_WORDS
    modifies a
    ensures Members(a[..]) == Members(old(a[..])) - Members(old(b[..]))
  {
    BlockwiseInplace(AndNotOp, a, b);
  }

  method AnySet(words: seq<Word>) returns (any: bool)
    requires |words| == NUM_WORDS
    ensures any <==> Members(words) != {}
  {
    for i := 0 to NUM_WORDS
      invariant forall k :: 0 <= k < i ==> words[k] == 0
    {
      if words[i] != 0 {
        CtzIsLowest(words[i], 0);
        Pow2OfWord();
        BitsFit(words[i], 64, Ctz(words[i]));
        var m := 64 * i + Ctz(words[i]);
        Remainders.DivModUnique(m, 64, i, Ctz(words[i]));
        assert m in Members(words);
        return true;
      }
    }
    forall j | 0 <= j < 64 * |words| ensures !Test(words, j) {
      BitOfZero(j % 64);
    }
    any := false;
  }

  // ---- single bits

  // words[bit >> 6] op= flag, where the flag is 1 << (bit & 63) or zero.
  method UpdateWord(op: (bool, bool) -> bool, words: array<Word>, bit: nat, flag: bool)
    requires words.Length == NUM_WORDS && bit < MAX_RULES && !op(false, false)
    requires forall x :: op(x, false) == x
    modifies words
    ensures forall i :: 0 <= i < 64 * NUM_WORDS ==>
              Test(words[..], i) ==
                if i == bit && flag then op(Test(old(words[..]), i), true) else Test(old(words[..]), i)
  {
    var mask: Word := if flag then Flag(bit % 64) else 0;
    words[bit / 64] := WordOp(op, words[bit / 64], mask);
    forall i | 0 <= i < 64 * NUM_WORDS
      ensures Test(words[..], i) ==
                if i == bit && flag then op(Test(old(words[..]), i), true) else Test(old(words[..]), i)
    {
      if i / 64 == bit / 64 {
        BitwiseBit(op, old(words[bit / 64]), mask, i % 64);
        BitOfPow2(bit % 64, i % 64);
        BitOfZero(i % 64);
      }
    }
  }

  method Set(words: array<Word>, bit: nat)
    requires words.Length == NUM_WORDS && bit < MAX_RULES
    modifies words
    ensures Members(words[..]) == Members(old(words[..])) + {bit}
  {
    UpdateWord(OrOp, words, bit, true);
  }

  method Clear(words: array<Word>, bit: nat)
    requires words.Length == NUM_WORDS && bit < MAX_RULES
    modifies words
    ensures Members(words[..]) == Members(old(words[..])) - {bit}
  {
    UpdateWord(AndNotOp, words, bit, true);
  }

  method SetIf(words: array<Word>, bit: nat, cond: bool)
    requires words.Length == NUM_WORDS && bit < MAX_RULES
    modifies words
    ensures Members(words[..]) == Members(old(words[..])) + (if cond then {bit} else {})
  {
    UpdateWord(OrOp, words, bit, cond);
  }

  method Reset(words: array<Word>)
    modifies words
    ensures Members(words[..]) == {}
  {
    for i := 0 to words.Length
      invariant forall k :: 0 <= k < i ==> words[k] == 0
    {
      words[i] := 0;
    }
    forall i | 0 <= i < 64 * words.Length ensures !Test(words[..], i) {
      BitOfZero(i % 64);
    }
  }
}
