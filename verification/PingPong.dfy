/** SpscPingPong, one shared access at a time: the writer fills a slot word by word and then
    publishes the next index, the reader acquires an index and copies a slot word by word.
    Memory follows release/acquire as in SpscProtocol: an index load may be stale and a word
    read may return any write to that word not hidden by a later visible one. */
module PingPong {
  datatype WordWrite<V> = WordWrite(store: nat, slot: nat, word: nat, value: V)

  datatype Writer = StoreIdle | StoreWord(word: nat)
  datatype Reader<V> = LoadIdle | Copy(out: seq<V>)

  /** A load that returned true: the index it read, what it copied, and how many stores
      had begun when its copy ended. */
  datatype Load<V> = Load(idx: nat, out: seq<V>, begun: nat)

  datatype State<V> = State(
    words: nat,              // words per value
    stored: seq<seq<V>>,     // values whose store() has begun; number j goes to slot j & 1
    log: seq<WordWrite<V>>,  // every word written to buf_
    marks: seq<nat>,         // marks[k]: words written before write_idx_ became k
    blank: V,
    lastSeen: nat,           // reader-private, also the index position it has acquired
    wordsSeen: nat,          // word writes visible to the reader
    idx: nat,                // index read by the load in progress
    writer: Writer,
    reader: Reader<V>,
    loads: seq<Load<V>>
  )

  datatype Action<V> =
    | Begin(value: seq<V>)
    | WriteWord
    | Publish
    | LoadIndex(pos: nat)
    | CopyWord(shown: V)
    | Finish

  function Init<V>(words: nat, blank: V): State<V> {
    State(words, [], [], [0], blank, 0, 0, 0, StoreIdle, LoadIdle, [])
  }

  /** The write index: the number of stores published. */
  function Published<V>(s: State<V>): nat
    requires |s.marks| > 0
  {
    |s.marks| - 1
  }

  ghost predicate Hits<V>(s: State<V>, w: nat, slot: nat, word: nat)
    requires w < |s.log|
  {
    s.log[w].slot == slot && s.log[w].word == word
  }

  ghost predicate Readable<V>(s: State<V>, w: nat, slot: nat, word: nat)
    requires w < |s.log|
  {
    Hits(s, w, slot, word) && forall v :: w < v < s.wordsSeen && v < |s.log| ==> !Hits(s, v, slot, word)
  }

  ghost predicate MayRead<V>(s: State<V>, slot: nat, word: nat, value: V) {
    || (exists w :: 0 <= w < |s.log| && Readable(s, w, slot, word) && s.log[w].value == value)
    || (value == s.blank && forall w :: 0 <= w < s.wordsSeen && w < |s.log| ==> !Hits(s, w, slot, word))
  }

  /** The slot a load that read index `idx` copies from. */
  function SourceSlot(idx: nat): nat
    requires idx > 0
  {
    (idx - 1) % 2
  }

  ghost predicate Enabled<V(!new)>(s: State<V>, a: Action<V>) {
    && |s.marks| > 0
    && match a
       case Begin(value) => s.writer.StoreIdle? && |value| == s.words
       case WriteWord => s.writer.StoreWord? && s.writer.word < s.words && |s.stored| > Published(s)
                         && |s.stored[Published(s)]| == s.words
       case Publish => s.writer.StoreWord? && s.writer.word == s.words
       case LoadIndex(pos) => s.reader.LoadIdle? && s.lastSeen <= pos < |s.marks|
       case CopyWord(shown) => s.reader.Copy? && |s.reader.out| < s.words && s.idx > 0
                               && MayRead(s, SourceSlot(s.idx), |s.reader.out|, shown)
       case Finish => s.reader.Copy? && |s.reader.out| == s.words
  }

  ghost function Apply<V(!new)>(s: State<V>, a: Action<V>): State<V>
    requires Enabled(s, a)
  {
    match a
    case Begin(value) => s.(stored := s.stored + [value], writer := StoreWord(0))
    case WriteWord =>
      var j, i := Published(s), s.writer.word;
      s.(log := s.log + [WordWrite(j, j % 2, i, s.stored[j][i])], writer := StoreWord(i + 1))
    case Publish => s.(marks := s.marks + [|s.log|], writer := StoreIdle)
    case LoadIndex(pos) =>
      if pos == s.lastSeen then s
      else s.(idx := pos, reader := Copy([]),
              wordsSeen := if s.wordsSeen < s.marks[pos] then s.marks[pos] else s.wordsSeen)
    case CopyWord(shown) => s.(reader := Copy(s.reader.out + [shown]))
    case Finish =>
      s.(lastSeen := s.idx, reader := LoadIdle, loads := s.loads + [Load(s.idx, s.reader.out, |s.stored|)])
  }

  ghost predicate Legal<V(!new)>(s: State<V>, run: seq<Action<V>>)
    decreases |run|
  {
    run == [] || (Enabled(s, run[0]) && Legal(Apply(s, run[0]), run[1..]))
  }

  ghost function Exec<V(!new)>(s: State<V>, run: seq<Action<V>>): State<V>
    requires Legal(s, run)
    decreases |run|
  {
    if run == [] then s else Exec(Apply(s, run[0]), run[1..])
  }

  /** Store j has written its word `word`. */
  ghost predicate Wrote<V>(s: State<V>, j: nat, word: nat) {
    exists w :: 0 <= w < |s.log| && s.log[w].store == j && s.log[w].word == word
  }

  /** Word i of a copy came from store j, which used the same slot as store idx - 1 or is it. */
  ghost predicate FromStore<V>(s: State<V>, idx: nat, begun: nat, i: nat, value: V, j: nat) {
    idx - 1 <= j < begun && (j - idx + 1) % 2 == 0 && j < |s.stored| && i < |s.stored[j]| && s.stored[j][i] == value
  }

  ghost predicate WordExplained<V(!new)>(s: State<V>, idx: nat, begun: nat, i: nat, value: V) {
    exists j: nat :: FromStore(s, idx, begun, i, value, j)
  }

  ghost predicate CopyExplained<V(!new)>(s: State<V>, idx: nat, begun: nat, out: seq<V>) {
    && 0 < idx
    && forall i :: 0 <= i < |out| ==> WordExplained(s, idx, begun, i, out[i])
  }

  ghost predicate LogInv<V(!new)>(s: State<V>) {
    && |s.marks| > 0
    && |s.stored| == Published(s) + (if s.writer.StoreWord? then 1 else 0)
    && (forall j :: 0 <= j < |s.stored| ==> |s.stored[j]| == s.words)
    && (s.writer.StoreWord? ==> s.writer.word <= s.words)
    && (forall w :: 0 <= w < |s.log| ==>
          var e := s.log[w];
          e.store < |s.stored| && e.slot == e.store % 2 && e.word < s.words && e.value == s.stored[e.store][e.word])
    && (forall v, w :: 0 <= v < w < |s.log| ==> s.log[v].store <= s.log[w].store)
    && (forall k :: 0 <= k < |s.marks| ==> s.marks[k] <= |s.log|)
    && (forall k, w :: 0 <= k < |s.marks| && 0 <= w < |s.log| ==> (w < s.marks[k] <==> s.log[w].store < k))
    && (forall j, i :: 0 <= j < Published(s) && 0 <= i < s.words ==> Wrote(s, j, i))
    && (s.writer.StoreWord? ==> forall i :: 0 <= i < s.writer.word ==> Wrote(s, Published(s), i))
  }

  ghost predicate Inv<V(!new)>(s: State<V>) {
    && LogInv(s)
    && s.lastSeen <= s.idx <= Published(s) && s.wordsSeen == s.marks[s.idx]
    && (s.reader.LoadIdle? ==> s.idx == s.lastSeen)
    && (s.reader.Copy? ==> s.lastSeen < s.idx && |s.reader.out| <= s.words
                           && CopyExplained(s, s.idx, |s.stored|, s.reader.out))
    && (forall n :: 0 <= n < |s.loads| ==>
          var l := s.loads[n];
          l.idx <= s.lastSeen && l.begun <= |s.stored| && |l.out| == s.words && CopyExplained(s, l.idx, l.begun, l.out))
    && (forall m, n :: 0 <= m < n < |s.loads| ==> s.loads[m].idx < s.loads[n].idx)
  }

  lemma InitSatisfiesInv<V(!new)>(words: nat, blank: V)
    ensures Inv(Init(words, blank))
  {
  }

  lemma SamePairKept<V(!new)>(s: State<V>, t: State<V>, idx: nat, begun: nat, begun': nat, out: seq<V>)
    requires CopyExplained(s, idx, begun, out) && s.stored <= t.stored && begun <= begun'
    ensures CopyExplained(t, idx, begun', out)
  {
    forall i | 0 <= i < |out| ensures WordExplained(t, idx, begun', i, out[i]) {
      var j: nat :| FromStore(s, idx, begun, i, out[i], j);
      assert t.stored[j] == s.stored[j];
      assert FromStore(t, idx, begun', i, out[i], j);
    }
  }

  lemma WritesKept<V(!new)>(s: State<V>, t: State<V>, j: nat, i: nat)
    requires Wrote(s, j, i) && s.log <= t.log
    ensures Wrote(t, j, i)
  {
    var w :| 0 <= w < |s.log| && s.log[w].store == j && s.log[w].word == i;
    assert t.log[w] == s.log[w];
  }

  lemma MarksGrow<V(!new)>(s: State<V>, k: nat, k': nat)
    requires LogInv(s) && k <= k' < |s.marks|
    ensures s.marks[k] <= s.marks[k']
  {
    var w := s.marks[k'];
    assert w < |s.log| ==> (w < s.marks[k] <==> s.log[w].store < k);
  }

  // Where the store whose index was read wrote its word i.
  lemma OwnWrite<V(!new)>(s: State<V>, i: nat) returns (own: nat)
    requires Inv(s) && s.reader.Copy? && i < s.words
    ensures own < s.wordsSeen <= |s.log| && Hits(s, own, SourceSlot(s.idx), i) && s.log[own].store == s.idx - 1
  {
    hide CopyExplained;
    assert Wrote(s, s.idx - 1, i);
    own :| 0 <= own < |s.log| && s.log[own].store == s.idx - 1 && s.log[own].word == i;
  }

  // A readable word is the one of store idx - 1 or of a later store into the same slot.
  lemma ReadIsExplained<V(!new)>(s: State<V>, i: nat, value: V)
    requires Inv(s) && s.reader.Copy? && i < s.words && MayRead(s, SourceSlot(s.idx), i, value)
    ensures WordExplained(s, s.idx, |s.stored|, i, value)
  {
    hide CopyExplained, Wrote;
    var k, slot := s.idx, SourceSlot(s.idx);
    var own := OwnWrite(s, i);
    var w :| 0 <= w < |s.log| && Readable(s, w, slot, i) && s.log[w].value == value;
    assert own <= w;
    assert FromStore(s, k, |s.stored|, i, value, s.log[w].store);
  }

  lemma StepKeepsLog<V(!new)>(s: State<V>, a: Action<V>)
    requires Inv(s) && Enabled(s, a)
    ensures LogInv(Apply(s, a))
  {
    var t := Apply(s, a);
    forall j, i | 0 <= j < Published(s) && 0 <= i < s.words ensures Wrote(t, j, i) {
      WritesKept(s, t, j, i);
    }
    if s.writer.StoreWord? {
      forall i | 0 <= i < s.writer.word ensures Wrote(t, Published(s), i) {
        WritesKept(s, t, Published(s), i);
      }
      if a.WriteWord? {
        assert t.log[|s.log|].store == Published(s) && t.log[|s.log|].word == s.writer.word;
      }
    }
  }

  lemma StepKeepsInv<V(!new)>(s: State<V>, a: Action<V>)
    requires Inv(s) && Enabled(s, a)
    ensures Inv(Apply(s, a))
  {
    StepKeepsLog(s, a);
    var t := Apply(s, a);
    forall n | 0 <= n < |s.loads| ensures CopyExplained(t, s.loads[n].idx, s.loads[n].begun, s.loads[n].out) {
      SamePairKept(s, t, s.loads[n].idx, s.loads[n].begun, s.loads[n].begun, s.loads[n].out);
    }
    if a.LoadIndex? {
      MarksGrow(s, s.idx, a.pos);
    }
    if s.reader.Copy? {
      var out := if a.CopyWord? then s.reader.out + [a.shown] else s.reader.out;
      if a.CopyWord? {
        ReadIsExplained(s, |s.reader.out|, a.shown);
      }
      SamePairKept(s, t, s.idx, |s.stored|, |t.stored|, out);
    }
  }

  lemma {:induction false} RunKeepsInv<V(!new)>(s: State<V>, run: seq<Action<V>>)
    requires Inv(s) && Legal(s, run)
    ensures Inv(Exec(s, run))
    decreases |run|
  {
    if run != [] {
      StepKeepsInv(s, run[0]);
      RunKeepsInv(Apply(s, run[0]), run[1..]);
    }
  }

  // ---- results, for every interleaving and every choice the memory makes

  // Successful loads see strictly increasing indices, each of a published store, and a load that
  // read index k copied the k-th stored value exactly, provided store k + 2 had not begun by the
  // end of its copy (the k-th store is number k - 1 here).  Store k + 1 may overlap freely.
  lemma LoadsAreWhole<V(!new)>(words: nat, blank: V, run: seq<Action<V>>)
    requires Legal(Init(words, blank), run)
    ensures var s := Exec(Init(words, blank), run);
            && (forall m, n :: 0 <= m < n < |s.loads| ==> s.loads[m].idx < s.loads[n].idx)
            && (forall n :: 0 <= n < |s.loads| ==>
                  var l := s.loads[n];
                  && 0 < l.idx <= |s.stored|
                  && (l.begun <= l.idx + 1 ==> l.out == s.stored[l.idx - 1]))
  {
    var s := Exec(Init(words, blank), run);
    InitSatisfiesInv(words, blank);
    RunKeepsInv(Init(words, blank), run);
    forall n | 0 <= n < |s.loads| && s.loads[n].begun <= s.loads[n].idx + 1
      ensures s.loads[n].out == s.stored[s.loads[n].idx - 1]
    {
      WholeCopy(s, s.loads[n]);
    }
  }

  lemma WholeCopy<V(!new)>(s: State<V>, l: Load<V>)
    requires LogInv(s) && l.idx <= |s.stored| && |l.out| == s.words
    requires CopyExplained(s, l.idx, l.begun, l.out) && l.begun <= l.idx + 1
    ensures l.out == s.stored[l.idx - 1]
  {
    forall i | 0 <= i < |l.out| ensures l.out[i] == s.stored[l.idx - 1][i] {
      assert WordExplained(s, l.idx, l.begun, i, l.out[i]);
      var j: nat :| FromStore(s, l.idx, l.begun, i, l.out[i], j);
    }
  }

  // A load answers "nothing new" exactly when the index it read is the one last loaded; otherwise it starts a
  // copy of that index.
  lemma LoadFetchesWhenNew<V(!new)>(words: nat, blank: V, run: seq<Action<V>>, pos: nat)
    requires Legal(Init(words, blank), run) && Enabled(Exec(Init(words, blank), run), LoadIndex(pos))
    ensures var s := Exec(Init(words, blank), run); var t := Apply(s, LoadIndex(pos));
            if pos == s.lastSeen then t == s else t.reader == Copy([]) && t.idx == pos > s.lastSeen
  {
  }

  // In general every copied word belongs to the k-th store or to a later store into the same slot.
  lemma TornWordsComeFromLaterStores<V(!new)>(words: nat, blank: V, run: seq<Action<V>>, n: nat, i: nat)
    requires Legal(Init(words, blank), run)
    requires n < |Exec(Init(words, blank), run).loads| && i < words
    ensures var s := Exec(Init(words, blank), run);
            var l := s.loads[n];
            && 0 < l.idx && i < |l.out|
            && exists j: nat :: FromStore(s, l.idx, l.begun, i, l.out[i], j)
  {
    var s := Exec(Init(words, blank), run);
    InitSatisfiesInv(words, blank);
    RunKeepsInv(Init(words, blank), run);
    RunKeepsWords(Init(words, blank), run);
    assert WordExplained(s, s.loads[n].idx, s.loads[n].begun, i, s.loads[n].out[i]);
  }

  lemma {:induction false} RunKeepsWords<V(!new)>(s: State<V>, run: seq<Action<V>>)
    requires Legal(s, run)
    ensures Exec(s, run).words == s.words
    decreases |run|
  {
    if run != [] {
      RunKeepsWords(Apply(s, run[0]), run[1..]);
    }
  }

  // While copying word i, the memory can only show the k-th store's word exactly when no later
  // store has put a different value into that word of the slot.
  lemma WordIsSafeIff<V(!new)>(s: State<V>, i: nat)
    requires Inv(s) && s.reader.Copy? && i < s.words
    ensures var own := s.stored[s.idx - 1][i];
            (forall value :: MayRead(s, SourceSlot(s.idx), i, value) ==> value == own)
            <==> (forall w :: 0 <= w < |s.log| && Hits(s, w, SourceSlot(s.idx), i) && s.log[w].store >= s.idx
                    ==> s.log[w].value == own)
  {
    hide CopyExplained, Wrote;
    var slot, own := SourceSlot(s.idx), s.stored[s.idx - 1][i];
    if forall value :: MayRead(s, slot, i, value) ==> value == own {
      forall w | 0 <= w < |s.log| && Hits(s, w, slot, i) && s.log[w].store >= s.idx ensures s.log[w].value == own {
        assert s.marks[s.idx] <= w;
        assert Readable(s, w, slot, i);
        assert MayRead(s, slot, i, s.log[w].value);
      }
    } else {
      var value :| MayRead(s, slot, i, value) && value != own;
      var mine := OwnWrite(s, i);
      var w :| 0 <= w < |s.log| && Readable(s, w, slot, i) && s.log[w].value == value;
      assert mine <= w;
      assert s.log[w].store >= s.idx;
    }
  }

  // ---- nothing is stuck

  lemma Chain<V(!new)>(s: State<V>, a: Action<V>, rest: seq<Action<V>>)
    requires Enabled(s, a) && Legal(Apply(s, a), rest)
    ensures Legal(s, [a] + rest) && Exec(s, [a] + rest) == Exec(Apply(s, a), rest)
  {
    assert ([a] + rest)[1..] == rest;
  }

  // The last of the first n word writes to a place, when there is one.
  lemma LastHit<V(!new)>(s: State<V>, slot: nat, word: nat, some: nat, n: nat) returns (w: nat)
    requires some < n <= |s.log| && Hits(s, some, slot, word)
    ensures some <= w < n && Hits(s, w, slot, word) && forall v :: w < v < n ==> !Hits(s, v, slot, word)
  {
    w := n - 1;
    while !Hits(s, w, slot, word)
      invariant some <= w < n && forall v :: w < v < n ==> !Hits(s, v, slot, word)
      decreases w
    {
      w := w - 1;
    }
  }

  // A copy may always see the words of the store whose index it read.
  lemma OwnIsReadable<V(!new)>(s: State<V>, i: nat)
    requires Inv(s) && s.reader.Copy? && i < s.words
    ensures MayRead(s, SourceSlot(s.idx), i, s.stored[s.idx - 1][i])
  {
    hide CopyExplained, Wrote;
    var mine := OwnWrite(s, i);
    var w := LastHit(s, SourceSlot(s.idx), i, mine, s.marks[s.idx]);
    assert s.log[w].store == s.idx - 1;
    assert Readable(s, w, SourceSlot(s.idx), i);
  }

  lemma {:induction false} CopyRest<V(!new)>(s: State<V>) returns (more: seq<Action<V>>)
    requires Inv(s) && s.reader.Copy? && s.reader.out <= s.stored[s.idx - 1]
    ensures Legal(s, more)
    ensures var l := Load(s.idx, s.stored[s.idx - 1], |s.stored|);
            Exec(s, more) == s.(lastSeen := s.idx, reader := LoadIdle, loads := s.loads + [l])
    decreases s.words - |s.reader.out|
  {
    hide MayRead, CopyExplained, Wrote;
    if |s.reader.out| == s.words {
      assert s.reader.out == s.stored[s.idx - 1];
      Chain(s, Finish, []);
      more := [Finish];
    } else {
      var word := s.stored[s.idx - 1][|s.reader.out|];
      OwnIsReadable(s, |s.reader.out|);
      StepKeepsInv(s, CopyWord(word));
      var rest := CopyRest(Apply(s, CopyWord(word)));
      Chain(s, CopyWord(word), rest);
      more := [CopyWord(word)] + rest;
    }
  }

  // An idle reader that has missed a store can load the latest published value whole, and nothing else changes
  // but what it has seen; the writer may be anywhere in its next store.
  lemma FreshLoad<V(!new)>(s: State<V>) returns (more: seq<Action<V>>)
    requires Inv(s) && s.reader.LoadIdle? && s.lastSeen < Published(s)
    ensures Legal(s, more)
    ensures var k, t := Published(s), Exec(s, more);
            && t.loads == s.loads + [Load(k, s.stored[k - 1], |s.stored|)] && t.lastSeen == k && t.reader.LoadIdle?
            && t.stored == s.stored && t.marks == s.marks && t.writer == s.writer
  {
    var a: Action<V> := LoadIndex(Published(s));
    StepKeepsInv(s, a);
    var rest := CopyRest(Apply(s, a));
    Chain(s, a, rest);
    more := [a] + rest;
  }

  lemma {:induction false} WriteRest<V(!new)>(s: State<V>) returns (more: seq<Action<V>>)
    requires Inv(s) && s.writer.StoreWord?
    ensures Legal(s, more)
    ensures var t := Exec(s, more);
            t == s.(log := t.log, marks := t.marks, writer := StoreIdle) && |t.marks| == |s.marks| + 1
    decreases s.words - s.writer.word
  {
    hide MayRead, CopyExplained, Wrote;
    if s.writer.word == s.words {
      Chain(s, Publish, []);
      more := [Publish];
    } else {
      StepKeepsInv(s, WriteWord);
      var rest := WriteRest(Apply(s, WriteWord));
      Chain(s, WriteWord, rest);
      more := [WriteWord] + rest;
    }
  }

  // From every state of every run with both threads idle, one store and one load deliver the value stored.
  lemma StoreThenLoadDelivers<V(!new)>(words: nat, blank: V, run: seq<Action<V>>, value: seq<V>)
    returns (storing: seq<Action<V>>, loading: seq<Action<V>>)
    requires Legal(Init(words, blank), run) && |value| == words
    requires Exec(Init(words, blank), run).writer.StoreIdle? && Exec(Init(words, blank), run).reader.LoadIdle?
    ensures var s := Exec(Init(words, blank), run);
            && Legal(s, storing) && Legal(Exec(s, storing), loading)
            && var t := Exec(Exec(s, storing), loading);
            && t.stored == s.stored + [value] && t.writer.StoreIdle? && t.reader.LoadIdle?
            && t.loads == s.loads + [Load(|t.stored|, value, |t.stored|)]
  {
    InitSatisfiesInv(words, blank);
    RunKeepsInv(Init(words, blank), run);
    RunKeepsWords(Init(words, blank), run);
    var s := Exec(Init(words, blank), run);
    StepKeepsInv(s, Begin(value));
    var rest := WriteRest(Apply(s, Begin(value)));
    Chain(s, Begin(value), rest);
    storing := [Begin(value)] + rest;
    RunKeepsInv(s, storing);
    loading := FreshLoad(Exec(s, storing));
  }

  ghost predicate Reaches<V(!new)>(s: State<V>, run: seq<Action<V>>, t: State<V>) {
    Legal(s, run) && Exec(s, run) == t
  }

  lemma {:induction false} OneMore<V(!new)>(s: State<V>, run: seq<Action<V>>, t: State<V>, a: Action<V>)
    requires Reaches(s, run, t) && Enabled(t, a)
    ensures Reaches(s, run + [a], Apply(t, a))
    decreases |run|
  {
    if run == [] {
      assert [a][1..] == [];
    } else {
      OneMore(Apply(s, run[0]), run[1..], t, a);
      assert (run + [a])[1..] == run[1..] + [a];
    }
  }

  lemma Perform<V(!new)>(s: State<V>, run: seq<Action<V>>, t: State<V>, a: Action<V>)
    returns (run': seq<Action<V>>, t': State<V>)
    requires Reaches(s, run, t) && Enabled(t, a)
    ensures Reaches(s, run', t') && t' == Apply(t, a)
  {
    OneMore(s, run, t, a);
    run', t' := run + [a], Apply(t, a);
  }

  // A whole store of a two-word value.
  lemma PerformStore(s: State<int>, run: seq<Action<int>>, t: State<int>, a: int)
    returns (run': seq<Action<int>>, t': State<int>)
    requires Reaches(s, run, t) && t.words == 2 && t.writer.StoreIdle? && |t.marks| == |t.stored| + 1
    ensures Reaches(s, run', t')
    ensures var j := |t.stored|;
            var log := t.log + [WordWrite(j, j % 2, 0, a), WordWrite(j, j % 2, 1, a)];
            t' == t.(stored := t.stored + [[a, a]], log := log, marks := t.marks + [|log|])
  {
    run', t' := Perform(s, run, t, Begin([a, a]));
    run', t' := Perform(s, run', t', WriteWord);
    run', t' := Perform(s, run', t', WriteWord);
    run', t' := Perform(s, run', t', Publish);
  }

  // The proviso cannot be dropped: store 3 overtaking a load of index 1 yields a value nobody stored.
  lemma OvertakenLoadTears() returns (run: seq<Action<int>>)
    ensures Legal(Init(2, 0), run)
    ensures var s := Exec(Init(2, 0), run);
            |s.loads| == 1 && s.loads[0].idx == 1 && s.loads[0].begun == 3 && s.loads[0].out !in s.stored
  {
    var s0, s := Init(2, 0), Init(2, 0);
    run, s := PerformStore(s0, [], s, 1);
    run, s := Perform(s0, run, s, LoadIndex(1));
    assert Readable(s, 0, 0, 0);
    run, s := Perform(s0, run, s, CopyWord(1));
    run, s := PerformStore(s0, run, s, 2);
    run, s := PerformStore(s0, run, s, 3);
    assert Readable(s, 5, 0, 1);
    run, s := Perform(s0, run, s, CopyWord(3));
    run, s := Perform(s0, run, s, Finish);
    assert s.loads[0].out == [1, 3] && s.stored == [[1, 1], [2, 2], [3, 3]];
  }

  // ---- the same code as its two owners call it, each call running to completion

  class Buffer<T(0)> {
    var writeIdx: nat
    const buf: array<T>
    var lastSeen: nat
    ghost var stored: seq<T>

    ghost predicate Valid()
      reads this, buf
    {
      && buf.Length == 2 && writeIdx == |stored| && lastSeen <= writeIdx
      && (forall j :: 0 <= j < writeIdx && writeIdx - 2 <= j ==> buf[j % 2] == stored[j])
    }

    constructor ()
      ensures Valid() && stored == [] && lastSeen == 0 && fresh(buf)
    {
      buf := new T[2];
      writeIdx, lastSeen, stored := 0, 0, [];
    }

    method Store(val: T)
      requires Valid()
      modifies this`writeIdx, this`stored, buf
      ensures Valid() && stored == old(stored) + [val]
    {
      var idx := writeIdx;
      buf[idx % 2] := val;
      writeIdx := idx + 1;
      stored := stored + [val];
    }

    // The latest value, and only once: false exactly when nothing was stored since the last load.
    method Load(previous: T) returns (fetched: bool, out: T)
      requires Valid()
      modifies this`lastSeen
      ensures Valid() && lastSeen == writeIdx
      ensures fetched <==> old(lastSeen) < |stored|
      ensures out == if fetched then stored[|stored| - 1] else previous
    {
      var idx := writeIdx;
      if idx == lastSeen {
        return false, previous;
      }
      out := buf[(idx - 1) % 2];
      lastSeen := idx;
      fetched := true;
    }
  }
}
