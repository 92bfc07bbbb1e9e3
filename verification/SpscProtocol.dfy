/** The single-producer single-consumer ring queues, one shared access at a time.

    Memory follows release/acquire: an atomic index is the sequence of all values ever
    stored in it, an acquire load may return any of them from the last one its thread has
    seen onwards, and it makes visible the slot writes that came before that store.  A plain
    slot read may return any write to that slot that is not hidden by a later visible one,
    so stale caches, stale loads and stale slots are all possible behaviours.

    `cached` selects SpscQueue, which tests its private copy of the other side's index
    first; without it the machine is LockFreeOrderQueue, which loads on every call. */
module SpscProtocol {
  import Remainders

  /** One plain write to the ring buffer, in the producer's program order. */
  datatype SlotWrite<T> = SlotWrite(slot: nat, value: T)

  /** One release store of the producer's index; `writes` slot writes precede it. */
  datatype Publication = Publication(index: nat, writes: nat)

  datatype Producer<T> = PushIdle | PushRefresh(item: T) | PushWrite(item: T) | PushPublish(item: T)
  datatype Consumer<T> = PopIdle | PopRefresh | PopRead | PopPublish(item: T)

  datatype State<T> = State(
    n: nat,
    cached: bool,
    heads: seq<Publication>,     // every value stored in head_, oldest first
    tails: seq<nat>,             // every value stored in tail_, oldest first
    log: seq<SlotWrite<T>>,      // every write to buffer_
    blank: T,                    // what buffer_ holds before its first write
    tailCache: nat,              // producer-private
    tailSeen: nat,               // position in `tails` the producer has acquired
    headCache: nat,              // consumer-private
    headSeen: nat,               // position in `heads` the consumer has acquired
    writesSeen: nat,             // slot writes visible to the consumer
    producer: Producer<T>,
    consumer: Consumer<T>,
    accepted: seq<T>,            // items whose try_push returned true
    popped: seq<T>               // items try_pop returned
  )

  datatype Action<T> =
    | PushStart(item: T)
    | LoadTail(pos: nat)
    | WriteSlot
    | StoreHead
    | PopStart
    | LoadHead(pos: nat)
    | ReadSlot(value: T)
    | StoreTail

  function Init<T>(n: nat, cached: bool, blank: T): State<T> {
    State(n, cached, [Publication(0, 0)], [0], [], blank, 0, 0, 0, 0, 0, PushIdle, PopIdle, [], [])
  }

  function Wrap(index: nat, n: nat): nat
    requires n > 0
  {
    (index + 1) % n
  }

  /** A thread always sees its own last store. */
  function Head<T>(s: State<T>): nat
    requires |s.heads| > 0
  {
    s.heads[|s.heads| - 1].index
  }

  function Tail<T>(s: State<T>): nat
    requires |s.tails| > 0
  {
    s.tails[|s.tails| - 1]
  }

  /** The values a plain read of `slot` may return. */
  ghost predicate MayRead<T>(s: State<T>, slot: nat, value: T) {
    || (exists w :: 0 <= w < |s.log| && WriteVisible(s, slot, w) && s.log[w].value == value)
    || (value == s.blank && forall w :: 0 <= w < s.writesSeen && w < |s.log| ==> s.log[w].slot != slot)
  }

  ghost predicate WriteVisible<T>(s: State<T>, slot: nat, w: nat)
    requires w < |s.log|
  {
    s.log[w].slot == slot && forall v :: w < v < s.writesSeen && v < |s.log| ==> s.log[v].slot != slot
  }

  ghost predicate Enabled<T(!new)>(s: State<T>, a: Action<T>) {
    && s.n >= 2 && |s.heads| > 0 && |s.tails| > 0
    && match a
       case PushStart(item) => s.producer.PushIdle?
       case LoadTail(pos) => s.producer.PushRefresh? && s.tailSeen <= pos < |s.tails|
       case WriteSlot => s.producer.PushWrite?
       case StoreHead => s.producer.PushPublish?
       case PopStart => s.consumer.PopIdle?
       case LoadHead(pos) => s.consumer.PopRefresh? && s.headSeen <= pos < |s.heads|
       case ReadSlot(value) => s.consumer.PopRead? && MayRead(s, Tail(s), value)
       case StoreTail => s.consumer.PopPublish?
  }

  ghost function Apply<T(!new)>(s: State<T>, a: Action<T>): State<T>
    requires Enabled(s, a)
  {
    match a
    case PushStart(item) =>
      s.(producer := if s.cached && Wrap(Head(s), s.n) != s.tailCache then PushWrite(item) else PushRefresh(item))
    case LoadTail(pos) =>
      s.(tailCache := s.tails[pos], tailSeen := pos,
         producer := if Wrap(Head(s), s.n) == s.tails[pos] then PushIdle else PushWrite(s.producer.item))
    case WriteSlot =>
      s.(log := s.log + [SlotWrite(Head(s), s.producer.item)], producer := PushPublish(s.producer.item))
    case StoreHead =>
      s.(heads := s.heads + [Publication(Wrap(Head(s), s.n), |s.log|)], producer := PushIdle,
         accepted := s.accepted + [s.producer.item])
    case PopStart =>
      s.(consumer := if s.cached && Tail(s) != s.headCache then PopRead else PopRefresh)
    case LoadHead(pos) =>
      s.(headCache := s.heads[pos].index, headSeen := pos,
         writesSeen := if s.writesSeen < s.heads[pos].writes then s.heads[pos].writes else s.writesSeen,
         consumer := if Tail(s) == s.heads[pos].index then PopIdle else PopRead)
    case ReadSlot(value) =>
      s.(consumer := PopPublish(value))
    case StoreTail =>
      s.(tails := s.tails + [Wrap(Tail(s), s.n)], consumer := PopIdle, popped := s.popped + [s.consumer.item])
  }

  /** A run is any interleaving of enabled actions of the two threads. */
  ghost predicate Legal<T(!new)>(s: State<T>, run: seq<Action<T>>)
    decreases |run|
  {
    run == [] || (Enabled(s, run[0]) && Legal(Apply(s, run[0]), run[1..]))
  }

  ghost function Exec<T(!new)>(s: State<T>, run: seq<Action<T>>): State<T>
    requires Legal(s, run)
    decreases |run|
  {
    if run == [] then s else Exec(Apply(s, run[0]), run[1..])
  }

  /** Positions in the histories are the unwrapped counters; stored indices are their remainders. */
  ghost predicate Inv<T(!new)>(s: State<T>) {
    && s.n >= 2 && |s.heads| > 0 && |s.tails| > 0
    && (forall p :: 0 <= p < |s.heads| ==> s.heads[p] == Publication(p % s.n, p))
    && (forall p :: 0 <= p < |s.tails| ==> s.tails[p] == p % s.n)
    && (forall w :: 0 <= w < |s.log| ==> s.log[w].slot == w % s.n)
    && s.tailSeen <= |s.popped| <= s.headSeen <= |s.accepted| <= s.tailSeen + s.n - 1
    && |s.accepted| == |s.heads| - 1 && |s.popped| == |s.tails| - 1
    && s.tailCache == s.tailSeen % s.n && s.headCache == s.headSeen % s.n && s.writesSeen == s.headSeen
    && |s.log| == |s.accepted| + (if s.producer.PushPublish? then 1 else 0)
    && (forall k :: 0 <= k < |s.accepted| ==> s.log[k].value == s.accepted[k])
    && (s.producer.PushPublish? ==> s.log[|s.accepted|].value == s.producer.item)
    && (s.producer.PushWrite? || s.producer.PushPublish? ==> |s.accepted| < s.tailSeen + s.n - 1)
    && s.popped <= s.accepted
    && (s.consumer.PopRead? || s.consumer.PopPublish? ==> |s.popped| < s.headSeen)
    && (s.consumer.PopPublish? ==> s.consumer.item == s.accepted[|s.popped|])
  }

  lemma InitSatisfiesInv<T(!new)>(n: nat, cached: bool, blank: T)
    requires n >= 2
    ensures Inv(Init(n, cached, blank))
  {
  }

  // ---- what the invariant says about physical index tests and slots

  lemma WrapIsNext(k: nat, n: nat)
    requires n > 0
    ensures Wrap(k % n, n) == (k + 1) % n
  {
    Remainders.ShiftedRemainder(k, 1, n);
  }

  // Comparing next with a (possibly stale) tail index decides whether n - 1 items separate them.
  lemma FullTest(head: nat, tail: nat, n: nat)
    requires n >= 2 && tail <= head <= tail + n - 1
    ensures Wrap(head % n, n) == tail % n <==> head == tail + n - 1
  {
    WrapIsNext(head, n);
    Remainders.FullIff(tail, head - tail, n);
  }

  // Every value the memory may return for the slot about to be read is the oldest unpopped item.
  lemma ReadIsForced<T(!new)>(s: State<T>, value: T)
    requires Inv(s) && s.consumer.PopRead? && MayRead(s, Tail(s), value)
    ensures value == s.accepted[|s.popped|]
  {
    var t := |s.popped|;
    assert s.log[t].slot == Tail(s);
    assert exists w :: 0 <= w < |s.log| && WriteVisible(s, Tail(s), w) && s.log[w].value == value;
    var w :| 0 <= w < |s.log| && WriteVisible(s, Tail(s), w) && s.log[w].value == value;
    assert t <= w;  // write t is visible and sits in this slot
    Remainders.SameRemainder(t, w, s.n);
  }

  lemma PushKeepsInv<T(!new)>(s: State<T>, a: Action<T>)
    requires Inv(s) && Enabled(s, a) && (a.PushStart? || a.LoadTail? || a.WriteSlot? || a.StoreHead?)
    ensures Inv(Apply(s, a))
  {
    var h := |s.accepted|;
    match a
    case PushStart(item) => FullTest(h, s.tailSeen, s.n);
    case LoadTail(pos) => FullTest(h, pos, s.n);
    case WriteSlot =>
    case StoreHead => WrapIsNext(h, s.n);
  }

  lemma PopKeepsInv<T(!new)>(s: State<T>, a: Action<T>)
    requires Inv(s) && Enabled(s, a) && (a.PopStart? || a.LoadHead? || a.ReadSlot? || a.StoreTail?)
    ensures Inv(Apply(s, a))
  {
    var t := |s.popped|;
    match a
    case PopStart => Remainders.EmptyIff(t, s.headSeen - t, s.n);
    case LoadHead(pos) => Remainders.EmptyIff(t, pos - t, s.n);
    case ReadSlot(value) => ReadIsForced(s, value);
    case StoreTail => WrapIsNext(t, s.n);
  }

  lemma StepKeepsInv<T(!new)>(s: State<T>, a: Action<T>)
    requires Inv(s) && Enabled(s, a)
    ensures Inv(Apply(s, a))
  {
    if a.PushStart? || a.LoadTail? || a.WriteSlot? || a.StoreHead? {
      PushKeepsInv(s, a);
    } else {
      PopKeepsInv(s, a);
    }
  }

  lemma {:induction false} RunKeepsInv<T(!new)>(s: State<T>, run: seq<Action<T>>)
    requires Inv(s) && Legal(s, run)
    ensures Inv(Exec(s, run))
    decreases |run|
  {
    if run != [] {
      StepKeepsInv(s, run[0]);
      RunKeepsInv(Apply(s, run[0]), run[1..]);
    }
  }

  // ---- results, for every interleaving and every choice the memory makes

  /** Items accepted but not yet popped. */
  function InFlight<T>(s: State<T>): seq<T>
    requires s.popped <= s.accepted
  {
    s.accepted[|s.popped|..]
  }

  // What was popped is exactly a prefix of what was accepted, and at most n - 1 items wait.
  lemma FifoInEveryRun<T(!new)>(n: nat, cached: bool, blank: T, run: seq<Action<T>>)
    requires n >= 2 && Legal(Init(n, cached, blank), run)
    ensures var s := Exec(Init(n, cached, blank), run);
            && s.popped <= s.accepted
            && s.accepted == s.popped + InFlight(s)
            && |InFlight(s)| <= n - 1
  {
    InitSatisfiesInv(n, cached, blank);
    RunKeepsInv(Init(n, cached, blank), run);
    RunKeepsSize(Init(n, cached, blank), run);
  }

  lemma {:induction false} RunKeepsSize<T(!new)>(s: State<T>, run: seq<Action<T>>)
    requires Legal(s, run)
    ensures Exec(s, run).n == s.n && Exec(s, run).cached == s.cached
    decreases |run|
  {
    if run != [] {
      RunKeepsSize(Apply(s, run[0]), run[1..]);
    }
  }

  // In unwrapped counters the two caches never overtake what they copy, and the producer's cache is
  // never more than n - 1 behind the head: stale caches can only under-report room and items.
  lemma CachesOnlyLag<T(!new)>(n: nat, cached: bool, blank: T, run: seq<Action<T>>)
    requires n >= 2 && Legal(Init(n, cached, blank), run)
    ensures var s := Exec(Init(n, cached, blank), run);
            && s.tailSeen <= |s.popped| <= s.headSeen <= |s.accepted| <= s.tailSeen + n - 1
            && s.tailCache == s.tailSeen % n && s.headCache == s.headSeen % n
            && |s.heads| == |s.accepted| + 1 && |s.tails| == |s.popped| + 1
            && Tail(s) == |s.popped| % n && Head(s) == |s.accepted| % n
  {
    InitSatisfiesInv(n, cached, blank);
    RunKeepsInv(Init(n, cached, blank), run);
    RunKeepsSize(Init(n, cached, blank), run);
  }

  // A pop copies the oldest waiting item whatever value the memory chooses to show it.
  lemma EveryReadIsTheOldest<T(!new)>(n: nat, cached: bool, blank: T, run: seq<Action<T>>, value: T)
    requires n >= 2 && Legal(Init(n, cached, blank), run)
    requires Enabled(Exec(Init(n, cached, blank), run), ReadSlot(value))
    ensures var s := Exec(Init(n, cached, blank), run);
            s.popped <= s.accepted && InFlight(s) != [] && value == InFlight(s)[0]
  {
    InitSatisfiesInv(n, cached, blank);
    RunKeepsInv(Init(n, cached, blank), run);
    ReadIsForced(Exec(Init(n, cached, blank), run), value);
  }

  // The slot about to be written holds no waiting item, is not being copied by the consumer,
  // and every earlier copy out of it happened before an index store the producer has acquired.
  lemma WriteNeverRaces<T(!new)>(n: nat, cached: bool, blank: T, run: seq<Action<T>>)
    requires n >= 2 && Legal(Init(n, cached, blank), run)
    requires Exec(Init(n, cached, blank), run).producer.PushWrite?
    ensures var s := Exec(Init(n, cached, blank), run);
            && |s.heads| > 0 && |s.tails| > 0
            && (s.consumer.PopRead? || s.consumer.PopPublish? ==> Head(s) != Tail(s))
            && forall k :: 0 <= k < |s.accepted| && k % n == Head(s) ==> k < s.tailSeen <= |s.popped|
  {
    var s := Exec(Init(n, cached, blank), run);
    InitSatisfiesInv(n, cached, blank);
    RunKeepsInv(Init(n, cached, blank), run);
    RunKeepsSize(Init(n, cached, blank), run);
    var h := |s.accepted|;
    forall k | 0 <= k < h && k % n == Head(s) ensures k < s.tailSeen {
      if s.tailSeen <= k {
        Remainders.SameRemainder(k, h, n);
      }
    }
    if s.consumer.PopRead? || s.consumer.PopPublish? {
      assert |s.popped| % n == Tail(s);
    }
  }

  // A load of position pos refuses the push exactly when n - 1 items separate that position
  // from the head, so a refusal can only overstate the backlog, and a fresh load is exact.
  lemma RefusalIsConservative<T(!new)>(n: nat, cached: bool, blank: T, run: seq<Action<T>>, pos: nat)
    requires n >= 2 && Legal(Init(n, cached, blank), run)
    requires Enabled(Exec(Init(n, cached, blank), run), LoadTail(pos))
    ensures var s := Exec(Init(n, cached, blank), run);
            var refused := Apply(s, LoadTail(pos)).producer.PushIdle?;
            && s.popped <= s.accepted
            && (refused <==> |s.accepted| - pos == n - 1)
            && (|InFlight(s)| == n - 1 ==> refused)
            && (pos == |s.tails| - 1 ==> (refused <==> |InFlight(s)| == n - 1))
  {
    var s := Exec(Init(n, cached, blank), run);
    InitSatisfiesInv(n, cached, blank);
    RunKeepsInv(Init(n, cached, blank), run);
    RunKeepsSize(Init(n, cached, blank), run);
    FullTest(|s.accepted|, pos, n);
  }

  lemma EmptyAnswerIsConservative<T(!new)>(n: nat, cached: bool, blank: T, run: seq<Action<T>>, pos: nat)
    requires n >= 2 && Legal(Init(n, cached, blank), run)
    requires Enabled(Exec(Init(n, cached, blank), run), LoadHead(pos))
    ensures var s := Exec(Init(n, cached, blank), run);
            var empty := Apply(s, LoadHead(pos)).consumer.PopIdle?;
            && s.popped <= s.accepted
            && (empty <==> pos == |s.popped|)
            && (InFlight(s) == [] ==> empty)
            && (pos == |s.heads| - 1 ==> (empty <==> InFlight(s) == []))
  {
    var s := Exec(Init(n, cached, blank), run);
    InitSatisfiesInv(n, cached, blank);
    RunKeepsInv(Init(n, cached, blank), run);
    RunKeepsSize(Init(n, cached, blank), run);
    Remainders.EmptyIff(|s.popped|, pos - |s.popped|, n);
  }

  // Starting a push or a pop never answers by itself. The producer goes straight to its write exactly when its
  // cache shows room, and otherwise loads first; so a refusal follows a load made in the same call.
  lemma PushStartsByCache<T(!new)>(n: nat, cached: bool, blank: T, run: seq<Action<T>>, item: T)
    requires n >= 2 && Legal(Init(n, cached, blank), run)
    requires Enabled(Exec(Init(n, cached, blank), run), PushStart(item))
    ensures var s := Exec(Init(n, cached, blank), run);
            Apply(s, PushStart(item)).producer
            == if cached && |s.accepted| - s.tailSeen < n - 1 then PushWrite(item) else PushRefresh(item)
  {
    InitSatisfiesInv(n, cached, blank);
    RunKeepsInv(Init(n, cached, blank), run);
    RunKeepsSize(Init(n, cached, blank), run);
    var s := Exec(Init(n, cached, blank), run);
    FullTest(|s.accepted|, s.tailSeen, n);
  }

  lemma PopStartsByCache<T(!new)>(n: nat, cached: bool, blank: T, run: seq<Action<T>>)
    requires n >= 2 && Legal(Init(n, cached, blank), run)
    requires Enabled(Exec(Init(n, cached, blank), run), PopStart)
    ensures var s := Exec(Init(n, cached, blank), run);
            Apply(s, PopStart).consumer == if cached && |s.popped| < s.headSeen then PopRead else PopRefresh
  {
    InitSatisfiesInv(n, cached, blank);
    RunKeepsInv(Init(n, cached, blank), run);
    RunKeepsSize(Init(n, cached, blank), run);
    var s := Exec(Init(n, cached, blank), run);
    Remainders.EmptyIff(|s.popped|, s.headSeen - |s.popped|, n);
  }

  // A push ends in acceptance or right after a load, and a pop in an item or right after a load.
  lemma AnswersFollowLoads<T(!new)>(s: State<T>, a: Action<T>)
    requires Inv(s) && Enabled(s, a)
    ensures var t := Apply(s, a);
            && (!s.producer.PushIdle? && t.producer.PushIdle? ==>
                  a.LoadTail? || (a.StoreHead? && t.accepted == s.accepted + [s.producer.item]))
            && (!s.consumer.PopIdle? && t.consumer.PopIdle? ==>
                  a.LoadHead? || (a.StoreTail? && t.popped == s.popped + [s.consumer.item]))
  {
  }

  lemma Chain<T(!new)>(s: State<T>, a: Action<T>, rest: seq<Action<T>>)
    requires Inv(s) && Enabled(s, a) && Legal(Apply(s, a), rest)
    ensures Inv(Apply(s, a)) && Legal(s, [a] + rest) && Exec(s, [a] + rest) == Exec(Apply(s, a), rest)
  {
    StepKeepsInv(s, a);
    assert ([a] + rest)[1..] == rest;
  }

  // Writing and publishing, once there is room.
  lemma WriteAndPublish<T(!new)>(s: State<T>) returns (more: seq<Action<T>>)
    requires Inv(s) && s.producer.PushWrite?
    ensures Legal(s, more) && Exec(s, more).producer.PushIdle?
    ensures Exec(s, more).accepted == s.accepted + [s.producer.item] && Exec(s, more).popped == s.popped
  {
    StepKeepsInv(s, WriteSlot);
    var t := Apply(s, WriteSlot);
    assert Exec(Apply(t, StoreHead), []) == Apply(t, StoreHead);
    Chain(t, StoreHead, []);
    Chain(s, WriteSlot, [StoreHead]);
    more := [WriteSlot] + [StoreHead];
  }

  lemma LoadThenPush<T(!new)>(s: State<T>) returns (more: seq<Action<T>>)
    requires Inv(s) && s.producer.PushRefresh?
    ensures Legal(s, more) && Exec(s, more).producer.PushIdle? && Exec(s, more).popped == s.popped
    ensures Exec(s, more).accepted == if |InFlight(s)| < s.n - 1 then s.accepted + [s.producer.item] else s.accepted
  {
    FullTest(|s.accepted|, |s.popped|, s.n);
    var load: Action<T> := LoadTail(|s.tails| - 1);
    StepKeepsInv(s, load);
    var rest: seq<Action<T>> := [];
    if Apply(s, load).producer.PushWrite? {
      rest := WriteAndPublish(Apply(s, load));
    }
    Chain(s, load, rest);
    more := [load] + rest;
  }

  // From every state of every run in which the producer is idle, its own steps with a fresh load finish the
  // push, and the item is accepted if and only if fewer than n - 1 items wait.
  lemma FreshPush<T(!new)>(s: State<T>, item: T) returns (more: seq<Action<T>>)
    requires Inv(s) && s.producer.PushIdle?
    ensures Legal(s, more) && Exec(s, more).producer.PushIdle? && Exec(s, more).popped == s.popped
    ensures Exec(s, more).accepted == if |InFlight(s)| < s.n - 1 then s.accepted + [item] else s.accepted
  {
    var start := Apply(s, PushStart(item));
    StepKeepsInv(s, PushStart(item));
    FullTest(|s.accepted|, s.tailSeen, s.n);
    var rest: seq<Action<T>>;
    if start.producer.PushWrite? {
      rest := WriteAndPublish(start);
    } else {
      rest := LoadThenPush(start);
    }
    Chain(s, PushStart(item), rest);
    more := [PushStart(item)] + rest;
  }

  // The oldest waiting item can be read.
  lemma OldestIsReadable<T(!new)>(s: State<T>)
    requires Inv(s) && s.consumer.PopRead?
    ensures |s.popped| < |s.accepted| && Enabled(s, ReadSlot(s.accepted[|s.popped|]))
  {
    var t := |s.popped|;
    forall v | t < v < s.writesSeen && v < |s.log| ensures s.log[v].slot != Tail(s) {
      if s.log[v].slot == Tail(s) {
        Remainders.SameRemainder(t, v, s.n);
      }
    }
    assert WriteVisible(s, Tail(s), t);
  }

  lemma ReadAndPublish<T(!new)>(s: State<T>) returns (more: seq<Action<T>>)
    requires Inv(s) && s.consumer.PopRead?
    ensures Legal(s, more) && Exec(s, more).consumer.PopIdle? && Exec(s, more).accepted == s.accepted
    ensures |s.popped| < |s.accepted| && Exec(s, more).popped == s.popped + [s.accepted[|s.popped|]]
  {
    OldestIsReadable(s);
    var read: Action<T> := ReadSlot(s.accepted[|s.popped|]);
    StepKeepsInv(s, read);
    var t := Apply(s, read);
    assert Exec(Apply(t, StoreTail), []) == Apply(t, StoreTail);
    Chain(t, StoreTail, []);
    Chain(s, read, [StoreTail]);
    more := [read] + [StoreTail];
  }

  lemma LoadThenPop<T(!new)>(s: State<T>) returns (more: seq<Action<T>>)
    requires Inv(s) && s.consumer.PopRefresh?
    ensures Legal(s, more) && Exec(s, more).consumer.PopIdle? && Exec(s, more).accepted == s.accepted
    ensures Exec(s, more).popped == if InFlight(s) != [] then s.popped + [InFlight(s)[0]] else s.popped
  {
    Remainders.EmptyIff(|s.popped|, |s.accepted| - |s.popped|, s.n);
    var load: Action<T> := LoadHead(|s.heads| - 1);
    StepKeepsInv(s, load);
    var rest: seq<Action<T>> := [];
    if Apply(s, load).consumer.PopRead? {
      rest := ReadAndPublish(Apply(s, load));
    }
    Chain(s, load, rest);
    more := [load] + rest;
  }

  // The same for a pop: it takes the oldest item if and only if something waits.
  lemma FreshPop<T(!new)>(s: State<T>) returns (more: seq<Action<T>>)
    requires Inv(s) && s.consumer.PopIdle?
    ensures Legal(s, more) && Exec(s, more).consumer.PopIdle? && Exec(s, more).accepted == s.accepted
    ensures Exec(s, more).popped == if InFlight(s) != [] then s.popped + [InFlight(s)[0]] else s.popped
  {
    var start := Apply(s, PopStart);
    StepKeepsInv(s, PopStart);
    var rest: seq<Action<T>>;
    if start.consumer.PopRead? {
      rest := ReadAndPublish(start);
    } else {
      rest := LoadThenPop(start);
    }
    Chain(s, PopStart, rest);
    more := [PopStart] + rest;
  }

  // Progress in every run: an idle producer's push is accepted when there is room, an idle consumer's pop
  // succeeds when something waits, and neither answers otherwise.
  lemma QueueMakesProgress<T(!new)>(n: nat, cached: bool, blank: T, run: seq<Action<T>>, item: T)
    returns (pushing: seq<Action<T>>, popping: seq<Action<T>>)
    requires n >= 2 && Legal(Init(n, cached, blank), run)
    ensures var s := Exec(Init(n, cached, blank), run);
            && s.popped <= s.accepted
            && (s.producer.PushIdle? ==>
                  && Legal(s, pushing) && Exec(s, pushing).producer.PushIdle?
                  && Exec(s, pushing).accepted == if |InFlight(s)| < n - 1 then s.accepted + [item] else s.accepted)
            && (s.consumer.PopIdle? ==>
                  && Legal(s, popping) && Exec(s, popping).consumer.PopIdle?
                  && Exec(s, popping).popped == if InFlight(s) != [] then s.popped + [InFlight(s)[0]] else s.popped)
  {
    InitSatisfiesInv(n, cached, blank);
    RunKeepsInv(Init(n, cached, blank), run);
    RunKeepsSize(Init(n, cached, blank), run);
    var s := Exec(Init(n, cached, blank), run);
    pushing, popping := [], [];
    if s.producer.PushIdle? {
      pushing := FreshPush(s, item);
    }
    if s.consumer.PopIdle? {
      popping := FreshPop(s);
    }
  }

  /** One step of a first-in first-out buffer that holds at most `room` items. */
  ghost predicate FifoStep<T(!new)>(before: seq<T>, a: Action<T>, after: seq<T>, room: nat,
                                       pushed: Producer<T>, taken: Consumer<T>) {
    match a
    case StoreHead => pushed.PushPublish? && |before| < room && after == before + [pushed.item]
    case StoreTail => taken.PopPublish? && before != [] && taken.item == before[0] && after == before[1..]
    case _ => after == before
  }

  // Both queues refine one bounded FIFO: publishing the head appends, publishing the tail removes.
  lemma RefinesBoundedFifo<T(!new)>(s: State<T>, a: Action<T>)
    requires Inv(s) && Enabled(s, a)
    ensures Inv(Apply(s, a))
    ensures FifoStep(InFlight(s), a, InFlight(Apply(s, a)), s.n - 1, s.producer, s.consumer)
  {
    StepKeepsInv(s, a);
    if a.StoreTail? {
      assert s.accepted[..|s.popped| + 1] == s.popped + [s.consumer.item];
    }
  }

  // approx_size on the latest indices counts the waiting items.
  lemma ApproxSizeIsExact<T(!new)>(s: State<T>)
    requires Inv(s)
    ensures (Head(s) + s.n - Tail(s)) % s.n == |InFlight(s)|
  {
    Remainders.CountBetween(|s.popped|, |InFlight(s)|, s.n, Tail(s), Head(s));
  }

  // With a power-of-two capacity, masking the successor index wraps it at the capacity.
  lemma MaskedSuccessor(head: bv64, n: bv64)
    requires n >= 2 && n & (n - 1) == 0 && head < n
    ensures (head + 1) & (n - 1) == (if head + 1 == n then 0 else head + 1)
  {
    var m := n - 1;
    assert head & m == head;
  }
}
