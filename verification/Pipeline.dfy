/** The four pipeline threads over abstract hand-offs, one hand-off at a time.

    Each SPSC queue is the bounded FIFO that SpscProtocol refines: a push may be refused at any
    time (a stale cache under-reports room) and a pop may find nothing.  The snapshot ping-pong
    delivers the k-th stored snapshot for some k it has not yet seen, as PingPong.LoadsAreWhole
    allows for loads that are not overtaken. */
module Pipeline {
  import opened Market
  import opened Options
  import opened Subsequences
  import PingPong
  import SpscProtocol

  datatype Indicator = Waiting | Popped(tick: Tick) | Computed(tick: Tick)

  datatype Rooms = Rooms(gold: nat, raw: nat, final: nat)

  datatype State = State(
    rooms: Rooms,
    accepted: seq<Tick>,      // ticks feed_gold_tick took
    gold: seq<Tick>,
    indicator: Indicator,
    history: seq<Tick>,       // ticks pushed into the indicator store
    snapshots: seq<int>,      // computed_at_ns of every snapshot stored
    lastSeen: nat,            // ping-pong index last loaded by the logic thread
    logic: Option<int>,       // signal_ns the logic thread is about to push
    raw: seq<int>,
    risk: Option<int>,        // signal_ns the risk thread has popped
    final: seq<int>,
    polled: seq<int>          // signal_ns poll_signal returned
  )

  datatype Action =
    | Feed(tick: Tick, taken: bool)
    | IndicatorPop
    | IndicatorCompute
    | SnapshotStore
    | SnapshotLoad(idx: nat)
    | LogicPush(taken: bool)
    | RiskPop
    | RiskPush(taken: bool)
    | Poll

  function Init(rooms: Rooms): State {
    State(rooms, [], [], Waiting, [], [], 0, None, [], None, [], [])
  }

  predicate Enabled(s: State, a: Action) {
    match a
    case Feed(tick, taken) => taken ==> |s.gold| < s.rooms.gold
    case IndicatorPop => s.indicator.Waiting? && s.gold != []
    case IndicatorCompute => s.indicator.Popped?
    case SnapshotStore => s.indicator.Computed?
    case SnapshotLoad(idx) => s.logic.None? && s.lastSeen < idx <= |s.snapshots|
    case LogicPush(taken) => s.logic.Some? && (taken ==> |s.raw| < s.rooms.raw)
    case RiskPop => s.risk.None? && s.raw != []
    case RiskPush(taken) => s.risk.Some? && (taken ==> |s.final| < s.rooms.final)
    case Poll => s.final != []
  }

  function Apply(s: State, a: Action): State
    requires Enabled(s, a)
  {
    match a
    case Feed(tick, taken) =>
      if taken then s.(accepted := s.accepted + [tick], gold := s.gold + [tick]) else s
    case IndicatorPop => s.(indicator := Popped(s.gold[0]), gold := s.gold[1..])
    case IndicatorCompute => s.(history := s.history + [s.indicator.tick], indicator := Computed(s.indicator.tick))
    case SnapshotStore => s.(snapshots := s.snapshots + [s.indicator.tick.timestamp], indicator := Waiting)
    case SnapshotLoad(idx) => s.(logic := Some(s.snapshots[idx - 1]), lastSeen := idx)
    case LogicPush(taken) =>
      s.(raw := if taken then s.raw + [s.logic.value] else s.raw, logic := None)
    case RiskPop => s.(risk := Some(s.raw[0]), raw := s.raw[1..])
    case RiskPush(taken) =>
      s.(final := if taken then s.final + [s.risk.value] else s.final, risk := None)
    case Poll => s.(polled := s.polled + [s.final[0]], final := s.final[1..])
  }

  predicate Legal(s: State, run: seq<Action>)
    decreases |run|
  {
    run == [] || (Enabled(s, run[0]) && Legal(Apply(s, run[0]), run[1..]))
  }

  function Exec(s: State, run: seq<Action>): State
    requires Legal(s, run)
    decreases |run|
  {
    if run == [] then s else Exec(Apply(s, run[0]), run[1..])
  }

  function Timestamps(ticks: seq<Tick>): (stamps: seq<int>)
    ensures |stamps| == |ticks|
    ensures forall i :: 0 <= i < |ticks| ==> stamps[i] == ticks[i].timestamp
  {
    if ticks == [] then [] else Timestamps(ticks[..|ticks| - 1]) + [ticks[|ticks| - 1].timestamp]
  }

  function Held(o: Option<int>): seq<int> {
    match o
    case None => []
    case Some(v) => [v]
  }

  /** Every signal alive anywhere downstream of the ping-pong, oldest first. */
  function Downstream(s: State): seq<int> {
    s.polled + s.final + Held(s.risk) + s.raw + Held(s.logic)
  }

  ghost predicate Inv(s: State) {
    && s.accepted == s.history + (if s.indicator.Popped? then [s.indicator.tick] else []) + s.gold
    && |s.history| == |s.snapshots| + (if s.indicator.Computed? then 1 else 0)
    && (s.indicator.Computed? ==> s.history[|s.snapshots|] == s.indicator.tick)
    && (forall i :: 0 <= i < |s.snapshots| ==> s.snapshots[i] == s.history[i].timestamp)
    && s.lastSeen <= |s.snapshots|
    && Subsequence(Downstream(s), s.snapshots[..s.lastSeen])
    && |s.gold| <= s.rooms.gold && |s.raw| <= s.rooms.raw && |s.final| <= s.rooms.final
  }

  lemma SkipThenTake(d: seq<int>, snapshots: seq<int>, seen: nat, idx: nat)
    requires seen < idx <= |snapshots| && Subsequence(d, snapshots[..seen])
    ensures Subsequence(d + [snapshots[idx - 1]], snapshots[..idx])
  {
    hide Subsequence;
    var skipped := snapshots[seen..idx - 1];
    assert snapshots[..idx - 1] == snapshots[..seen] + skipped;
    Grow(d, snapshots[..seen], skipped);
    Keep(d, snapshots[..idx - 1], snapshots[idx - 1]);
    assert snapshots[..idx] == snapshots[..idx - 1] + [snapshots[idx - 1]];
  }

  lemma InitSatisfiesInv(rooms: Rooms)
    ensures Inv(Init(rooms))
  {
  }

  lemma LoadKeepsOrder(s: State, idx: nat)
    requires Inv(s) && Enabled(s, SnapshotLoad(idx))
    ensures var t := Apply(s, SnapshotLoad(idx));
            Subsequence(Downstream(t), t.snapshots[..t.lastSeen])
  {
    hide Subsequence, Downstream;
    SkipThenTake(Downstream(s), s.snapshots, s.lastSeen, idx);
    LoadedIsLast(s, idx);
  }

  lemma LoadedIsLast(s: State, idx: nat)
    requires Enabled(s, SnapshotLoad(idx))
    ensures Downstream(Apply(s, SnapshotLoad(idx))) == Downstream(s) + [s.snapshots[idx - 1]]
  {
  }

  // Passing a signal on leaves the downstream sequence alone.
  lemma HandOffKeepsDownstream(s: State, a: Action)
    requires Enabled(s, a)
    requires a == LogicPush(true) || a == RiskPop || a == RiskPush(true) || a == Poll
    ensures Downstream(Apply(s, a)) == Downstream(s)
  {
    match a
    case RiskPop => assert s.raw == [s.raw[0]] + s.raw[1..];
    case Poll => assert s.final == [s.final[0]] + s.final[1..];
    case _ =>
  }

  lemma LostFromLogic(s: State)
    requires Enabled(s, LogicPush(false))
    ensures Downstream(s) == Downstream(Apply(s, LogicPush(false))) + [s.logic.value]
  {
  }

  lemma LostFromRisk(s: State)
    requires Enabled(s, RiskPush(false))
    ensures Downstream(s) == s.polled + s.final + [s.risk.value] + (s.raw + Held(s.logic))
    ensures Downstream(Apply(s, RiskPush(false))) == s.polled + s.final + (s.raw + Held(s.logic))
  {
  }

  // Losing a signal deletes it from the end or the middle of the downstream sequence.
  lemma LossKeepsOrder(s: State, a: Action)
    requires Inv(s) && Enabled(s, a)
    requires a == LogicPush(false) || a == RiskPush(false)
    ensures Subsequence(Downstream(Apply(s, a)), s.snapshots[..s.lastSeen])
  {
    hide Subsequence, Downstream;
    if a.LogicPush? {
      LostFromLogic(s);
      DropTail(Downstream(Apply(s, a)), [s.logic.value], s.snapshots[..s.lastSeen]);
    } else {
      LostFromRisk(s);
      Drop(s.polled + s.final, s.risk.value, s.raw + Held(s.logic), s.snapshots[..s.lastSeen]);
    }
  }

  lemma StepKeepsInv(s: State, a: Action)
    requires Inv(s) && Enabled(s, a)
    ensures Inv(Apply(s, a))
  {
    match a
    case SnapshotLoad(idx) => LoadKeepsOrder(s, idx);
    case SnapshotStore => assert Apply(s, a).snapshots[..s.lastSeen] == s.snapshots[..s.lastSeen];
    case Feed(_, _) =>
    case IndicatorPop => assert s.gold == [s.gold[0]] + s.gold[1..];
    case IndicatorCompute =>
    case _ =>
      if a == LogicPush(false) || a == RiskPush(false) {
        LossKeepsOrder(s, a);
      } else {
        HandOffKeepsDownstream(s, a);
      }
  }

  lemma {:induction false} RunKeepsInv(s: State, run: seq<Action>)
    requires Inv(s) && Legal(s, run)
    ensures Inv(Exec(s, run))
    decreases |run|
  {
    if run != [] {
      StepKeepsInv(s, run[0]);
      RunKeepsInv(Apply(s, run[0]), run[1..]);
    }
  }

  // Over any run the polled signals carry timestamps of accepted ticks, in order and each tick
  // at most once, whatever the ping-pong skipped and the queues dropped; and the indicator store
  // has been fed exactly a prefix of the accepted ticks.
  lemma PolledSignalsFollowTicks(rooms: Rooms, run: seq<Action>)
    requires Legal(Init(rooms), run)
    ensures var s := Exec(Init(rooms), run);
            Subsequence(s.polled, Timestamps(s.accepted)) && s.history <= s.accepted
  {
    hide Subsequence, Legal, Exec, Downstream, Timestamps;
    InitSatisfiesInv(rooms);
    RunKeepsInv(Init(rooms), run);
    var s := Exec(Init(rooms), run);
    SeenAreTimestamps(s);
    DownstreamStartsPolled(s);
    FirstPart(s.polled, s.final + Held(s.risk) + s.raw + Held(s.logic), Timestamps(s.accepted), s.lastSeen);
  }

  lemma SeenAreTimestamps(s: State)
    requires Inv(s)
    ensures s.lastSeen <= |s.accepted| && s.snapshots[..s.lastSeen] == Timestamps(s.accepted)[..s.lastSeen]
  {
    hide Subsequence, Downstream;
  }

  lemma DownstreamStartsPolled(s: State)
    ensures Downstream(s) == s.polled + (s.final + Held(s.risk) + s.raw + Held(s.logic))
  {
  }

  lemma FirstPart(first: seq<int>, rest: seq<int>, stamps: seq<int>, n: nat)
    requires n <= |stamps| && Subsequence(first + rest, stamps[..n])
    ensures Subsequence(first, stamps)
  {
    hide Subsequence;
    DropTail(first, rest, stamps[..n]);
    Grow(first, stamps[..n], stamps[n..]);
    assert stamps[..n] + stamps[n..] == stamps;
  }

  // ---- nothing is stuck

  /** The hand-off furthest downstream that can be made, losing and skipping nothing. */
  function NextHandOff(s: State): Option<Action> {
    if s.final != [] then Some(Poll)
    else if s.risk.Some? then Some(RiskPush(true))
    else if s.raw != [] then Some(RiskPop)
    else if s.logic.Some? then Some(LogicPush(true))
    else if s.lastSeen < |s.snapshots| then Some(SnapshotLoad(s.lastSeen + 1))
    else match s.indicator
      case Computed(_) => Some(SnapshotStore)
      case Popped(_) => Some(IndicatorCompute)
      case Waiting => if s.gold != [] then Some(IndicatorPop) else None
  }

  /** Hand-offs that everything under way still needs. */
  function Outstanding(s: State): nat
    requires s.lastSeen <= |s.snapshots|
  {
    |s.final| + (if s.risk.Some? then 2 else 0) + 3 * |s.raw| + (if s.logic.Some? then 4 else 0)
    + 5 * (|s.snapshots| - s.lastSeen)
    + (match s.indicator case Waiting => 0 case Computed(_) => 6 case Popped(_) => 7) + 8 * |s.gold|
  }

  /** What has been polled, is on its way to the poller, or is the time of an accepted tick not yet loaded. */
  function Deliverable(s: State): seq<int>
    requires s.lastSeen <= |s.accepted|
  {
    Downstream(s) + Timestamps(s.accepted)[s.lastSeen..]
  }

  lemma NextIsProgress(s: State)
    requires Inv(s) && s.rooms.raw > 0 && s.rooms.final > 0 && NextHandOff(s).Some?
    ensures var a := NextHandOff(s).value;
            && Enabled(s, a) && Outstanding(Apply(s, a)) == Outstanding(s) - 1
            && Apply(s, a).accepted == s.accepted && Apply(s, a).rooms == s.rooms
            && Apply(s, a).lastSeen == if a.SnapshotLoad? then s.lastSeen + 1 else s.lastSeen
  {
    hide Subsequence, Downstream;
  }

  lemma SplitAt(d: seq<int>, stamps: seq<int>, k: nat)
    requires k < |stamps|
    ensures d + [stamps[k]] + stamps[k + 1..] == d + stamps[k..]
  {
    assert stamps[k..] == [stamps[k]] + stamps[k + 1..];
  }

  // Loading the next snapshot moves one time from those not yet loaded to those on their way.
  lemma LoadKeepsDeliverable(s: State)
    requires Inv(s) && s.lastSeen < |s.snapshots| && Enabled(s, SnapshotLoad(s.lastSeen + 1))
    ensures var t := Apply(s, SnapshotLoad(s.lastSeen + 1));
            t.lastSeen <= |s.accepted| && t.accepted == s.accepted && Deliverable(t) == Deliverable(s)
  {
    hide Subsequence, Downstream, Timestamps;
    LoadedIsLast(s, s.lastSeen + 1);
    var k := s.lastSeen;
    assert s.snapshots[k] == s.history[k].timestamp == s.accepted[k].timestamp;
    SplitAt(Downstream(s), Timestamps(s.accepted), k);
  }

  lemma NextKeepsDownstream(s: State)
    requires Inv(s) && s.rooms.raw > 0 && s.rooms.final > 0 && NextHandOff(s).Some?
    requires !NextHandOff(s).value.SnapshotLoad? && Enabled(s, NextHandOff(s).value)
    ensures Downstream(Apply(s, NextHandOff(s).value)) == Downstream(s)
  {
    hide Inv, Downstream;
    var a := NextHandOff(s).value;
    if a == LogicPush(true) || a == RiskPop || a == RiskPush(true) || a == Poll {
      HandOffKeepsDownstream(s, a);
    } else {
      UpstreamKeepsDownstream(s, a);
    }
  }

  lemma NextKeepsDeliverable(s: State)
    requires Inv(s) && s.rooms.raw > 0 && s.rooms.final > 0 && NextHandOff(s).Some?
    ensures var t := Apply(s, NextHandOff(s).value);
            s.lastSeen <= |s.accepted| && t.lastSeen <= |t.accepted| && Deliverable(t) == Deliverable(s)
  {
    hide Inv, Downstream, Timestamps, Apply, Outstanding;
    SeenAreTimestamps(s);
    NextIsProgress(s);
    if NextHandOff(s).value.SnapshotLoad? {
      LoadKeepsDeliverable(s);
    } else {
      NextKeepsDownstream(s);
    }
  }

  lemma UpstreamKeepsDownstream(s: State, a: Action)
    requires Enabled(s, a) && (a.Feed? || a.IndicatorPop? || a.IndicatorCompute? || a.SnapshotStore?)
    ensures Downstream(Apply(s, a)) == Downstream(s)
  {
  }

  lemma SettledDeliversAll(s: State)
    requires Inv(s) && NextHandOff(s).None?
    ensures s.lastSeen == |s.accepted| && s.history == s.accepted && s.polled == Deliverable(s)
  {
  }

  // From every state of every run some schedule delivers everything: it ends with nothing under way, the store
  // fed with all accepted ticks, and polled is what was already on its way followed by the time of every accepted
  // tick that had not been loaded, in order.
  lemma {:induction false} EverythingCanBeDelivered(s: State) returns (more: seq<Action>)
    requires Inv(s) && s.rooms.raw > 0 && s.rooms.final > 0
    ensures s.lastSeen <= |s.accepted| && Legal(s, more)
    ensures var t := Exec(s, more);
            t.accepted == s.accepted && t.history == s.accepted && t.gold == [] && t.polled == Deliverable(s)
    decreases Outstanding(s)
  {
    hide Deliverable, Subsequence, Downstream;
    SeenAreTimestamps(s);
    if NextHandOff(s).None? {
      more := [];
      SettledDeliversAll(s);
    } else {
      var a := NextHandOff(s).value;
      NextIsProgress(s);
      NextKeepsDeliverable(s);
      StepKeepsInv(s, a);
      var rest := EverythingCanBeDelivered(Apply(s, a));
      more := [a] + rest;
      assert more[1..] == rest;
    }
  }

  // In particular a tick fed while there is room can be the last one polled, after all before it.
  lemma EveryTickCanBePolled(rooms: Rooms, run: seq<Action>, tick: Tick) returns (more: seq<Action>)
    requires rooms.raw > 0 && rooms.final > 0 && Legal(Init(rooms), run)
    requires |Exec(Init(rooms), run).gold| < rooms.gold
    ensures var s := Exec(Init(rooms), run);
            && s.lastSeen <= |s.accepted| && Legal(s, more)
            && Exec(s, more).accepted == s.accepted + [tick]
            && Exec(s, more).polled == Deliverable(s) + [tick.timestamp]
  {
    InitSatisfiesInv(rooms);
    RunKeepsInv(Init(rooms), run);
    RunKeepsRooms(Init(rooms), run);
    var s := Exec(Init(rooms), run);
    SeenAreTimestamps(s);
    var fed := Apply(s, Feed(tick, true));
    StepKeepsInv(s, Feed(tick, true));
    var rest := EverythingCanBeDelivered(fed);
    more := [Feed(tick, true)] + rest;
    assert more[1..] == rest;
    OneMoreTick(s, tick);
  }

  lemma OneMoreTick(s: State, tick: Tick)
    requires s.lastSeen <= |s.accepted| && Enabled(s, Feed(tick, true))
    ensures Deliverable(Apply(s, Feed(tick, true))) == Deliverable(s) + [tick.timestamp]
  {
    hide Downstream;
    UpstreamKeepsDownstream(s, Feed(tick, true));
    assert (s.accepted + [tick])[..|s.accepted|] == s.accepted;
    var stamps := Timestamps(s.accepted);
    assert Timestamps(s.accepted + [tick]) == stamps + [tick.timestamp];
    assert (stamps + [tick.timestamp])[s.lastSeen..] == stamps[s.lastSeen..] + [tick.timestamp];
    assert Downstream(s) + (stamps[s.lastSeen..] + [tick.timestamp])
        == Downstream(s) + stamps[s.lastSeen..] + [tick.timestamp];
  }

  lemma {:induction false} RunKeepsRooms(s: State, run: seq<Action>)
    requires Legal(s, run)
    ensures Exec(s, run).rooms == s.rooms
    decreases |run|
  {
    if run != [] {
      RunKeepsRooms(Apply(s, run[0]), run[1..]);
    }
  }

  // ---- the hand-offs used here are what the two protocols provide

  /** The published values of a ping-pong are the snapshots, and the logic thread has not run ahead of its loads. */
  ghost predicate Follows<V(!new)>(p: State, s: PingPong.State<V>, stamp: seq<V> -> int) {
    && |s.marks| > 0 && |p.snapshots| == PingPong.Published(s) <= |s.stored| && p.lastSeen <= s.lastSeen
    && (forall i :: 0 <= i < |p.snapshots| ==> p.snapshots[i] == stamp(s.stored[i]))
  }

  // A step of the ping-pong, one word or one index at a time, is a step here or no step: publishing stores the
  // snapshot, and finishing a load that was not overtaken loads exactly the snapshot of the index it read.
  lemma PingPongStepsHere<V(!new)>(p: State, s: PingPong.State<V>, a: PingPong.Action<V>, stamp: seq<V> -> int)
    requires PingPong.Inv(s) && PingPong.Enabled(s, a) && Follows(p, s, stamp)
    ensures var t := PingPong.Apply(s, a);
            match a
            case Publish =>
              PingPong.Published(s) < |s.stored|
              && (p.indicator.Computed? && p.indicator.tick.timestamp == stamp(s.stored[PingPong.Published(s)]) ==>
                    Follows(Apply(p, SnapshotStore), t, stamp))
            case Finish =>
              Follows(p, t, stamp)
              && (p.logic.None? && |s.stored| <= s.idx + 1 ==>
                    && Enabled(p, SnapshotLoad(s.idx)) && Follows(Apply(p, SnapshotLoad(s.idx)), t, stamp)
                    && Apply(p, SnapshotLoad(s.idx)).logic == Some(stamp(s.reader.out)))
            case _ => Follows(p, t, stamp)
  {
    if a.Finish? && |s.stored| <= s.idx + 1 {
      var l := PingPong.Load(s.idx, s.reader.out, |s.stored|);
      PingPong.WholeCopy(s, l);
    }
  }

  // A step of the tick queue is a step here or no step: publishing the head feeds the item, publishing the tail
  // pops the oldest tick.
  lemma QueueStepsHere(p: State, q: SpscProtocol.State<Tick>, a: SpscProtocol.Action<Tick>)
    requires SpscProtocol.Inv(q) && SpscProtocol.Enabled(q, a)
    requires p.gold == SpscProtocol.InFlight(q) && p.rooms.gold == q.n - 1
    ensures SpscProtocol.Inv(SpscProtocol.Apply(q, a))
    ensures var waiting := SpscProtocol.InFlight(SpscProtocol.Apply(q, a));
            match a
            case StoreHead =>
              q.producer.PushPublish? && Enabled(p, Feed(q.producer.item, true))
              && Apply(p, Feed(q.producer.item, true)).gold == waiting
            case StoreTail =>
              q.consumer.PopPublish? && p.gold != []
              && (p.indicator.Waiting? ==>
                    Apply(p, IndicatorPop).gold == waiting
                    && Apply(p, IndicatorPop).indicator == Popped(q.consumer.item))
            case _ => p.gold == waiting
  {
    SpscProtocol.RefinesBoundedFifo(q, a);
    hide SpscProtocol.Inv, SpscProtocol.InFlight, SpscProtocol.Apply;
  }
}
