/** TradeStore: a producer logs frames into a queue; a worker drains it into database transactions.
    The database is the trace of statements it is given. */
module TradeStore {
  import opened Options
  import opened SpscQueue

  const BATCH: nat := 1000
  const CAPACITY: nat := 8192

  datatype Frame = Trade(openTime: nat, closeTime: nat, pnlUsd: real) | Equity(timestamp: nat, equity: real)

  datatype Op = Begin | Insert(frame: Frame) | Commit

  // ---------------------------------------------------------------- traces

  /** Where a trace leaves the database: outside a transaction, inside one of so many rows, or misused. */
  datatype Txn = Outside | Inside(rows: nat) | Broken

  function Next(t: Txn, op: Op): Txn {
    match op
    case Begin => if t.Outside? then Inside(0) else Broken
    case Insert(_) => if t.Inside? && t.rows < BATCH then Inside(t.rows + 1) else Broken
    case Commit => if t.Inside? && t.rows > 0 then Outside else Broken
  }

  function After(trace: seq<Op>): Txn {
    if trace == [] then Outside else Next(After(trace[..|trace| - 1]), trace[|trace| - 1])
  }

  /** A sequence of committed transactions of 1 to 1000 inserts each. */
  predicate Balanced(trace: seq<Op>) {
    After(trace).Outside?
  }

  function Rows(trace: seq<Op>): seq<Frame> {
    if trace == [] then []
    else
      var last := trace[|trace| - 1];
      Rows(trace[..|trace| - 1]) + (if last.Insert? then [last.frame] else [])
  }

  lemma OneMoreOp(trace: seq<Op>, op: Op)
    ensures After(trace + [op]) == Next(After(trace), op)
    ensures Rows(trace + [op]) == Rows(trace) + (if op.Insert? then [op.frame] else [])
  {
    assert (trace + [op])[..|trace|] == trace;
  }

  // The worker's two local variables say where the trace is.
  ghost predicate Tracks(trace: seq<Op>, inTransaction: bool, count: nat) {
    if inTransaction then 1 <= count < BATCH && After(trace) == Inside(count) else count == 0 && Balanced(trace)
  }

  // ---------------------------------------------------------------- the worker's statements

  /** The trace and the worker's variables after one popped frame. */
  function Persisted(trace: seq<Op>, inTransaction: bool, count: nat, frame: Frame): (seq<Op>, bool, nat) {
    var inserted := (if inTransaction then trace else trace + [Begin]) + [Insert(frame)];
    if count + 1 >= BATCH then (inserted + [Commit], false, 0) else (inserted, true, count + 1)
  }

  lemma PersistingTracks(trace: seq<Op>, inTransaction: bool, count: nat, frame: Frame)
    requires Tracks(trace, inTransaction, count)
    ensures var (t, i, c) := Persisted(trace, inTransaction, count, frame);
            Tracks(t, i, c) && Rows(t) == Rows(trace) + [frame]
  {
    hide After, Rows;
    var started := if inTransaction then trace else trace + [Begin];
    OneMoreOp(trace, Begin);
    OneMoreOp(started, Insert(frame));
    OneMoreOp(started + [Insert(frame)], Commit);
  }

  method Persist(trace: seq<Op>, inTransaction: bool, count: nat, frame: Frame)
    returns (trace': seq<Op>, inTransaction': bool, count': nat)
    requires Tracks(trace, inTransaction, count)
    ensures Tracks(trace', inTransaction', count') && Rows(trace') == Rows(trace) + [frame]
    ensures (trace', inTransaction', count') == Persisted(trace, inTransaction, count, frame)
  {
    hide Tracks, Rows;
    PersistingTracks(trace, inTransaction, count, frame);
    trace', inTransaction', count' := trace, inTransaction, count;
    if !inTransaction' {
      trace' := trace' + [Begin];
      inTransaction' := true;
    }
    trace' := trace' + [Insert(frame)];
    count' := count' + 1;
    if count' >= BATCH {
      trace' := trace' + [Commit];
      inTransaction', count' := false, 0;
    }
  }

  /** The statements for frame n of a drain: a transaction begins at every 1000th frame from the first, and is
      committed after 1000 frames. */
  function Statements(n: nat, frame: Frame): seq<Op> {
    (if n % 1000 == 0 then [Begin] else []) + [Insert(frame)] + (if (n + 1) % 1000 == 0 then [Commit] else [])
  }

  function Draining(frames: seq<Frame>): seq<Op> {
    if frames == [] then []
    else Draining(frames[..|frames| - 1]) + Statements(|frames| - 1, frames[|frames| - 1])
  }

  /** What one drain writes: the open transaction, if any, is committed when the queue is empty. */
  function Drained(frames: seq<Frame>): seq<Op> {
    Draining(frames) + if |frames| % 1000 == 0 then [] else [Commit]
  }

  lemma NextInBatch(n: nat)
    ensures (n + 1) % BATCH == if n % BATCH + 1 == BATCH then 0 else n % BATCH + 1
  {
  }

  lemma Regroup<T>(a: seq<T>, b: seq<T>, c: seq<T>, d: seq<T>)
    ensures a + b + c + d == a + (b + c + d)
  {
  }

  lemma PersistedIsStatements(before: seq<Op>, n: nat, frame: Frame)
    ensures var (t, i, c) := Persisted(before, n % BATCH != 0, n % BATCH, frame);
            t == before + Statements(n, frame) && i == ((n + 1) % BATCH != 0) && c == (n + 1) % BATCH
  {
    NextInBatch(n);
    var open := if n % BATCH == 0 then [Begin] else [];
    var commit := if (n + 1) % BATCH == 0 then [Commit] else [];
    Regroup(before, open, [Insert(frame)], commit);
    assert before + [] == before;
    assert before + open + [Insert(frame)] + [] == before + open + [Insert(frame)];
  }

  // One more frame of a drain, as the worker writes it.
  lemma DrainOneMore(before: seq<Op>, frames: seq<Frame>, frame: Frame)
    ensures var (t, i, c) := Persisted(before + Draining(frames), |frames| % BATCH != 0, |frames| % BATCH, frame);
            && t == before + Draining(frames + [frame])
            && i == ((|frames| + 1) % BATCH != 0) && c == (|frames| + 1) % BATCH
  {
    hide Persisted, Statements, Draining;
    PersistedIsStatements(before + Draining(frames), |frames|, frame);
    DrainingStep(frames, frame);
    var more := Statements(|frames|, frame);
    assert before + Draining(frames) + more == before + (Draining(frames) + more);
  }

  lemma DrainingStep(frames: seq<Frame>, frame: Frame)
    ensures Draining(frames + [frame]) == Draining(frames) + Statements(|frames|, frame)
  {
    assert (frames + [frame])[..|frames|] == frames;
  }

  // Where a drain is once these frames are written, and where the trace is then.
  ghost predicate Wrote(before: seq<Op>, frames: seq<Frame>, trace: seq<Op>, inTransaction: bool, count: nat) {
    && trace == before + Draining(frames)
    && inTransaction == (|frames| % BATCH != 0) && count == |frames| % BATCH
    && Tracks(trace, inTransaction, count) && Rows(trace) == Rows(before) + frames
  }

  lemma WroteNothing(before: seq<Op>)
    requires Balanced(before)
    ensures Wrote(before, [], before, false, 0)
  {
    assert before + Draining([]) == before;
    assert Rows(before) + [] == Rows(before);
  }

  lemma WroteOneMore(before: seq<Op>, frames: seq<Frame>, frame: Frame, trace: seq<Op>, inTransaction: bool,
                     count: nat)
    requires Wrote(before, frames, trace, inTransaction, count)
    ensures Tracks(trace, inTransaction, count)
    ensures var (t, i, c) := Persisted(trace, inTransaction, count, frame);
            Wrote(before, frames + [frame], t, i, c)
  {
    hide Persisted, Draining, Tracks, Rows;
    DrainOneMore(before, frames, frame);
    PersistingTracks(trace, inTransaction, count, frame);
    assert Rows(before) + frames + [frame] == Rows(before) + (frames + [frame]);
  }

  lemma CommittingTracks(trace: seq<Op>, inTransaction: bool, count: nat)
    requires Tracks(trace, inTransaction, count)
    ensures var t := if inTransaction then trace + [Commit] else trace;
            Tracks(t, false, 0) && Rows(t) == Rows(trace)
  {
    OneMoreOp(trace, Commit);
  }

  // With the last transaction committed the drain is complete.
  lemma WroteAll(before: seq<Op>, frames: seq<Frame>, trace: seq<Op>, inTransaction: bool, count: nat)
    requires Wrote(before, frames, trace, inTransaction, count)
    ensures var t := if inTransaction then trace + [Commit] else trace;
            t == before + Drained(frames) && Balanced(t) && Rows(t) == Rows(before) + frames
  {
    hide Draining, After, Rows;
    CommittingTracks(trace, inTransaction, count);
    assert before + Draining(frames) + [Commit] == before + (Draining(frames) + [Commit]);
    assert before + (Draining(frames) + []) == before + Draining(frames);
  }

  // ---------------------------------------------------------------- producer and worker interleaved

  datatype Phase = Checking | Popping(final: bool) | Writing(frame: Frame, final: bool) | Done

  /** stoppedAt counts the frames accepted before the stop flag fell; logging does not look at the flag. */
  datatype State = State(queue: seq<Frame>, running: bool, stoppedAt: nat, phase: Phase, inTransaction: bool,
                         count: nat, trace: seq<Op>, accepted: seq<Frame>)

  const START := State([], true, 0, Checking, false, 0, [], [])

  /** Steps of the two threads. A push may be refused for lack of fresh knowledge of the consumer, and a pop
      may miss waiting frames; but once the worker has seen the stop flag it sees all that was pushed before. */
  datatype Step = Log(frame: Frame, ok: bool) | Stop | Check(sawRunning: bool) | Take | Miss | Write

  predicate Enabled(s: State, step: Step) {
    match step
    case Log(_, ok) => ok ==> |s.queue| < CAPACITY - 1
    case Stop => s.running
    case Check(sawRunning) => s.phase.Checking? && (!sawRunning ==> !s.running)
    case Take => s.phase.Popping? && s.queue != []
    case Miss => s.phase.Popping? && (s.phase.final ==> s.stoppedAt + |s.queue| <= |s.accepted|)
    case Write => s.phase.Writing?
  }

  function Apply(s: State, step: Step): State
    requires Enabled(s, step)
  {
    match step
    case Log(frame, ok) => if ok then s.(queue := s.queue + [frame], accepted := s.accepted + [frame]) else s
    case Stop => s.(running := false, stoppedAt := |s.accepted|)
    case Check(sawRunning) => s.(phase := Popping(!sawRunning))
    case Take => s.(phase := Writing(s.queue[0], s.phase.final), queue := s.queue[1..])
    case Miss => s.(phase := if s.phase.final then Done else Checking, inTransaction := false, count := 0,
                    trace := if s.inTransaction then s.trace + [Commit] else s.trace)
    case Write =>
      var (t, i, c) := Persisted(s.trace, s.inTransaction, s.count, s.phase.frame);
      s.(phase := Popping(s.phase.final), trace := t, inTransaction := i, count := c)
  }

  predicate Legal(steps: seq<Step>)
    decreases |steps|, 0
  {
    steps == [] || (Legal(steps[..|steps| - 1])
                    && Enabled(Exec(steps[..|steps| - 1]), steps[|steps| - 1]))
  }

  function Exec(steps: seq<Step>): State
    requires Legal(steps)
    decreases |steps|, 1
  {
    if steps == [] then START else Apply(Exec(steps[..|steps| - 1]), steps[|steps| - 1])
  }

  function InHand(s: State): seq<Frame> {
    if s.phase.Writing? then [s.phase.frame] else []
  }

  ghost predicate Inv(s: State) {
    && s.accepted == Rows(s.trace) + InHand(s) + s.queue
    && Tracks(s.trace, s.inTransaction, s.count)
    && ((s.phase.Checking? || s.phase.Done?) ==> !s.inTransaction)
    && ((s.phase.Popping? || s.phase.Writing?) && s.phase.final ==> !s.running)
    && s.stoppedAt <= |s.accepted|
    && (s.phase.Done? ==> !s.running && s.stoppedAt + |s.queue| <= |s.accepted|)
  }

  lemma StepKeepsInv(s: State, step: Step)
    requires Inv(s) && Enabled(s, step)
    ensures Inv(Apply(s, step)) && s.accepted <= Apply(s, step).accepted
  {
    hide Tracks, Rows, Persisted;
    match step
    case Write => PersistingTracks(s.trace, s.inTransaction, s.count, s.phase.frame);
    case Miss => CommittingTracks(s.trace, s.inTransaction, s.count);
    case _ =>
  }

  lemma {:induction false} RunKeepsInv(steps: seq<Step>)
    requires Legal(steps)
    ensures Inv(Exec(steps))
    decreases |steps|
  {
    if steps != [] {
      RunKeepsInv(steps[..|steps| - 1]);
      StepKeepsInv(Exec(steps[..|steps| - 1]), steps[|steps| - 1]);
    }
  }

  // In every interleaving: what was accepted is in the database, in hand or queued, in that order. Once the
  // worker has finished, the database holds a prefix of what was accepted, once each and in balanced
  // transactions; it covers every frame accepted before the stop, and all of them exactly when nothing is
  // left in the queue.
  lemma EveryFrameOnce(steps: seq<Step>)
    requires Legal(steps)
    ensures var s := Exec(steps);
            && s.accepted == Rows(s.trace) + InHand(s) + s.queue
            && (s.phase.Done? ==>
                  && Balanced(s.trace) && Rows(s.trace) <= s.accepted && s.stoppedAt <= |Rows(s.trace)|
                  && (Rows(s.trace) == s.accepted <==> s.queue == [])
                  && (|s.accepted| == s.stoppedAt ==> Rows(s.trace) == s.accepted))
  {
    hide Exec, Rows, After;
    RunKeepsInv(steps);
    var s := Exec(steps);
    if s.phase.Done? && s.queue == [] {
      assert Rows(s.trace) + [] + [] == Rows(s.trace);
    }
  }

  // At most 8191 frames ever wait, and a frame is accepted at once whenever fewer do.
  lemma {:induction false} QueueIsBounded(steps: seq<Step>, frame: Frame)
    requires Legal(steps)
    ensures |Exec(steps).queue| <= 8191
    ensures Enabled(Exec(steps), Log(frame, true)) <==> |Exec(steps).queue| < 8191
    decreases |steps|
  {
    hide Persisted;
    if steps != [] {
      QueueIsBounded(steps[..|steps| - 1], frame);
    }
  }

  // After the worker has finished nothing reaches the database any more.
  lemma DoneIsFinal(s: State, step: Step)
    requires s.phase.Done? && Enabled(s, step)
    ensures Apply(s, step).phase.Done? && Apply(s, step).trace == s.trace
  {
  }

  /** How many accepted frames the worker has taken. */
  function Taken(s: State): int {
    |s.accepted| - |s.queue|
  }

  // One more legal step of a legal run.
  lemma Extend(steps: seq<Step>, step: Step)
    requires Legal(steps) && Enabled(Exec(steps), step)
    ensures Legal(steps + [step]) && Exec(steps + [step]) == Apply(Exec(steps), step)
  {
    assert (steps + [step])[..|steps|] == steps;
  }

  /** Whatever happens from here, frame k is in the database once the worker has finished. */
  ghost predicate Guaranteed(steps: seq<Step>, k: nat) {
    forall more: seq<Step> :: Legal(steps + more) && Exec(steps + more).phase.Done? ==>
      k < |Rows(Exec(steps + more).trace)|
  }

  /** Frame k was accepted before the stop, or has been taken by the worker. */
  predicate Secure(s: State, k: nat) {
    k < |s.accepted| && (s.running || k < s.stoppedAt || k < Taken(s))
  }

  lemma {:induction false} SecureStaysSecure(steps: seq<Step>, more: seq<Step>, k: nat)
    requires Legal(steps + more) && Legal(steps) && Secure(Exec(steps), k)
    ensures Secure(Exec(steps + more), k)
    decreases |more|
  {
    if more == [] {
      assert steps + more == steps;
    } else {
      var all := steps + more;
      assert all[..|all| - 1] == steps + more[..|more| - 1];
      SecureStaysSecure(steps, more[..|more| - 1], k);
      RunKeepsInv(all[..|all| - 1]);
    }
  }

  // The worker may finish having stored exactly the first k accepted frames, for any k that covers the frames
  // accepted before the stop and those already taken.
  lemma {:induction false} MayFinishAt(steps: seq<Step>, k: nat) returns (more: seq<Step>)
    requires Legal(steps)
    requires var s := Exec(steps);
             !s.running && !s.phase.Done? && s.stoppedAt <= k <= |s.accepted| && Taken(s) <= k
    ensures Legal(steps + more)
    ensures var s, t := Exec(steps), Exec(steps + more);
            && t.phase.Done? && t.accepted == s.accepted && Taken(t) == k && Rows(t.trace) == s.accepted[..k]
    decreases |Exec(steps).queue|, Rank(Exec(steps), k)
  {
    RunKeepsInv(steps);
    var s := Exec(steps);
    var step := NextTowards(s, k);
    Extend(steps, step);
    TowardsIsProgress(s, k);
    if Apply(s, step).phase.Done? {
      more := [step];
      RunKeepsInv(steps + more);
    } else {
      var rest := MayFinishAt(steps + [step], k);
      more := [step] + rest;
      assert steps + more == steps + [step] + rest;
    }
  }

  function NextTowards(s: State, k: nat): Step {
    match s.phase
    case Checking => Check(false)
    case Popping(final) => if final && Taken(s) < k then Take else Miss
    case Writing(_, _) => Write
    case Done => Miss
  }

  /** Steps before the worker is popping for the last time. */
  function Rank(s: State, k: nat): nat {
    match s.phase
    case Checking => 2
    case Popping(final) => if final then 1 else 3
    case Writing(_, final) => if final then 2 else 4
    case Done => 0
  }

  lemma TowardsIsProgress(s: State, k: nat)
    requires Inv(s) && !s.running && !s.phase.Done? && s.stoppedAt <= k <= |s.accepted| && Taken(s) <= k
    ensures Enabled(s, NextTowards(s, k))
    ensures var t := Apply(s, NextTowards(s, k));
            && !t.running && t.stoppedAt == s.stoppedAt && t.accepted == s.accepted && Taken(t) <= k
            && (|t.queue| < |s.queue| || (t.queue == s.queue && Rank(t, k) < Rank(s, k)))
            && (t.phase.Done? ==> Taken(t) == k)
  {
    hide Tracks, Rows, Persisted;
  }

  // Over all schedules a frame is sure to be stored if and only if it was accepted before the stop or the worker
  // has already taken it.
  lemma StoredForSureIff(steps: seq<Step>, k: nat)
    requires Legal(steps) && k < |Exec(steps).accepted|
    ensures Guaranteed(steps, k) <==> Secure(Exec(steps), k)
  {
    var s := Exec(steps);
    RunKeepsInv(steps);
    if Secure(s, k) {
      forall more: seq<Step> | Legal(steps + more) && Exec(steps + more).phase.Done?
        ensures k < |Rows(Exec(steps + more).trace)|
      {
        SecureStaysSecure(steps, more, k);
        RunKeepsInv(steps + more);
      }
    } else if s.phase.Done? {
      assert steps + [] == steps;
    } else {
      var more := MayFinishAt(steps, k);
      assert |Rows(Exec(steps + more).trace)| == k;
    }
  }

  // For the caller: a frame is sure to be stored if and only if it was logged before the stop.
  lemma LoggedBeforeStopIff(steps: seq<Step>, frame: Frame)
    requires Legal(steps) && Enabled(Exec(steps), Log(frame, true))
    ensures Legal(steps + [Log(frame, true)])
    ensures Guaranteed(steps + [Log(frame, true)], |Exec(steps).accepted|) <==> Exec(steps).running
  {
    hide Guaranteed;
    RunKeepsInv(steps);
    Extend(steps, Log(frame, true));
    StoredForSureIff(steps + [Log(frame, true)], |Exec(steps).accepted|);
  }

  // And after the stop, for any frame and from any run in which the worker has not finished: the worker may
  // drain the queue, finish, and leave that frame, accepted afterwards, as the only one not stored.
  lemma LateFrameMayBeLost(steps: seq<Step>, frame: Frame) returns (more: seq<Step>)
    requires Legal(steps) && !Exec(steps).running && !Exec(steps).phase.Done?
    ensures Legal(steps + more)
    ensures var s, t := Exec(steps), Exec(steps + more);
            t.phase.Done? && t.accepted == s.accepted + [frame] && Rows(t.trace) == s.accepted
  {
    RunKeepsInv(steps);
    var drained := MayFinishAt(steps, |Exec(steps).accepted|);
    Extend(steps + drained, Log(frame, true));
    more := drained + [Log(frame, true)];
    assert steps + more == steps + drained + [Log(frame, true)];
  }

  // The final drain is what makes this true: a worker that left on the stop flag would lose these frames.
  lemma FramesMayWaitWhenStopped(frame: Frame)
    ensures var steps := [Check(true), Miss, Log(frame, true), Stop];
            Legal(steps) && !Exec(steps).running && Exec(steps).phase.Checking? && Exec(steps).queue == [frame]
  {
    var a, b, c, d := [Check(true)], [Check(true), Miss], [Check(true), Miss, Log(frame, true)],
                      [Check(true), Miss, Log(frame, true), Stop];
    assert a[..0] == [] && b[..1] == a && c[..2] == b && d[..3] == c;
    assert Legal(a) && Legal(b) && Legal(c);
  }

  // A frame logged after the worker has finished is accepted and never written.
  lemma FrameAfterStopIsLost(frame: Frame)
    ensures var steps := [Stop, Check(false), Miss, Log(frame, true)];
            && Legal(steps) && Exec(steps).phase.Done?
            && Exec(steps).accepted == [frame] && Rows(Exec(steps).trace) == []
  {
    var a, b, c, d := [Stop], [Stop, Check(false)], [Stop, Check(false), Miss],
                      [Stop, Check(false), Miss, Log(frame, true)];
    assert a[..0] == [] && b[..1] == a && c[..2] == b && d[..3] == c;
    assert Legal(a) && Legal(b) && Legal(c);
  }

  // ---------------------------------------------------------------- the program

  ghost function Popped(framePtr: Option<Frame>): seq<Frame> {
    if framePtr.Some? then [framePtr.value] else []
  }

  ghost predicate Splits(all: seq<Frame>, done: seq<Frame>, framePtr: Option<Frame>, waiting: seq<Frame>) {
    all == done + Popped(framePtr) + waiting && (framePtr.None? ==> waiting == [])
  }

  lemma SplitsFirst(all: seq<Frame>)
    ensures all == [] ==> Splits(all, [], None, [])
    ensures all != [] ==> Splits(all, [], Some(all[0]), all[1..])
  {
  }

  lemma SplitsNext(all: seq<Frame>, done: seq<Frame>, frame: Frame, waiting: seq<Frame>)
    requires Splits(all, done, Some(frame), waiting)
    ensures waiting == [] ==> Splits(all, done + [frame], None, [])
    ensures waiting != [] ==> Splits(all, done + [frame], Some(waiting[0]), waiting[1..])
  {
  }

  lemma SplitsLast(all: seq<Frame>, done: seq<Frame>, waiting: seq<Frame>)
    requires Splits(all, done, None, waiting)
    ensures all == done
  {
  }

  class Store {
    const queue: Queue<Frame>
    var running: bool
    var trace: seq<Op>
    ghost var accepted: seq<Frame>

    ghost predicate Valid()
      reads this, queue, queue.buffer
    {
      queue.Valid() && queue.buffer.Length == CAPACITY && Balanced(trace) && accepted == Rows(trace) + queue.contents
    }

    constructor ()
      ensures Valid() && fresh(queue) && fresh(queue.buffer) && accepted == [] && running
    {
      queue := new Queue(CAPACITY);
      running, trace, accepted := true, [], [];
    }

    method LogFrame(frame: Frame) returns (ok: bool)
      requires Valid()
      modifies this`accepted, queue, queue.buffer
      ensures Valid() && (ok <==> |old(queue.contents)| < CAPACITY - 1)
      ensures accepted == if ok then old(accepted) + [frame] else old(accepted)
    {
      ok := queue.TryPush(frame);
      if ok {
        accepted := accepted + [frame];
      }
    }

    method ProcessQueue()
      requires Valid()
      modifies this`trace, queue
      ensures Valid() && queue.contents == [] && Rows(trace) == accepted
      ensures trace == old(trace) + Drained(old(queue.contents))
    {
      hide Rows, Balanced, Persisted, Drained, Tracks, Wrote, Splits;
      ghost var before, all, done: seq<Frame> := trace, queue.contents, [];
      WroteNothing(trace);
      SplitsFirst(all);
      var inTransaction, count: nat := false, 0;
      var framePtr := queue.TryPop();
      while framePtr.Some?
        invariant queue.Valid() && (framePtr.None? ==> queue.contents == [])
        invariant Splits(all, done, framePtr, queue.contents)
        invariant Wrote(before, done, trace, inTransaction, count)
        decreases |queue.contents|, framePtr.Some?
      {
        WroteOneMore(before, done, framePtr.value, trace, inTransaction, count);
        SplitsNext(all, done, framePtr.value, queue.contents);
        done := done + [framePtr.value];
        trace, inTransaction, count := Persist(trace, inTransaction, count, framePtr.value);
        framePtr := queue.TryPop();
      }
      SplitsLast(all, done, queue.contents);
      WroteAll(before, all, trace, inTransaction, count);
      if inTransaction {
        trace := trace + [Commit];
      }
    }

    // By the time it returns, every accepted frame is in the database.
    method Stop()
      requires Valid()
      modifies this`running, this`trace, queue
      ensures Valid() && !running && (old(running) ==> Rows(trace) == accepted)
    {
      if !running {
        return;
      }
      running := false;
      ProcessQueue();
    }
  }
}
