/** RiskEngine: parameter updates, the fat-finger bound and the order rate limit. */
module RiskEngine {
  import opened Numbers
  import opened Smoothing

  const MAX_ORDERS_PER_SECOND: nat := 5
  const FAT_FINGER_PRICE_BOUND: real := 0.03
  const MAX_ALLOWABLE_RISK_PCT: real := 5.0
  const SECOND: nat := 1_000_000_000

  // ---------------------------------------------------------------- parameter updates

  /** What one reading of the shared parameter block returns. */
  datatype Params = Params(version: nat, riskPct: real, gateBps: nat)

  /** The part of the gate that parameter updates change; risk is a fraction of equity. */
  datatype Gate = Gate(maxRisk: real, version: nat)

  const INITIAL_GATE := Gate(0.02, 0)

  function Synced(g: Gate, p: Params): Gate {
    if p.version > g.version then Gate(MinReal(p.riskPct, MAX_ALLOWABLE_RISK_PCT) / 100.0, p.version) else g
  }

  function SyncedAll(readings: seq<Params>): Gate {
    if readings == [] then INITIAL_GATE else Synced(SyncedAll(readings[..|readings| - 1]), readings[|readings| - 1])
  }

  // Whatever versions and values are read, in whatever order, the risk never exceeds 5% and comes
  // from the newest version seen, unless no reading was ever newer than version 0.
  lemma {:induction false} RiskIsCapped(readings: seq<Params>)
    ensures var g := SyncedAll(readings);
            && g.maxRisk <= 0.05
            && (forall k :: 0 <= k < |readings| ==> readings[k].version <= g.version)
            && (g == INITIAL_GATE || exists k :: 0 <= k < |readings| && readings[k].version == g.version
                                                 && g.maxRisk * 100.0 == MinReal(readings[k].riskPct, 5.0))
  {
    if readings != [] {
      var n := |readings| - 1;
      RiskIsCapped(readings[..n]);
      var g, h := SyncedAll(readings[..n]), SyncedAll(readings);
      assert readings[n].version <= h.version;
      if h == g && g != INITIAL_GATE {
        var k :| 0 <= k < n && readings[..n][k].version == g.version
                 && g.maxRisk * 100.0 == MinReal(readings[..n][k].riskPct, 5.0);
        assert readings[k].version == h.version;
      }
    }
  }

  // ---------------------------------------------------------------- the rate limit

  /** A call to validate_execution: when, and whether the price bound let it through. */
  datatype Call = Call(ts: nat, passed: bool)

  datatype Rate = Rate(lastSec: nat, orders: nat)

  function Sec(c: Call): nat {
    c.ts / SECOND
  }

  function Counted(r: Rate, sec: nat): Rate {
    if sec == r.lastSec then Rate(sec, r.orders + 1) else Rate(sec, 1)
  }

  /** The limiter's two fields after a stream of calls. */
  function After(calls: seq<Call>): Rate {
    if calls == [] then Rate(0, 0)
    else
      var last, before := calls[|calls| - 1], After(calls[..|calls| - 1]);
      if last.passed then Counted(before, Sec(last)) else before
  }

  predicate LastAccepted(calls: seq<Call>)
    requires calls != []
  {
    calls[|calls| - 1].passed && After(calls).orders <= MAX_ORDERS_PER_SECOND
  }

  function PassedIn(calls: seq<Call>, sec: nat): nat {
    if calls == [] then 0
    else
      var last := calls[|calls| - 1];
      PassedIn(calls[..|calls| - 1], sec) + if last.passed && Sec(last) == sec then 1 else 0
  }

  function AcceptedIn(calls: seq<Call>, sec: nat): nat {
    if calls == [] then 0
    else AcceptedIn(calls[..|calls| - 1], sec) + if LastAccepted(calls) && Sec(calls[|calls| - 1]) == sec then 1 else 0
  }

  /** Accepted calls with from <= timestamp < to. */
  function AcceptedBetween(calls: seq<Call>, from: nat, to: nat): nat {
    if calls == [] then 0
    else AcceptedBetween(calls[..|calls| - 1], from, to)
         + if LastAccepted(calls) && from <= calls[|calls| - 1].ts < to then 1 else 0
  }

  predicate Ordered(calls: seq<Call>) {
    forall j, k :: 0 <= j <= k < |calls| ==> calls[j].ts <= calls[k].ts
  }

  /** Once a passed call has left a second, no later passed call comes back to it. */
  predicate OneVisit(calls: seq<Call>, sec: nat) {
    forall i, j, k :: 0 <= i < j < k < |calls| && PassedAt(calls[i], sec) && calls[j].passed && PassedAt(calls[k], sec)
      ==> PassedAt(calls[j], sec)
  }

  predicate PassedAt(c: Call, sec: nat) {
    c.passed && Sec(c) == sec
  }

  /** What keeps a second within the limit: too few calls to matter, or no return to it. */
  predicate Fits(calls: seq<Call>, sec: nat) {
    PassedIn(calls, sec) <= MAX_ORDERS_PER_SECOND || OneVisit(calls, sec)
  }

  // The remembered second is that of the last call that passed.
  lemma {:induction false} LastPassed(calls: seq<Call>) returns (last: nat)
    requires After(calls).orders > 0
    ensures last < |calls| && PassedAt(calls[last], After(calls).lastSec)
    ensures forall j :: last < j < |calls| ==> !calls[j].passed
    decreases |calls|
  {
    last := |calls| - 1;
    if !calls[last].passed {
      last := LastPassed(calls[..last]);
    }
  }

  lemma {:induction false} NothingPassed(calls: seq<Call>)
    requires After(calls).orders == 0
    ensures After(calls) == Rate(0, 0) && forall j :: 0 <= j < |calls| ==> !calls[j].passed
    decreases |calls|
  {
    if calls != [] {
      NothingPassed(calls[..|calls| - 1]);
    }
  }

  lemma {:induction false} SomePassed(calls: seq<Call>, sec: nat)
    ensures PassedIn(calls, sec) > 0 <==> exists i :: 0 <= i < |calls| && PassedAt(calls[i], sec)
    ensures AcceptedIn(calls, sec) <= PassedIn(calls, sec)
    decreases |calls|
  {
    if calls != [] {
      var n := |calls| - 1;
      SomePassed(calls[..n], sec);
      if PassedAt(calls[n], sec) {
        assert PassedIn(calls, sec) > 0;
      } else if exists i :: 0 <= i < |calls| && PassedAt(calls[i], sec) {
        var i :| 0 <= i < |calls| && PassedAt(calls[i], sec);
        assert calls[..n][i] == calls[i];
      }
    }
  }

  /** What the limiter's fields say of a second, visited once or more than once. */
  ghost predicate Tally(calls: seq<Call>, sec: nat) {
    var p, a, r := PassedIn(calls, sec), AcceptedIn(calls, sec), After(calls);
    if OneVisit(calls, sec) then
      a == Min(MAX_ORDERS_PER_SECOND, p) && (r.lastSec == sec ==> r.orders == p)
    else
      && p > 0 && a >= Min(MAX_ORDERS_PER_SECOND + 1, p)
      && (r.lastSec == sec ==> a >= 1 + Min(MAX_ORDERS_PER_SECOND, r.orders))
  }

  // A call that passes into another second, or does not pass, leaves the number of visits alone.
  lemma SameVisits(front: seq<Call>, c: Call, sec: nat)
    requires !PassedAt(c, sec)
    ensures OneVisit(front + [c], sec) <==> OneVisit(front, sec)
  {
    var calls := front + [c];
    if OneVisit(calls, sec) {
      forall i, j, k | 0 <= i < j < k < |front| && PassedAt(front[i], sec) && front[j].passed && PassedAt(front[k], sec)
        ensures PassedAt(front[j], sec)
      {
        assert calls[i] == front[i] && calls[j] == front[j] && calls[k] == front[k];
      }
    }
  }

  lemma BrokenStaysBroken(front: seq<Call>, c: Call, sec: nat)
    requires !OneVisit(front, sec)
    ensures !OneVisit(front + [c], sec)
  {
    var calls := front + [c];
    var i, j, k :| 0 <= i < j < k < |front| && PassedAt(front[i], sec) && front[j].passed && PassedAt(front[k], sec)
                   && !PassedAt(front[j], sec);
    assert calls[i] == front[i] && calls[j] == front[j] && calls[k] == front[k];
  }

  lemma StayingIsNoReturn(front: seq<Call>, last: nat, c: Call, sec: nat)
    requires OneVisit(front, sec) && last < |front| && PassedAt(front[last], sec)
    requires forall j :: last < j < |front| ==> !front[j].passed
    ensures OneVisit(front + [c], sec)
  {
    var calls := front + [c];
    forall i, j, k | 0 <= i < j < k < |calls| && PassedAt(calls[i], sec) && calls[j].passed && PassedAt(calls[k], sec)
      ensures PassedAt(calls[j], sec)
    {
      assert front[i] == calls[i] && front[j] == calls[j];
      assert j < last || j == last;
    }
  }

  lemma FirstVisit(front: seq<Call>, c: Call, sec: nat)
    requires forall i :: 0 <= i < |front| ==> !PassedAt(front[i], sec)
    ensures OneVisit(front + [c], sec)
  {
    forall i | 0 <= i < |front| ensures !PassedAt((front + [c])[i], sec) {
      assert (front + [c])[i] == front[i];
    }
  }

  // A call that passes into sec is a return exactly when sec was visited before and is not the remembered second.
  lemma NextVisit(front: seq<Call>, c: Call, sec: nat)
    requires PassedAt(c, sec) && OneVisit(front, sec)
    ensures OneVisit(front + [c], sec) <==> PassedIn(front, sec) == 0 || After(front).lastSec == sec
  {
    hide OneVisit, PassedAt, PassedIn, AcceptedIn, After;
    SomePassed(front, sec);
    if PassedIn(front, sec) == 0 {
      FirstVisit(front, c, sec);
    } else {
      var i :| 0 <= i < |front| && PassedAt(front[i], sec);
      PassedMeansCounted(front, i, sec);
      var last := LastPassed(front);
      if After(front).lastSec == sec {
        StayingIsNoReturn(front, last, c, sec);
      } else {
        ReturnAfterLeaving(front, i, last, c, sec);
      }
    }
  }

  lemma PassedMeansCounted(calls: seq<Call>, i: nat, sec: nat)
    requires i < |calls| && PassedAt(calls[i], sec)
    ensures After(calls).orders > 0
  {
    hide After;
    if After(calls).orders == 0 {
      NothingPassed(calls);
    }
  }

  lemma ReturnAfterLeaving(front: seq<Call>, i: nat, last: nat, c: Call, sec: nat)
    requires i < |front| && last < |front| && PassedAt(front[i], sec) && PassedAt(c, sec)
    requires front[last].passed && Sec(front[last]) != sec && forall j :: last < j < |front| ==> !front[j].passed
    ensures !OneVisit(front + [c], sec)
  {
    hide Sec;
    var calls := front + [c];
    assert i < last;
    assert calls[i] == front[i] && calls[last] == front[last] && calls[|front|] == c;
    assert !PassedAt(calls[last], sec);
  }

  lemma CountOneMore(front: seq<Call>, c: Call, sec: nat)
    ensures var calls := front + [c];
            && PassedIn(calls, sec) == PassedIn(front, sec) + (if PassedAt(c, sec) then 1 else 0)
            && After(calls) == (if c.passed then Counted(After(front), Sec(c)) else After(front))
            && AcceptedIn(calls, sec) == AcceptedIn(front, sec)
                 + (if PassedAt(c, sec) && After(calls).orders <= MAX_ORDERS_PER_SECOND then 1 else 0)
  {
    assert (front + [c])[..|front|] == front;
  }

  lemma TallyOneMore(front: seq<Call>, c: Call, sec: nat)
    requires Tally(front, sec)
    ensures Tally(front + [c], sec)
  {
    hide OneVisit, PassedIn, AcceptedIn, After, Sec;
    CountOneMore(front, c, sec);
    if !PassedAt(c, sec) {
      SameVisits(front, c, sec);
    } else if OneVisit(front, sec) {
      NextVisit(front, c, sec);
    } else {
      BrokenStaysBroken(front, c, sec);
    }
  }

  lemma {:induction false} EverySecondIsTallied(calls: seq<Call>, sec: nat)
    ensures Tally(calls, sec)
    decreases |calls|
  {
    if calls != [] {
      var n := |calls| - 1;
      EverySecondIsTallied(calls[..n], sec);
      TallyOneMore(calls[..n], calls[n], sec);
      assert calls[..n] + [calls[n]] == calls;
    }
  }

  lemma SecondsAreOrdered(a: nat, b: nat)
    requires a <= b
    ensures a / SECOND <= b / SECOND
  {
  }

  lemma OrderedVisitsOnce(calls: seq<Call>, sec: nat)
    requires Ordered(calls)
    ensures OneVisit(calls, sec)
  {
    forall i, j, k | 0 <= i < j < k < |calls| && PassedAt(calls[i], sec) && calls[j].passed && PassedAt(calls[k], sec)
      ensures PassedAt(calls[j], sec)
    {
      SecondsAreOrdered(calls[i].ts, calls[j].ts);
      SecondsAreOrdered(calls[j].ts, calls[k].ts);
    }
  }

  // For any stream of calls, in any order: of the calls of a clock second that pass the price bound exactly
  // the first five are accepted, and no more than five are, if and only if there are at most five of them
  // or the stream does not come back to the second after leaving it. Non-decreasing timestamps never come back.
  lemma FivePerSecond(calls: seq<Call>, sec: nat)
    ensures AcceptedIn(calls, sec) == Min(5, PassedIn(calls, sec)) <==> Fits(calls, sec)
    ensures AcceptedIn(calls, sec) <= 5 <==> Fits(calls, sec)
    ensures Ordered(calls) ==> Fits(calls, sec)
  {
    hide OneVisit, PassedIn, AcceptedIn, After, Ordered;
    EverySecondIsTallied(calls, sec);
    SomePassed(calls, sec);
    if Ordered(calls) {
      OrderedVisitsOnce(calls, sec);
    }
  }

  /** The seconds of the calls that passed. */
  function PassedSeconds(calls: seq<Call>): (secs: seq<nat>) {
    if calls == [] then []
    else
      var last := calls[|calls| - 1];
      PassedSeconds(calls[..|calls| - 1]) + if last.passed then [Sec(last)] else []
  }

  ghost predicate EndsWith(secs: seq<nat>, length: nat, sec: nat) {
    length <= |secs| && forall k :: |secs| - length <= k < |secs| ==> secs[k] == sec
  }

  // The counter is the length of the latest run of passed calls in one second.
  lemma {:induction false} OrdersAreTheRun(calls: seq<Call>, length: nat)
    requires length > 0
    ensures EndsWith(PassedSeconds(calls), length, After(calls).lastSec) <==> length <= After(calls).orders
    decreases |calls|, length
  {
    if calls != [] {
      var front, last := calls[..|calls| - 1], calls[|calls| - 1];
      var secs := PassedSeconds(front);
      if !last.passed {
        assert PassedSeconds(calls) == secs;
        OrdersAreTheRun(front, length);
      } else {
        var next := Sec(last);
        assert PassedSeconds(calls) == secs + [next] && After(calls) == Counted(After(front), next);
        OrdersAreTheRun(front, 1);
        NoneBefore(front);
        if length > 1 {
          OrdersAreTheRun(front, length - 1);
          RunGrows(secs, length, next, next);
          if After(front).lastSec != next {
            EndsDiffer(secs, length - 1, After(front).lastSec, next);
          }
        } else {
          assert (secs + [next])[|secs|] == next;
        }
      }
    }
  }

  lemma NoneBefore(calls: seq<Call>)
    ensures After(calls).orders == 0 ==> PassedSeconds(calls) == []
  {
    hide After;
    if After(calls).orders == 0 {
      NothingPassed(calls);
      NoneInNone(calls);
    }
  }

  lemma EndsDiffer(secs: seq<nat>, length: nat, a: nat, b: nat)
    requires length > 0 && a != b
    ensures !(EndsWith(secs, 1, a) && EndsWith(secs, length, b))
  {
    if EndsWith(secs, 1, a) {
      assert secs[|secs| - 1] == a;
    }
  }

  lemma {:induction false} NoneInNone(calls: seq<Call>)
    requires forall j :: 0 <= j < |calls| ==> !calls[j].passed
    ensures PassedSeconds(calls) == []
    decreases |calls|
  {
    if calls != [] {
      NoneInNone(calls[..|calls| - 1]);
    }
  }

  lemma RunGrows(secs: seq<nat>, length: nat, sec: nat, next: nat)
    requires length > 1
    ensures EndsWith(secs + [next], length, sec) <==> next == sec && EndsWith(secs, length - 1, sec)
  {
    var all := secs + [next];
    if EndsWith(all, length, sec) {
      assert all[|secs|] == sec;
      forall k | |secs| - (length - 1) <= k < |secs| ensures secs[k] == sec {
        assert all[k] == sec;
      }
    }
  }

  // The verdict on a call, for any stream: a call that passes the bound is refused exactly when it is the
  // sixth or later of an unbroken run of passed calls in one second.
  lemma RefusedAfterFiveInARow(calls: seq<Call>)
    requires calls != [] && calls[|calls| - 1].passed
    ensures LastAccepted(calls)
            <==> !EndsWith(PassedSeconds(calls), MAX_ORDERS_PER_SECOND + 1, Sec(calls[|calls| - 1]))
  {
    OrdersAreTheRun(calls, MAX_ORDERS_PER_SECOND + 1);
  }

  lemma WindowMeetsTwoSeconds(ts: nat, from: nat, to: nat)
    requires from <= ts < to <= from + SECOND
    ensures ts / SECOND == from / SECOND || ts / SECOND == from / SECOND + 1
  {
  }

  lemma {:induction false} WindowIsCovered(calls: seq<Call>, from: nat, to: nat)
    requires to <= from + SECOND
    ensures AcceptedBetween(calls, from, to)
            <= AcceptedIn(calls, from / SECOND) + AcceptedIn(calls, from / SECOND + 1)
    decreases |calls|
  {
    if calls != [] {
      WindowIsCovered(calls[..|calls| - 1], from, to);
      if from <= calls[|calls| - 1].ts < to {
        WindowMeetsTwoSeconds(calls[|calls| - 1].ts, from, to);
      }
    }
  }

  // A window of up to one second sees at most ten accepted orders when both seconds it meets keep the limit.
  lemma TenPerWindow(calls: seq<Call>, from: nat, to: nat)
    requires to <= from + SECOND
    ensures Fits(calls, from / SECOND) && Fits(calls, from / SECOND + 1)
            ==> AcceptedBetween(calls, from, to) <= 2 * MAX_ORDERS_PER_SECOND
    ensures Ordered(calls) ==> AcceptedBetween(calls, from, to) <= 2 * MAX_ORDERS_PER_SECOND
  {
    hide Fits, Ordered;
    WindowIsCovered(calls, from, to);
    FivePerSecond(calls, from / SECOND);
    FivePerSecond(calls, from / SECOND + 1);
  }

  function FlipCall(n: nat): Call {
    Call(if n % 2 == 0 then 2 * SECOND else 2 * SECOND - 1, true)
  }

  /** Calls whose clock flips by one nanosecond between two seconds. */
  function Flipping(n: nat): (calls: seq<Call>)
    ensures |calls| == n
  {
    if n == 0 then [] else Flipping(n - 1) + [FlipCall(n)]
  }

  lemma FlipCallIs(n: nat)
    ensures Sec(FlipCall(n)) == (if n % 2 == 0 then 2 else 1) && FlipCall(n).passed
    ensures 2 * SECOND - 1 <= FlipCall(n).ts < 2 * SECOND + 1
  {
  }

  lemma OneMoreFlip(calls: seq<Call>, c: Call, n: nat)
    requires c.passed && Sec(c) == (if n % 2 == 0 then 2 else 1) && 2 * SECOND - 1 <= c.ts < 2 * SECOND + 1
    requires calls == [] || (After(calls).orders == 1 && After(calls).lastSec == 3 - Sec(c))
    ensures After(calls + [c]) == Rate(Sec(c), 1)
    ensures AcceptedBetween(calls + [c], 2 * SECOND - 1, 2 * SECOND + 1)
            == AcceptedBetween(calls, 2 * SECOND - 1, 2 * SECOND + 1) + 1
  {
    hide Sec;
    assert (calls + [c])[..|calls|] == calls;
  }

  lemma NoCalls(from: nat, to: nat)
    ensures AcceptedBetween([], from, to) == 0
  {
  }

  // Without it the limit has no teeth: when timestamps flip between two seconds every call is accepted,
  // any number of them within two nanoseconds.
  lemma {:induction false} FlippingDefeatsTheLimit(n: nat)
    ensures AcceptedBetween(Flipping(n), 2 * SECOND - 1, 2 * SECOND + 1) == n
    ensures n > 0 ==> After(Flipping(n)) == Rate(if n % 2 == 0 then 2 else 1, 1)
  {
    hide Sec, FlipCall, After, AcceptedBetween;
    if n == 0 {
      NoCalls(2 * SECOND - 1, 2 * SECOND + 1);
    } else {
      FlippingDefeatsTheLimit(n - 1);
      FlipCallIs(n);
      OneMoreFlip(Flipping(n - 1), FlipCall(n), n);
    }
  }

  // ---------------------------------------------------------------- the engine

  predicate WithinBound(emaPrice: real, price: real) {
    emaPrice > 0.00000001 ==> Abs(price - emaPrice) <= FAT_FINGER_PRICE_BOUND * emaPrice
  }

  // Once there is an average, an order passes exactly when its price is between 97% and 103% of it.
  lemma BoundIsThreePercent(emaPrice: real, price: real)
    ensures emaPrice > 0.00000001 ==> (WithinBound(emaPrice, price) <==> 0.97 * emaPrice <= price <= 1.03 * emaPrice)
    ensures emaPrice <= 0.00000001 ==> WithinBound(emaPrice, price)
  {
  }

  function NextEma(emaPrice: real, mid: real): real {
    if emaPrice < 0.00000001 then mid else emaPrice * 0.961 + mid * 0.039
  }

  // A new mid price leaves 96.1% of the distance between it and the average.
  lemma EmaMoves(emaPrice: real, mid: real)
    ensures if emaPrice < 0.00000001 then NextEma(emaPrice, mid) == mid
            else NextEma(emaPrice, mid) - mid == 0.961 * (emaPrice - mid)
  {
  }

  function EmaAfter(mids: seq<real>): real {
    if mids == [] then 0.0 else NextEma(EmaAfter(mids[..|mids| - 1]), mids[|mids| - 1])
  }

  // The price average starts at the first mid price (again after one below 1e-8) and from then on lies
  // between the lowest and the highest mid price seen.
  lemma {:induction false} EmaStaysInHull(mids: seq<real>, lo: real, hi: real)
    requires Within(mids, lo, hi)
    ensures if mids == [] then EmaAfter(mids) == 0.0 else lo <= EmaAfter(mids) <= hi
    decreases |mids|
  {
    if mids != [] {
      EmaStaysInHull(mids[..|mids| - 1], lo, hi);
    }
  }

  lemma DeviationIs(difference: real, emaPrice: real)
    requires emaPrice > 0.0
    ensures difference / emaPrice > FAT_FINGER_PRICE_BOUND <==> difference > FAT_FINGER_PRICE_BOUND * emaPrice
  {
    var q := difference / emaPrice;
    assert q * emaPrice == difference;
  }

  class RiskEngine {
    var maxRiskPct: real
    var lastVersionId: nat
    var emaPrice: real
    var lastOrderSec: nat
    var ordersThisSec: nat

    ghost var readings: seq<Params>   // parameter blocks read so far
    ghost var mids: seq<real>         // mid prices seen so far
    ghost var calls: seq<Call>        // calls to ValidateExecution so far

    ghost predicate Valid()
      reads this
    {
      && Gate(maxRiskPct, lastVersionId) == SyncedAll(readings) && emaPrice == EmaAfter(mids)
      && Rate(lastOrderSec, ordersThisSec) == After(calls)
    }

    constructor ()
      ensures Valid() && readings == [] && mids == [] && calls == []
    {
      maxRiskPct, lastVersionId, emaPrice, lastOrderSec, ordersThisSec := 0.02, 0, 0.0, 0, 0;
      readings, mids, calls := [], [], [];
    }

    method SyncParameters(p: Params)
      requires Valid()
      modifies this`maxRiskPct, this`lastVersionId, this`readings
      ensures Valid() && readings == old(readings) + [p]
      ensures Gate(maxRiskPct, lastVersionId) == Synced(old(Gate(maxRiskPct, lastVersionId)), p)
    {
      if p.version > lastVersionId {
        var newRisk := p.riskPct;
        if newRisk > MAX_ALLOWABLE_RISK_PCT {
          newRisk := MAX_ALLOWABLE_RISK_PCT;
        }
        maxRiskPct, lastVersionId := newRisk / 100.0, p.version;
      }
      assert (readings + [p])[..|readings|] == readings;
      readings := readings + [p];
    }

    method UpdateMarketState(mid: real)
      requires Valid()
      modifies this`emaPrice, this`mids
      ensures Valid() && mids == old(mids) + [mid]
      ensures forall lo, hi :: Within(mids, lo, hi) ==> lo <= emaPrice <= hi
    {
      if emaPrice < 0.00000001 {
        emaPrice := mid;
      } else {
        emaPrice := emaPrice * 0.961 + mid * 0.039;
      }
      assert (mids + [mid])[..|mids|] == mids;
      mids := mids + [mid];
      forall lo, hi | Within(mids, lo, hi) ensures lo <= emaPrice <= hi {
        EmaStaysInHull(mids, lo, hi);
      }
    }

    method ValidateExecution(entryPrice: real, ts: nat) returns (ok: bool)
      requires Valid()
      modifies this`lastOrderSec, this`ordersThisSec, this`calls
      ensures Valid() && calls == old(calls) + [Call(ts, WithinBound(emaPrice, entryPrice))]
      ensures ok <==> LastAccepted(calls)
    {
      ghost var before := calls;
      calls := calls + [Call(ts, WithinBound(emaPrice, entryPrice))];
      assert calls[..|before|] == before;
      if emaPrice > 0.00000001 {
        var deviation := Abs(entryPrice - emaPrice) / emaPrice;
        DeviationIs(Abs(entryPrice - emaPrice), emaPrice);
        if deviation > FAT_FINGER_PRICE_BOUND {
          return false;
        }
      }
      var currentSec := ts / SECOND;
      if currentSec == lastOrderSec {
        ordersThisSec := ordersThisSec + 1;
        if ordersThisSec > MAX_ORDERS_PER_SECOND {
          return false;
        }
      } else {
        lastOrderSec, ordersThisSec := currentSec, 1;
      }
      ok := true;
    }
  }
}
