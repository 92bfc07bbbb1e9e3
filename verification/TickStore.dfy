/** SoATickStore: a struct of arrays holding the most recent ticks in a ring. */
module TickStore {
  import opened Market
  import Remainders

  datatype Row = Row(tick: Tick, dxy: real, xag: real, y10: real)

  function Lasts(rows: seq<Row>): (p: seq<real>)
    ensures |p| == |rows|
  {
    seq(|rows|, i requires 0 <= i < |rows| => rows[i].tick.last)
  }

  function Volumes(rows: seq<Row>): (v: seq<real>)
    ensures |v| == |rows|
  {
    seq(|rows|, i requires 0 <= i < |rows| => rows[i].tick.volume)
  }

  function DxyPrices(rows: seq<Row>): (p: seq<real>)
    ensures |p| == |rows|
  {
    seq(|rows|, i requires 0 <= i < |rows| => rows[i].dxy)
  }

  function Yields(rows: seq<Row>): (p: seq<real>)
    ensures |p| == |rows|
  {
    seq(|rows|, i requires 0 <= i < |rows| => rows[i].y10)
  }

  class Store {
    const n: nat
    const timestamps: array<int>
    const bids: array<real>
    const asks: array<real>
    const lasts: array<real>
    const volumes: array<real>
    const dxyPrices: array<real>
    const xagPrices: array<real>
    const yield10y: array<real>
    var count: nat

    ghost var history: seq<Row>   // every tick ever pushed

    ghost function Columns(): seq<array<real>> {
      [bids, asks, lasts, volumes, dxyPrices, xagPrices, yield10y]
    }

    ghost predicate Shape() {
      && n > 0 && timestamps.Length == bids.Length == asks.Length == lasts.Length == n
      && volumes.Length == dxyPrices.Length == xagPrices.Length == yield10y.Length == n
      && (forall c, d :: 0 <= c < d < 7 ==> Columns()[c] != Columns()[d])
    }

    ghost function RowAt(slot: nat): Row
      requires Shape() && slot < n
      reads timestamps, bids, asks, lasts, volumes, dxyPrices, xagPrices, yield10y
    {
      Row(Tick(timestamps[slot], bids[slot], asks[slot], volumes[slot], lasts[slot]),
          dxyPrices[slot], xagPrices[slot], yield10y[slot])
    }

    function Filled(): nat
      reads this
    {
      if count < n then count else n
    }

    ghost predicate Valid()
      reads this, timestamps, bids, asks, lasts, volumes, dxyPrices, xagPrices, yield10y
    {
      && Shape() && count == |history|
      && forall i :: count - Filled() <= i < count ==> RowAt(i % n) == history[i]
    }

    /** The last k ticks, oldest first. */
    ghost function Window(k: nat): (w: seq<Row>)
      requires Valid() && k <= Filled()
      ensures |w| == k
      reads this, timestamps, bids, asks, lasts, volumes, dxyPrices, xagPrices, yield10y
    {
      history[count - k..]
    }

    constructor (size: nat)
      requires size > 0
      ensures Valid() && n == size && history == []
      ensures fresh(timestamps) && forall c :: 0 <= c < 7 ==> fresh(Columns()[c])
    {
      n := size;
      timestamps := new int[size];
      bids, asks, lasts := new real[size], new real[size], new real[size];
      volumes, dxyPrices := new real[size], new real[size];
      xagPrices, yield10y := new real[size], new real[size];
      count, history := 0, [];
    }

    method Push(t: Tick, dxy: real, xag: real, y10: real)
      requires Valid()
      modifies this, timestamps, bids, asks, lasts, volumes, dxyPrices, xagPrices, yield10y
      ensures Valid() && history == old(history) + [Row(t, dxy, xag, y10)]
    {
      var idx := count % n;
      forall i | count + 1 - n <= i < count && 0 <= i ensures i % n != idx {
        if i % n == idx {
          Remainders.SameRemainder(i, count, n);
        }
      }
      assert Columns()[0] == bids && Columns()[1] == asks && Columns()[2] == lasts && Columns()[3] == volumes;
      assert Columns()[4] == dxyPrices && Columns()[5] == xagPrices && Columns()[6] == yield10y;
      label before:
      timestamps[idx] := t.timestamp;
      bids[idx] := t.bid;
      asks[idx] := t.ask;
      lasts[idx] := t.last;
      volumes[idx] := t.volume;
      dxyPrices[idx] := dxy;
      xagPrices[idx] := xag;
      yield10y[idx] := y10;
      count := count + 1;
      history := history + [Row(t, dxy, xag, y10)];
      assert forall slot :: 0 <= slot < n && slot != idx ==> RowAt(slot) == old@before(RowAt(slot));
    }

    // The slot every indicator loop computes holds the i-th of the last k ticks.
    method SlotOf(k: nat, i: nat) returns (idx: nat)
      requires Valid() && i < k <= Filled()
      ensures idx < bids.Length && idx < asks.Length && idx < lasts.Length && idx < volumes.Length
      ensures idx < dxyPrices.Length && idx < yield10y.Length
      ensures var row := Window(k)[i];
              && bids[idx] == row.tick.bid && asks[idx] == row.tick.ask && lasts[idx] == row.tick.last
              && volumes[idx] == row.tick.volume && dxyPrices[idx] == row.dxy && yield10y[idx] == row.y10
    {
      hide Store.Columns;
      var base := (count - k) % n;
      idx := (base + i) % n;
      Remainders.ShiftedRemainder(count - k, i, n);
      assert RowAt(idx) == Window(k)[i];
    }
  }
}
