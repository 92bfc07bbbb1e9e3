/** FeatureExporter: labels every tick with the returns of the ticks 10 and 50 later, from a ring of 64. */
module FeatureExporter {
  import opened Bits
  import Remainders

  const LOOKBACK: nat := 64

  datatype Sample = Sample(price: real, stamp: int, mask: seq<Word>, conviction: real)

  datatype Record = Record(timestamp: nat, mask: seq<Word>, conviction: real, return10: real, return50: real)

  /** Percentage return over a base price. */
  function Return(base: real, price: real): real
    requires base > 0.0
  {
    (price - base) / base * 100.0
  }

  predicate Usable(s: Sample) {
    s.price > 0.00000001
  }

  /** The record of tick k, labelled with the ticks exactly 10 and 50 later. */
  function RecordOf(history: seq<Sample>, k: nat): Record
    requires k + 50 < |history| && Usable(history[k])
  {
    var s := history[k];
    Record(s.stamp % 0x1_0000_0000_0000_0000, s.mask, s.conviction,
           Return(s.price, history[k + 10].price), Return(s.price, history[k + 50].price))
  }

  lemma ReturnIsRelative(base: real, price: real)
    requires base > 0.0
    ensures price == base * (1.0 + Return(base, price) / 100.0)
  {
    var share := (price - base) / base;
    assert share * base == price - base;
    assert Return(base, price) / 100.0 == share;
  }

  // A record carries its own tick's stamp, mask and conviction, and its two labels lead from that tick's price to
  // the prices of the ticks exactly 10 and 50 later.
  lemma LabelsLeadToLaterPrices(history: seq<Sample>, k: nat)
    requires k + 50 < |history| && Usable(history[k])
    ensures var r, s := RecordOf(history, k), history[k];
            && history[k + 10].price == s.price * (1.0 + r.return10 / 100.0)
            && history[k + 50].price == s.price * (1.0 + r.return50 / 100.0)
            && r.mask == s.mask && r.conviction == s.conviction
            && (0 <= s.stamp < 0x1_0000_0000_0000_0000 ==> r.timestamp == s.stamp)
  {
    hide Return;
    ReturnIsRelative(history[k].price, history[k + 10].price);
    ReturnIsRelative(history[k].price, history[k + 50].price);
  }

  /** How many ticks have been followed by 63 others. */
  function Due(n: nat): (m: nat) {
    if n < LOOKBACK then 0 else n + 1 - LOOKBACK
  }

  /** The records of ticks from to m - 1 in order, leaving out those without a usable price. */
  function Labelled(history: seq<Sample>, from: nat, m: nat): seq<Record>
    requires m <= Due(|history|)
    decreases m
  {
    if m <= from then []
    else Labelled(history, from, m - 1) + (if Usable(history[m - 1]) then [RecordOf(history, m - 1)] else [])
  }

  // Later ticks never change a record that is due.
  lemma {:induction false} LabelsAreFinal(history: seq<Sample>, s: Sample, from: nat, m: nat)
    requires m <= Due(|history|)
    ensures Labelled(history + [s], from, m) == Labelled(history, from, m)
    decreases m
  {
    if m > from {
      LabelsAreFinal(history, s, from, m - 1);
    }
  }

  // Every due tick with a usable price has exactly one record, and records keep the order of ticks.
  lemma {:induction false} EveryUsableTickOnce(history: seq<Sample>, from: nat, k: nat, m: nat)
    requires from <= k < m <= Due(|history|) && Usable(history[k])
    ensures |Labelled(history, from, k)| < |Labelled(history, from, m)|
    ensures Labelled(history, from, m)[|Labelled(history, from, k)|] == RecordOf(history, k)
    ensures Labelled(history, from, k) <= Labelled(history, from, m)
    decreases m
  {
    if k < m - 1 {
      EveryUsableTickOnce(history, from, k, m - 1);
    }
  }

  class Exporter {
    var isOpen: bool
    var writePos: nat
    var recordsWritten: nat
    const prices: array<real>
    const stamps: array<int>
    const masks: array<seq<Word>>
    const convictions: array<real>
    var file: seq<Record>              // the contents of the file opened last

    ghost var history: seq<Sample>     // every tick recorded while a file was open
    ghost var since: nat               // how many ticks were due when the file was opened

    ghost predicate Shape() {
      && prices.Length == stamps.Length == masks.Length == convictions.Length == LOOKBACK
      && prices != convictions
    }

    ghost function SampleAt(slot: nat): Sample
      requires Shape() && slot < LOOKBACK
      reads prices, stamps, masks, convictions
    {
      Sample(prices[slot], stamps[slot], masks[slot], convictions[slot])
    }

    ghost predicate Valid()
      reads this, prices, stamps, masks, convictions
    {
      && Shape() && writePos == |history|
      && (forall k :: 0 <= k < writePos && writePos - LOOKBACK <= k ==> SampleAt(k % LOOKBACK) == history[k])
      && since <= Due(writePos) && file == Labelled(history, since, Due(writePos))
      && recordsWritten == |Labelled(history, 0, Due(writePos))|
    }

    constructor ()
      ensures Valid() && !isOpen && history == []
    {
      isOpen, writePos, recordsWritten, file, history, since := false, 0, 0, [], [], 0;
      prices, convictions := new real[LOOKBACK], new real[LOOKBACK];
      stamps := new int[LOOKBACK];
      masks := new seq<Word>[LOOKBACK](_ => []);
    }

    // Opening for writing empties the file; ring, counters and history go on where they were.
    method Open(ok: bool)
      requires Valid()
      modifies this`isOpen, this`file, this`since
      ensures Valid() && isOpen == ok && history == old(history) && recordsWritten == old(recordsWritten)
      ensures if ok then file == [] && since == Due(|history|) else file == old(file) && since == old(since)
    {
      isOpen := ok;
      if ok {
        file, since := [], Due(writePos);
      }
    }

    method Close()
      requires Valid()
      modifies this`isOpen
      ensures Valid() && !isOpen
    {
      isOpen := false;
    }

    // One tick in; the record of the tick 63 before it out, if its price is usable.
    method RecordTick(price: real, ts: int, mask: seq<Word>, conviction: real)
      requires Valid()
      modifies this`writePos, this`recordsWritten, this`file, this`history, prices, stamps, masks, convictions
      ensures Valid()
      ensures history == if isOpen then old(history) + [Sample(price, ts, mask, conviction)] else old(history)
      ensures file == if isOpen then Labelled(history, since, Due(|history|)) else old(file)
    {
      if !isOpen {
        return;
      }
      Store(price, ts, mask, conviction);
      if writePos >= LOOKBACK {
        Emit();
      }
    }

    // Writes the record of the oldest tick in the ring.
    method Emit()
      requires Shape() && writePos == |history| >= LOOKBACK && since < Due(writePos)
      requires forall k :: 0 <= k < writePos && writePos - LOOKBACK <= k ==> SampleAt(k % LOOKBACK) == history[k]
      requires file == Labelled(history, since, writePos - LOOKBACK)
      requires recordsWritten == |Labelled(history, 0, writePos - LOOKBACK)|
      modifies this`recordsWritten, this`file
      ensures file == Labelled(history, since, Due(writePos))
      ensures recordsWritten == |Labelled(history, 0, Due(writePos))|
    {
      hide Return;
      ghost var k: nat := writePos - LOOKBACK;
      var idx := (writePos - LOOKBACK) % LOOKBACK;
      assert SampleAt(idx) == history[k];
      var base := prices[idx];
      if base > 0.00000001 {
        var idx10 := (idx + 10) % LOOKBACK;
        var idx50 := (idx + 50) % LOOKBACK;
        Remainders.ShiftedRemainder(k, 10, LOOKBACK);
        Remainders.ShiftedRemainder(k, 50, LOOKBACK);
        assert SampleAt(idx10) == history[k + 10] && SampleAt(idx50) == history[k + 50];
        var rec := Record(stamps[idx] % 0x1_0000_0000_0000_0000, masks[idx], convictions[idx],
                          Return(base, prices[idx10]), Return(base, prices[idx50]));
        assert rec == RecordOf(history, k);
        file := file + [rec];
        recordsWritten := recordsWritten + 1;
      }
    }

    method Store(price: real, ts: int, mask: seq<Word>, conviction: real)
      requires Valid()
      modifies this`writePos, this`history, prices, stamps, masks, convictions
      ensures Shape() && history == old(history) + [Sample(price, ts, mask, conviction)] && writePos == |history|
      ensures forall k :: 0 <= k < writePos && writePos - LOOKBACK <= k ==> SampleAt(k % LOOKBACK) == history[k]
      ensures file == Labelled(history, since, Due(writePos - 1))
      ensures recordsWritten == |Labelled(history, 0, Due(writePos - 1))|
    {
      var idx := writePos % LOOKBACK;
      forall k | 0 <= k < writePos && writePos + 1 - LOOKBACK <= k ensures k % LOOKBACK != idx {
        if k % LOOKBACK == idx {
          Remainders.SameRemainder(k, writePos, LOOKBACK);
        }
      }
      LabelsAreFinal(history, Sample(price, ts, mask, conviction), since, Due(writePos));
      LabelsAreFinal(history, Sample(price, ts, mask, conviction), 0, Due(writePos));
      prices[idx] := price;
      stamps[idx] := ts;
      masks[idx] := mask;
      convictions[idx] := conviction;
      writePos := writePos + 1;
      history := history + [Sample(price, ts, mask, conviction)];
      assert forall slot :: 0 <= slot < LOOKBACK && slot != idx ==> SampleAt(slot) == old(SampleAt(slot));
    }
  }
}
