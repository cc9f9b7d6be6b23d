/**
 * The basic per-record processor: recompute the basic features when the
 * stored red sum is falsy, then overwrite the stage-1 feature fields from
 * the sorted reds.
 */
module Processor {
  import opened Common
  import opened Draws
  import opened Features
  import opened Models

  /** The fields `process_record` reads or writes, as one value. */
  datatype Fields = Fields(
    redSum: Option<int>, redAvg: Option<real>, acValue: Option<int>,
    sumTail: Option<int>, sumRange: Option<string>,
    maxInterval: Option<int>, minInterval: Option<int>, avgInterval: Option<real>,
    bigIntervalCount: Option<int>, intervalPattern: Option<string>,
    headNumber: Option<int>, tailNumber: Option<int>, headTailRange: Option<int>,
    zoneDistribution: map<string, int>)

  function Snapshot(r: DrawRecord): Fields
    reads r
  {
    Fields(r.redSum, r.redAvg, r.acValue, r.sumTail, r.sumRange,
           r.maxInterval, r.minInterval, r.avgInterval, r.bigIntervalCount, r.intervalPattern,
           r.headNumber, r.tailNumber, r.headTailRange, r.zoneDistribution)
  }

  /**
   * What `process_record` does to the fields of a record with draw `d`:
   * a falsy red sum is recomputed together with the average; the AC
   * value, interval, position and zone fields come from the sorted reds;
   * sum tail and sum range are set only when the red sum is truthy.
   */
  function Process(f: Fields, d: Draw): (g: Fields)
    ensures Truthy(f.redSum) ==> g.redSum == f.redSum && g.redAvg == f.redAvg
    ensures !Truthy(f.redSum) ==> g.redSum == Some(Sum(d.reds)) && g.redAvg == Some(RedAverage(Sum(d.reds)))
    ensures !Truthy(g.redSum) ==> g.sumTail == f.sumTail && g.sumRange == f.sumRange
  {
    var sum := if Truthy(f.redSum) then f.redSum else Some(Sum(d.reds));
    var avg := if Truthy(f.redSum) then f.redAvg else Some(RedAverage(Sum(d.reds)));
    var sorted := SortedReds(d);
    var iv := FeaturesOf(Intervals(sorted));
    Fields(sum, avg, Some(AcValue(sorted)),
           if Truthy(sum) then Some(SumTail(sum.value)) else f.sumTail,
           if Truthy(sum) then Some(SumRange(sum.value)) else f.sumRange,
           Some(iv.maxInterval), Some(iv.minInterval), Some(iv.avgInterval),
           Some(iv.bigIntervalCount), Some(iv.intervalPattern),
           Some(sorted[0]), Some(sorted[5]), Some(sorted[5] - sorted[0]),
           ZoneDistribution(sorted))
  }

  /** Processing a record twice leaves it as processing it once. */
  lemma ProcessIdempotent(f: Fields, d: Draw)
    ensures Process(Process(f, d), d) == Process(f, d)
  {
  }

  /** `BaseDataProcessor.process_record` */
  method ProcessRecord(r: DrawRecord)
    modifies r`redSum, r`redAvg, r`acValue, r`sumTail, r`sumRange,
             r`maxInterval, r`minInterval, r`avgInterval, r`bigIntervalCount,
             r`intervalPattern, r`headNumber, r`tailNumber, r`headTailRange,
             r`zoneDistribution
    ensures Snapshot(r) == Process(old(Snapshot(r)), r.draw)
  {
    ghost var f0 := Snapshot(r);
    var sorted := SortInts(r.draw.reds);
    FillSums(r);
    var ac := CalculateAcValue(sorted);
    r.acValue := Some(ac);
    r.SetIntervalsAndZones(sorted);
    ProcessedFields(r, f0);
  }

  /**
   * The red-sum part of `process_record`: a falsy sum is recomputed with
   * the average, then a truthy sum sets the sum tail and sum range. (The
   * AC value, set between the two in the source, touches none of these.)
   */
  method FillSums(r: DrawRecord)
    modifies r`redSum, r`redAvg, r`sumTail, r`sumRange
    ensures r.redSum == (if Truthy(old(r.redSum)) then old(r.redSum) else Some(Sum(r.draw.reds)))
    ensures r.redAvg == (if Truthy(old(r.redSum)) then old(r.redAvg) else Some(RedAverage(Sum(r.draw.reds))))
    ensures Truthy(r.redSum) ==> r.sumTail == Some(r.redSum.value % 10) && r.sumRange == Some(SumRange(r.redSum.value))
    ensures !Truthy(r.redSum) ==> r.sumTail == old(r.sumTail) && r.sumRange == old(r.sumRange)
  {
    if !Truthy(r.redSum) {
      r.CalculateBasicFeatures();
    }
    if Truthy(r.redSum) {
      r.sumTail := Some(r.redSum.value % 10);
      r.sumRange := Some(SumRange(r.redSum.value));
    }
  }

  /** The fields `process_record` leaves behind, field group by field group, make up `Process`. */
  lemma ProcessedFields(r: DrawRecord, f0: Fields)
    requires r.redSum == (if Truthy(f0.redSum) then f0.redSum else Some(Sum(r.draw.reds)))
    requires r.redAvg == (if Truthy(f0.redSum) then f0.redAvg else Some(RedAverage(Sum(r.draw.reds))))
    requires r.acValue == Some(AcValue(SortedReds(r.draw)))
    requires Truthy(r.redSum) ==> r.sumTail == Some(r.redSum.value % 10) && r.sumRange == Some(SumRange(r.redSum.value))
    requires !Truthy(r.redSum) ==> r.sumTail == f0.sumTail && r.sumRange == f0.sumRange
    requires r.IntervalsAndZonesHold()
    ensures Snapshot(r) == Process(f0, r.draw)
  {
  }

  /**
   * A record whose stored sum is missing or correct and non-zero ends up
   * with every stage-1 field consistent with its draw.
   */
  lemma ProcessedIsStage1(r: DrawRecord, f: Fields)
    requires Snapshot(r) == Process(f, r.draw)
    requires f.redSum.None? || f.redSum == Some(Sum(r.draw.reds))
    requires Sum(r.draw.reds) != 0
    ensures r.Stage1Holds()
    ensures r.redSum == Some(Sum(r.draw.reds))
  {
  }

  /**
   * `BaseDataProcessor.process_records`: every record is processed in
   * order and returned; processing cannot raise on integer columns, so
   * nothing is dropped. A record listed twice is processed twice, which
   * leaves it as processing once would.
   */
  method ProcessRecords(records: seq<DrawRecord>) returns (processed: seq<DrawRecord>)
    modifies records`redSum, records`redAvg, records`acValue, records`sumTail, records`sumRange,
             records`maxInterval, records`minInterval, records`avgInterval, records`bigIntervalCount,
             records`intervalPattern, records`headNumber, records`tailNumber, records`headTailRange,
             records`zoneDistribution
    ensures processed == records
    ensures forall r :: r in records ==> Snapshot(r) == Process(old(Snapshot(r)), r.draw)
  {
    processed := [];
    var i := 0;
    while i < |records|
      invariant 0 <= i <= |records|
      invariant processed == records[..i]
      invariant forall r {:trigger old(Snapshot(r))} :: r in records ==>
        Snapshot(r) == if r in records[..i] then Process(old(Snapshot(r)), r.draw) else old(Snapshot(r))
    {
      var r := records[i];
      ghost var f0 := old(Snapshot(r));
      ProcessRecord(r);
      if r in records[..i] {
        ProcessIdempotent(f0, r.draw);
      }
      assert records[..i + 1] == records[..i] + [r];
      processed := processed + [r];
      i := i + 1;
    }
    assert records[..|records|] == records;
  }
}
