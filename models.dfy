/**
 * The draw record (data/models.py): the stored draw plus the feature
 * fields the processors fill in. The basic and stage-1 feature passes
 * assign fields on the record in place.
 */
module Models {
  import opened Common
  import opened Draws
  import opened Features

  /**
   * `round(x, 2)`: to the nearest hundredth. When x is a red sum divided
   * by 6 no value lies halfway between two hundredths, so the choice of
   * tie rule does not matter.
   */
  function Round2(x: real): (r: real)
    ensures x - 0.005 < r <= x + 0.005
  {
    (x * 100.0 + 0.5).Floor as real / 100.0
  }

  /** `red_avg`: the rounded mean of the reds, 0 when the sum is 0 (falsy). */
  function RedAverage(redSum: int): (r: real)
    ensures redSum == 0 ==> r == 0.0
    ensures redSum != 0 ==> redSum as real / 6.0 - 0.005 < r <= redSum as real / 6.0 + 0.005
  {
    if redSum != 0 then Round2(redSum as real / 6.0) else 0.0
  }

  /** The odd count and the fields the advanced passes fill in. */
  datatype AdvancedFeatures = AdvancedFeatures(
    redOddCount: Option<int>, redOmission: map<int, int>, blueOmission: Option<int>,
    redHeatStatus: map<int, string>, blueHeatStatus: Option<string>,
    hotRedBalls: seq<int>, coldRedBalls: seq<int>,
    inheritedReds: Option<int>, inheritedBlue: Option<int>,
    consecutiveAppear: Option<int>, missingPeriods: Option<int>, trendDirection: Option<string>,
    patternType: Option<string>, riskLevel: Option<string>)

  /** Their dataclass defaults. */
  const NoAdvancedFeatures := AdvancedFeatures(None, map[], None, map[], None, [], [], None, None, None, None, None, None, None)

  /** The reds sorted ascending, as both feature passes use them. */
  function SortedReds(d: Draw): (s: seq<int>)
    ensures |s| == 6
  {
    SortInts(d.reds)
  }

  /**
   * The sorted reds are a permutation of the six columns: the head is the
   * smallest and the tail the largest red, and for a record with distinct
   * reds they are strictly ascending.
   */
  lemma SortedRedsFacts(d: Draw)
    ensures multiset(SortedReds(d)) == multiset(d.reds)
    ensures SortedReds(d)[0] == SeqMin(d.reds)
    ensures SortedReds(d)[5] == SeqMax(d.reds)
    ensures Distinct(d.reds) ==> Ascending(SortedReds(d))
  {
    var s := SortedReds(d);
    forall x | x in s
      ensures x in d.reds
    {
      assert x in multiset(s);
    }
    forall x | x in d.reds
      ensures x in s
    {
      assert x in multiset(d.reds);
    }
    var lo := SeqMin(d.reds);
    var hi := SeqMax(d.reds);
    ExtremaFacts(d.reds);
    assert s[0] in d.reds && s[5] in d.reds;
    assert lo in s && hi in s;
    if Distinct(d.reds) {
      PermutationKeepsDistinct(d.reds, s);
    }
  }

  /** `sum_tail`: Python's `% 10`, which equals Dafny's for a positive divisor. */
  function SumTail(redSum: int): (t: int)
    ensures 0 <= t < 10 && (redSum - t) % 10 == 0
  {
    redSum % 10
  }

  predicate Truthy(x: Option<int>)
  {
    x.Some? && x.value != 0
  }

  class DrawRecord {
    const draw: Draw

    var redSum: Option<int>
    var redAvg: Option<real>
    var redOddCount: Option<int>

    var acValue: Option<int>
    var sumTail: Option<int>
    var sumRange: Option<string>
    var maxInterval: Option<int>
    var minInterval: Option<int>
    var avgInterval: Option<real>
    var bigIntervalCount: Option<int>
    var intervalPattern: Option<string>
    var headNumber: Option<int>
    var tailNumber: Option<int>
    var headTailRange: Option<int>
    var zoneDistribution: map<string, int>

    var redOmission: map<int, int>
    var blueOmission: Option<int>
    var redHeatStatus: map<int, string>
    var blueHeatStatus: Option<string>
    var hotRedBalls: seq<int>
    var coldRedBalls: seq<int>

    var inheritedReds: Option<int>
    var inheritedBlue: Option<int>
    var consecutiveAppear: Option<int>
    var missingPeriods: Option<int>
    var trendDirection: Option<string>
    var patternType: Option<string>
    var riskLevel: Option<string>

    /** The interval fields agree with the intervals of the sorted reds. */
    predicate IntervalsHold()
      reads this`maxInterval, this`minInterval, this`avgInterval, this`bigIntervalCount, this`intervalPattern
    {
      IntervalsMatch(FeaturesOf(Intervals(SortedReds(draw))))
    }

    predicate IntervalsMatch(f: IntervalFeatures)
      reads this`maxInterval, this`minInterval, this`avgInterval, this`bigIntervalCount, this`intervalPattern
    {
      maxInterval == Some(f.maxInterval) && minInterval == Some(f.minInterval) &&
      avgInterval == Some(f.avgInterval) && bigIntervalCount == Some(f.bigIntervalCount) &&
      intervalPattern == Some(f.intervalPattern)
    }

    /** Head, tail and their distance come from the sorted reds. */
    predicate PositionsHold()
      reads this`headNumber, this`tailNumber, this`headTailRange
    {
      var s := SortedReds(draw);
      headNumber == Some(s[0]) && tailNumber == Some(s[5]) && headTailRange == Some(s[5] - s[0])
    }

    predicate ZonesHold()
      reads this`zoneDistribution
    {
      zoneDistribution == ZoneDistribution(SortedReds(draw))
    }

    predicate IntervalsAndZonesHold()
      reads this`maxInterval, this`minInterval, this`avgInterval, this`bigIntervalCount, this`intervalPattern,
            this`headNumber, this`tailNumber, this`headTailRange, this`zoneDistribution
    {
      IntervalsHold() && PositionsHold() && ZonesHold()
    }

    /** Every stage-1 field agrees with the draw and the stored red sum. */
    predicate Stage1Holds()
      reads this`redSum, this`acValue, this`sumTail, this`sumRange,
            this`maxInterval, this`minInterval, this`avgInterval, this`bigIntervalCount, this`intervalPattern,
            this`headNumber, this`tailNumber, this`headTailRange, this`zoneDistribution
    {
      redSum.Some? &&
      acValue == Some(AcValue(SortedReds(draw))) &&
      sumTail == Some(SumTail(redSum.value)) &&
      sumRange == Some(SumRange(redSum.value)) &&
      IntervalsAndZonesHold()
    }

    /** The odd count and the advanced features, as one value. */
    function AdvancedOf(): AdvancedFeatures
      reads this`redOddCount, this`redOmission, this`blueOmission, this`redHeatStatus, this`blueHeatStatus,
            this`hotRedBalls, this`coldRedBalls, this`inheritedReds, this`inheritedBlue,
            this`consecutiveAppear, this`missingPeriods, this`trendDirection, this`patternType, this`riskLevel
    {
      AdvancedFeatures(redOddCount, redOmission, blueOmission, redHeatStatus, blueHeatStatus,
                       hotRedBalls, coldRedBalls, inheritedReds, inheritedBlue,
                       consecutiveAppear, missingPeriods, trendDirection, patternType, riskLevel)
    }

    /**
     * The dataclass field defaults, then `__post_init__`: the values its
     * basic and stage-1 passes store are computed here before the record
     * is published, by the same helpers those passes use (a fresh record
     * has no red sum, so the stage-1 pass takes the sum the basic pass
     * just stored).
     */
    constructor(d: Draw)
      ensures draw == d
      ensures redSum == Some(Sum(d.reds)) && redAvg == Some(RedAverage(Sum(d.reds)))
      ensures Stage1Holds()
      ensures AdvancedOf() == NoAdvancedFeatures
    {
      draw := d;
      var s := Sum(d.reds);
      redSum := Some(s);
      redAvg := Some(RedAverage(s));
      redOddCount := None;
      var sorted := SortedReds(d);
      var ac := CalculateAcValue(sorted);
      acValue := Some(ac);
      sumTail := Some(SumTail(s));
      sumRange := Some(SumRange(s));
      var f := CalculateIntervalFeatures(sorted);
      maxInterval := Some(f.maxInterval);
      minInterval := Some(f.minInterval);
      avgInterval := Some(f.avgInterval);
      bigIntervalCount := Some(f.bigIntervalCount);
      intervalPattern := Some(f.intervalPattern);
      headNumber := Some(sorted[0]);
      tailNumber := Some(sorted[5]);
      headTailRange := Some(sorted[5] - sorted[0]);
      zoneDistribution := ZoneDistribution(sorted);
      redOmission := map[];
      blueOmission := None;
      redHeatStatus := map[];
      blueHeatStatus := None;
      hotRedBalls := [];
      coldRedBalls := [];
      inheritedReds := None;
      inheritedBlue := None;
      consecutiveAppear := None;
      missingPeriods := None;
      trendDirection := None;
      patternType := None;
      riskLevel := None;
    }

    /** `__post_init__`: the basic features, then the stage-1 features. */
    method PostInit()
      modifies this`redSum, this`redAvg, this`acValue, this`sumTail, this`sumRange,
               this`maxInterval, this`minInterval, this`avgInterval, this`bigIntervalCount,
               this`intervalPattern, this`headNumber, this`tailNumber, this`headTailRange,
               this`zoneDistribution
      ensures redSum == Some(Sum(draw.reds)) && redAvg == Some(RedAverage(Sum(draw.reds)))
      ensures Stage1Holds()
    {
      CalculateBasicFeatures();
      CalculateStage1Features();
    }

    /** `calculate_basic_features`: red sum and rounded mean. */
    method CalculateBasicFeatures()
      modifies this`redSum, this`redAvg
      ensures redSum == Some(Sum(draw.reds))
      ensures redAvg == Some(RedAverage(Sum(draw.reds)))
    {
      var s := Sum(draw.reds);
      redSum := Some(s);
      redAvg := Some(if s != 0 then Round2(s as real / 6.0) else 0.0);
    }

    /** Set the interval, position and zone fields from the sorted reds. */
    method SetIntervalsAndZones(sorted: seq<int>)
      requires sorted == SortedReds(draw)
      modifies this`maxInterval, this`minInterval, this`avgInterval, this`bigIntervalCount,
               this`intervalPattern, this`headNumber, this`tailNumber, this`headTailRange,
               this`zoneDistribution
      ensures IntervalsAndZonesHold()
    {
      var f := CalculateIntervalFeatures(sorted);
      SetIntervals(f);
      SetPositions(sorted);
      SetZones(sorted);
    }

    method SetIntervals(f: IntervalFeatures)
      modifies this`maxInterval, this`minInterval, this`avgInterval, this`bigIntervalCount,
               this`intervalPattern
      ensures IntervalsMatch(f)
    {
      maxInterval := Some(f.maxInterval);
      minInterval := Some(f.minInterval);
      avgInterval := Some(f.avgInterval);
      bigIntervalCount := Some(f.bigIntervalCount);
      intervalPattern := Some(f.intervalPattern);
    }

    method SetPositions(sorted: seq<int>)
      requires sorted == SortedReds(draw)
      modifies this`headNumber, this`tailNumber, this`headTailRange
      ensures PositionsHold()
    {
      headNumber := Some(sorted[0]);
      tailNumber := Some(sorted[|sorted| - 1]);
      headTailRange := Some(sorted[|sorted| - 1] - sorted[0]);
    }

    method SetZones(sorted: seq<int>)
      requires sorted == SortedReds(draw)
      modifies this`zoneDistribution
      ensures ZonesHold()
    {
      zoneDistribution := ZoneDistribution(sorted);
    }

    /**
     * `calculate_stage1_features`: a missing red sum is recomputed first;
     * a present one is kept as it is.
     */
    method CalculateStage1Features()
      modifies this`redSum, this`acValue, this`sumTail, this`sumRange,
               this`maxInterval, this`minInterval, this`avgInterval, this`bigIntervalCount,
               this`intervalPattern, this`headNumber, this`tailNumber, this`headTailRange,
               this`zoneDistribution
      ensures redSum == if old(redSum).Some? then old(redSum) else Some(Sum(draw.reds))
      ensures Stage1Holds()
    {
      var sorted := SortInts(draw.reds);
      var ac := CalculateAcValue(sorted);
      acValue := Some(ac);
      if redSum.None? {
        redSum := Some(Sum(draw.reds));
      }
      sumTail := Some(redSum.value % 10);
      sumRange := Some(SumRange(redSum.value));
      SetIntervalsAndZones(sorted);
    }
  }

  /**
   * For a record with six distinct reds in 1..33: AC value in 0..10, head
   * the smallest and tail the largest red, head-tail range in 5..32,
   * positive intervals that add up to the range, zone counts adding up to 6.
   */
  lemma ValidRecordFeatures(d: Draw)
    requires IsValid(d)
    ensures 0 <= AcValue(SortedReds(d)) <= 10
    ensures 5 <= SortedReds(d)[5] - SortedReds(d)[0] <= 32
    ensures Sum(Intervals(SortedReds(d))) == SeqMax(d.reds) - SeqMin(d.reds)
    ensures var z := ZoneDistribution(SortedReds(d));
      z[Zone1Key] + z[Zone2Key] + z[Zone3Key] == 6
  {
    var s := SortedReds(d);
    SortedRedsFacts(d);
    AcValueBounds(s);
    IntervalsTelescope(s);
    forall i | 0 <= i < 6
      ensures IsRed(s[i])
    {
      assert s[i] in multiset(d.reds);
    }
    assert s[0] < s[1] < s[2] < s[3] < s[4] < s[5];
    ZoneDistributionFacts(s);
  }

  /**
   * `is_valid`: six reds in 1..33, blue in 1..16, six different reds (a
   * set of size 6); the order of the columns is not checked.
   */
  function IsValid(d: Draw): (ok: bool)
    ensures ok <==> (forall k :: 0 <= k < 6 ==> IsRed(d.reds[k])) && IsBlue(d.blue) &&
                    Distinct(d.reds)
  {
    DistinctIffCard(d.reds);
    (forall k :: 0 <= k < 6 ==> IsRed(d.reds[k])) && IsBlue(d.blue) && |ToSet(d.reds)| == 6
  }

  /** `f"{x:02d}"` */
  function Pad2(x: int): string
  {
    PadInt(x, 2)
  }

  function PaddedReds(d: Draw): seq<string>
  {
    seq(6, k requires 0 <= k < 6 => Pad2(d.reds[k]))
  }

  /** `get_numbers_string`: "r1 r2 r3 r4 r5 r6 + bb", each number zero-padded to two digits. */
  function NumbersString(d: Draw): string
  {
    JoinStrings(PaddedReds(d), " ") + " + " + Pad2(d.blue)
  }

  lemma Pad2Small(x: int)
    requires 0 <= x <= 99
    ensures |Pad2(x)| == 2 && AllDigits(Pad2(x)) && DigitsValue(Pad2(x)) == x
  {
    NatToStringLength(x, 2);
    PadIntNat(x, 2);
  }

  /** The layout of "j + ' + ' + b" for a 17-character join of six pairs. */
  lemma NumbersLayout(j: string, b: string, p: seq<string>, s: string)
    requires |p| == 6 && |j| == 17 && |b| == 2 && s == j + " + " + b
    requires forall k :: 0 <= k < 6 ==> j[3 * k..3 * k + 2] == p[k]
    requires forall k :: 0 <= k < 5 ==> j[3 * k + 2] == ' '
    ensures |s| == 22
    ensures forall k :: 0 <= k < 6 ==> s[3 * k..3 * k + 2] == p[k]
    ensures forall k :: 0 <= k < 5 ==> s[3 * k + 2] == ' '
    ensures s[17..20] == " + " && s[20..22] == b
  {
    forall k | 0 <= k < 6
      ensures s[3 * k..3 * k + 2] == p[k]
    {
      assert s[3 * k..3 * k + 2] == j[3 * k..3 * k + 2];
    }
  }

  /**
   * For numbers in 0..99 the string has 22 characters: red k occupies
   * positions 3k and 3k+1 and reads back as that red, single spaces
   * between reds, " + " at 17..19, and the blue reads back from 20..21.
   */
  lemma NumbersStringDecodes(d: Draw)
    requires forall k :: 0 <= k < 6 ==> 0 <= d.reds[k] <= 99
    requires 0 <= d.blue <= 99
    ensures var s := NumbersString(d);
      |s| == 22 &&
      (forall k :: 0 <= k < 6 ==> AllDigits(s[3 * k..3 * k + 2]) &&
                                  DigitsValue(s[3 * k..3 * k + 2]) == d.reds[k]) &&
      (forall k :: 0 <= k < 5 ==> s[3 * k + 2] == ' ') &&
      s[17..20] == " + " && AllDigits(s[20..22]) && DigitsValue(s[20..22]) == d.blue
  {
    var p := PaddedReds(d);
    var s := NumbersString(d);
    forall k | 0 <= k < 6
      ensures |p[k]| == 2
    {
      Pad2Small(d.reds[k]);
    }
    Pad2Small(d.blue);
    JoinPairs(p, " ");
    NumbersLayout(JoinStrings(p, " "), Pad2(d.blue), p, s);
    forall k | 0 <= k < 6
      ensures AllDigits(s[3 * k..3 * k + 2]) && DigitsValue(s[3 * k..3 * k + 2]) == d.reds[k]
    {
      Pad2Small(d.reds[k]);
      assert s[3 * k..3 * k + 2] == p[k];
    }
  }
}
