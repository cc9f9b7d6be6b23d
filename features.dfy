/**
 * Derived features of a red-ball combination (utils/data_utils.py; the
 * record class in data/models.py computes the same features with private
 * copies of these helpers): the plausibility filter, the AC value, the sum
 * buckets, the interval features and the three-zone distribution.
 */
module Features {
  import opened Common
  import opened Draws

  function AbsInt(x: int): nat { if x < 0 then -x else x }

  function Ind(c: bool): nat { if c then 1 else 0 }

  /** `max(s)` */
  function SeqMax(s: seq<int>): (m: int)
    requires |s| > 0
  {
    if |s| == 1 then s[0] else Max(SeqMax(s[..|s| - 1]), s[|s| - 1])
  }

  /** `min(s)` */
  function SeqMin(s: seq<int>): (m: int)
    requires |s| > 0
  {
    if |s| == 1 then s[0] else Min(SeqMin(s[..|s| - 1]), s[|s| - 1])
  }

  /** `max` and `min` pick an element that bounds all the others. */
  lemma {:induction false} ExtremaFacts(s: seq<int>)
    requires |s| > 0
    ensures SeqMax(s) in s && forall i :: 0 <= i < |s| ==> s[i] <= SeqMax(s)
    ensures SeqMin(s) in s && forall i :: 0 <= i < |s| ==> SeqMin(s) <= s[i]
  {
    if |s| > 1 {
      var t := s[..|s| - 1];
      ExtremaFacts(t);
      assert forall i :: 0 <= i < |t| ==> t[i] == s[i];
    }
  }

  /** Number of elements satisfying p: `sum(1 for x in s if p(x))`. */
  function CountIf(s: seq<int>, p: int -> bool): (n: nat)
  {
    if |s| == 0 then 0 else CountIf(s[..|s| - 1], p) + Ind(p(s[|s| - 1]))
  }

  lemma {:induction false} CountIfBound(s: seq<int>, p: int -> bool)
    ensures CountIf(s, p) <= |s|
  {
    if |s| > 0 {
      CountIfBound(s[..|s| - 1], p);
    }
  }

  function IsOdd(b: int): bool { b % 2 == 1 }

  function IsSmall(b: int): bool { b <= 16 }

  /** Positions i with s[i+1] - s[i] == 1, in the order given. */
  function ConsecutivePairs(s: seq<int>): nat
  {
    if |s| < 2 then 0
    else ConsecutivePairs(s[..|s| - 1]) + (if s[|s| - 1] - s[|s| - 2] == 1 then 1 else 0)
  }

  /** The acceptance rule of `is_valid_red_combination`. */
  predicate ValidRedCombination(s: seq<int>)
  {
    |s| == 6 && |ToSet(s)| == 6 &&
    60 <= Sum(s) <= 150 &&
    15 <= SeqMax(s) - SeqMin(s) <= 32 &&
    CountIf(s, IsOdd) != 0 && CountIf(s, IsOdd) != 6 &&
    CountIf(s, IsSmall) != 0 && CountIf(s, IsSmall) != 6 &&
    ConsecutivePairs(s) <= 2
  }

  /** The early-return checks, with the neighbour loop for consecutive pairs. */
  method IsValidRedCombination(s: seq<int>) returns (ok: bool)
    ensures ok <==> ValidRedCombination(s)
  {
    if |s| != 6 || |ToSet(s)| != 6 {
      return false;
    }
    var ballSum := Sum(s);
    if ballSum < 60 || ballSum > 150 {
      return false;
    }
    var range := SeqMax(s) - SeqMin(s);
    if range < 15 || range > 32 {
      return false;
    }
    var odd := CountIf(s, IsOdd);
    if odd == 0 || odd == 6 {
      return false;
    }
    var small := CountIf(s, IsSmall);
    if small == 0 || small == 6 {
      return false;
    }
    var consecutive := 0;
    var i := 0;
    while i < |s| - 1
      invariant 0 <= i <= |s| - 1
      invariant consecutive == ConsecutivePairs(s[..i + 1])
    {
      assert s[..i + 2][..i + 1] == s[..i + 1];
      if s[i + 1] - s[i] == 1 {
        consecutive := consecutive + 1;
      }
      i := i + 1;
    }
    assert s[..|s|] == s;
    return consecutive <= 2;
  }

  /** One more element on the right of a prefix. */
  lemma SumStep(s: seq<int>, k: int)
    requires 0 <= k < |s|
    ensures Sum(s[..k + 1]) == Sum(s[..k]) + s[k]
  {
    assert s[..k + 1][..k] == s[..k];
  }

  lemma CountIfStep(s: seq<int>, k: int, p: int -> bool)
    requires 0 <= k < |s|
    ensures CountIf(s[..k + 1], p) == CountIf(s[..k], p) + Ind(p(s[k]))
  {
    assert s[..k + 1][..k] == s[..k];
  }

  lemma ConsecutiveStep(s: seq<int>, k: int)
    requires 1 <= k < |s|
    ensures ConsecutivePairs(s[..k + 1]) == ConsecutivePairs(s[..k]) + Ind(s[k] - s[k - 1] == 1)
  {
    assert s[..k + 1][..k] == s[..k];
  }

  lemma ExtremaStep(s: seq<int>, k: int)
    requires 1 <= k < |s|
    ensures SeqMax(s[..k + 1]) == Max(SeqMax(s[..k]), s[k])
    ensures SeqMin(s[..k + 1]) == Min(SeqMin(s[..k]), s[k])
  {
    assert s[..k + 1][..k] == s[..k];
  }

  lemma SixSum(s: seq<int>)
    requires |s| == 6
    ensures Sum(s) == s[0] + s[1] + s[2] + s[3] + s[4] + s[5]
  {
    assert s[..0] == [];
    SumStep(s, 0); SumStep(s, 1); SumStep(s, 2); SumStep(s, 3); SumStep(s, 4); SumStep(s, 5);
    assert s[..6] == s;
  }

  lemma SixCount(s: seq<int>, p: int -> bool)
    requires |s| == 6
    ensures CountIf(s, p) == Ind(p(s[0])) + Ind(p(s[1])) + Ind(p(s[2])) +
                             Ind(p(s[3])) + Ind(p(s[4])) + Ind(p(s[5]))
  {
    assert s[..0] == [];
    CountIfStep(s, 0, p); CountIfStep(s, 1, p); CountIfStep(s, 2, p);
    CountIfStep(s, 3, p); CountIfStep(s, 4, p); CountIfStep(s, 5, p);
    assert s[..6] == s;
  }

  lemma SixConsecutive(s: seq<int>)
    requires |s| == 6
    ensures ConsecutivePairs(s) ==
            Ind(s[1] - s[0] == 1) + Ind(s[2] - s[1] == 1) + Ind(s[3] - s[2] == 1) +
            Ind(s[4] - s[3] == 1) + Ind(s[5] - s[4] == 1)
  {
    assert |s[..1]| == 1;
    ConsecutiveStep(s, 1); ConsecutiveStep(s, 2); ConsecutiveStep(s, 3);
    ConsecutiveStep(s, 4); ConsecutiveStep(s, 5);
    assert s[..6] == s;
  }

  lemma SixExtrema(s: seq<int>)
    requires |s| == 6
    ensures SeqMax(s) == Max(Max(Max(Max(Max(s[0], s[1]), s[2]), s[3]), s[4]), s[5])
    ensures SeqMin(s) == Min(Min(Min(Min(Min(s[0], s[1]), s[2]), s[3]), s[4]), s[5])
  {
    assert s[..1] == [s[0]];
    ExtremaStep(s, 1); ExtremaStep(s, 2); ExtremaStep(s, 3);
    ExtremaStep(s, 4); ExtremaStep(s, 5);
    assert s[..6] == s;
  }

  lemma SixSet(s: seq<int>)
    requires |s| == 6
    ensures ToSet(s) == {s[0], s[1], s[2], s[3], s[4], s[5]}
  {
  }

  /** The filter evaluated position by position on six balls. */
  lemma SixValid(s: seq<int>)
    requires |s| == 6
    ensures ValidRedCombination(s) <==>
      |ToSet(s)| == 6 &&
      60 <= s[0] + s[1] + s[2] + s[3] + s[4] + s[5] <= 150 &&
      15 <= Max(Max(Max(Max(Max(s[0], s[1]), s[2]), s[3]), s[4]), s[5]) -
            Min(Min(Min(Min(Min(s[0], s[1]), s[2]), s[3]), s[4]), s[5]) <= 32 &&
      var odd := Ind(IsOdd(s[0])) + Ind(IsOdd(s[1])) + Ind(IsOdd(s[2])) +
                 Ind(IsOdd(s[3])) + Ind(IsOdd(s[4])) + Ind(IsOdd(s[5]));
      var small := Ind(IsSmall(s[0])) + Ind(IsSmall(s[1])) + Ind(IsSmall(s[2])) +
                   Ind(IsSmall(s[3])) + Ind(IsSmall(s[4])) + Ind(IsSmall(s[5]));
      odd != 0 && odd != 6 && small != 0 && small != 6 &&
      Ind(s[1] - s[0] == 1) + Ind(s[2] - s[1] == 1) + Ind(s[3] - s[2] == 1) +
      Ind(s[4] - s[3] == 1) + Ind(s[5] - s[4] == 1) <= 2
  {
    SixSum(s);
    SixCount(s, IsOdd);
    SixCount(s, IsSmall);
    SixConsecutive(s);
    SixExtrema(s);
    assert ValidRedCombination(s) <==>
      |ToSet(s)| == 6 && 60 <= Sum(s) <= 150 && 15 <= SeqMax(s) - SeqMin(s) <= 32 &&
      CountIf(s, IsOdd) != 0 && CountIf(s, IsOdd) != 6 &&
      CountIf(s, IsSmall) != 0 && CountIf(s, IsSmall) != 6 && ConsecutivePairs(s) <= 2;
  }

  /**
   * The consecutive-pair rule looks at neighbours in the order given: a
   * descending run of four neighbours passes unsorted and fails once
   * sorted.
   */
  lemma ConsecutiveCheckNeedsSortedInput()
    ensures ValidRedCombination([20, 19, 18, 17, 3, 33])
    ensures !ValidRedCombination([3, 17, 18, 19, 20, 33])
  {
    SixValid([20, 19, 18, 17, 3, 33]);
    SixValid([3, 17, 18, 19, 20, 33]);
    SixSet([20, 19, 18, 17, 3, 33]);
  }

  /** What `generate_red_balls` returns: sorted, drawn from 1..33, accepted by the filter. */
  predicate GeneratedShape(r: seq<int>)
  {
    Ascending(r) && (forall i :: 0 <= i < |r| ==> IsRed(r[i])) && ValidRedCombination(r)
  }

  lemma SampleValid()
    ensures ValidRedCombination([1, 5, 12, 19, 26, 33])
  {
    SixValid([1, 5, 12, 19, 26, 33]);
    SixSet([1, 5, 12, 19, 26, 33]);
  }

  lemma SampleAscending()
    ensures Ascending([1, 5, 12, 19, 26, 33])
    ensures forall i :: 0 <= i < 6 ==> IsRed([1, 5, 12, 19, 26, 33][i])
  {
    var w := [1, 5, 12, 19, 26, 33];
    forall i, j | 0 <= i < j < 6
      ensures w[i] < w[j]
    {
      assert forall k :: 0 <= k < 5 ==> w[k] < w[k + 1];
    }
  }

  lemma SampleIsAccepted()
    ensures GeneratedShape([1, 5, 12, 19, 26, 33])
  {
    SampleValid();
    SampleAscending();
  }

  /**
   * `generate_red_balls` samples until the filter accepts; the model is one
   * choice among the possible accepted outcomes.
   */
  method GenerateRedBalls() returns (r: seq<int>)
    ensures GeneratedShape(r)
    ensures |r| == 6
  {
    SampleIsAccepted();
    r :| GeneratedShape(r);
  }

  // ---------------------------------------------------------------------
  // AC value

  /** All |b[i] - b[j]| over pairs i < j. */
  function PairDiffs(b: seq<int>): set<int>
  {
    set p, q | 0 <= p < q < |b| :: AbsInt(b[p] - b[q])
  }

  /** AC value: distinct pairwise differences minus 5; 0 unless six balls. */
  function AcValue(b: seq<int>): int
  {
    if |b| != 6 then 0 else |PairDiffs(b)| - 5
  }

  /** The differences contributed by the rows p < i of the nested loop. */
  function RowsBelow(b: seq<int>, i: int): set<int>
  {
    set p, q | 0 <= p < i && p < q < |b| :: AbsInt(b[p] - b[q])
  }

  /** The differences b[i] against b[q] for i < q < j. */
  function RowPart(b: seq<int>, i: int, j: int): set<int>
    requires 0 <= i < |b|
  {
    set q | i < q < j && q < |b| :: AbsInt(b[i] - b[q])
  }

  lemma RowPartStep(b: seq<int>, i: int, j: int)
    requires 0 <= i < j < |b|
    ensures RowPart(b, i, j + 1) == RowPart(b, i, j) + {AbsInt(b[i] - b[j])}
  {
  }

  lemma RowPartEmpty(b: seq<int>, i: int)
    requires 0 <= i < |b|
    ensures RowPart(b, i, i + 1) == {}
  {
  }

  lemma RowsBelowStep(b: seq<int>, i: int)
    requires 0 <= i < |b|
    ensures RowsBelow(b, i + 1) == RowsBelow(b, i) + RowPart(b, i, |b|)
  {
    forall x | x in RowsBelow(b, i + 1)
      ensures x in RowsBelow(b, i) + RowPart(b, i, |b|)
    {
      var p, q :| 0 <= p < i + 1 && p < q < |b| && x == AbsInt(b[p] - b[q]);
      if p < i {
        assert x in RowsBelow(b, i);
      } else {
        assert x in RowPart(b, i, |b|);
      }
    }
  }

  lemma RowsBelowAll(b: seq<int>)
    ensures RowsBelow(b, |b|) == PairDiffs(b)
  {
  }

  /** The nested loop that adds every pairwise difference to a set. */
  method CalculateAcValue(b: seq<int>) returns (ac: int)
    ensures ac == AcValue(b)
  {
    if |b| != 6 {
      return 0;
    }
    var diffs: set<int> := {};
    assert RowsBelow(b, 0) == {};
    for i := 0 to |b|
      invariant diffs == RowsBelow(b, i)
    {
      diffs := AddRow(b, i, diffs);
      RowsBelowStep(b, i);
    }
    RowsBelowAll(b);
    return |diffs| - 5;
  }

  /** The inner loop: row i of the differences joins the set. */
  method AddRow(b: seq<int>, i: int, diffs: set<int>) returns (diffs': set<int>)
    requires 0 <= i < |b|
    ensures diffs' == diffs + RowPart(b, i, |b|)
  {
    diffs' := diffs;
    RowPartEmpty(b, i);
    for j := i + 1 to |b|
      invariant diffs' == diffs + RowPart(b, i, j)
    {
      RowPartStep(b, i, j);
      diffs' := diffs' + {AbsInt(b[i] - b[j])};
    }
  }

  lemma {:induction false} RowPartCard(b: seq<int>, i: int, j: int)
    requires 0 <= i < |b| && i < j <= |b|
    ensures |RowPart(b, i, j)| <= j - i - 1
  {
    if j == i + 1 {
      RowPartEmpty(b, i);
    } else {
      RowPartCard(b, i, j - 1);
      RowPartStep(b, i, j - 1);
    }
  }

  /** (n - 1) + (n - 2) + ... + (n - i): the pairs in the first i rows. */
  function PairsBelow(n: int, i: nat): int
  {
    if i == 0 then 0 else PairsBelow(n, i - 1) + (n - i)
  }

  lemma {:induction false} RowsBelowCard(b: seq<int>, i: int)
    requires 0 <= i <= |b|
    ensures |RowsBelow(b, i)| <= PairsBelow(|b|, i)
  {
    if i == 0 {
      assert RowsBelow(b, 0) == {};
    } else {
      RowsBelowCard(b, i - 1);
      RowsBelowStep(b, i - 1);
      RowPartCard(b, i - 1, |b|);
    }
  }

  /** For six ascending balls the AC value lies in 0..10. */
  lemma AcValueBounds(b: seq<int>)
    requires |b| == 6 && Ascending(b)
    ensures 0 <= AcValue(b) <= 10
  {
    var d := PairDiffs(b);
    RowsBelowCard(b, 6);
    assert PairsBelow(6, 6) == 15 by {
      assert PairsBelow(6, 3) == 12;
    }
    RowsBelowAll(b);
    var low := {b[1] - b[0], b[2] - b[0], b[3] - b[0], b[4] - b[0], b[5] - b[0]};
    assert |low| == 5;
    assert low <= d by {
      assert b[1] - b[0] == AbsInt(b[0] - b[1]);
      assert b[2] - b[0] == AbsInt(b[0] - b[2]);
      assert b[3] - b[0] == AbsInt(b[0] - b[3]);
      assert b[4] - b[0] == AbsInt(b[0] - b[4]);
      assert b[5] - b[0] == AbsInt(b[0] - b[5]);
    }
    SubsetCard(low, d);
  }

  // ---------------------------------------------------------------------
  // Sum buckets

  const SumRangeLabels: seq<string> :=
    ["极小和(<70)", "小和(70-89)", "中和(90-109)", "大和(110-129)", "极大和(≥130)"]

  /** Index of the bucket for a red sum: thresholds 70, 90, 110, 130. */
  function SumBucket(s: int): (k: nat)
    ensures k < 5
  {
    if s < 70 then 0 else if s < 90 then 1 else if s < 110 then 2 else if s < 130 then 3 else 4
  }

  /** `get_sum_range` */
  function SumRange(s: int): string
  {
    SumRangeLabels[SumBucket(s)]
  }

  /**
   * The five labels are exclusive and exhaustive: each sum gets exactly the
   * label of the half-open interval it lies in, and buckets grow with the sum.
   */
  lemma SumRangeBuckets(s: int, t: int)
    ensures SumRange(s) == "极小和(<70)" <==> s < 70
    ensures SumRange(s) == "小和(70-89)" <==> 70 <= s < 90
    ensures SumRange(s) == "中和(90-109)" <==> 90 <= s < 110
    ensures SumRange(s) == "大和(110-129)" <==> 110 <= s < 130
    ensures SumRange(s) == "极大和(≥130)" <==> 130 <= s
    ensures s <= t ==> SumBucket(s) <= SumBucket(t)
  {
    assert forall i, j :: 0 <= i < j < 5 ==> SumRangeLabels[i] != SumRangeLabels[j];
  }

  // ---------------------------------------------------------------------
  // Interval features

  datatype IntervalFeatures = IntervalFeatures(
    maxInterval: int, minInterval: int, avgInterval: real,
    bigIntervalCount: nat, intervalPattern: string)

  function IsBig(x: int): bool { x > 7 }

  /** The consecutive differences b[i] - b[i-1]. */
  function Intervals(b: seq<int>): (r: seq<int>)
  {
    if |b| < 2 then [] else Intervals(b[..|b| - 1]) + [b[|b| - 1] - b[|b| - 2]]
  }

  /** One interval per neighbouring pair, each the later ball minus the earlier. */
  lemma {:induction false} IntervalsFacts(b: seq<int>)
    ensures |Intervals(b)| == if |b| < 2 then 0 else |b| - 1
    ensures forall i :: 0 <= i < |Intervals(b)| ==> Intervals(b)[i] == b[i + 1] - b[i]
  {
    if |b| >= 2 {
      var t := b[..|b| - 1];
      IntervalsFacts(t);
      forall i | 0 <= i < |Intervals(b)|
        ensures Intervals(b)[i] == b[i + 1] - b[i]
      {
        if i < |Intervals(t)| {
          assert Intervals(b)[i] == Intervals(t)[i];
        }
      }
    }
  }

  function FeaturesOf(iv: seq<int>): IntervalFeatures
  {
    if |iv| == 0 then IntervalFeatures(0, 0, 0.0, 0, "")
    else IntervalFeatures(SeqMax(iv), SeqMin(iv), Sum(iv) as real / |iv| as real,
                          CountIf(iv, IsBig), JoinInts(iv, "-"))
  }

  /** `calculate_interval_features`: the interval list is built by a loop. */
  method CalculateIntervalFeatures(b: seq<int>) returns (f: IntervalFeatures)
    ensures f == FeaturesOf(Intervals(b))
    ensures |b| < 2 ==> f == IntervalFeatures(0, 0, 0.0, 0, "")
  {
    if |b| < 2 {
      return IntervalFeatures(0, 0, 0.0, 0, "");
    }
    var intervals: seq<int> := [];
    var i := 1;
    assert Intervals(b[..1]) == [];
    while i < |b|
      invariant 1 <= i <= |b|
      invariant intervals == Intervals(b[..i])
    {
      IntervalsSnoc(b, i);
      intervals := intervals + [b[i] - b[i - 1]];
      i := i + 1;
    }
    assert b[..|b|] == b;
    return FeaturesOf(intervals);
  }

  lemma IntervalsSnoc(b: seq<int>, i: int)
    requires 1 <= i < |b|
    ensures Intervals(b[..i + 1]) == Intervals(b[..i]) + [b[i] - b[i - 1]]
  {
    assert b[..i + 1][..i] == b[..i];
  }

  lemma {:induction false} IntervalsTelescope(b: seq<int>)
    requires |b| >= 2
    ensures Sum(Intervals(b)) == b[|b| - 1] - b[0]
  {
    var t := b[..|b| - 1];
    var d := b[|b| - 1] - b[|b| - 2];
    assert Intervals(b) == Intervals(t) + [d];
    assert (Intervals(t) + [d])[..|Intervals(t)|] == Intervals(t);
    if |b| > 2 {
      IntervalsTelescope(t);
    }
  }

  /** A mean lies between the smallest and the largest value. */
  lemma MeanBetween(total: int, n: nat, lo: int, hi: int)
    requires n > 0 && n * lo <= total <= n * hi
    ensures lo as real <= total as real / n as real <= hi as real
  {
    assert (n * lo) as real == n as real * lo as real;
    assert (n * hi) as real == n as real * hi as real;
  }

  lemma IntervalsPositive(b: seq<int>)
    requires Ascending(b)
    ensures forall i :: 0 <= i < |Intervals(b)| ==> Intervals(b)[i] >= 1
  {
    IntervalsFacts(b);
    forall i | 0 <= i < |Intervals(b)|
      ensures Intervals(b)[i] >= 1
    {
      assert b[i] < b[i + 1];
    }
  }

  /** The recorded features of a non-empty interval list, field by field. */
  lemma FeaturesOfNonEmpty(iv: seq<int>)
    requires |iv| > 0
    ensures FeaturesOf(iv).maxInterval == SeqMax(iv)
    ensures FeaturesOf(iv).minInterval == SeqMin(iv)
    ensures FeaturesOf(iv).avgInterval == Sum(iv) as real / |iv| as real
    ensures FeaturesOf(iv).bigIntervalCount <= |iv|
  {
    CountIfBound(iv, IsBig);
  }

  /**
   * Over sorted distinct balls every interval is positive, the intervals
   * add up to max - min (so the average is (max - min) / (n - 1)), the
   * average lies between the extremes and at most n - 1 intervals are big.
   */
  lemma IntervalFeaturesFacts(b: seq<int>)
    requires |b| >= 2 && Ascending(b)
    ensures forall i :: 0 <= i < |Intervals(b)| ==> Intervals(b)[i] >= 1
    ensures FeaturesOf(Intervals(b)).avgInterval == (b[|b| - 1] - b[0]) as real / (|b| - 1) as real
    ensures 1 <= FeaturesOf(Intervals(b)).minInterval
    ensures FeaturesOf(Intervals(b)).minInterval as real <= FeaturesOf(Intervals(b)).avgInterval
    ensures FeaturesOf(Intervals(b)).avgInterval <= FeaturesOf(Intervals(b)).maxInterval as real
    ensures FeaturesOf(Intervals(b)).bigIntervalCount <= |b| - 1
  {
    IntervalsFacts(b);
    IntervalsPositive(b);
    IntervalAverage(b);
    IntervalAverageBetween(Intervals(b));
    var iv := Intervals(b);
    FeaturesOfNonEmpty(iv);
    ExtremaFacts(iv);
  }

  lemma IntervalAverage(b: seq<int>)
    requires |b| >= 2
    ensures FeaturesOf(Intervals(b)).avgInterval == (b[|b| - 1] - b[0]) as real / (|b| - 1) as real
  {
    IntervalsFacts(b);
    FeaturesOfNonEmpty(Intervals(b));
    IntervalRatio(b);
  }

  lemma IntervalRatio(b: seq<int>)
    requires |b| >= 2
    ensures Sum(Intervals(b)) as real / |Intervals(b)| as real ==
            (b[|b| - 1] - b[0]) as real / (|b| - 1) as real
  {
    IntervalsFacts(b);
    IntervalsTelescope(b);
  }

  lemma IntervalAverageBetween(iv: seq<int>)
    requires |iv| > 0
    ensures FeaturesOf(iv).minInterval as real <= FeaturesOf(iv).avgInterval <=
            FeaturesOf(iv).maxInterval as real
  {
    FeaturesOfNonEmpty(iv);
    ExtremaFacts(iv);
    SumBounds(iv, SeqMin(iv), SeqMax(iv));
    MeanBetween(Sum(iv), |iv|, SeqMin(iv), SeqMax(iv));
  }

  // ---------------------------------------------------------------------
  // Zones

  function InZone1(x: int): bool { 1 <= x <= 11 }
  function InZone2(x: int): bool { 12 <= x <= 22 }
  function InZone3(x: int): bool { 23 <= x <= 33 }

  const Zone1Key := "一区(01-11)"
  const Zone2Key := "二区(12-22)"
  const Zone3Key := "三区(23-33)"

  /** `calculate_zone_distribution` */
  function ZoneDistribution(b: seq<int>): map<string, int>
  {
    map[Zone1Key := CountIf(b, InZone1), Zone2Key := CountIf(b, InZone2),
        Zone3Key := CountIf(b, InZone3)]
  }

  lemma {:induction false} ZoneCountsAdd(b: seq<int>)
    requires forall i :: 0 <= i < |b| ==> IsRed(b[i])
    ensures CountIf(b, InZone1) + CountIf(b, InZone2) + CountIf(b, InZone3) == |b|
  {
    if |b| > 0 {
      ZoneCountsAdd(b[..|b| - 1]);
    }
  }

  /** The three zones count every in-range ball exactly once. */
  lemma ZoneDistributionFacts(b: seq<int>)
    requires forall i :: 0 <= i < |b| ==> IsRed(b[i])
    ensures ZoneDistribution(b).Keys == {Zone1Key, Zone2Key, Zone3Key}
    ensures ZoneDistribution(b)[Zone1Key] + ZoneDistribution(b)[Zone2Key] +
            ZoneDistribution(b)[Zone3Key] == |b|
  {
    ZoneCountsAdd(b);
  }
}
