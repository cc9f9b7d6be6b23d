/**
 * The recent-trend analyzer: the rise/fall direction of a short series,
 * the sum and odd-count trends of a window of records, and the hot reds
 * of the window in `most_common()` order.
 */
module TrendAnalysis {
  import opened Common
  import opened Draws
  import opened Ranking
  import Database
  import Features

  // ---------------------------------------------------------------------
  // Trend direction

  const Unknown := "未知"
  const Rising := "上升"
  const Falling := "下降"
  const Oscillating := "震荡"

  /** How many neighbours in v strictly rise: `values[i] > values[i-1]`. */
  function Rises(v: seq<int>): nat
  {
    if |v| < 2 then 0 else Rises(v[..|v| - 1]) + Features.Ind(v[|v| - 1] > v[|v| - 2])
  }

  /** How many neighbours in v strictly fall. */
  function Falls(v: seq<int>): nat
  {
    if |v| < 2 then 0 else Falls(v[..|v| - 1]) + Features.Ind(v[|v| - 1] < v[|v| - 2])
  }

  /**
   * `increasing > decreasing * 1.5` and the mirrored test, on integer
   * counts: `2i > 3d` is the same comparison without the float.
   */
  function Direction(increasing: nat, decreasing: nat): string
  {
    if 2 * increasing > 3 * decreasing then Rising
    else if 2 * decreasing > 3 * increasing then Falling
    else Oscillating
  }

  /** `_calculate_trend_direction` */
  function TrendDirection(v: seq<int>): string
  {
    if |v| < 2 then Unknown else Direction(Rises(v), Falls(v))
  }

  /** The two tests never both hold, and every count pair gets exactly one of the three words. */
  lemma DirectionExclusive(i: nat, d: nat)
    ensures Direction(i, d) == Rising <==> 2 * i > 3 * d
    ensures Direction(i, d) == Falling <==> 2 * d > 3 * i
    ensures Direction(i, d) == Oscillating <==> 2 * i <= 3 * d && 2 * d <= 3 * i
  {
  }

  /** A neighbour pair rises, falls or is level: rises and falls together count at most |v| - 1. */
  lemma {:induction false} RisesFallsBound(v: seq<int>)
    ensures Rises(v) + Falls(v) <= if |v| < 2 then 0 else |v| - 1
  {
    if |v| >= 2 {
      RisesFallsBound(v[..|v| - 1]);
    }
  }

  function Negate(v: seq<int>): (r: seq<int>)
    ensures |r| == |v| && forall i :: 0 <= i < |v| ==> r[i] == -v[i]
  {
    seq(|v|, i requires 0 <= i < |v| => -v[i])
  }

  /** Mirroring a series turns its rises into falls and the other way round. */
  lemma {:induction false} NegateSwaps(v: seq<int>)
    ensures Rises(Negate(v)) == Falls(v) && Falls(Negate(v)) == Rises(v)
  {
    if |v| >= 2 {
      NegateSwaps(v[..|v| - 1]);
      assert Negate(v)[..|v| - 1] == Negate(v[..|v| - 1]);
    }
  }

  /** Mirroring a series swaps 上升 and 下降 and keeps 震荡 and 未知. */
  lemma NegateDirection(v: seq<int>)
    ensures TrendDirection(v) == Rising <==> TrendDirection(Negate(v)) == Falling
    ensures TrendDirection(v) == Falling <==> TrendDirection(Negate(v)) == Rising
    ensures TrendDirection(v) == Oscillating <==> TrendDirection(Negate(v)) == Oscillating
    ensures TrendDirection(v) == Unknown <==> TrendDirection(Negate(v)) == Unknown
  {
    NegateSwaps(v);
  }

  predicate Level(v: seq<int>)
  {
    forall i :: 0 < i < |v| ==> v[i] == v[i - 1]
  }

  predicate StrictlyRising(v: seq<int>)
  {
    forall i :: 0 < i < |v| ==> v[i] > v[i - 1]
  }

  lemma {:induction false} LevelCounts(v: seq<int>)
    requires Level(v)
    ensures Rises(v) == 0 && Falls(v) == 0
  {
    if |v| >= 2 {
      LevelCounts(v[..|v| - 1]);
    }
  }

  lemma {:induction false} RisingCounts(v: seq<int>)
    requires StrictlyRising(v)
    ensures Rises(v) == (if |v| < 2 then 0 else |v| - 1) && Falls(v) == 0
  {
    if |v| >= 2 {
      RisingCounts(v[..|v| - 1]);
    }
  }

  /**
   * Fewer than two values give 未知; a level series of two or more gives
   * 震荡; a strictly rising one gives 上升 and a strictly falling one 下降.
   */
  lemma TrendDirectionCases(v: seq<int>)
    ensures |v| < 2 <==> TrendDirection(v) == Unknown
    ensures |v| >= 2 && Level(v) ==> TrendDirection(v) == Oscillating
    ensures |v| >= 2 && StrictlyRising(v) ==> TrendDirection(v) == Rising
    ensures |v| >= 2 && StrictlyRising(Negate(v)) ==> TrendDirection(v) == Falling
  {
    if |v| >= 2 {
      if Level(v) {
        LevelCounts(v);
      }
      if StrictlyRising(v) {
        RisingCounts(v);
      }
      if StrictlyRising(Negate(v)) {
        RisingCounts(Negate(v));
        NegateSwaps(v);
      }
    }
  }

  /** The direction as the source computes it: one pass counting rises and falls. */
  method CalculateTrendDirection(v: seq<int>) returns (r: string)
    ensures r == TrendDirection(v)
  {
    if |v| < 2 {
      return Unknown;
    }
    var increasing, decreasing := 0, 0;
    var i := 1;
    while i < |v|
      invariant 1 <= i <= |v|
      invariant increasing == Rises(v[..i]) && decreasing == Falls(v[..i])
    {
      assert v[..i + 1][..i] == v[..i];
      if v[i] > v[i - 1] {
        increasing := increasing + 1;
      } else if v[i] < v[i - 1] {
        decreasing := decreasing + 1;
      }
      i := i + 1;
    }
    assert v[..|v|] == v;
    r := Direction(increasing, decreasing);
  }

  // ---------------------------------------------------------------------
  // analyze_recent_trends

  /** `sum(1 for ball in reds if ball % 2 == 1)` per record. */
  function OddCounts(records: seq<Draw>): (r: seq<int>)
    ensures |r| == |records|
  {
    seq(|records|, i requires 0 <= i < |records| => Features.CountIf(records[i].reds, Features.IsOdd))
  }

  /** `red_counts.most_common()` as (ball, count) pairs over the balls drawn. */
  function HotNumbers(records: seq<Draw>): (r: seq<(int, int)>)
  {
    var xs := AllReds(records);
    var ranked := MostCommon(Dedupe(xs), CountMap(xs));
    seq(|ranked|, j requires 0 <= j < |ranked| => (ranked[j], Get(CountMap(xs), ranked[j])))
  }

  datatype RecentTrends = RecentTrends(
    sumTrend: string, oddTrend: string, hotReds: seq<(int, int)>,
    currentSum: int, currentOddRatio: int, windowUsed: int)

  /**
   * `analyze_recent_trends(window)` over the newest `window` records
   * (newest first): None (the empty dict) with fewer than 10 records.
   */
  function RecentTrendsOf(all: seq<Draw>, window: int): Option<RecentTrends>
  {
    var records := Database.RecentRecords(all, window);
    if |records| < 10 then None
    else
      var sums := RedSums(records);
      var odds := OddCounts(records);
      Some(RecentTrends(
        TrendDirection(SliceFrom(sums, -5)), TrendDirection(SliceFrom(odds, -5)),
        SliceTo(HotNumbers(records), 10),
        sums[|sums| - 1], odds[|odds| - 1], window))
  }

  /** The analysis as the source computes it: a loop collecting sums and odd counts. */
  method AnalyzeRecentTrends(all: seq<Draw>, window: int) returns (r: Option<RecentTrends>)
    ensures r == RecentTrendsOf(all, window)
  {
    var records := Database.RecentRecords(all, window);
    if |records| < 10 {
      return None;
    }
    var sums: seq<int> := [];
    var odds: seq<int> := [];
    var i := 0;
    while i < |records|
      invariant 0 <= i <= |records|
      invariant sums == RedSums(records[..i]) && odds == OddCounts(records[..i])
    {
      assert RedSums(records[..i + 1]) == RedSums(records[..i]) + [Sum(records[i].reds)];
      assert OddCounts(records[..i + 1]) == OddCounts(records[..i]) + [Features.CountIf(records[i].reds, Features.IsOdd)];
      sums := sums + [Sum(records[i].reds)];
      odds := odds + [Features.CountIf(records[i].reds, Features.IsOdd)];
      i := i + 1;
    }
    assert records[..|records|] == records;
    var sumTrend := CalculateTrendDirection(SliceFrom(sums, -5));
    var oddTrend := CalculateTrendDirection(SliceFrom(odds, -5));
    r := Some(RecentTrends(sumTrend, oddTrend, SliceTo(HotNumbers(records), 10),
                           sums[|sums| - 1], odds[|odds| - 1], window));
  }

  /**
   * The hot list holds each drawn red once with its count (at least 1),
   * most frequent first.
   */
  lemma HotNumbersFacts(records: seq<Draw>)
    ensures var h := HotNumbers(records);
      var xs := AllReds(records);
      |h| == |Dedupe(xs)| &&
      (forall j :: 0 <= j < |h| ==> h[j].0 in xs && h[j].1 == RedCount(records, h[j].0) && h[j].1 >= 1) &&
      (forall j, k :: 0 <= j < k < |h| ==> h[j].1 >= h[k].1 && h[j].0 != h[k].0)
  {
    HotNumbersEntries(records);
    HotNumbersOrder(records);
  }

  lemma HotNumbersEntries(records: seq<Draw>)
    ensures var h := HotNumbers(records);
      var xs := AllReds(records);
      |h| == |Dedupe(xs)| &&
      forall j :: 0 <= j < |h| ==> h[j].0 in xs && h[j].1 == RedCount(records, h[j].0) && h[j].1 >= 1
  {
    var xs := AllReds(records);
    var cnt := CountMap(xs);
    var ranked := MostCommon(Dedupe(xs), cnt);
    var h := HotNumbers(records);
    assert |h| == |ranked|;
    RankedCounts(xs);
    CountMapFacts(xs);
    forall j | 0 <= j < |h|
      ensures h[j].0 in xs && h[j].1 == RedCount(records, h[j].0) && h[j].1 >= 1
    {
      var b := ranked[j];
      assert h[j] == (b, Get(cnt, b));
      assert b in ranked;
    }
  }

  lemma HotNumbersOrder(records: seq<Draw>)
    ensures var h := HotNumbers(records);
      forall j, k :: 0 <= j < k < |h| ==> h[j].1 >= h[k].1 && h[j].0 != h[k].0
  {
    var xs := AllReds(records);
    var cnt := CountMap(xs);
    var ranked := MostCommon(Dedupe(xs), cnt);
    var h := HotNumbers(records);
    DedupeFacts(xs);
    RankedCounts(xs);
    MostCommonDescends(Dedupe(xs), cnt);
    forall j, k | 0 <= j < k < |h|
      ensures h[j].1 >= h[k].1 && h[j].0 != h[k].0
    {
      assert h[j] == (ranked[j], Get(cnt, ranked[j]));
      assert h[k] == (ranked[k], Get(cnt, ranked[k]));
    }
  }

  /**
   * The report exists exactly when the window holds at least ten records;
   * both trends then look at the five oldest records of the window (the
   * list is newest first), the "current" sum and odd count are those of
   * the oldest record, the odd count is 0..6, and at most ten hot reds
   * are listed.
   */
  lemma RecentTrendsFacts(all: seq<Draw>, window: int)
    ensures RecentTrendsOf(all, window).Some? <==> |Database.RecentRecords(all, window)| >= 10
    ensures RecentTrendsOf(all, window).Some? ==>
      var records := Database.RecentRecords(all, window);
      var t := RecentTrendsOf(all, window).value;
      var n := |records|;
      t.sumTrend == TrendDirection(RedSums(records[n - 5..])) &&
      t.currentSum == Sum(records[n - 1].reds) &&
      0 <= t.currentOddRatio <= 6 &&
      |t.hotReds| == Min(10, |Dedupe(AllReds(records))|) &&
      t.windowUsed == window
  {
    var records := Database.RecentRecords(all, window);
    var n := |records|;
    if n >= 10 {
      var sums := RedSums(records);
      var odds := OddCounts(records);
      assert SliceFrom(sums, -5) == RedSums(records[n - 5..]);
      assert odds[n - 1] == Features.CountIf(records[n - 1].reds, Features.IsOdd);
      Features.CountIfBound(records[n - 1].reds, Features.IsOdd);
      HotNumbersEntries(records);
    }
  }
}
