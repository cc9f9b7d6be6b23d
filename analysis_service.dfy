/**
 * The analysis service (services/analysis_service.py): the frequency
 * table of a window, the red-sum statistics with their five sum bands,
 * the summary assembled from them, the per-window blue-ball percentages
 * with their trend label, and the argument checks of the single-ball
 * trend report. Records arrive as the newest-first list the database
 * returns; the window selection is `Database.RecentRecords`.
 */
module AnalysisService {
  import opened Common
  import opened Draws
  import opened Ranking
  import opened Spread
  import opened Database
  import Features
  import HotCold

  /** `if window is None: window = self.default_window` */
  function WindowOrDefault(window: Option<int>, defaultWindow: int): int
  {
    if window.None? then defaultWindow else window.value
  }

  // ---------------------------------------------------------------------
  // get_frequency_analysis

  /** The zero-filled blue Counter. */
  function BlueCounter(records: seq<Draw>): map<int, int>
  {
    ZeroFilled(CountMap(Blues(records)), 1, BlueMax)
  }

  /** Key order of the zero-filled blue Counter. */
  function BlueOrder(records: seq<Draw>): seq<int>
  {
    Dedupe(Blues(records)) + Missing(CountMap(Blues(records)), 1, BlueMax)
  }

  /** `sorted(blue_counts.items(), key=lambda x: (-x[1], x[0]))` */
  function BlueRanked(records: seq<Draw>): seq<int>
  {
    RankByCount(BlueOrder(records), BlueCounter(records))
  }

  datatype Frequency = Frequency(
    window: int, totalRecords: nat,
    redFrequencies: map<int, int>, blueFrequencies: map<int, int>,
    sortedReds: seq<int>, sortedBlues: seq<int>)

  function FrequencyOf(all: seq<Draw>, window: Option<int>, defaultWindow: int): Frequency
  {
    var w := WindowOrDefault(window, defaultWindow);
    var records := RecentRecords(all, w);
    Frequency(w, |records|, RedCounter(records), BlueCounter(records),
              Ranked(records), BlueRanked(records))
  }

  lemma BluesStep(records: seq<Draw>, i: int)
    requires 0 <= i < |records|
    ensures Blues(records[..i + 1]) == Blues(records[..i]) + [records[i].blue]
  {
  }

  /** Both Counters and their key orders while the records are being counted. */
  datatype FrequencyCounters = FrequencyCounters(
    red: map<int, int>, redOrder: seq<int>, blue: map<int, int>, blueOrder: seq<int>)

  /** The Counters after the records of `prefix`, before zero-filling. */
  function CountersAfter(prefix: seq<Draw>): FrequencyCounters
  {
    FrequencyCounters(CountMap(AllReds(prefix)), Dedupe(AllReds(prefix)),
                      CountMap(Blues(prefix)), Dedupe(Blues(prefix)))
  }

  /** One pass of the record loop: the six red columns, then the blue ball. */
  method CountRecord(c: FrequencyCounters, records: seq<Draw>, i: int) returns (c': FrequencyCounters)
    requires 0 <= i < |records|
    requires c == CountersAfter(records[..i])
    ensures c' == CountersAfter(records[..i + 1])
  {
    var red, redOrder := Tally(c.red, c.redOrder, AllReds(records[..i]), records[i].reds);
    var blue, blueOrder := Increment(c.blue, c.blueOrder, Blues(records[..i]), records[i].blue);
    PrefixStep(records, i);
    BluesStep(records, i);
    c' := FrequencyCounters(red, redOrder, blue, blueOrder);
  }

  /**
   * The counting loop of `get_frequency_analysis`: the six red columns
   * and the blue ball of each record, then both zero-fills.
   */
  method GetFrequencyAnalysis(all: seq<Draw>, window: Option<int>, defaultWindow: int)
    returns (f: Frequency)
    ensures f == FrequencyOf(all, window, defaultWindow)
  {
    var w := WindowOrDefault(window, defaultWindow);
    var records := RecentRecords(all, w);
    var c := FrequencyCounters(map[], [], map[], []);
    var i := 0;
    while i < |records|
      invariant 0 <= i <= |records|
      invariant c == CountersAfter(records[..i])
    {
      c := CountRecord(c, records, i);
      i := i + 1;
    }
    assert records[..|records|] == records;
    var redCounts, redOrder := ZeroFill(c.red, c.redOrder, 1, RedMax);
    var blueCounts, blueOrder := ZeroFill(c.blue, c.blueOrder, 1, BlueMax);
    f := Frequency(w, |records|, redCounts, blueCounts,
                   RankByCount(redOrder, redCounts), RankByCount(blueOrder, blueCounts));
  }

  lemma PrefixInRange(all: seq<Draw>, n: int)
    requires 0 <= n <= |all|
    requires RedsInRange(all) && BluesInRange(all)
    ensures RedsInRange(all[..n]) && BluesInRange(all[..n])
  {
    assert forall i :: 0 <= i < n ==> all[..n][i] == all[i];
  }

  /** For valid records the blue key order is exactly 1..16, each once. */
  lemma BlueOrderFacts(records: seq<Draw>)
    requires BluesInRange(records)
    ensures Distinct(BlueOrder(records))
    ensures forall x :: x in BlueOrder(records) <==> IsBlue(x)
  {
    var bs := Blues(records);
    DedupeFacts(bs);
    MissingFacts(CountMap(bs), 1, BlueMax);
    CountMapFacts(bs);
    DistinctConcat(Dedupe(bs), Missing(CountMap(bs), 1, BlueMax));
  }

  /**
   * The blue table of valid records: every ball 1..16 and nothing else,
   * each with its number of draws, the counts adding up to the number of
   * records.
   */
  lemma BlueTableFacts(records: seq<Draw>)
    requires BluesInRange(records)
    ensures forall b :: b in BlueCounter(records) <==> IsBlue(b)
    ensures forall b :: b in BlueCounter(records) ==> BlueCounter(records)[b] == BlueCount(records, b)
    ensures KeySum(BlueCounter(records), 1, BlueMax) == |records|
  {
    var bs := Blues(records);
    CountMapFacts(bs);
    KeySumIsCountSum(BlueCounter(records), bs, 1, BlueMax);
    CountSumAll(bs, 1, BlueMax);
  }

  /** The sorted blue list holds each ball 1..16 once, by descending count, then ascending ball. */
  lemma BlueRankFacts(records: seq<Draw>)
    requires BluesInRange(records)
    ensures Distinct(BlueRanked(records))
    ensures forall b :: b in BlueRanked(records) <==> IsBlue(b)
  {
    var keys := BlueOrder(records);
    BlueOrderFacts(records);
    RankByCountFacts(keys, BlueCounter(records));
    var r := BlueRanked(records);
    forall b
      ensures b in r <==> IsBlue(b)
    {
      assert b in r <==> b in multiset(r);
      assert b in keys <==> b in multiset(keys);
    }
  }

  lemma BlueRankOrder(records: seq<Draw>)
    requires BluesInRange(records)
    ensures var r := BlueRanked(records); var m := BlueCounter(records);
      forall i, j :: 0 <= i < j < |r| ==>
        Get(m, r[i]) > Get(m, r[j]) || (Get(m, r[i]) == Get(m, r[j]) && r[i] < r[j])
  {
    BlueOrderFacts(records);
    RankByCountFacts(BlueOrder(records), BlueCounter(records));
  }

  /** The red table of valid records: exactly 1..33, each with its count, six counts per record. */
  lemma RedTableFacts(records: seq<Draw>)
    requires RedsInRange(records)
    ensures forall b :: b in RedCounter(records) <==> IsRed(b)
    ensures forall b :: IsRed(b) ==> RedCounter(records)[b] == RedCount(records, b)
    ensures KeySum(RedCounter(records), 1, RedMax) == 6 * |records|
  {
    RedFrequencies(records);
    CountMapFacts(AllReds(records));
    AllRedsInRange(records);
  }

  /**
   * The frequency analysis of valid records: the window's newest
   * min(window, n) records (none for a non-positive window), a red table
   * over exactly 1..33 whose counts add up to six per record, a blue table
   * over exactly 1..16 whose counts add up to the number of records, and
   * both rankings listing each ball once.
   */
  lemma FrequencyFacts(all: seq<Draw>, window: Option<int>, defaultWindow: int)
    requires RedsInRange(all) && BluesInRange(all)
    ensures var f := FrequencyOf(all, window, defaultWindow);
      (window.Some? ==> f.window == window.value) && (window.None? ==> f.window == defaultWindow) &&
      f.totalRecords == (if f.window <= 0 then 0 else Min(f.window, |all|))
    ensures var f := FrequencyOf(all, window, defaultWindow);
      (forall b :: b in f.redFrequencies <==> IsRed(b)) &&
      (forall b :: IsRed(b) ==> f.redFrequencies[b] == RedCount(RecentRecords(all, f.window), b)) &&
      KeySum(f.redFrequencies, 1, RedMax) == 6 * f.totalRecords
    ensures var f := FrequencyOf(all, window, defaultWindow);
      |f.sortedReds| == RedMax && Distinct(f.sortedReds) && (forall b :: b in f.sortedReds <==> IsRed(b))
    ensures var f := FrequencyOf(all, window, defaultWindow);
      (forall b :: b in f.blueFrequencies <==> IsBlue(b)) &&
      KeySum(f.blueFrequencies, 1, BlueMax) == f.totalRecords &&
      Distinct(f.sortedBlues) && (forall b :: b in f.sortedBlues <==> IsBlue(b))
  {
    var w := WindowOrDefault(window, defaultWindow);
    var records := RecentRecords(all, w);
    PrefixInRange(all, |records|);
    assert records == all[..|records|];
    RedTableFacts(records);
    RankedFacts(records);
    BlueTableFacts(records);
    BlueRankFacts(records);
  }

  // ---------------------------------------------------------------------
  // get_sum_statistics

  datatype SumRow = SumRow(issue: string, redSum: int, blue: int, totalSum: int)

  function RowOf(d: Draw): SumRow
  {
    SumRow(d.issue, Sum(d.reds), d.blue, Sum(d.reds) + d.blue)
  }

  /** The five bands in dictionary order: low, medium_low, medium, medium_high, high. */
  const BandNames: seq<string> := ["low", "medium_low", "medium", "medium_high", "high"]

  /** `sum_ranges`: the low band starts at the smallest sum, the high band ends at the largest. */
  function Bands(minSum: int, maxSum: int): (r: seq<(int, int)>)
    ensures |r| == |BandNames|
  {
    [(minSum, 80), (81, 100), (101, 120), (121, 140), (141, maxSum)]
  }

  /** The first band from index j on that holds v (the inner loop with its `break`). */
  function FirstBand(v: int, bands: seq<(int, int)>, j: nat): (r: Option<nat>)
    ensures r.Some? ==> j <= r.value < |bands| && bands[r.value].0 <= v <= bands[r.value].1
    decreases |bands| - j
  {
    if j >= |bands| then None
    else if bands[j].0 <= v <= bands[j].1 then Some(j)
    else FirstBand(v, bands, j + 1)
  }

  /** The band a sum lands in when it lies between the smallest and largest sum. */
  function SumBand(v: int): nat
  {
    if v <= 80 then 0 else if v <= 100 then 1 else if v <= 120 then 2 else if v <= 140 then 3 else 4
  }

  /**
   * Because the low band starts at the minimum and the high band ends at
   * the maximum, the first-match scan never misses a sum of the window:
   * it picks the band of `SumBand`.
   */
  lemma FirstBandIsSumBand(v: int, minSum: int, maxSum: int)
    requires minSum <= v <= maxSum
    ensures FirstBand(v, Bands(minSum, maxSum), 0) == Some(SumBand(v))
  {
    var bands := Bands(minSum, maxSum);
    assert bands[0] == (minSum, 80) && bands[1] == (81, 100) && bands[2] == (101, 120);
    assert bands[3] == (121, 140) && bands[4] == (141, maxSum);
    if v > 80 {
      assert FirstBand(v, bands, 0) == FirstBand(v, bands, 1);
      if v > 100 {
        assert FirstBand(v, bands, 1) == FirstBand(v, bands, 2);
        if v > 120 {
          assert FirstBand(v, bands, 2) == FirstBand(v, bands, 3);
          if v > 140 {
            assert FirstBand(v, bands, 3) == FirstBand(v, bands, 4);
          }
        }
      }
    }
  }

  /** `range_counts` after the first `|values|` values were placed. */
  function RangeCounts(values: seq<int>, bands: seq<(int, int)>): (r: seq<int>)
    ensures |r| == |bands|
  {
    if |values| == 0 then seq(|bands|, _ => 0)
    else
      var prev := RangeCounts(values[..|values| - 1], bands);
      match FirstBand(values[|values| - 1], bands, 0)
      case Some(j) => prev[j := prev[j] + 1]
      case None => prev
  }

  function BandsOf(values: seq<int>): (r: seq<int>)
    ensures |r| == |values|
    ensures forall i :: 0 <= i < |values| ==> r[i] == SumBand(values[i])
  {
    seq(|values|, i requires 0 <= i < |values| => SumBand(values[i]) as int)
  }

  /**
   * With every value between minSum and maxSum, band k counts exactly the
   * values whose `SumBand` is k, and the five counts add up to the number
   * of values.
   */
  lemma {:induction false} RangeCountsFacts(values: seq<int>, minSum: int, maxSum: int)
    requires forall i :: 0 <= i < |values| ==> minSum <= values[i] <= maxSum
    ensures var rc := RangeCounts(values, Bands(minSum, maxSum));
      (forall k :: 0 <= k < 5 ==> rc[k] == multiset(BandsOf(values))[k]) &&
      rc[0] + rc[1] + rc[2] + rc[3] + rc[4] == |values|
  {
    var bands := Bands(minSum, maxSum);
    if |values| == 0 {
      assert BandsOf(values) == [];
    } else {
      var t := values[..|values| - 1];
      var v := values[|values| - 1];
      RangeCountsFacts(t, minSum, maxSum);
      FirstBandIsSumBand(v, minSum, maxSum);
      BandsOfSnoc(values);
      var p := RangeCounts(t, bands);
      var j := SumBand(v);
      assert RangeCounts(values, bands) == p[j := p[j] + 1];
      BumpTotal(p, j);
    }
  }

  /** Adding one to a band adds one to the total of the five bands. */
  lemma BumpTotal(p: seq<int>, j: nat)
    requires |p| == 5 && j < 5
    ensures var r := p[j := p[j] + 1];
      r[0] + r[1] + r[2] + r[3] + r[4] == p[0] + p[1] + p[2] + p[3] + p[4] + 1
  {
  }

  lemma BandsOfSnoc(values: seq<int>)
    requires |values| > 0
    ensures multiset(BandsOf(values)) ==
      multiset(BandsOf(values[..|values| - 1])) + multiset{SumBand(values[|values| - 1]) as int}
  {
    assert BandsOf(values) == BandsOf(values[..|values| - 1]) + [SumBand(values[|values| - 1]) as int];
  }

  /** The inner `for range_name, (low, high) in sum_ranges.items()` loop with its `break`. */
  method FindBand(v: int, bands: seq<(int, int)>) returns (r: Option<nat>)
    ensures r == FirstBand(v, bands, 0)
  {
    r := None;
    var j := 0;
    while j < |bands|
      invariant 0 <= j <= |bands|
      invariant FirstBand(v, bands, 0) == FirstBand(v, bands, j)
    {
      if bands[j].0 <= v <= bands[j].1 {
        r := Some(j);
        break;
      }
      j := j + 1;
    }
  }

  /** The outer loop over the sums. */
  method CountRanges(values: seq<int>, bands: seq<(int, int)>) returns (rc: seq<int>)
    ensures rc == RangeCounts(values, bands)
  {
    rc := seq(|bands|, _ => 0);
    var i := 0;
    while i < |values|
      invariant 0 <= i <= |values|
      invariant rc == RangeCounts(values[..i], bands)
    {
      assert values[..i + 1][..i] == values[..i];
      var j := FindBand(values[i], bands);
      if j.Some? {
        rc := rc[j.value := rc[j.value] + 1];
      }
      i := i + 1;
    }
    assert values[..|values|] == values;
  }

  /** `下降` when the newest sum is below the oldest of the first five, `上升` when above. */
  function SumDirection(t: seq<int>): string
  {
    if |t| >= 2 && t[0] > t[|t| - 1] then "下降"
    else if |t| >= 2 && t[0] < t[|t| - 1] then "上升"
    else "稳定"
  }

  lemma SumDirectionFacts(t: seq<int>)
    ensures SumDirection(t) == "下降" <==> |t| >= 2 && t[0] > t[|t| - 1]
    ensures SumDirection(t) == "上升" <==> |t| >= 2 && t[0] < t[|t| - 1]
    ensures SumDirection(t) == "稳定" <==> |t| < 2 || t[0] == t[|t| - 1]
  {
  }

  datatype SumStats = SumStats(
    window: int, totalRecords: nat, sums: seq<SumRow>,
    average: real, minimum: int, maximum: int,
    rangeCounts: seq<int>, recentTrend: seq<int>, trendDirection: string)

  /** `get_sum_statistics`: the error `没有数据` for an empty window. */
  function SumStatisticsOf(all: seq<Draw>, window: Option<int>, defaultWindow: int): Result<SumStats>
  {
    var w := WindowOrDefault(window, defaultWindow);
    var records := RecentRecords(all, w);
    if |records| == 0 then Err("没有数据")
    else
      var values := RedSums(records);
      var mn := Features.SeqMin(values);
      var mx := Features.SeqMax(values);
      var trend := values[..Min(5, |values|)];
      Ok(SumStats(w, |records|, SumRows(records),
                  Sum(values) as real / |values| as real, mn, mx,
                  RangeCounts(values, Bands(mn, mx)), trend, SumDirection(trend)))
  }

  /** The `sums` list: one row per record. */
  function SumRows(records: seq<Draw>): (r: seq<SumRow>)
    ensures |r| == |records|
    ensures forall i :: 0 <= i < |records| ==> r[i] == RowOf(records[i])
  {
    seq(|records|, i requires 0 <= i < |records| => RowOf(records[i]))
  }

  /** The loop that fills `sums`, adding the six red columns one by one. */
  method BuildRows(records: seq<Draw>) returns (rows: seq<SumRow>)
    ensures rows == SumRows(records)
  {
    rows := [];
    var i := 0;
    while i < |records|
      invariant 0 <= i <= |records|
      invariant |rows| == i && forall k :: 0 <= k < i ==> rows[k] == RowOf(records[k])
    {
      var reds := records[i].reds;
      var s := reds[0] + reds[1] + reds[2] + reds[3] + reds[4] + reds[5];
      Features.SixSum(reds);
      rows := rows + [SumRow(records[i].issue, s, records[i].blue, s + records[i].blue)];
      i := i + 1;
    }
  }

  /** `recent_trend`: the first up to five sums. */
  method FirstSums(rows: seq<SumRow>) returns (trend: seq<int>)
    ensures |trend| == Min(5, |rows|)
    ensures forall i :: 0 <= i < |trend| ==> trend[i] == rows[i].redSum
  {
    trend := [];
    var i := 0;
    while i < Min(5, |rows|)
      invariant 0 <= i <= Min(5, |rows|)
      invariant |trend| == i && forall k :: 0 <= k < i ==> trend[k] == rows[k].redSum
    {
      trend := trend + [rows[i].redSum];
      i := i + 1;
    }
  }

  method GetSumStatistics(all: seq<Draw>, window: Option<int>, defaultWindow: int)
    returns (r: Result<SumStats>)
    ensures r == SumStatisticsOf(all, window, defaultWindow)
  {
    var w := WindowOrDefault(window, defaultWindow);
    var records := RecentRecords(all, w);
    var rows := BuildRows(records);
    if |rows| == 0 {
      return Err("没有数据");
    }
    var values := RedSums(records);
    var mn := Features.SeqMin(values);
    var mx := Features.SeqMax(values);
    var rc := CountRanges(values, Bands(mn, mx));
    var trend := FirstSums(rows);
    assert trend == values[..Min(5, |values|)];
    r := Ok(SumStats(w, |records|, rows, Sum(values) as real / |values| as real, mn, mx,
                     rc, trend, SumDirection(trend)));
  }

  /** An average lies between the smallest and the largest value. */
  lemma AverageBetween(s: int, n: int, mn: int, mx: int)
    requires n > 0 && n * mn <= s <= n * mx
    ensures mn as real <= s as real / n as real <= mx as real
  {
    assert (n * mn) as real == n as real * mn as real;
    assert (n * mx) as real == n as real * mx as real;
  }

  /**
   * The statistics of a non-empty window: the newest min(window, n) draws,
   * one row per draw with its red sum and red sum plus blue, the mean lying
   * between the smallest and largest sum (both attained), band counts
   * that place every sum once, and the first up to five sums with their
   * direction.
   */
  lemma SumStatisticsFacts(all: seq<Draw>, window: Option<int>, defaultWindow: int)
    ensures var w := WindowOrDefault(window, defaultWindow);
      var r := SumStatisticsOf(all, window, defaultWindow);
      (r.Err? <==> w <= 0 || |all| == 0) &&
      (r.Ok? ==>
        var s := r.value; var n := s.totalRecords; var values := RedSums(all[..n]);
        n == Min(w, |all|) && |s.sums| == n &&
        (forall i :: 0 <= i < n ==> s.sums[i].redSum == values[i] &&
                                     s.sums[i].totalSum == values[i] + all[i].blue) &&
        s.minimum in values && s.maximum in values &&
        (forall i :: 0 <= i < n ==> s.minimum <= values[i] <= s.maximum) &&
        s.minimum as real <= s.average <= s.maximum as real &&
        |s.rangeCounts| == 5 &&
        s.rangeCounts[0] + s.rangeCounts[1] + s.rangeCounts[2] + s.rangeCounts[3] + s.rangeCounts[4] == n &&
        s.recentTrend == values[..Min(5, n)])
  {
    var w := WindowOrDefault(window, defaultWindow);
    var records := RecentRecords(all, w);
    if |records| > 0 {
      var values := RedSums(records);
      var s := SumStatisticsOf(all, window, defaultWindow).value;
      assert records == all[..|records|];
      Features.ExtremaFacts(values);
      RangeCountsFacts(values, s.minimum, s.maximum);
      SumBounds(values, s.minimum, s.maximum);
      AverageBetween(Sum(values), |values|, s.minimum, s.maximum);
    }
  }

  /** Band k of the statistics counts the window's sums in that band's range. */
  lemma SumBandsCounted(all: seq<Draw>, window: Option<int>, defaultWindow: int, k: int)
    requires SumStatisticsOf(all, window, defaultWindow).Ok?
    requires 0 <= k < 5
    ensures var s := SumStatisticsOf(all, window, defaultWindow).value;
      s.rangeCounts[k] == multiset(BandsOf(RedSums(RecentRecords(all, s.window))))[k]
  {
    var s := SumStatisticsOf(all, window, defaultWindow).value;
    var values := RedSums(RecentRecords(all, s.window));
    Features.ExtremaFacts(values);
    RangeCountsFacts(values, s.minimum, s.maximum);
  }

  // ---------------------------------------------------------------------
  // get_analysis_summary

  /** `hottest`: the first three ranked balls. */
  function Hottest(sorted: seq<int>): seq<int>
  {
    SliceTo(sorted, 3)
  }

  /** `coldest`: `sorted_reds[-3:] if len(sorted_reds) >= 3 else sorted_reds` */
  function Coldest(sorted: seq<int>): seq<int>
  {
    if |sorted| >= 3 then SliceFrom(sorted, -3) else sorted
  }

  datatype Summary = Summary(
    windowUsed: int,
    hotCount: nat, warmCount: nat, coldCount: nat,
    sumAnalysis: Option<(real, string)>,
    topNumbers: Option<(seq<int>, seq<int>)>)

  /**
   * `get_analysis_summary`, assembled from the hot/cold analyzer's result,
   * the sum statistics and the frequency analysis of the same window
   * (`window_used` tests the window for truth, so 0 shows the default
   * window).
   */
  function SummaryOf(window: Option<int>, defaultWindow: int, hotCold: HotCold.Categories,
                     sumStats: Result<SumStats>, freq: Frequency): Summary
  {
    Summary(
      if window.Some? && window.value != 0 then window.value else defaultWindow,
      |hotCold.hot|, |hotCold.warm|, |hotCold.cold|,
      if sumStats.Ok? then Some((sumStats.value.average, sumStats.value.trendDirection)) else None,
      if |freq.sortedReds| > 0 then Some((Hottest(freq.sortedReds), Coldest(freq.sortedReds))) else None)
  }

  /** Ranked by descending count: an earlier ball was drawn at least as often as a later one. */
  predicate CountDescending(r: seq<int>, m: map<int, int>)
  {
    forall i, j :: 0 <= i < j < |r| ==> Get(m, r[i]) >= Get(m, r[j])
  }

  /**
   * In a ranking of 33 distinct balls the first three and the last three
   * are disjoint, and each of the first three counts at least as much as
   * each of the last three.
   */
  lemma TopAndBottom(r: seq<int>, m: map<int, int>)
    requires |r| == RedMax && Distinct(r) && CountDescending(r, m)
    ensures |Hottest(r)| == 3 && |Coldest(r)| == 3
    ensures forall b :: b in Hottest(r) ==> b !in Coldest(r)
    ensures forall i, j :: 0 <= i < 3 && 0 <= j < 3 ==> Get(m, Hottest(r)[i]) >= Get(m, Coldest(r)[j])
  {
    var hot := Hottest(r);
    var cold := Coldest(r);
    assert hot == r[..3] && cold == r[30..];
    forall b | b in hot
      ensures b !in cold
    {
      var i :| 0 <= i < 3 && hot[i] == b;
      forall j | 0 <= j < 3
        ensures cold[j] != b
      {
        assert cold[j] == r[30 + j] && b == r[i];
      }
    }
    forall i, j | 0 <= i < 3 && 0 <= j < 3
      ensures Get(m, hot[i]) >= Get(m, cold[j])
    {
      assert hot[i] == r[i] && cold[j] == r[30 + j];
    }
  }

  /**
   * For valid records the summary always names three hottest and three
   * coldest balls, no ball is both, and each hottest ball was drawn at
   * least as often as each coldest one in the window.
   */
  lemma SummaryTopNumbers(all: seq<Draw>, window: Option<int>, defaultWindow: int,
                          hotCold: HotCold.Categories, sumStats: Result<SumStats>)
    requires RedsInRange(all) && BluesInRange(all)
    ensures var f := FrequencyOf(all, window, defaultWindow);
      var s := SummaryOf(window, defaultWindow, hotCold, sumStats, f);
      s.topNumbers.Some? &&
      |s.topNumbers.value.0| == 3 && |s.topNumbers.value.1| == 3 &&
      (forall b :: b in s.topNumbers.value.0 ==> b !in s.topNumbers.value.1) &&
      forall i, j :: 0 <= i < 3 && 0 <= j < 3 ==>
        Get(f.redFrequencies, s.topNumbers.value.0[i]) >= Get(f.redFrequencies, s.topNumbers.value.1[j])
  {
    var f := FrequencyOf(all, window, defaultWindow);
    FrequencyRanking(all, window, defaultWindow);
    TopAndBottom(f.sortedReds, f.redFrequencies);
  }

  /** The red ranking of valid records: 33 distinct balls by descending count. */
  lemma FrequencyRanking(all: seq<Draw>, window: Option<int>, defaultWindow: int)
    requires RedsInRange(all) && BluesInRange(all)
    ensures var f := FrequencyOf(all, window, defaultWindow);
      |f.sortedReds| == RedMax && Distinct(f.sortedReds) && CountDescending(f.sortedReds, f.redFrequencies)
  {
    var w := WindowOrDefault(window, defaultWindow);
    var records := RecentRecords(all, w);
    PrefixInRange(all, |records|);
    assert records == all[..|records|];
    RankedFacts(records);
    RankedOrder(records);
  }

  // ---------------------------------------------------------------------
  // _determine_ball_trend

  /** `_determine_ball_trend`: the blue-ball label with a 0.5% threshold. */
  function DetermineBallTrend(p: seq<real>): string
  {
    if |p| < 2 then "数据不足"
    else
      var spread := RealSeqMax(p) - RealSeqMin(p);
      if Rising(p) && spread > 0.005 then "递增"
      else if Falling(p) && spread > 0.005 then "递减"
      else if spread <= 0.005 then "稳定"
      else "波动"
  }

  /**
   * Each label exactly: 递增 a non-decreasing list whose last value exceeds
   * its first by more than 0.005, 递减 the mirror image, 稳定 a list whose
   * values all lie within 0.005 of each other, 波动 anything else with a
   * wider spread.
   */
  lemma DetermineBallTrendFacts(p: seq<real>)
    requires |p| >= 2
    ensures DetermineBallTrend(p) == "递增" <==> Rising(p) && p[|p| - 1] - p[0] > 0.005
    ensures DetermineBallTrend(p) == "递减" <==> Falling(p) && p[0] - p[|p| - 1] > 0.005
    ensures DetermineBallTrend(p) == "稳定" <==>
      forall i, j :: 0 <= i < |p| && 0 <= j < |p| ==> p[i] - p[j] <= 0.005
    ensures DetermineBallTrend(p) == "波动" <==>
      !Rising(p) && !Falling(p) && exists i, j :: 0 <= i < |p| && 0 <= j < |p| && p[i] - p[j] > 0.005
  {
    SpreadAbove(p, 0.005);
    if Rising(p) {
      RisingSpread(p);
    }
    if Falling(p) {
      FallingSpread(p);
    }
  }

  // ---------------------------------------------------------------------
  // _analyze_blue_ball_trends

  /**
   * `period_data`: all records for `None`, else
   * `all_records[-min(window_size, total_records):]` — the last entries of
   * the newest-first list, and the whole list when the minimum is 0.
   */
  function PeriodData(all: seq<Draw>, ws: Option<int>, total: int): seq<Draw>
  {
    if ws.None? then all else SliceFrom(all, -Min(ws.value, total))
  }

  /** `f"最近{len(period_data)}期" if window_size else "全部历史"` */
  function WindowName(ws: Option<int>, n: nat): string
  {
    if ws.Some? && ws.value != 0 then "最近" + NatToString(n) + "期" else "全部历史"
  }

  datatype BlueWindow = BlueWindow(name: string, counts: map<int, int>, total: nat)

  function BlueWindowOf(data: seq<Draw>, ws: Option<int>): BlueWindow
  {
    BlueWindow(WindowName(ws, |data|), BlueCounter(data), |data|)
  }

  /** The analysed windows, in the order given; those with fewer than ten draws are skipped. */
  function KeptWindows(all: seq<Draw>, sizes: seq<Option<int>>, total: int): (r: seq<BlueWindow>)
    ensures |r| <= |sizes|
  {
    if |sizes| == 0 then []
    else
      var prev := KeptWindows(all, sizes[..|sizes| - 1], total);
      var ws := sizes[|sizes| - 1];
      var data := PeriodData(all, ws, total);
      if |data| < 10 then prev else prev + [BlueWindowOf(data, ws)]
  }

  datatype BlueTrend = BlueTrend(counts: seq<int>, percentages: seq<real>, windowNames: seq<string>, trend: string)

  const NoTrend := BlueTrend([], [], [], "")

  function EntryOf(t: map<int, BlueTrend>, b: int): BlueTrend
  {
    if b in t then t[b] else NoTrend
  }

  /** One window's count, percentage and name appended to ball b's lists. */
  function Appended(e: BlueTrend, w: BlueWindow, b: int): BlueTrend
  {
    BlueTrend(e.counts + [Get(w.counts, b)], e.percentages + [Ratio(Get(w.counts, b), w.total)],
              e.windowNames + [w.name], e.trend)
  }

  /** `for ball in range(1, hi + 1)`: append the window to balls 1..hi. */
  function AddWindow(t: map<int, BlueTrend>, w: BlueWindow, hi: int): map<int, BlueTrend>
    decreases hi
  {
    if hi < 1 then t else AddWindow(t, w, hi - 1)[hi := Appended(EntryOf(t, hi), w, hi)]
  }

  /** `blue_trends` after the window loop, before the labels. */
  function Collected(ws: seq<BlueWindow>): map<int, BlueTrend>
  {
    if |ws| == 0 then map[] else AddWindow(Collected(ws[..|ws| - 1]), ws[|ws| - 1], BlueMax)
  }

  function Labelled(t: map<int, BlueTrend>): map<int, BlueTrend>
  {
    map b | b in t :: t[b].(trend := if |t[b].percentages| >= 2 then DetermineBallTrend(t[b].percentages)
                                      else "数据不足")
  }

  /**
   * `_analyze_blue_ball_trends` with the records and, for a missing
   * `window_sizes`, the configured trend windows as parameters.
   */
  function BlueBallTrends(all: seq<Draw>, windowSizes: Option<seq<Option<int>>>, trendWindows: seq<Option<int>>,
                          total: int): map<int, BlueTrend>
  {
    var sizes := if windowSizes.None? then trendWindows else windowSizes.value;
    Labelled(Collected(KeptWindows(all, sizes, total)))
  }

  lemma AddWindowFacts(t: map<int, BlueTrend>, w: BlueWindow, hi: int)
    ensures forall b :: b in AddWindow(t, w, hi) <==> b in t || 1 <= b <= hi
    ensures forall b :: 1 <= b <= hi ==> AddWindow(t, w, hi)[b] == Appended(EntryOf(t, b), w, b)
    ensures forall b :: b in t && !(1 <= b <= hi) ==> AddWindow(t, w, hi)[b] == t[b]
    decreases hi
  {
    if hi >= 1 {
      AddWindowFacts(t, w, hi - 1);
    }
  }

  lemma {:induction false} AddWindowKeys(t: map<int, BlueTrend>, w: BlueWindow, hi: int)
    ensures forall b :: b in AddWindow(t, w, hi) <==> b in t || 1 <= b <= hi
    decreases hi
  {
    if hi >= 1 {
      AddWindowKeys(t, w, hi - 1);
    }
  }

  lemma {:induction false} AddWindowAt(t: map<int, BlueTrend>, w: BlueWindow, hi: int, b: int)
    requires 1 <= b <= hi
    ensures b in AddWindow(t, w, hi) && AddWindow(t, w, hi)[b] == Appended(EntryOf(t, b), w, b)
    decreases hi
  {
    if b < hi {
      AddWindowAt(t, w, hi - 1, b);
    }
  }

  /** Ball b's lists: one entry per analysed window. */
  predicate ColumnOf(e: BlueTrend, ws: seq<BlueWindow>, b: int)
  {
    |e.counts| == |ws| && |e.percentages| == |ws| && |e.windowNames| == |ws| &&
    forall j :: 0 <= j < |ws| ==>
      e.counts[j] == Get(ws[j].counts, b) &&
      e.percentages[j] == Ratio(Get(ws[j].counts, b), ws[j].total) &&
      e.windowNames[j] == ws[j].name
  }

  lemma ColumnSnoc(e: BlueTrend, ws: seq<BlueWindow>, w: BlueWindow, b: int)
    requires ColumnOf(e, ws, b)
    ensures ColumnOf(Appended(e, w, b), ws + [w], b)
  {
  }

  /**
   * Once a window was analysed every ball 1..16, and no other key, has a
   * list entry per analysed window in window order.
   */
  lemma {:induction false} CollectedFacts(ws: seq<BlueWindow>)
    ensures |ws| == 0 ==> Collected(ws) == map[]
    ensures |ws| > 0 ==> forall b :: b in Collected(ws) <==> IsBlue(b)
    ensures forall b :: b in Collected(ws) ==> ColumnOf(Collected(ws)[b], ws, b)
  {
    if |ws| > 0 {
      var prev := ws[..|ws| - 1];
      var w := ws[|ws| - 1];
      CollectedFacts(prev);
      var c0 := Collected(prev);
      var c := Collected(ws);
      assert c == AddWindow(c0, w, BlueMax);
      AddWindowKeys(c0, w, BlueMax);
      forall b | b in c
        ensures ColumnOf(c[b], ws, b)
      {
        CollectedEntry(c0, ws, b);
      }
    }
  }

  /** Ball b's lists after one more window, from its lists before it (none before the first window). */
  lemma CollectedEntry(c0: map<int, BlueTrend>, ws: seq<BlueWindow>, b: int)
    requires |ws| > 0
    requires |ws| == 1 ==> c0 == map[]
    requires |ws| > 1 ==> b in c0
    requires b in c0 ==> ColumnOf(c0[b], ws[..|ws| - 1], b)
    requires IsBlue(b)
    ensures b in AddWindow(c0, ws[|ws| - 1], BlueMax) && ColumnOf(AddWindow(c0, ws[|ws| - 1], BlueMax)[b], ws, b)
  {
    var prev, w := ws[..|ws| - 1], ws[|ws| - 1];
    WindowsSnoc(ws);
    AddWindowAt(c0, w, BlueMax, b);
    assert ColumnOf(EntryOf(c0, b), prev, b);
    ColumnSnoc(EntryOf(c0, b), prev, w, b);
  }

  lemma WindowsSnoc(ws: seq<BlueWindow>)
    requires |ws| > 0
    ensures ws[..|ws| - 1] + [ws[|ws| - 1]] == ws
  {
  }

  /** Every analysed window holds at least ten draws and is the period data of one of the sizes. */
  lemma {:induction false} KeptWindowsFacts(all: seq<Draw>, sizes: seq<Option<int>>, total: int)
    ensures forall j :: 0 <= j < |KeptWindows(all, sizes, total)| ==>
      var w := KeptWindows(all, sizes, total)[j];
      w.total >= 10 &&
      exists ws :: ws in sizes && w == BlueWindowOf(PeriodData(all, ws, total), ws)
  {
    if |sizes| > 0 {
      KeptWindowsFacts(all, sizes[..|sizes| - 1], total);
      var ws := sizes[|sizes| - 1];
      assert ws in sizes;
      forall x | x in sizes[..|sizes| - 1]
        ensures x in sizes
      {
      }
    }
  }

  /**
   * The blue trends: empty when no window holds ten draws, otherwise
   * exactly the balls 1..16, each with its count, percentage
   * (count / window size) and name per analysed window and the trend of
   * those percentages, 数据不足 exactly when a single window was analysed.
   */
  lemma BlueBallTrendsFacts(all: seq<Draw>, windowSizes: Option<seq<Option<int>>>,
                            trendWindows: seq<Option<int>>, total: int)
    ensures var sizes := if windowSizes.None? then trendWindows else windowSizes.value;
      var ws := KeptWindows(all, sizes, total);
      var t := BlueBallTrends(all, windowSizes, trendWindows, total);
      (|ws| == 0 <==> t == map[]) &&
      (|ws| > 0 ==> forall b :: b in t <==> IsBlue(b)) &&
      forall b :: b in t ==>
        ColumnOf(t[b], ws, b) &&
        (t[b].trend == "数据不足" <==> |ws| == 1) &&
        (|ws| >= 2 ==> t[b].trend == DetermineBallTrend(t[b].percentages))
  {
    var sizes := if windowSizes.None? then trendWindows else windowSizes.value;
    var ws := KeptWindows(all, sizes, total);
    CollectedFacts(ws);
    var c := Collected(ws);
    var t := Labelled(c);
    assert t == BlueBallTrends(all, windowSizes, trendWindows, total);
    if |ws| > 0 {
      assert 1 in c && 1 in t;
    }
    forall b | b in t
      ensures ColumnOf(t[b], ws, b)
      ensures t[b].trend == "数据不足" <==> |ws| == 1
      ensures |ws| >= 2 ==> t[b].trend == DetermineBallTrend(t[b].percentages)
    {
      LabelledEntry(c, ws, b);
    }
  }

  /** Labelling keeps ball b's lists and gives it the trend of its percentages, 数据不足 for a single window. */
  lemma LabelledEntry(c: map<int, BlueTrend>, ws: seq<BlueWindow>, b: int)
    requires b in c && ColumnOf(c[b], ws, b) && |ws| >= 1
    ensures var t := Labelled(c);
      b in t && ColumnOf(t[b], ws, b) &&
      (t[b].trend == "数据不足" <==> |ws| == 1) &&
      (|ws| >= 2 ==> t[b].trend == DetermineBallTrend(t[b].percentages))
  {
    var e := c[b];
    var e' := Labelled(c)[b];
    assert e' == e.(trend := e'.trend);
    if |ws| >= 2 {
      DetermineBallTrendKnown(e.percentages);
    }
  }

  /** From two percentages on the label is one of the four trends, never 数据不足. */
  lemma DetermineBallTrendKnown(p: seq<real>)
    requires |p| >= 2
    ensures DetermineBallTrend(p) != "数据不足"
  {
    var l := DetermineBallTrend(p);
    assert l == "递增" || l == "递减" || l == "稳定" || l == "波动";
    assert "数据不足"[0] != "递增"[0] && "数据不足"[0] != "递减"[0];
    assert "数据不足"[0] != "稳定"[0] && "数据不足"[0] != "波动"[0];
  }

  /** A window's percentages are counts over its size, so each lies in [0, 1] for valid records. */
  lemma BlueWindowShares(data: seq<Draw>, ws: Option<int>, b: int)
    requires |data| > 0
    ensures var w := BlueWindowOf(data, ws);
      Get(w.counts, b) == BlueCount(data, b) &&
      0.0 <= Ratio(Get(w.counts, b), w.total) <= 1.0
  {
    var bs := Blues(data);
    CountMapFacts(bs);
    assert multiset(bs)[b] <= |multiset(bs)|;
    RatioUnit(BlueCount(data, b), |data|);
  }

  /** Appending a window to every ball, as the inner loop does. */
  method AddWindowLoop(t: map<int, BlueTrend>, w: BlueWindow) returns (t': map<int, BlueTrend>)
    ensures t' == AddWindow(t, w, BlueMax)
  {
    t' := t;
    var b := 1;
    while b <= BlueMax
      invariant 1 <= b <= BlueMax + 1
      invariant t' == AddWindow(t, w, b - 1)
    {
      AddWindowFacts(t, w, b - 1);
      assert EntryOf(t', b) == EntryOf(t, b);
      t' := t'[b := Appended(EntryOf(t', b), w, b)];
      b := b + 1;
    }
  }

  /** One window's blue Counter, zero-filled, with the window's name and size. */
  method CountBlueWindow(data: seq<Draw>, ws: Option<int>) returns (w: BlueWindow)
    ensures w == BlueWindowOf(data, ws)
  {
    var counts, order := CountValues(Blues(data));
    counts, order := ZeroFill(counts, order, 1, BlueMax);
    w := BlueWindow(WindowName(ws, |data|), counts, |data|);
  }

  lemma KeptStep(all: seq<Draw>, sizes: seq<Option<int>>, k: int, total: int)
    requires 0 <= k < |sizes|
    ensures var data := PeriodData(all, sizes[k], total);
      var prev := KeptWindows(all, sizes[..k], total);
      KeptWindows(all, sizes[..k + 1], total) ==
        if |data| < 10 then prev else prev + [BlueWindowOf(data, sizes[k])]
  {
    assert sizes[..k + 1][..k] == sizes[..k];
  }

  lemma CollectedSnoc(ws: seq<BlueWindow>, w: BlueWindow)
    ensures Collected(ws + [w]) == AddWindow(Collected(ws), w, BlueMax)
  {
    var v := ws + [w];
    assert v[..|v| - 1] == ws && v[|v| - 1] == w;
  }

  /** One pass of the window loop: skip a window of fewer than ten draws, else append it to every ball. */
  method AnalyzeWindow(collected: map<int, BlueTrend>, ghost kept: seq<BlueWindow>,
                       all: seq<Draw>, sizes: seq<Option<int>>, k: int, total: int)
    returns (collected': map<int, BlueTrend>, ghost kept': seq<BlueWindow>)
    requires 0 <= k < |sizes|
    requires kept == KeptWindows(all, sizes[..k], total) && collected == Collected(kept)
    ensures collected' == Collected(KeptWindows(all, sizes[..k + 1], total))
    ensures kept' == KeptWindows(all, sizes[..k + 1], total)
  {
    KeptStep(all, sizes, k, total);
    var ws := sizes[k];
    var data := if ws.None? then all else SliceFrom(all, -Min(ws.value, total));
    assert data == PeriodData(all, ws, total);
    collected', kept' := collected, kept;
    if |data| >= 10 {
      var w := CountBlueWindow(data, ws);
      collected' := AddWindowLoop(collected, w);
      CollectedSnoc(kept, w);
      kept' := kept + [w];
    }
  }

  /** The window loop of `_analyze_blue_ball_trends`, then the labels. */
  method AnalyzeBlueBallTrends(all: seq<Draw>, windowSizes: Option<seq<Option<int>>>,
                               trendWindows: seq<Option<int>>, total: int)
    returns (trends: map<int, BlueTrend>)
    ensures trends == BlueBallTrends(all, windowSizes, trendWindows, total)
  {
    var sizes := if windowSizes.None? then trendWindows else windowSizes.value;
    var collected: map<int, BlueTrend> := map[];
    ghost var kept: seq<BlueWindow> := [];
    var k := 0;
    while k < |sizes|
      invariant 0 <= k <= |sizes|
      invariant kept == KeptWindows(all, sizes[..k], total) && collected == Collected(kept)
    {
      collected, kept := AnalyzeWindow(collected, kept, all, sizes, k, total);
      k := k + 1;
    }
    assert sizes[..|sizes|] == sizes;
    trends := Labelled(collected);
  }

  // ---------------------------------------------------------------------
  // get_ball_trend_report: argument checks

  /** The error text for bad arguments, None when the report is produced. */
  function TrendReportGuard(ballType: string, ball: Option<int>): Option<string>
  {
    if ballType != "red" && ballType != "blue" then Some("错误: 球类型必须是'red'或'blue'")
    else if ballType == "red" && (ball.None? || !IsRed(ball.value)) then Some("错误: 红球号码必须在1-33之间")
    else if ballType == "blue" && (ball.None? || !IsBlue(ball.value)) then Some("错误: 蓝球号码必须在1-16之间")
    else None
  }

  /** A report is produced exactly for a red ball 1..33 or a blue ball 1..16. */
  lemma TrendReportGuardFacts(ballType: string, ball: Option<int>)
    ensures TrendReportGuard(ballType, ball).None? <==>
      ball.Some? && ((ballType == "red" && IsRed(ball.value)) || (ballType == "blue" && IsBlue(ball.value)))
  {
  }
}
