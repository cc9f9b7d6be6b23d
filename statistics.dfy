/**
 * The statistics analyzer: the 30% hot/cold split of the newest records
 * with Laplace-smoothed red probabilities and the weighted next-draw
 * probability, the sliding-window trend counts, and the basic statistics
 * (distributions, sum buckets, odd:even labels, repeats).
 *
 * `get_recent_records(n)` is `Database.RecentRecords(all, n)` over the
 * record list `all`, newest first.
 */
module Statistics {
  import opened Common
  import opened Draws
  import opened Ranking
  import Database
  import Features

  // ---------------------------------------------------------------------
  // The 30% split

  /**
   * `max(1, int(k * 0.3))`. For every k in 0..399 the float product
   * truncates to `3k // 10`; a ranking has at most 33 entries.
   */
  function HotThreshold(k: nat): (t: int)
    ensures 1 <= t && (k >= 1 ==> t <= k)
    ensures 2 * t <= k <==> k >= 2
  {
    Max(1, (3 * k) / 10)
  }

  /** `sorted(red_counts.items(), key=count, reverse=True)`: a stable sort, so ties keep insertion order. */
  function RankedReds(records: seq<Draw>): seq<int>
  {
    MostCommon(Dedupe(AllReds(records)), CountMap(AllReds(records)))
  }

  /** `red_sorted[:hot_threshold]` */
  function HotPart(ranked: seq<int>): seq<int>
  {
    SliceTo(ranked, HotThreshold(|ranked|))
  }

  /** `red_sorted[-hot_threshold:]` when there are at least twice as many, else `[]`. */
  function ColdPart(ranked: seq<int>): seq<int>
  {
    var t := HotThreshold(|ranked|);
    if |ranked| >= 2 * t then SliceFrom(ranked, -t) else []
  }

  /** The ranking lists every drawn red exactly once. */
  lemma RankedRedsFacts(records: seq<Draw>)
    requires |records| > 0
    ensures var ranked := RankedReds(records);
      |ranked| >= 1 && Distinct(ranked) && |ranked| == |Dedupe(AllReds(records))| &&
      (forall x :: x in ranked <==> x in AllReds(records))
  {
    var xs := AllReds(records);
    var order := Dedupe(xs);
    var ranked := RankedReds(records);
    DedupeFacts(xs);
    var first := xs[0];
    assert first in xs;
    assert first in order;
    MostCommonPermutes(order, CountMap(xs));
    assert |ranked| == |multiset(ranked)| == |multiset(order)| == |order|;
    forall x
      ensures x in ranked <==> x in order
    {
      assert x in ranked <==> x in multiset(ranked);
    }
  }

  /**
   * Of a duplicate-free ranking the hot part is the first `t` balls and
   * the cold part the last `t` (none with fewer than two balls); the two
   * are disjoint.
   */
  lemma SplitShape(ranked: seq<int>)
    requires Distinct(ranked)
    ensures var t := HotThreshold(|ranked|);
      HotPart(ranked) == ranked[..Min(t, |ranked|)] &&
      (|ranked| >= 2 ==> ColdPart(ranked) == ranked[|ranked| - t..]) &&
      (|ranked| < 2 ==> ColdPart(ranked) == []) &&
      (forall x :: x in HotPart(ranked) ==> x !in ColdPart(ranked))
  {
    var t := HotThreshold(|ranked|);
    if |ranked| >= 2 {
      assert HotPart(ranked) == ranked[..t];
      assert ColdPart(ranked) == ranked[|ranked| - t..];
      forall x | x in HotPart(ranked)
        ensures x !in ColdPart(ranked)
      {
        var i :| 0 <= i < t && ranked[i] == x;
        forall j | |ranked| - t <= j < |ranked|
          ensures ranked[j] != x
        {
          assert i < j;
        }
      }
    }
  }

  /**
   * The 30% split of the newest records: the ranking lists every drawn red
   * once, the hot part is its first `t` balls, the cold part its last `t`
   * (none with fewer than two distinct reds), and no ball is both.
   */
  lemma ThirtyPercentSplit(records: seq<Draw>)
    requires |records| > 0
    ensures var ranked := RankedReds(records);
      var t := HotThreshold(|ranked|);
      |ranked| >= 1 && Distinct(ranked) &&
      (forall x :: x in ranked <==> x in AllReds(records)) &&
      HotPart(ranked) == ranked[..t] &&
      (|ranked| >= 2 ==> ColdPart(ranked) == ranked[|ranked| - t..]) &&
      (|ranked| < 2 ==> ColdPart(ranked) == []) &&
      (forall x :: x in HotPart(ranked) ==> x !in ColdPart(ranked))
  {
    RankedRedsFacts(records);
    SplitShape(RankedReds(records));
  }

  /** Of any `most_common()` ranking, every hot ball ranks above every cold ball. */
  lemma SplitRanks(order: seq<int>, cnt: map<int, int>)
    requires Distinct(order)
    ensures var ranked := MostCommon(order, cnt);
      RanksAbove(order, cnt, HotPart(ranked), ColdPart(ranked))
  {
    var ranked := MostCommon(order, cnt);
    TierOrder(order, cnt, 0, 0, 0, 0);
    var k := |ranked|;
    var t := HotThreshold(k);
    if k >= 2 {
      TierOrder(order, cnt, 0, t, k - t, k);
      var hot, cold := ranked[0..t], ranked[k - t..k];
      assert RanksAbove(order, cnt, hot, cold);
      assert HotPart(ranked) == hot;
      assert ColdPart(ranked) == cold;
    } else {
      assert ColdPart(ranked) == [];
      assert RanksAbove(order, cnt, HotPart(ranked), []);
    }
  }

  /**
   * Every hot ball was drawn at least as often as every cold ball, and on
   * equal counts it was first drawn earlier.
   */
  lemma HotAboveCold(records: seq<Draw>)
    ensures var ranked := RankedReds(records);
      RanksAbove(Dedupe(AllReds(records)), CountMap(AllReds(records)), HotPart(ranked), ColdPart(ranked))
  {
    DedupeFacts(AllReds(records));
    SplitRanks(Dedupe(AllReds(records)), CountMap(AllReds(records)));
  }

  // ---------------------------------------------------------------------
  // Probabilities

  /** `(count + 1) / (total_draws + 33)` for every red 1..33. */
  function Laplace(counts: map<int, int>, total: nat): map<int, real>
  {
    map b | 1 <= b <= RedMax :: Ratio(Get(counts, b) + 1, total + RedMax)
  }

  /** The sum of a real-valued table over the keys 1..hi. */
  function TableSum(m: map<int, real>, hi: int): real
    decreases hi
  {
    if hi < 1 then 0.0 else TableSum(m, hi - 1) + (if hi in m then m[hi] else 0.0)
  }

  lemma {:induction false} LaplacePartial(counts: map<int, int>, total: nat, hi: int)
    requires 0 <= hi <= RedMax
    ensures TableSum(Laplace(counts, total), hi) == Ratio(KeySum(counts, 1, hi) + hi, total + RedMax)
  {
    var m := Laplace(counts, total);
    if hi > 0 {
      LaplacePartial(counts, total, hi - 1);
      assert hi in m && m[hi] == Ratio(Get(counts, hi) + 1, total + RedMax);
      RatioAdd(KeySum(counts, 1, hi - 1) + hi - 1, Get(counts, hi) + 1, total + RedMax);
    }
  }

  lemma LaplaceSum(counts: map<int, int>, total: nat)
    ensures TableSum(Laplace(counts, total), RedMax) == Ratio(KeySum(counts, 1, RedMax) + RedMax, total + RedMax)
  {
    LaplacePartial(counts, total, RedMax);
  }

  /**
   * The smoothed probabilities are positive and add up to
   * `(6T + 33) / (T + 33)` over T historical records: each record puts
   * six reds into the counts and the smoothing adds one per ball.
   */
  lemma LaplaceTotal(hist: seq<Draw>)
    requires RedsInRange(hist)
    ensures var p := Laplace(CountMap(AllReds(hist)), |hist|);
      (forall b :: b in p <==> IsRed(b)) &&
      (forall b :: b in p ==> p[b] > 0.0) &&
      TableSum(p, RedMax) == Ratio(6 * |hist| + RedMax, |hist| + RedMax)
  {
    var xs := AllReds(hist);
    LaplaceSum(CountMap(xs), |hist|);
    CountMapKeySum(xs, 1, RedMax);
    RedConservation(hist);
    var k := KeySum(CountMap(xs), 1, RedMax) + RedMax;
    assert k == 6 * |hist| + RedMax;
    assert Ratio(k, |hist| + RedMax) == Ratio(6 * |hist| + RedMax, |hist| + RedMax);
    LaplacePositive(xs, |hist|);
  }

  lemma LaplacePositive(xs: seq<int>, total: nat)
    ensures forall b :: b in Laplace(CountMap(xs), total) ==> Laplace(CountMap(xs), total)[b] > 0.0
  {
    CountMapFacts(xs);
    forall b | 1 <= b <= RedMax
      ensures Ratio(Get(CountMap(xs), b) + 1, total + RedMax) > 0.0
    {
      RatioPositive(Get(CountMap(xs), b) + 1, total + RedMax);
    }
  }

  lemma RatioPositive(a: int, b: int)
    requires 0 < a && 0 < b
    ensures Ratio(a, b) > 0.0
  {
  }

  /**
   * `_calculate_next_probability`: 70% of the ball's recent frequency per
   * draw plus 30% of the uniform 6/33, as a percentage capped at 30; the
   * uniform percentage when there are no draws.
   */
  function NextProbability(freq: int, total: int): real
  {
    if total > 0 then RealMin((0.7 * (freq as real / total as real) + 0.3 * (6.0 / 33.0)) * 100.0, 30.0)
    else 6.0 / 33.0 * 100.0
  }

  /** The next-draw percentage is positive and never above the cap; a more frequent ball never gets less. */
  lemma NextProbabilityFacts(freq: int, freq': int, total: int)
    requires 0 <= freq <= freq'
    ensures 0.0 < NextProbability(freq, total) <= 30.0
    ensures NextProbability(freq, total) <= NextProbability(freq', total)
    ensures total > 0 && freq == 0 ==> NextProbability(freq, total) == 1800.0 / 330.0
  {
    if total > 0 {
      var n := total as real;
      assert freq as real / n <= freq' as real / n;
      assert freq as real / n >= 0.0;
    }
  }

  // ---------------------------------------------------------------------
  // analyze_hot_cold

  datatype LatestRed = LatestRed(number: int, status: string, frequency: int, probability: real, nextProbability: real)

  datatype LatestBlue = LatestBlue(number: int, status: string, frequency: int)

  datatype HotColdReport = HotColdReport(
    hotReds: seq<int>, coldReds: seq<int>, redProbabilities: map<int, real>,
    latestAnalysis: seq<LatestRed>, latestBlue: LatestBlue, recentN: int)

  function RedStatus(b: int, hot: seq<int>, cold: seq<int>): string
  {
    if b in hot then "热号" else if b in cold then "冷号" else "温号"
  }

  function BlueStatus(freq: int): string
  {
    if freq >= 2 then "热号" else if freq == 0 then "冷号" else "温号"
  }

  /** The history the probabilities come from: the newest `allN` records when allN > recentN, else the recent ones. */
  function History(all: seq<Draw>, recentN: int, allN: int): seq<Draw>
  {
    if allN > recentN then Database.RecentRecords(all, allN) else Database.RecentRecords(all, recentN)
  }

  /** One entry of `latest_analysis` per red of the newest record. */
  function LatestAnalysis(reds: seq<int>, hot: seq<int>, cold: seq<int>, counts: map<int, int>,
                          probs: map<int, real>, total: nat): (r: seq<LatestRed>)
    ensures |r| == |reds|
  {
    seq(|reds|, i requires 0 <= i < |reds| =>
      LatestRed(reds[i], RedStatus(reds[i], hot, cold), Get(counts, reds[i]),
                if reds[i] in probs then probs[reds[i]] else 0.0,
                NextProbability(Get(counts, reds[i]), total)))
  }

  /** `analyze_hot_cold(recent_n, all_data_n)`: None without recent or historical records. */
  function HotColdOf(all: seq<Draw>, recentN: int, allN: int): Option<HotColdReport>
  {
    var recent := Database.RecentRecords(all, recentN);
    var hist := History(all, recentN, allN);
    var ranked := RankedReds(recent);
    if |recent| == 0 || |hist| == 0 || |ranked| == 0 then None
    else
      var counts := CountMap(AllReds(recent));
      var hot := HotPart(ranked);
      var cold := ColdPart(ranked);
      var probs := Laplace(CountMap(AllReds(hist)), |hist|);
      // get_recent_records(1)[0]: the newest record
      var latest := all[0];
      var blueFreq := Get(CountMap(Blues(recent)), latest.blue);
      Some(HotColdReport(hot, cold, probs,
        LatestAnalysis(latest.reds, hot, cold, counts, probs, |hist|),
        LatestBlue(latest.blue, BlueStatus(blueFreq), blueFreq), recentN))
  }

  /** The analysis as the source computes it: Counter loops over the recent and historical records. */
  method AnalyzeHotCold(all: seq<Draw>, recentN: int, allN: int) returns (r: Option<HotColdReport>)
    ensures r == HotColdOf(all, recentN, allN)
  {
    var recent := Database.RecentRecords(all, recentN);
    var hist := History(all, recentN, allN);
    if |recent| == 0 || |hist| == 0 {
      return None;
    }
    var redCounts, redOrder := CountReds(recent);
    var blueCounts, _ := CountValues(Blues(recent));
    var ranked := MostCommon(redOrder, redCounts);
    if |ranked| == 0 {
      return None;
    }
    var hot := HotPart(ranked);
    var cold := ColdPart(ranked);
    var histCounts, _ := CountReds(hist);
    var probs := Laplace(histCounts, |hist|);
    var latest := all[0];
    var blueFreq := Get(blueCounts, latest.blue);
    r := Some(HotColdReport(hot, cold, probs,
      LatestAnalysis(latest.reds, hot, cold, redCounts, probs, |hist|),
      LatestBlue(latest.blue, BlueStatus(blueFreq), blueFreq), recentN));
  }

  /**
   * The report exists exactly when recentN > 0 and there are records; it
   * analyses the newest record's six reds, each labelled 热号 exactly when
   * it is hot and 冷号 exactly when it is cold, with its recent frequency.
   */
  lemma HotColdFacts(all: seq<Draw>, recentN: int, allN: int)
    ensures HotColdOf(all, recentN, allN).Some? <==> recentN > 0 && |all| > 0
    ensures HotColdOf(all, recentN, allN).Some? ==>
      var rep := HotColdOf(all, recentN, allN).value;
      var recent := Database.RecentRecords(all, recentN);
      |rep.latestAnalysis| == 6 && rep.latestBlue.number == all[0].blue &&
      rep.latestBlue.frequency == BlueCount(recent, all[0].blue) &&
      forall i :: 0 <= i < 6 ==>
        rep.latestAnalysis[i].number == all[0].reds[i] &&
        rep.latestAnalysis[i].frequency == RedCount(recent, all[0].reds[i]) &&
        (rep.latestAnalysis[i].status == "热号" <==> all[0].reds[i] in rep.hotReds) &&
        (rep.latestAnalysis[i].status == "冷号" <==> all[0].reds[i] in rep.coldReds)
  {
    var recent := Database.RecentRecords(all, recentN);
    if recentN > 0 && |all| > 0 {
      assert |recent| > 0;
      ThirtyPercentSplit(recent);
      var rep := HotColdOf(all, recentN, allN).value;
      CountMapFacts(AllReds(recent));
      CountMapFacts(Blues(recent));
      forall i | 0 <= i < 6
        ensures rep.latestAnalysis[i].status == "冷号" <==> all[0].reds[i] in rep.coldReds
      {
        var b := all[0].reds[i];
        assert !(b in rep.hotReds && b in rep.coldReds);
      }
    }
  }

  // ---------------------------------------------------------------------
  // analyze_trends

  datatype TrendEntry = TrendEntry(windowStart: string, hotCount: nat, coldCount: nat, avgFrequency: real)

  /** What `analyze_trends` ends with: no data, a raised IndexError, or the window list. */
  datatype TrendsOutcome = NoData | IndexError | Trends(entries: seq<TrendEntry>)

  /** `[count for _, count in sorted_counts]` */
  function CountsOf(ranked: seq<int>, counts: map<int, int>): (r: seq<int>)
    ensures |r| == |ranked|
  {
    seq(|ranked|, j requires 0 <= j < |ranked| => Get(counts, ranked[j]))
  }

  /** One sliding window `data[i:i+ws]`, started at record i. */
  function WindowEntry(data: seq<Draw>, i: int, ws: int): TrendEntry
    requires 0 <= i < |data| && 0 <= ws && i + ws <= |data|
  {
    var xs := AllReds(data[i..i + ws]);
    var counts := CountMap(xs);
    var ranked := MostCommon(Dedupe(xs), counts);
    var t := HotThreshold(|ranked|);
    TrendEntry(data[i].issue,
      Features.CountIf(SliceTo(ranked, t), b => Get(counts, b) >= 2),
      Features.CountIf(SliceFrom(ranked, -t), b => Get(counts, b) == 0),
      Ratio(Sum(CountsOf(ranked, counts)), |ranked|))
  }

  /** `window_size = min(10, window_n // 3)`, as written. */
  function WindowSizeAsWritten(windowN: int): int
  {
    Min(10, windowN / 3)
  }

  /**
   * `analyze_trends(window_n)` as written: windows start at
   * `0 .. len - window_size`, and each reads `all_data[i].issue`; with a
   * window size of 0 the last start is `len`, past the end of the data.
   */
  function TrendsAsWritten(all: seq<Draw>, windowN: int): TrendsOutcome
  {
    var data := Database.RecentRecords(all, windowN);
    var ws := WindowSizeAsWritten(windowN);
    if |data| == 0 then NoData
    else if |data| - ws + 1 <= 0 then Trends([])
    else if |data| - ws >= |data| then IndexError
    else Trends(seq(|data| - ws + 1, i requires 0 <= i < |data| - ws + 1 => WindowEntry(data, i, ws)))
  }

  /** With window_n of 1 or 2 and any record, the window size is 0 and the source raises IndexError. */
  lemma TrendsAsWrittenCrashes(all: seq<Draw>, windowN: int)
    requires 1 <= windowN <= 2 && |all| > 0
    ensures TrendsAsWritten(all, windowN) == IndexError
  {
  }

  /** The evidently intended window size: at least one record per window. */
  function WindowSize(windowN: int): (ws: int)
    ensures 1 <= ws <= 10
  {
    Max(1, Min(10, windowN / 3))
  }

  function TrendsOf(all: seq<Draw>, windowN: int): TrendsOutcome
  {
    var data := Database.RecentRecords(all, windowN);
    var ws := WindowSize(windowN);
    if |data| == 0 then NoData
    else if ws > |data| then Trends([])
    else Trends(seq(|data| - ws + 1, i requires 0 <= i < |data| - ws + 1 => WindowEntry(data, i, ws)))
  }

  /**
   * With the corrected window size the analysis never raises: it reports
   * no data exactly when there are no records, and otherwise one entry per
   * full window, each starting at its own record; it agrees with the
   * source wherever the source does not raise.
   */
  lemma TrendsFacts(all: seq<Draw>, windowN: int)
    ensures TrendsOf(all, windowN) != IndexError
    ensures TrendsOf(all, windowN) == NoData <==> windowN <= 0 || |all| == 0
    ensures TrendsAsWritten(all, windowN) != IndexError ==> TrendsAsWritten(all, windowN) == TrendsOf(all, windowN)
    ensures TrendsOf(all, windowN).Trends? ==>
      var data := Database.RecentRecords(all, windowN);
      var e := TrendsOf(all, windowN).entries;
      |e| == Max(0, |data| - WindowSize(windowN) + 1) &&
      forall i :: 0 <= i < |e| ==> e[i].windowStart == data[i].issue
  {
    var data := Database.RecentRecords(all, windowN);
    if windowN >= 3 {
      assert WindowSize(windowN) == WindowSizeAsWritten(windowN);
    }
  }

  lemma {:induction false} CountIfNone(s: seq<int>, p: int -> bool)
    requires forall x :: x in s ==> !p(x)
    ensures Features.CountIf(s, p) == 0
  {
    if |s| > 0 {
      var last := s[|s| - 1];
      assert last in s;
      var init := s[..|s| - 1];
      forall x | x in init
        ensures !p(x)
      {
        var k :| 0 <= k < |init| && init[k] == x;
        assert s[k] == x;
      }
      CountIfNone(init, p);
    }
  }

  /**
   * A window's cold count is always 0 (every ranked ball was drawn in the
   * window), its hot count is at most the threshold, and a window holding
   * records has an average count of at least 1.
   */
  lemma WindowEntryFacts(data: seq<Draw>, i: int, ws: int)
    requires 0 <= i < |data| && 0 <= ws && i + ws <= |data|
    ensures WindowEntry(data, i, ws).coldCount == 0
    ensures WindowEntry(data, i, ws).hotCount <= HotThreshold(|Dedupe(AllReds(data[i..i + ws]))|)
    ensures ws > 0 ==> WindowEntry(data, i, ws).avgFrequency >= 1.0
  {
    var xs := AllReds(data[i..i + ws]);
    var counts := CountMap(xs);
    var ranked := MostCommon(Dedupe(xs), counts);
    RankedCounts(xs);
    var t := HotThreshold(|ranked|);
    CountIfNone(SliceFrom(ranked, -t), b => Get(counts, b) == 0);
    Features.CountIfBound(SliceTo(ranked, t), b => Get(counts, b) >= 2);
    if ws > 0 {
      var c := CountsOf(ranked, counts);
      forall j | 0 <= j < |c|
        ensures c[j] >= 1
      {
        assert ranked[j] in ranked;
      }
      SumAtLeastLength(c);
      RatioAtLeastOne(Sum(c), |c|);
    }
  }

  lemma {:induction false} SumAtLeastLength(c: seq<int>)
    requires forall j :: 0 <= j < |c| ==> c[j] >= 1
    ensures Sum(c) >= |c|
  {
    if |c| > 0 {
      SumAtLeastLength(c[..|c| - 1]);
    }
  }

  lemma RatioAtLeastOne(a: int, b: int)
    requires 0 < b <= a
    ensures Ratio(a, b) >= 1.0
  {
    var x, y := a as real, b as real;
    assert x / y * y == x;
  }

  /** One window's entry, counted with a Counter loop. */
  method WindowEntryLoop(data: seq<Draw>, i: int, ws: int) returns (e: TrendEntry)
    requires 0 <= i < |data| && 0 <= ws && i + ws <= |data|
    ensures e == WindowEntry(data, i, ws)
  {
    var counts, order := CountReds(data[i..i + ws]);
    var ranked := MostCommon(order, counts);
    var t := HotThreshold(|ranked|);
    e := TrendEntry(data[i].issue,
      Features.CountIf(SliceTo(ranked, t), b => Get(counts, b) >= 2),
      Features.CountIf(SliceFrom(ranked, -t), b => Get(counts, b) == 0),
      Ratio(Sum(CountsOf(ranked, counts)), |ranked|));
  }

  /** `analyze_trends` with the corrected window size, as a loop over the window starts. */
  method AnalyzeTrends(all: seq<Draw>, windowN: int) returns (r: TrendsOutcome)
    ensures r == TrendsOf(all, windowN)
  {
    var data := Database.RecentRecords(all, windowN);
    if |data| == 0 {
      return NoData;
    }
    var ws := WindowSize(windowN);
    if ws > |data| {
      return Trends([]);
    }
    var n := |data| - ws + 1;
    var entries: seq<TrendEntry> := [];
    var i := 0;
    while i < n
      invariant 0 <= i <= n
      invariant |entries| == i
      invariant forall k :: 0 <= k < i ==> entries[k] == WindowEntry(data, k, ws)
    {
      var e := WindowEntryLoop(data, i, ws);
      EntriesSnoc(data, ws, entries, e);
      entries := entries + [e];
      i := i + 1;
    }
    r := Trends(entries);
  }

  /** The window list grows by the next window's entry. */
  lemma EntriesSnoc(data: seq<Draw>, ws: int, entries: seq<TrendEntry>, e: TrendEntry)
    requires 0 <= ws && |entries| < |data| && |entries| + ws <= |data|
    requires forall k :: 0 <= k < |entries| ==> entries[k] == WindowEntry(data, k, ws)
    requires e == WindowEntry(data, |entries|, ws)
    ensures forall k :: 0 <= k < |entries| + 1 ==> (entries + [e])[k] == WindowEntry(data, k, ws)
  {
  }

  // ---------------------------------------------------------------------
  // get_basic_statistics

  /** `(red_sum // 10) * 10`: the lower end of the sum bucket `f"{b}-{b+9}"`. */
  function SumBucket(s: int): int
  {
    (s / 10) * 10
  }

  /** The bucket `b-(b+9)` holds the sum, and b is a multiple of 10. */
  lemma SumBucketFacts(s: int)
    ensures SumBucket(s) <= s <= SumBucket(s) + 9
    ensures SumBucket(s) % 10 == 0
  {
  }

  /** The sum bucket of each record. */
  function SumBuckets(records: seq<Draw>): (r: seq<int>)
    ensures |r| == |records|
  {
    seq(|records|, i requires 0 <= i < |records| => SumBucket(Sum(records[i].reds)))
  }

  /** `sum(1 for ball in reds if ball % 2 == 1)` */
  function OddCount(reds: seq<int>): nat
  {
    Features.CountIf(reds, Features.IsOdd)
  }

  /** `f"{odd_count}:{6-odd_count}"` */
  function OddEvenLabel(reds: seq<int>): string
  {
    IntToString(OddCount(reds)) + ":" + IntToString(6 - OddCount(reds))
  }

  function OddEvenLabels(records: seq<Draw>): (r: seq<string>)
    ensures |r| == |records|
  {
    seq(|records|, i requires 0 <= i < |records| => OddEvenLabel(records[i].reds))
  }

  /** The Counters filled by the record loop, with their key orders. */
  datatype Tallies = Tallies(
    reds: map<int, int>, redOrder: seq<int>,
    blues: map<int, int>, blueOrder: seq<int>,
    sums: map<int, int>, sumOrder: seq<int>,
    oddEven: seq<string>)

  function TalliesOf(records: seq<Draw>): Tallies
  {
    Tallies(CountMap(AllReds(records)), Dedupe(AllReds(records)),
            CountMap(Blues(records)), Dedupe(Blues(records)),
            CountMap(SumBuckets(records)), Dedupe(SumBuckets(records)),
            OddEvenLabels(records))
  }

  datatype BasicStatistics = BasicStatistics(totalIssues: nat, tallies: Tallies, repeatCounts: seq<int>)

  /** `get_basic_statistics(limit)`: None (the empty dict) without records. */
  function BasicStatisticsOf(all: seq<Draw>, limit: int): Option<BasicStatistics>
  {
    var records := Database.RecentRecords(all, limit);
    if |records| == 0 then None
    else Some(BasicStatistics(|records|, TalliesOf(records), RepeatCounts(records)))
  }

  /** One pass of the record loop: record i goes into every Counter. */
  method TallyRecord(c: Tallies, records: seq<Draw>, i: int) returns (c': Tallies)
    requires 0 <= i < |records| && c == TalliesOf(records[..i])
    ensures c' == TalliesOf(records[..i + 1])
  {
    var rec := records[i];
    var reds, redOrder := Tally(c.reds, c.redOrder, AllReds(records[..i]), rec.reds);
    var blues, blueOrder := Increment(c.blues, c.blueOrder, Blues(records[..i]), rec.blue);
    var sums, sumOrder := Increment(c.sums, c.sumOrder, SumBuckets(records[..i]), SumBucket(Sum(rec.reds)));
    c' := Tallies(reds, redOrder, blues, blueOrder, sums, sumOrder, c.oddEven + [OddEvenLabel(rec.reds)]);
    PrefixStep(records, i);
    RecordPrefix(records, i);
  }

  lemma RecordPrefix(records: seq<Draw>, i: int)
    requires 0 <= i < |records|
    ensures Blues(records[..i + 1]) == Blues(records[..i]) + [records[i].blue]
    ensures SumBuckets(records[..i + 1]) == SumBuckets(records[..i]) + [SumBucket(Sum(records[i].reds))]
    ensures OddEvenLabels(records[..i + 1]) == OddEvenLabels(records[..i]) + [OddEvenLabel(records[i].reds)]
  {
    var p, q := records[..i], records[..i + 1];
    assert Blues(q) == Blues(p) + [records[i].blue];
    var s, s' := SumBuckets(p), SumBuckets(q);
    assert s' == s + [SumBucket(Sum(records[i].reds))] by {
      forall k | 0 <= k < |s'|
        ensures s'[k] == (s + [SumBucket(Sum(records[i].reds))])[k]
      {
        assert q[k] == records[k];
      }
    }
    LabelsPrefix(records, i);
  }

  lemma LabelsPrefix(records: seq<Draw>, i: int)
    requires 0 <= i < |records|
    ensures OddEvenLabels(records[..i + 1]) == OddEvenLabels(records[..i]) + [OddEvenLabel(records[i].reds)]
  {
    var l, l' := OddEvenLabels(records[..i]), OddEvenLabels(records[..i + 1]);
    var e := OddEvenLabel(records[i].reds);
    forall k | 0 <= k < |l'|
      ensures l'[k] == (l + [e])[k]
    {
      if k < i {
        assert l'[k] == OddEvenLabel(records[k].reds) == l[k];
      }
    }
  }

  /** `get_basic_statistics` as the source computes it: the record loop, then the repeat loop. */
  method GetBasicStatistics(all: seq<Draw>, limit: int) returns (r: Option<BasicStatistics>)
    ensures r == BasicStatisticsOf(all, limit)
  {
    var records := Database.RecentRecords(all, limit);
    if |records| == 0 {
      return None;
    }
    var c := TalliesOf([]);
    assert records[..0] == [];
    var i := 0;
    while i < |records|
      invariant 0 <= i <= |records|
      invariant c == TalliesOf(records[..i])
    {
      c := TallyRecord(c, records, i);
      i := i + 1;
    }
    assert records[..|records|] == records;
    var repeats: seq<int> := [];
    var j := 1;
    while j < |records|
      invariant 1 <= j <= |records|
      invariant |repeats| == j - 1
      invariant forall k :: 0 <= k < j - 1 ==> repeats[k] == Overlap(records[k].reds, records[k + 1].reds)
    {
      repeats := repeats + [Overlap(records[j - 1].reds, records[j].reds)];
      j := j + 1;
    }
    assert repeats == RepeatCounts(records);
    r := Some(BasicStatistics(|records|, c, repeats));
  }

  lemma {:induction false} SumBucketsBounds(records: seq<Draw>)
    requires RedsInRange(records)
    ensures forall i :: 0 <= i < |records| ==> 0 <= SumBuckets(records)[i] <= 190
  {
    forall i | 0 <= i < |records|
      ensures 0 <= SumBuckets(records)[i] <= 190
    {
      SumBounds(records[i].reds, 1, RedMax);
    }
  }

  /** Every record lands in one of the sum buckets 0..190. */
  lemma SumBucketsTotal(records: seq<Draw>)
    requires RedsInRange(records)
    ensures KeySum(CountMap(SumBuckets(records)), 0, 190) == |records|
  {
    CountMapKeySum(SumBuckets(records), 0, 190);
    SumBucketsBounds(records);
    CountSumAll(SumBuckets(records), 0, 190);
  }

  lemma {:induction false} OddCountBound(reds: seq<int>)
    ensures OddCount(reds) <= |reds|
  {
    Features.CountIfBound(reds, Features.IsOdd);
  }

  /**
   * Over valid records: the red distribution totals six per record, the
   * blue distribution and the sum buckets one per record, there is one
   * odd:even label per record with the two parts adding up to six, and
   * one repeat count (0..6) per adjacent pair.
   */
  lemma BasicStatisticsFacts(all: seq<Draw>, limit: int)
    requires RedsInRange(all) && BluesInRange(all)
    ensures BasicStatisticsOf(all, limit).None? <==> limit <= 0 || |all| == 0
    ensures BasicStatisticsOf(all, limit).Some? ==>
      var s := BasicStatisticsOf(all, limit).value;
      var n := s.totalIssues;
      n == |Database.RecentRecords(all, limit)| &&
      KeySum(s.tallies.reds, 1, RedMax) == 6 * n &&
      KeySum(s.tallies.blues, 1, BlueMax) == n &&
      KeySum(s.tallies.sums, 0, 190) == n &&
      |s.tallies.oddEven| == n &&
      |s.repeatCounts| == n - 1 &&
      forall i :: 0 <= i < n - 1 ==> 0 <= s.repeatCounts[i] <= 6
  {
    var records := Database.RecentRecords(all, limit);
    if |records| > 0 {
      assert RedsInRange(records) && BluesInRange(records);
      CountMapKeySum(AllReds(records), 1, RedMax);
      RedConservation(records);
      CountMapKeySum(Blues(records), 1, BlueMax);
      BlueConservation(records);
      SumBucketsTotal(records);
      RepeatCountBounds(records);
    }
  }

  /** Each label is "o:e" with o odd reds and e = 6 - o even ones, o at most 6. */
  lemma OddEvenFacts(records: seq<Draw>, i: int)
    requires 0 <= i < |records|
    ensures OddEvenLabels(records)[i] ==
      IntToString(OddCount(records[i].reds)) + ":" + IntToString(6 - OddCount(records[i].reds))
    ensures 0 <= OddCount(records[i].reds) <= 6 && 6 - OddCount(records[i].reds) >= 0
  {
    OddCountBound(records[i].reds);
  }
}
