/**
 * The in-memory logic of the SQLite store: the field normalisation of
 * `save_records`, the argument guards of the record queries, and the
 * aggregation bodies, all over an explicit record list sorted newest
 * first (the store's `CAST(issue AS INTEGER) DESC`).
 */
module Database {
  import opened Common
  import opened Draws
  import opened Ranking
  import Probability
  import Models

  // ---------------------------------------------------------------------
  // save_records

  /** The optional calendar fields of a record as `save_records` receives them. */
  datatype DateFields = DateFields(
    weekdayNum: Option<int>, month: Option<int>, day: Option<int>, quarter: Option<int>,
    isWeekend: bool)

  /** The calendar columns written to the table. */
  datatype StoredDate = StoredDate(weekdayNum: int, month: int, day: int, quarter: int, isWeekend: int)

  /** `1 if v < lo else hi` for a value outside lo..hi, the value itself otherwise. */
  function ClampInto(v: int, lo: int, hi: int): (r: int)
    requires lo <= hi
    ensures lo <= r <= hi
    ensures v < lo ==> r == lo
    ensures v > hi ==> r == hi
    ensures lo <= v <= hi ==> r == v
  {
    if v < lo || v > hi then (if v < lo then lo else hi) else v
  }

  /** A weekday outside 0..6 reduced mod 7; Python's `%` by 7 is never negative, like Dafny's. */
  function Weekday(w: int): (r: int)
    ensures 0 <= r <= 6 && (w - r) % 7 == 0
    ensures 0 <= w <= 6 ==> r == w
  {
    if w < 0 || w > 6 then w % 7 else w
  }

  /**
   * The normalisation of one record's calendar fields: None becomes
   * weekday 0, month 1, day 1, quarter 1; a weekday outside 0..6 is
   * reduced mod 7 (Python's `%`, never negative); month, day and quarter
   * outside their ranges go to the nearer end.
   */
  function NormalizeDate(f: DateFields): (s: StoredDate)
    ensures 0 <= s.weekdayNum <= 6 && 1 <= s.month <= 12 && 1 <= s.day <= 31 && 1 <= s.quarter <= 4
  {
    var w := if f.weekdayNum.Some? then f.weekdayNum.value else 0;
    var m := if f.month.Some? then f.month.value else 1;
    var d := if f.day.Some? then f.day.value else 1;
    var q := if f.quarter.Some? then f.quarter.value else 1;
    StoredDate(Weekday(w), ClampInto(m, 1, 12), ClampInto(d, 1, 31), ClampInto(q, 1, 4),
               if f.isWeekend then 1 else 0)
  }

  /**
   * None takes the default, an in-range value is kept, a weekday is
   * reduced mod 7, and month, day and quarter go to the nearer end of
   * their range.
   */
  lemma NormalizeDateFacts(f: DateFields)
    ensures NormalizeDate(f).isWeekend == if f.isWeekend then 1 else 0
    ensures f.weekdayNum.None? ==> NormalizeDate(f).weekdayNum == 0
    ensures f.weekdayNum.Some? ==> (f.weekdayNum.value - NormalizeDate(f).weekdayNum) % 7 == 0
    ensures f.month.None? ==> NormalizeDate(f).month == 1
    ensures f.day.None? ==> NormalizeDate(f).day == 1
    ensures f.quarter.None? ==> NormalizeDate(f).quarter == 1
    ensures f.month.Some? && f.month.value < 1 ==> NormalizeDate(f).month == 1
    ensures f.month.Some? && f.month.value > 12 ==> NormalizeDate(f).month == 12
    ensures f.day.Some? && f.day.value < 1 ==> NormalizeDate(f).day == 1
    ensures f.day.Some? && f.day.value > 31 ==> NormalizeDate(f).day == 31
    ensures f.quarter.Some? && f.quarter.value < 1 ==> NormalizeDate(f).quarter == 1
    ensures f.quarter.Some? && f.quarter.value > 4 ==> NormalizeDate(f).quarter == 4
    ensures f.month.Some? && 1 <= f.month.value <= 12 ==> NormalizeDate(f).month == f.month.value
    ensures f.day.Some? && 1 <= f.day.value <= 31 ==> NormalizeDate(f).day == f.day.value
    ensures f.quarter.Some? && 1 <= f.quarter.value <= 4 ==> NormalizeDate(f).quarter == f.quarter.value
    ensures f.weekdayNum.Some? && 0 <= f.weekdayNum.value <= 6 ==> NormalizeDate(f).weekdayNum == f.weekdayNum.value
  {
  }

  /** The fields of a stored row read back as a record's calendar fields. */
  function Reloaded(s: StoredDate): DateFields
  {
    DateFields(Some(s.weekdayNum), Some(s.month), Some(s.day), Some(s.quarter), s.isWeekend != 0)
  }

  /** Saving a record read back from the table writes the same columns again. */
  lemma NormalizeIdempotent(f: DateFields)
    ensures NormalizeDate(Reloaded(NormalizeDate(f))) == NormalizeDate(f)
  {
  }

  /** The rows `save_records` writes: one per valid record, in order. */
  function SavedRows(records: seq<(Draw, DateFields)>): seq<(Draw, StoredDate)>
  {
    if |records| == 0 then []
    else
      var t := SavedRows(records[..|records| - 1]);
      var r := records[|records| - 1];
      if Models.IsValid(r.0) then t + [(r.0, NormalizeDate(r.1))] else t
  }

  /**
   * Invalid records are skipped and every valid record is written, with
   * normalised calendar fields, in input order.
   */
  lemma {:induction false} SavedRowsFacts(records: seq<(Draw, DateFields)>)
    ensures |SavedRows(records)| <= |records|
    ensures forall r :: r in SavedRows(records) ==> Models.IsValid(r.0)
    ensures forall x :: x in records && Models.IsValid(x.0) ==> (x.0, NormalizeDate(x.1)) in SavedRows(records)
    ensures forall r :: r in SavedRows(records) ==>
      exists x :: x in records && Models.IsValid(x.0) && r == (x.0, NormalizeDate(x.1))
  {
    if |records| > 0 {
      var t := records[..|records| - 1];
      SavedRowsFacts(t);
      assert records == t + [records[|records| - 1]];
      forall r | r in SavedRows(records)
        ensures exists x :: x in records && Models.IsValid(x.0) && r == (x.0, NormalizeDate(x.1))
      {
        if r in SavedRows(t) {
          var x :| x in t && Models.IsValid(x.0) && r == (x.0, NormalizeDate(x.1));
          assert x in records;
        } else {
          assert r == (records[|records| - 1].0, NormalizeDate(records[|records| - 1].1));
        }
      }
    }
  }

  /** The loop of `save_records`: skip invalid records, normalise and write the rest. */
  method SaveRecords(records: seq<(Draw, DateFields)>) returns (rows: seq<(Draw, StoredDate)>)
    ensures rows == SavedRows(records)
  {
    rows := [];
    var i := 0;
    while i < |records|
      invariant 0 <= i <= |records|
      invariant rows == SavedRows(records[..i])
    {
      assert records[..i + 1][..i] == records[..i];
      var (d, f) := records[i];
      if Models.IsValid(d) {
        rows := rows + [(d, NormalizeDate(f))];
      }
      i := i + 1;
    }
    assert records[..|records|] == records;
  }

  // ---------------------------------------------------------------------
  // Argument guards

  /**
   * `get_recent_records(limit)`: nothing for a non-positive limit (no
   * query is made), otherwise the first `limit` rows of the newest-first
   * list.
   */
  function RecentRecords(all: seq<Draw>, limit: int): (r: seq<Draw>)
    ensures limit <= 0 ==> r == []
    ensures limit > 0 ==> r == all[..Min(limit, |all|)]
    ensures |r| == if limit <= 0 then 0 else Min(limit, |all|)
  {
    if limit <= 0 then [] else all[..Min(limit, |all|)]
  }

  /**
   * The bounds `get_records_by_issue_range` queries with: both issues as
   * integers, smaller first; None (the empty result) when either is not
   * an integer.
   */
  function IssueRangeBounds(startIssue: string, endIssue: string): (r: Option<(int, int)>)
    ensures r.None? <==> PyInt(startIssue).None? || PyInt(endIssue).None?
    ensures r.Some? ==> r.value.0 <= r.value.1
    ensures r.Some? ==> r.value.0 == Min(PyInt(startIssue).value, PyInt(endIssue).value)
    ensures r.Some? ==> r.value.1 == Max(PyInt(startIssue).value, PyInt(endIssue).value)
  {
    match (PyInt(startIssue), PyInt(endIssue))
    case (Some(a), Some(b)) => Some(if a > b then (b, a) else (a, b))
    case _ => None
  }

  /** The zero-filled red Counter of `_count_red_balls`. */
  function RedCounter(records: seq<Draw>): map<int, int>
  {
    ZeroFilled(CountMap(AllReds(records)), 1, RedMax)
  }

  /** The ranking `sorted(red_counts.items(), key=lambda x: (-x[1], x[0]))`. */
  function Ranked(records: seq<Draw>): seq<int>
  {
    RankByCount(ZeroFilledOrder(records), RedCounter(records))
  }

  /** The ranking of valid records lists each ball 1..33 once. */
  lemma RankedFacts(records: seq<Draw>)
    requires RedsInRange(records)
    ensures Distinct(Ranked(records)) && |Ranked(records)| == RedMax
    ensures forall b :: b in Ranked(records) <==> IsRed(b)
  {
    var keys := ZeroFilledOrder(records);
    ZeroFilledOrderFacts(records);
    RankByCountFacts(keys, RedCounter(records));
    var r := Ranked(records);
    forall b
      ensures b in r <==> IsRed(b)
    {
      assert b in r <==> b in multiset(r);
      assert b in keys <==> b in multiset(keys);
    }
  }

  lemma RankedOrder(records: seq<Draw>)
    requires RedsInRange(records)
    ensures var r := Ranked(records); var cnt := RedCounter(records);
      forall i, j :: 0 <= i < j < |r| ==>
        Get(cnt, r[i]) > Get(cnt, r[j]) || (Get(cnt, r[i]) == Get(cnt, r[j]) && r[i] < r[j])
  {
    var keys := ZeroFilledOrder(records);
    ZeroFilledOrderFacts(records);
    RankByCountFacts(keys, RedCounter(records));
  }


  /**
   * With fewer than 20 draws: the tier of a ball drawn `count` times in
   * `n` draws, against the average n·6/33 (hot from 1.2 times it, cold up
   * to half of it).
   */
  function SmallTier(count: int, n: int): Tier
  {
    var avg := SmallAverage(n);
    if count as real >= avg * 1.2 then Hot
    else if count as real <= avg * 0.5 then Cold
    else Warm
  }

  /** The balls of tier t among 1..33, ascending, as the loop over `range(1, 34)` appends them. */
  function SmallTierBalls(counts: map<int, int>, n: int, t: Tier): seq<int>
  {
    Filter(Range(1, RedMax + 1), InTier(counts, n, t))
  }

  /** Whether a ball falls in tier t under the small-window rule. */
  function InTier(counts: map<int, int>, n: int, t: Tier): int -> bool
  {
    b => SmallTier(Get(counts, b), n) == t
  }

  /** `sum_trend`: the last sum against the one before it, 稳定 with fewer than two. */
  function PeriodSumTrend(sums: seq<int>): string
  {
    if |sums| >= 2 && sums[|sums| - 1] > sums[|sums| - 2] then "上升"
    else if |sums| >= 2 && sums[|sums| - 1] < sums[|sums| - 2] then "下降"
    else "稳定"
  }

  datatype PeriodStats = PeriodStats(
    period: int, totalGames: nat,
    hot: seq<int>, warm: seq<int>, cold: seq<int>,
    sumTrend: string, avgSum: real,
    redFrequencies: map<int, int>, blueFrequencies: map<int, int>,
    recentSums: seq<int>)

  /** `sums[-10:] if len(sums) >= 10 else sums` */
  function LastTen(sums: seq<int>): seq<int>
  {
    if |sums| >= 10 then sums[|sums| - 10..] else sums
  }

  /**
   * `get_statistics_with_period`: None (the empty dict) when the recent
   * records are empty; otherwise the tiers (by threshold below 20 draws,
   * by rank from 20 on), the sum trend and mean, the frequencies and the
   * last ten sums.
   */
  function StatisticsWithPeriod(all: seq<Draw>, period: int): Option<PeriodStats>
  {
    var recent := RecentRecords(all, period);
    if |recent| == 0 then None
    else
      var n := |recent|;
      var counts := RedCounter(recent);
      var sums := RedSums(recent);
      var rk := Ranked(recent);
      Some(PeriodStats(
        period, n,
        if n < 20 then SmallTierBalls(counts, n, Hot) else Slice(rk, 0, 11),
        if n < 20 then SmallTierBalls(counts, n, Warm) else Slice(rk, 11, 22),
        if n < 20 then SmallTierBalls(counts, n, Cold) else Slice(rk, 22, 33),
        PeriodSumTrend(sums), Sum(sums) as real / n as real,
        counts, CountMap(Blues(recent)), LastTen(sums)))
  }

  /** The counting loop: red and blue Counters and the per-record sums. */
  method Aggregate(records: seq<Draw>)
    returns (redCounts: map<int, int>, redOrder: seq<int>, blueCounts: map<int, int>, blueOrder: seq<int>,
             sums: seq<int>)
    ensures redCounts == CountMap(AllReds(records)) && redOrder == Dedupe(AllReds(records))
    ensures blueCounts == CountMap(Blues(records)) && blueOrder == Dedupe(Blues(records))
    ensures sums == RedSums(records)
  {
    redCounts, redOrder, blueCounts, blueOrder, sums := map[], [], map[], [], [];
    var i := 0;
    while i < |records|
      invariant 0 <= i <= |records|
      invariant redCounts == CountMap(AllReds(records[..i])) && redOrder == Dedupe(AllReds(records[..i]))
      invariant blueCounts == CountMap(Blues(records[..i])) && blueOrder == Dedupe(Blues(records[..i]))
      invariant sums == RedSums(records[..i])
    {
      var record := records[i];
      redCounts, redOrder := Tally(redCounts, redOrder, AllReds(records[..i]), record.reds);
      blueCounts, blueOrder := Increment(blueCounts, blueOrder, Blues(records[..i]), record.blue);
      sums := sums + [Sum(record.reds)];
      AggregateStep(records, i);
      i := i + 1;
    }
    assert records[..|records|] == records;
  }

  /** One more record extends each accumulated list by that record's entries. */
  lemma AggregateStep(records: seq<Draw>, i: int)
    requires 0 <= i < |records|
    ensures AllReds(records[..i + 1]) == AllReds(records[..i]) + records[i].reds
    ensures Blues(records[..i + 1]) == Blues(records[..i]) + [records[i].blue]
    ensures RedSums(records[..i + 1]) == RedSums(records[..i]) + [Sum(records[i].reds)]
  {
    PrefixStep(records, i);
  }

  /** The classification loop over `range(1, 34)` for fewer than 20 draws. */
  method SmallSplit(counts: map<int, int>, n: int) returns (hot: seq<int>, warm: seq<int>, cold: seq<int>)
    ensures hot == SmallTierBalls(counts, n, Hot)
    ensures warm == SmallTierBalls(counts, n, Warm)
    ensures cold == SmallTierBalls(counts, n, Cold)
  {
    hot, warm, cold := [], [], [];
    var avg := (n * 6) as real / 33.0;
    var ball := 1;
    while ball < RedMax + 1
      invariant 1 <= ball <= RedMax + 1
      invariant hot == Filter(Range(1, ball), InTier(counts, n, Hot))
      invariant warm == Filter(Range(1, ball), InTier(counts, n, Warm))
      invariant cold == Filter(Range(1, ball), InTier(counts, n, Cold))
    {
      SmallStep(counts, n, ball);
      var count := Get(counts, ball);
      if count as real >= avg * 1.2 {
        hot := hot + [ball];
      } else if count as real <= avg * 0.5 {
        cold := cold + [ball];
      } else {
        warm := warm + [ball];
      }
      ball := ball + 1;
    }
  }

  /** Ball b joins exactly the tier it falls in. */
  lemma SmallStep(counts: map<int, int>, n: int, b: int)
    requires 1 <= b
    ensures forall t: Tier ::
      Filter(Range(1, b + 1), InTier(counts, n, t)) ==
      Filter(Range(1, b), InTier(counts, n, t)) + (if SmallTier(Get(counts, b), n) == t then [b] else [])
  {
    RangeSnoc(1, b);
  }

  lemma RangeSnoc(lo: int, hi: int)
    requires lo <= hi
    ensures Range(lo, hi + 1) == Range(lo, hi) + [hi]
    ensures Range(lo, hi + 1)[..|Range(lo, hi + 1)| - 1] == Range(lo, hi)
  {
    assert Range(lo, hi + 1) == Range(lo, hi) + [hi];
  }

  /** `get_statistics_with_period` step by step. */
  method GetStatisticsWithPeriod(all: seq<Draw>, period: int) returns (r: Option<PeriodStats>)
    ensures r == StatisticsWithPeriod(all, period)
  {
    var recent := RecentRecords(all, period);
    if |recent| == 0 {
      return None;
    }
    var n := |recent|;
    var redCounts, redOrder, blueCounts, blueOrder, sums := Aggregate(recent);
    redCounts, redOrder := ZeroFill(redCounts, redOrder, 1, RedMax);
    var hot, warm, cold;
    if n < 20 {
      hot, warm, cold := SmallSplit(redCounts, n);
    } else {
      var sorted := RankByCount(redOrder, redCounts);
      hot, warm, cold := Slice(sorted, 0, 11), Slice(sorted, 11, 22), Slice(sorted, 22, 33);
    }
    r := Some(PeriodStats(period, n, hot, warm, cold, PeriodSumTrend(sums), Sum(sums) as real / n as real,
                          redCounts, blueCounts, LastTen(sums)));
  }

  /** The average n·6/33 the small-window rule compares against. */
  function SmallAverage(n: int): real
  {
    (n * 6) as real / 33.0
  }

  /**
   * Below 20 draws the three tiers are ascending and split 1..33: a ball
   * is hot when drawn at least 1.2 times the average n·6/33, otherwise
   * cold when drawn at most half of it, otherwise warm.
   */
  lemma SmallSplitFacts(records: seq<Draw>)
    ensures var n := |records|; var c := RedCounter(records);
      var hot := SmallTierBalls(c, n, Hot);
      var warm := SmallTierBalls(c, n, Warm);
      var cold := SmallTierBalls(c, n, Cold);
      Ascending(hot) && Ascending(warm) && Ascending(cold) &&
      (forall b :: b in hot <==> IsRed(b) && RedCount(records, b) as real >= SmallAverage(n) * 1.2) &&
      (forall b :: b in cold <==> (IsRed(b) && RedCount(records, b) as real < SmallAverage(n) * 1.2 &&
                                   RedCount(records, b) as real <= SmallAverage(n) * 0.5)) &&
      (forall b :: b in warm <==> (IsRed(b) && RedCount(records, b) as real < SmallAverage(n) * 1.2 &&
                                   RedCount(records, b) as real > SmallAverage(n) * 0.5))
  {
    var n := |records|;
    var c := RedCounter(records);
    var xs := AllReds(records);
    CountMapFacts(xs);
    RangeFacts(1, RedMax + 1);
    var r := Range(1, RedMax + 1);
    forall t: Tier
      ensures Ascending(SmallTierBalls(c, n, t))
      ensures forall b :: b in SmallTierBalls(c, n, t) <==> IsRed(b) && SmallTier(RedCount(records, b), n) == t
    {
      var p := InTier(c, n, t);
      FilterFacts(r, p);
      FilterSubsequence(r, p);
      forall b | IsRed(b)
        ensures Get(c, b) == RedCount(records, b)
      {
      }
    }
  }

  /** Each ball 1..33 in exactly one of three lists, and nothing else listed. */
  ghost predicate Partition(hot: seq<int>, warm: seq<int>, cold: seq<int>)
  {
    (forall b :: IsRed(b) ==>
      (b in hot && b !in warm && b !in cold) ||
      (b !in hot && b in warm && b !in cold) ||
      (b !in hot && b !in warm && b in cold)) &&
    (forall b :: b in hot || b in warm || b in cold ==> IsRed(b))
  }

  /** Hot + warm + cold in descending count order, equal counts by ascending ball. */
  predicate RankOrdered(rk: seq<int>, records: seq<Draw>)
  {
    forall i, j :: 0 <= i < j < |rk| ==>
      RedCount(records, rk[i]) > RedCount(records, rk[j]) ||
      (RedCount(records, rk[i]) == RedCount(records, rk[j]) && rk[i] < rk[j])
  }

  /** The threshold tiers of valid records partition 1..33. */
  lemma SmallSplitPartition(records: seq<Draw>)
    ensures var n := |records|; var c := RedCounter(records);
      Partition(SmallTierBalls(c, n, Hot), SmallTierBalls(c, n, Warm), SmallTierBalls(c, n, Cold))
  {
    SmallSplitFacts(records);
  }

  /** The rank tiers of valid records: eleven each, partitioning 1..33, in rank order. */
  lemma RankSplitFacts(records: seq<Draw>)
    requires RedsInRange(records)
    ensures var rk := Ranked(records);
      var hot := Slice(rk, 0, 11); var warm := Slice(rk, 11, 22); var cold := Slice(rk, 22, 33);
      |hot| == 11 && |warm| == 11 && |cold| == 11 &&
      Partition(hot, warm, cold) && RankOrdered(hot + warm + cold, records)
  {
    RankedFacts(records);
    RankedOrder(records);
    var rk := Ranked(records);
    ElevenSplit(rk);
    assert rk[..11] + rk[11..22] + rk[22..33] == rk;
    CountMapFacts(AllReds(records));
  }

  /**
   * Over valid records each ball 1..33 lands in exactly one tier and no
   * other ball is listed; from 20 draws on the tiers hold eleven balls
   * each, ranked by count descending and then by ball.
   */
  lemma StatisticsTiers(all: seq<Draw>, period: int)
    requires RedsInRange(all)
    ensures var r := StatisticsWithPeriod(all, period);
      r.Some? ==> Partition(r.value.hot, r.value.warm, r.value.cold)
    ensures var r := StatisticsWithPeriod(all, period);
      r.Some? && r.value.totalGames >= 20 ==>
        |r.value.hot| == 11 && |r.value.warm| == 11 && |r.value.cold| == 11 &&
        RankOrdered(r.value.hot + r.value.warm + r.value.cold, all[..r.value.totalGames])
  {
    var recent := RecentRecords(all, period);
    if |recent| > 0 {
      assert RedsInRange(recent);
      if |recent| < 20 {
        SmallSplitPartition(recent);
      } else {
        RankSplitFacts(recent);
      }
    }
  }

  /**
   * The frequencies: ball b of 1..33 maps to its red count, and over valid
   * records the red counts add up to six per draw and the blue counts to
   * one per draw.
   */
  lemma StatisticsCounts(all: seq<Draw>, period: int)
    requires RedsInRange(all) && BluesInRange(all)
    ensures var r := StatisticsWithPeriod(all, period);
      r.Some? ==>
        var recent := all[..r.value.totalGames];
        (forall b :: IsRed(b) ==> b in r.value.redFrequencies && r.value.redFrequencies[b] == RedCount(recent, b)) &&
        KeySum(r.value.redFrequencies, 1, RedMax) == 6 * r.value.totalGames &&
        KeySum(r.value.blueFrequencies, 1, BlueMax) == r.value.totalGames
  {
    var recent := RecentRecords(all, period);
    if |recent| > 0 {
      assert RedsInRange(recent) && BluesInRange(recent);
      RedFrequencies(recent);
      BlueFrequencies(recent);
    }
  }

  lemma RedFrequencies(recent: seq<Draw>)
    requires RedsInRange(recent)
    ensures forall b :: IsRed(b) ==> b in RedCounter(recent) && RedCounter(recent)[b] == RedCount(recent, b)
    ensures KeySum(RedCounter(recent), 1, RedMax) == 6 * |recent|
  {
    var xs := AllReds(recent);
    CountMapFacts(xs);
    KeySumIsCountSum(RedCounter(recent), xs, 1, RedMax);
    RedConservation(recent);
  }

  lemma BlueFrequencies(recent: seq<Draw>)
    requires BluesInRange(recent)
    ensures KeySum(CountMap(Blues(recent)), 1, BlueMax) == |recent|
  {
    var bs := Blues(recent);
    CountMapFacts(bs);
    BlueKeySum(CountMap(bs), bs, 1, BlueMax);
    BlueConservation(recent);
  }

  /** Summing a Counter that holds only the values it counted. */
  lemma {:induction false} BlueKeySum(m: map<int, int>, xs: seq<int>, lo: int, hi: int)
    requires forall b :: Get(m, b) == multiset(xs)[b]
    ensures KeySum(m, lo, hi) == CountSum(xs, lo, hi)
    decreases hi - lo
  {
    if hi >= lo {
      BlueKeySum(m, xs, lo, hi - 1);
    }
  }

  /** 上升 / 下降 exactly when the last sum is above / below the one before, else 稳定. */
  lemma PeriodSumTrendFacts(sums: seq<int>)
    ensures var t := PeriodSumTrend(sums); var n := |sums|;
      (t == "上升" <==> n >= 2 && sums[n - 1] > sums[n - 2]) &&
      (t == "下降" <==> n >= 2 && sums[n - 1] < sums[n - 2]) &&
      (t == "稳定" <==> n < 2 || sums[n - 1] == sums[n - 2])
  {
  }

  /** The last min(10, n) sums. */
  lemma LastTenFacts(sums: seq<int>)
    ensures |LastTen(sums)| == Min(10, |sums|)
    ensures LastTen(sums) == sums[|sums| - |LastTen(sums)|..]
  {
  }

  /**
   * None exactly when no record is selected; otherwise min(period, n)
   * draws, the mean of their sums, the sum trend and the last ten sums.
   */
  lemma StatisticsSums(all: seq<Draw>, period: int)
    ensures var r := StatisticsWithPeriod(all, period);
      (r.None? <==> period <= 0 || |all| == 0) &&
      (r.Some? ==>
        var n := r.value.totalGames;
        n == Min(period, |all|) &&
        r.value.avgSum == Sum(RedSums(all[..n])) as real / n as real &&
        r.value.sumTrend == PeriodSumTrend(RedSums(all[..n])) &&
        r.value.recentSums == LastTen(RedSums(all[..n])))
  {
    var recent := RecentRecords(all, period);
    var r := StatisticsWithPeriod(all, period);
    if |recent| > 0 {
      var n := |recent|;
      var sums := RedSums(recent);
      assert r.value.totalGames == n && all[..n] == recent;
    }
  }

  // ---------------------------------------------------------------------
  // get_repeat_probability_analysis

  datatype RepeatAnalysis = RepeatAnalysis(
    totalPairs: nat,
    repeatDistribution: map<int, int>,
    repeatProbabilities: map<int, real>,
    positionProbabilities: seq<map<int, real>>,
    blueRepeatProbabilities: map<int, real>)

  /**
   * The values counted into `position_repeats[pos]`: for each adjacent
   * pair whose column pos holds the same ball, that ball.
   */
  function ColumnRepeats(draws: seq<Draw>, pos: int): seq<int>
    requires 0 <= pos < 6
  {
    if |draws| <= 1 then []
    else
      var t := ColumnRepeats(draws[..|draws| - 1], pos);
      var a, b := draws[|draws| - 2], draws[|draws| - 1];
      if a.reds[pos] == b.reds[pos] then t + [a.reds[pos]] else t
  }

  /** The values counted into `blue_repeats`: the blue of each pair that repeats it. */
  function BlueRepeatValues(draws: seq<Draw>): seq<int>
  {
    if |draws| <= 1 then []
    else
      var t := BlueRepeatValues(draws[..|draws| - 1]);
      var a, b := draws[|draws| - 2], draws[|draws| - 1];
      if a.blue == b.blue then t + [a.blue] else t
  }

  /** `{k: c / total for k, c in counter.items()}`: a share per counted key. */
  function CounterShares(m: map<int, int>, total: int): map<int, real>
  {
    map k | k in m :: Ratio(m[k], total)
  }

  /** The column Counters' shares, one map per red column. */
  function PositionShares(draws: seq<Draw>): (r: seq<map<int, real>>)
    ensures |r| == 6
  {
    seq(6, pos requires 0 <= pos < 6 =>
      var vs := ColumnRepeats(draws, pos);
      CounterShares(CountMap(vs), |vs|))
  }

  /**
   * `get_repeat_probability_analysis` over all records: None (the empty
   * dict) below two records; otherwise the distribution of shared-red
   * counts over the adjacent pairs, their shares (only the counts that
   * occur), the per-column repeat shares and the blue repeat shares.
   */
  function RepeatProbabilityAnalysis(all: seq<Draw>): Option<RepeatAnalysis>
  {
    if |all| < 2 then None
    else
      var n := |all| - 1;
      var dist := CountMap(RepeatCounts(all));
      Some(RepeatAnalysis(n, dist, CounterShares(dist, n), PositionShares(all),
                          CounterShares(CountMap(BlueRepeatValues(all)), n)))
  }

  /** Draws i and i + 1 both hold x in column pos. */
  predicate ColumnRepeatAt(draws: seq<Draw>, pos: int, i: int, x: int)
    requires 0 <= pos < 6
  {
    0 <= i < |draws| - 1 && draws[i].reds[pos] == x && draws[i + 1].reds[pos] == x
  }

  /** A ball is counted for column pos exactly when some adjacent pair repeats it there. */
  lemma {:induction false} ColumnRepeatsFacts(draws: seq<Draw>, pos: int)
    requires 0 <= pos < 6
    ensures |ColumnRepeats(draws, pos)| <= if |draws| == 0 then 0 else |draws| - 1
    ensures forall x :: x in ColumnRepeats(draws, pos) <==> exists i :: ColumnRepeatAt(draws, pos, i, x)
  {
    if |draws| > 1 {
      var t := draws[..|draws| - 1];
      var last := |draws| - 2;
      ColumnRepeatsFacts(t, pos);
      forall x
        ensures x in ColumnRepeats(draws, pos) <==> exists i :: ColumnRepeatAt(draws, pos, i, x)
      {
        if x in ColumnRepeats(draws, pos) && x !in ColumnRepeats(t, pos) {
          assert ColumnRepeatAt(draws, pos, last, x);
        }
        if x in ColumnRepeats(t, pos) {
          var i :| ColumnRepeatAt(t, pos, i, x);
          assert t[i] == draws[i] && t[i + 1] == draws[i + 1];
          assert ColumnRepeatAt(draws, pos, i, x);
        }
        if exists i :: ColumnRepeatAt(draws, pos, i, x) {
          var i :| ColumnRepeatAt(draws, pos, i, x);
          if i < last {
            assert t[i] == draws[i] && t[i + 1] == draws[i + 1];
            assert ColumnRepeatAt(t, pos, i, x);
          }
        }
      }
    }
  }

  /** A blue is counted exactly when some adjacent pair repeats it. */
  lemma {:induction false} BlueRepeatValuesFacts(draws: seq<Draw>)
    ensures |BlueRepeatValues(draws)| <= if |draws| == 0 then 0 else |draws| - 1
    ensures forall x :: x in BlueRepeatValues(draws) <==>
      exists i :: 0 <= i < |draws| - 1 && draws[i].blue == draws[i + 1].blue && draws[i].blue == x
  {
    if |draws| > 1 {
      var t := draws[..|draws| - 1];
      BlueRepeatValuesFacts(t);
      forall x
        ensures x in BlueRepeatValues(draws) <==>
          exists i :: 0 <= i < |draws| - 1 && draws[i].blue == draws[i + 1].blue && draws[i].blue == x
      {
        if x in BlueRepeatValues(draws) && x !in BlueRepeatValues(t) {
          var i := |draws| - 2;
          assert draws[i].blue == draws[i + 1].blue && draws[i].blue == x;
        }
        if exists i :: 0 <= i < |draws| - 1 && draws[i].blue == draws[i + 1].blue && draws[i].blue == x {
          var i :| 0 <= i < |draws| - 1 && draws[i].blue == draws[i + 1].blue && draws[i].blue == x;
          if i < |draws| - 2 {
            assert t[i] == draws[i] && t[i + 1] == draws[i + 1];
          }
        }
      }
    }
  }

  /** The shares of the keys lo..hi add up to the share of the values in lo..hi. */
  lemma {:induction false} CounterSharesPartial(xs: seq<int>, t: int, lo: int, hi: int)
    requires t > 0
    ensures Probability.RealKeySum(CounterShares(CountMap(xs), t), lo, hi) == Ratio(CountSum(xs, lo, hi), t)
    decreases hi - lo
  {
    if hi >= lo {
      CounterSharesPartial(xs, t, lo, hi - 1);
      CountMapFacts(xs);
      RatioAdd(CountSum(xs, lo, hi - 1), multiset(xs)[hi], t);
    }
  }

  /**
   * The shares of a Counter of values in lo..hi over a positive total:
   * each a ratio in (0, |xs|/t], adding up to |xs|/t over lo..hi.
   */
  lemma CounterSharesFacts(xs: seq<int>, t: int, lo: int, hi: int)
    requires 0 < |xs| <= t
    requires forall i :: 0 <= i < |xs| ==> lo <= xs[i] <= hi
    ensures forall k :: k in CounterShares(CountMap(xs), t) <==> k in xs
    ensures forall k :: k in CounterShares(CountMap(xs), t) ==> 0.0 < CounterShares(CountMap(xs), t)[k] <= 1.0
    ensures Probability.RealKeySum(CounterShares(CountMap(xs), t), lo, hi) == Ratio(|xs|, t)
    ensures 0.0 < Ratio(|xs|, t) <= 1.0
  {
    CountMapFacts(xs);
    forall k | k in CounterShares(CountMap(xs), t)
      ensures 0.0 < CounterShares(CountMap(xs), t)[k] <= 1.0
    {
      assert k in multiset(xs);
      MultiplicityBound(xs, k);
      RatioUnit(multiset(xs)[k], t);
    }
    CounterSharesPartial(xs, t, lo, hi);
    CountSumAll(xs, lo, hi);
    RatioUnit(|xs|, t);
  }

  /**
   * Below two records the result is None; otherwise there are n - 1
   * pairs, the shared-red shares are keyed by exactly the counts that
   * occur (all in 0..6) and add up to one.
   */
  lemma RepeatAnalysisFacts(all: seq<Draw>)
    ensures RepeatProbabilityAnalysis(all).None? <==> |all| < 2
    ensures var r := RepeatProbabilityAnalysis(all);
      r.Some? ==>
        r.value.totalPairs == |all| - 1 &&
        (forall k :: k in r.value.repeatProbabilities <==> k in RepeatCounts(all)) &&
        (forall k :: k in r.value.repeatProbabilities ==> 0 <= k <= 6) &&
        (forall k :: k in r.value.repeatProbabilities ==> 0.0 < r.value.repeatProbabilities[k] <= 1.0) &&
        Probability.RealKeySum(r.value.repeatProbabilities, 0, 6) == 1.0 &&
        (forall k :: Get(r.value.repeatDistribution, k) == multiset(RepeatCounts(all))[k])
  {
    if |all| >= 2 {
      var rc := RepeatCounts(all);
      RepeatCountBounds(all);
      CounterSharesFacts(rc, |all| - 1, 0, 6);
      RatioUnit(|all| - 1, |all| - 1);
      CountMapFacts(rc);
      forall k | k in rc
        ensures 0 <= k <= 6
      {
        var i :| 0 <= i < |rc| && rc[i] == k;
      }
    }
  }

  /**
   * Column pos: its shares are keyed by the balls some adjacent pair
   * repeats in that column, and for valid records they add up to one
   * whenever the column repeated at all.
   */
  lemma PositionSharesFacts(all: seq<Draw>, pos: int)
    requires 0 <= pos < 6
    ensures var pp := PositionShares(all)[pos];
      (forall x :: x in pp <==> exists i :: ColumnRepeatAt(all, pos, i, x)) &&
      (forall x :: x in pp ==> 0.0 < pp[x] <= 1.0)
    ensures RedsInRange(all) && pos < 6 && |PositionShares(all)[pos]| > 0 ==>
      Probability.RealKeySum(PositionShares(all)[pos], 1, RedMax) == 1.0
  {
    var vs := ColumnRepeats(all, pos);
    ColumnRepeatsFacts(all, pos);
    CountMapFacts(vs);
    if |vs| > 0 {
      if RedsInRange(all) {
        forall i | 0 <= i < |vs|
          ensures 1 <= vs[i] <= RedMax
        {
          assert vs[i] in vs;
        }
        CounterSharesFacts(vs, |vs|, 1, RedMax);
        RatioUnit(|vs|, |vs|);
      } else {
        forall x | x in CounterShares(CountMap(vs), |vs|)
          ensures 0.0 < CounterShares(CountMap(vs), |vs|)[x] <= 1.0
        {
          assert x in multiset(vs);
          MultiplicityBound(vs, x);
          RatioUnit(multiset(vs)[x], |vs|);
        }
      }
    }
  }

  /**
   * Blue: keyed by the blues some adjacent pair repeats; for valid records
   * the shares add up to the fraction of pairs that repeat the blue.
   */
  lemma BlueSharesFacts(all: seq<Draw>)
    requires |all| >= 2
    ensures var bp := RepeatProbabilityAnalysis(all).value.blueRepeatProbabilities;
      (forall x :: x in bp <==> exists i :: 0 <= i < |all| - 1 && all[i].blue == all[i + 1].blue && all[i].blue == x) &&
      (forall x :: x in bp ==> 0.0 < bp[x] <= 1.0) &&
      (BluesInRange(all) ==>
        Probability.RealKeySum(bp, 1, BlueMax) == Ratio(|BlueRepeatValues(all)|, |all| - 1) &&
        Probability.RealKeySum(bp, 1, BlueMax) <= 1.0)
  {
    var vs := BlueRepeatValues(all);
    var n := |all| - 1;
    assert RepeatProbabilityAnalysis(all).value.blueRepeatProbabilities == CounterShares(CountMap(vs), n);
    BlueRepeatValuesFacts(all);
    BlueShares(vs, n);
    if BluesInRange(all) {
      forall i | 0 <= i < |vs|
        ensures 1 <= vs[i] <= BlueMax
      {
        assert vs[i] in vs;
      }
      BlueSharesSum(vs, n);
    }
  }

  lemma BlueShares(vs: seq<int>, n: int)
    requires |vs| <= n
    ensures forall x :: x in CounterShares(CountMap(vs), n) <==> x in vs
    ensures forall x :: x in CounterShares(CountMap(vs), n) ==> 0.0 < CounterShares(CountMap(vs), n)[x] <= 1.0
  {
    CountMapFacts(vs);
    forall x | x in CounterShares(CountMap(vs), n)
      ensures 0.0 < CounterShares(CountMap(vs), n)[x] <= 1.0
    {
      assert x in multiset(vs);
      MultiplicityBound(vs, x);
      RatioUnit(multiset(vs)[x], n);
    }
  }

  lemma BlueSharesSum(vs: seq<int>, n: int)
    requires |vs| <= n && n > 0
    requires forall i :: 0 <= i < |vs| ==> 1 <= vs[i] <= BlueMax
    ensures Probability.RealKeySum(CounterShares(CountMap(vs), n), 1, BlueMax) == Ratio(|vs|, n) <= 1.0
  {
    CounterSharesPartial(vs, n, 1, BlueMax);
    CountSumAll(vs, 1, BlueMax);
    RatioUnit(|vs|, n);
  }

  /** `sum(counter.values())`, the values summed in the Counter's key order. */
  function CounterTotal(order: seq<int>, counts: map<int, int>): int
  {
    if |order| == 0 then 0 else CounterTotal(order[..|order| - 1], counts) + Get(counts, order[|order| - 1])
  }

  /** A Counter's values add up to the number of values counted into it. */
  lemma {:induction false} CounterTotalIsLength(xs: seq<int>)
    ensures CounterTotal(Dedupe(xs), CountMap(xs)) == |xs|
  {
    if |xs| > 0 {
      var t := xs[..|xs| - 1];
      var x := xs[|xs| - 1];
      CounterTotalIsLength(t);
      assert xs == t + [x];
      CountStep(t, x);
      CountMapFacts(t);
      DedupeFacts(t);
      var d := Dedupe(t);
      var m := CountMap(t);
      if x in m {
        CounterTotalUpdate(d, m, x, Get(m, x) + 1);
      } else {
        CounterTotalOther(d, m, x, 1);
        assert Dedupe(xs) == d + [x];
        assert (d + [x])[..|d|] == d;
      }
    }
  }

  /** Changing the count of a key the order does not list leaves the total alone. */
  lemma {:induction false} CounterTotalOther(order: seq<int>, counts: map<int, int>, x: int, v: int)
    requires x !in order
    ensures CounterTotal(order, counts[x := v]) == CounterTotal(order, counts)
  {
    if |order| > 0 {
      CounterTotalOther(order[..|order| - 1], counts, x, v);
    }
  }

  /** Changing the count of a key the order lists once shifts the total by the difference. */
  lemma {:induction false} CounterTotalUpdate(order: seq<int>, counts: map<int, int>, x: int, v: int)
    requires Distinct(order) && x in order
    ensures CounterTotal(order, counts[x := v]) == CounterTotal(order, counts) - Get(counts, x) + v
  {
    var t := order[..|order| - 1];
    var last := order[|order| - 1];
    assert Distinct(t);
    if last == x {
      assert x !in t by {
        forall k | 0 <= k < |t|
          ensures t[k] != x
        {
          assert order[k] != order[|order| - 1];
        }
      }
      CounterTotalOther(t, counts, x, v);
    } else {
      assert order == t + [last];
      assert x in t;
      CounterTotalUpdate(t, counts, x, v);
    }
  }

  /** The six position Counters after the adjacent pairs of `prefix`. */
  ghost predicate PositionsOf(counts: seq<map<int, int>>, orders: seq<seq<int>>, prefix: seq<Draw>)
  {
    |counts| == 6 && |orders| == 6 &&
    forall p :: 0 <= p < 6 ==>
      counts[p] == CountMap(ColumnRepeats(prefix, p)) && orders[p] == Dedupe(ColumnRepeats(prefix, p))
  }

  /**
   * `for pos in range(6): if current[pos] == next[pos]:
   * position_repeats[pos][current[pos]] += 1` for the pair (all[i], all[i + 1]).
   */
  method CountPositions(counts: seq<map<int, int>>, orders: seq<seq<int>>, all: seq<Draw>, i: int)
    returns (counts': seq<map<int, int>>, orders': seq<seq<int>>)
    requires 0 <= i < |all| - 1
    requires PositionsOf(counts, orders, all[..i + 1])
    ensures PositionsOf(counts', orders', all[..i + 2])
  {
    counts', orders' := counts, orders;
    var current, next := all[i], all[i + 1];
    var pos := 0;
    while pos < 6
      invariant 0 <= pos <= 6 && |counts'| == 6 && |orders'| == 6
      invariant forall p :: 0 <= p < 6 ==>
        var s := ColumnRepeats(all[..(if p < pos then i + 2 else i + 1)], p);
        counts'[p] == CountMap(s) && orders'[p] == Dedupe(s)
    {
      ColumnStep(all, i, pos);
      if current.reds[pos] == next.reds[pos] {
        var c, o := Increment(counts'[pos], orders'[pos], ColumnRepeats(all[..i + 1], pos), current.reds[pos]);
        counts' := counts'[pos := c];
        orders' := orders'[pos := o];
      }
      pos := pos + 1;
    }
  }

  /** `repeat_counts[len(set(current) & set(next))] += 1` for the pair (all[i], all[i + 1]). */
  method CountRepeat(counts: map<int, int>, order: seq<int>, all: seq<Draw>, i: int)
    returns (counts': map<int, int>, order': seq<int>)
    requires 0 <= i < |all| - 1
    requires counts == CountMap(RepeatCounts(all[..i + 1])) && order == Dedupe(RepeatCounts(all[..i + 1]))
    ensures counts' == CountMap(RepeatCounts(all[..i + 2])) && order' == Dedupe(RepeatCounts(all[..i + 2]))
  {
    RepeatCountsStep(all, i);
    counts', order' := Increment(counts, order, RepeatCounts(all[..i + 1]), Overlap(all[i].reds, all[i + 1].reds));
  }

  /** `if current['blue'] == next['blue']: blue_repeats[current['blue']] += 1`. */
  method CountBlue(counts: map<int, int>, order: seq<int>, all: seq<Draw>, i: int)
    returns (counts': map<int, int>, order': seq<int>)
    requires 0 <= i < |all| - 1
    requires counts == CountMap(BlueRepeatValues(all[..i + 1])) && order == Dedupe(BlueRepeatValues(all[..i + 1]))
    ensures counts' == CountMap(BlueRepeatValues(all[..i + 2])) && order' == Dedupe(BlueRepeatValues(all[..i + 2]))
  {
    BlueStep(all, i);
    ghost var prefix := all[..i + 1];
    if all[i].blue == all[i + 1].blue {
      counts', order' := Increment(counts, order, BlueRepeatValues(prefix), all[i].blue);
    } else {
      counts', order' := counts, order;
      assert BlueRepeatValues(prefix) + [] == BlueRepeatValues(prefix);
    }
  }

  /** Column p after one more pair. */
  lemma ColumnStep(all: seq<Draw>, i: int, p: int)
    requires 0 <= i < |all| - 1 && 0 <= p < 6
    ensures all[i].reds[p] == all[i + 1].reds[p] ==>
      ColumnRepeats(all[..i + 2], p) == ColumnRepeats(all[..i + 1], p) + [all[i].reds[p]]
    ensures all[i].reds[p] != all[i + 1].reds[p] ==>
      ColumnRepeats(all[..i + 2], p) == ColumnRepeats(all[..i + 1], p)
  {
    var longer := all[..i + 2];
    assert longer[..|longer| - 1] == all[..i + 1];
    assert longer[|longer| - 2] == all[i] && longer[|longer| - 1] == all[i + 1];
  }

  /** One more pair: the blue repeats grow by that pair's blue, if it repeats. */
  lemma BlueStep(all: seq<Draw>, i: int)
    requires 0 <= i < |all| - 1
    ensures BlueRepeatValues(all[..i + 2]) ==
      BlueRepeatValues(all[..i + 1]) + (if all[i].blue == all[i + 1].blue then [all[i].blue] else [])
  {
    var longer := all[..i + 2];
    assert longer[..|longer| - 1] == all[..i + 1];
    assert longer[|longer| - 2] == all[i] && longer[|longer| - 1] == all[i + 1];
  }

  /** One more pair: the overlap list grows by that pair's overlap. */
  lemma RepeatCountsStep(all: seq<Draw>, i: int)
    requires 0 <= i < |all| - 1
    ensures RepeatCounts(all[..i + 2]) == RepeatCounts(all[..i + 1]) + [Overlap(all[i].reds, all[i + 1].reds)]
  {
    var longer := all[..i + 2];
    RepeatCountsSnoc(longer);
    assert longer[..|longer| - 1] == all[..i + 1];
    assert longer[|longer| - 2] == all[i] && longer[|longer| - 1] == all[i + 1];
  }

  /** The overlaps of a history one draw longer gain that draw's overlap at the end. */
  lemma RepeatCountsSnoc(s: seq<Draw>)
    requires |s| >= 2
    ensures RepeatCounts(s) == RepeatCounts(s[..|s| - 1]) + [Overlap(s[|s| - 2].reds, s[|s| - 1].reds)]
  {
    var t := s[..|s| - 1];
    var a := RepeatCounts(s);
    var b := RepeatCounts(t) + [Overlap(s[|s| - 2].reds, s[|s| - 1].reds)];
    forall k | 0 <= k < |a|
      ensures a[k] == b[k]
    {
      assert a[k] == Overlap(s[k].reds, s[k + 1].reds);
      if k < |s| - 2 {
        assert t[k] == s[k] && t[k + 1] == s[k + 1];
        assert b[k] == RepeatCounts(t)[k] == Overlap(t[k].reds, t[k + 1].reds);
      }
    }
  }

  /** The Counters of the pair loop. */
  datatype RepeatCounters = RepeatCounters(
    repeatCounts: map<int, int>, repeatOrder: seq<int>,
    posCounts: seq<map<int, int>>, posOrders: seq<seq<int>>,
    blueCounts: map<int, int>, blueOrder: seq<int>)

  /** The Counters after the adjacent pairs of `prefix`. */
  function CountersAfter(prefix: seq<Draw>): RepeatCounters
  {
    RepeatCounters(CountMap(RepeatCounts(prefix)), Dedupe(RepeatCounts(prefix)),
      PositionCounts(prefix), PositionOrders(prefix),
      CountMap(BlueRepeatValues(prefix)), Dedupe(BlueRepeatValues(prefix)))
  }

  function PositionCounts(prefix: seq<Draw>): seq<map<int, int>>
  {
    seq(6, p requires 0 <= p < 6 => CountMap(ColumnRepeats(prefix, p)))
  }

  function PositionOrders(prefix: seq<Draw>): seq<seq<int>>
  {
    seq(6, p requires 0 <= p < 6 => Dedupe(ColumnRepeats(prefix, p)))
  }

  /** The position Counters, element by element, are the ones CountersAfter lists. */
  lemma PositionsAfter(counts: seq<map<int, int>>, orders: seq<seq<int>>, prefix: seq<Draw>)
    requires PositionsOf(counts, orders, prefix)
    ensures counts == PositionCounts(prefix) && orders == PositionOrders(prefix)
  {
  }

  /** The position Counters CountersAfter lists are those of the prefix. */
  lemma PositionsBefore(prefix: seq<Draw>)
    ensures PositionsOf(PositionCounts(prefix), PositionOrders(prefix), prefix)
  {
  }

  /** The body of the pair loop for the pair (all[i], all[i + 1]). */
  method CountPair(c: RepeatCounters, all: seq<Draw>, i: int) returns (c': RepeatCounters)
    requires 0 <= i < |all| - 1
    requires c == CountersAfter(all[..i + 1])
    ensures c' == CountersAfter(all[..i + 2])
  {
    ghost var pre := all[..i + 1];
    var rc, ro := CountRepeat(c.repeatCounts, c.repeatOrder, all, i);
    PositionsBefore(pre);
    var pc, po := CountPositions(c.posCounts, c.posOrders, all, i);
    PositionsAfter(pc, po, all[..i + 2]);
    var bc, bo := CountBlue(c.blueCounts, c.blueOrder, all, i);
    c' := RepeatCounters(rc, ro, pc, po, bc, bo);
  }

  /** The Counters before the first pair. */
  const NoCounters := RepeatCounters(map[], [], [map[], map[], map[], map[], map[], map[]], [[], [], [], [], [], []], map[], [])

  lemma CountersStart(all: seq<Draw>)
    requires |all| >= 1
    ensures NoCounters == CountersAfter(all[..1])
  {
    var first := all[..1];
    assert RepeatCounts(first) == [];
    assert forall p :: 0 <= p < 6 ==> ColumnRepeats(first, p) == [];
  }

  /** The result dictionary built from the Counters after `n` pairs. */
  function SharesOf(c: RepeatCounters, n: nat): RepeatAnalysis
    requires |c.posCounts| == 6 && |c.posOrders| == 6
  {
    RepeatAnalysis(n, c.repeatCounts, CounterShares(c.repeatCounts, n),
      seq(6, p requires 0 <= p < 6 => CounterShares(c.posCounts[p], CounterTotal(c.posOrders[p], c.posCounts[p]))),
      CounterShares(c.blueCounts, n))
  }

  /** The share maps built from the final Counters are the analysis of the whole history. */
  lemma CountersShares(c: RepeatCounters, all: seq<Draw>)
    requires |all| >= 2 && c == CountersAfter(all)
    ensures RepeatProbabilityAnalysis(all) == Some(SharesOf(c, |all| - 1))
  {
    var positions := SharesOf(c, |all| - 1).positionProbabilities;
    forall p | 0 <= p < 6
      ensures positions[p] == PositionShares(all)[p]
    {
      CounterTotalIsLength(ColumnRepeats(all, p));
    }
    assert positions == PositionShares(all);
  }

  /** The pair loop of `get_repeat_probability_analysis`. */
  method CountAllPairs(all: seq<Draw>) returns (c: RepeatCounters)
    requires |all| >= 2
    ensures c == CountersAfter(all)
  {
    c := NoCounters;
    CountersStart(all);
    var i := 0;
    while i < |all| - 1
      invariant 0 <= i <= |all| - 1
      invariant c == CountersAfter(all[..i + 1])
    {
      c := CountPair(c, all, i);
      i := i + 1;
    }
    assert all[..|all|] == all;
  }

  /** `get_repeat_probability_analysis`: the pair loop, then the share maps. */
  method GetRepeatProbabilityAnalysis(all: seq<Draw>) returns (r: Option<RepeatAnalysis>)
    ensures r == RepeatProbabilityAnalysis(all)
  {
    if |all| < 2 {
      return None;
    }
    var c := CountAllPairs(all);
    CountersShares(c, all);
    r := Some(SharesOf(c, |all| - 1));
  }

  /**
   * `get_hot_numbers`: the first top_n balls of `most_common(top_n)` over
   * the reds of the last `window` draws; only drawn balls are keys, and
   * `most_common` of a count of zero or less is empty.
   */
  function HotNumbers(all: seq<Draw>, window: int, topN: int): seq<int>
  {
    HotOf(RecentRecords(all, window), topN)
  }

  /** The hot numbers of a given window of draws. */
  function HotOf(recent: seq<Draw>, topN: int): seq<int>
  {
    if |recent| == 0 || topN <= 0 then []
    else
      var reds := AllReds(recent);
      SliceTo(MostCommon(Dedupe(reds), CountMap(reds)), topN)
  }

  /**
   * `get_cold_numbers`: the red Counter of the window zero-filled over
   * 1..33, then the last top_n entries of `most_common()`, the Python
   * slice `[-top_n:]` (so a top_n of 0 keeps every ball).
   */
  function ColdNumbers(all: seq<Draw>, window: int, topN: int): seq<int>
  {
    ColdOf(RecentRecords(all, window), topN)
  }

  /** The cold numbers of a given window of draws. */
  function ColdOf(recent: seq<Draw>, topN: int): seq<int>
  {
    if |recent| == 0 then []
    else SliceFrom(MostCommon(ZeroFilledOrder(recent), RedCounter(recent)), -topN)
  }

  /** The hot numbers are drawn balls, each once, most frequent first. */
  lemma HotShape(recent: seq<Draw>, topN: int)
    ensures var r := HotOf(recent, topN);
      |r| == (if |recent| == 0 || topN <= 0 then 0 else Min(topN, |Dedupe(AllReds(recent))|)) &&
      Distinct(r) &&
      (forall i :: 0 <= i < |r| ==> RedCount(recent, r[i]) > 0) &&
      (forall i, j :: 0 <= i < j < |r| ==> RedCount(recent, r[i]) >= RedCount(recent, r[j]))
  {
    var r := HotOf(recent, topN);
    if |recent| > 0 && topN > 0 {
      var reds := AllReds(recent);
      var order := Dedupe(reds);
      var cnt := CountMap(reds);
      var mc := MostCommon(order, cnt);
      DedupeFacts(reds);
      CountMapFacts(reds);
      RankingShape(order, cnt);
      assert r == mc[..Min(topN, |order|)];
      forall i | 0 <= i < |r|
        ensures RedCount(recent, r[i]) > 0
      {
        assert r[i] == mc[i] && r[i] in reds;
      }
    }
  }

  /** No drawn ball left out of the hot numbers was drawn more often than the last one listed. */
  lemma HotTop(recent: seq<Draw>, topN: int, b: int)
    requires RedCount(recent, b) > 0 && b !in HotOf(recent, topN) && |HotOf(recent, topN)| > 0
    ensures RedCount(recent, b) <= RedCount(recent, HotOf(recent, topN)[|HotOf(recent, topN)| - 1])
  {
    var reds := AllReds(recent);
    var order := Dedupe(reds);
    var cnt := CountMap(reds);
    var mc := MostCommon(order, cnt);
    DedupeFacts(reds);
    CountMapFacts(reds);
    RankingShape(order, cnt);
    var k := Min(topN, |order|);
    assert HotOf(recent, topN) == mc[..k];
    assert b in reds;
    RankingHead(mc, cnt, k, b);
  }

  /** The number of cold numbers: the Python slice `[-top_n:]` of the 33 ranked reds. */
  lemma ColdSize(recent: seq<Draw>, topN: int)
    requires RedsInRange(recent)
    ensures |ColdOf(recent, topN)| ==
      if |recent| == 0 then 0 else if topN == 0 || topN >= RedMax then RedMax
      else if topN > 0 then topN else Max(RedMax + topN, 0)
  {
    if |recent| > 0 {
      var order := ZeroFilledOrder(recent);
      var cnt := RedCounter(recent);
      ZeroFilledOrderFacts(recent);
      RankingShape(order, cnt);
      assert |MostCommon(order, cnt)| == RedMax;
    }
  }

  /** For valid draws the cold numbers are distinct reds, the least frequent last. */
  lemma ColdShape(recent: seq<Draw>, topN: int)
    requires RedsInRange(recent)
    ensures var r := ColdOf(recent, topN);
      Distinct(r) &&
      (forall i :: 0 <= i < |r| ==> IsRed(r[i])) &&
      (forall i, j :: 0 <= i < j < |r| ==> RedCount(recent, r[i]) >= RedCount(recent, r[j]))
  {
    var r := ColdOf(recent, topN);
    if |recent| > 0 {
      var order := ZeroFilledOrder(recent);
      var cnt := RedCounter(recent);
      ZeroFilledOrderFacts(recent);
      RankingShape(order, cnt);
      var mc := MostCommon(order, cnt);
      var start := Clamp(|mc|, -topN);
      assert r == mc[start..];
      SuffixRanked(mc, cnt, start);
      forall i | 0 <= i < |r|
        ensures IsRed(r[i]) && Get(cnt, r[i]) == RedCount(recent, r[i])
      {
        assert r[i] == mc[start + i] && r[i] in order;
        RedCounterGet(recent, r[i]);
      }
    }
  }

  /** A suffix of a ranking without repeats is itself a ranking without repeats. */
  lemma SuffixRanked(mc: seq<int>, cnt: map<int, int>, start: int)
    requires 0 <= start <= |mc| && Distinct(mc)
    requires forall i, j :: 0 <= i < j < |mc| ==> Get(cnt, mc[i]) >= Get(cnt, mc[j])
    ensures Distinct(mc[start..])
    ensures forall i, j :: 0 <= i < j < |mc| - start ==> Get(cnt, mc[start..][i]) >= Get(cnt, mc[start..][j])
  {
    var r := mc[start..];
    forall i, j | 0 <= i < j < |r|
      ensures r[i] != r[j] && Get(cnt, r[i]) >= Get(cnt, r[j])
    {
      assert r[i] == mc[start + i] && r[j] == mc[start + j];
    }
  }

  /** A red's entry in the zero-filled counter is its number of draws. */
  lemma RedCounterGet(recent: seq<Draw>, x: int)
    requires IsRed(x)
    ensures Get(RedCounter(recent), x) == RedCount(recent, x)
  {
    CountMapFacts(AllReds(recent));
  }

  /** For valid draws, every red left out of the cold numbers was drawn at least as often as each one listed. */
  lemma ColdBottom(recent: seq<Draw>, topN: int, b: int, i: int)
    requires RedsInRange(recent)
    requires IsRed(b) && b !in ColdOf(recent, topN) && 0 <= i < |ColdOf(recent, topN)|
    ensures RedCount(recent, b) >= RedCount(recent, ColdOf(recent, topN)[i])
  {
    var order := ZeroFilledOrder(recent);
    var cnt := RedCounter(recent);
    ZeroFilledOrderFacts(recent);
    RankingShape(order, cnt);
    var mc := MostCommon(order, cnt);
    var start := Clamp(RedMax, -topN);
    assert ColdOf(recent, topN) == mc[start..];
    RankingTail(mc, cnt, start, b, i);
    CountMapFacts(AllReds(recent));
    assert IsRed(mc[start + i]);
  }

  /** `get_hot_numbers` with its counting loop. */
  method GetHotNumbers(all: seq<Draw>, window: int, topN: int) returns (r: seq<int>)
    ensures r == HotNumbers(all, window, topN)
  {
    var recent := RecentRecords(all, window);
    if |recent| == 0 {
      return [];
    }
    var counts, order := CountReds(recent);
    r := if topN <= 0 then [] else SliceTo(MostCommon(order, counts), topN);
  }

  /** `get_cold_numbers` with its counting and zero-filling loops. */
  method GetColdNumbers(all: seq<Draw>, window: int, topN: int) returns (r: seq<int>)
    ensures r == ColdNumbers(all, window, topN)
  {
    var recent := RecentRecords(all, window);
    if |recent| == 0 {
      return [];
    }
    var counts, order := CountReds(recent);
    var filled, keys := ZeroFill(counts, order, 1, RedMax);
    r := SliceFrom(MostCommon(keys, filled), -topN);
  }
}
