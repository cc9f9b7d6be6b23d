/**
 * The enhanced analyzer: the combined hot/cold, trend and basic
 * statistics report, the search for the historical draws that best match
 * a predicted set of reds, and the probability that a draw repeats at
 * least one red of the draw before it.
 *
 * `get_all_records()` is the record list `all`, newest first.
 */
module EnhancedAnalyzer {
  import opened Common
  import opened Draws
  import Database
  import Features
  import Statistics

  // ---------------------------------------------------------------------
  // analyze_hot_cold_with_trends

  datatype CombinedReport = CombinedReport(
    hotCold: Option<Statistics.HotColdReport>,
    trends: Statistics.TrendsOutcome,
    basicStats: Option<Statistics.BasicStatistics>)

  /** `analyze_hot_cold(30, 100)`, `analyze_trends(30)` and `get_basic_statistics(50)`. */
  function HotColdWithTrends(all: seq<Draw>): CombinedReport
  {
    CombinedReport(Statistics.HotColdOf(all, 30, 100), Statistics.TrendsAsWritten(all, 30),
                   Statistics.BasicStatisticsOf(all, 50))
  }

  /**
   * With the fixed window of 30 the trend windows hold 10 records, so the
   * combined report never raises; its parts are empty exactly when there
   * are no records.
   */
  lemma HotColdWithTrendsFacts(all: seq<Draw>)
    ensures HotColdWithTrends(all).trends != Statistics.IndexError
    ensures HotColdWithTrends(all).trends == Statistics.TrendsOf(all, 30)
    ensures HotColdWithTrends(all).hotCold.None? <==> |all| == 0
    ensures HotColdWithTrends(all).basicStats.None? <==> |all| == 0
  {
    Statistics.TrendsFacts(all, 30);
    Statistics.HotColdFacts(all, 30, 100);
  }

  // ---------------------------------------------------------------------
  // find_best_matches

  /** One entry of `matches`; the matched numbers are a Python set. */
  datatype Match = Match(issue: string, matchCount: nat, matchedNumbers: set<int>, score: real)

  /** `1 + int(issue) / 10000`, or 1.0 when the issue is not an integer. */
  function RecentWeight(issue: string): real
  {
    match PyInt(issue)
    case Some(v) => 1.0 + v as real / 10000.0
    case None => 1.0
  }

  /** The match a record gives against the predicted reds. */
  function MatchOf(record: Draw, predicted: seq<int>): Match
  {
    var shared := ToSet(record.reds) * ToSet(predicted);
    Match(record.issue, |shared|, shared, Score(|shared|, record.issue))
  }

  /** `match_count * recent_weight` */
  function Score(count: nat, issue: string): real
  {
    count as real * RecentWeight(issue)
  }

  /** The records sharing at least three reds with the prediction, in record order. */
  function MatchesOf(records: seq<Draw>, predicted: seq<int>): seq<Match>
  {
    if |records| == 0 then []
    else
      var m := MatchOf(records[|records| - 1], predicted);
      MatchesOf(records[..|records| - 1], predicted) + (if m.matchCount >= 3 then [m] else [])
  }

  /**
   * Each match comes from a record sharing at least three reds with the
   * prediction (the shared reds and their number), and every such record
   * gives a match.
   */
  lemma MatchesFacts(records: seq<Draw>, predicted: seq<int>)
    ensures forall m :: m in MatchesOf(records, predicted) ==>
      m.matchCount >= 3 && m.matchCount == |m.matchedNumbers| &&
      exists k :: 0 <= k < |records| && m == MatchOf(records[k], predicted)
    ensures forall k :: 0 <= k < |records| && Overlap(records[k].reds, predicted) >= 3 ==>
      MatchOf(records[k], predicted) in MatchesOf(records, predicted)
  {
    MatchesSound(records, predicted);
    MatchesComplete(records, predicted);
  }

  lemma {:induction false} MatchesSound(records: seq<Draw>, predicted: seq<int>)
    ensures forall m :: m in MatchesOf(records, predicted) ==>
      m.matchCount >= 3 && m.matchCount == |m.matchedNumbers| &&
      exists k :: 0 <= k < |records| && m == MatchOf(records[k], predicted)
  {
    if |records| > 0 {
      var init := records[..|records| - 1];
      MatchesSound(init, predicted);
      forall m | m in MatchesOf(records, predicted)
        ensures m.matchCount >= 3 && m.matchCount == |m.matchedNumbers|
        ensures exists k :: 0 <= k < |records| && m == MatchOf(records[k], predicted)
      {
        if m in MatchesOf(init, predicted) {
          var k :| 0 <= k < |init| && m == MatchOf(init[k], predicted);
          assert records[k] == init[k];
        } else {
          assert m == MatchOf(records[|records| - 1], predicted);
        }
      }
    }
  }

  lemma {:induction false} MatchesComplete(records: seq<Draw>, predicted: seq<int>)
    ensures forall k :: 0 <= k < |records| && Overlap(records[k].reds, predicted) >= 3 ==>
      MatchOf(records[k], predicted) in MatchesOf(records, predicted)
  {
    if |records| > 0 {
      var init := records[..|records| - 1];
      MatchesComplete(init, predicted);
      forall k | 0 <= k < |records| && Overlap(records[k].reds, predicted) >= 3
        ensures MatchOf(records[k], predicted) in MatchesOf(records, predicted)
      {
        if k < |init| {
          assert records[k] == init[k];
          assert MatchOf(init[k], predicted) in MatchesOf(init, predicted);
        }
      }
    }
  }

  /** Insert m after every match scoring at least as much: a stable descending insertion. */
  function InsertMatch(m: Match, s: seq<Match>): (r: seq<Match>)
    ensures multiset(r) == multiset(s) + multiset{m}
    ensures |r| == |s| + 1
  {
    if |s| == 0 then [m]
    else
      assert s == [s[0]] + s[1..];
      if s[0].score >= m.score then [s[0]] + InsertMatch(m, s[1..]) else [m] + s
  }

  /** `sorted(matches, key=score, reverse=True)`: stable, so equal scores keep record order. */
  function SortMatches(ms: seq<Match>): (r: seq<Match>)
    ensures multiset(r) == multiset(ms)
    ensures |r| == |ms|
  {
    if |ms| == 0 then []
    else
      assert ms == ms[..|ms| - 1] + [ms[|ms| - 1]];
      InsertMatch(ms[|ms| - 1], SortMatches(ms[..|ms| - 1]))
  }

  predicate ScoresDescend(s: seq<Match>)
  {
    forall i, j :: 0 <= i < j < |s| ==> s[i].score >= s[j].score
  }

  lemma {:induction false} InsertMatchDescends(m: Match, s: seq<Match>)
    requires ScoresDescend(s)
    ensures ScoresDescend(InsertMatch(m, s))
  {
    if |s| > 0 && s[0].score >= m.score {
      InsertMatchDescends(m, s[1..]);
      InsertMatchBelow(m, s[1..], s[0].score);
    }
  }

  /** Inserting into matches all scoring at most `top` keeps every score at most `top`. */
  lemma {:induction false} InsertMatchBelow(m: Match, s: seq<Match>, top: real)
    requires m.score <= top && forall j :: 0 <= j < |s| ==> s[j].score <= top
    ensures forall j :: 0 <= j < |InsertMatch(m, s)| ==> InsertMatch(m, s)[j].score <= top
  {
    if |s| > 0 && s[0].score >= m.score {
      InsertMatchBelow(m, s[1..], top);
    }
  }

  lemma {:induction false} SortMatchesDescends(ms: seq<Match>)
    ensures ScoresDescend(SortMatches(ms))
  {
    if |ms| > 0 {
      SortMatchesDescends(ms[..|ms| - 1]);
      InsertMatchDescends(ms[|ms| - 1], SortMatches(ms[..|ms| - 1]));
    }
  }

  /** The matches scoring exactly v, in their order in s. */
  function ScoreFilter(s: seq<Match>, v: real): seq<Match>
  {
    if |s| == 0 then [] else OfScore(s[0], v) + ScoreFilter(s[1..], v)
  }

  /** [x] when x scores v, else []. */
  function OfScore(x: Match, v: real): seq<Match>
  {
    if x.score == v then [x] else []
  }

  lemma {:induction false} ScoreFilterAppend(a: seq<Match>, b: seq<Match>, v: real)
    ensures ScoreFilter(a + b, v) == ScoreFilter(a, v) + ScoreFilter(b, v)
  {
    if |a| > 0 {
      assert (a + b)[1..] == a[1..] + b;
      ScoreFilterAppend(a[1..], b, v);
    } else {
      assert a + b == b;
    }
  }

  /** No match of s scores v when all score less. */
  lemma {:induction false} ScoreFilterBelow(s: seq<Match>, v: real)
    requires forall j :: 0 <= j < |s| ==> s[j].score < v
    ensures ScoreFilter(s, v) == []
  {
    if |s| > 0 {
      ScoreFilterBelow(s[1..], v);
    }
  }

  /** The matches of [x] + s scoring v. */
  lemma ScoreFilterCons(x: Match, s: seq<Match>, v: real)
    ensures ScoreFilter([x] + s, v) == OfScore(x, v) + ScoreFilter(s, v)
  {
    assert ([x] + s)[0] == x && ([x] + s)[1..] == s;
  }

  /** The inserted match comes after every match of its own score. */
  lemma {:induction false} InsertMatchStable(m: Match, s: seq<Match>, v: real)
    requires ScoresDescend(s)
    ensures ScoreFilter(InsertMatch(m, s), v) == ScoreFilter(s, v) + OfScore(m, v)
  {
    if |s| > 0 && s[0].score >= m.score {
      InsertMatchStable(m, s[1..], v);
      InsertBehindHead(m, s, v);
    } else {
      InsertAtHead(m, s, v);
    }
  }

  /** Inserting behind the head adds to the filtered tail. */
  lemma InsertBehindHead(m: Match, s: seq<Match>, v: real)
    requires |s| > 0 && s[0].score >= m.score
    requires ScoreFilter(InsertMatch(m, s[1..]), v) == ScoreFilter(s[1..], v) + OfScore(m, v)
    ensures ScoreFilter(InsertMatch(m, s), v) == ScoreFilter(s, v) + OfScore(m, v)
  {
    var rest := InsertMatch(m, s[1..]);
    assert InsertMatch(m, s) == [s[0]] + rest;
    ScoreFilterCons(s[0], rest, v);
    var a, b, c := OfScore(s[0], v), ScoreFilter(s[1..], v), OfScore(m, v);
    assert ScoreFilter(s, v) == a + b;
    ConcatAssoc(a, b, c);
  }

  lemma ConcatAssoc(a: seq<Match>, b: seq<Match>, c: seq<Match>)
    ensures a + (b + c) == (a + b) + c
  {
  }

  /** Inserting in front of a descending list whose head scores less puts m after all of its own score. */
  lemma InsertAtHead(m: Match, s: seq<Match>, v: real)
    requires ScoresDescend(s) && (|s| == 0 || s[0].score < m.score)
    ensures ScoreFilter(InsertMatch(m, s), v) == ScoreFilter(s, v) + OfScore(m, v)
  {
    assert InsertMatch(m, s) == [m] + s;
    ScoreFilterCons(m, s, v);
    if m.score == v {
      forall j | 0 <= j < |s|
        ensures s[j].score < v
      {
        if j > 0 {
          DescendAt(s, 0, j);
        }
      }
      ScoreFilterBelow(s, v);
    } else {
      EmptyConcat(ScoreFilter(s, v));
    }
  }

  lemma EmptyConcat(a: seq<Match>)
    ensures [] + a == a + []
  {
  }

  /**
   * The sort is stable: for every score, the matches holding it appear in
   * the sorted list in the order the records gave them.
   */
  lemma {:induction false} SortMatchesStable(ms: seq<Match>, v: real)
    ensures ScoreFilter(SortMatches(ms), v) == ScoreFilter(ms, v)
  {
    if |ms| > 0 {
      var init, last := ms[..|ms| - 1], ms[|ms| - 1];
      var si := SortMatches(init);
      assert SortMatches(ms) == InsertMatch(last, si);
      SortMatchesDescends(init);
      InsertMatchStable(last, si, v);
      SortMatchesStable(init, v);
      SplitLast(ms);
      ScoreFilterAppend(init, [last], v);
      ScoreFilterCons(last, [], v);
      assert [last] + [] == [last];
    }
  }

  lemma SplitLast(ms: seq<Match>)
    requires |ms| > 0
    ensures ms == ms[..|ms| - 1] + [ms[|ms| - 1]]
  {
  }

  /** `sorted(...)[:top_n]` */
  function TopMatches(records: seq<Draw>, predicted: seq<int>, topN: int): seq<Match>
  {
    SliceTo(SortMatches(MatchesOf(records, predicted)), topN)
  }

  /**
   * The top matches are at most top_n of the matches (Python slicing for
   * a negative top_n), best score first, each a match of the prediction.
   */
  lemma TopMatchesFacts(records: seq<Draw>, predicted: seq<int>, topN: int)
    ensures var top := TopMatches(records, predicted, topN);
      var n := |MatchesOf(records, predicted)|;
      (topN >= 0 ==> |top| == Min(topN, n)) &&
      (topN < 0 ==> |top| == Max(0, n + topN)) &&
      ScoresDescend(top) &&
      multiset(top) <= multiset(MatchesOf(records, predicted))
    ensures var top := TopMatches(records, predicted, topN);
      var ms := MatchesOf(records, predicted);
      forall m, t :: m in multiset(ms) - multiset(top) && t in top ==> m.score <= t.score
    ensures var top := TopMatches(records, predicted, topN);
      forall v :: ScoreFilter(top, v) <= ScoreFilter(MatchesOf(records, predicted), v)
  {
    var ms := MatchesOf(records, predicted);
    var sorted := SortMatches(ms);
    var n := TopIsPrefix(records, predicted, topN);
    SortMatchesDescends(ms);
    PrefixFacts(sorted, n);
    PrefixBest(sorted, n);
    forall v
      ensures ScoreFilter(sorted[..n], v) <= ScoreFilter(ms, v)
    {
      PrefixStable(ms, n, v);
    }
  }

  /** The top matches are the first n sorted matches, n as Python slicing gives it. */
  lemma TopIsPrefix(records: seq<Draw>, predicted: seq<int>, topN: int) returns (n: int)
    ensures var ms := MatchesOf(records, predicted);
      0 <= n <= |ms| && TopMatches(records, predicted, topN) == SortMatches(ms)[..n] &&
      n == if topN >= 0 then Min(topN, |ms|) else Max(0, |ms| + topN)
  {
    var ms := MatchesOf(records, predicted);
    var sorted := SortMatches(ms);
    assert |sorted| == |ms|;
    n := ClampOf(sorted, topN);
  }

  /** `s[:j]` is the prefix of the length Python slicing gives. */
  lemma ClampOf(s: seq<Match>, j: int) returns (n: int)
    ensures 0 <= n <= |s| && SliceTo(s, j) == s[..n]
    ensures n == if j >= 0 then Min(j, |s|) else Max(0, |s| + j)
  {
    n := Clamp(|s|, j);
  }

  /** A prefix of a descending list keeps the order and is a sub-multiset. */
  lemma PrefixFacts(sorted: seq<Match>, n: int)
    requires 0 <= n <= |sorted| && ScoresDescend(sorted)
    ensures ScoresDescend(sorted[..n]) && multiset(sorted[..n]) <= multiset(sorted)
  {
    assert sorted == sorted[..n] + sorted[n..];
    assert multiset(sorted) == multiset(sorted[..n]) + multiset(sorted[n..]);
  }

  /** Every element a prefix of a descending list leaves out scores at most each element it keeps. */
  lemma PrefixBest(sorted: seq<Match>, n: int)
    requires 0 <= n <= |sorted| && ScoresDescend(sorted)
    ensures forall m, t :: m in multiset(sorted) - multiset(sorted[..n]) && t in sorted[..n] ==> m.score <= t.score
  {
    SplitAt(sorted, n);
    MultisetRest(sorted[..n], sorted[n..]);
    forall m, t | m in multiset(sorted) - multiset(sorted[..n]) && t in sorted[..n]
      ensures m.score <= t.score
    {
      var j := IndexInTail(sorted, n, m);
      var i := IndexInHead(sorted, n, t);
      DescendAt(sorted, i, j);
    }
  }

  lemma SplitAt(s: seq<Match>, n: int)
    requires 0 <= n <= |s|
    ensures s == s[..n] + s[n..]
  {
  }

  /** The position in s of an element of s[n..]. */
  lemma IndexInTail(s: seq<Match>, n: int, x: Match) returns (k: int)
    requires 0 <= n <= |s| && x in multiset(s[n..])
    ensures n <= k < |s| && s[k] == x
  {
    assert x in s[n..];
    var d :| 0 <= d < |s| - n && s[n..][d] == x;
    k := n + d;
  }

  /** The position in s of an element of s[..n]. */
  lemma IndexInHead(s: seq<Match>, n: int, x: Match) returns (k: int)
    requires 0 <= n <= |s| && x in s[..n]
    ensures 0 <= k < n && s[k] == x
  {
    k :| 0 <= k < n && s[..n][k] == x;
  }

  lemma DescendAt(s: seq<Match>, i: int, j: int)
    requires ScoresDescend(s) && 0 <= i < j < |s|
    ensures s[i].score >= s[j].score
  {
  }

  lemma MultisetRest(a: seq<Match>, b: seq<Match>)
    ensures multiset(a + b) - multiset(a) == multiset(b)
  {
    assert multiset(a + b) == multiset(a) + multiset(b);
  }

  /** The matches of one score kept by the cut come first among that score's matches in record order. */
  lemma PrefixStable(ms: seq<Match>, n: int, v: real)
    requires 0 <= n <= |ms|
    ensures ScoreFilter(SortMatches(ms)[..n], v) <= ScoreFilter(ms, v)
  {
    var sorted := SortMatches(ms);
    SortMatchesStable(ms, v);
    ScoreFilterAppend(sorted[..n], sorted[n..], v);
    assert sorted == sorted[..n] + sorted[n..];
  }

  /** A record with a non-negative integer issue scores at least its match count. */
  lemma ScoreAtLeastCount(count: nat, issue: string)
    requires PyInt(issue).Some? ==> PyInt(issue).value >= 0
    ensures Score(count, issue) >= count as real
  {
    WeightAtLeastOne(issue);
    ScaleAtLeast(count, RecentWeight(issue));
  }

  lemma WeightAtLeastOne(issue: string)
    requires PyInt(issue).Some? ==> PyInt(issue).value >= 0
    ensures RecentWeight(issue) >= 1.0
  {
    if PyInt(issue).Some? {
      var v := PyInt(issue).value as real;
      assert v / 10000.0 >= 0.0;
    }
  }

  lemma ScaleAtLeast(n: nat, w: real)
    requires w >= 1.0
    ensures n as real * w >= n as real
  {
    var c := n as real;
    assert c * w == c + c * (w - 1.0);
  }

  /** The match loop as the source runs it. */
  method CollectMatches(records: seq<Draw>, predicted: seq<int>) returns (matches: seq<Match>)
    ensures matches == MatchesOf(records, predicted)
  {
    matches := [];
    var i := 0;
    while i < |records|
      invariant 0 <= i <= |records|
      invariant matches == MatchesOf(records[..i], predicted)
    {
      assert records[..i + 1][..i] == records[..i];
      var m := MatchOf(records[i], predicted);
      if m.matchCount >= 3 {
        matches := matches + [m];
      }
      i := i + 1;
    }
    assert records[..|records|] == records;
  }

  // ---------------------------------------------------------------------
  // _calculate_repeat_probability

  /** `Counter(repeat_counts)`: how many adjacent pairs share each number of reds. */
  function RepeatDistribution(all: seq<Draw>): map<int, int>
  {
    CountMap(RepeatCounts(all))
  }

  /**
   * `_calculate_repeat_probability`: the share of adjacent pairs that
   * repeat at least one red, as a percentage, read off the distribution.
   */
  function RepeatProbability(all: seq<Draw>): real
  {
    if |all| < 2 then 0.0
    else
      var dist := RepeatDistribution(all);
      var total := KeySum(dist, 0, 6);
      if total > 0 then Ratio(KeySum(dist, 1, 6), total) * 100.0 else 0.0
  }

  /** Adjacent pairs sharing at least one red. */
  function PairsWithRepeat(all: seq<Draw>): nat
  {
    Features.CountIf(RepeatCounts(all), x => x >= 1)
  }

  lemma {:induction false} CountSumIsCountIf(r: seq<int>)
    requires forall i :: 0 <= i < |r| ==> 0 <= r[i] <= 6
    ensures CountSum(r, 1, 6) == Features.CountIf(r, x => x >= 1)
  {
    if |r| == 0 {
      CountSumEmpty(1, 6);
    } else {
      var init := r[..|r| - 1];
      CountSumIsCountIf(init);
      assert r == init + [r[|r| - 1]];
      CountSumSnoc(init, r[|r| - 1], 1, 6);
    }
  }

  /**
   * With two or more records the percentage is 100 × (pairs sharing a
   * red) / (pairs), in 0..100; it is 100 exactly when every pair shares a
   * red and 0 exactly when none does. With fewer records it is 0.
   */
  lemma RepeatProbabilityFacts(all: seq<Draw>)
    ensures |all| < 2 ==> RepeatProbability(all) == 0.0
    ensures |all| >= 2 ==>
      RepeatProbability(all) == Ratio(PairsWithRepeat(all), |all| - 1) * 100.0 &&
      0.0 <= RepeatProbability(all) <= 100.0 &&
      (RepeatProbability(all) == 100.0 <==> PairsWithRepeat(all) == |all| - 1) &&
      (RepeatProbability(all) == 0.0 <==> PairsWithRepeat(all) == 0)
  {
    if |all| >= 2 {
      RepeatProbabilityFormula(all);
      Features.CountIfBound(RepeatCounts(all), x => x >= 1);
      RatioUnit(PairsWithRepeat(all), |all| - 1);
    }
  }

  /** Reading the distribution: its keys 0..6 total the pairs, its keys 1..6 the pairs sharing a red. */
  lemma RepeatProbabilityFormula(all: seq<Draw>)
    requires |all| >= 2
    ensures RepeatProbability(all) == Ratio(PairsWithRepeat(all), |all| - 1) * 100.0
  {
    var r := RepeatCounts(all);
    var dist := RepeatDistribution(all);
    RepeatCountBounds(all);
    CountMapKeySum(r, 0, 6);
    CountSumAll(r, 0, 6);
    assert KeySum(dist, 0, 6) == |all| - 1;
    CountMapKeySum(r, 1, 6);
    CountSumIsCountIf(r);
    assert KeySum(dist, 1, 6) == PairsWithRepeat(all);
  }

  /** The probability as the source computes it: the repeat loop, then the Counter. */
  method CalculateRepeatProbability(all: seq<Draw>) returns (p: real)
    ensures p == RepeatProbability(all)
  {
    if |all| < 2 {
      return 0.0;
    }
    var repeats: seq<int> := [];
    var i := 1;
    while i < |all|
      invariant 1 <= i <= |all|
      invariant |repeats| == i - 1
      invariant forall k :: 0 <= k < i - 1 ==> repeats[k] == Overlap(all[k].reds, all[k + 1].reds)
    {
      repeats := repeats + [Overlap(all[i - 1].reds, all[i].reds)];
      i := i + 1;
    }
    assert repeats == RepeatCounts(all);
    var dist, _ := CountValues(repeats);
    var total := KeySum(dist, 0, 6);
    p := if total > 0 then Ratio(KeySum(dist, 1, 6), total) * 100.0 else 0.0;
  }

  // ---------------------------------------------------------------------
  // The match report

  datatype BestMatches = BestMatches(topMatches: seq<Match>, repeatWithLast: Option<int>, repeatProbability: Option<real>)

  /**
   * `find_best_matches(predicted_reds, top_n)`: the top matches, and, when
   * there is a newest record, how many predicted reds it shares and the
   * repeat probability.
   */
  function BestMatchesOf(all: seq<Draw>, predicted: seq<int>, topN: int): BestMatches
  {
    var top := TopMatches(all, predicted, topN);
    if |Database.RecentRecords(all, 1)| == 0 then BestMatches(top, None, None)
    else
      var latest := Database.RecentRecords(all, 1)[0];
      BestMatches(top, Some(Overlap(latest.reds, predicted)), Some(RepeatProbability(all)))
  }

  method FindBestMatches(all: seq<Draw>, predicted: seq<int>, topN: int) returns (r: BestMatches)
    ensures r == BestMatchesOf(all, predicted, topN)
  {
    var matches := CollectMatches(all, predicted);
    var top := SliceTo(SortMatches(matches), topN);
    if |all| == 0 {
      return BestMatches(top, None, None);
    }
    var latest := all[0];
    var p := CalculateRepeatProbability(all);
    r := BestMatches(top, Some(Overlap(latest.reds, predicted)), Some(p));
  }

  /**
   * The repeat fields are present exactly when there are records; the
   * newest record then shares 0..6 reds with the prediction.
   */
  lemma BestMatchesFacts(all: seq<Draw>, predicted: seq<int>, topN: int)
    ensures BestMatchesOf(all, predicted, topN).repeatWithLast.Some? <==> |all| > 0
    ensures |all| > 0 ==>
      BestMatchesOf(all, predicted, topN).repeatWithLast == Some(Overlap(all[0].reds, predicted)) &&
      0 <= Overlap(all[0].reds, predicted) <= 6
  {
    if |all| > 0 {
      OverlapBound(all[0].reds, predicted);
    }
  }
}
