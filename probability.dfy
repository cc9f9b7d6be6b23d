/**
 * The multi-window repeat-probability analyzer: for each analysis window
 * it measures how often adjacent draws share red balls and the blue ball,
 * how the draws that resemble the current one were followed, and how the
 * per-count repeat percentages move from the short to the all-history
 * window. Only percentages are reported, never raw counts.
 */
module Probability {
  import opened Common
  import opened Spread
  import opened Draws
  import opened WindowConfig

  // ---------------------------------------------------------------------
  // Window table and window slices

  /**
   * The analyzer's window table: the short, medium and long windows all
   * take the manager's short_term size, and all history is unbounded.
   */
  function AnalyzerWindows(short: Option<int>): (m: map<string, Option<int>>)
    ensures m.Keys == {ShortTerm, MediumTerm, LongTerm, AllHistory}
    ensures m[ShortTerm] == short && m[MediumTerm] == short && m[LongTerm] == short
    ensures m[AllHistory] == None
  {
    map[ShortTerm := short, MediumTerm := short, LongTerm := short, AllHistory := None]
  }

  /** With the standard manager settings every bounded window of the analyzer is 30 draws. */
  lemma DefaultAnalyzerWindows()
    ensures var m := AnalyzerWindows(DefaultConfig[ShortTerm]);
      m[ShortTerm] == Some(30) && m[MediumTerm] == Some(30) && m[LongTerm] == Some(30)
  {
  }

  /**
   * The records a window analyses: all of them, or `all[-min(limit, total):]`;
   * always a suffix of the records.
   */
  function PeriodData(name: string, limit: Option<int>, all: seq<Draw>): (p: seq<Draw>)
    ensures |p| <= |all| && p == all[|all| - |p|..]
  {
    if name == AllHistory || limit.None? then all
    else SliceFrom(all, -Min(limit.value, |all|))
  }

  /**
   * A positive limit keeps the last min(limit, total) records; a zero
   * limit keeps all of them, because `all[-0:]` is the whole list.
   */
  lemma PeriodDataFacts(name: string, limit: Option<int>, all: seq<Draw>)
    ensures name == AllHistory || limit.None? ==> PeriodData(name, limit, all) == all
    ensures name != AllHistory && limit.Some? && limit.value > 0 ==>
      PeriodData(name, limit, all) == all[|all| - Min(limit.value, |all|)..]
    ensures name != AllHistory && limit == Some(0) ==> PeriodData(name, limit, all) == all
  {
  }

  // ---------------------------------------------------------------------
  // Repeat statistics of one window

  /** Adjacent pairs in a window: `len(period) - 1`, and none for an empty window. */
  function PairCount(period: seq<Draw>): nat
  {
    if |period| == 0 then 0 else |period| - 1
  }

  /** `{c: counter.get(c, 0) / n for c in range(0, 7)}` for the counts xs. */
  function Shares(xs: seq<int>, n: int): map<int, real>
  {
    map c | 0 <= c <= 6 :: Ratio(multiset(xs)[c], n)
  }

  /** `repeat_prob_distribution`: for each count 0..6, the share of pairs sharing that many reds. */
  function Distribution(period: seq<Draw>): map<int, real>
  {
    if |period| - 1 > 0 then Shares(RepeatCounts(period), |period| - 1) else map[]
  }

  /** Sum of the values of m at the keys lo..hi it holds. */
  function RealKeySum(m: map<int, real>, lo: int, hi: int): real
    decreases hi - lo
  {
    if hi < lo then 0.0 else RealKeySum(m, lo, hi - 1) + (if hi in m then m[hi] else 0.0)
  }

  /**
   * A window with at least one pair has exactly the keys 0..6, each a
   * probability, and the seven probabilities add up to one; a window
   * without pairs has an empty distribution.
   */
  lemma DistributionFacts(period: seq<Draw>)
    ensures |period| < 2 ==> Distribution(period) == map[]
    ensures |period| >= 2 ==> forall c :: c in Distribution(period) <==> 0 <= c <= 6
    ensures forall c :: c in Distribution(period) ==> 0.0 <= Distribution(period)[c] <= 1.0
    ensures |period| >= 2 ==> RealKeySum(Distribution(period), 0, 6) == 1.0
  {
    if |period| >= 2 {
      var rc := RepeatCounts(period);
      RepeatCountBounds(period);
      SharesFacts(rc, |period| - 1);
    }
  }

  /**
   * Shares of counts that all lie in 0..6, over their own number, are
   * probabilities that add up to one.
   */
  lemma SharesFacts(xs: seq<int>, n: int)
    requires n == |xs| > 0
    requires forall i :: 0 <= i < |xs| ==> 0 <= xs[i] <= 6
    ensures forall c :: c in Shares(xs, n) ==> 0.0 <= Shares(xs, n)[c] <= 1.0
    ensures RealKeySum(Shares(xs, n), 0, 6) == 1.0
  {
    forall c | c in Shares(xs, n)
      ensures 0.0 <= Shares(xs, n)[c] <= 1.0
    {
      MultiplicityBound(xs, c);
      RatioUnit(multiset(xs)[c], n);
    }
    CountSumAll(xs, 0, 6);
    SharesPartial(xs, n, 6);
    RatioUnit(n, n);
  }

  /** The first hi + 1 shares add up to the share of counts at most hi. */
  lemma {:induction false} SharesPartial(xs: seq<int>, n: int, hi: int)
    requires n > 0 && -1 <= hi <= 6
    ensures RealKeySum(Shares(xs, n), 0, hi) == Ratio(CountSum(xs, 0, hi), n)
    decreases hi
  {
    if hi >= 0 {
      SharesPartial(xs, n, hi - 1);
      RatioAdd(CountSum(xs, 0, hi - 1), multiset(xs)[hi], n);
    }
  }

  /** `blue_repeat_counts`: 1 for each adjacent pair with the same blue ball. */
  function BlueRepeats(period: seq<Draw>): (r: seq<int>)
    ensures |r| == PairCount(period)
    ensures forall i :: 0 <= i < |r| ==> r[i] == BlueRepeat(period[i], period[i + 1])
  {
    if |period| <= 1 then []
    else seq(|period| - 1, i requires 0 <= i < |period| - 1 => BlueRepeat(period[i], period[i + 1]))
  }

  /** `blue_repeat_probability` of a window: the share of pairs with a repeated blue ball. */
  function BlueProbability(period: seq<Draw>): real
  {
    if |period| - 1 > 0 then Ratio(Sum(BlueRepeats(period)), |period| - 1) else 0.0
  }

  /** Whether the i-th adjacent pair repeats the blue ball. */
  predicate SameBlue(period: seq<Draw>, i: int)
    requires 0 <= i < |period| - 1
  {
    period[i].blue == period[i + 1].blue
  }

  /**
   * The blue-repeat probability is a probability; it is 0 exactly when no
   * two adjacent draws share the blue ball, and 1 exactly when all do.
   */
  lemma BlueProbabilityFacts(period: seq<Draw>)
    ensures 0.0 <= BlueProbability(period) <= 1.0
    ensures BlueProbability(period) == 0.0 <==>
      forall i :: 0 <= i < |period| - 1 ==> !SameBlue(period, i)
    ensures |period| >= 2 ==>
      (BlueProbability(period) == 1.0 <==> forall i :: 0 <= i < |period| - 1 ==> SameBlue(period, i))
  {
    if |period| >= 2 {
      BlueShare(period);
    }
  }

  lemma BlueShare(period: seq<Draw>)
    requires |period| >= 2
    ensures 0.0 <= BlueProbability(period) <= 1.0
    ensures BlueProbability(period) == 0.0 <==> forall i :: 0 <= i < |period| - 1 ==> !SameBlue(period, i)
    ensures BlueProbability(period) == 1.0 <==> forall i :: 0 <= i < |period| - 1 ==> SameBlue(period, i)
  {
    var b := BlueRepeats(period);
    assert forall i :: 0 <= i < |b| ==> (b[i] == 1 <==> SameBlue(period, i)) && 0 <= b[i] <= 1;
    FlagShare(b);
  }

  /** The share of set flags is a probability, 0 exactly when none is set and 1 exactly when all are. */
  lemma FlagShare(b: seq<int>)
    requires |b| > 0
    requires forall i :: 0 <= i < |b| ==> 0 <= b[i] <= 1
    ensures 0.0 <= Ratio(Sum(b), |b|) <= 1.0
    ensures Ratio(Sum(b), |b|) == 0.0 <==> forall i :: 0 <= i < |b| ==> b[i] == 0
    ensures Ratio(Sum(b), |b|) == 1.0 <==> forall i :: 0 <= i < |b| ==> b[i] == 1
  {
    FlagSum(b);
    RatioUnit(Sum(b), |b|);
  }

  // ---------------------------------------------------------------------
  // Predictions for the current draw

  /** What the pairs resembling the current draw add up to. */
  datatype Tally = Tally(comparisons: nat, repeatSum: int, blueSum: int, hits: map<int, int>)

  /** `{red: 0 for red in current_reds}` */
  function ZeroHits(reds: seq<int>): (h: map<int, int>)
    ensures h.Keys == ToSet(reds)
    ensures forall r :: r in h ==> h[r] == 0
  {
    map r | r in reds :: 0
  }

  /** `for red in current_reds: if red in repeat_reds: red_repeat_predictions[red] += 1` */
  function AddHits(h: map<int, int>, reds: seq<int>, repeat: set<int>): map<int, int>
  {
    if |reds| == 0 then h
    else
      var h' := AddHits(h, reds[..|reds| - 1], repeat);
      var x := reds[|reds| - 1];
      if x in repeat then h'[x := Get(h', x) + 1] else h'
  }

  /**
   * Counting hits adds no key; when the current reds are distinct each of
   * them gains exactly one hit if it repeated and none otherwise.
   */
  lemma {:induction false} AddHitsFacts(h: map<int, int>, reds: seq<int>, repeat: set<int>)
    requires ToSet(reds) <= h.Keys
    ensures AddHits(h, reds, repeat).Keys == h.Keys
    ensures Distinct(reds) ==> forall r :: r in h ==>
      AddHits(h, reds, repeat)[r] == h[r] + (if r in reds && r in repeat then 1 else 0)
  {
    if |reds| > 0 {
      var t := reds[..|reds| - 1];
      assert ToSet(t) <= ToSet(reds);
      AddHitsFacts(h, t, repeat);
      if Distinct(reds) {
        assert Distinct(t);
        assert reds == t + [reds[|reds| - 1]];
        assert reds[|reds| - 1] !in t;
      }
    }
  }

  /**
   * The first k pairs of the window: only pairs whose earlier draw shares a
   * red with the current draw are counted.
   */
  function PredTally(cur: seq<int>, period: seq<Draw>, k: nat): Tally
    requires k <= PairCount(period)
  {
    if k == 0 then Tally(0, 0, 0, ZeroHits(cur))
    else TallyPair(cur, PredTally(cur, period, k - 1), period[k - 1], period[k])
  }

  /** One pair (rec, next) of the loop, counted when rec shares a red with the current draw. */
  function TallyPair(cur: seq<int>, t: Tally, rec: Draw, next: Draw): Tally
  {
    if Overlap(cur, rec.reds) > 0 then
      Tally(t.comparisons + 1, t.repeatSum + Overlap(rec.reds, next.reds),
            t.blueSum + BlueRepeat(rec, next), AddHits(t.hits, cur, ToSet(rec.reds) * ToSet(next.reds)))
    else t
  }

  /**
   * At most k pairs are compared, and none exactly when no earlier draw of
   * the k pairs shares a red with the current draw. Blue repeats never
   * exceed the comparisons and red repeats never exceed six per
   * comparison. The hits stay keyed by the current reds, and for distinct
   * current reds each hit count lies between 0 and the comparisons.
   */
  lemma PredTallyFacts(cur: seq<int>, period: seq<Draw>, k: nat)
    requires k <= PairCount(period)
    ensures PredTally(cur, period, k).comparisons <= k
    ensures PredTally(cur, period, k).comparisons == 0 <==>
      forall i :: 0 <= i < k ==> Overlap(cur, period[i].reds) == 0
    ensures 0 <= PredTally(cur, period, k).blueSum <= PredTally(cur, period, k).comparisons
    ensures 0 <= PredTally(cur, period, k).repeatSum <= 6 * PredTally(cur, period, k).comparisons
    ensures PredTally(cur, period, k).hits.Keys == ToSet(cur)
    ensures Distinct(cur) ==> forall r :: r in PredTally(cur, period, k).hits ==>
      0 <= PredTally(cur, period, k).hits[r] <= PredTally(cur, period, k).comparisons
  {
    PredTallyNone(cur, period, k);
    PredTallyCounts(cur, period, k);
    PredTallyHits(cur, period, k);
  }

  lemma {:induction false} PredTallyNone(cur: seq<int>, period: seq<Draw>, k: nat)
    requires k <= PairCount(period)
    ensures PredTally(cur, period, k).comparisons == 0 <==>
      forall i :: 0 <= i < k ==> Overlap(cur, period[i].reds) == 0
  {
    if k > 0 {
      var t := PredTally(cur, period, k - 1);
      PredTallyNone(cur, period, k - 1);
      assert PredTally(cur, period, k) == TallyPair(cur, t, period[k - 1], period[k]);
      assert TallyPair(cur, t, period[k - 1], period[k]).comparisons == 0 <==>
        t.comparisons == 0 && Overlap(cur, period[k - 1].reds) == 0;
    }
  }

  /** At most k comparisons, a blue repeat at most once and six red repeats per comparison. */
  predicate CountsHold(t: Tally, k: int)
  {
    t.comparisons <= k && 0 <= t.blueSum <= t.comparisons && 0 <= t.repeatSum <= 6 * t.comparisons
  }

  lemma TallyPairCounts(cur: seq<int>, t: Tally, k: int, rec: Draw, next: Draw)
    requires CountsHold(t, k)
    ensures CountsHold(TallyPair(cur, t, rec, next), k + 1)
  {
    OverlapBound(rec.reds, next.reds);
  }

  lemma {:induction false} PredTallyCounts(cur: seq<int>, period: seq<Draw>, k: nat)
    requires k <= PairCount(period)
    ensures CountsHold(PredTally(cur, period, k), k)
  {
    if k > 0 {
      var t := PredTally(cur, period, k - 1);
      PredTallyCounts(cur, period, k - 1);
      TallyPairCounts(cur, t, k - 1, period[k - 1], period[k]);
      assert PredTally(cur, period, k) == TallyPair(cur, t, period[k - 1], period[k]);
    }
  }

  /** The hits are keyed by the current reds and, for distinct reds, bounded by the comparisons. */
  predicate HitsHold(cur: seq<int>, t: Tally)
  {
    t.hits.Keys == ToSet(cur) &&
    (Distinct(cur) ==> forall r :: r in t.hits ==> 0 <= t.hits[r] <= t.comparisons)
  }

  lemma TallyPairHits(cur: seq<int>, t: Tally, rec: Draw, next: Draw)
    requires HitsHold(cur, t)
    ensures HitsHold(cur, TallyPair(cur, t, rec, next))
  {
    if Overlap(cur, rec.reds) > 0 {
      AddHitsFacts(t.hits, cur, ToSet(rec.reds) * ToSet(next.reds));
    }
  }

  lemma {:induction false} PredTallyHits(cur: seq<int>, period: seq<Draw>, k: nat)
    requires k <= PairCount(period)
    ensures HitsHold(cur, PredTally(cur, period, k))
  {
    if k > 0 {
      var t := PredTally(cur, period, k - 1);
      PredTallyHits(cur, period, k - 1);
      TallyPairHits(cur, t, period[k - 1], period[k]);
      assert PredTally(cur, period, k) == TallyPair(cur, t, period[k - 1], period[k]);
    }
  }

  /** `_calculate_current_predictions` as percentages. */
  datatype Predictions = Predictions(basedOnComparisons: nat, avgRepeatCount: real,
                                     redProbabilities: map<int, real>, blueRepeatProbability: real)

  function PredictionsOf(cur: seq<int>, period: seq<Draw>): Predictions
  {
    PredictionsFrom(cur, PredTally(cur, period, PairCount(period)))
  }

  /** The averages of a tally, or all zeros (keyed by the current reds) without comparisons. */
  function PredictionsFrom(cur: seq<int>, t: Tally): Predictions
  {
    if t.comparisons > 0 then
      var n := t.comparisons;
      Predictions(n, Ratio(t.repeatSum, n), map r | r in t.hits :: Ratio(t.hits[r], n), Ratio(t.blueSum, n))
    else
      Predictions(0, 0.0, map r | r in cur :: 0.0, 0.0)
  }

  /**
   * No more comparisons than pairs, and none exactly when no draw of the
   * window (before the last) shares a red with the current one. The
   * average repeat count is 0..6, the blue probability 0..1, the red
   * probabilities are keyed by the current reds and, when those are
   * distinct, lie in 0..1. Without comparisons everything is zero.
   */
  lemma PredictionsFacts(cur: seq<int>, period: seq<Draw>)
    ensures PredictionsOf(cur, period).basedOnComparisons <= PairCount(period)
    ensures PredictionsOf(cur, period).basedOnComparisons == 0 <==>
      forall i :: 0 <= i < PairCount(period) ==> Overlap(cur, period[i].reds) == 0
    ensures 0.0 <= PredictionsOf(cur, period).avgRepeatCount <= 6.0
    ensures 0.0 <= PredictionsOf(cur, period).blueRepeatProbability <= 1.0
    ensures PredictionsOf(cur, period).redProbabilities.Keys == ToSet(cur)
    ensures Distinct(cur) ==> forall r :: r in PredictionsOf(cur, period).redProbabilities ==>
      0.0 <= PredictionsOf(cur, period).redProbabilities[r] <= 1.0
    ensures PredictionsOf(cur, period).basedOnComparisons == 0 ==>
      var p := PredictionsOf(cur, period);
      p.avgRepeatCount == 0.0 && p.blueRepeatProbability == 0.0 &&
      forall r :: r in p.redProbabilities ==> p.redProbabilities[r] == 0.0
  {
    var t := PredTally(cur, period, PairCount(period));
    PredTallyFacts(cur, period, PairCount(period));
    if t.comparisons > 0 {
      RatioAtMost(t.repeatSum, t.comparisons, 6);
      RatioUnit(t.blueSum, t.comparisons);
      if Distinct(cur) {
        forall r | r in t.hits
          ensures 0.0 <= Ratio(t.hits[r], t.comparisons) <= 1.0
        {
          RatioUnit(t.hits[r], t.comparisons);
        }
      }
    }
  }

  /** One window's entry in `window_analysis` (timestamps and debug flags left out). */
  datatype WindowResult = WindowResult(windowName: string, periodLimit: Option<int>,
                                       effectivePeriods: nat, totalPairs: int,
                                       repeatDistribution: map<int, real>,
                                       blueRepeatProbability: real,
                                       currentPredictions: Predictions)

  function WindowStatsOf(name: string, limit: Option<int>, current: Draw, period: seq<Draw>): WindowResult
  {
    WindowResult(name, limit, |period|, |period| - 1, Distribution(period), BlueProbability(period),
                 PredictionsOf(current.reds, period))
  }

  /** `_analyze_single_window`: None for a window of fewer than two records. */
  function SingleWindow(cfg: map<string, Option<int>>, name: string, current: Draw, all: seq<Draw>): Option<WindowResult>
    requires name in cfg
  {
    var period := PeriodData(name, cfg[name], all);
    if |period| < 2 then None else Some(WindowStatsOf(name, cfg[name], current, period))
  }

  /**
   * A window is analysed exactly when it holds two records; its statistics
   * then cover the window's records with one pair fewer.
   */
  lemma SingleWindowFacts(cfg: map<string, Option<int>>, name: string, current: Draw, all: seq<Draw>)
    requires name in cfg
    ensures SingleWindow(cfg, name, current, all).Some? <==> |PeriodData(name, cfg[name], all)| >= 2
    ensures SingleWindow(cfg, name, current, all).Some? ==>
      var w := SingleWindow(cfg, name, current, all).value;
      w.windowName == name && w.periodLimit == cfg[name] && 2 <= w.effectivePeriods <= |all| &&
      w.totalPairs == w.effectivePeriods - 1 &&
      w.currentPredictions.basedOnComparisons <= w.totalPairs &&
      RealKeySum(w.repeatDistribution, 0, 6) == 1.0 &&
      0.0 <= w.blueRepeatProbability <= 1.0
  {
    var period := PeriodData(name, cfg[name], all);
    PeriodDataFacts(name, cfg[name], all);
    if |period| >= 2 {
      var w := WindowStatsOf(name, cfg[name], current, period);
      assert SingleWindow(cfg, name, current, all) == Some(w);
      DistributionFacts(period);
      assert RealKeySum(w.repeatDistribution, 0, 6) == 1.0;
      BlueProbabilityFacts(period);
      assert 0.0 <= w.blueRepeatProbability <= 1.0;
      PredictionsFacts(current.reds, period);
      assert w.currentPredictions.basedOnComparisons <= w.totalPairs;
    }
  }

  // ---------------------------------------------------------------------
  // The window_analysis dictionary

  /** One entry of an insertion-ordered dictionary from window names to results. */
  datatype Named = Named(name: string, result: WindowResult)

  /** `list(d.keys())` */
  function Names(rs: seq<Named>): (ns: seq<string>)
    ensures |ns| == |rs|
    ensures forall i :: 0 <= i < |rs| ==> ns[i] == rs[i].name
  {
    if |rs| == 0 then [] else [rs[0].name] + Names(rs[1..])
  }

  /** `d.get(name)` */
  function Lookup(rs: seq<Named>, name: string): Option<WindowResult>
  {
    if |rs| == 0 then None
    else if rs[0].name == name then Some(rs[0].result)
    else Lookup(rs[1..], name)
  }

  /** `d[name] = w`: an existing key keeps its position, a new key goes last. */
  function Put(rs: seq<Named>, name: string, w: WindowResult): seq<Named>
  {
    if |rs| == 0 then [Named(name, w)]
    else if rs[0].name == name then [Named(name, w)] + rs[1..]
    else [rs[0]] + Put(rs[1..], name, w)
  }

  /** A key is found exactly when it is among the keys. */
  lemma {:induction false} LookupFacts(rs: seq<Named>, name: string)
    ensures Lookup(rs, name).Some? <==> name in Names(rs)
  {
    if |rs| > 0 {
      LookupFacts(rs[1..], name);
    }
  }

  /**
   * After `d[name] = w` the key maps to w, every other key to what it
   * mapped to before, and the key list grows by name only if it was new.
   */
  lemma PutFacts(rs: seq<Named>, name: string, w: WindowResult)
    ensures Lookup(Put(rs, name, w), name) == Some(w)
    ensures forall other :: other != name ==> Lookup(Put(rs, name, w), other) == Lookup(rs, other)
    ensures Names(Put(rs, name, w)) == if name in Names(rs) then Names(rs) else Names(rs) + [name]
  {
    PutLookup(rs, name, w);
    PutNames(rs, name, w);
  }

  lemma {:induction false} PutLookup(rs: seq<Named>, name: string, w: WindowResult)
    ensures Lookup(Put(rs, name, w), name) == Some(w)
    ensures forall other :: other != name ==> Lookup(Put(rs, name, w), other) == Lookup(rs, other)
  {
    if |rs| > 0 && rs[0].name != name {
      PutLookup(rs[1..], name, w);
      assert Put(rs, name, w)[1..] == Put(rs[1..], name, w);
    }
  }

  lemma {:induction false} PutNames(rs: seq<Named>, name: string, w: WindowResult)
    ensures Names(Put(rs, name, w)) == if name in Names(rs) then Names(rs) else Names(rs) + [name]
  {
    if |rs| > 0 {
      if rs[0].name == name {
        assert Put(rs, name, w)[1..] == rs[1..];
      } else {
        PutNames(rs[1..], name, w);
        assert Put(rs, name, w)[1..] == Put(rs[1..], name, w);
        assert name in Names(rs) <==> name in Names(rs[1..]);
        if name !in Names(rs) {
          assert [rs[0].name] + (Names(rs[1..]) + [name]) == Names(rs) + [name];
        }
      }
    }
  }

  /**
   * The analysed windows, in the order of the window group: names the
   * table does not know and windows too short to analyse are skipped.
   */
  function WindowResults(cfg: map<string, Option<int>>, current: Draw, all: seq<Draw>, group: seq<string>): seq<Named>
  {
    if |group| == 0 then []
    else
      var rs := WindowResults(cfg, current, all, group[..|group| - 1]);
      var name := group[|group| - 1];
      if name !in cfg then rs
      else
        match SingleWindow(cfg, name, current, all)
        case None => rs
        case Some(w) => Put(rs, name, w)
  }

  /**
   * Each window is listed once; a name is listed exactly when it is in the
   * group, known to the table and long enough to analyse, and then it
   * holds that window's analysis.
   */
  lemma WindowResultsFacts(cfg: map<string, Option<int>>, current: Draw, all: seq<Draw>, group: seq<string>)
    ensures forall n :: Lookup(WindowResults(cfg, current, all, group), n).Some? <==>
      n in group && n in cfg && SingleWindow(cfg, n, current, all).Some?
    ensures forall n :: n in cfg && Lookup(WindowResults(cfg, current, all, group), n).Some? ==>
      Lookup(WindowResults(cfg, current, all, group), n) == SingleWindow(cfg, n, current, all)
  {
    forall n
      ensures Lookup(WindowResults(cfg, current, all, group), n).Some? <==>
        n in group && n in cfg && SingleWindow(cfg, n, current, all).Some?
      ensures n in cfg && Lookup(WindowResults(cfg, current, all, group), n).Some? ==>
        Lookup(WindowResults(cfg, current, all, group), n) == SingleWindow(cfg, n, current, all)
    {
      WindowResultsAt(cfg, current, all, group, n);
    }
  }

  /** WindowResultsFacts for one window name. */
  lemma {:induction false} WindowResultsAt(cfg: map<string, Option<int>>, current: Draw, all: seq<Draw>, group: seq<string>, n: string)
    ensures Lookup(WindowResults(cfg, current, all, group), n).Some? <==>
      n in group && n in cfg && SingleWindow(cfg, n, current, all).Some?
    ensures n in cfg && Lookup(WindowResults(cfg, current, all, group), n).Some? ==>
      Lookup(WindowResults(cfg, current, all, group), n) == SingleWindow(cfg, n, current, all)
  {
    if |group| > 0 {
      var g := group[..|group| - 1];
      var name := group[|group| - 1];
      var rs := WindowResults(cfg, current, all, g);
      WindowResultsAt(cfg, current, all, g, n);
      assert group == g + [name];
      assert n in group <==> n in g || n == name;
      var r := WindowResults(cfg, current, all, group);
      if name !in cfg {
        assert r == rs;
      } else {
        var sw := SingleWindow(cfg, name, current, all);
        if sw.None? {
          assert r == rs;
        } else {
          assert r == Put(rs, name, sw.value);
          PutLookup(rs, name, sw.value);
          if n == name {
            assert Lookup(r, n) == sw;
          } else {
            assert Lookup(r, n) == Lookup(rs, n);
          }
        }
      }
    }
  }

  /** One more name of the group: skipped, or its window put into the dictionary. */
  lemma WindowResultsStep(cfg: map<string, Option<int>>, current: Draw, all: seq<Draw>, group: seq<string>, i: int)
    requires 0 <= i < |group|
    ensures var rs := WindowResults(cfg, current, all, group[..i]);
      WindowResults(cfg, current, all, group[..i + 1]) ==
        if group[i] !in cfg || SingleWindow(cfg, group[i], current, all).None? then rs
        else Put(rs, group[i], SingleWindow(cfg, group[i], current, all).value)
  {
    assert group[..i + 1][..i] == group[..i];
  }

  /** No window is listed twice, however often the group names it. */
  lemma {:induction false} WindowResultsDistinct(cfg: map<string, Option<int>>, current: Draw, all: seq<Draw>, group: seq<string>)
    ensures Distinct(Names(WindowResults(cfg, current, all, group)))
  {
    if |group| > 0 {
      var g := group[..|group| - 1];
      var name := group[|group| - 1];
      var rs := WindowResults(cfg, current, all, g);
      WindowResultsDistinct(cfg, current, all, g);
      if name in cfg && SingleWindow(cfg, name, current, all).Some? {
        var w := SingleWindow(cfg, name, current, all).value;
        assert WindowResults(cfg, current, all, group) == Put(rs, name, w);
        PutNames(rs, name, w);
        if name !in Names(rs) {
          DistinctSnoc(Names(rs), name);
        }
      } else {
        assert WindowResults(cfg, current, all, group) == rs;
      }
    }
  }

  // ---------------------------------------------------------------------
  // Cross-window trends of the repeat distribution

  const WindowOrder: seq<string> := [ShortTerm, MediumTerm, LongTerm, AllHistory]

  /** One window's probability for a repeat count. */
  datatype WindowProb = WindowProb(window: string, prob: real)

  /** `repeat_dist.get(c, 0.0)` */
  function DistGet(d: map<int, real>, c: int): real
  {
    if c in d then d[c] else 0.0
  }

  /** The windows of `order` that were analysed. */
  function Present(rs: seq<Named>, order: seq<string>): seq<string>
  {
    if |order| == 0 then []
    else
      var p := Present(rs, order[..|order| - 1]);
      if Lookup(rs, order[|order| - 1]).Some? then p + [order[|order| - 1]] else p
  }

  /** `count_trends` for the count c: each analysed window of `order` with its probability. */
  function WindowProbs(rs: seq<Named>, order: seq<string>, c: int): seq<WindowProb>
  {
    if |order| == 0 then []
    else
      var ps := WindowProbs(rs, order[..|order| - 1], c);
      match Lookup(rs, order[|order| - 1])
      case None => ps
      case Some(w) => ps + [WindowProb(order[|order| - 1], DistGet(w.repeatDistribution, c))]
  }

  function Windows(ps: seq<WindowProb>): (r: seq<string>)
    ensures |r| == |ps| && forall i :: 0 <= i < |ps| ==> r[i] == ps[i].window
  {
    seq(|ps|, i requires 0 <= i < |ps| => ps[i].window)
  }

  /** `[probabilities.get(w, 0.0) for w in window_order if w in probabilities]` */
  function Probs(ps: seq<WindowProb>): (r: seq<real>)
    ensures |r| == |ps| && forall i :: 0 <= i < |ps| ==> r[i] == ps[i].prob
  {
    seq(|ps|, i requires 0 <= i < |ps| => ps[i].prob)
  }

  /**
   * For every count the windows listed are the analysed ones, in window
   * order, each with its own probability of that count.
   */
  lemma {:induction false} WindowProbsFacts(rs: seq<Named>, order: seq<string>, c: int)
    ensures Windows(WindowProbs(rs, order, c)) == Present(rs, order)
    ensures forall i :: 0 <= i < |WindowProbs(rs, order, c)| ==>
      var e := WindowProbs(rs, order, c)[i];
      Lookup(rs, e.window).Some? && e.prob == DistGet(Lookup(rs, e.window).value.repeatDistribution, c)
  {
    if |order| > 0 {
      WindowProbsFacts(rs, order[..|order| - 1], c);
      var ps := WindowProbs(rs, order[..|order| - 1], c);
      assert forall i :: 0 <= i < |ps| ==> WindowProbs(rs, order, c)[i] == ps[i];
    }
  }

  /** `_determine_trend_type` over the values of the analysed windows. */
  function TrendType(v: seq<real>): string
  {
    if |v| < 2 then "数据不足"
    else if |v| == 4 then
      var spread := RealSeqMax(v) - RealSeqMin(v);
      if Rising(v) && spread > 0.02 then "递增"
      else if Falling(v) && spread > 0.02 then "递减"
      else if spread <= 0.02 then "稳定"
      else "波动"
    else "数据不完整"
  }

  /**
   * The five labels characterised without max/min: fewer than two
   * windows is insufficient and any count but four incomplete; over four
   * windows a rise (fall) needs the last value to exceed the first (the
   * first the last) by more than 2%, stability needs no two windows to
   * differ by more than 2%, and fluctuation is a spread above 2% that
   * moves both ways.
   */
  lemma TrendTypeMeaning(v: seq<real>)
    ensures TrendType(v) == "数据不足" <==> |v| < 2
    ensures TrendType(v) == "数据不完整" <==> |v| >= 2 && |v| != 4
    ensures TrendType(v) == "递增" <==> |v| == 4 && Rising(v) && v[3] - v[0] > 0.02
    ensures TrendType(v) == "递减" <==> |v| == 4 && Falling(v) && v[0] - v[3] > 0.02
    ensures TrendType(v) == "稳定" <==>
      |v| == 4 && forall i, j :: 0 <= i < 4 && 0 <= j < 4 ==> v[i] - v[j] <= 0.02
    ensures TrendType(v) == "波动" <==>
      |v| == 4 && !Rising(v) && !Falling(v) && exists i, j :: 0 <= i < 4 && 0 <= j < 4 && v[i] - v[j] > 0.02
  {
    if |v| == 4 {
      SpreadAbove(v, 0.02);
      if Rising(v) {
        RisingSpread(v);
      }
      if Falling(v) {
        FallingSpread(v);
      }
    }
  }

  /** One count's entry in `repeat_trends`. */
  datatype CountTrend = CountTrend(count: int, probabilities: seq<WindowProb>, trend: string)

  /** `repeat_trends` for the counts 0..hi. */
  function RepeatTrends(rs: seq<Named>, hi: int): seq<CountTrend>
    decreases hi
  {
    if hi < 0 then []
    else
      var t := RepeatTrends(rs, hi - 1);
      var ps := WindowProbs(rs, WindowOrder, hi);
      if |ps| > 0 then t + [CountTrend(hi, ps, TrendType(Probs(ps)))] else t
  }

  /**
   * Without an analysed window there are no trends; otherwise every count
   * 0..hi has its entry, in order, over the analysed windows, labelled by
   * their values.
   */
  lemma {:induction false} RepeatTrendsFacts(rs: seq<Named>, hi: int)
    requires hi >= -1
    ensures Present(rs, WindowOrder) == [] ==> RepeatTrends(rs, hi) == []
    ensures Present(rs, WindowOrder) != [] ==>
      |RepeatTrends(rs, hi)| == hi + 1 &&
      forall c :: 0 <= c <= hi ==>
        RepeatTrends(rs, hi)[c].count == c &&
        Windows(RepeatTrends(rs, hi)[c].probabilities) == Present(rs, WindowOrder) &&
        RepeatTrends(rs, hi)[c].trend == TrendType(Probs(RepeatTrends(rs, hi)[c].probabilities))
    decreases hi
  {
    if hi >= 0 {
      RepeatTrendsFacts(rs, hi - 1);
      WindowProbsFacts(rs, WindowOrder, hi);
      var t := RepeatTrends(rs, hi - 1);
      if Present(rs, WindowOrder) != [] {
        assert forall c :: 0 <= c < hi ==> RepeatTrends(rs, hi)[c] == t[c];
      }
    }
  }

  /** The running maximum of the most-likely scan. */
  datatype Best = Best(count: int, prob: real)

  /** `for count, prob in dist.items(): if prob > max_prob: ...` over the counts 0..hi. */
  function ScanBest(d: map<int, real>, hi: int): Best
    decreases hi
  {
    if hi < 0 then Best(0, 0.0)
    else
      var b := ScanBest(d, hi - 1);
      if hi in d && d[hi] > b.prob then Best(hi, d[hi]) else b
  }

  /**
   * The scan finds the largest probability among counts 0..hi, or 0 when
   * none is positive, and reports the smallest count that has it; with no
   * positive probability the count stays 0.
   */
  lemma {:induction false} ScanBestFacts(d: map<int, real>, hi: int)
    requires hi >= -1
    ensures ScanBest(d, hi).prob >= 0.0
    ensures forall c :: 0 <= c <= hi && c in d ==> d[c] <= ScanBest(d, hi).prob
    ensures ScanBest(d, hi).prob == 0.0 ==> ScanBest(d, hi).count == 0
    ensures ScanBest(d, hi).prob > 0.0 ==>
      var b := ScanBest(d, hi);
      0 <= b.count <= hi && b.count in d && d[b.count] == b.prob &&
      forall c :: 0 <= c < b.count && c in d ==> d[c] < b.prob
    decreases hi
  {
    if hi >= 0 {
      ScanBestFacts(d, hi - 1);
    }
  }

  /** `most_likely_repeat_count`: from the long_term window, 0 without one. */
  function MostLikelyCount(rs: seq<Named>): int
  {
    match Lookup(rs, LongTerm)
    case None => 0
    case Some(w) => ScanBest(w.repeatDistribution, 6).count
  }

  /**
   * The most likely repeat count is 0 without a long_term window;
   * otherwise it is a count 0..6 holding the long_term window's largest
   * probability, no smaller count holds as much, and it is 0 when no
   * count has a positive probability.
   */
  lemma MostLikelyFacts(rs: seq<Named>)
    ensures Lookup(rs, LongTerm).None? ==> MostLikelyCount(rs) == 0
    ensures Lookup(rs, LongTerm).Some? ==>
      var d := Lookup(rs, LongTerm).value.repeatDistribution;
      var m := MostLikelyCount(rs);
      0 <= m <= 6 &&
      (forall c :: 0 <= c <= 6 && c in d ==> DistGet(d, c) <= DistGet(d, m) || DistGet(d, c) <= 0.0) &&
      (forall c :: 0 <= c < m && c in d ==> d[c] < DistGet(d, m)) &&
      ((forall c :: 0 <= c <= 6 && c in d ==> d[c] <= 0.0) ==> m == 0)
  {
    if Lookup(rs, LongTerm).Some? {
      ScanBestFacts(Lookup(rs, LongTerm).value.repeatDistribution, 6);
    }
  }

  /** `comprehensive_predictions` (display name left out). */
  datatype Comprehensive = Comprehensive(repeatDistribution: map<int, real>, blueRepeatProbability: real,
                                         windowSource: string)

  /** `_get_comprehensive_predictions`: long_term when analysed, else the first window, else `{}`. */
  function ComprehensiveOf(rs: seq<Named>): Option<Comprehensive>
  {
    match Lookup(rs, LongTerm)
    case Some(w) => Some(Comprehensive(w.repeatDistribution, w.blueRepeatProbability, LongTerm))
    case None =>
      if |rs| > 0 then
        Some(Comprehensive(rs[0].result.repeatDistribution, rs[0].result.blueRepeatProbability, rs[0].name))
      else None
  }

  /**
   * There is a comprehensive prediction exactly when some window was
   * analysed; it comes from long_term exactly when long_term was analysed,
   * otherwise from the first analysed window, and it repeats that
   * window's distribution and blue probability.
   */
  lemma ComprehensiveFacts(rs: seq<Named>)
    ensures ComprehensiveOf(rs).Some? <==> |rs| > 0
    ensures ComprehensiveOf(rs).Some? ==>
      var c := ComprehensiveOf(rs).value;
      (c.windowSource == LongTerm <==> Lookup(rs, LongTerm).Some?) &&
      (Lookup(rs, LongTerm).None? ==> c.windowSource == rs[0].name) &&
      Lookup(rs, c.windowSource).Some? &&
      c.repeatDistribution == Lookup(rs, c.windowSource).value.repeatDistribution &&
      c.blueRepeatProbability == Lookup(rs, c.windowSource).value.blueRepeatProbability
  {
    LookupFacts(rs, LongTerm);
  }

  // ---------------------------------------------------------------------
  // Jaccard similarity

  /** `_calculate_similarity`: |A ∩ B| / |A ∪ B| of the value sets, 0 when both are empty. */
  function Similarity(a: seq<int>, b: seq<int>): real
  {
    var u := ToSet(a) + ToSet(b);
    if |u| > 0 then Ratio(|ToSet(a) * ToSet(b)|, |u|) else 0.0
  }

  /**
   * The similarity is a symmetric value in 0..1; it is 0 exactly when the
   * two lists share no value, and 1 exactly when they hold the same
   * non-empty set of values.
   */
  lemma SimilarityFacts(a: seq<int>, b: seq<int>)
    ensures 0.0 <= Similarity(a, b) <= 1.0
    ensures Similarity(a, b) == Similarity(b, a)
    ensures Similarity(a, b) == 0.0 <==> ToSet(a) * ToSet(b) == {}
    ensures Similarity(a, b) == 1.0 <==> |a| > 0 && ToSet(a) == ToSet(b)
  {
    var A, B := ToSet(a), ToSet(b);
    var i, u := A * B, A + B;
    assert A * B == B * A && A + B == B + A;
    SubsetCard(i, u);
    if |a| > 0 {
      assert a[0] in A;
    }
    if |u| > 0 {
      RatioUnit(|i|, |u|);
      if |i| == |u| {
        SubsetCard(u - i, u);
        assert |u - i| == |u| - |i| by {
          assert u == i + (u - i);
          assert i * (u - i) == {};
        }
        assert u - i == {};
        assert A == B;
      }
      if A == B {
        assert i == u;
      }
    } else {
      assert A == {} && B == {};
    }
  }

  // ---------------------------------------------------------------------
  // The whole analysis

  /** `trends_analysis` (the summary text left out). */
  datatype TrendsAnalysis = TrendsAnalysis(repeatTrends: seq<CountTrend>, mostLikelyRepeatCount: int)

  function TrendsOf(rs: seq<Named>): TrendsAnalysis
  {
    TrendsAnalysis(RepeatTrends(rs, 6), MostLikelyCount(rs))
  }

  /**
   * The analyzer's answer: the empty result (an error with no windows,
   * naming the current draw when there is one), or the full analysis.
   * Timestamps and fixed debug fields are left out.
   */
  datatype ProbabilityResult =
    | EmptyResult(given: Option<Draw>)
    | Analysis(current: Draw, totalRecords: nat, windowAnalysis: seq<Named>, trends: TrendsAnalysis,
               comprehensive: Option<Comprehensive>, windowsAnalyzed: seq<string>,
               windowConfigUsed: map<string, Option<int>>)

  /** `analyze_current_period_probability` over the records newest first. */
  function ProbabilityOf(cfg: map<string, Option<int>>, current: Option<Draw>, all: seq<Draw>,
                         group: Option<seq<string>>): ProbabilityResult
  {
    if current.None? then EmptyResult(None)
    else if |all| < 2 then EmptyResult(current)
    else
      var g := if group.Some? then group.value else WindowOrder;
      var rs := WindowResults(cfg, current.value, all, g);
      Analysis(current.value, |all|, rs, TrendsOf(rs), ComprehensiveOf(rs), Names(rs), cfg)
  }

  /**
   * No current draw, or fewer than two records, gives the empty result
   * (with the current draw when one was given). Otherwise the analysed
   * windows are listed once each: exactly the names of the group (all
   * four standard windows by default) that the table knows and that hold
   * at least two records.
   */
  lemma ProbabilityOfFacts(cfg: map<string, Option<int>>, current: Option<Draw>, all: seq<Draw>,
                           group: Option<seq<string>>)
    ensures ProbabilityOf(cfg, current, all, group).EmptyResult? <==> current.None? || |all| < 2
    ensures ProbabilityOf(cfg, current, all, group).EmptyResult? ==>
      ProbabilityOf(cfg, current, all, group).given == current
    ensures ProbabilityOf(cfg, current, all, group).Analysis? ==>
      var r := ProbabilityOf(cfg, current, all, group);
      var g := if group.Some? then group.value else WindowOrder;
      r.totalRecords == |all| && Distinct(r.windowsAnalyzed) &&
      forall n :: n in r.windowsAnalyzed <==>
        n in g && n in cfg && |PeriodData(n, cfg[n], all)| >= 2
  {
    if current.Some? && |all| >= 2 {
      var g := if group.Some? then group.value else WindowOrder;
      var rs := WindowResults(cfg, current.value, all, g);
      WindowResultsFacts(cfg, current.value, all, g);
      WindowResultsDistinct(cfg, current.value, all, g);
      forall n
        ensures n in Names(rs) <==> n in g && n in cfg && |PeriodData(n, cfg[n], all)| >= 2
      {
        LookupFacts(rs, n);
        if n in cfg {
          SingleWindowFacts(cfg, n, current.value, all);
        }
      }
    }
  }

  /** The analyzer with the window table it read when it was created. */
  class ProbabilityAnalyzer {
    const windowConfig: map<string, Option<int>>

    /** `_get_window_config`: each bounded window asks the manager for short_term. */
    constructor(manager: WindowConfigManager)
      requires manager.Valid()
      ensures windowConfig == AnalyzerWindows(manager.windowConfig[ShortTerm])
    {
      var short := manager.GetWindowByName(ShortTerm);
      var medium := manager.GetWindowByName(ShortTerm);
      var long := manager.GetWindowByName(ShortTerm);
      windowConfig := map[ShortTerm := short, MediumTerm := medium, LongTerm := long, AllHistory := None];
    }

    /** `analyze_current_period_probability`, with the records passed in newest first. */
    method AnalyzeCurrentPeriodProbability(current: Option<Draw>, all: seq<Draw>, group: Option<seq<string>>)
      returns (r: ProbabilityResult)
      ensures r == ProbabilityOf(windowConfig, current, all, group)
    {
      if current.None? {
        return EmptyResult(None);
      }
      if |all| < 2 {
        return EmptyResult(current);
      }
      var g := if group.Some? then group.value else WindowOrder;
      var rs: seq<Named> := [];
      var i := 0;
      while i < |g|
        invariant 0 <= i <= |g|
        invariant rs == WindowResults(windowConfig, current.value, all, g[..i])
      {
        var name := g[i];
        WindowResultsStep(windowConfig, current.value, all, g, i);
        if name in windowConfig {
          var w := AnalyzeSingleWindow(name, current.value, all);
          if w.Some? {
            rs := Put(rs, name, w.value);
          }
        }
        i := i + 1;
      }
      assert g[..|g|] == g;
      var trends := AnalyzeRepeatTrends(rs);
      r := Analysis(current.value, |all|, rs, trends, ComprehensiveOf(rs), Names(rs), windowConfig);
    }

    /** `_analyze_single_window` */
    method AnalyzeSingleWindow(name: string, current: Draw, all: seq<Draw>) returns (w: Option<WindowResult>)
      requires name in windowConfig
      ensures w == SingleWindow(windowConfig, name, current, all)
    {
      var limit := windowConfig[name];
      var period: seq<Draw>;
      if name == AllHistory || limit.None? {
        period := all;
      } else {
        var effective := Min(limit.value, |all|);
        period := SliceFrom(all, -effective);
      }
      assert period == PeriodData(name, windowConfig[name], all);
      if |period| < 2 {
        return None;
      }
      var stats := CalculateWindowRepeatStats(name, current, period);
      assert SingleWindow(windowConfig, name, current, all) == Some(stats);
      w := Some(stats);
    }

    /** `_calculate_window_repeat_stats` */
    method CalculateWindowRepeatStats(name: string, current: Draw, period: seq<Draw>) returns (w: WindowResult)
      requires name in windowConfig
      ensures w == WindowStatsOf(name, windowConfig[name], current, period)
    {
      var repeatCounts, blueRepeatCounts := PairRepeats(period);
      var totalPairs := |period| - 1;
      var distribution: map<int, real> := map[];
      if totalPairs > 0 {
        var counts, _ := CountValues(repeatCounts);
        distribution := CountShares(counts, repeatCounts, totalPairs);
      }
      var blueProbability := 0.0;
      if totalPairs > 0 {
        blueProbability := Ratio(Sum(blueRepeatCounts), totalPairs);
      }
      var predictions := CalculateCurrentPredictions(current, period);
      w := WindowResult(name, windowConfig[name], |period|, totalPairs, distribution, blueProbability, predictions);
    }

    /** The loop over adjacent pairs filling `repeat_counts` and `blue_repeat_counts`. */
    static method PairRepeats(period: seq<Draw>) returns (repeatCounts: seq<int>, blueRepeatCounts: seq<int>)
      ensures repeatCounts == RepeatCounts(period)
      ensures blueRepeatCounts == BlueRepeats(period)
    {
      repeatCounts, blueRepeatCounts := [], [];
      ghost var rc, bc := RepeatCounts(period), BlueRepeats(period);
      var i := 0;
      while i < |period| - 1
        invariant 0 <= i <= PairCount(period)
        invariant repeatCounts == rc[..i] && blueRepeatCounts == bc[..i]
      {
        var record, next := period[i], period[i + 1];
        repeatCounts := repeatCounts + [Overlap(record.reds, next.reds)];
        blueRepeatCounts := blueRepeatCounts + [BlueRepeat(record, next)];
        PairSnoc(period, i);
        i := i + 1;
      }
      assert rc[..i] == rc && bc[..i] == bc;
    }

    /** One more adjacent pair extends both repeat lists by its own entries. */
    static lemma PairSnoc(period: seq<Draw>, i: int)
      requires 0 <= i < |period| - 1
      ensures RepeatCounts(period)[..i + 1] == RepeatCounts(period)[..i] + [Overlap(period[i].reds, period[i + 1].reds)]
      ensures BlueRepeats(period)[..i + 1] == BlueRepeats(period)[..i] + [BlueRepeat(period[i], period[i + 1])]
    {
      var rc, bc := RepeatCounts(period), BlueRepeats(period);
      assert rc[..i + 1] == rc[..i] + [rc[i]];
      assert bc[..i + 1] == bc[..i] + [bc[i]];
    }

    /** `for count in range(0, 7): dist[count] = counter.get(count, 0) / total_pairs` */
    method CountShares(counts: map<int, int>, xs: seq<int>, totalPairs: int) returns (d: map<int, real>)
      requires counts == CountMap(xs) && totalPairs > 0
      ensures d == Shares(xs, totalPairs)
    {
      CountMapFacts(xs);
      d := map[];
      var c := 0;
      while c < 7
        invariant 0 <= c <= 7
        invariant d == map k | 0 <= k < c :: Ratio(multiset(xs)[k], totalPairs)
      {
        d := d[c := Ratio(Get(counts, c), totalPairs)];
        c := c + 1;
      }
    }

    /** `_calculate_current_predictions` */
    method CalculateCurrentPredictions(current: Draw, period: seq<Draw>) returns (p: Predictions)
      ensures p == PredictionsOf(current.reds, period)
    {
      var cur := current.reds;
      var similarRepeatCounts: seq<int> := [];
      var similarBlueRepeats: seq<int> := [];
      var hits := ZeroHits(cur);
      var comparisons := 0;
      var i := 0;
      while i < |period| - 1
        invariant 0 <= i <= PairCount(period)
        invariant comparisons == |similarRepeatCounts| == |similarBlueRepeats|
        invariant Tally(comparisons, Sum(similarRepeatCounts), Sum(similarBlueRepeats), hits) ==
                  PredTally(cur, period, i)
      {
        var record, next := period[i], period[i + 1];
        assert PredTally(cur, period, i + 1) == TallyPair(cur, PredTally(cur, period, i), record, next);
        if |ToSet(cur) * ToSet(record.reds)| > 0 {
          comparisons := comparisons + 1;
          var repeat := ToSet(record.reds) * ToSet(next.reds);
          var blue := if record.blue == next.blue then 1 else 0;
          SumSnoc(similarRepeatCounts, |repeat|);
          SumSnoc(similarBlueRepeats, blue);
          similarRepeatCounts := similarRepeatCounts + [|repeat|];
          similarBlueRepeats := similarBlueRepeats + [blue];
          hits := AddRepeatHits(hits, cur, repeat);
        }
        i := i + 1;
      }
      assert i == PairCount(period);
      p := PredictionsFrom(cur, Tally(comparisons, Sum(similarRepeatCounts), Sum(similarBlueRepeats), hits));
    }

    /** The inner loop `for red in current_reds: if red in repeat_reds: ... += 1`. */
    method AddRepeatHits(h: map<int, int>, reds: seq<int>, repeat: set<int>) returns (h': map<int, int>)
      ensures h' == AddHits(h, reds, repeat)
    {
      h' := h;
      var j := 0;
      while j < |reds|
        invariant 0 <= j <= |reds|
        invariant h' == AddHits(h, reds[..j], repeat)
      {
        assert reds[..j + 1][..j] == reds[..j];
        if reds[j] in repeat {
          h' := h'[reds[j] := Get(h', reds[j]) + 1];
        }
        j := j + 1;
      }
      assert reds[..|reds|] == reds;
    }

    /** `_analyze_repeat_trends` */
    method AnalyzeRepeatTrends(rs: seq<Named>) returns (t: TrendsAnalysis)
      ensures t == TrendsOf(rs)
    {
      var trends: seq<CountTrend> := [];
      var c := 0;
      while c < 7
        invariant 0 <= c <= 7
        invariant trends == RepeatTrends(rs, c - 1)
      {
        var ps := CountTrends(rs, c);
        if |ps| > 0 {
          trends := trends + [CountTrend(c, ps, TrendType(Probs(ps)))];
        }
        c := c + 1;
      }
      var mostLikely := 0;
      var longTerm := Lookup(rs, LongTerm);
      if longTerm.Some? {
        var best := MostLikelyScan(longTerm.value.repeatDistribution);
        mostLikely := best.count;
      }
      t := TrendsAnalysis(trends, mostLikely);
    }

    /** The windows' probabilities of one repeat count, in window order. */
    method CountTrends(rs: seq<Named>, c: int) returns (ps: seq<WindowProb>)
      ensures ps == WindowProbs(rs, WindowOrder, c)
    {
      ps := [];
      var k := 0;
      while k < |WindowOrder|
        invariant 0 <= k <= |WindowOrder|
        invariant ps == WindowProbs(rs, WindowOrder[..k], c)
      {
        assert WindowOrder[..k + 1][..k] == WindowOrder[..k];
        var w := Lookup(rs, WindowOrder[k]);
        if w.Some? {
          ps := ps + [WindowProb(WindowOrder[k], DistGet(w.value.repeatDistribution, c))];
        }
        k := k + 1;
      }
      assert WindowOrder[..|WindowOrder|] == WindowOrder;
    }

    /** The most-likely scan: the first count with the strictly largest probability. */
    method MostLikelyScan(d: map<int, real>) returns (b: Best)
      ensures b == ScanBest(d, 6)
    {
      var mostLikely, maxProb := 0, 0.0;
      var c := 0;
      while c < 7
        invariant 0 <= c <= 7
        invariant Best(mostLikely, maxProb) == ScanBest(d, c - 1)
      {
        if c in d && d[c] > maxProb {
          maxProb := d[c];
          mostLikely := c;
        }
        c := c + 1;
      }
      b := Best(mostLikely, maxProb);
    }
  }
}
