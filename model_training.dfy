/**
 * The counting side of the model trainer: the frequency ("statistical")
 * model, which ranks the red balls by how often they were drawn and cuts
 * the ranking into a hot top third, a cold bottom third and a warm middle,
 * and the guard and row layout of the supervised training data, where each
 * record is labelled with the balls of the record after it.
 */
module ModelTraining {
  import opened Common
  import opened Draws
  import opened Ranking
  import Features
  import Probability
  import Database

  /** Fewer records than this and the statistical model is refused. */
  const MinStatisticalRecords := 50

  /** Fewer records than this and there is no training data. */
  const MinTrainingRecords := 10

  const InsufficientData := "数据不足"

  // ---------------------------------------------------------------------
  // The 33 % rule

  /**
   * `max(1, int(k * 0.33))`: how many balls the hot tier, and also the cold
   * tier, takes from a ranking of k balls.
   */
  function TierSize(k: nat): nat
  {
    Max(1, (33 * k) / 100)
  }

  /**
   * The tier size is at least one and at most a third of the ranking, so
   * from three balls on the two outer tiers leave a warm middle; 33 balls
   * split 10 / 13 / 10.
   */
  lemma TierSizeFacts(k: nat)
    ensures TierSize(k) >= 1
    ensures k >= 3 ==> 3 * TierSize(k) <= k && 2 * TierSize(k) < k
    ensures k <= 3 ==> TierSize(k) == 1
    ensures 100 * TierSize(k) <= 33 * k + 100
    ensures k == RedMax ==> TierSize(k) == 10
  {
  }

  datatype Tiers = Tiers(hot: seq<int>, warm: seq<int>, cold: seq<int>)

  /**
   * `sorted[:t]`, `sorted[-t:]`, and `sorted[t:-t]` only when the ranking
   * is longer than the two outer tiers together.
   */
  function SplitTiers(ranked: seq<int>): Tiers
  {
    var t: int := TierSize(|ranked|);
    Tiers(SliceTo(ranked, t), if |ranked| > t + t then Slice(ranked, t, -t) else [], SliceFrom(ranked, -t))
  }

  /** The three Python slices of a ranking, as Dafny slices. */
  lemma CutFacts(ranked: seq<int>, t: int)
    requires t >= 1
    ensures var k := |ranked|;
      SliceTo(ranked, t) == ranked[..Min(t, k)] && SliceFrom(ranked, -t) == ranked[k - Min(t, k)..] &&
      (k > t + t ==> Slice(ranked, t, -t) == ranked[t..k - t])
  {
    TakeLast(ranked, t);
  }

  /**
   * Hot is the first t balls of the ranking and cold the last t (the whole
   * ranking when it is shorter); when the ranking holds both, hot, warm and
   * cold are the ranking cut in three, and otherwise warm is empty.
   */
  lemma SplitTiersFacts(ranked: seq<int>)
    ensures var k, t := |ranked|, TierSize(|ranked|); var s := SplitTiers(ranked);
      s.hot == ranked[..Min(t, k)] && s.cold == ranked[k - Min(t, k)..] &&
      (k >= t + t ==> s.hot + s.warm + s.cold == ranked && |s.warm| == k - t - t) &&
      (k <= t + t ==> s.warm == [])
    ensures |ranked| == RedMax ==>
      |SplitTiers(ranked).hot| == 10 && |SplitTiers(ranked).warm| == 13 && |SplitTiers(ranked).cold| == 10
  {
    var k, t := |ranked|, TierSize(|ranked|);
    TierSizeFacts(k);
    CutFacts(ranked, t);
    if k >= t + t {
      ThreeCuts(ranked, t);
    }
  }

  lemma ThreeCuts(ranked: seq<int>, t: int)
    requires 0 <= t && t + t <= |ranked|
    ensures ranked[..t] + ranked[t..|ranked| - t] + ranked[|ranked| - t..] == ranked
  {
  }

  // ---------------------------------------------------------------------
  // train_statistical_model

  datatype StatisticalModel = StatisticalModel(
    redProbabilities: map<int, real>,
    blueProbabilities: map<int, real>,
    hot: seq<int>,
    warm: seq<int>,
    cold: seq<int>,
    hotTop10: seq<int>,
    coldTop10: seq<int>,
    totalGames: int,
    redCounts: map<int, int>,
    blueCounts: map<int, int>)

  /** `red_counts.most_common()`: the red balls by count, ties in order of first appearance. */
  function RedRanking(records: seq<Draw>): seq<int>
  {
    MostCommon(Dedupe(AllReds(records)), CountMap(AllReds(records)))
  }

  /** `model_info`, built from the number of games, the two Counters and the red ranking. */
  function BuildModel(n: int, redCounts: map<int, int>, blueCounts: map<int, int>, ranked: seq<int>): StatisticalModel
  {
    var tiers := SplitTiers(ranked);
    StatisticalModel(
      Database.CounterShares(redCounts, n * 6),
      Database.CounterShares(blueCounts, n),
      tiers.hot, tiers.warm, tiers.cold,
      SliceTo(ranked, 10), SliceFrom(ranked, -10),
      n, redCounts, blueCounts)
  }

  /** The model `train_statistical_model` returns for a record list. */
  function StatisticalModelOf(records: seq<Draw>): Result<StatisticalModel>
  {
    if |records| < MinStatisticalRecords then Err(InsufficientData)
    else Ok(BuildModel(|records|, CountMap(AllReds(records)), CountMap(Blues(records)), RedRanking(records)))
  }

  /** `train_statistical_model`: refuse short histories, count, rank and cut. */
  method TrainStatisticalModel(records: seq<Draw>) returns (r: Result<StatisticalModel>)
    ensures r == StatisticalModelOf(records)
  {
    if |records| < MinStatisticalRecords {
      return Err(InsufficientData);
    }
    var redCounts, redOrder, blueCounts := CountBalls(records);
    var sortedReds := MostCommon(redOrder, redCounts);
    r := Ok(BuildModel(|records|, redCounts, blueCounts, sortedReds));
  }

  /** The counting loop: six reds and one blue per record into two Counters. */
  method CountBalls(records: seq<Draw>) returns (redCounts: map<int, int>, redOrder: seq<int>, blueCounts: map<int, int>)
    ensures redCounts == CountMap(AllReds(records)) && redOrder == Dedupe(AllReds(records))
    ensures blueCounts == CountMap(Blues(records))
  {
    redCounts, redOrder := map[], [];
    blueCounts := map[];
    var blueOrder: seq<int> := [];
    var i := 0;
    while i < |records|
      invariant 0 <= i <= |records|
      invariant redCounts == CountMap(AllReds(records[..i])) && redOrder == Dedupe(AllReds(records[..i]))
      invariant blueCounts == CountMap(Blues(records[..i])) && blueOrder == Dedupe(Blues(records[..i]))
    {
      redCounts, redOrder := Tally(redCounts, redOrder, AllReds(records[..i]), records[i].reds);
      blueCounts, blueOrder := Increment(blueCounts, blueOrder, Blues(records[..i]), records[i].blue);
      PrefixStep(records, i);
      BluesStep(records, i);
      i := i + 1;
    }
    assert records[..|records|] == records;
  }

  lemma BluesStep(records: seq<Draw>, i: int)
    requires 0 <= i < |records|
    ensures Blues(records[..i + 1]) == Blues(records[..i]) + [records[i].blue]
  {
  }

  /** The model is refused exactly below fifty records, and then counts every game. */
  lemma StatisticalModelGuard(records: seq<Draw>)
    ensures StatisticalModelOf(records).Err? <==> |records| < MinStatisticalRecords
    ensures StatisticalModelOf(records).Ok? ==> StatisticalModelOf(records).value.totalGames == |records|
  {
  }

  /**
   * The ranking lists every red ball drawn once; for valid records that is
   * at most the 33 red balls, and it ranks them by count.
   */
  lemma RedRankingFacts(records: seq<Draw>)
    ensures var ranked := RedRanking(records);
      Distinct(ranked) && (forall b :: b in ranked <==> b in AllReds(records)) &&
      (|records| > 0 ==> |ranked| >= 1)
    ensures RedsInRange(records) ==> |RedRanking(records)| <= RedMax
  {
    var xs := AllReds(records);
    var ranked := RedRanking(records);
    RankedCounts(xs);
    if |records| > 0 {
      assert |xs| == 6 * |records|;
    }
    if RedsInRange(records) {
      AllRedsInRange(records);
      var reds := Range(1, RedMax + 1);
      RangeFacts(1, RedMax + 1);
      assert ToSet(ranked) <= ToSet(reds);
      CardToSet(ranked);
      CardToSet(reds);
      SubsetCard(ToSet(ranked), ToSet(reds));
    }
  }

  /** The parts an accepted model is made of. */
  lemma ModelFields(records: seq<Draw>)
    requires |records| >= MinStatisticalRecords
    ensures var m := StatisticalModelOf(records).value; var ranked := RedRanking(records);
      var tiers := SplitTiers(ranked);
      m.hot == tiers.hot && m.warm == tiers.warm && m.cold == tiers.cold &&
      m.hotTop10 == SliceTo(ranked, 10) && m.coldTop10 == SliceFrom(ranked, -10) &&
      m.redProbabilities == Database.CounterShares(CountMap(AllReds(records)), |records| * 6) &&
      m.blueProbabilities == Database.CounterShares(CountMap(Blues(records)), |records|)
  {
  }

  /**
   * The shares of a Counter over exactly as many values as were counted,
   * all of them in lo..hi: one share count / total per value seen, each in
   * (0, 1], adding up to one over lo..hi.
   */
  lemma WholeShares(xs: seq<int>, t: int, lo: int, hi: int)
    requires |xs| == t > 0
    requires forall i :: 0 <= i < |xs| ==> lo <= xs[i] <= hi
    ensures var p := Database.CounterShares(CountMap(xs), t);
      (forall b :: b in p <==> b in xs) &&
      (forall b :: b in p ==> p[b] == Ratio(multiset(xs)[b], t) && 0.0 < p[b] <= 1.0) &&
      Probability.RealKeySum(p, lo, hi) == 1.0
  {
    CountMapFacts(xs);
    Database.CounterSharesFacts(xs, t, lo, hi);
    RatioUnit(t, t);
  }

  /**
   * Red shares are count / (6 * games) for each red ball drawn and, for
   * valid records, add up to one over 1..33.
   */
  lemma RedProbabilities(records: seq<Draw>)
    requires |records| >= MinStatisticalRecords && RedsInRange(records)
    ensures var p := StatisticalModelOf(records).value.redProbabilities;
      (forall b :: b in p <==> b in AllReds(records)) &&
      (forall b :: b in p ==> p[b] == Ratio(RedCount(records, b), |records| * 6) && 0.0 < p[b] <= 1.0) &&
      Probability.RealKeySum(p, 1, RedMax) == 1.0
  {
    ModelFields(records);
    AllRedsInRange(records);
    WholeShares(AllReds(records), |records| * 6, 1, RedMax);
  }

  /**
   * Blue shares are count / games for each blue ball drawn and, for valid
   * records, add up to one over 1..16.
   */
  lemma BlueProbabilities(records: seq<Draw>)
    requires |records| >= MinStatisticalRecords && BluesInRange(records)
    ensures var p := StatisticalModelOf(records).value.blueProbabilities;
      (forall b :: b in p <==> b in Blues(records)) &&
      (forall b :: b in p ==> p[b] == Ratio(BlueCount(records, b), |records|) && 0.0 < p[b] <= 1.0) &&
      Probability.RealKeySum(p, 1, BlueMax) == 1.0
  {
    ModelFields(records);
    var blues := Blues(records);
    forall i | 0 <= i < |blues|
      ensures 1 <= blues[i] <= BlueMax
    {
      assert blues[i] == records[i].blue;
    }
    WholeShares(blues, |records|, 1, BlueMax);
  }

  /** Each tier of a `most_common()` ranking ranks above the next. */
  lemma RankingTiersOrder(order: seq<int>, cnt: map<int, int>)
    requires Distinct(order)
    ensures var s := SplitTiers(MostCommon(order, cnt));
      RanksAbove(order, cnt, s.hot, s.warm) && RanksAbove(order, cnt, s.warm, s.cold)
  {
    var ranked := MostCommon(order, cnt);
    var k, t := |ranked|, TierSize(|ranked|);
    var s := SplitTiers(ranked);
    SplitTiersFacts(ranked);
    if k > t + t {
      WarmBetween(order, cnt);
    } else {
      assert s.warm == [];
    }
  }

  lemma WarmBetween(order: seq<int>, cnt: map<int, int>)
    requires Distinct(order)
    requires |MostCommon(order, cnt)| > 2 * TierSize(|MostCommon(order, cnt)|)
    ensures var s := SplitTiers(MostCommon(order, cnt));
      RanksAbove(order, cnt, s.hot, s.warm) && RanksAbove(order, cnt, s.warm, s.cold)
  {
    var ranked := MostCommon(order, cnt);
    var k, t := |ranked|, TierSize(|ranked|);
    var s := SplitTiers(ranked);
    CutFacts(ranked, t);
    assert Min(t, k) == t;
    TierOrder(order, cnt, 0, 0, 0, 0);
    RanksOf(order, cnt, 0, t, t, k - t, s.hot, s.warm);
    RanksOf(order, cnt, t, k - t, k - t, k, s.warm, s.cold);
  }

  /** TierOrder for slices given by name. */
  lemma RanksOf(order: seq<int>, cnt: map<int, int>, a: int, b: int, c: int, d: int, xs: seq<int>, ys: seq<int>)
    requires Distinct(order) && 0 <= a <= b <= c <= d <= |order| == |MostCommon(order, cnt)|
    requires xs == MostCommon(order, cnt)[a..b] && ys == MostCommon(order, cnt)[c..d]
    ensures RanksAbove(order, cnt, xs, ys)
  {
    TierOrder(order, cnt, a, b, c, d);
  }

  /**
   * Every hot ball ranks above every warm ball and every warm ball above
   * every cold one; from three distinct red balls on the tiers are the
   * ranking cut in three, so each drawn red ball is in exactly one of them,
   * and with all 33 balls drawn they hold 10, 13 and 10.
   */
  lemma StatisticalTiers(records: seq<Draw>)
    requires |records| >= MinStatisticalRecords
    ensures var m := StatisticalModelOf(records).value;
      var order, cnt := Dedupe(AllReds(records)), CountMap(AllReds(records));
      RanksAbove(order, cnt, m.hot, m.warm) && RanksAbove(order, cnt, m.warm, m.cold)
    ensures var m := StatisticalModelOf(records).value; var ranked := RedRanking(records);
      |ranked| >= 3 ==>
        m.hot + m.warm + m.cold == ranked && |m.hot| == |m.cold| == TierSize(|ranked|) &&
        |m.warm| == |ranked| - 2 * TierSize(|ranked|) > 0
    ensures var m := StatisticalModelOf(records).value;
      |RedRanking(records)| == RedMax ==> |m.hot| == 10 && |m.warm| == 13 && |m.cold| == 10
  {
    ModelFields(records);
    DedupeFacts(AllReds(records));
    RankingTiersOrder(Dedupe(AllReds(records)), CountMap(AllReds(records)));
    var ranked := RedRanking(records);
    SplitTiersFacts(ranked);
    TierSizeFacts(|ranked|);
  }

  /**
   * The top-10 lists are the first and the last ten balls of the ranking
   * (all of it when fewer were drawn), and with twenty or more balls
   * ranked every ball of the first list ranks above every ball of the
   * second.
   */
  lemma StatisticalTop10(records: seq<Draw>)
    requires |records| >= MinStatisticalRecords
    ensures var m := StatisticalModelOf(records).value; var ranked := RedRanking(records);
      var k := |ranked|; var c := Min(10, k);
      m.hotTop10 == ranked[..c] && m.coldTop10 == ranked[k - c..]
    ensures var m := StatisticalModelOf(records).value; var ranked := RedRanking(records);
      |ranked| >= 20 ==>
        RanksAbove(Dedupe(AllReds(records)), CountMap(AllReds(records)), m.hotTop10, m.coldTop10)
  {
    var xs := AllReds(records);
    var ranked := RedRanking(records);
    ModelFields(records);
    TakeLast(ranked, 10);
    if |ranked| >= 20 {
      DedupeFacts(xs);
      TopAboveBottom(Dedupe(xs), CountMap(xs));
    }
  }

  lemma TopAboveBottom(order: seq<int>, cnt: map<int, int>)
    requires Distinct(order) && |MostCommon(order, cnt)| >= 20
    ensures var ranked := MostCommon(order, cnt);
      RanksAbove(order, cnt, SliceTo(ranked, 10), SliceFrom(ranked, -10))
  {
    var ranked := MostCommon(order, cnt);
    var k := |ranked|;
    TierOrder(order, cnt, 0, 0, 0, 0);
    TakeLast(ranked, 10);
    RanksOf(order, cnt, 0, 10, k - 10, k, SliceTo(ranked, 10), SliceFrom(ranked, -10));
  }

  // ---------------------------------------------------------------------
  // prepare_training_data

  /**
   * One feature row: the six reds and the blue of a record, the red sum
   * and mean, the number of odd reds, the row index modulo 7 and the
   * number of records from this one to the end.
   */
  datatype FeatureRow = FeatureRow(
    reds: seq<int>, blue: int, redSum: int, redAvg: real, oddCount: int, weekday: int, decay: int)

  /** The label of a row: the reds and the blue of the following record. */
  datatype Label = Label(reds: seq<int>, blue: int)

  datatype TrainingSet = TrainingSet(features: seq<FeatureRow>, labels: seq<Label>)

  /** The feature row built from record i of n. */
  function FeatureOf(records: seq<Draw>, i: int): FeatureRow
    requires 0 <= i < |records|
  {
    var reds := records[i].reds;
    var s := Sum(reds);
    FeatureRow(reds, records[i].blue, s, s as real / 6.0, Features.CountIf(reds, Features.IsOdd), i % 7, |records| - i)
  }

  function LabelOf(d: Draw): Label
  {
    Label(d.reds, d.blue)
  }

  /** `prepare_training_data` on the records read: None below ten, else one row per adjacent pair. */
  function TrainingData(records: seq<Draw>): Option<TrainingSet>
  {
    if |records| < MinTrainingRecords then None
    else
      var n := |records| - 1;
      Some(TrainingSet(
        seq(n, i requires 0 <= i < n => FeatureOf(records, i)),
        seq(n, i requires 0 <= i < n => LabelOf(records[i + 1]))))
  }

  /** The loop over adjacent records that fills the feature and label lists. */
  method PrepareTrainingData(records: seq<Draw>) returns (r: Option<TrainingSet>)
    ensures r == TrainingData(records)
  {
    if |records| < MinTrainingRecords {
      return None;
    }
    var features: seq<FeatureRow> := [];
    var labels: seq<Label> := [];
    var i := 0;
    while i < |records| - 1
      invariant 0 <= i <= |records| - 1
      invariant features == seq(i, j requires 0 <= j < i => FeatureOf(records, j))
      invariant labels == seq(i, j requires 0 <= j < i => LabelOf(records[j + 1]))
    {
      var current := records[i];
      var next := records[i + 1];
      var redSum := Sum(current.reds);
      var oddCount := Features.CountIf(current.reds, Features.IsOdd);
      features := features + [FeatureRow(current.reds, current.blue, redSum, redSum as real / 6.0,
                                         oddCount, i % 7, |records| - i)];
      labels := labels + [Label(next.reds, next.blue)];
      i := i + 1;
    }
    r := Some(TrainingSet(features, labels));
  }

  /** Below ten records there is no data; otherwise one row and one label per adjacent pair of records. */
  lemma TrainingDataFacts(records: seq<Draw>)
    ensures TrainingData(records).None? <==> |records| < MinTrainingRecords
    ensures TrainingData(records).Some? ==>
      |TrainingData(records).value.features| == |TrainingData(records).value.labels| == |records| - 1
  {
  }

  /**
   * Row i describes record i and is labelled with record i + 1; its odd
   * count lies in 0..6, its mean is a sixth of its sum, its weekday column
   * lies in 0..6, and its decay column, n - i, is at least 2 and one more
   * than the next row's.
   */
  lemma TrainingRow(records: seq<Draw>, i: int)
    requires |records| >= MinTrainingRecords && 0 <= i < |records| - 1
    ensures var f := TrainingData(records).value.features[i];
      f.reds == records[i].reds && f.blue == records[i].blue &&
      0 <= f.oddCount <= 6 && 0 <= f.weekday < 7 && f.redAvg * 6.0 == f.redSum as real &&
      f.decay == |records| - i >= 2 &&
      (i + 1 < |records| - 1 ==> f.decay == TrainingData(records).value.features[i + 1].decay + 1)
    ensures var l := TrainingData(records).value.labels[i];
      l.reds == records[i + 1].reds && l.blue == records[i + 1].blue
  {
    Features.CountIfBound(records[i].reds, Features.IsOdd);
  }
}
