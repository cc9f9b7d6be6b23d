/**
 * The prediction service's own rules on top of the predictors: the
 * repair that makes 7+1 extend 6+1 and 8+1 extend 7+1, the extension
 * candidates taken from the hot and warm balls, the safe extension ball,
 * the confidence adjustments from the ML prediction and from the repeat
 * probabilities, the per-window statistics, the cross-window repeat trends
 * and the bounded history of saved reports.
 */
module PredictionService {
  import opened Common
  import opened Draws
  import opened WindowConfig
  import Database
  import HotCold
  import HotColdTrends
  import Probability
  import Spread

  // ---------------------------------------------------------------------
  // Predictions

  /**
   * One combination of a prediction result: its reds, blue, confidence
   * and strategy, and the fields the adjustments add to it.
   */
  datatype Prediction = Prediction(
    reds: seq<int>, blue: int, confidence: real, strategy: string,
    mlAdjustment: Option<int>, mlOverlap: Option<int>,
    probabilityAdjustment: Option<real>, adjustmentReason: Option<string>)

  /** The `6_plus_1`, `7_plus_1` and `8_plus_1` entries of a result. */
  datatype PredictionSet = PredictionSet(six: Option<Prediction>, seven: Option<Prediction>, eight: Option<Prediction>)

  /** A 6+1 prediction a red ball drawn from 1..33 could belong to: six distinct reds. */
  predicate WellFormed(reds: seq<int>)
  {
    |reds| == 6 && Distinct(reds) && forall b :: b in reds ==> IsRed(b)
  }

  // ---------------------------------------------------------------------
  // Extension candidates and the safe extension

  /** The hot balls then the warm balls that are reds, each kept at its first occurrence. */
  function Candidates(hot: seq<int>, warm: seq<int>): seq<int>
  {
    Dedupe(Filter(hot + warm, IsRed))
  }

  /** The candidates are distinct reds, and a red is one exactly when it is hot or warm. */
  lemma CandidatesFacts(hot: seq<int>, warm: seq<int>)
    ensures Distinct(Candidates(hot, warm))
    ensures forall b :: b in Candidates(hot, warm) <==> IsRed(b) && (b in hot || b in warm)
  {
    FilterFacts(hot + warm, IsRed);
    DedupeFacts(Filter(hot + warm, IsRed));
  }

  /** For a classified window the candidates are exactly the reds that are not cold. */
  lemma CandidatesOfClassify(records: seq<Draw>, w: Option<int>, now: real)
    requires RedsInRange(records)
    ensures var c := HotCold.Classify(records, w, now);
      forall b :: b in Candidates(c.hot, c.warm) <==> IsRed(b) && b !in c.cold
  {
    var c := HotCold.Classify(records, w, now);
    HotCold.ClassifyPartition(records, w, now);
    CandidatesFacts(c.hot, c.warm);
  }

  predicate InMiddle(b: int) { 10 <= b <= 24 }

  /** `[ball for ball in available if 10 <= ball <= 24]` */
  function Middle(available: seq<int>): (r: seq<int>)
    ensures forall b :: b in r <==> b in available && InMiddle(b)
    ensures Ascending(available) ==> Ascending(r)
  {
    FilterFacts(available, InMiddle);
    FilterSubsequence(available, InMiddle);
    Filter(available, InMiddle)
  }

  /** `_find_safe_extension` */
  function SafeExtension(existing: seq<int>): int
  {
    var available := Available(existing);
    var middle := Middle(available);
    if |available| > 0 then
      if |middle| > 0 then middle[0] else available[0]
    else if 1 !in existing then 1
    else 2
  }

  /**
   * The safe extension is the smallest unused ball of 10..24; with all of
   * those used it is the smallest unused red; with every red used it is 2.
   */
  lemma SafeExtensionFacts(existing: seq<int>)
    ensures var r := SafeExtension(existing);
      (exists b :: IsRed(b) && b !in existing) ==> IsRed(r) && r !in existing
    ensures var r := SafeExtension(existing);
      (exists b :: InMiddle(b) && b !in existing) ==>
        InMiddle(r) && r !in existing && forall b :: 10 <= b < r ==> b in existing
    ensures var r := SafeExtension(existing);
      (forall b :: InMiddle(b) ==> b in existing) && (exists b :: IsRed(b) && b !in existing) ==>
        IsRed(r) && r !in existing && forall b :: 1 <= b < r ==> b in existing
    ensures (forall b :: IsRed(b) ==> b in existing) ==> SafeExtension(existing) == 2
  {
    var available := Available(existing);
    var middle := Middle(available);
    if |available| > 0 {
      AscendingHead(available);
      assert available[0] in available;
    }
    if |middle| > 0 {
      AscendingHead(middle);
      assert middle[0] in middle;
    }
  }

  // ---------------------------------------------------------------------
  // The 6+1 -> 7+1 -> 8+1 repair

  /** The 7+1 and 8+1 reds. */
  datatype Extension = Extension(seven: seq<int>, eight: seq<int>)

  /**
   * The reds as the repair builds them: the first candidate, then the
   * second candidate or a safe ball, or two safe balls without
   * candidates. No candidate is compared with the reds already chosen.
   */
  function ExtendAsWritten(base: seq<int>, cands: seq<int>): Extension
  {
    if |cands| >= 1 then
      var seven := SortInts(base + [cands[0]]);
      Extension(seven, SortInts(seven + [if |cands| >= 2 then cands[1] else SafeExtension(seven)]))
    else
      var seven := SortInts(base + [SafeExtension(base)]);
      Extension(seven, SortInts(seven + [SafeExtension(seven)]))
  }

  /**
   * As written, the first candidate joins the reds even when it is one
   * of them, and then appears twice in 7+1 and in 8+1.
   */
  lemma RepeatedCandidate(base: seq<int>, cands: seq<int>)
    requires |cands| >= 1 && cands[0] in base
    ensures !Distinct(ExtendAsWritten(base, cands).seven) && !Distinct(ExtendAsWritten(base, cands).eight)
  {
    var e := ExtendAsWritten(base, cands);
    var c := cands[0];
    assert multiset(e.seven) == multiset(base + [c]) == multiset(base) + multiset{c};
    assert multiset(e.seven)[c] >= 2;
    assert multiset(e.eight)[c] >= multiset(e.seven)[c];
    if Distinct(e.seven) {
      DistinctMultiplicity(e.seven, c);
    }
    if Distinct(e.eight) {
      DistinctMultiplicity(e.eight, c);
    }
  }

  /** The first candidate not among the balls already chosen. */
  function FirstFresh(cands: seq<int>, chosen: seq<int>): (r: Option<int>)
    ensures r.Some? ==> r.value in cands && r.value !in chosen
    ensures r.None? ==> forall c :: c in cands ==> c in chosen
  {
    if |cands| == 0 then None
    else if cands[0] !in chosen then Some(cands[0])
    else FirstFresh(cands[1..], chosen)
  }

  /** Every candidate before the one picked is already chosen. */
  lemma {:induction false} FirstFreshIsFirst(cands: seq<int>, chosen: seq<int>)
    ensures FirstFresh(cands, chosen).Some? ==>
      exists i :: 0 <= i < |cands| && cands[i] == FirstFresh(cands, chosen).value &&
        forall j :: 0 <= j < i ==> cands[j] in chosen
  {
    if |cands| > 0 && cands[0] in chosen {
      FirstFreshIsFirst(cands[1..], chosen);
      if FirstFresh(cands, chosen).Some? {
        var i :| 0 <= i < |cands[1..]| && cands[1..][i] == FirstFresh(cands, chosen).value &&
          forall j :: 0 <= j < i ==> cands[1..][j] in chosen;
        assert cands[i + 1] == FirstFresh(cands, chosen).value;
        forall j | 0 <= j < i + 1
          ensures cands[j] in chosen
        {
          if j > 0 {
            assert cands[j] == cands[1..][j - 1];
          }
        }
      }
    } else if |cands| > 0 {
      assert cands[0] == FirstFresh(cands, chosen).value;
    }
  }

  /** The next extension ball: the first unused candidate, else the safe extension. */
  function Pick(cands: seq<int>, chosen: seq<int>): int
  {
    match FirstFresh(cands, chosen)
    case Some(c) => c
    case None => SafeExtension(chosen)
  }

  /** With red candidates and a ball to spare, the pick is an unused red. */
  lemma PickFacts(cands: seq<int>, chosen: seq<int>)
    requires forall c :: c in cands ==> IsRed(c)
    requires |chosen| < 33
    ensures IsRed(Pick(cands, chosen)) && Pick(cands, chosen) !in chosen
  {
    FreeRedExists(chosen);
    SafeExtensionFacts(chosen);
  }

  /** The reds as the repair evidently intends them: each extension ball is one not already chosen. */
  function Extend(base: seq<int>, cands: seq<int>): Extension
  {
    var seven := SortInts(base + [Pick(cands, base)]);
    Extension(seven, SortInts(seven + [Pick(cands, seven)]))
  }

  /**
   * From six distinct reds and red candidates, 7+1 is the six plus one
   * more red and 8+1 the seven plus one more, each distinct and sorted;
   * the first extension ball is the first candidate not in 6+1 when
   * there is one.
   */
  lemma ExtendFacts(base: seq<int>, cands: seq<int>)
    requires WellFormed(base) && AllRed(cands)
    ensures var e := Extend(base, cands);
      |e.seven| == 7 && Distinct(e.seven) && NonDecreasing(e.seven) && AllRed(e.seven) &&
      |e.eight| == 8 && Distinct(e.eight) && NonDecreasing(e.eight) && AllRed(e.eight) &&
      (forall b :: b in base ==> b in e.seven) && (forall b :: b in e.seven ==> b in e.eight)
    ensures FirstFresh(cands, base).Some? ==> FirstFresh(cands, base).value in Extend(base, cands).seven
  {
    var x := Pick(cands, base);
    PickFacts(cands, base);
    AddFreshRed(base, x);
    var seven := SortInts(base + [x]);
    var y := Pick(cands, seven);
    PickFacts(cands, seven);
    AddFreshRed(seven, y);
  }

  /** The 7+1 or 8+1 entry written from the base: new reds, base blue, scaled confidence, suffixed strategy. */
  function Extended(prev: Option<Prediction>, reds: seq<int>, base: Prediction, factor: real, suffix: string): Prediction
  {
    var confidence := base.confidence * factor;
    var strategy := base.strategy + suffix;
    match prev
    case Some(p) => p.(reds := reds, blue := base.blue, confidence := confidence, strategy := strategy)
    case None => Prediction(reds, base.blue, confidence, strategy, None, None, None, None)
  }

  /** The repair applies only when 6+1 is present with exactly six reds. */
  predicate Repairable(ps: PredictionSet)
  {
    ps.six.Some? && |ps.six.value.reds| == 6
  }

  function WithExtension(ps: PredictionSet, base: Prediction, e: Extension): PredictionSet
  {
    ps.(seven := Some(Extended(ps.seven, e.seven, base, 0.9, " + 扩展")),
        eight := Some(Extended(ps.eight, e.eight, base, 0.8, " + 双重扩展")))
  }

  /** `_ensure_prediction_hierarchy` as written. */
  function EnsureHierarchyAsWritten(ps: PredictionSet, cands: seq<int>): PredictionSet
  {
    if !Repairable(ps) then ps
    else WithExtension(ps, ps.six.value, ExtendAsWritten(ps.six.value.reds, cands))
  }

  /** `_ensure_prediction_hierarchy` with the extension balls drawn from the unused candidates. */
  function EnsureHierarchy(ps: PredictionSet, cands: seq<int>): PredictionSet
  {
    if !Repairable(ps) then ps
    else WithExtension(ps, ps.six.value, Extend(ps.six.value.reds, cands))
  }

  /**
   * When the first candidate is not among the reds and the second is
   * neither among them nor the first, the corrected extension is the
   * extension as written.
   */
  lemma {:induction false} ExtendAgrees(base: seq<int>, cands: seq<int>)
    requires |cands| >= 1 ==> cands[0] !in base
    requires |cands| >= 2 ==> cands[1] !in base && cands[1] != cands[0]
    ensures Extend(base, cands) == ExtendAsWritten(base, cands)
  {
    if |cands| >= 1 {
      var c := cands[0];
      assert FirstFresh(cands, base) == Some(c);
      var seven := SortInts(base + [c]);
      assert multiset(seven) == multiset(base) + multiset{c};
      assert c in multiset(seven);
      assert FirstFresh(cands, seven) == FirstFresh(cands[1..], seven);
      if |cands| >= 2 {
        var d := cands[1];
        assert d !in multiset(base);
        assert d !in multiset(seven);
        assert cands[1..][0] == d;
        assert Pick(cands, seven) == d;
      } else {
        assert cands[1..] == [];
        assert Pick(cands, seven) == SafeExtension(seven);
      }
      assert Pick(cands, base) == c;
    }
  }

  /**
   * On a six-red 6+1 whose first candidate is fresh and whose second, if
   * any, is not in the 7+1 as written, the corrected repair gives what
   * the repair as written gives.
   */
  lemma HierarchyAgrees(ps: PredictionSet, cands: seq<int>)
    requires Repairable(ps)
    requires |cands| >= 1 ==> cands[0] !in ps.six.value.reds
    requires |cands| >= 2 ==> cands[1] !in ExtendAsWritten(ps.six.value.reds, cands).seven
    ensures EnsureHierarchy(ps, cands) == EnsureHierarchyAsWritten(ps, cands)
  {
    var base := ps.six.value.reds;
    if |cands| >= 2 {
      var seven := ExtendAsWritten(base, cands).seven;
      assert multiset(seven) == multiset(base) + multiset{cands[0]};
      assert cands[0] in multiset(seven);
      assert cands[1] !in multiset(seven);
    }
    ExtendAgrees(base, cands);
  }

  /** As written, a well-formed 6+1 can be extended into a 7+1 that repeats a ball. */
  lemma EnsureHierarchyAsWrittenDuplicate(ps: PredictionSet, cands: seq<int>)
    requires Repairable(ps) && |cands| >= 1 && cands[0] in ps.six.value.reds
    ensures var r := EnsureHierarchyAsWritten(ps, cands);
      r.seven.Some? && r.eight.Some? && !Distinct(r.seven.value.reds) && !Distinct(r.eight.value.reds)
  {
    RepeatedCandidate(ps.six.value.reds, cands);
  }

  /**
   * The smallest such case: a well-formed 6+1 of the balls 1..6 whose
   * first hot ball is 1 gives a 7+1 holding the ball 1 twice.
   */
  lemma HierarchyDuplicateExample(reds: seq<int>, cands: seq<int>)
    requires reds == [1, 2, 3, 4, 5, 6] && cands == [1, 2]
    ensures var ps := PredictionSet(Some(Prediction(reds, 7, 80.0, "热号优先", None, None, None, None)), None, None);
      var r := EnsureHierarchyAsWritten(ps, cands);
      WellFormed(reds) && AllRed(cands) && r.seven.Some? && !Distinct(r.seven.value.reds)
  {
    var ps := PredictionSet(Some(Prediction(reds, 7, 80.0, "热号优先", None, None, None, None)), None, None);
    assert WellFormed(reds) by {
      assert forall i :: 0 <= i < |reds| ==> reds[i] == i + 1;
    }
    assert AllRed(cands) by {
      assert forall i :: 0 <= i < |cands| ==> cands[i] == i + 1;
    }
    assert cands[0] in reds by {
      assert reds[0] == 1;
    }
    EnsureHierarchyAsWrittenDuplicate(ps, cands);
  }

  /**
   * Without a six-red 6+1 the result is untouched. Otherwise 6+1 stays
   * as it is, 7+1 holds the six reds and one more, 8+1 the seven and one
   * more, all distinct and sorted reds when 6+1 is; both take the base
   * blue, 0.9 and 0.8 of its confidence and its strategy with a suffix,
   * and keep whatever else an earlier entry held.
   */
  lemma EnsureHierarchyFacts(ps: PredictionSet, cands: seq<int>)
    requires AllRed(cands)
    ensures !Repairable(ps) ==> EnsureHierarchy(ps, cands) == ps
    ensures Repairable(ps) ==>
      var b := ps.six.value;
      var r := EnsureHierarchy(ps, cands);
      r.six == ps.six && r.seven.Some? && r.eight.Some? &&
      r.seven.value.blue == b.blue && r.eight.value.blue == b.blue &&
      r.seven.value.confidence == b.confidence * 0.9 && r.eight.value.confidence == b.confidence * 0.8 &&
      r.seven.value.strategy == b.strategy + " + 扩展" && r.eight.value.strategy == b.strategy + " + 双重扩展" &&
      (ps.seven.Some? ==>
        r.seven.value.mlOverlap == ps.seven.value.mlOverlap &&
        r.seven.value.probabilityAdjustment == ps.seven.value.probabilityAdjustment) &&
      (ps.eight.Some? ==>
        r.eight.value.mlOverlap == ps.eight.value.mlOverlap &&
        r.eight.value.probabilityAdjustment == ps.eight.value.probabilityAdjustment)
    ensures Repairable(ps) && WellFormed(ps.six.value.reds) ==>
      var r := EnsureHierarchy(ps, cands);
      var s7, s8 := r.seven.value.reds, r.eight.value.reds;
      |s7| == 7 && Distinct(s7) && NonDecreasing(s7) && AllRed(s7) &&
      |s8| == 8 && Distinct(s8) && NonDecreasing(s8) && AllRed(s8) &&
      (forall x :: x in ps.six.value.reds ==> x in s7) && (forall x :: x in s7 ==> x in s8)
  {
    if Repairable(ps) && WellFormed(ps.six.value.reds) {
      ExtendFacts(ps.six.value.reds, cands);
    }
  }

  // ---------------------------------------------------------------------
  // Adjustment from the ML prediction

  /** The ML prediction stored in a result: its error flag, confidence and balls. */
  datatype MlPrediction = MlPrediction(hasError: bool, confidence: real, balls: seq<int>)

  /** `ml_suggestions` (the timestamp left out). */
  datatype MlSuggestion = MlSuggestion(confidence: real, topPicks: seq<int>, fullSet: seq<int>)

  /** An ML prediction without error and with at least six balls. */
  predicate MlUsable(ml: Option<MlPrediction>)
  {
    ml.Some? && !ml.value.hasError && |ml.value.balls| >= 6
  }

  /** 6+1 after the ML adjustment: two points per red shared with the first six ML balls, capped at 100. */
  function MlAdjusted(p: Prediction, balls: seq<int>): Prediction
    requires |balls| >= 6
  {
    var overlap := Overlap(p.reds, balls[..6]);
    var adjustment := overlap * 2;
    var q := p.(confidence := RealMin(100.0, p.confidence + adjustment as real));
    if adjustment > 0 then q.(mlAdjustment := Some(adjustment), mlOverlap := Some(overlap)) else q
  }

  /** `_adjust_with_ml_predictions` on the three combinations. */
  function MlAdjustedSet(ps: PredictionSet, ml: Option<MlPrediction>): PredictionSet
  {
    if MlUsable(ml) && ps.six.Some? then ps.(six := Some(MlAdjusted(ps.six.value, ml.value.balls))) else ps
  }

  /** The suggestion the adjustment records. */
  function MlSuggestionOf(ml: Option<MlPrediction>): Option<MlSuggestion>
  {
    if MlUsable(ml) then Some(MlSuggestion(ml.value.confidence, ml.value.balls[..6], ml.value.balls)) else None
  }

  /**
   * Only 6+1 changes, and only with a usable ML prediction: its reds,
   * blue and strategy stay, its confidence becomes the smaller of 100 and
   * itself plus twice the number of reds it shares with the first six ML
   * balls, so it rises by at most 12 and never falls from at most 100;
   * the shared count is recorded when positive. The suggestion is the
   * first six ML balls and the whole list.
   */
  lemma MlAdjustFacts(ps: PredictionSet, ml: Option<MlPrediction>)
    ensures !MlUsable(ml) ==> MlAdjustedSet(ps, ml) == ps && MlSuggestionOf(ml).None?
    ensures MlAdjustedSet(ps, ml).seven == ps.seven && MlAdjustedSet(ps, ml).eight == ps.eight
    ensures MlUsable(ml) ==>
      var s := MlSuggestionOf(ml).value;
      s.topPicks == ml.value.balls[..6] && s.fullSet == ml.value.balls && |s.topPicks| == 6
    ensures MlUsable(ml) && ps.six.Some? ==>
      var p, q := ps.six.value, MlAdjustedSet(ps, ml).six.value;
      var k := Overlap(p.reds, ml.value.balls[..6]);
      k <= 6 && q.reds == p.reds && q.blue == p.blue && q.strategy == p.strategy &&
      q.confidence == RealMin(100.0, p.confidence + (2 * k) as real) &&
      q.confidence <= 100.0 && q.confidence <= p.confidence + 12.0 &&
      (p.confidence <= 100.0 ==> p.confidence <= q.confidence) &&
      (q.mlOverlap.Some? <==> k > 0 || p.mlOverlap.Some?) &&
      (k > 0 ==> q.mlOverlap == Some(k) && q.mlAdjustment == Some(2 * k))
  {
    if MlUsable(ml) && ps.six.Some? {
      OverlapBound(ps.six.value.reds, ml.value.balls[..6]);
    }
  }

  // ---------------------------------------------------------------------
  // Adjustment from the repeat probabilities

  /** `probability_insights` */
  datatype Insights = Insights(
    mostLikelyRepeatCount: Option<int>, blueRepeatProbability: real,
    predictedAvgRepeat: real, predictedBlueRepeat: real, primaryWindow: string)

  /** The windows in the order they are preferred as the primary one. */
  const PrimaryOrder: seq<string> := [LongTerm, MediumTerm, ShortTerm, AllHistory]

  /** The first window of `order` that was analysed. */
  function PrimaryWindow(rs: seq<Probability.Named>, order: seq<string>): (r: Option<string>)
    ensures r.Some? ==> r.value in order && Probability.Lookup(rs, r.value).Some?
    ensures r.None? <==> forall n :: n in order ==> Probability.Lookup(rs, n).None?
    ensures r.Some? ==>
      exists i :: 0 <= i < |order| && order[i] == r.value &&
        forall j :: 0 <= j < i ==> Probability.Lookup(rs, order[j]).None?
  {
    if |order| == 0 then None
    else if Probability.Lookup(rs, order[0]).Some? then
      assert order[0] == order[0];
      Some(order[0])
    else
      var r := PrimaryWindow(rs, order[1..]);
      assert forall n :: n in order ==> n == order[0] || n in order[1..];
      if r.Some? then
        ghost var i :| 0 <= i < |order[1..]| && order[1..][i] == r.value &&
          forall j :: 0 <= j < i ==> Probability.Lookup(rs, order[1..][j]).None?;
        assert order[i + 1] == r.value;
        assert forall j :: 0 < j < i + 1 ==> order[j] == order[1..][j - 1];
        r
      else r
  }

  /**
   * `max(dist.items(), key=lambda x: x[1])[0]` over a distribution whose
   * keys are the repeat counts 0..hi in ascending order: the first count
   * with the largest probability, none for an empty distribution.
   */
  function FirstMax(d: map<int, real>, hi: int): (r: Option<int>)
    ensures r.Some? ==> 0 <= r.value <= hi && r.value in d
    decreases hi
  {
    if hi < 0 then None
    else
      var m := FirstMax(d, hi - 1);
      if hi !in d then m
      else if m.None? || d[hi] > d[m.value] then Some(hi)
      else m
  }

  /**
   * No count when no key 0..hi is present; otherwise a present count
   * whose probability is the largest, strictly above every earlier one.
   */
  lemma {:induction false} FirstMaxFacts(d: map<int, real>, hi: int)
    requires hi >= -1
    ensures FirstMax(d, hi).None? <==> forall c :: 0 <= c <= hi ==> c !in d
    ensures FirstMax(d, hi).Some? ==>
      var k := FirstMax(d, hi).value;
      0 <= k <= hi && k in d &&
      (forall c :: 0 <= c <= hi && c in d ==> d[c] <= d[k]) &&
      (forall c :: 0 <= c < k && c in d ==> d[c] < d[k])
    decreases hi
  {
    if hi >= 0 {
      FirstMaxFacts(d, hi - 1);
    }
  }

  /**
   * On a distribution over the counts 0..6 with no negative probability,
   * the service's most likely count is the analyzer's.
   */
  lemma FirstMaxIsScanBest(d: map<int, real>)
    requires forall c :: c in d <==> 0 <= c <= 6
    requires forall c :: c in d ==> d[c] >= 0.0
    ensures FirstMax(d, 6) == Some(Probability.ScanBest(d, 6).count)
  {
    FirstMaxFacts(d, 6);
    Probability.ScanBestFacts(d, 6);
    assert 0 in d;
    var k := FirstMax(d, 6).value;
    var s := Probability.ScanBest(d, 6);
    if s.prob > 0.0 {
      assert d[k] == s.prob;
      assert k <= s.count;
    } else {
      assert d[k] == 0.0 && d[0] == 0.0;
    }
  }

  /** The insights of the primary window, none when no window was analysed. */
  function InsightsOf(rs: seq<Probability.Named>): Option<Insights>
  {
    match PrimaryWindow(rs, PrimaryOrder)
    case None => None
    case Some(name) =>
      var w := Probability.Lookup(rs, name).value;
      var dist := w.repeatDistribution;
      Some(Insights(FirstMax(dist, 6), w.blueRepeatProbability,
                    w.currentPredictions.avgRepeatCount, w.currentPredictions.blueRepeatProbability, name))
  }

  /** `primary_probabilities.get('most_likely_repeat_count', 0)` */
  function MostLikelyOrZero(i: Insights): int
  {
    match i.mostLikelyRepeatCount
    case Some(c) => c
    case None => 0
  }

  /** Five times the blue repeat probability above 15%, plus 3 for a most likely count of 2 or 3. */
  function ProbabilityAdjustment(blue: real, mostLikely: int): real
  {
    (if blue > 0.15 then 5.0 * blue else 0.0) + (if 2 <= mostLikely <= 3 then 3.0 else 0.0)
  }

  /** One combination after the probability adjustment. */
  function ProbabilityAdjusted(p: Option<Prediction>, adjustment: real, window: string): Option<Prediction>
  {
    match p
    case None => None
    case Some(q) =>
      if adjustment != 0.0 then
        Some(q.(confidence := RealMin(100.0, RealMax(0.0, q.confidence + adjustment)),
                probabilityAdjustment := Some(adjustment),
                adjustmentReason := Some("基于" + window + "窗口概率分析")))
      else p
  }

  /** `_adjust_predictions_with_probability` on the three combinations. */
  function ProbabilityAdjustedSet(ps: PredictionSet, rs: seq<Probability.Named>): PredictionSet
  {
    match InsightsOf(rs)
    case None => ps
    case Some(i) =>
      var a := ProbabilityAdjustment(i.blueRepeatProbability, MostLikelyOrZero(i));
      PredictionSet(ProbabilityAdjusted(ps.six, a, i.primaryWindow),
                    ProbabilityAdjusted(ps.seven, a, i.primaryWindow),
                    ProbabilityAdjusted(ps.eight, a, i.primaryWindow))
  }

  /**
   * The adjustment is never negative, at most 8 for a probability, and
   * zero exactly when the blue probability is at most 15% and the most
   * likely count is not 2 or 3.
   */
  lemma ProbabilityAdjustmentFacts(blue: real, mostLikely: int)
    ensures ProbabilityAdjustment(blue, mostLikely) >= 0.0
    ensures blue <= 1.0 ==> ProbabilityAdjustment(blue, mostLikely) <= 8.0
    ensures ProbabilityAdjustment(blue, mostLikely) == 0.0 <==> blue <= 0.15 && !(2 <= mostLikely <= 3)
  {
  }

  /**
   * A zero adjustment leaves a combination as it was; otherwise reds,
   * blue and strategy stay, a confidence within 0..100 never falls and
   * stays within 0..100, and the adjustment and its reason are recorded.
   */
  lemma ProbabilityAdjustedFacts(p: Option<Prediction>, adjustment: real, window: string)
    requires adjustment >= 0.0
    ensures p.None? ==> ProbabilityAdjusted(p, adjustment, window).None?
    ensures adjustment == 0.0 ==> ProbabilityAdjusted(p, adjustment, window) == p
    ensures p.Some? && adjustment != 0.0 ==>
      var q, r := p.value, ProbabilityAdjusted(p, adjustment, window).value;
      r.reds == q.reds && r.blue == q.blue && r.strategy == q.strategy &&
      0.0 <= r.confidence <= 100.0 &&
      (q.confidence <= 100.0 ==> q.confidence <= r.confidence) &&
      (0.0 <= q.confidence ==> r.confidence <= q.confidence + adjustment) &&
      r.probabilityAdjustment == Some(adjustment) &&
      r.adjustmentReason == Some("基于" + window + "窗口概率分析")
  {
  }

  /**
   * Without an analysed window nothing changes; otherwise the primary
   * window is the first analysed of long, medium, short and all history,
   * and every combination present is adjusted by the same amount.
   */
  lemma ProbabilityAdjustedSetFacts(ps: PredictionSet, rs: seq<Probability.Named>)
    ensures InsightsOf(rs).None? <==> forall n :: n in PrimaryOrder ==> Probability.Lookup(rs, n).None?
    ensures InsightsOf(rs).None? ==> ProbabilityAdjustedSet(ps, rs) == ps
    ensures InsightsOf(rs).Some? ==>
      var i := InsightsOf(rs).value;
      var w := Probability.Lookup(rs, i.primaryWindow);
      var a := ProbabilityAdjustment(i.blueRepeatProbability, MostLikelyOrZero(i));
      w.Some? && i.blueRepeatProbability == w.value.blueRepeatProbability &&
      (Probability.Lookup(rs, LongTerm).Some? ==> i.primaryWindow == LongTerm) &&
      (Probability.Lookup(rs, LongTerm).None? && Probability.Lookup(rs, MediumTerm).Some? ==>
        i.primaryWindow == MediumTerm) &&
      ProbabilityAdjustedSet(ps, rs).six == ProbabilityAdjusted(ps.six, a, i.primaryWindow) &&
      ProbabilityAdjustedSet(ps, rs).seven == ProbabilityAdjusted(ps.seven, a, i.primaryWindow) &&
      ProbabilityAdjustedSet(ps, rs).eight == ProbabilityAdjusted(ps.eight, a, i.primaryWindow) &&
      a >= 0.0
  {
    var p := PrimaryWindow(rs, PrimaryOrder);
    assert PrimaryOrder[0] == LongTerm && PrimaryOrder[1] == MediumTerm;
    if p.Some? {
      var i :| 0 <= i < |PrimaryOrder| && PrimaryOrder[i] == p.value &&
        forall j :: 0 <= j < i ==> Probability.Lookup(rs, PrimaryOrder[j]).None?;
      var ins := InsightsOf(rs).value;
      ProbabilityAdjustmentFacts(ins.blueRepeatProbability, MostLikelyOrZero(ins));
    }
  }

  // ---------------------------------------------------------------------
  // Cross-window repeat trends

  /** One repeat count with the probabilities the analysed windows give it. */
  datatype CountProbabilities = CountProbabilities(count: int, probabilities: seq<Probability.WindowProb>)

  /** `_analyze_repeat_trends` for the counts 0..hi. */
  function RepeatTrends(rs: seq<Probability.Named>, hi: int): seq<CountProbabilities>
    decreases hi
  {
    if hi < 0 then []
    else
      var t := RepeatTrends(rs, hi - 1);
      var ps := Probability.WindowProbs(rs, Probability.WindowOrder, hi);
      if |ps| > 0 then t + [CountProbabilities(hi, ps)] else t
  }

  /**
   * The service's trends are the analyzer's without the labels: the same
   * counts with the same window probabilities; empty exactly when no
   * window was analysed, and then otherwise every count 0..hi.
   */
  lemma {:induction false} RepeatTrendsMatch(rs: seq<Probability.Named>, hi: int)
    requires hi >= -1
    ensures var r, a := RepeatTrends(rs, hi), Probability.RepeatTrends(rs, hi);
      |r| == |a| &&
      forall i :: 0 <= i < |r| ==> r[i].count == a[i].count && r[i].probabilities == a[i].probabilities
    ensures hi >= 0 ==> (Probability.Present(rs, Probability.WindowOrder) == [] <==> RepeatTrends(rs, hi) == [])
    ensures Probability.Present(rs, Probability.WindowOrder) != [] ==> |RepeatTrends(rs, hi)| == hi + 1
    decreases hi
  {
    Probability.RepeatTrendsFacts(rs, hi);
    if hi >= 0 {
      RepeatTrendsMatch(rs, hi - 1);
      Probability.WindowProbsFacts(rs, Probability.WindowOrder, hi);
      var ps := Probability.WindowProbs(rs, Probability.WindowOrder, hi);
      assert |ps| == |Probability.Present(rs, Probability.WindowOrder)|;
    }
  }

  /** `_determine_trend` */
  function DetermineTrend(p: seq<real>): string
  {
    if |p| < 2 then "数据不足"
    else
      var increasing := forall i :: 0 <= i < |p| - 1 ==> p[i] <= p[i + 1];
      var decreasing := forall i :: 0 <= i < |p| - 1 ==> p[i] >= p[i + 1];
      var maxDiff := Spread.RealSeqMax(p) - Spread.RealSeqMin(p);
      if |p| == 4 then
        if increasing && maxDiff > 0.02 then "递增"
        else if decreasing && maxDiff > 0.02 then "递减"
        else if maxDiff <= 0.02 then "稳定"
        else "波动"
      else "数据不完整"
  }

  /**
   * The service labels a trend exactly as the probability analyzer does:
   * too few values, an incomplete set of windows, a rise or fall of more
   * than 2% from the first window to the last, a spread of at most 2%,
   * or a fluctuation.
   */
  lemma DetermineTrendMeaning(p: seq<real>)
    ensures DetermineTrend(p) == Probability.TrendType(p)
    ensures DetermineTrend(p) == "数据不足" <==> |p| < 2
    ensures DetermineTrend(p) == "数据不完整" <==> |p| >= 2 && |p| != 4
    ensures DetermineTrend(p) == "递增" <==> |p| == 4 && Spread.Rising(p) && p[3] - p[0] > 0.02
    ensures DetermineTrend(p) == "递减" <==> |p| == 4 && Spread.Falling(p) && p[0] - p[3] > 0.02
    ensures DetermineTrend(p) == "稳定" <==>
      |p| == 4 && forall i, j :: 0 <= i < 4 && 0 <= j < 4 ==> p[i] - p[j] <= 0.02
  {
    Probability.TrendTypeMeaning(p);
  }

  // ---------------------------------------------------------------------
  // Per-window statistics

  /** One entry of the multi-window statistics. */
  datatype WindowStatistics = WindowStatistics(
    windowName: string, periodUsed: int, periodConfig: int, stats: Database.PeriodStats)

  /** The three windows the statistics cover, in order. */
  const StatisticsWindows: seq<string> := [ShortTerm, MediumTerm, LongTerm]

  /** The size assumed for a window missing from the configuration. */
  function DefaultPeriod(name: string): int
  {
    if name == ShortTerm then 30 else if name == MediumTerm then 50 else 100
  }

  /** `all_windows.get(name, default)` */
  function ConfiguredPeriod(config: map<string, Option<int>>, name: string): Option<int>
  {
    if name in config then config[name] else Some(DefaultPeriod(name))
  }

  /** A window's entry: none for an unbounded window, a window under ten draws or no data. */
  function WindowStatisticsOf(name: string, period: Option<int>, all: seq<Draw>): Option<WindowStatistics>
  {
    match period
    case None => None
    case Some(p) =>
      var effective := if |all| > 0 then Min(p, |all|) else p;
      if effective < 10 then None
      else
        match Database.StatisticsWithPeriod(all, effective)
        case None => None
        case Some(s) => Some(WindowStatistics(name, effective, p, s))
  }

  /**
   * A window has an entry exactly when it is bounded and holds at least
   * ten of the stored draws; the entry uses that many draws, which is
   * what its statistics count.
   */
  lemma WindowStatisticsFacts(name: string, period: Option<int>, all: seq<Draw>)
    ensures WindowStatisticsOf(name, period, all).Some? <==>
      period.Some? && |all| > 0 && Min(period.value, |all|) >= 10
    ensures WindowStatisticsOf(name, period, all).Some? ==>
      var e := WindowStatisticsOf(name, period, all).value;
      e.windowName == name && e.periodConfig == period.value &&
      e.periodUsed == Min(period.value, |all|) && 10 <= e.periodUsed <= |all| &&
      e.stats.totalGames == e.periodUsed &&
      Database.StatisticsWithPeriod(all, e.periodUsed) == Some(e.stats)
  {
    if period.Some? {
      var p := period.value;
      var effective := if |all| > 0 then Min(p, |all|) else p;
      Database.StatisticsSums(all, effective);
    }
  }

  /** The entries of the windows of `names`, keyed by window. */
  function Gathered(config: map<string, Option<int>>, all: seq<Draw>, names: seq<string>): map<string, WindowStatistics>
  {
    if |names| == 0 then map[]
    else
      var m := Gathered(config, all, names[..|names| - 1]);
      var n := names[|names| - 1];
      match WindowStatisticsOf(n, ConfiguredPeriod(config, n), all)
      case None => m
      case Some(s) => m[n := s]
  }

  /** `_get_multi_window_statistics` over the stored draws. */
  function MultiWindowStatistics(config: map<string, Option<int>>, all: seq<Draw>): map<string, WindowStatistics>
  {
    Gathered(config, all, StatisticsWindows)
  }

  lemma {:induction false} GatheredFacts(config: map<string, Option<int>>, all: seq<Draw>, names: seq<string>)
    ensures forall k :: k in Gathered(config, all, names) <==>
      k in names && WindowStatisticsOf(k, ConfiguredPeriod(config, k), all).Some?
    ensures forall k :: k in Gathered(config, all, names) ==>
      Gathered(config, all, names)[k] == WindowStatisticsOf(k, ConfiguredPeriod(config, k), all).value
  {
    if |names| > 0 {
      GatheredFacts(config, all, names[..|names| - 1]);
      assert names == names[..|names| - 1] + [names[|names| - 1]];
    }
  }

  /**
   * The statistics hold an entry for each of the short, medium and long
   * windows that is configured bounded (a missing window counting as
   * 30, 50 or 100) and covers at least ten stored draws, and for no
   * other; each entry is keyed by its window and counts the draws used.
   */
  lemma MultiWindowStatisticsFacts(config: map<string, Option<int>>, all: seq<Draw>)
    ensures forall k :: k in MultiWindowStatistics(config, all) <==>
      k in StatisticsWindows && ConfiguredPeriod(config, k).Some? && |all| > 0 &&
      Min(ConfiguredPeriod(config, k).value, |all|) >= 10
    ensures forall k :: k in MultiWindowStatistics(config, all) ==>
      var e := MultiWindowStatistics(config, all)[k];
      e.windowName == k && ConfiguredPeriod(config, k) == Some(e.periodConfig) &&
      e.periodUsed == Min(e.periodConfig, |all|) && 10 <= e.periodUsed <= |all| &&
      e.stats.totalGames == e.periodUsed
  {
    GatheredFacts(config, all, StatisticsWindows);
    forall k
      ensures WindowStatisticsOf(k, ConfiguredPeriod(config, k), all).Some? <==>
        ConfiguredPeriod(config, k).Some? && |all| > 0 && Min(ConfiguredPeriod(config, k).value, |all|) >= 10
      ensures WindowStatisticsOf(k, ConfiguredPeriod(config, k), all).Some? ==>
        var e := WindowStatisticsOf(k, ConfiguredPeriod(config, k), all).value;
        e.windowName == k && ConfiguredPeriod(config, k) == Some(e.periodConfig) &&
        e.periodUsed == Min(e.periodConfig, |all|) && 10 <= e.periodUsed <= |all| &&
        e.stats.totalGames == e.periodUsed
    {
      WindowStatisticsFacts(k, ConfiguredPeriod(config, k), all);
    }
  }

  // ---------------------------------------------------------------------
  // Report history

  /** The fields of a save result the history reads. */
  datatype SaveResult = SaveResult(
    success: bool, timestamp: Option<string>, filepath: Option<string>, filename: Option<string>, size: Option<int>)

  datatype HistoryEntry = HistoryEntry(timestamp: string, filepath: Option<string>, filename: Option<string>, size: int)

  const HistoryLimit := 50

  /** The history entry of a save result, stamped `now` and sized 0 when those are missing. */
  function EntryOf(save: SaveResult, now: string): HistoryEntry
  {
    HistoryEntry(
      match save.timestamp case Some(t) => t case None => now,
      save.filepath, save.filename,
      match save.size case Some(s) => s case None => 0)
  }

  /** `add_to_history` on the history's value. */
  function Recorded(history: seq<HistoryEntry>, save: SaveResult, now: string): seq<HistoryEntry>
  {
    if !save.success then history
    else
      var h := history + [EntryOf(save, now)];
      if |h| > HistoryLimit then SliceFrom(h, -HistoryLimit) else h
  }

  /**
   * A failed save changes nothing. A successful one appends its entry
   * and drops the oldest entries beyond fifty, so the history ends with
   * the new entry, is the newest part of the old history plus that entry,
   * and never holds more than fifty once it held at most fifty.
   */
  lemma RecordedFacts(history: seq<HistoryEntry>, save: SaveResult, now: string)
    ensures !save.success ==> Recorded(history, save, now) == history
    ensures save.success ==>
      var h, r := history + [EntryOf(save, now)], Recorded(history, save, now);
      |r| == Min(|h|, HistoryLimit) && r == h[|h| - |r|..] && r[|r| - 1] == EntryOf(save, now)
    ensures |history| <= HistoryLimit ==> |Recorded(history, save, now)| <= HistoryLimit
  {
    var h := history + [EntryOf(save, now)];
    TakeLast(h, HistoryLimit);
  }

  /** `history[-limit:] if history else []` */
  function HistoryView(history: seq<HistoryEntry>, limit: int): seq<HistoryEntry>
  {
    if |history| > 0 then SliceFrom(history, -limit) else []
  }

  /**
   * A positive limit gives the newest `limit` entries (all of them when
   * fewer); a zero limit gives the whole history, since `-0` is `0`; a
   * negative limit drops that many of the oldest entries.
   */
  lemma HistoryViewFacts(history: seq<HistoryEntry>, limit: int)
    ensures limit > 0 ==> HistoryView(history, limit) == history[|history| - Min(limit, |history|)..]
    ensures limit == 0 ==> HistoryView(history, limit) == history
    ensures limit < 0 ==> HistoryView(history, limit) == history[Min(-limit, |history|)..]
  {
    if limit >= 0 {
      TakeLast(history, limit);
    }
  }

  // ---------------------------------------------------------------------
  // The service

  /** The parts of a prediction result the service adjusts in place. */
  class PredictionResult {
    var six: Option<Prediction>
    var seven: Option<Prediction>
    var eight: Option<Prediction>
    var mlPredictions: Option<MlPrediction>
    var mlSuggestions: Option<MlSuggestion>
    var probabilityInsights: Option<Insights>

    constructor(six: Option<Prediction>, seven: Option<Prediction>, eight: Option<Prediction>,
                mlPredictions: Option<MlPrediction>)
      ensures this.six == six && this.seven == seven && this.eight == eight
      ensures this.mlPredictions == mlPredictions
      ensures mlSuggestions == None && probabilityInsights == None
    {
      this.six := six;
      this.seven := seven;
      this.eight := eight;
      this.mlPredictions := mlPredictions;
      mlSuggestions := None;
      probabilityInsights := None;
    }

    /** The three combinations. */
    function Combinations(): PredictionSet
      reads this
    {
      PredictionSet(six, seven, eight)
    }
  }

  class Service {
    const manager: WindowConfigManager
    const analyzer: HotColdTrends.HotColdAnalyzer
    /** `_hot_cold_cache`, keyed by the short-term window it was analysed for. */
    var hotColdCache: map<Option<int>, HotCold.Categories>
    var reportsHistory: seq<HistoryEntry>

    /** The history never exceeds its bound. */
    predicate Valid()
      reads this
    {
      |reportsHistory| <= HistoryLimit
    }

    constructor(manager: WindowConfigManager)
      requires manager.Valid()
      ensures Valid()
      ensures this.manager == manager && fresh(analyzer)
      ensures analyzer.shortTermWindow == manager.windowConfig[ShortTerm]
      ensures analyzer.cachedResults == map[]
      ensures hotColdCache == map[] && reportsHistory == []
    {
      this.manager := manager;
      analyzer := new HotColdTrends.HotColdAnalyzer(manager);
      hotColdCache := map[];
      reportsHistory := [];
    }

    /**
     * `_get_extension_candidates`: the categories for the short-term
     * window come from the service's cache, or from the analyzer when
     * missing and are then cached; the candidates are their hot and warm
     * reds.
     */
    method GetExtensionCandidates(records: seq<Draw>, now: real) returns (cands: seq<int>)
      requires manager.Valid()
      modifies this`hotColdCache, analyzer`cachedResults
      ensures var key := manager.windowConfig[ShortTerm];
        key in hotColdCache && hotColdCache == old(hotColdCache)[key := hotColdCache[key]] &&
        cands == Candidates(hotColdCache[key].hot, hotColdCache[key].warm)
      ensures var key := manager.windowConfig[ShortTerm];
        key in old(hotColdCache) ==>
          hotColdCache == old(hotColdCache) && analyzer.cachedResults == old(analyzer.cachedResults)
      ensures var key := manager.windowConfig[ShortTerm];
        key !in old(hotColdCache) && !old(analyzer.Fresh(analyzer.EffectiveWindow(key), now)) && |records| > 0 ==>
          hotColdCache[key] == HotCold.Classify(records, analyzer.EffectiveWindow(key), now)
      ensures var key := manager.windowConfig[ShortTerm];
        key !in old(hotColdCache) ==>
          var a := HotColdTrends.AnalyzeOutcome(old(analyzer.cachedResults), records,
                                                analyzer.EffectiveWindow(key), false, now);
          hotColdCache[key] == a.result && analyzer.cachedResults == a.cache
    {
      var key := manager.GetWindowByName(ShortTerm);
      var categories: HotCold.Categories;
      if key !in hotColdCache {
        categories := analyzer.Analyze(records, key, false, now);
        hotColdCache := hotColdCache[key := categories];
      } else {
        categories := hotColdCache[key];
      }
      cands := CollectCandidates(categories.hot, categories.warm);
    }

    /** The two loops over the hot and warm balls, then `dict.fromkeys`. */
    static method CollectCandidates(hot: seq<int>, warm: seq<int>) returns (cands: seq<int>)
      ensures cands == Candidates(hot, warm)
    {
      var picked: seq<int> := [];
      var i := 0;
      while i < |hot|
        invariant 0 <= i <= |hot|
        invariant picked == Filter(hot[..i], IsRed)
      {
        assert hot[..i + 1][..i] == hot[..i];
        if IsRed(hot[i]) {
          picked := picked + [hot[i]];
        }
        i := i + 1;
      }
      assert hot[..|hot|] == hot;
      assert hot + warm[..0] == hot;
      var j := 0;
      while j < |warm|
        invariant 0 <= j <= |warm|
        invariant picked == Filter(hot + warm[..j], IsRed)
      {
        assert (hot + warm[..j + 1])[..|hot| + j] == hot + warm[..j];
        assert (hot + warm[..j + 1])[|hot| + j] == warm[j];
        if IsRed(warm[j]) {
          picked := picked + [warm[j]];
        }
        j := j + 1;
      }
      assert warm[..|warm|] == warm;
      cands := Dedupe(picked);
    }

    /**
     * `_ensure_prediction_hierarchy`: with a six-red 6+1 the extension
     * candidates are fetched and 7+1 and 8+1 rebuilt from them; otherwise
     * nothing, not even the cache, changes.
     */
    method EnsurePredictionHierarchy(result: PredictionResult, records: seq<Draw>, now: real)
      requires manager.Valid()
      modifies result`seven, result`eight, this`hotColdCache, analyzer`cachedResults
      ensures !Repairable(old(result.Combinations())) ==>
        result.Combinations() == old(result.Combinations()) &&
        hotColdCache == old(hotColdCache) && analyzer.cachedResults == old(analyzer.cachedResults)
      ensures Repairable(old(result.Combinations())) ==>
        var key := manager.windowConfig[ShortTerm];
        key in hotColdCache &&
        result.Combinations() ==
          EnsureHierarchy(old(result.Combinations()), Candidates(hotColdCache[key].hot, hotColdCache[key].warm))
    {
      var ps := result.Combinations();
      if !Repairable(ps) {
        return;
      }
      var cands := GetExtensionCandidates(records, now);
      var base := ps.six.value;
      var e := Extend(base.reds, cands);
      result.seven := Some(Extended(result.seven, e.seven, base, 0.9, " + 扩展"));
      result.eight := Some(Extended(result.eight, e.eight, base, 0.8, " + 双重扩展"));
      assert EnsureHierarchy(ps, cands) == WithExtension(ps, base, e);
      assert result.Combinations() == PredictionSet(ps.six, result.seven, result.eight);
    }

    /** `_adjust_with_ml_predictions` */
    method AdjustWithMlPredictions(result: PredictionResult)
      modifies result`six, result`mlSuggestions
      ensures result.Combinations() == MlAdjustedSet(old(result.Combinations()), result.mlPredictions)
      ensures MlUsable(result.mlPredictions) ==> result.mlSuggestions == MlSuggestionOf(result.mlPredictions)
      ensures !MlUsable(result.mlPredictions) ==> result.mlSuggestions == old(result.mlSuggestions)
    {
      var ml := result.mlPredictions;
      if MlUsable(ml) {
        if result.six.Some? {
          result.six := Some(MlAdjusted(result.six.value, ml.value.balls));
        }
        result.mlSuggestions := MlSuggestionOf(ml);
      }
    }

    /** `_adjust_predictions_with_probability` over the window analysis `rs`. */
    method AdjustPredictionsWithProbability(result: PredictionResult, rs: seq<Probability.Named>)
      modifies result`six, result`seven, result`eight, result`probabilityInsights
      ensures result.Combinations() == ProbabilityAdjustedSet(old(result.Combinations()), rs)
      ensures InsightsOf(rs).Some? ==> result.probabilityInsights == InsightsOf(rs)
      ensures InsightsOf(rs).None? ==> result.probabilityInsights == old(result.probabilityInsights)
    {
      var insights := InsightsOf(rs);
      if insights.Some? {
        var i := insights.value;
        result.probabilityInsights := insights;
        var a := ProbabilityAdjustment(i.blueRepeatProbability, MostLikelyOrZero(i));
        result.six := ProbabilityAdjusted(result.six, a, i.primaryWindow);
        result.seven := ProbabilityAdjusted(result.seven, a, i.primaryWindow);
        result.eight := ProbabilityAdjusted(result.eight, a, i.primaryWindow);
      }
    }

    /** `_get_multi_window_statistics` over the stored draws. */
    method GetMultiWindowStatistics(all: seq<Draw>) returns (stats: map<string, WindowStatistics>)
      ensures stats == MultiWindowStatistics(manager.windowConfig, all)
    {
      var config := manager.GetAllWindows();
      stats := map[];
      var i := 0;
      while i < |StatisticsWindows|
        invariant 0 <= i <= |StatisticsWindows|
        invariant stats == Gathered(config, all, StatisticsWindows[..i])
      {
        stats := GatherWindow(config, all, StatisticsWindows, i, stats);
        i := i + 1;
      }
      assert StatisticsWindows[..|StatisticsWindows|] == StatisticsWindows;
    }

    /** One pass of the loop over the windows: the entry of `names[i]`, when it has one, is added. */
    static method GatherWindow(config: map<string, Option<int>>, all: seq<Draw>, names: seq<string>, i: nat,
                               stats: map<string, WindowStatistics>) returns (stats': map<string, WindowStatistics>)
      requires i < |names| && stats == Gathered(config, all, names[..i])
      ensures stats' == Gathered(config, all, names[..i + 1])
    {
      assert names[..i + 1][..i] == names[..i];
      var name := names[i];
      var period := if name in config then config[name] else Some(DefaultPeriod(name));
      var entry := WindowEntry(name, period, all);
      stats' := stats;
      if entry.Some? {
        stats' := stats[name := entry.value];
      }
    }

    /** One window of `_get_multi_window_statistics`: skipped when unbounded, under ten draws or empty. */
    static method WindowEntry(name: string, period: Option<int>, all: seq<Draw>) returns (e: Option<WindowStatistics>)
      ensures e == WindowStatisticsOf(name, period, all)
    {
      e := None;
      if period.Some? {
        var effective := if |all| > 0 then Min(period.value, |all|) else period.value;
        if effective >= 10 {
          var s := Database.StatisticsWithPeriod(all, effective);
          if s.Some? {
            e := Some(WindowStatistics(name, effective, period.value, s.value));
          }
        }
      }
    }

    /** `add_to_history` */
    method AddToHistory(save: SaveResult, now: string)
      requires Valid()
      modifies this`reportsHistory
      ensures Valid()
      ensures reportsHistory == Recorded(old(reportsHistory), save, now)
    {
      if save.success {
        reportsHistory := reportsHistory + [EntryOf(save, now)];
        if |reportsHistory| > HistoryLimit {
          reportsHistory := SliceFrom(reportsHistory, -HistoryLimit);
        }
      }
      RecordedFacts(old(reportsHistory), save, now);
    }

    /** `get_prediction_history` */
    method GetPredictionHistory(limit: int) returns (h: seq<HistoryEntry>)
      ensures h == HistoryView(reportsHistory, limit)
    {
      h := if |reportsHistory| > 0 then SliceFrom(reportsHistory, -limit) else [];
    }
  }
}
