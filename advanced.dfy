/**
 * The advanced feature processor: stage 2 (omission counters, heat
 * status, hot and cold lists) and stage 3 (inheritance, trend, pattern
 * and risk) written onto a list of records in place, pass by pass. Each
 * pass is proved to leave every record holding the value the matching
 * function of AdvancedSpec gives for its position in the list.
 */
module Advanced {
  import opened Common
  import opened Draws
  import opened Models
  import opened AdvancedSpec

  /** The three window sizes the processor reads from its configuration. */
  datatype Config = Config(heatColdWindow: int, recentAnalysisWindow: int, trendAnalysisWindow: int)

  /** The configuration used when none is given. */
  const DefaultConfig := Config(15, 10, 5)

  /** The draws of a record list, position by position. */
  function DrawsOf(records: seq<DrawRecord>): seq<Draw>
  {
    seq(|records|, k requires 0 <= k < |records| => records[k].draw)
  }

  /**
   * One pass of the red or blue counter loop: balls 1..hi of `history`
   * are reset when drawn and incremented otherwise. `rec` is the
   * per-record dictionary the loop fills; the running dictionary ends up
   * equal to it.
   */
  method UpdateOmission(drawn: seq<int>, history: map<int, int>, hi: int)
    returns (rec: map<int, int>, history': map<int, int>)
    requires forall b :: b in history <==> 1 <= b <= hi
    ensures rec == StepOmission(drawn, history, hi)
    ensures history' == rec
  {
    rec := map[];
    history' := history;
    var ball := 1;
    while ball <= hi
      invariant 1 <= ball <= Max(hi + 1, 1)
      invariant forall b :: b in history' <==> 1 <= b <= hi
      invariant forall b :: b in rec <==> 1 <= b < ball
      invariant forall b :: 1 <= b < ball ==> rec[b] == history'[b] == if b in drawn then 0 else Get(history, b) + 1
      invariant forall b :: ball <= b <= hi ==> history'[b] == history[b]
    {
      if ball in drawn {
        rec := rec[ball := 0];
        history' := history'[ball := 0];
      } else {
        history' := history'[ball := history'[ball] + 1];
        rec := rec[ball := history'[ball]];
      }
      ball := ball + 1;
    }
    assert rec.Keys == StepOmission(drawn, history, hi).Keys;
    assert rec.Keys == history'.Keys;
  }

  /** `{i: 0 for i in range(1, hi + 1)}` */
  method InitialCounters(hi: int) returns (h: map<int, int>)
    ensures h == ZeroCounters(hi)
  {
    h := map[];
    var b := 1;
    while b <= hi
      invariant 1 <= b <= Max(hi + 1, 1)
      invariant h == ZeroCounters(b - 1)
    {
      h := h[b := 0];
      b := b + 1;
    }
  }

  /** Red heat tiers of balls 1..33 from a recent Counter and the global average. */
  method RedHeatStatus(recent: map<int, int>, avg: real) returns (status: map<int, string>)
    ensures status == RedHeatMap(recent, avg)
  {
    status := map[];
    var ball := 1;
    while ball <= RedMax
      invariant 1 <= ball <= RedMax + 1
      invariant forall b :: b in status <==> 1 <= b < ball
      invariant forall b :: b in status ==> status[b] == RedHeat(Get(recent, b), avg)
    {
      var count := if ball in recent then recent[ball] else 0;
      var tier;
      if count as real >= avg * 1.3 {
        tier := Hot;
      } else if count as real <= avg * 0.7 {
        tier := Cold;
      } else {
        tier := Warm;
      }
      status := status[ball := tier];
      ball := ball + 1;
    }
    assert status.Keys == RedHeatMap(recent, avg).Keys;
  }

  /** `sum(counter.values()) / len(counter)` over a Counter filled from `xs`. */
  method AverageFrequency(counts: map<int, int>, order: seq<int>, ghost xs: seq<int>) returns (avg: real)
    requires counts == CountMap(xs) && order == Dedupe(xs)
    requires |xs| > 0
    ensures avg == AvgFreq(xs)
  {
    var total := 0;
    var k := 0;
    while k < |order|
      invariant 0 <= k <= |order|
      invariant total == ValuesSum(counts, order[..k])
    {
      assert order[..k + 1][..k] == order[..k];
      total := total + Get(counts, order[k]);
      k := k + 1;
    }
    assert order[..|order|] == order;
    AvgFreqPositive(xs);
    avg := total as real / |counts| as real;
  }

  /** `[b for b, c in counter.items() if c >= 3]` over a Counter filled from `xs`. */
  method SelectHot(counts: map<int, int>, order: seq<int>, ghost xs: seq<int>) returns (hot: seq<int>)
    requires counts == CountMap(xs)
    ensures hot == Filter(order, HotPred(xs))
  {
    CountMapFacts(xs);
    hot := [];
    var k := 0;
    while k < |order|
      invariant 0 <= k <= |order|
      invariant hot == Filter(order[..k], HotPred(xs))
    {
      assert order[..k + 1][..k] == order[..k];
      if Get(counts, order[k]) >= 3 {
        hot := hot + [order[k]];
      }
      k := k + 1;
    }
    assert order[..|order|] == order;
  }

  /**
   * `[b for b, o in red_omission.items() if o > 10]`, walking the keys in
   * the ascending order the omission pass inserted them.
   */
  method SelectCold(om: map<int, int>) returns (cold: seq<int>)
    ensures cold == Filter(Range(1, RedMax + 1), ColdPred(om))
  {
    var keys := Range(1, RedMax + 1);
    cold := [];
    var k := 0;
    while k < |keys|
      invariant 0 <= k <= |keys|
      invariant cold == Filter(keys[..k], ColdPred(om))
    {
      assert keys[..k + 1][..k] == keys[..k];
      if keys[k] in om && om[keys[k]] > 10 {
        cold := cold + [keys[k]];
      }
      k := k + 1;
    }
    assert keys[..|keys|] == keys;
  }

  /** The backward `consecutive` loop of the trend pass at record i. */
  method CountConsecutive(ds: seq<Draw>, i: int) returns (consecutive: nat)
    requires 0 <= i < |ds|
    ensures consecutive == ConsecutiveAppear(ds, i)
  {
    var stop := Max(-1, i - 5);
    consecutive := 0;
    var j := i - 1;
    while j > stop
      invariant stop <= j <= i - 1 || j == stop
      invariant consecutive + Streak(ds, i, j, stop) == ConsecutiveAppear(ds, i)
      decreases j - stop
    {
      if Overlap(ds[i].reds, ds[j].reds) > 0 {
        consecutive := consecutive + 1;
        j := j - 1;
      } else {
        break;
      }
    }
  }

  /** `int(np.mean(list(red_omission.values())))` over the keys 1..33. */
  method AverageOmission(om: map<int, int>) returns (mean: int)
    ensures mean == MeanOmission(om)
  {
    var total := 0;
    var n := 0;
    var b := 1;
    while b <= RedMax
      invariant 1 <= b <= RedMax + 1
      invariant total == KeySum(om, 1, b - 1) && n == KeyCount(om, 1, b - 1)
    {
      if b in om {
        total := total + om[b];
        n := n + 1;
      }
      b := b + 1;
    }
    if n == 0 {
      mean := 0;
    } else if total >= 0 {
      mean := total / n;
    } else {
      mean := -((-total) / n);
    }
  }

  // ---------------------------------------------------------------------
  // The fields each pass writes, as one value per record

  datatype Omissions = Omissions(red: map<int, int>, blue: Option<int>)
  datatype Heat = Heat(red: map<int, string>, blue: Option<string>)
  datatype HotCold = HotCold(hot: seq<int>, cold: seq<int>)
  datatype Inheritance = Inheritance(reds: Option<int>, blue: Option<int>)
  datatype Trend = Trend(direction: Option<string>, consecutive: Option<int>, missing: Option<int>)
  datatype Pattern = Pattern(pattern: Option<string>, risk: Option<string>)

  function OmissionsOf(r: DrawRecord): Omissions
    reads r`redOmission, r`blueOmission
  {
    Omissions(r.redOmission, r.blueOmission)
  }

  function HeatOf(r: DrawRecord): Heat
    reads r`redHeatStatus, r`blueHeatStatus
  {
    Heat(r.redHeatStatus, r.blueHeatStatus)
  }

  function HotColdOf(r: DrawRecord): HotCold
    reads r`hotRedBalls, r`coldRedBalls
  {
    HotCold(r.hotRedBalls, r.coldRedBalls)
  }

  function InheritanceOf(r: DrawRecord): Inheritance
    reads r`inheritedReds, r`inheritedBlue
  {
    Inheritance(r.inheritedReds, r.inheritedBlue)
  }

  function TrendOf(r: DrawRecord): Trend
    reads r`trendDirection, r`consecutiveAppear, r`missingPeriods
  {
    Trend(r.trendDirection, r.consecutiveAppear, r.missingPeriods)
  }

  function PatternFieldsOf(r: DrawRecord): Pattern
    reads r`patternType, r`riskLevel
  {
    Pattern(r.patternType, r.riskLevel)
  }

  // ---------------------------------------------------------------------
  // What each pass leaves in record k of draws ds

  /** Omission pass: the red omission map at k; blue set to 0 on a blue in 1..16. */
  function OmissionsAt(ds: seq<Draw>, k: int, prev: Omissions): Omissions
    requires 0 <= k < |ds|
  {
    Omissions(OmissionMap(ds, k), if IsBlue(ds[k].blue) then Some(0) else prev.blue)
  }

  /** Heat pass: red tiers over balls 1..33 and the tier of the record's blue. */
  function HeatAt(ds: seq<Draw>, k: int, w: int): Heat
    requires 0 <= k < |ds|
  {
    Heat(RedHeatOf(ds, k, w), Some(BlueHeatOf(ds, k, w)))
  }

  /** Hot/cold pass: hot balls of the window; cold balls when the omission map is non-empty. */
  function HotColdAt(ds: seq<Draw>, k: int, w: int, om: map<int, int>, prev: HotCold): HotCold
  {
    HotCold(HotBalls(Window(ds, k, w)), if om != map[] then ColdBalls(om) else prev.cold)
  }

  /** Genetic pass, for k >= 1: reds shared with record k - 1 and whether the blue repeats. */
  function InheritanceAt(ds: seq<Draw>, k: int): Inheritance
    requires 1 <= k < |ds|
  {
    Inheritance(Some(Overlap(ds[k].reds, ds[k - 1].reds)), Some(BlueRepeat(ds[k], ds[k - 1])))
  }

  /**
   * Trend pass, for k >= 4: direction of the sums s2, s1, s0 of records
   * k - 2, k - 1, k; the consecutive run; the mean omission when the map
   * is non-empty.
   */
  function TrendAt(ds: seq<Draw>, k: int, s2: Option<int>, s1: Option<int>, s0: Option<int>,
                   om: map<int, int>, prev: Trend): Trend
    requires 0 <= k < |ds|
  {
    Trend(Some(SumTrend(OrZero(s2), OrZero(s1), OrZero(s0))),
          Some(ConsecutiveAppear(ds, k)),
          if om != map[] then Some(MeanOmission(om)) else prev.missing)
  }

  /** Pattern pass: the pattern when the AC value is set, and the risk level. */
  function PatternAt(ac: Option<int>, big: Option<int>, odd: Option<int>, sum: Option<int>, prev: Pattern): Pattern
  {
    Pattern(if ac.Some? then Some(PatternOf(ac.value)) else prev.pattern,
            Some(RiskLevel(RiskFactors(big, odd, sum))))
  }

  /** Writing the pattern fields twice from the same inputs is writing them once. */
  lemma PatternAtIdempotent(ac: Option<int>, big: Option<int>, odd: Option<int>, sum: Option<int>, prev: Pattern)
    ensures PatternAt(ac, big, odd, sum, PatternAt(ac, big, odd, sum, prev)) == PatternAt(ac, big, odd, sum, prev)
  {
  }

  class AdvancedFeatureProcessor {
    const config: Config

    /** `__init__`: the given configuration, or the defaults 15 / 10 / 5. */
    constructor(config: Option<Config>)
      ensures this.config == if config.Some? then config.value else DefaultConfig
    {
      this.config := if config.Some? then config.value else DefaultConfig;
    }

    /**
     * `process_all_features`: below 2 records nothing is computed;
     * otherwise stage 2 and then stage 3, so the hot/cold and trend passes
     * see the omission maps stage 2 has just written.
     */
    method ProcessAllFeatures(records: seq<DrawRecord>) returns (out: seq<DrawRecord>)
      requires Distinct(records)
      modifies records`redOmission, records`blueOmission, records`redHeatStatus, records`blueHeatStatus,
               records`hotRedBalls, records`coldRedBalls, records`inheritedReds, records`inheritedBlue,
               records`trendDirection, records`consecutiveAppear, records`missingPeriods,
               records`patternType, records`riskLevel
      ensures out == records
      ensures |records| < 2 ==> forall k {:trigger OmissionsOf(records[k])} :: 0 <= k < |records| ==>
        OmissionsOf(records[k]) == old(OmissionsOf(records[k])) && InheritanceOf(records[k]) == old(InheritanceOf(records[k])) &&
        PatternFieldsOf(records[k]) == old(PatternFieldsOf(records[k]))
      ensures |records| < 20 ==> forall k {:trigger HeatOf(records[k])} :: 0 <= k < |records| ==> HeatOf(records[k]) == old(HeatOf(records[k]))
      ensures |records| < 10 ==> forall k {:trigger HotColdOf(records[k])} :: 0 <= k < |records| ==> HotColdOf(records[k]) == old(HotColdOf(records[k]))
      ensures forall k {:trigger TrendOf(records[k])} :: 0 <= k < |records| && (|records| < 5 || k < 4) ==> TrendOf(records[k]) == old(TrendOf(records[k]))
      ensures |records| >= 2 ==> forall k {:trigger OmissionsOf(records[k])} :: 0 <= k < |records| ==>
        OmissionsOf(records[k]) == OmissionsAt(DrawsOf(records), k, old(OmissionsOf(records[k]))) &&
        PatternFieldsOf(records[k]) ==
          PatternAt(records[k].acValue, records[k].bigIntervalCount, records[k].redOddCount, records[k].redSum,
                    old(PatternFieldsOf(records[k])))
      ensures |records| >= 20 ==> forall k {:trigger HeatOf(records[k])} :: 0 <= k < |records| ==>
        HeatOf(records[k]) == HeatAt(DrawsOf(records), k, config.heatColdWindow)
      ensures |records| >= 10 ==> forall k {:trigger HotColdOf(records[k])} :: 0 <= k < |records| ==>
        HotColdOf(records[k]) ==
          HotCold(HotBalls(Window(DrawsOf(records), k, config.recentAnalysisWindow)), ColdBalls(OmissionMap(DrawsOf(records), k)))
      ensures |records| >= 2 ==> InheritanceOf(records[0]) == old(InheritanceOf(records[0]))
      ensures forall k {:trigger InheritanceOf(records[k])} :: 1 <= k < |records| ==> InheritanceOf(records[k]) == InheritanceAt(DrawsOf(records), k)
      ensures |records| >= 5 ==> forall k {:trigger TrendOf(records[k])} :: 4 <= k < |records| ==>
        TrendOf(records[k]) ==
          Trend(Some(SumTrend(OrZero(records[k - 2].redSum), OrZero(records[k - 1].redSum), OrZero(records[k].redSum))),
                Some(ConsecutiveAppear(DrawsOf(records), k)),
                Some(MeanOmission(OmissionMap(DrawsOf(records), k))))
    {
      if |records| < 2 {
        return records;
      }
      ghost var ds := DrawsOf(records);
      out := ProcessStage2Features(records);
      label Stage2Done:
      out := ProcessStage3Features(out);
      forall k | 0 <= k < |records|
        ensures OmissionsOf(records[k]) == OmissionsAt(ds, k, old(OmissionsOf(records[k])))
        ensures |records| < 20 ==> HeatOf(records[k]) == old(HeatOf(records[k]))
        ensures |records| >= 20 ==> HeatOf(records[k]) == HeatAt(ds, k, config.heatColdWindow)
        ensures |records| < 10 ==> HotColdOf(records[k]) == old(HotColdOf(records[k]))
        ensures |records| >= 10 ==> (HotColdOf(records[k]) ==
          HotCold(HotBalls(Window(ds, k, config.recentAnalysisWindow)), ColdBalls(OmissionMap(ds, k))))
        ensures 4 <= k ==> (TrendOf(records[k]) ==
          Trend(Some(SumTrend(OrZero(records[k - 2].redSum), OrZero(records[k - 1].redSum), OrZero(records[k].redSum))),
                Some(ConsecutiveAppear(ds, k)),
                Some(MeanOmission(OmissionMap(ds, k)))))
      {
        assert OmissionsOf(records[k]) == old@Stage2Done(OmissionsOf(records[k]));
        assert HeatOf(records[k]) == old@Stage2Done(HeatOf(records[k]));
        assert HotColdOf(records[k]) == old@Stage2Done(HotColdOf(records[k]));
        assert old@Stage2Done(OmissionsOf(records[k])) == OmissionsAt(ds, k, old(OmissionsOf(records[k])));
        OmissionMapNonEmpty(ds, k);
      }
    }

    /**
     * `process_stage2_features`: below 2 records nothing is computed;
     * otherwise the omission, heat and hot/cold passes in that order.
     */
    method ProcessStage2Features(records: seq<DrawRecord>) returns (out: seq<DrawRecord>)
      requires Distinct(records)
      modifies records`redOmission, records`blueOmission, records`redHeatStatus, records`blueHeatStatus,
               records`hotRedBalls, records`coldRedBalls
      ensures out == records
      ensures |records| < 2 ==> forall k {:trigger OmissionsOf(records[k])} :: 0 <= k < |records| ==> OmissionsOf(records[k]) == old(OmissionsOf(records[k]))
      ensures |records| < 20 ==> forall k {:trigger HeatOf(records[k])} :: 0 <= k < |records| ==> HeatOf(records[k]) == old(HeatOf(records[k]))
      ensures |records| < 10 ==> forall k {:trigger HotColdOf(records[k])} :: 0 <= k < |records| ==> HotColdOf(records[k]) == old(HotColdOf(records[k]))
      ensures |records| >= 2 ==> forall k {:trigger OmissionsOf(records[k])} :: 0 <= k < |records| ==>
        OmissionsOf(records[k]) == OmissionsAt(DrawsOf(records), k, old(OmissionsOf(records[k])))
      ensures |records| >= 20 ==> forall k {:trigger HeatOf(records[k])} :: 0 <= k < |records| ==>
        HeatOf(records[k]) == HeatAt(DrawsOf(records), k, config.heatColdWindow)
      ensures |records| >= 10 ==> forall k {:trigger HotColdOf(records[k])} :: 0 <= k < |records| ==>
        HotColdOf(records[k]) ==
          HotCold(HotBalls(Window(DrawsOf(records), k, config.recentAnalysisWindow)), ColdBalls(OmissionMap(DrawsOf(records), k)))
    {
      if |records| < 2 {
        return records;
      }
      ghost var ds := DrawsOf(records);
      CalculateOmissionFeatures(records);
      label Omitted:
      CalculateHeatStatusFeatures(records);
      label Heated:
      CalculateHotColdAnalysis(records);
      forall k | 0 <= k < |records|
        ensures OmissionsOf(records[k]) == old@Omitted(OmissionsOf(records[k]))
        ensures HeatOf(records[k]) == old@Heated(HeatOf(records[k]))
        ensures records[k].redOmission == OmissionMap(ds, k) != map[]
      {
        assert old@Omitted(OmissionsOf(records[k])) == OmissionsAt(ds, k, old(OmissionsOf(records[k])));
        OmissionMapNonEmpty(ds, k);
      }
      out := records;
    }

    /**
     * `process_stage3_features`: below 2 records nothing is computed;
     * otherwise the genetic, trend and pattern passes in that order.
     */
    method ProcessStage3Features(records: seq<DrawRecord>) returns (out: seq<DrawRecord>)
      requires Distinct(records)
      modifies records`inheritedReds, records`inheritedBlue, records`trendDirection,
               records`consecutiveAppear, records`missingPeriods, records`patternType, records`riskLevel
      ensures out == records
      ensures |records| < 2 ==> forall k {:trigger InheritanceOf(records[k])} :: 0 <= k < |records| ==>
        InheritanceOf(records[k]) == old(InheritanceOf(records[k])) &&
        PatternFieldsOf(records[k]) == old(PatternFieldsOf(records[k]))
      ensures forall k {:trigger TrendOf(records[k])} :: 0 <= k < |records| && (|records| < 5 || k < 4) ==> TrendOf(records[k]) == old(TrendOf(records[k]))
      ensures |records| >= 2 ==> InheritanceOf(records[0]) == old(InheritanceOf(records[0]))
      ensures forall k {:trigger InheritanceOf(records[k])} :: 1 <= k < |records| ==> InheritanceOf(records[k]) == InheritanceAt(DrawsOf(records), k)
      ensures |records| >= 5 ==> forall k {:trigger TrendOf(records[k])} :: 4 <= k < |records| ==>
        TrendOf(records[k]) ==
          TrendAt(DrawsOf(records), k, records[k - 2].redSum, records[k - 1].redSum, records[k].redSum,
                  records[k].redOmission, old(TrendOf(records[k])))
      ensures |records| >= 2 ==> forall k {:trigger PatternFieldsOf(records[k])} :: 0 <= k < |records| ==>
        PatternFieldsOf(records[k]) ==
          PatternAt(records[k].acValue, records[k].bigIntervalCount, records[k].redOddCount, records[k].redSum,
                    old(PatternFieldsOf(records[k])))
    {
      if |records| < 2 {
        return records;
      }
      CalculateGeneticFeatures(records);
      CalculateTrendFeatures(records);
      CalculatePatternFeatures(records);
      out := records;
    }

    /**
     * `_calculate_omission_features`: record k gets the omission of every
     * red ball at k; the blue loop only ever writes 0, on the record's own
     * blue.
     */
    method CalculateOmissionFeatures(records: seq<DrawRecord>)
      requires Distinct(records)
      modifies records`redOmission, records`blueOmission
      ensures forall k {:trigger OmissionsOf(records[k])} :: 0 <= k < |records| ==>
        OmissionsOf(records[k]) == OmissionsAt(DrawsOf(records), k, old(OmissionsOf(records[k])))
    {
      var ds := DrawsOf(records);
      var redHistory := InitialCounters(RedMax);
      var blueHistory := InitialCounters(BlueMax);
      ZeroCountersFacts(BlueMax);
      var i := 0;
      while i < |records|
        invariant 0 <= i <= |records|
        invariant redHistory == HistoryMap(ds, i)
        invariant forall b :: b in blueHistory <==> IsBlue(b)
        invariant forall k {:trigger old(OmissionsOf(records[k]))} :: 0 <= k < |records| ==>
          OmissionsOf(records[k]) ==
            if k < i then OmissionsAt(ds, k, old(OmissionsOf(records[k]))) else old(OmissionsOf(records[k]))
      {
        redHistory, blueHistory := SetOmission(records[i], ds, i, redHistory, blueHistory);
        i := i + 1;
      }
    }

    /** The body of the omission loop for record i: both counter loops, and the writes to it. */
    static method SetOmission(r: DrawRecord, ds: seq<Draw>, i: int, redHistory: map<int, int>, blueHistory: map<int, int>)
      returns (redHistory': map<int, int>, blueHistory': map<int, int>)
      requires 0 <= i < |ds| && r.draw == ds[i]
      requires redHistory == HistoryMap(ds, i)
      requires forall b :: b in blueHistory <==> IsBlue(b)
      modifies r`redOmission, r`blueOmission
      ensures OmissionsOf(r) == OmissionsAt(ds, i, old(OmissionsOf(r)))
      ensures redHistory' == HistoryMap(ds, i + 1)
      ensures forall b :: b in blueHistory' <==> IsBlue(b)
    {
      ZeroCountersFacts(RedMax);
      OmissionStep(ds, i);
      var rec;
      rec, redHistory' := UpdateOmission(r.draw.reds, redHistory, RedMax);
      r.redOmission := rec;
      var _, h := UpdateOmission([r.draw.blue], blueHistory, BlueMax);
      blueHistory' := h;
      if IsBlue(r.draw.blue) {
        r.blueOmission := Some(0);
      }
    }

    /**
     * `_calculate_heat_status_features`: nothing below 20 records;
     * otherwise record k gets the red tiers of its recent window against
     * the global average, and the tier of its own blue.
     */
    method CalculateHeatStatusFeatures(records: seq<DrawRecord>)
      requires Distinct(records)
      modifies records`redHeatStatus, records`blueHeatStatus
      ensures |records| < 20 ==> forall k {:trigger HeatOf(records[k])} :: 0 <= k < |records| ==> HeatOf(records[k]) == old(HeatOf(records[k]))
      ensures |records| >= 20 ==> forall k {:trigger HeatOf(records[k])} :: 0 <= k < |records| ==>
        HeatOf(records[k]) == HeatAt(DrawsOf(records), k, config.heatColdWindow)
    {
      if |records| < 20 {
        return;
      }
      var ds := DrawsOf(records);
      var avgRed, avgBlue := GlobalAverages(ds);
      var i := 0;
      while i < |records|
        invariant 0 <= i <= |records|
        invariant forall k :: 0 <= k < i ==> HeatOf(records[k]) == HeatAt(ds, k, config.heatColdWindow)
      {
        SetHeatStatus(records[i], ds, i, avgRed, avgBlue);
        i := i + 1;
      }
    }

    /** The global red and blue Counters of the heat pass, and their average frequencies. */
    static method GlobalAverages(ds: seq<Draw>) returns (avgRed: real, avgBlue: real)
      requires |ds| > 0
      ensures avgRed == AvgFreq(AllReds(ds)) && avgBlue == AvgFreq(Blues(ds))
    {
      var redCounts, redOrder := CountReds(ds);
      var blueCounts, blueOrder := CountValues(Blues(ds));
      avgRed := AverageFrequency(redCounts, redOrder, AllReds(ds));
      avgBlue := AverageFrequency(blueCounts, blueOrder, Blues(ds));
    }

    /** The body of the heat loop for record i. */
    method SetHeatStatus(r: DrawRecord, ds: seq<Draw>, i: int, avgRed: real, avgBlue: real)
      requires 0 <= i < |ds| && r.draw == ds[i]
      requires avgRed == AvgFreq(AllReds(ds)) && avgBlue == AvgFreq(Blues(ds))
      modifies r`redHeatStatus, r`blueHeatStatus
      ensures HeatOf(r) == HeatAt(ds, i, config.heatColdWindow)
    {
      var recent := Window(ds, i, config.heatColdWindow);
      var recentRed, _ := CountReds(recent);
      var recentBlue, _ := CountValues(Blues(recent));
      var status := RedHeatStatus(recentRed, avgRed);
      r.redHeatStatus := status;
      var blueRecent := if r.draw.blue in recentBlue then recentBlue[r.draw.blue] else 0;
      if blueRecent as real >= avgBlue * 1.5 {
        r.blueHeatStatus := Some(Hot);
      } else if blueRecent as real <= avgBlue * 0.5 {
        r.blueHeatStatus := Some(Cold);
      } else {
        r.blueHeatStatus := Some(Warm);
      }
    }

    /**
     * `_calculate_hot_cold_analysis`: nothing below 10 records; otherwise
     * record k gets the hot balls of its recent window and, when its
     * omission map is non-empty, the cold balls of that map.
     */
    method CalculateHotColdAnalysis(records: seq<DrawRecord>)
      requires Distinct(records)
      modifies records`hotRedBalls, records`coldRedBalls
      ensures |records| < 10 ==> forall k {:trigger HotColdOf(records[k])} :: 0 <= k < |records| ==> HotColdOf(records[k]) == old(HotColdOf(records[k]))
      ensures |records| >= 10 ==> forall k {:trigger HotColdOf(records[k])} :: 0 <= k < |records| ==>
        HotColdOf(records[k]) ==
          HotColdAt(DrawsOf(records), k, config.recentAnalysisWindow, records[k].redOmission, old(HotColdOf(records[k])))
    {
      if |records| < 10 {
        return;
      }
      var ds := DrawsOf(records);
      var w := config.recentAnalysisWindow;
      // What each record holds before the loop, and once the loop has visited it.
      ghost var before := seq(|records|, k requires 0 <= k < |records| reads records => HotColdOf(records[k]));
      ghost var goal := seq(|records|, k requires 0 <= k < |records| reads records =>
        HotColdAt(ds, k, w, records[k].redOmission, before[k]));
      var i := 0;
      while i < |records|
        invariant 0 <= i <= |records|
        invariant forall k :: 0 <= k < |records| ==> HotColdOf(records[k]) == if k < i then goal[k] else before[k]
      {
        SetHotCold(records[i], ds, i, w);
        i := i + 1;
      }
    }

    /** The body of the hot/cold loop for record i. */
    static method SetHotCold(r: DrawRecord, ds: seq<Draw>, i: int, w: int)
      requires 0 <= i < |ds|
      modifies r`hotRedBalls, r`coldRedBalls
      ensures HotColdOf(r) == HotColdAt(ds, i, w, r.redOmission, old(HotColdOf(r)))
    {
      var recent := Window(ds, i, w);
      var counts, order := CountReds(recent);
      var hot := SelectHot(counts, order, AllReds(recent));
      r.hotRedBalls := SliceTo(hot, 8);
      if r.redOmission != map[] {
        var cold := SelectCold(r.redOmission);
        r.coldRedBalls := SliceTo(cold, 10);
      }
    }

    /**
     * `_calculate_genetic_features`: from record 1 on, the number of reds
     * shared with the previous record and whether the blue repeats;
     * record 0 is left alone.
     */
    method CalculateGeneticFeatures(records: seq<DrawRecord>)
      requires Distinct(records)
      modifies records`inheritedReds, records`inheritedBlue
      ensures |records| > 0 ==> InheritanceOf(records[0]) == old(InheritanceOf(records[0]))
      ensures forall k {:trigger InheritanceOf(records[k])} :: 1 <= k < |records| ==> InheritanceOf(records[k]) == InheritanceAt(DrawsOf(records), k)
    {
      if |records| == 0 {
        return;
      }
      var ds := DrawsOf(records);
      var i := 1;
      while i < |records|
        invariant 1 <= i <= |records|
        invariant forall k {:trigger old(InheritanceOf(records[k]))} :: 0 <= k < |records| ==>
          InheritanceOf(records[k]) ==
            if 1 <= k < i then InheritanceAt(ds, k) else old(InheritanceOf(records[k]))
      {
        SetInheritance(records[i], records[i - 1], ds, i);
        i := i + 1;
      }
      // Every record from 1 on has been visited.
      forall k | 1 <= k < |records|
        ensures InheritanceOf(records[k]) == InheritanceAt(DrawsOf(records), k)
      {
        var before := old(InheritanceOf(records[k]));
        assert k < i;
      }
    }

    /** The body of the genetic loop: what record `current` inherits from `previous`. */
    static method SetInheritance(current: DrawRecord, previous: DrawRecord, ghost ds: seq<Draw>, ghost i: int)
      requires 1 <= i < |ds| && current.draw == ds[i] && previous.draw == ds[i - 1]
      modifies current`inheritedReds, current`inheritedBlue
      ensures InheritanceOf(current) == InheritanceAt(ds, i)
    {
      current.inheritedReds := Some(|ToSet(current.draw.reds) * ToSet(previous.draw.reds)|);
      current.inheritedBlue := Some(if current.draw.blue == previous.draw.blue then 1 else 0);
    }

    /**
     * `_calculate_trend_features`: nothing below 5 records; otherwise,
     * from record 4 on, the direction of the last three sums (a missing
     * sum read as 0), the run of predecessors sharing a red and, when the
     * omission map is non-empty, its truncated mean.
     */
    method CalculateTrendFeatures(records: seq<DrawRecord>)
      requires Distinct(records)
      modifies records`trendDirection, records`consecutiveAppear, records`missingPeriods
      ensures forall k {:trigger TrendOf(records[k])} :: 0 <= k < |records| && (|records| < 5 || k < 4) ==> TrendOf(records[k]) == old(TrendOf(records[k]))
      ensures |records| >= 5 ==> forall k {:trigger TrendOf(records[k])} :: 4 <= k < |records| ==>
        TrendOf(records[k]) ==
          TrendAt(DrawsOf(records), k, records[k - 2].redSum, records[k - 1].redSum, records[k].redSum,
                  records[k].redOmission, old(TrendOf(records[k])))
    {
      if |records| < 5 {
        return;
      }
      var ds := DrawsOf(records);
      var i := 4;
      while i < |records|
        invariant 4 <= i <= |records|
        invariant forall k {:trigger old(TrendOf(records[k]))} :: 0 <= k < |records| ==>
          TrendOf(records[k]) ==
            if 4 <= k < i then
              TrendAt(ds, k, records[k - 2].redSum, records[k - 1].redSum, records[k].redSum,
                      records[k].redOmission, old(TrendOf(records[k])))
            else old(TrendOf(records[k]))
      {
        SetTrend(records[i], ds, i, records[i - 4].redSum, records[i - 3].redSum,
                 records[i - 2].redSum, records[i - 1].redSum);
        i := i + 1;
      }
    }

    /** The body of the trend loop for record i, given the stored sums of records i - 4 .. i - 1. */
    static method SetTrend(current: DrawRecord, ds: seq<Draw>, i: int,
                           s4: Option<int>, s3: Option<int>, s2: Option<int>, s1: Option<int>)
      requires 0 <= i < |ds|
      modifies current`trendDirection, current`consecutiveAppear, current`missingPeriods
      ensures TrendOf(current) == TrendAt(ds, i, s2, s1, current.redSum, current.redOmission, old(TrendOf(current)))
    {
      var recentSums := [OrZero(s4), OrZero(s3), OrZero(s2), OrZero(s1), OrZero(current.redSum)];
      if recentSums[4] > recentSums[3] > recentSums[2] {
        current.trendDirection := Some(Rising);
      } else if recentSums[4] < recentSums[3] < recentSums[2] {
        current.trendDirection := Some(Falling);
      } else {
        current.trendDirection := Some(Oscillating);
      }
      var consecutive := CountConsecutive(ds, i);
      current.consecutiveAppear := Some(consecutive);
      if current.redOmission != map[] {
        var mean := AverageOmission(current.redOmission);
        current.missingPeriods := Some(mean);
      }
    }

    /**
     * `_calculate_pattern_features`: every record gets its risk level and,
     * when its AC value is set, its pattern. Both depend on the record
     * alone, so a record listed twice ends up as if listed once.
     */
    method CalculatePatternFeatures(records: seq<DrawRecord>)
      modifies records`patternType, records`riskLevel
      ensures forall r :: r in records ==>
        PatternFieldsOf(r) == PatternAt(r.acValue, r.bigIntervalCount, r.redOddCount, r.redSum, old(PatternFieldsOf(r)))
    {
      var i := 0;
      while i < |records|
        invariant 0 <= i <= |records|
        invariant forall r {:trigger old(PatternFieldsOf(r))} :: r in records ==>
          PatternFieldsOf(r) ==
            if r in records[..i] then PatternAt(r.acValue, r.bigIntervalCount, r.redOddCount, r.redSum, old(PatternFieldsOf(r)))
            else old(PatternFieldsOf(r))
      {
        var r := records[i];
        ghost var p0 := old(PatternFieldsOf(r));
        SetPattern(r);
        if r in records[..i] {
          PatternAtIdempotent(r.acValue, r.bigIntervalCount, r.redOddCount, r.redSum, p0);
        }
        assert records[..i + 1] == records[..i] + [r];
        i := i + 1;
      }
      assert records[..|records|] == records;
    }

    /** The body of the pattern loop for one record. */
    static method SetPattern(r: DrawRecord)
      modifies r`patternType, r`riskLevel
      ensures PatternFieldsOf(r) == PatternAt(r.acValue, r.bigIntervalCount, r.redOddCount, r.redSum, old(PatternFieldsOf(r)))
    {
      if r.acValue.Some? {
        if r.acValue.value >= 8 {
          r.patternType := Some(Complex);
        } else if r.acValue.value <= 5 {
          r.patternType := Some(Simple);
        } else {
          r.patternType := Some(Medium);
        }
      }
      var factors := 0;
      if r.bigIntervalCount.Some? && r.bigIntervalCount.value != 0 && r.bigIntervalCount.value >= 3 {
        factors := factors + 1;
      }
      if r.redOddCount == Some(0) || r.redOddCount == Some(6) {
        factors := factors + 1;
      }
      if r.redSum.Some? && r.redSum.value != 0 && (r.redSum.value < 70 || r.redSum.value > 140) {
        factors := factors + 1;
      }
      if factors >= 2 {
        r.riskLevel := Some(HighRisk);
      } else if factors == 1 {
        r.riskLevel := Some(MediumRisk);
      } else {
        r.riskLevel := Some(LowRisk);
      }
    }
  }
}
