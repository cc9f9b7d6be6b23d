/**
 * What the sequential feature passes of the advanced processor compute for
 * record i of a draw list, as functions of the draws (and of the stored
 * fields a pass reads), with the properties each value has.
 */
module AdvancedSpec {
  import opened Common
  import opened Draws

  // ---------------------------------------------------------------------
  // Omission

  /**
   * Red omission of ball b at record i: 0 when b is drawn in record i,
   * otherwise one more than at record i - 1 (the running counters start
   * at 0 before record 0).
   */
  function Omission(ds: seq<Draw>, i: int, b: int): nat
    requires 0 <= i < |ds|
  {
    if b in ds[i].reds then 0 else if i == 0 then 1 else Omission(ds, i - 1, b) + 1
  }

  /** The running counters before record i. */
  function History(ds: seq<Draw>, i: int, b: int): nat
    requires 0 <= i <= |ds|
  {
    if i == 0 then 0 else Omission(ds, i - 1, b)
  }

  /** `record.red_omission`: balls 1..33 with their omission at record i. */
  function OmissionMap(ds: seq<Draw>, i: int): map<int, int>
    requires 0 <= i < |ds|
  {
    map b | 1 <= b <= RedMax :: Omission(ds, i, b)
  }

  /** An omission map holds all 33 balls, so it is never the empty (falsy) dictionary. */
  lemma OmissionMapNonEmpty(ds: seq<Draw>, i: int)
    requires 0 <= i < |ds|
    ensures 1 in OmissionMap(ds, i) && OmissionMap(ds, i) != map[]
  {
  }

  /** The last record at or before i that drew ball b, or -1. */
  function LastSeen(ds: seq<Draw>, i: int, b: int): (j: int)
    requires 0 <= i < |ds|
    ensures -1 <= j <= i
    ensures j >= 0 ==> b in ds[j].reds
    ensures forall k :: j < k <= i ==> b !in ds[k].reds
  {
    if b in ds[i].reds then i else if i == 0 then -1 else LastSeen(ds, i - 1, b)
  }

  /**
   * The omission of a ball is the number of records since its last
   * appearance: i - (last index drawn), counting from -1 when never drawn.
   */
  lemma {:induction false} OmissionIsGap(ds: seq<Draw>, i: int, b: int)
    requires 0 <= i < |ds|
    ensures Omission(ds, i, b) == i - LastSeen(ds, i, b)
    ensures Omission(ds, i, b) == 0 <==> b in ds[i].reds
    ensures Omission(ds, i, b) <= i + 1
  {
    if b !in ds[i].reds && i > 0 {
      OmissionIsGap(ds, i - 1, b);
    }
  }

  /** The counters of balls 1..hi before any record: all 0. */
  function ZeroCounters(hi: int): map<int, int>
    decreases hi
  {
    if hi < 1 then map[] else ZeroCounters(hi - 1)[hi := 0]
  }

  lemma {:induction false} ZeroCountersFacts(hi: int)
    ensures forall b :: b in ZeroCounters(hi) <==> 1 <= b <= hi
    ensures forall b :: Get(ZeroCounters(hi), b) == 0
    decreases hi
  {
    if hi >= 1 {
      ZeroCountersFacts(hi - 1);
      forall b
        ensures Get(ZeroCounters(hi), b) == 0
      {
        if b != hi {
          assert Get(ZeroCounters(hi), b) == Get(ZeroCounters(hi - 1), b);
        }
      }
    }
  }

  /**
   * One record's update of running counters `h` over balls 1..hi: a
   * drawn ball goes back to 0, every other ball goes up by one.
   */
  function StepOmission(drawn: seq<int>, h: map<int, int>, hi: int): map<int, int>
  {
    map b | 1 <= b <= hi :: if b in drawn then 0 else Get(h, b) + 1
  }

  /** The running red counters before record i, as a map over balls 1..33. */
  function HistoryMap(ds: seq<Draw>, i: int): map<int, int>
    requires 0 <= i <= |ds|
  {
    if i == 0 then ZeroCounters(RedMax) else OmissionMap(ds, i - 1)
  }

  /**
   * The omission map of record i is one counter update of the map before
   * it; this is what lets a loop carrying one running map compute it.
   */
  lemma OmissionStep(ds: seq<Draw>, i: int)
    requires 0 <= i < |ds|
    ensures OmissionMap(ds, i) == StepOmission(ds[i].reds, HistoryMap(ds, i), RedMax)
  {
    var m := OmissionMap(ds, i);
    var s := StepOmission(ds[i].reds, HistoryMap(ds, i), RedMax);
    ZeroCountersFacts(RedMax);
    forall b | b in m
      ensures m[b] == s[b]
    {
      if i > 0 {
        assert b in OmissionMap(ds, i - 1);
      }
    }
    assert m.Keys == s.Keys;
  }

  // ---------------------------------------------------------------------
  // Heat status

  /** `records[max(0, i - w):i + 1]` */
  function Window(ds: seq<Draw>, i: int, w: int): seq<Draw>
  {
    Slice(ds, Max(0, i - w), i + 1)
  }

  /** Number of distinct values in a Counter filled from xs: `len(counter)`. */
  function Distinctive(xs: seq<int>): nat
  {
    |CountMap(xs)|
  }

  /** `sum(m[k] for k in keys)` */
  function ValuesSum(m: map<int, int>, keys: seq<int>): int
  {
    if |keys| == 0 then 0 else ValuesSum(m, keys[..|keys| - 1]) + Get(m, keys[|keys| - 1])
  }

  /**
   * `sum(counter.values()) / len(counter)` for a Counter filled from xs
   * (its values in key order); 0 for an empty Counter, where the source
   * divides by zero and the pass is not reached (it needs 20 records).
   */
  function AvgFreq(xs: seq<int>): real
  {
    if Distinctive(xs) == 0 then 0.0
    else ValuesSum(CountMap(xs), Dedupe(xs)) as real / Distinctive(xs) as real
  }

  lemma {:induction false} ValuesSumOther(m: map<int, int>, keys: seq<int>, x: int, v: int)
    requires x !in keys
    ensures ValuesSum(m[x := v], keys) == ValuesSum(m, keys)
  {
    if |keys| > 0 {
      ValuesSumOther(m, keys[..|keys| - 1], x, v);
    }
  }

  lemma {:induction false} ValuesSumBump(m: map<int, int>, keys: seq<int>, x: int)
    requires Distinct(keys) && x in keys
    ensures ValuesSum(m[x := Get(m, x) + 1], keys) == ValuesSum(m, keys) + 1
  {
    var t := keys[..|keys| - 1];
    var y := keys[|keys| - 1];
    if x == y {
      forall k | 0 <= k < |t|
        ensures t[k] != x
      {
        assert keys[k] == t[k];
      }
      ValuesSumOther(m, t, x, Get(m, x) + 1);
    } else {
      assert x in t by {
        var k :| 0 <= k < |keys| && keys[k] == x;
        assert t[k] == x;
      }
      assert Distinct(t);
      ValuesSumBump(m, t, x);
    }
  }

  /** The values of a Counter add up to the number of values counted. */
  lemma {:induction false} ValuesSumCount(xs: seq<int>)
    ensures ValuesSum(CountMap(xs), Dedupe(xs)) == |xs|
  {
    if |xs| > 0 {
      var t := xs[..|xs| - 1];
      var x := xs[|xs| - 1];
      assert xs == t + [x];
      ValuesSumCount(t);
      CountStep(t, x);
      DedupeFacts(t);
      CountMapFacts(t);
      var m := CountMap(t);
      var d := Dedupe(t);
      var m' := m[x := Get(m, x) + 1];
      assert CountMap(xs) == m';
      if x in m {
        assert Dedupe(xs) == d;
        ValuesSumBump(m, d, x);
        assert ValuesSum(m', d) == |t| + 1;
      } else {
        assert Dedupe(xs) == d + [x];
        ValuesSumOther(m, d, x, Get(m, x) + 1);
        assert (d + [x])[..|d|] == d;
        assert ValuesSum(m', d + [x]) == ValuesSum(m', d) + Get(m', x);
      }
    }
  }

  /** The average frequency is the number of values over the number of distinct ones. */
  lemma AvgFreqMean(xs: seq<int>)
    ensures AvgFreq(xs) == if Distinctive(xs) == 0 then 0.0 else |xs| as real / Distinctive(xs) as real
  {
    ValuesSumCount(xs);
  }

  const Hot := "热"
  const Warm := "温"
  const Cold := "冷"

  /** Red rule: hot at >= 1.3 x average, cold at <= 0.7 x average. */
  function RedHeat(count: int, avg: real): string
  {
    if count as real >= avg * 1.3 then Hot
    else if count as real <= avg * 0.7 then Cold
    else Warm
  }

  /** Blue rule: hot at >= 1.5 x average, cold at <= 0.5 x average. */
  function BlueHeat(count: int, avg: real): string
  {
    if count as real >= avg * 1.5 then Hot
    else if count as real <= avg * 0.5 then Cold
    else Warm
  }

  function HeatRank(s: string): int
  {
    if s == Cold then 0 else if s == Warm then 1 else 2
  }

  /**
   * For a positive average the red rule puts every count in exactly one
   * tier, and a larger count never gets a colder tier.
   */
  lemma RedHeatMonotone(c1: int, c2: int, avg: real)
    requires avg > 0.0 && c1 <= c2
    ensures RedHeat(c1, avg) in {Hot, Warm, Cold}
    ensures HeatRank(RedHeat(c1, avg)) <= HeatRank(RedHeat(c2, avg))
    ensures RedHeat(c1, avg) == Hot <==> c1 as real >= avg * 1.3
    ensures RedHeat(c1, avg) == Cold <==> c1 as real <= avg * 0.7
  {
  }

  lemma BlueHeatMonotone(c1: int, c2: int, avg: real)
    requires avg > 0.0 && c1 <= c2
    ensures BlueHeat(c1, avg) in {Hot, Warm, Cold}
    ensures HeatRank(BlueHeat(c1, avg)) <= HeatRank(BlueHeat(c2, avg))
    ensures BlueHeat(c1, avg) == Hot <==> c1 as real >= avg * 1.5
    ensures BlueHeat(c1, avg) == Cold <==> c1 as real <= avg * 0.5
  {
  }

  /** Red tiers of balls 1..33 from the recent Counter and the global average. */
  function RedHeatMap(recent: map<int, int>, avg: real): map<int, string>
  {
    map b | 1 <= b <= RedMax :: RedHeat(Get(recent, b), avg)
  }

  /** `record.red_heat_status` at record i. */
  function RedHeatOf(ds: seq<Draw>, i: int, w: int): map<int, string>
  {
    RedHeatMap(CountMap(AllReds(Window(ds, i, w))), AvgFreq(AllReds(ds)))
  }

  /** `record.blue_heat_status` at record i: the tier of the record's own blue. */
  function BlueHeatOf(ds: seq<Draw>, i: int, w: int): string
    requires 0 <= i < |ds|
  {
    BlueHeat(Get(CountMap(Blues(Window(ds, i, w))), ds[i].blue), AvgFreq(Blues(ds)))
  }

  /** With at least one record the global averages are positive. */
  lemma AvgFreqPositive(xs: seq<int>)
    requires |xs| > 0
    ensures Distinctive(xs) > 0 && AvgFreq(xs) > 0.0
  {
    CountMapFacts(xs);
    assert xs[0] in multiset(xs);
    var m := CountMap(xs);
    assert Get(m, xs[0]) > 0;
    assert xs[0] in m.Keys;
    assert |m.Keys| > 0;
    var n := Distinctive(xs);
    assert n == |m.Keys|;
    AvgFreqMean(xs);
    assert AvgFreq(xs) == |xs| as real / n as real;
  }

  // ---------------------------------------------------------------------
  // Hot and cold lists

  /** Seen at least three times in xs. */
  function HotPred(xs: seq<int>): int -> bool
  {
    b => multiset(xs)[b] >= 3
  }

  /** Omission above 10 in om. */
  function ColdPred(om: map<int, int>): int -> bool
  {
    b => b in om && om[b] > 10
  }

  /** `[b for b, c in Counter(window reds).items() if c >= 3][:8]` */
  function HotBalls(window: seq<Draw>): seq<int>
  {
    var xs := AllReds(window);
    SliceTo(Filter(Dedupe(xs), HotPred(xs)), 8)
  }

  /**
   * `[b for b, o in red_omission.items() if o > 10][:10]`, the keys in the
   * ascending order the omission pass inserts them.
   */
  function ColdBalls(om: map<int, int>): seq<int>
  {
    SliceTo(Filter(Range(1, RedMax + 1), ColdPred(om)), 10)
  }

  /**
   * At most 8 hot balls, no duplicates, each drawn at least three times in
   * the window; when fewer than 8 balls qualify, every qualifying ball is
   * listed.
   */
  lemma HotBallsFacts(window: seq<Draw>)
    ensures |HotBalls(window)| <= 8
    ensures Distinct(HotBalls(window))
    ensures forall b :: b in HotBalls(window) ==> multiset(AllReds(window))[b] >= 3
    ensures |HotBalls(window)| < 8 ==>
      forall b :: multiset(AllReds(window))[b] >= 3 ==> b in HotBalls(window)
  {
    var xs := AllReds(window);
    var p := HotPred(xs);
    var f := Filter(Dedupe(xs), p);
    DedupeFacts(xs);
    FilterFacts(Dedupe(xs), p);
    FilterSubsequence(Dedupe(xs), p);
    forall b | b in f
      ensures multiset(xs)[b] >= 3
    {
      assert p(b);
    }
    forall b | multiset(xs)[b] >= 3 && |f| <= 8
      ensures b in f
    {
      assert b in xs;
      assert p(b);
    }
  }

  /**
   * At most 10 cold balls, ascending (so duplicate-free), each in 1..33
   * with omission above 10; when fewer than 10 qualify, all of them.
   */
  lemma ColdBallsFacts(om: map<int, int>)
    ensures |ColdBalls(om)| <= 10
    ensures Ascending(ColdBalls(om))
    ensures forall b :: b in ColdBalls(om) ==> IsRed(b) && b in om && om[b] > 10
    ensures |ColdBalls(om)| < 10 ==>
      forall b :: IsRed(b) && b in om && om[b] > 10 ==> b in ColdBalls(om)
  {
    var p := ColdPred(om);
    var r := Range(1, RedMax + 1);
    RangeFacts(1, RedMax + 1);
    FilterFacts(r, p);
    FilterSubsequence(r, p);
    var f := Filter(r, p);
    forall b | b in f
      ensures IsRed(b) && b in om && om[b] > 10
    {
      assert p(b);
    }
    forall b | IsRed(b) && b in om && om[b] > 10 && |f| <= 10
      ensures b in f
    {
      assert b in r && p(b);
    }
  }

  // ---------------------------------------------------------------------
  // Inheritance, trend, pattern, risk

  /** 1 when the blue repeats from the previous record, else 0. */
  lemma GeneticBounds(cur: Draw, prev: Draw)
    ensures 0 <= Overlap(cur.reds, prev.reds) <= 6
    ensures BlueRepeat(cur, prev) == 1 <==> cur.blue == prev.blue
    ensures BlueRepeat(cur, prev) == 0 <==> cur.blue != prev.blue
  {
    OverlapBound(cur.reds, prev.reds);
  }

  /** `red_sum or 0` */
  function OrZero(x: Option<int>): int
  {
    if x.Some? then x.value else 0
  }

  const Rising := "上升"
  const Falling := "下降"
  const Oscillating := "震荡"

  /** Direction of the last three sums a, b, c (oldest first). */
  function SumTrend(a: int, b: int, c: int): string
  {
    if c > b > a then Rising else if c < b < a then Falling else Oscillating
  }

  /** Exactly one direction; rising and falling mean strict monotonicity. */
  lemma SumTrendFacts(a: int, b: int, c: int)
    ensures SumTrend(a, b, c) in {Rising, Falling, Oscillating}
    ensures SumTrend(a, b, c) == Rising <==> a < b < c
    ensures SumTrend(a, b, c) == Falling <==> a > b > c
  {
  }

  /**
   * `consecutive_appear` at record i: walking back from i - 1 towards
   * `stop` (exclusive), how many records in a row share a red with record i.
   */
  function Streak(ds: seq<Draw>, i: int, j: int, stop: int): nat
    requires 0 <= i < |ds| && -1 <= stop <= j + 1 && j < |ds|
    decreases j - stop
  {
    if j <= stop then 0
    else if Overlap(ds[i].reds, ds[j].reds) > 0 then 1 + Streak(ds, i, j - 1, stop)
    else 0
  }

  /** The streak over the at most four predecessors the pass inspects. */
  function ConsecutiveAppear(ds: seq<Draw>, i: int): nat
    requires 0 <= i < |ds|
  {
    Streak(ds, i, i - 1, Max(-1, i - 5))
  }

  /**
   * A streak of k: records j, j - 1, ..., j - k + 1 all share a red with
   * record i, and the walk stopped because it reached `stop` or a record
   * sharing none.
   */
  lemma {:induction false} StreakFacts(ds: seq<Draw>, i: int, j: int, stop: int)
    requires 0 <= i < |ds| && -1 <= stop <= j + 1 && j < |ds|
    ensures Streak(ds, i, j, stop) <= if j >= stop then j - stop else 0
    ensures forall k :: j - Streak(ds, i, j, stop) < k <= j ==> Overlap(ds[i].reds, ds[k].reds) > 0
    ensures j - Streak(ds, i, j, stop) > stop ==>
      Overlap(ds[i].reds, ds[j - Streak(ds, i, j, stop)].reds) == 0
    decreases j - stop
  {
    if j > stop && Overlap(ds[i].reds, ds[j].reds) > 0 {
      StreakFacts(ds, i, j - 1, stop);
    }
  }

  /** From record 4 on, the streak is one of 0..4. */
  lemma ConsecutiveAppearBound(ds: seq<Draw>, i: int)
    requires 4 <= i < |ds|
    ensures ConsecutiveAppear(ds, i) <= 4
  {
    StreakFacts(ds, i, i - 1, i - 5);
  }

  /** Python's `int()` of a quotient: division truncated toward zero. */
  function TruncDiv(a: int, n: int): int
    requires n > 0
  {
    if a >= 0 then a / n else -((-a) / n)
  }

  /** The quotient is rounded toward zero: down for a >= 0, up for a < 0. */
  lemma TruncDivFacts(a: int, n: int)
    requires n > 0
    ensures a >= 0 ==> TruncDiv(a, n) * n <= a < (TruncDiv(a, n) + 1) * n
    ensures a < 0 ==> (TruncDiv(a, n) - 1) * n < a <= TruncDiv(a, n) * n
  {
  }

  /** `int(np.mean(list(red_omission.values())))` over the keys 1..33. */
  function MeanOmission(om: map<int, int>): int
  {
    var n := KeyCount(om, 1, RedMax);
    if n == 0 then 0 else TruncDiv(KeySum(om, 1, RedMax), n)
  }

  lemma {:induction false} KeySumBounds(m: map<int, int>, lo: int, hi: int, bound: int)
    requires forall b :: lo <= b <= hi && b in m ==> 0 <= m[b] <= bound
    ensures 0 <= KeySum(m, lo, hi) <= KeyCount(m, lo, hi) * bound
    decreases hi - lo
  {
    if hi >= lo {
      KeySumBounds(m, lo, hi - 1, bound);
      var c := KeyCount(m, lo, hi - 1);
      assert KeyCount(m, lo, hi) * bound == c * bound + (if hi in m then bound else 0);
    }
  }

  lemma {:induction false} KeysFull(ds: seq<Draw>, i: int, hi: int)
    requires 0 <= i < |ds| && 0 <= hi <= RedMax
    ensures KeyCount(OmissionMap(ds, i), 1, hi) == hi
    decreases hi
  {
    if hi >= 1 {
      KeysFull(ds, i, hi - 1);
    }
  }

  /**
   * The mean omission of an omission map lies between 0 and i + 1, the
   * largest gap possible at record i.
   */
  lemma MeanOmissionBounds(ds: seq<Draw>, i: int)
    requires 0 <= i < |ds|
    ensures 0 <= MeanOmission(OmissionMap(ds, i)) <= i + 1
  {
    var om := OmissionMap(ds, i);
    forall b | 1 <= b <= RedMax && b in om
      ensures 0 <= om[b] <= i + 1
    {
      OmissionIsGap(ds, i, b);
    }
    KeySumBounds(om, 1, RedMax, i + 1);
    KeysFull(ds, i, RedMax);
    var a := KeySum(om, 1, RedMax);
    assert 0 <= a <= RedMax * (i + 1);
    assert MeanOmission(om) == a / RedMax;
  }

  const Complex := "复杂"
  const Simple := "简单"
  const Medium := "中等"

  /** AC >= 8 is complex, AC <= 5 simple, 6..7 medium. */
  function PatternOf(ac: int): string
  {
    if ac >= 8 then Complex else if ac <= 5 then Simple else Medium
  }

  lemma PatternFacts(ac: int)
    ensures PatternOf(ac) == Complex <==> ac >= 8
    ensures PatternOf(ac) == Simple <==> ac <= 5
    ensures PatternOf(ac) == Medium <==> 6 <= ac <= 7
  {
  }

  /**
   * The three risk factors: at least three big intervals, an all-odd or
   * all-even stored odd count, a truthy sum below 70 or above 140.
   */
  function RiskFactors(bigIntervals: Option<int>, oddCount: Option<int>, redSum: Option<int>): (n: nat)
    ensures n <= 3
  {
    (if bigIntervals.Some? && bigIntervals.value != 0 && bigIntervals.value >= 3 then 1 else 0) +
    (if oddCount == Some(0) || oddCount == Some(6) then 1 else 0) +
    (if redSum.Some? && redSum.value != 0 && (redSum.value < 70 || redSum.value > 140) then 1 else 0)
  }

  const HighRisk := "高风险"
  const MediumRisk := "中风险"
  const LowRisk := "低风险"

  function RiskLevel(factors: int): string
  {
    if factors >= 2 then HighRisk else if factors == 1 then MediumRisk else LowRisk
  }

  /** A record with sum in 70..140, fewer than 3 big intervals and mixed parity is low risk. */
  lemma RiskLevelFacts(bigIntervals: Option<int>, oddCount: Option<int>, redSum: Option<int>)
    ensures var n := RiskFactors(bigIntervals, oddCount, redSum);
      (RiskLevel(n) == LowRisk <==> n == 0) && (RiskLevel(n) == MediumRisk <==> n == 1) &&
      (RiskLevel(n) == HighRisk <==> n >= 2)
    ensures (redSum.Some? ==> 70 <= redSum.value <= 140) &&
            (bigIntervals.Some? ==> bigIntervals.value < 3) &&
            oddCount != Some(0) && oddCount != Some(6) ==>
            RiskLevel(RiskFactors(bigIntervals, oddCount, redSum)) == LowRisk
  {
  }
}
