/**
 * The unified hot/warm/cold analyzer: the 33 red balls ranked by how often
 * they were drawn in a window and cut into three tiers of eleven, a cache
 * of those results with a five-minute lifetime, the comparison of the
 * tiers across several windows, and the per-ball trend over the trend
 * windows.
 */
module HotCold {
  import opened Common
  import opened Draws
  import opened Ranking
  import opened WindowConfig
  import opened Database

  const CacheTtl: real := 300.0

  /** The result of `analyze` for one window. */
  datatype Categories = Categories(
    hot: seq<int>, warm: seq<int>, cold: seq<int>,
    ballStatus: map<int, Tier>,
    totalRecords: nat,
    redCounts: map<int, int>,
    window: Option<int>,
    cacheTime: real)

  function TierLabel(t: Tier): string
  {
    match t
    case Hot => "热"
    case Warm => "温"
    case Cold => "冷"
  }

  /** `for ball in xs: m[ball] = t` */
  function Assign(m: map<int, Tier>, xs: seq<int>, t: Tier): map<int, Tier>
  {
    if |xs| == 0 then m else Assign(m, xs[..|xs| - 1], t)[xs[|xs| - 1] := t]
  }

  lemma {:induction false} AssignFacts(m: map<int, Tier>, xs: seq<int>, t: Tier)
    ensures forall b :: b in Assign(m, xs, t) <==> b in m || b in xs
    ensures forall b :: b in xs ==> Assign(m, xs, t)[b] == t
    ensures forall b :: b in m && b !in xs ==> Assign(m, xs, t)[b] == m[b]
  {
    if |xs| > 0 {
      AssignFacts(m, xs[..|xs| - 1], t);
      assert xs == xs[..|xs| - 1] + [xs[|xs| - 1]];
    }
  }

  /**
   * The lookup built by the three loops over hot, warm and cold (a later
   * tier would override an earlier one for a ball listed twice).
   */
  function StatusLookup(hot: seq<int>, warm: seq<int>, cold: seq<int>): map<int, Tier>
  {
    Assign(Assign(Assign(map[], hot, Hot), warm, Warm), cold, Cold)
  }

  lemma StatusLookupFacts(hot: seq<int>, warm: seq<int>, cold: seq<int>)
    ensures var m := StatusLookup(hot, warm, cold);
      (forall b :: b in m <==> b in hot || b in warm || b in cold) &&
      (forall b :: b in cold ==> m[b] == Cold) &&
      (forall b :: b in warm && b !in cold ==> m[b] == Warm) &&
      (forall b :: b in hot && b !in warm && b !in cold ==> m[b] == Hot)
  {
    AssignFacts(map[], hot, Hot);
    AssignFacts(Assign(map[], hot, Hot), warm, Warm);
    AssignFacts(Assign(Assign(map[], hot, Hot), warm, Warm), cold, Cold);
  }

  /** `_get_empty_result` */
  function EmptyResult(w: Option<int>, now: real): Categories
  {
    Categories([], [], [], map[], 0, map[], w, now)
  }

  /** The classification of a non-empty record list computed at time `now`. */
  function Classify(records: seq<Draw>, w: Option<int>, now: real): Categories
  {
    var r := Ranked(records);
    var hot := Slice(r, 0, 11);
    var warm := Slice(r, 11, 22);
    var cold := Slice(r, 22, 33);
    Categories(hot, warm, cold, StatusLookup(hot, warm, cold), |records|, RedCounter(records), w, now)
  }

  /** `_count_red_balls`: the nested counting loop, then the zero-fill of 1..33. */
  method CountRedBalls(records: seq<Draw>) returns (counts: map<int, int>, order: seq<int>)
    ensures counts == RedCounter(records)
    ensures order == ZeroFilledOrder(records)
  {
    var c, o := CountReds(records);
    counts, order := ZeroFill(c, o, 1, RedMax);
  }

  /** `for ball in xs: m[ball] = t` as a loop. */
  method AssignLoop(m: map<int, Tier>, xs: seq<int>, t: Tier) returns (m': map<int, Tier>)
    ensures m' == Assign(m, xs, t)
  {
    m' := m;
    var i := 0;
    while i < |xs|
      invariant 0 <= i <= |xs|
      invariant m' == Assign(m, xs[..i], t)
    {
      assert xs[..i + 1][..i] == xs[..i];
      m' := m'[xs[i] := t];
      i := i + 1;
    }
    assert xs[..|xs|] == xs;
  }

  /** The three lookup loops of `analyze`. */
  method BuildStatus(hot: seq<int>, warm: seq<int>, cold: seq<int>) returns (m: map<int, Tier>)
    ensures m == StatusLookup(hot, warm, cold)
  {
    m := AssignLoop(map[], hot, Hot);
    m := AssignLoop(m, warm, Warm);
    m := AssignLoop(m, cold, Cold);
  }

  /** The classification computed step by step, as `analyze` does on a cache miss. */
  method ClassifyRecords(records: seq<Draw>, w: Option<int>, now: real) returns (c: Categories)
    ensures c == Classify(records, w, now)
  {
    var counts, order := CountRedBalls(records);
    var sorted := RankByCount(order, counts);
    var hot := Slice(sorted, 0, 11);
    var warm := Slice(sorted, 11, 22);
    var cold := Slice(sorted, 22, 33);
    var status := BuildStatus(hot, warm, cold);
    c := Categories(hot, warm, cold, status, |records|, counts, w, now);
  }

  // ---------------------------------------------------------------------
  // Properties of one classification

  /**
   * Hot, warm and cold hold eleven balls each and partition 1..33, and the
   * lookup sends each ball to the tier that lists it.
   */
  lemma ClassifyPartition(records: seq<Draw>, w: Option<int>, now: real)
    requires RedsInRange(records)
    ensures var c := Classify(records, w, now);
      |c.hot| == 11 && |c.warm| == 11 && |c.cold| == 11 &&
      (forall b :: IsRed(b) ==>
        (b in c.hot && b !in c.warm && b !in c.cold) ||
        (b !in c.hot && b in c.warm && b !in c.cold) ||
        (b !in c.hot && b !in c.warm && b in c.cold)) &&
      (forall b :: b in c.hot || b in c.warm || b in c.cold ==> IsRed(b))
  {
    RankedFacts(records);
    ElevenSplit(Ranked(records));
  }

  lemma ClassifyLookup(records: seq<Draw>, w: Option<int>, now: real)
    requires RedsInRange(records)
    ensures var c := Classify(records, w, now);
      (forall b :: b in c.ballStatus <==> IsRed(b)) &&
      forall b :: IsRed(b) ==>
        (c.ballStatus[b] == Hot <==> b in c.hot) &&
        (c.ballStatus[b] == Warm <==> b in c.warm) &&
        (c.ballStatus[b] == Cold <==> b in c.cold)
  {
    ClassifyPartition(records, w, now);
    var c := Classify(records, w, now);
    StatusLookupFacts(c.hot, c.warm, c.cold);
  }

  /**
   * Tiers follow the ranking: every hot ball was drawn at least as often
   * as every warm ball, and every warm ball as every cold ball, equal
   * counts going to the smaller ball first.
   */
  lemma ClassifyOrder(records: seq<Draw>, w: Option<int>, now: real)
    requires RedsInRange(records)
    ensures var c := Classify(records, w, now);
      var r := c.hot + c.warm + c.cold;
      r == Ranked(records) && |r| == RedMax &&
      forall i, j :: 0 <= i < j < |r| ==>
        Get(c.redCounts, r[i]) > Get(c.redCounts, r[j]) ||
        (Get(c.redCounts, r[i]) == Get(c.redCounts, r[j]) && r[i] < r[j])
  {
    RankedFacts(records);
    RankedOrder(records);
    var rk := Ranked(records);
    assert rk[..11] + rk[11..22] + rk[22..33] == rk;
  }

  /**
   * The counts are zero-filled: each ball 1..33 maps to how often it was
   * drawn, and over valid records they add up to six per record.
   */
  lemma ClassifyCounts(records: seq<Draw>, w: Option<int>, now: real)
    requires RedsInRange(records)
    ensures var c := Classify(records, w, now);
      (forall b :: IsRed(b) ==> b in c.redCounts && c.redCounts[b] == RedCount(records, b)) &&
      KeySum(c.redCounts, 1, RedMax) == 6 * |records| &&
      c.totalRecords == |records|
  {
    var xs := AllReds(records);
    CountMapFacts(xs);
    KeySumIsCountSum(RedCounter(records), xs, 1, RedMax);
    RedConservation(records);
  }

  // ---------------------------------------------------------------------
  // Status of one ball

  /** `get_ball_status` on a given result: invalid outside 1..33, cold when unlisted. */
  function BallStatus(ball: int, c: Categories): string
  {
    if !IsRed(ball) then "无效"
    else if ball in c.ballStatus then TierLabel(c.ballStatus[ball])
    else "冷"
  }

  /** On a classification of valid records the status names the tier that lists the ball. */
  lemma BallStatusFacts(ball: int, records: seq<Draw>, w: Option<int>, now: real)
    requires RedsInRange(records)
    ensures var c := Classify(records, w, now);
      (!IsRed(ball) ==> BallStatus(ball, c) == "无效") &&
      (IsRed(ball) ==>
        (BallStatus(ball, c) == "热" <==> ball in c.hot) &&
        (BallStatus(ball, c) == "温" <==> ball in c.warm) &&
        (BallStatus(ball, c) == "冷" <==> ball in c.cold))
    ensures forall b :: IsRed(b) ==> BallStatus(b, EmptyResult(w, now)) == "冷"
  {
    ClassifyLookup(records, w, now);
  }

  /**
   * `hot_numbers[:top_n]` when `top_n` is given and smaller than the list;
   * a negative `top_n` drops that many balls from the end, as a Python
   * slice does.
   */
  function TopN(xs: seq<int>, topN: Option<int>): (r: seq<int>)
    ensures r <= xs
    ensures topN.Some? && 0 <= topN.value < |xs| ==> |r| == topN.value
    ensures topN.Some? && topN.value < 0 ==> |r| == Max(0, |xs| + topN.value)
    ensures topN.None? || topN.value >= |xs| ==> r == xs
  {
    if topN.Some? && topN.value < |xs| then SliceTo(xs, topN.value) else xs
  }

  // ---------------------------------------------------------------------
  // Heat trend over several windows

  function HeatValue(t: Tier): int
  {
    match t
    case Cold => 1
    case Warm => 2
    case Hot => 3
  }

  predicate Warming(s: seq<Tier>)
  {
    forall i :: 0 <= i < |s| - 1 ==> HeatValue(s[i]) <= HeatValue(s[i + 1])
  }

  predicate Cooling(s: seq<Tier>)
  {
    forall i :: 0 <= i < |s| - 1 ==> HeatValue(s[i]) >= HeatValue(s[i + 1])
  }

  /** `_determine_heat_trend` with 冷 < 温 < 热. */
  function HeatTrend(s: seq<Tier>): string
  {
    if |s| < 2 then "数据不足"
    else if Warming(s) then "升温"
    else if Cooling(s) then "降温"
    else "波动"
  }

  function Reverse<T>(s: seq<T>): (r: seq<T>)
    ensures |r| == |s|
    ensures forall i :: 0 <= i < |s| ==> r[i] == s[|s| - 1 - i]
  {
    seq(|s|, i requires 0 <= i < |s| => s[|s| - 1 - i])
  }

  predicate AllSame<T(==)>(s: seq<T>)
  {
    forall i :: 0 <= i < |s| ==> s[i] == s[0]
  }

  /**
   * Heat trend labels: a list that both warms and cools is constant, and
   * reading a varying list backwards swaps warming and cooling.
   */
  lemma HeatTrendReverse(s: seq<Tier>)
    requires |s| >= 2 && !AllSame(s)
    ensures HeatTrend(s) == "升温" <==> HeatTrend(Reverse(s)) == "降温"
    ensures HeatTrend(s) == "降温" <==> HeatTrend(Reverse(s)) == "升温"
    ensures HeatTrend(s) == "波动" <==> HeatTrend(Reverse(s)) == "波动"
  {
    var r := Reverse(s);
    assert Warming(s) <==> Cooling(r) by {
      if Warming(s) {
        forall i | 0 <= i < |r| - 1
          ensures HeatValue(r[i]) >= HeatValue(r[i + 1])
        {
          assert r[i] == s[|s| - 1 - i] && r[i + 1] == s[|s| - 2 - i];
        }
      }
      if Cooling(r) {
        forall i | 0 <= i < |s| - 1
          ensures HeatValue(s[i]) <= HeatValue(s[i + 1])
        {
          assert s[i] == r[|s| - 1 - i] && s[i + 1] == r[|s| - 2 - i];
        }
      }
    }
    assert Cooling(s) <==> Warming(r) by {
      if Cooling(s) {
        forall i | 0 <= i < |r| - 1
          ensures HeatValue(r[i]) <= HeatValue(r[i + 1])
        {
          assert r[i] == s[|s| - 1 - i] && r[i + 1] == s[|s| - 2 - i];
        }
      }
      if Warming(r) {
        forall i | 0 <= i < |s| - 1
          ensures HeatValue(s[i]) >= HeatValue(s[i + 1])
        {
          assert s[i] == r[|s| - 1 - i] && s[i + 1] == r[|s| - 2 - i];
        }
      }
    }
    if Warming(s) && Cooling(s) {
      WarmingAndCooling(s);
    }
  }

  /** A list that is both non-decreasing and non-increasing in heat is constant. */
  lemma {:induction false} WarmingAndCooling(s: seq<Tier>)
    requires Warming(s) && Cooling(s)
    ensures AllSame(s)
  {
    forall i | 0 <= i < |s|
      ensures s[i] == s[0]
    {
      ConstantPrefix(s, i);
    }
  }

  lemma {:induction false} ConstantPrefix(s: seq<Tier>, i: int)
    requires Warming(s) && Cooling(s) && 0 <= i < |s|
    ensures HeatValue(s[i]) == HeatValue(s[0])
  {
    if i > 0 {
      ConstantPrefix(s, i - 1);
    }
  }

  // ---------------------------------------------------------------------
  // Cross-window consistency

  /** The tier a window result gives a ball: hot, else warm, else cold. */
  function TierIn(c: Categories, b: int): Tier
  {
    if b in c.hot then Hot else if b in c.warm then Warm else Cold
  }

  /** `ball_statuses[b]`: the ball's tier in each window, in window order. */
  function Statuses(ws: seq<Categories>, b: int): (s: seq<Tier>)
    ensures |s| == |ws|
    ensures forall j :: 0 <= j < |ws| ==> s[j] == TierIn(ws[j], b)
  {
    seq(|ws|, j requires 0 <= j < |ws| => TierIn(ws[j], b))
  }

  datatype Varying = Varying(ball: int, statuses: seq<Tier>, trend: string)

  datatype Consistency =
    | NeedTwoWindows
    | Consistency(consistentHot: seq<int>, consistentWarm: seq<int>, consistentCold: seq<int>,
                  varying: seq<Varying>)

  /** The four lists after balls 1..k were classified by their statuses. */
  function Split(st: map<int, seq<Tier>>, k: int): (c: Consistency)
    requires forall b :: 1 <= b <= k ==> b in st && |st[b]| > 0
    ensures c.Consistency?
    decreases k
  {
    if k < 1 then Consistency([], [], [], [])
    else
      var c := Split(st, k - 1);
      var s := st[k];
      if AllSame(s) then
        match s[0]
        case Hot => c.(consistentHot := c.consistentHot + [k])
        case Warm => c.(consistentWarm := c.consistentWarm + [k])
        case Cold => c.(consistentCold := c.consistentCold + [k])
      else c.(varying := c.varying + [Varying(k, s, HeatTrend(s))])
  }

  function StatusMap(ws: seq<Categories>): (m: map<int, seq<Tier>>)
    ensures forall b :: b in m <==> IsRed(b)
    ensures forall b :: IsRed(b) ==> m[b] == Statuses(ws, b)
  {
    map b | 1 <= b <= RedMax :: Statuses(ws, b)
  }

  /** `_analyze_cross_window_consistency` over the window results in dictionary order. */
  function ConsistencyOf(ws: seq<Categories>): Consistency
  {
    if |ws| < 2 then NeedTwoWindows
    else
      var c := Split(StatusMap(ws), RedMax);
      Consistency(SortInts(c.consistentHot), SortInts(c.consistentWarm), SortInts(c.consistentCold),
                  c.varying)
  }

  predicate InVarying(vs: seq<Varying>, b: int)
  {
    exists i :: 0 <= i < |vs| && vs[i].ball == b
  }

  /**
   * After classifying 1..k: each of those balls is in exactly one list, a
   * consistent list holds the balls whose statuses are all that tier, the
   * lists hold only balls of 1..k, and they are ascending.
   */
  lemma SplitFacts(st: map<int, seq<Tier>>, k: int)
    requires forall b :: 1 <= b <= k ==> b in st && |st[b]| > 0
    ensures var c := Split(st, k);
      (forall b :: b in c.consistentHot <==> 1 <= b <= k && AllSame(st[b]) && st[b][0] == Hot) &&
      (forall b :: b in c.consistentWarm <==> 1 <= b <= k && AllSame(st[b]) && st[b][0] == Warm) &&
      (forall b :: b in c.consistentCold <==> 1 <= b <= k && AllSame(st[b]) && st[b][0] == Cold) &&
      (forall b :: InVarying(c.varying, b) <==> 1 <= b <= k && !AllSame(st[b])) &&
      Ascending(c.consistentHot) && Ascending(c.consistentWarm) && Ascending(c.consistentCold) &&
      (forall i :: 0 <= i < |c.varying| ==>
        1 <= c.varying[i].ball <= k &&
        c.varying[i].statuses == st[c.varying[i].ball] &&
        c.varying[i].trend == HeatTrend(c.varying[i].statuses))
  {
    SplitConsistent(st, k);
    SplitVarying(st, k);
  }

  /** The consistent list of tier t. */
  function ConsistentList(c: Consistency, t: Tier): seq<int>
    requires c.Consistency?
  {
    match t
    case Hot => c.consistentHot
    case Warm => c.consistentWarm
    case Cold => c.consistentCold
  }

  /** One consistent list of `Split`. */
  lemma {:induction false} SplitTier(st: map<int, seq<Tier>>, k: int, t: Tier)
    requires forall b :: 1 <= b <= k ==> b in st && |st[b]| > 0
    ensures forall b :: b in ConsistentList(Split(st, k), t) <==> 1 <= b <= k && AllSame(st[b]) && st[b][0] == t
    ensures Ascending(ConsistentList(Split(st, k), t))
    decreases k
  {
    if k >= 1 {
      SplitTier(st, k - 1, t);
      var l := ConsistentList(Split(st, k - 1), t);
      if AllSame(st[k]) && st[k][0] == t {
        assert ConsistentList(Split(st, k), t) == l + [k];
        AscendingSnoc(l, k);
      } else {
        assert ConsistentList(Split(st, k), t) == l;
      }
    }
  }

  lemma SplitConsistent(st: map<int, seq<Tier>>, k: int)
    requires forall b :: 1 <= b <= k ==> b in st && |st[b]| > 0
    ensures var c := Split(st, k);
      (forall b :: b in c.consistentHot <==> 1 <= b <= k && AllSame(st[b]) && st[b][0] == Hot) &&
      (forall b :: b in c.consistentWarm <==> 1 <= b <= k && AllSame(st[b]) && st[b][0] == Warm) &&
      (forall b :: b in c.consistentCold <==> 1 <= b <= k && AllSame(st[b]) && st[b][0] == Cold) &&
      Ascending(c.consistentHot) && Ascending(c.consistentWarm) && Ascending(c.consistentCold)
  {
    SplitTier(st, k, Hot);
    SplitTier(st, k, Warm);
    SplitTier(st, k, Cold);
  }

  /** An entry for a ball of 1..k with its own, differing statuses and their trend. */
  predicate VaryingEntry(st: map<int, seq<Tier>>, k: int, e: Varying)
  {
    1 <= e.ball <= k && e.ball in st && e.statuses == st[e.ball] && !AllSame(e.statuses) &&
    e.trend == HeatTrend(e.statuses)
  }

  /** Every entry of the varying list of `Split` is a ball of 1..k with its own, differing statuses and their trend. */
  lemma {:induction false} SplitVaryingEntries(st: map<int, seq<Tier>>, k: int)
    requires forall b :: 1 <= b <= k ==> b in st && |st[b]| > 0
    ensures forall i :: 0 <= i < |Split(st, k).varying| ==> VaryingEntry(st, k, Split(st, k).varying[i])
    decreases k
  {
    if k >= 1 {
      SplitVaryingEntries(st, k - 1);
      var v := Split(st, k - 1).varying;
      var v' := Split(st, k).varying;
      if !AllSame(st[k]) {
        assert v' == v + [Varying(k, st[k], HeatTrend(st[k]))];
        forall i | 0 <= i < |v'|
          ensures VaryingEntry(st, k, v'[i])
        {
          if i < |v| {
            assert v'[i] == v[i];
          } else {
            assert v'[i] == Varying(k, st[k], HeatTrend(st[k]));
          }
        }
      } else {
        assert v' == v;
      }
    }
  }

  /** The varying list of `Split` names exactly the balls whose statuses differ. */
  lemma {:induction false} SplitVaryingIff(st: map<int, seq<Tier>>, k: int)
    requires forall b :: 1 <= b <= k ==> b in st && |st[b]| > 0
    ensures forall b :: InVarying(Split(st, k).varying, b) <==> 1 <= b <= k && !AllSame(st[b])
    decreases k
  {
    SplitVaryingEntries(st, k);
    if k >= 1 {
      SplitVaryingIff(st, k - 1);
      var v := Split(st, k - 1).varying;
      var v' := Split(st, k).varying;
      if !AllSame(st[k]) {
        assert v' == v + [Varying(k, st[k], HeatTrend(st[k]))];
        forall b | 1 <= b <= k && !AllSame(st[b])
          ensures InVarying(v', b)
        {
          if b == k {
            assert v'[|v|].ball == k;
          } else {
            var i :| 0 <= i < |v| && v[i].ball == b;
            assert v'[i].ball == b;
          }
        }
      } else {
        assert v' == v;
      }
    }
  }

  lemma SplitVarying(st: map<int, seq<Tier>>, k: int)
    requires forall b :: 1 <= b <= k ==> b in st && |st[b]| > 0
    ensures var c := Split(st, k);
      (forall b :: InVarying(c.varying, b) <==> 1 <= b <= k && !AllSame(st[b])) &&
      (forall i :: 0 <= i < |c.varying| ==>
        1 <= c.varying[i].ball <= k &&
        c.varying[i].statuses == st[c.varying[i].ball] &&
        c.varying[i].trend == HeatTrend(c.varying[i].statuses))
  {
    SplitVaryingEntries(st, k);
    SplitVaryingIff(st, k);
  }

  lemma AscendingSnoc(s: seq<int>, k: int)
    requires Ascending(s) && forall x :: x in s ==> x < k
    ensures Ascending(s + [k])
  {
    var r := s + [k];
    forall i, j | 0 <= i < j < |r|
      ensures r[i] < r[j]
    {
      assert r[i] == s[i] && s[i] in s;
    }
  }

  /** Sorting an ascending list changes nothing. */
  lemma {:induction false} SortAscending(s: seq<int>)
    requires Ascending(s)
    ensures SortInts(s) == s
  {
    if |s| > 0 {
      var t := s[..|s| - 1];
      assert Ascending(t);
      SortAscending(t);
      InsertLast(s[|s| - 1], t);
      assert t + [s[|s| - 1]] == s;
    }
  }

  /** Inserting a value above every element appends it. */
  lemma {:induction false} InsertLast(x: int, s: seq<int>)
    requires forall i :: 0 <= i < |s| ==> s[i] < x
    ensures InsertInt(x, s) == s + [x]
  {
    if |s| > 0 {
      InsertLast(x, s[1..]);
      assert [s[0]] + (s[1..] + [x]) == s + [x];
    }
  }

  /** Every window lists ball b in tier t. */
  predicate AllTier(ws: seq<Categories>, b: int, t: Tier)
  {
    forall j :: 0 <= j < |ws| ==> TierIn(ws[j], b) == t
  }

  lemma ConsistentIff(ws: seq<Categories>, b: int, t: Tier)
    requires |ws| >= 1
    ensures (AllSame(Statuses(ws, b)) && Statuses(ws, b)[0] == t) <==> AllTier(ws, b, t)
  {
  }

  /** The final `sort()` calls find the consistent lists already ascending. */
  lemma ConsistencyIsSplit(ws: seq<Categories>)
    requires |ws| >= 2
    ensures ConsistencyOf(ws) == Split(StatusMap(ws), RedMax)
  {
    var c := Split(StatusMap(ws), RedMax);
    SplitFacts(StatusMap(ws), RedMax);
    SortAscending(c.consistentHot);
    SortAscending(c.consistentWarm);
    SortAscending(c.consistentCold);
  }

  /**
   * With at least two windows, a ball is consistently hot exactly when
   * every window lists it as hot (likewise warm and cold), it is varying
   * exactly when its statuses differ, and the consistent lists are
   * ascending; a varying ball carries its statuses and their heat trend.
   */
  lemma ConsistencyFacts(ws: seq<Categories>)
    requires |ws| >= 2
    ensures var c := ConsistencyOf(ws);
      c.Consistency? &&
      (forall b :: b in c.consistentHot <==> IsRed(b) && AllTier(ws, b, Hot)) &&
      (forall b :: b in c.consistentWarm <==> IsRed(b) && AllTier(ws, b, Warm)) &&
      (forall b :: b in c.consistentCold <==> IsRed(b) && AllTier(ws, b, Cold)) &&
      (forall b :: InVarying(c.varying, b) <==> IsRed(b) && !AllSame(Statuses(ws, b))) &&
      Ascending(c.consistentHot) && Ascending(c.consistentWarm) && Ascending(c.consistentCold) &&
      (forall i :: 0 <= i < |c.varying| ==>
        c.varying[i].statuses == Statuses(ws, c.varying[i].ball) &&
        c.varying[i].trend == HeatTrend(c.varying[i].statuses))
  {
    ConsistencyMembers(ws);
    ConsistencyShape(ws);
  }

  lemma ConsistencyMembers(ws: seq<Categories>)
    requires |ws| >= 2
    ensures var c := ConsistencyOf(ws);
      c.Consistency? &&
      (forall b :: b in c.consistentHot <==> IsRed(b) && AllTier(ws, b, Hot)) &&
      (forall b :: b in c.consistentWarm <==> IsRed(b) && AllTier(ws, b, Warm)) &&
      (forall b :: b in c.consistentCold <==> IsRed(b) && AllTier(ws, b, Cold)) &&
      (forall b :: InVarying(c.varying, b) <==> IsRed(b) && !AllSame(Statuses(ws, b)))
  {
    var st := StatusMap(ws);
    ConsistencyIsSplit(ws);
    SplitFacts(st, RedMax);
    forall b, t | IsRed(b)
      ensures (AllSame(st[b]) && st[b][0] == t) <==> AllTier(ws, b, t)
    {
      ConsistentIff(ws, b, t);
    }
  }

  lemma ConsistencyShape(ws: seq<Categories>)
    requires |ws| >= 2
    ensures var c := ConsistencyOf(ws);
      c.Consistency? &&
      Ascending(c.consistentHot) && Ascending(c.consistentWarm) && Ascending(c.consistentCold) &&
      (forall i :: 0 <= i < |c.varying| ==>
        c.varying[i].statuses == Statuses(ws, c.varying[i].ball) &&
        c.varying[i].trend == HeatTrend(c.varying[i].statuses))
  {
    ConsistencyIsSplit(ws);
    SplitFacts(StatusMap(ws), RedMax);
  }

  /** A ball is never both consistent and varying, and is always one of them. */
  lemma ConsistencyPartition(ws: seq<Categories>, b: int)
    requires |ws| >= 2 && IsRed(b)
    ensures var c := ConsistencyOf(ws);
      c.Consistency? &&
      (if b in c.consistentHot then 1 else 0) + (if b in c.consistentWarm then 1 else 0) +
      (if b in c.consistentCold then 1 else 0) + (if InVarying(c.varying, b) then 1 else 0) == 1
  {
    ConsistencyFacts(ws);
    ConsistentIff(ws, b, Hot);
    ConsistentIff(ws, b, Warm);
    ConsistentIff(ws, b, Cold);
  }

  /** The per-window loop of `_analyze_cross_window_consistency`, appending one status per ball. */
  method AppendStatuses(st: map<int, seq<Tier>>, c: Categories) returns (st': map<int, seq<Tier>>)
    requires forall b :: IsRed(b) ==> b in st
    ensures forall b :: b in st' <==> b in st
    ensures forall b :: IsRed(b) ==> st'[b] == st[b] + [TierIn(c, b)]
    ensures forall b :: b in st && !IsRed(b) ==> st'[b] == st[b]
  {
    st' := st;
    var ball := 1;
    while ball <= RedMax
      invariant 1 <= ball <= RedMax + 1
      invariant forall b :: b in st' <==> b in st
      invariant forall b :: b in st ==> st'[b] == if IsRed(b) && b < ball then st[b] + [TierIn(c, b)] else st[b]
    {
      var t := if ball in c.hot then Hot else if ball in c.warm then Warm else Cold;
      st' := st'[ball := st'[ball] + [t]];
      ball := ball + 1;
    }
  }

  /** Classifying one more ball by its statuses. */
  method ClassifyBall(c: Consistency, st: map<int, seq<Tier>>, ball: int) returns (c': Consistency)
    requires 1 <= ball && forall b :: 1 <= b <= ball ==> b in st && |st[b]| > 0
    requires c == Split(st, ball - 1)
    ensures c' == Split(st, ball)
  {
    var s := st[ball];
    if AllSame(s) {
      if s[0] == Hot {
        c' := c.(consistentHot := c.consistentHot + [ball]);
      } else if s[0] == Warm {
        c' := c.(consistentWarm := c.consistentWarm + [ball]);
      } else {
        c' := c.(consistentCold := c.consistentCold + [ball]);
      }
    } else {
      c' := c.(varying := c.varying + [Varying(ball, s, HeatTrend(s))]);
    }
  }

  /** `_analyze_cross_window_consistency` as the source computes it. */
  method AnalyzeCrossWindowConsistency(ws: seq<Categories>) returns (c: Consistency)
    ensures c == ConsistencyOf(ws)
  {
    if |ws| < 2 {
      return NeedTwoWindows;
    }
    var st: map<int, seq<Tier>> := map[];
    var ball := 1;
    while ball <= RedMax
      invariant 1 <= ball <= RedMax + 1
      invariant forall b :: b in st <==> 1 <= b < ball
      invariant forall b :: b in st ==> st[b] == []
    {
      st := st[ball := []];
      ball := ball + 1;
    }
    var j := 0;
    while j < |ws|
      invariant 0 <= j <= |ws|
      invariant forall b :: b in st <==> IsRed(b)
      invariant forall b :: IsRed(b) ==> st[b] == Statuses(ws[..j], b)
    {
      st := AppendStatuses(st, ws[j]);
      assert ws[..j + 1] == ws[..j] + [ws[j]];
      j := j + 1;
    }
    assert ws[..|ws|] == ws;
    assert st == StatusMap(ws);
    c := Consistency([], [], [], []);
    ball := 1;
    while ball <= RedMax
      invariant 1 <= ball <= RedMax + 1
      invariant c == Split(st, ball - 1)
    {
      c := ClassifyBall(c, st, ball);
      ball := ball + 1;
    }
    c := Consistency(SortInts(c.consistentHot), SortInts(c.consistentWarm), SortInts(c.consistentCold),
                     c.varying);
  }
}

module HotColdTrends {
  import opened Common
  import opened Spread
  import opened Draws
  import opened Database
  import opened HotCold

  /** `_determine_ball_trend` (hot/cold analyzer): 5% for a trend, 3% for stability. */
  function BallTrend(p: seq<real>): string
  {
    if |p| < 2 then "数据不足"
    else if |p| >= 4 then
      var spread := RealSeqMax(p) - RealSeqMin(p);
      if Rising(p) && spread > 0.05 then "递增"
      else if Falling(p) && spread > 0.05 then "递减"
      else if spread <= 0.03 then "稳定"
      else "波动"
    else if p[0] < p[|p| - 1] && p[|p| - 1] - p[0] > 0.05 then "上升"
    else if p[0] > p[|p| - 1] && p[0] - p[|p| - 1] > 0.05 then "下降"
    else "稳定"
  }

  /**
   * An increasing label over four or more windows means the last
   * percentage exceeds the first by more than 5%; a decreasing one, the
   * reverse; a stable one, that no two windows differ by more than 3%.
   */
  lemma BallTrendMeaning(p: seq<real>)
    requires |p| >= 4
    ensures BallTrend(p) == "递增" ==> p[|p| - 1] - p[0] > 0.05
    ensures BallTrend(p) == "递减" ==> p[0] - p[|p| - 1] > 0.05
    ensures BallTrend(p) == "稳定" ==>
      forall i, j :: 0 <= i < |p| && 0 <= j < |p| ==> p[i] - p[j] <= 0.03
  {
    SpreadAbove(p, 0.05);
    SpreadAbove(p, 0.03);
    if BallTrend(p) == "递增" {
      var i, j :| 0 <= i < |p| && 0 <= j < |p| && p[i] - p[j] > 0.05;
      RisingFrom(p, i, |p| - 1);
      RisingFrom(p, 0, j);
    }
    if BallTrend(p) == "递减" {
      var i, j :| 0 <= i < |p| && 0 <= j < |p| && p[i] - p[j] > 0.05;
      FallingFrom(p, 0, i);
      FallingFrom(p, j, |p| - 1);
    }
  }

  /** Reading the windows backwards turns a rise into a fall and keeps a stable list stable. */
  lemma BallTrendReverse(p: seq<real>)
    requires |p| >= 2
    ensures BallTrend(p) == "递增" <==> BallTrend(Reverse(p)) == "递减"
    ensures BallTrend(p) == "上升" <==> BallTrend(Reverse(p)) == "下降"
    ensures BallTrend(p) == "稳定" <==> BallTrend(Reverse(p)) == "稳定"
  {
    var r := Reverse(p);
    if |p| >= 4 {
      RisingReversed(p);
      FallingReversed(p);
      SpreadReverse(p, 0.05);
      SpreadReverse(p, 0.03);
      if Rising(p) && Falling(p) {
        SpreadZero(p);
      }
    } else {
      assert r[0] == p[|p| - 1] && r[|r| - 1] == p[0];
    }
  }

  lemma RisingReversed(p: seq<real>)
    ensures Rising(p) <==> Falling(Reverse(p))
  {
    var r := Reverse(p);
    if Rising(p) {
      forall i | 0 <= i < |r| - 1
        ensures r[i] >= r[i + 1]
      {
        assert r[i] == p[|p| - 1 - i] && r[i + 1] == p[|p| - 2 - i];
      }
    }
    if Falling(r) {
      forall i | 0 <= i < |p| - 1
        ensures p[i] <= p[i + 1]
      {
        assert p[i] == r[|p| - 1 - i] && p[i + 1] == r[|p| - 2 - i];
      }
    }
  }

  lemma FallingReversed(p: seq<real>)
    ensures Falling(p) <==> Rising(Reverse(p))
  {
    var r := Reverse(p);
    if Falling(p) {
      forall i | 0 <= i < |r| - 1
        ensures r[i] <= r[i + 1]
      {
        assert r[i] == p[|p| - 1 - i] && r[i + 1] == p[|p| - 2 - i];
      }
    }
    if Rising(r) {
      forall i | 0 <= i < |p| - 1
        ensures p[i] >= p[i + 1]
      {
        assert p[i] == r[|p| - 1 - i] && p[i + 1] == r[|p| - 2 - i];
      }
    }
  }

  /** A list that rises and falls is constant, so its spread is 0. */
  lemma SpreadZero(p: seq<real>)
    requires |p| > 0 && Rising(p) && Falling(p)
    ensures RealSeqMax(p) - RealSeqMin(p) <= 0.0
  {
    SpreadAbove(p, 0.0);
    forall i, j | 0 <= i < |p| && 0 <= j < |p|
      ensures p[i] - p[j] <= 0.0
    {
      RisingBounds(p, i);
      RisingBounds(p, j);
      RisingFrom(p, 0, |p| - 1);
      FallingFrom(p, 0, |p| - 1);
    }
  }

  lemma SpreadReverse(p: seq<real>, d: real)
    requires |p| > 0
    ensures RealSeqMax(p) - RealSeqMin(p) > d <==> RealSeqMax(Reverse(p)) - RealSeqMin(Reverse(p)) > d
  {
    var r := Reverse(p);
    SpreadAbove(p, d);
    SpreadAbove(r, d);
    if exists i, j :: 0 <= i < |p| && 0 <= j < |p| && p[i] - p[j] > d {
      var i, j :| 0 <= i < |p| && 0 <= j < |p| && p[i] - p[j] > d;
      assert r[|p| - 1 - i] - r[|p| - 1 - j] > d;
    }
    if exists i, j :: 0 <= i < |r| && 0 <= j < |r| && r[i] - r[j] > d {
      var i, j :| 0 <= i < |r| && 0 <= j < |r| && r[i] - r[j] > d;
      assert p[|p| - 1 - i] - p[|p| - 1 - j] > d;
    }
  }

  // ---------------------------------------------------------------------
  // Least-squares trend strength, with x = 0, 1, ..., n-1

  /** n, sum x, sum x^2, sum x*y and sum y over the points (i, p[i]). */
  datatype Sums = Sums(n: real, x: real, x2: real, xy: real, y: real)

  /** Adds the next point (n, v), whose x is the number of points so far. */
  function Step(s: Sums, v: real): Sums
  {
    Sums(s.n + 1.0, s.x + s.n, s.x2 + s.n * s.n, s.xy + s.n * v, s.y + v)
  }

  function SumsOf(p: seq<real>): Sums
  {
    if |p| == 0 then Sums(0.0, 0.0, 0.0, 0.0, 0.0) else Step(SumsOf(p[..|p| - 1]), p[|p| - 1])
  }

  /** `n * sum_x2 - sum_x ** 2` */
  function Denominator(s: Sums): real
  {
    s.n * s.x2 - s.x * s.x
  }

  /** min(|slope| * 20, 1) for the least-squares slope, 0 on a zero denominator. */
  function StrengthOf(s: Sums): (r: real)
    ensures 0.0 <= r <= 1.0
  {
    if Denominator(s) == 0.0 then 0.0
    else RealMin(Abs(Slope(s)) * 20.0, 1.0)
  }

  /** `(n * sum_xy - sum_x * sum_y) / (n * sum_x2 - sum_x ** 2)` */
  function Slope(s: Sums): real
    requires Denominator(s) != 0.0
  {
    (s.n * s.xy - s.x * s.y) / Denominator(s)
  }

  /** `_calculate_trend_strength`: a value in [0, 1], 0 below two points. */
  function TrendStrength(p: seq<real>): (s: real)
    ensures 0.0 <= s <= 1.0
    ensures |p| < 2 ==> s == 0.0
  {
    if |p| < 2 then 0.0 else StrengthOf(SumsOf(p))
  }

  /** The closed forms of n, sum x and sum x^2 over x = 0, ..., n-1. */
  predicate Closed(s: Sums)
  {
    2.0 * s.x == s.n * (s.n - 1.0) && 6.0 * s.x2 == (s.n - 1.0) * s.n * (2.0 * s.n - 1.0)
  }

  lemma ClosedStep(s: Sums, v: real)
    requires Closed(s)
    ensures Closed(Step(s, v))
  {
    var n := s.n;
    assert 2.0 * (s.x + n) == (n + 1.0) * n;
    assert 6.0 * (s.x2 + n * n) == n * (n + 1.0) * (2.0 * n + 1.0);
  }

  lemma {:induction false} SumsCount(p: seq<real>)
    ensures SumsOf(p).n == |p| as real
  {
    if |p| > 0 {
      SumsCount(p[..|p| - 1]);
    }
  }

  lemma {:induction false} SumsClosed(p: seq<real>)
    ensures Closed(SumsOf(p))
  {
    if |p| > 0 {
      SumsClosed(p[..|p| - 1]);
      ClosedStep(SumsOf(p[..|p| - 1]), p[|p| - 1]);
    }
  }

  /** The zero-denominator branch is dead: for n >= 2 the denominator is n^2 (n^2 - 1) / 12. */
  lemma DenominatorPositive(p: seq<real>)
    requires |p| >= 2
    ensures 12.0 * Denominator(SumsOf(p)) == SumsOf(p).n * SumsOf(p).n * (SumsOf(p).n * SumsOf(p).n - 1.0)
    ensures Denominator(SumsOf(p)) > 0.0
  {
    SumsCount(p);
    SumsClosed(p);
    DenominatorClosed(SumsOf(p));
  }

  lemma DenominatorClosed(s: Sums)
    requires s.n >= 2.0 && Closed(s)
    ensures 12.0 * Denominator(s) == s.n * s.n * (s.n * s.n - 1.0)
    ensures Denominator(s) > 0.0
  {
    var n, x, x2 := s.n, s.x, s.x2;
    assert 12.0 * (n * x2 - x * x) == 2.0 * n * (6.0 * x2) - 3.0 * (2.0 * x) * (2.0 * x);
    var m := n * n;
    assert m >= 4.0;
    assert m * (m - 1.0) > 0.0;
  }

  /** The sums of points on the line y = a + b*x are linear in a and b. */
  predicate OnLine(s: Sums, a: real, b: real)
  {
    s.y == s.n * a + b * s.x && s.xy == a * s.x + b * s.x2
  }

  lemma LineStep(s: Sums, a: real, b: real, v: real)
    requires OnLine(s, a, b) && v == a + b * s.n
    ensures OnLine(Step(s, v), a, b)
  {
  }

  lemma {:induction false} LineSums(p: seq<real>, a: real, b: real)
    requires forall i :: 0 <= i < |p| ==> p[i] == a + b * i as real
    ensures OnLine(SumsOf(p), a, b)
  {
    if |p| > 0 {
      var t := p[..|p| - 1];
      LineSums(t, a, b);
      SumsCount(t);
      LineStep(SumsOf(t), a, b, p[|p| - 1]);
    }
  }

  /** With sums of a line, the least-squares slope is the line's own slope. */
  lemma LineStrength(s: Sums, a: real, b: real)
    requires Denominator(s) > 0.0 && OnLine(s, a, b)
    ensures StrengthOf(s) == RealMin(Abs(b) * 20.0, 1.0)
  {
    SlopeOfLine(s, a, b);
  }

  lemma SlopeOfLine(s: Sums, a: real, b: real)
    requires Denominator(s) > 0.0 && OnLine(s, a, b)
    ensures Slope(s) == b
  {
    var d := Denominator(s);
    var num := s.n * s.xy - s.x * s.y;
    assert num == b * d;
    DivExact(num, d, b);
  }

  lemma DivExact(num: real, d: real, b: real)
    requires d != 0.0 && num == b * d
    ensures num / d == b
  {
  }

  /**
   * The least-squares slope of points on a straight line is the line's own
   * slope, so the trend strength is min(20 |b|, 1); a flat line has
   * strength 0.
   */
  lemma TrendStrengthOfLine(p: seq<real>, a: real, b: real)
    requires |p| >= 2
    requires forall i :: 0 <= i < |p| ==> p[i] == a + b * i as real
    ensures TrendStrength(p) == RealMin(Abs(b) * 20.0, 1.0)
    ensures b == 0.0 ==> TrendStrength(p) == 0.0
  {
    LineSums(p, a, b);
    DenominatorPositive(p);
    LineStrength(SumsOf(p), a, b);
  }

  // ---------------------------------------------------------------------
  // The window loop of `analyze_ball_trends`

  /** One analysed trend window. */
  datatype WindowStats = WindowStats(
    periodSize: int, windowSize: Option<int>,
    redCounts: map<int, int>, redPercentages: map<int, real>, totalGames: nat)

  /** `period_data`: all history for `None`, else the newest min(w, total) records. */
  function WindowData(all: seq<Draw>, w: Option<int>): seq<Draw>
  {
    if w.None? then all
    else
      var p := Min(w.value, |all|);
      if p > 0 then RecentRecords(all, p) else []
  }

  function Percentages(counts: map<int, int>, total: nat): (m: map<int, real>)
    requires total > 0
    ensures m.Keys == counts.Keys
    ensures forall b :: b in m ==> m[b] == counts[b] as real / total as real
  {
    map b | b in counts :: counts[b] as real / total as real
  }

  function StatsOf(all: seq<Draw>, w: Option<int>): WindowStats
    requires |WindowData(all, w)| > 0
  {
    var data := WindowData(all, w);
    var counts := RedCounter(data);
    WindowStats(if w.None? then |all| else Min(w.value, |all|), w,
                counts, Percentages(counts, |data|), |data|)
  }

  /** `window_results` after the loop over `sizes`; windows with fewer than ten draws are skipped. */
  function WindowResults(all: seq<Draw>, sizes: seq<Option<int>>): map<Option<int>, WindowStats>
  {
    if |sizes| == 0 then map[]
    else
      var prev := WindowResults(all, sizes[..|sizes| - 1]);
      var w := sizes[|sizes| - 1];
      if |WindowData(all, w)| < 10 then prev else prev[w := StatsOf(all, w)]
  }

  /**
   * Every kept window is one of the requested sizes, holds at least ten
   * draws, and gives each ball b in 1..33 its count and the ratio of that
   * count to the number of draws.
   */
  lemma {:induction false} WindowResultsFacts(all: seq<Draw>, sizes: seq<Option<int>>)
    ensures forall w :: w in WindowResults(all, sizes) ==>
      w in sizes &&
      var s := WindowResults(all, sizes)[w];
      var data := WindowData(all, w);
      s.totalGames == |data| >= 10 && s.windowSize == w &&
      forall b :: IsRed(b) ==>
        b in s.redCounts && b in s.redPercentages && s.redCounts[b] == RedCount(data, b) &&
        s.redPercentages[b] == RedCount(data, b) as real / |data| as real
  {
    if |sizes| > 0 {
      WindowResultsFacts(all, sizes[..|sizes| - 1]);
      var w := sizes[|sizes| - 1];
      var data := WindowData(all, w);
      CountMapFacts(AllReds(data));
    }
  }

  /** The loop over the window sizes. */
  method CollectWindows(all: seq<Draw>, sizes: seq<Option<int>>) returns (results: map<Option<int>, WindowStats>)
    ensures results == WindowResults(all, sizes)
  {
    results := map[];
    var k := 0;
    while k < |sizes|
      invariant 0 <= k <= |sizes|
      invariant results == WindowResults(all, sizes[..k])
    {
      assert sizes[..k + 1][..k] == sizes[..k];
      var w := sizes[k];
      var data: seq<Draw>;
      var periodSize: int;
      if w.None? {
        data := all;
        periodSize := |all|;
      } else {
        periodSize := Min(w.value, |all|);
        data := if periodSize > 0 then RecentRecords(all, periodSize) else [];
      }
      if |data| >= 10 {
        var counts, _ := CountRedBalls(data);
        var percentages := Percentages(counts, |data|);
        results := results[w := WindowStats(periodSize, w, counts, percentages, |data|)];
      }
      k := k + 1;
    }
    assert sizes[..|sizes|] == sizes;
  }

  // ---------------------------------------------------------------------
  // Per-ball trends

  /** The analysed windows in trend-window order (a window listed twice appears twice). */
  function Present(results: map<Option<int>, WindowStats>, order: seq<Option<int>>): (r: seq<WindowStats>)
    ensures |r| <= |order|
    ensures forall i :: 0 <= i < |r| ==> r[i] in results.Values
  {
    if |order| == 0 then []
    else
      var prev := Present(results, order[..|order| - 1]);
      var w := order[|order| - 1];
      if w in results then prev + [results[w]] else prev
  }

  datatype BallTrendInfo = BallTrendInfo(
    counts: seq<int>, percentages: seq<real>, trend: string, trendStrength: real,
    currentPercentage: real, historicalPercentage: real)

  function InfoOf(b: int, ws: seq<WindowStats>): BallTrendInfo
    requires |ws| >= 2
  {
    var counts := seq(|ws|, j requires 0 <= j < |ws| => Get(ws[j].redCounts, b));
    var pcts := seq(|ws|, j requires 0 <= j < |ws| =>
                      if b in ws[j].redPercentages then ws[j].redPercentages[b] else 0.0);
    BallTrendInfo(counts, pcts, BallTrend(pcts), TrendStrength(pcts), pcts[|ws| - 1], pcts[0])
  }

  /** `_analyze_individual_ball_trends`: a trend for every ball once two windows were analysed. */
  function BallTrends(results: map<Option<int>, WindowStats>, order: seq<Option<int>>): map<int, BallTrendInfo>
  {
    var ws := Present(results, order);
    if |ws| < 2 then map[] else map b | 1 <= b <= RedMax :: InfoOf(b, ws)
  }

  /**
   * Either every ball 1..33 gets a trend or none does; each trend reads
   * the same windows, has a percentage per window, a real trend label and
   * a strength in [0, 1].
   */
  lemma BallTrendsFacts(results: map<Option<int>, WindowStats>, order: seq<Option<int>>)
    ensures var t := BallTrends(results, order);
      (t == map[] || forall b :: b in t <==> IsRed(b)) &&
      forall b :: b in t ==>
        |t[b].counts| == |t[b].percentages| == |Present(results, order)| >= 2 &&
        t[b].trend != "数据不足" && 0.0 <= t[b].trendStrength <= 1.0 &&
        t[b].currentPercentage == t[b].percentages[|t[b].percentages| - 1] &&
        t[b].historicalPercentage == t[b].percentages[0]
  {
  }

  datatype TrendReport =
    | NoData
    | TrendReport(totalRecords: nat, windowResults: map<Option<int>, WindowStats>,
                  ballTrends: map<int, BallTrendInfo>, cacheTime: real)

  /** `analyze_ball_trends` on a cache miss over the newest-first record list `all`. */
  function TrendReportOf(all: seq<Draw>, sizes: seq<Option<int>>, trendOrder: seq<Option<int>>, now: real): TrendReport
  {
    if |all| == 0 then NoData
    else
      var results := WindowResults(all, sizes);
      TrendReport(|all|, results, BallTrends(results, trendOrder), now)
  }

  // ---------------------------------------------------------------------
  // The analyzer object and its caches

  /** What one `analyze` call returns and the result cache it leaves behind. */
  datatype Analyzed = Analyzed(result: Categories, cache: map<Option<int>, Categories>)

  /**
   * `analyze` for the window `w` over the result cache `cache`: a cached
   * entry younger than the lifetime is reused unless a refresh is forced;
   * no records give the empty result, left uncached; otherwise the records
   * are classified and the result is cached under the window.
   */
  function AnalyzeOutcome(cache: map<Option<int>, Categories>, records: seq<Draw>, w: Option<int>,
                          forceRefresh: bool, now: real): Analyzed
  {
    if !forceRefresh && w in cache && now - cache[w].cacheTime < CacheTtl then Analyzed(cache[w], cache)
    else if |records| == 0 then Analyzed(EmptyResult(w, now), cache)
    else
      var c := Classify(records, w, now);
      Analyzed(c, cache[w := c])
  }

  /**
   * When no fresh entry is reused, `analyze` over valid records yields
   * three tiers of 11 that split 1..33, a ball's status names the tier
   * that lists it, and only the window's entry of the cache changes; with
   * no records every ball is cold and the cache is untouched.
   */
  lemma AnalyzeOutcomeFacts(cache: map<Option<int>, Categories>, records: seq<Draw>, w: Option<int>,
                            forceRefresh: bool, now: real)
    requires RedsInRange(records)
    requires forceRefresh || w !in cache || now - cache[w].cacheTime >= CacheTtl
    ensures var a := AnalyzeOutcome(cache, records, w, forceRefresh, now);
      |records| == 0 ==>
        a.cache == cache && forall b :: IsRed(b) ==> BallStatus(b, a.result) == "冷"
    ensures var a := AnalyzeOutcome(cache, records, w, forceRefresh, now);
      |records| > 0 ==>
        a.cache == cache[w := a.result] && a.result.window == w &&
        |a.result.hot| == 11 && |a.result.warm| == 11 && |a.result.cold| == 11 &&
        (forall b :: b in a.result.hot || b in a.result.warm || b in a.result.cold ==> IsRed(b)) &&
        forall b :: IsRed(b) ==>
          (BallStatus(b, a.result) == "热" <==> b in a.result.hot) &&
          (BallStatus(b, a.result) == "温" <==> b in a.result.warm) &&
          (BallStatus(b, a.result) == "冷" <==> b in a.result.cold)
  {
    ClassifyPartition(records, w, now);
    ClassifyLookup(records, w, now);
  }

  class HotColdAnalyzer {
    const shortTermWindow: Option<int>
    const mediumTermWindow: Option<int>
    const longTermWindow: Option<int>
    const trendWindowSizes: seq<Option<int>>
    var cachedResults: map<Option<int>, Categories>
    var trendCache: map<seq<Option<int>>, TrendReport>

    /** The windows come from the window policy; both caches start empty. */
    constructor(manager: WindowConfig.WindowConfigManager)
      requires manager.Valid()
      ensures shortTermWindow == manager.windowConfig[WindowConfig.ShortTerm]
      ensures mediumTermWindow == manager.windowConfig[WindowConfig.MediumTerm]
      ensures longTermWindow == manager.windowConfig[WindowConfig.LongTerm]
      ensures trendWindowSizes == manager.trendWindows
      ensures cachedResults == map[] && trendCache == map[]
    {
      shortTermWindow := manager.windowConfig[WindowConfig.ShortTerm];
      mediumTermWindow := manager.windowConfig[WindowConfig.MediumTerm];
      longTermWindow := manager.windowConfig[WindowConfig.LongTerm];
      trendWindowSizes := manager.trendWindows;
      cachedResults := map[];
      trendCache := map[];
    }

    /** The window `analyze` uses: the short-term window when none is given. */
    function EffectiveWindow(window: Option<int>): Option<int>
    {
      if window.None? then shortTermWindow else window
    }

    /** A cached entry still younger than the five-minute lifetime. */
    predicate Fresh(key: Option<int>, now: real)
      reads this
    {
      key in cachedResults && now - cachedResults[key].cacheTime < CacheTtl
    }

    /**
     * `analyze`: a fresh cached result for the window is returned as it is
     * (whatever records are passed) unless a refresh is forced; no records
     * give the empty result, which is not cached; otherwise the records are
     * classified and the result is cached under the window.
     */
    method Analyze(records: seq<Draw>, window: Option<int>, forceRefresh: bool, now: real)
      returns (r: Categories)
      modifies this`cachedResults
      ensures var w := EffectiveWindow(window);
        if !forceRefresh && old(Fresh(w, now)) then
          r == old(cachedResults)[w] && cachedResults == old(cachedResults)
        else if |records| == 0 then
          r == EmptyResult(w, now) && cachedResults == old(cachedResults)
        else
          r == Classify(records, w, now) && cachedResults == old(cachedResults)[w := r]
      ensures Analyzed(r, cachedResults) ==
        AnalyzeOutcome(old(cachedResults), records, EffectiveWindow(window), forceRefresh, now)
    {
      var w := EffectiveWindow(window);
      if !forceRefresh && w in cachedResults {
        var cached := cachedResults[w];
        if now - cached.cacheTime < CacheTtl {
          return cached;
        }
      }
      if |records| == 0 {
        return EmptyResult(w, now);
      }
      r := ClassifyRecords(records, w, now);
      cachedResults := cachedResults[w := r];
    }

    /** `get_ball_status` without categories: invalid balls are rejected before any analysis. */
    method GetBallStatus(ball: int, records: seq<Draw>, now: real) returns (status: string)
      modifies this`cachedResults
      ensures !IsRed(ball) ==> status == "无效" && cachedResults == old(cachedResults)
      ensures IsRed(ball) ==> status in {"热", "温", "冷"}
      ensures IsRed(ball) ==>
        var a := AnalyzeOutcome(old(cachedResults), records, EffectiveWindow(None), false, now);
        status == BallStatus(ball, a.result) && cachedResults == a.cache
    {
      if !IsRed(ball) {
        return "无效";
      }
      var c := Analyze(records, None, false, now);
      status := BallStatus(ball, c);
    }

    /** `get_hot_numbers` / `get_warm_numbers` / `get_cold_numbers`. */
    method GetTier(t: Ranking.Tier, records: seq<Draw>, window: Option<int>, topN: Option<int>, now: real)
      returns (balls: seq<int>, c: Categories)
      modifies this`cachedResults
      ensures Analyzed(c, cachedResults) ==
        AnalyzeOutcome(old(cachedResults), records, EffectiveWindow(window), false, now)
      ensures balls == TopN(match t case Hot => c.hot case Warm => c.warm case Cold => c.cold, topN)
    {
      c := Analyze(records, window, false, now);
      var list := match t case Hot => c.hot case Warm => c.warm case Cold => c.cold;
      balls := TopN(list, topN);
    }

    /**
     * `clear_cache`: without a window both caches are emptied; with one,
     * only that window's entry is removed.
     */
    method ClearCache(window: Option<int>)
      modifies this`cachedResults, this`trendCache
      ensures window.None? ==> cachedResults == map[] && trendCache == map[]
      ensures window.Some? ==>
        cachedResults == old(cachedResults) - {window} && trendCache == old(trendCache)
    {
      if window.None? {
        cachedResults := map[];
        trendCache := map[];
      } else {
        cachedResults := cachedResults - {window};
      }
    }

    /**
     * `analyze_ball_trends` over the newest-first records `all`: cached by
     * the list of window sizes with the same lifetime; no data gives the
     * error result, which is not cached. The per-ball trends follow the
     * analyzer's own trend windows, whatever sizes were requested.
     */
    method AnalyzeBallTrends(all: seq<Draw>, windowSizes: Option<seq<Option<int>>>, forceRefresh: bool, now: real)
      returns (r: TrendReport)
      modifies this`trendCache
      ensures var sizes := if windowSizes.None? then trendWindowSizes else windowSizes.value;
        if !forceRefresh && sizes in old(trendCache) && old(trendCache)[sizes].TrendReport? &&
           now - old(trendCache)[sizes].cacheTime < CacheTtl then
          r == old(trendCache)[sizes] && trendCache == old(trendCache)
        else if |all| == 0 then
          r == NoData && trendCache == old(trendCache)
        else
          r == TrendReportOf(all, sizes, trendWindowSizes, now) && trendCache == old(trendCache)[sizes := r]
    {
      var sizes := if windowSizes.None? then trendWindowSizes else windowSizes.value;
      if !forceRefresh && sizes in trendCache {
        var cached := trendCache[sizes];
        if cached.TrendReport? && now - cached.cacheTime < CacheTtl {
          return cached;
        }
      }
      if |all| == 0 {
        return NoData;
      }
      var results := CollectWindows(all, sizes);
      r := TrendReport(|all|, results, BallTrends(results, trendWindowSizes), now);
      trendCache := trendCache[sizes := r];
    }
  }

  /**
   * Two `analyze` calls within the lifetime return the same result even
   * when the second is given other records.
   */
  method CacheHitIgnoresRecords(a: HotColdAnalyzer, first: seq<Draw>, second: seq<Draw>,
                                w: int, t0: real, t1: real)
    returns (r0: Categories, r1: Categories)
    requires |first| > 0 && t0 <= t1 < t0 + CacheTtl
    modifies a`cachedResults
    ensures r1 == r0 && r0 == Classify(first, Some(w), t0)
  {
    r0 := a.Analyze(first, Some(w), true, t0);
    assert r0.cacheTime == t0 && a.cachedResults[Some(w)] == r0;
    assert a.Fresh(Some(w), t1);
    r1 := a.Analyze(second, Some(w), false, t1);
  }
}
