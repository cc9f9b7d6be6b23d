/**
 * The base and enhanced predictors: the legacy hot/warm/cold split that
 * is used when the shared analyzer is missing, the tier queries, the
 * hot/cold 6+1 prediction (3 hot + 2 warm + 1 cold reds and a rarely
 * drawn blue), its 7+1 and 8+1 extensions and the recommendation among
 * the three.
 *
 * The predictions draw at random; each draw is a choice (`:|`) among
 * the values the random call can return, so every contract below holds
 * for every outcome of the random calls.
 */
module Predictor {
  import opened Common
  import opened Draws
  import opened Ranking
  import Database
  import HotCold

  // ---------------------------------------------------------------------
  // Tiers

  /** The `{'hot': ..., 'warm': ..., 'cold': ...}` categories. */
  datatype Tiers = Tiers(hot: seq<int>, warm: seq<int>, cold: seq<int>)

  /** Three repeat-free, pairwise disjoint lists of reds. */
  predicate WellFormedTiers(t: Tiers)
  {
    Distinct(t.hot) && Distinct(t.warm) && Distinct(t.cold) &&
    AllRed(t.hot) && AllRed(t.warm) && AllRed(t.cold) &&
    (forall b :: b in t.hot ==> b !in t.warm && b !in t.cold) &&
    (forall b :: b in t.warm ==> b !in t.cold)
  }

  /** `[:11]`, `[11:22]` and `[22:]` of a ranking. */
  function SplitTiers(r: seq<int>): Tiers
  {
    Tiers(SliceTo(r, 11), Slice(r, 11, 22), SliceFrom(r, 22))
  }

  lemma DistinctSlice(s: seq<int>, a: int, b: int)
    requires Distinct(s) && 0 <= a <= b <= |s|
    ensures Distinct(s[a..b])
  {
    forall i, j | 0 <= i < j < b - a
      ensures s[a..b][i] != s[a..b][j]
    {
      assert s[a..b][i] == s[a + i] && s[a..b][j] == s[a + j];
    }
  }

  /** A ranking of the 33 reds splits into three well-formed tiers of 11 that cover every red once. */
  lemma SplitFacts(r: seq<int>)
    requires Distinct(r) && |r| == RedMax
    requires forall x :: x in r <==> IsRed(x)
    ensures var t := SplitTiers(r);
      WellFormedTiers(t) && |t.hot| == 11 && |t.warm| == 11 && |t.cold| == 11 &&
      forall b :: IsRed(b) ==> b in t.hot || b in t.warm || b in t.cold
  {
    ElevenSplit(r);
    assert r[22..] == r[22..33];
    DistinctSlice(r, 0, 11);
    DistinctSlice(r, 11, 22);
    DistinctSlice(r, 22, 33);
  }

  /**
   * The fallback of `get_number_categories`: no records gives three empty
   * tiers; otherwise the red Counter over the records, zero-filled for
   * 1..33, is ranked by `most_common()` and cut into 11/11/11.
   */
  function FallbackCategories(recent: seq<Draw>): Tiers
  {
    if |recent| == 0 then Tiers([], [], [])
    else SplitTiers(MostCommon(ZeroFilledOrder(recent), Database.RedCounter(recent)))
  }

  /** `get_number_categories(window)` without the analyzer: the newest `window` records. */
  function FallbackOf(all: seq<Draw>, window: int): Tiers
  {
    FallbackCategories(Database.RecentRecords(all, window))
  }

  /** The fallback as the source computes it: a Counter loop, `most_common()` and three slices. */
  method FallbackCategoriesLoop(recent: seq<Draw>) returns (t: Tiers)
    ensures t == FallbackCategories(recent)
  {
    if |recent| == 0 {
      return Tiers([], [], []);
    }
    var counts, order := HotCold.CountRedBalls(recent);
    var ranked := MostCommon(order, counts);
    t := SplitTiers(ranked);
  }

  /** Without records the tiers are empty; otherwise they partition the reds 11/11/11. */
  lemma FallbackFacts(recent: seq<Draw>)
    requires RedsInRange(recent)
    ensures |recent| == 0 ==> FallbackCategories(recent) == Tiers([], [], [])
    ensures |recent| > 0 ==> var t := FallbackCategories(recent);
      WellFormedTiers(t) && |t.hot| == 11 && |t.warm| == 11 && |t.cold| == 11 &&
      (forall b :: IsRed(b) ==> b in t.hot || b in t.warm || b in t.cold)
  {
    if |recent| > 0 {
      var order := ZeroFilledOrder(recent);
      var cnt := Database.RedCounter(recent);
      var r := MostCommon(order, cnt);
      ZeroFilledOrderFacts(recent);
      MostCommonFacts(order, cnt);
      assert forall x :: x in r <==> x in multiset(r);
      assert forall x :: x in order <==> x in multiset(order);
      SplitFacts(r);
    }
  }

  /**
   * Every fallback-hot ball was drawn at least as often as every warm
   * ball, and every warm ball at least as often as every cold one; on
   * equal counts the ball that first appeared earlier (in record order,
   * never-drawn balls last in ascending order) ranks higher.
   */
  lemma FallbackRanking(recent: seq<Draw>)
    requires RedsInRange(recent) && |recent| > 0
    ensures var t := FallbackCategories(recent);
      var cnt := Database.RedCounter(recent);
      var order := ZeroFilledOrder(recent);
      RanksAbove(order, cnt, t.hot, t.warm) && RanksAbove(order, cnt, t.warm, t.cold)
  {
    var order := ZeroFilledOrder(recent);
    var cnt := Database.RedCounter(recent);
    var r := MostCommon(order, cnt);
    ZeroFilledOrderFacts(recent);
    TierOrder(order, cnt, 0, 11, 11, 22);
    TierOrder(order, cnt, 11, 22, 22, 33);
    assert |r| == 33;
    assert FallbackCategories(recent) == Tiers(r[0..11], r[11..22], r[22..33]);
  }

  /** `get_hot_numbers` / `get_cold_numbers`: `xs[:top_n] if top_n <= len(xs) else xs`. */
  function TopOf(xs: seq<int>, topN: int): (r: seq<int>)
    ensures |r| <= |xs| && r == xs[..|r|]
    ensures 0 <= topN ==> |r| == Min(topN, |xs|)
    ensures topN < 0 ==> |r| == Max(0, |xs| + topN)
  {
    if topN <= |xs| then SliceTo(xs, topN) else xs
  }

  /** `get_ball_status`: 热 (hot) before 温 (warm); anything else is 冷 (cold). */
  function BallStatus(b: int, t: Tiers): string
  {
    if b in t.hot then "热" else if b in t.warm then "温" else "冷"
  }

  /** Over the fallback tiers of some records, each red's status names the one tier holding it. */
  lemma BallStatusFacts(recent: seq<Draw>, b: int)
    requires RedsInRange(recent) && |recent| > 0 && IsRed(b)
    ensures var t := FallbackCategories(recent);
      (BallStatus(b, t) == "热" <==> b in t.hot) &&
      (BallStatus(b, t) == "温" <==> b in t.warm) &&
      (BallStatus(b, t) == "冷" <==> b in t.cold)
  {
    FallbackFacts(recent);
  }

  /** The analyzer's classification yields well-formed 11/11/11 tiers too. */
  lemma ClassifyTiers(records: seq<Draw>, w: Option<int>, now: real)
    requires RedsInRange(records)
    ensures var c := HotCold.Classify(records, w, now);
      var t := Tiers(c.hot, c.warm, c.cold);
      WellFormedTiers(t) && |t.hot| == 11 && |t.warm| == 11 && |t.cold| == 11
  {
    var r := Database.Ranked(records);
    Database.RankedFacts(records);
    SplitFacts(r);
    assert SplitTiers(r) == Tiers(Slice(r, 0, 11), Slice(r, 11, 22), Slice(r, 22, 33));
  }

  // ---------------------------------------------------------------------
  // Random draws

  /** What `random.sample(pool, k)` can return for a repeat-free pool. */
  predicate Sample(s: seq<int>, pool: seq<int>, k: int)
  {
    |s| == k && Distinct(s) && forall x :: x in s ==> x in pool
  }

  /** `random.sample(pool, k)`. */
  method SampleOf(pool: seq<int>, k: int) returns (s: seq<int>)
    requires Distinct(pool) && 0 <= k <= |pool|
    ensures Sample(s, pool, k)
  {
    DistinctSlice(pool, 0, k);
    assert Sample(pool[..k], pool, k);
    s :| Sample(s, pool, k);
  }

  /** A sample of k balls of a pool shares at least k balls with any list holding it. */
  lemma SampleOverlap(s: seq<int>, pool: seq<int>, k: int, reds: seq<int>)
    requires Sample(s, pool, k)
    requires forall x :: x in s ==> x in reds
    ensures Overlap(reds, pool) >= k
  {
    CardToSet(s);
    forall x | x in ToSet(s)
      ensures x in ToSet(reds) * ToSet(pool)
    {
      assert x in s;
    }
    SubsetCard(ToSet(s), ToSet(reds) * ToSet(pool));
  }

  /** A blue ball the records drew once or twice. */
  predicate RareBlue(recent: seq<Draw>, b: int)
  {
    1 <= BlueCount(recent, b) <= 2
  }

  ghost predicate AnyRareBlue(recent: seq<Draw>)
  {
    exists b :: IsBlue(b) && RareBlue(recent, b)
  }

  /**
   * The blue candidates of `predict_by_hot_cold`: the blues drawn once or
   * twice in the records; when there are none, the blues drawn at most
   * three times.
   */
  function BlueCandidates(recent: seq<Draw>): (r: seq<int>)
    ensures AnyRareBlue(recent) ==> forall b :: b in r <==> IsBlue(b) && RareBlue(recent, b)
    ensures !AnyRareBlue(recent) ==> forall b :: b in r <==> IsBlue(b) && BlueCount(recent, b) <= 3
  {
    var rare := b => RareBlue(recent, b);
    var few := b => BlueCount(recent, b) <= 3;
    RangeFacts(1, BlueMax + 1);
    FilterFacts(Range(1, BlueMax + 1), rare);
    FilterFacts(Range(1, BlueMax + 1), few);
    var first := Filter(Range(1, BlueMax + 1), rare);
    assert forall b :: b in first <==> IsBlue(b) && RareBlue(recent, b);
    if |first| > 0 then
      assert first[0] in first;
      assert IsBlue(first[0]) && RareBlue(recent, first[0]);
      assert AnyRareBlue(recent);
      first
    else
      Filter(Range(1, BlueMax + 1), few)
  }

  /** Either the counts of balls lo..hi add up to at least 4 per ball, or one of them was drawn at most three times. */
  lemma {:induction false} CountSumOrFew(xs: seq<int>, lo: int, hi: int)
    requires lo <= hi + 1
    ensures CountSum(xs, lo, hi) >= 4 * (hi - lo + 1) ||
            exists b :: lo <= b <= hi && multiset(xs)[b] <= 3
    decreases hi - lo
  {
    if hi >= lo && multiset(xs)[hi] > 3 {
      CountSumOrFew(xs, lo, hi - 1);
    }
  }

  /**
   * With at most 20 valid records some blue was drawn at most three
   * times (16 blues drawn four times would need 64 records), so the
   * blue candidates are never empty and the `randint(1, 16)` fallback
   * does not run.
   */
  lemma BlueCandidatesNonEmpty(recent: seq<Draw>)
    requires BluesInRange(recent) && |recent| <= 20
    ensures |BlueCandidates(recent)| > 0
  {
    BlueConservation(recent);
    CountSumOrFew(Blues(recent), 1, BlueMax);
    var b :| 1 <= b <= BlueMax && multiset(Blues(recent))[b] <= 3;
    if AnyRareBlue(recent) {
      var c :| IsBlue(c) && RareBlue(recent, c);
      assert c in BlueCandidates(recent);
    } else {
      assert b in BlueCandidates(recent);
    }
  }

  /** `random.choice(candidates) if candidates else random.randint(1, 16)`. */
  method ChooseBlue(candidates: seq<int>) returns (blue: int)
    requires forall b :: b in candidates ==> IsBlue(b)
    ensures IsBlue(blue)
    ensures |candidates| > 0 ==> blue in candidates
  {
    if |candidates| > 0 {
      var i :| 0 <= i < |candidates|;
      blue := candidates[i];
    } else {
      assert IsBlue(1);
      blue :| IsBlue(blue);
    }
  }

  /** `[x for x in pool if x not in reds]` */
  function Unused(pool: seq<int>, reds: seq<int>): (r: seq<int>)
    ensures forall b :: b in r <==> b in pool && b !in reds
  {
    var free := b => b !in reds;
    FilterFacts(pool, free);
    Filter(pool, free)
  }

  /**
   * One more red for 7+1/8+1: a random ball of `pool` not yet chosen,
   * or, when the pool has none, a random unused red (the
   * `random.randint(1, 33)` fallback for no unused red cannot run with
   * fewer than 33 reds chosen).
   */
  method AddOne(reds: seq<int>, pool: seq<int>) returns (extra: int, grown: seq<int>)
    requires Distinct(reds) && AllRed(reds) && AllRed(pool) && |reds| < RedMax
    ensures IsRed(extra) && extra !in reds
    ensures (exists h :: h in pool && h !in reds) ==> extra in pool
    ensures |grown| == |reds| + 1 && Distinct(grown) && NonDecreasing(grown) && AllRed(grown)
    ensures forall b :: b in grown <==> b in reds || b == extra
  {
    var candidates := Unused(pool, reds);
    if |candidates| > 0 {
      var i :| 0 <= i < |candidates|;
      extra := candidates[i];
    } else {
      FreeRedExists(reds);
      var remaining := Available(reds);
      var b :| IsRed(b) && b !in reds;
      assert b in remaining;
      var i :| 0 <= i < |remaining|;
      extra := remaining[i];
    }
    AddFreshRed(reds, extra);
    grown := SortInts(reds + [extra]);
  }

  // ---------------------------------------------------------------------
  // Predictions

  datatype Prediction = Prediction(
    reds: seq<int>, blue: int, redStatus: map<int, string>, confidence: real, strategy: string)

  /** `{ball: get_ball_status(ball) for ball in reds}` */
  function StatusMap(reds: seq<int>, t: Tiers): (m: map<int, string>)
    ensures forall b :: b in m <==> b in reds
  {
    map b | b in reds :: BallStatus(b, t)
  }

  /** `60 + hot_count * 5 - cold_count * 3` */
  function BaseConfidence(hotCount: int, coldCount: int): real
  {
    (60 + hotCount * 5 - coldCount * 3) as real
  }

  /** Six distinct sorted reds. */
  predicate SixReds(reds: seq<int>)
  {
    |reds| == 6 && Distinct(reds) && NonDecreasing(reds) && AllRed(reds)
  }

  /** Sorting keeps the set of balls. */
  lemma SortedSet(s: seq<int>)
    ensures ToSet(SortInts(s)) == ToSet(s)
  {
    var r := SortInts(s);
    forall x
      ensures x in r <==> x in s
    {
      assert x in r <==> x in multiset(r);
      assert x in s <==> x in multiset(s);
    }
  }

  /** `sorted(selected_reds)`: the tier selection in ascending order. */
  method SortedSelectedReds(t: Tiers) returns (reds: seq<int>)
    requires WellFormedTiers(t)
    ensures SixReds(reds)
    ensures Overlap(reds, t.hot) >= Min(3, |t.hot|)
    ensures Overlap(reds, t.warm) >= Min(2, |t.warm|)
    ensures Overlap(reds, t.cold) >= Min(1, |t.cold|)
    ensures |t.hot| >= 3 && |t.warm| >= 2 && |t.cold| >= 1 ==>
      Overlap(reds, t.hot) == 3 && Overlap(reds, t.warm) == 2 && Overlap(reds, t.cold) == 1
  {
    var selected := SelectReds(t);
    reds := SortInts(selected);
    SortedSelection(t, selected);
  }

  /** Noise within ±5 keeps the capped confidence within 5 of the capped base; 3 hot and 1 cold give 67..77. */
  lemma NoisyConfidence(h: int, c: int, u: real)
    requires -5.0 <= u <= 5.0
    ensures var base := BaseConfidence(h, c);
      RealMin(base - 5.0, 85.0) <= RealMin(base + u, 85.0) <= RealMin(base + 5.0, 85.0)
    ensures h == 3 && c == 1 ==> 67.0 <= RealMin(BaseConfidence(h, c) + u, 85.0) <= 77.0
  {
  }

  /** Sorting the selection gives six sorted reds with the same overlaps with the tiers. */
  lemma SortedSelection(t: Tiers, selected: seq<int>)
    requires |selected| == 6 && Distinct(selected) && AllRed(selected)
    ensures var reds := SortInts(selected);
      SixReds(reds) &&
      Overlap(reds, t.hot) == Overlap(selected, t.hot) &&
      Overlap(reds, t.warm) == Overlap(selected, t.warm) &&
      Overlap(reds, t.cold) == Overlap(selected, t.cold)
  {
    var reds := SortInts(selected);
    SortedSet(selected);
    PermutationKeepsDistinct(selected, reds);
    forall b | b in reds
      ensures IsRed(b)
    {
      assert b in ToSet(selected);
    }
  }

  /** The 3 hot + 2 warm + 1 cold selection of full tiers shares exactly 3, 2 and 1 balls with the tiers. */
  lemma FullSelection(t: Tiers, hs: seq<int>, ws: seq<int>, cs: seq<int>, reds: seq<int>)
    requires WellFormedTiers(t)
    requires Sample(hs, t.hot, 3) && Sample(ws, t.warm, 2) && Sample(cs, t.cold, 1)
    requires ToSet(reds) == ToSet(hs + ws + cs)
    ensures Overlap(reds, t.hot) == 3 && Overlap(reds, t.warm) == 2 && Overlap(reds, t.cold) == 1
  {
    CardToSet(hs);
    CardToSet(ws);
    CardToSet(cs);
    forall x
      ensures x in ToSet(reds) * ToSet(t.hot) <==> x in ToSet(hs)
      ensures x in ToSet(reds) * ToSet(t.warm) <==> x in ToSet(ws)
      ensures x in ToSet(reds) * ToSet(t.cold) <==> x in ToSet(cs)
    {
      assert x in ToSet(hs + ws + cs) <==> x in hs + ws + cs;
      assert x in hs + ws + cs <==> x in hs || x in ws || x in cs;
      assert x in ToSet(t.hot) <==> x in t.hot;
      assert x in ToSet(t.warm) <==> x in t.warm;
      assert x in ToSet(t.cold) <==> x in t.cold;
    }
    assert ToSet(reds) * ToSet(t.hot) == ToSet(hs);
    assert ToSet(reds) * ToSet(t.warm) == ToSet(ws);
    assert ToSet(reds) * ToSet(t.cold) == ToSet(cs);
  }

  /** The 3/2/1 selection of `predict_by_hot_cold`, padded to six from the unused reds. */
  method SelectReds(t: Tiers) returns (selected: seq<int>)
    requires WellFormedTiers(t)
    ensures |selected| == 6 && Distinct(selected) && AllRed(selected)
    ensures Overlap(selected, t.hot) >= Min(3, |t.hot|)
    ensures Overlap(selected, t.warm) >= Min(2, |t.warm|)
    ensures Overlap(selected, t.cold) >= Min(1, |t.cold|)
    ensures |t.hot| >= 3 && |t.warm| >= 2 && |t.cold| >= 1 ==>
      Overlap(selected, t.hot) == 3 && Overlap(selected, t.warm) == 2 && Overlap(selected, t.cold) == 1
  {
    var hs := SampleOf(t.hot, Min(3, |t.hot|));
    var ws := SampleOf(t.warm, Min(2, |t.warm|));
    var cs := SampleOf(t.cold, Min(1, |t.cold|));
    DistinctConcat(hs, ws);
    DistinctConcat(hs + ws, cs);
    selected := hs + ws + cs;
    ghost var chosen := selected;
    if |selected| < 6 {
      AvailableSize(selected);
      RangeFacts(1, 34);
      FilterSubsequence(Range(1, 34), b => b !in selected);
      var extra := SampleOf(Available(selected), 6 - |selected|);
      DistinctConcat(selected, extra);
      selected := selected + extra;
    }
    // `all_selected[:6]` is never reached: 3 + 2 + 1 balls are at most six.
    SampleOverlap(hs, t.hot, |hs|, selected);
    SampleOverlap(ws, t.warm, |ws|, selected);
    SampleOverlap(cs, t.cold, |cs|, selected);
    if |t.hot| >= 3 && |t.warm| >= 2 && |t.cold| >= 1 {
      assert selected == chosen;
      FullSelection(t, hs, ws, cs, selected);
    }
  }

  /**
   * `predict_by_hot_cold` over the tiers `t` of its window, with
   * `statusTiers` the tiers of the default window that
   * `get_ball_status` consults: six distinct sorted reds holding
   * min(3, |hot|) hot, min(2, |warm|) warm and min(1, |cold|) cold balls
   * (exactly 3/2/1 when the tiers are full), a blue among the
   * candidates of the newest 20 records, and a confidence within 5 of
   * the 60 + 5·hot − 3·cold base, capped at 85 (67..77 for full tiers).
   */
  method PredictByHotCold(t: Tiers, statusTiers: Tiers, all: seq<Draw>) returns (p: Prediction)
    requires WellFormedTiers(t)
    requires BluesInRange(all)
    ensures SixReds(p.reds)
    ensures Overlap(p.reds, t.hot) >= Min(3, |t.hot|)
    ensures Overlap(p.reds, t.warm) >= Min(2, |t.warm|)
    ensures Overlap(p.reds, t.cold) >= Min(1, |t.cold|)
    ensures |t.hot| >= 3 && |t.warm| >= 2 && |t.cold| >= 1 ==>
      Overlap(p.reds, t.hot) == 3 && Overlap(p.reds, t.warm) == 2 && Overlap(p.reds, t.cold) == 1 &&
      67.0 <= p.confidence <= 77.0
    ensures p.blue in BlueCandidates(Database.RecentRecords(all, 20))
    ensures var base := BaseConfidence(Overlap(p.reds, t.hot), Overlap(p.reds, t.cold));
      RealMin(base - 5.0, 85.0) <= p.confidence <= RealMin(base + 5.0, 85.0)
    ensures p.redStatus == StatusMap(p.reds, statusTiers)
    ensures p.strategy == "热冷号分析"
  {
    var reds := SortedSelectedReds(t);
    var recent := Database.RecentRecords(all, 20);
    BlueCandidatesNonEmpty(recent);
    var blue := ChooseBlue(BlueCandidates(recent));
    var u: real :| -5.0 <= u <= 5.0;
    var base := BaseConfidence(Overlap(reds, t.hot), Overlap(reds, t.cold));
    NoisyConfidence(Overlap(reds, t.hot), Overlap(reds, t.cold), u);
    p := Prediction(reds, blue, StatusMap(reds, statusTiers), RealMin(base + u, 85.0), "热冷号分析");
  }

  // ---------------------------------------------------------------------
  // 7+1, 8+1 and the recommendation

  /** A list holding `base` shares at least as many balls with `pool` as `base` does. */
  lemma OverlapMono(base: seq<int>, reds: seq<int>, pool: seq<int>)
    requires forall b :: b in base ==> b in reds
    ensures Overlap(reds, pool) >= Overlap(base, pool)
  {
    forall x | x in ToSet(base) * ToSet(pool)
      ensures x in ToSet(reds) * ToSet(pool)
    {
      assert x in base;
    }
    SubsetCard(ToSet(base) * ToSet(pool), ToSet(reds) * ToSet(pool));
  }

  /** Adding a ball of `pool` that `base` lacks raises the overlap with `pool` by one. */
  lemma OverlapGrows(base: seq<int>, reds: seq<int>, extra: int, pool: seq<int>)
    requires forall b :: b in base ==> b in reds
    requires extra in reds && extra in pool && extra !in base
    ensures Overlap(reds, pool) >= Overlap(base, pool) + 1
  {
    var small := ToSet(base) * ToSet(pool);
    forall x | x in small + {extra}
      ensures x in ToSet(reds) * ToSet(pool)
    {
      if x != extra {
        assert x in base;
      }
    }
    assert |small + {extra}| == |small| + 1;
    SubsetCard(small + {extra}, ToSet(reds) * ToSet(pool));
  }

  /** A repeat-free pool longer than `base` has a ball `base` lacks. */
  lemma LongerPoolHasFresh(pool: seq<int>, base: seq<int>)
    requires Distinct(pool) && |pool| > |base|
    ensures exists h :: h in pool && h !in base
  {
    var P, B := ToSet(pool), ToSet(base);
    CardToSet(pool);
    CardToSet(base);
    SubsetCard(P * B, B);
    assert |P - B| + |B - P| + |P * B| == |P + B|;
    assert |P + B| + |P * B| == |P| + |B|;
    assert |P - B| > 0;
    var h :| h in P - B;
    assert h in pool && h !in base;
  }

  /**
   * The extra ball drawn from the top `topN` hot balls for a six-red base:
   * with at least seven hot balls among them, the extra ball is hot and
   * the grown list holds one more hot ball than the base.
   */
  lemma HotExtra(t: Tiers, topN: int, base: seq<int>, extra: int, grown: seq<int>)
    requires WellFormedTiers(t) && |base| == 6 && 7 <= topN && |t.hot| >= 7
    requires (exists h :: h in TopOf(t.hot, topN) && h !in base) ==> extra in TopOf(t.hot, topN)
    requires extra !in base && (forall b :: b in base ==> b in grown) && extra in grown
    ensures extra in t.hot
    ensures Overlap(grown, t.hot) >= Overlap(base, t.hot) + 1
  {
    var top := TopOf(t.hot, topN);
    DistinctSlice(t.hot, 0, |top|);
    LongerPoolHasFresh(top, base);
    assert extra in top;
    OverlapGrows(base, grown, extra, t.hot);
  }

  /** Full tiers: at least 3 hot, 2 warm and 1 cold ball. */
  predicate FullTiers(t: Tiers)
  {
    |t.hot| >= 3 && |t.warm| >= 2 && |t.cold| >= 1
  }

  /**
   * `predict_7_plus_1`: a fresh hot/cold 6+1 plus one ball, drawn from
   * the top 15 hot balls when one of them is unused and from the unused
   * reds otherwise; same blue, nine tenths of the confidence. (The
   * re-draw of six random reds when the base has not six cannot happen:
   * the base always has six.)
   */
  method Predict7Plus1(t: Tiers, all: seq<Draw>) returns (p: Prediction)
    requires WellFormedTiers(t) && BluesInRange(all)
    ensures |p.reds| == 7 && Distinct(p.reds) && NonDecreasing(p.reds) && AllRed(p.reds)
    ensures Overlap(p.reds, t.hot) >= Min(3, |t.hot|)
    ensures |t.hot| >= 7 ==> Overlap(p.reds, t.hot) >= 4
    ensures p.blue in BlueCandidates(Database.RecentRecords(all, 20))
    ensures p.confidence <= 76.5
    ensures FullTiers(t) ==> 60.3 <= p.confidence <= 69.3
    ensures p.redStatus == StatusMap(p.reds, t)
    ensures p.strategy == "7+1增强"
  {
    var base := PredictByHotCold(t, t, all);
    var extra, reds := AddOne(base.reds, TopOf(t.hot, 15));
    OverlapMono(base.reds, reds, t.hot);
    if |t.hot| >= 7 {
      HotExtra(t, 15, base.reds, extra, reds);
    }
    p := Prediction(reds, base.blue, StatusMap(reds, t), base.confidence * 0.9, "7+1增强");
  }

  /**
   * `predict_8_plus_1`: a fresh hot/cold 6+1, one ball from the top 20
   * hot balls (or from the unused reds when they are all used) and one
   * more unused red; same blue, eight tenths of the confidence. (The
   * `randint` loop for no unused red cannot run with seven reds chosen.)
   */
  method Predict8Plus1(t: Tiers, all: seq<Draw>) returns (p: Prediction)
    requires WellFormedTiers(t) && BluesInRange(all)
    ensures |p.reds| == 8 && Distinct(p.reds) && NonDecreasing(p.reds) && AllRed(p.reds)
    ensures Overlap(p.reds, t.hot) >= Min(3, |t.hot|)
    ensures |t.hot| >= 7 ==> Overlap(p.reds, t.hot) >= 4
    ensures p.blue in BlueCandidates(Database.RecentRecords(all, 20))
    ensures p.confidence <= 68.0
    ensures FullTiers(t) ==> 53.6 <= p.confidence <= 61.6
    ensures p.redStatus == StatusMap(p.reds, t)
    ensures p.strategy == "8+1高级"
  {
    var base := PredictByHotCold(t, t, all);
    var extra1, seven := AddOne(base.reds, TopOf(t.hot, 20));
    var extra2, reds := AddOne(seven, []);
    OverlapMono(base.reds, reds, t.hot);
    if |t.hot| >= 7 {
      HotExtra(t, 20, base.reds, extra1, reds);
    }
    p := Prediction(reds, base.blue, StatusMap(reds, t), base.confidence * 0.8, "8+1高级");
  }

  /**
   * `max(confidences.items(), key=lambda x: x[1])` over 6+1, 7+1 and 8+1
   * in that order: the largest confidence, the first label on ties.
   */
  function Recommend(c6: real, c7: real, c8: real): (r: (string, real))
    ensures r.1 >= c6 && r.1 >= c7 && r.1 >= c8
    ensures r == ("6+1", c6) || r == ("7+1", c7) || r == ("8+1", c8)
    ensures r.0 == "7+1" ==> c6 < c7
    ensures r.0 == "8+1" ==> c6 < c8 && c7 < c8
  {
    var first := if c7 > c6 then ("7+1", c7) else ("6+1", c6);
    if c8 > first.1 then ("8+1", c8) else first
  }

  datatype AllCombinations = AllCombinations(
    six: Prediction, seven: Prediction, eight: Prediction,
    recommended: string, recommendedConfidence: real)

  /**
   * `predict_all_combinations`: three independent predictions and the
   * recommendation among them. With full tiers 8+1 is never recommended:
   * its confidence stays below 61.6 while 6+1 has at least 67.
   */
  method PredictAllCombinations(t: Tiers, all: seq<Draw>) returns (r: AllCombinations)
    requires WellFormedTiers(t) && BluesInRange(all)
    ensures SixReds(r.six.reds) && |r.seven.reds| == 7 && |r.eight.reds| == 8
    ensures (r.recommended, r.recommendedConfidence) ==
      Recommend(r.six.confidence, r.seven.confidence, r.eight.confidence)
    ensures FullTiers(t) ==> r.recommended != "8+1"
  {
    var six := PredictByHotCold(t, t, all);
    var seven := Predict7Plus1(t, all);
    var eight := Predict8Plus1(t, all);
    var best := Recommend(six.confidence, seven.confidence, eight.confidence);
    r := AllCombinations(six, seven, eight, best.0, best.1);
  }
}
