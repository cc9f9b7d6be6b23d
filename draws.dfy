/**
 * A draw record as the analyzers see it (issue, date, the six red columns
 * red1..red6 in stored order, the blue ball), and the counting every
 * analyzer repeats: a Counter filled from all the red columns of a record
 * list, zero-filled for the balls that never appeared, and the adjacent
 * repeat counts.
 */
module Draws {
  import opened Common

  /** The six red columns red1..red6, in stored order. */
  type Six = s: seq<int> | |s| == 6 witness [0, 0, 0, 0, 0, 0]

  datatype Draw = Draw(issue: string, date: string, reds: Six, blue: int)

  const RedMax := 33
  const BlueMax := 16

  predicate IsRed(b: int) { 1 <= b <= RedMax }

  predicate IsBlue(b: int) { 1 <= b <= BlueMax }

  /** Every red column of every record lies in 1..33. */
  predicate RedsInRange(draws: seq<Draw>)
  {
    forall i, k :: 0 <= i < |draws| && 0 <= k < 6 ==> IsRed(draws[i].reds[k])
  }

  predicate BluesInRange(draws: seq<Draw>)
  {
    forall i :: 0 <= i < |draws| ==> IsBlue(draws[i].blue)
  }

  /** All red columns of all records, record by record, column by column. */
  function AllReds(draws: seq<Draw>): (r: seq<int>)
    ensures |r| == 6 * |draws|
  {
    if |draws| == 0 then [] else AllReds(draws[..|draws| - 1]) + draws[|draws| - 1].reds
  }

  function Blues(draws: seq<Draw>): (r: seq<int>)
    ensures |r| == |draws|
    ensures forall i :: 0 <= i < |draws| ==> r[i] == draws[i].blue
  {
    seq(|draws|, i requires 0 <= i < |draws| => draws[i].blue)
  }

  /** How often ball b was drawn as a red ball. */
  function RedCount(draws: seq<Draw>, b: int): nat
  {
    multiset(AllReds(draws))[b]
  }

  function BlueCount(draws: seq<Draw>, b: int): nat
  {
    multiset(Blues(draws))[b]
  }

  lemma AllRedsSnoc(draws: seq<Draw>, d: Draw)
    ensures AllReds(draws + [d]) == AllReds(draws) + d.reds
  {
    assert (draws + [d])[..|draws|] == draws;
  }

  /** The red columns of record i sit at positions 6i..6i+5 of AllReds. */
  lemma {:induction false} AllRedsIndex(draws: seq<Draw>, i: int, k: int)
    requires 0 <= i < |draws| && 0 <= k < 6
    ensures AllReds(draws)[6 * i + k] == draws[i].reds[k]
    decreases |draws|
  {
    var t := draws[..|draws| - 1];
    if i < |draws| - 1 {
      AllRedsIndex(t, i, k);
    }
  }

  lemma AllRedsInRange(draws: seq<Draw>)
    requires RedsInRange(draws)
    ensures forall p :: 0 <= p < |AllReds(draws)| ==> IsRed(AllReds(draws)[p])
  {
    forall p | 0 <= p < |AllReds(draws)|
      ensures IsRed(AllReds(draws)[p])
    {
      AllRedsIndex(draws, p / 6, p % 6);
    }
  }

  /**
   * Conservation of counts: over valid records the red counts of balls
   * 1..33 add up to six per record.
   */
  lemma RedConservation(draws: seq<Draw>)
    requires RedsInRange(draws)
    ensures CountSum(AllReds(draws), 1, RedMax) == 6 * |draws|
  {
    AllRedsInRange(draws);
    CountSumAll(AllReds(draws), 1, RedMax);
  }

  lemma BlueConservation(draws: seq<Draw>)
    requires BluesInRange(draws)
    ensures CountSum(Blues(draws), 1, BlueMax) == |draws|
  {
    CountSumAll(Blues(draws), 1, BlueMax);
  }

  /**
   * The red Counter of a record list: the nested loop over records and
   * their six columns. `order` is the Counter's key order (first
   * occurrence).
   */
  method CountReds(records: seq<Draw>) returns (counts: map<int, int>, order: seq<int>)
    ensures counts == CountMap(AllReds(records))
    ensures order == Dedupe(AllReds(records))
  {
    counts := map[];
    order := [];
    ghost var seen: seq<int> := [];
    var i := 0;
    while i < |records|
      invariant 0 <= i <= |records|
      invariant seen == AllReds(records[..i])
      invariant counts == CountMap(seen) && order == Dedupe(seen)
    {
      counts, order := Tally(counts, order, seen, records[i].reds);
      seen := seen + records[i].reds;
      PrefixStep(records, i);
      i := i + 1;
    }
    assert records[..|records|] == records;
  }

  lemma PrefixStep(records: seq<Draw>, i: int)
    requires 0 <= i < |records|
    ensures AllReds(records[..i + 1]) == AllReds(records[..i]) + records[i].reds
  {
    assert records[..i + 1] == records[..i] + [records[i]];
    AllRedsSnoc(records[..i], records[i]);
  }

  /** A Counter filled from a flat sequence, with its key order. */
  method CountValues(xs: seq<int>) returns (counts: map<int, int>, order: seq<int>)
    ensures counts == CountMap(xs)
    ensures order == Dedupe(xs)
  {
    counts, order := Tally(map[], [], [], xs);
    assert [] + xs == xs;
  }

  /**
   * `for ball in xs: counter[ball] += 1` on a Counter that already holds
   * the values `seen`.
   */
  method Tally(counts: map<int, int>, order: seq<int>, ghost seen: seq<int>, xs: seq<int>)
    returns (counts': map<int, int>, order': seq<int>)
    requires counts == CountMap(seen) && order == Dedupe(seen)
    ensures counts' == CountMap(seen + xs)
    ensures order' == Dedupe(seen + xs)
  {
    counts' := counts;
    order' := order;
    var i := 0;
    assert seen + xs[..0] == seen;
    ghost var acc := seen;
    while i < |xs|
      invariant 0 <= i <= |xs|
      invariant acc == seen + xs[..i]
      invariant counts' == CountMap(acc)
      invariant order' == Dedupe(acc)
    {
      counts', order' := Increment(counts', order', acc, xs[i]);
      PrefixSnoc(seen, xs, i);
      acc := acc + [xs[i]];
      i := i + 1;
    }
    assert xs[..|xs|] == xs;
  }

  /** `counter[ball] += 1` on a Counter that holds the values `seen`. */
  method Increment(counts: map<int, int>, order: seq<int>, ghost seen: seq<int>, ball: int)
    returns (counts': map<int, int>, order': seq<int>)
    requires counts == CountMap(seen) && order == Dedupe(seen)
    ensures counts' == CountMap(seen + [ball])
    ensures order' == Dedupe(seen + [ball])
  {
    CountStep(seen, ball);
    order' := if ball in counts then order else order + [ball];
    counts' := counts[ball := Get(counts, ball) + 1];
  }

  lemma PrefixSnoc(seen: seq<int>, xs: seq<int>, i: int)
    requires 0 <= i < |xs|
    ensures seen + xs[..i + 1] == (seen + xs[..i]) + [xs[i]]
  {
    assert xs[..i + 1] == xs[..i] + [xs[i]];
  }

  /** One Counter increment: the count of `ball` grows by one, a new key goes last. */
  lemma CountStep(seen: seq<int>, ball: int)
    ensures CountMap(seen + [ball]) == CountMap(seen)[ball := Get(CountMap(seen), ball) + 1]
    ensures ball in CountMap(seen) ==> Dedupe(seen + [ball]) == Dedupe(seen)
    ensures ball !in CountMap(seen) ==> Dedupe(seen + [ball]) == Dedupe(seen) + [ball]
  {
    CountMapFacts(seen);
    assert (seen + [ball])[..|seen|] == seen;
  }

  /** The zero-filled Counter: every observed key plus lo..hi, unseen ones at 0. */
  function ZeroFilled(counts: map<int, int>, lo: int, hi: int): (m: map<int, int>)
    ensures forall b :: b in m <==> b in counts || lo <= b <= hi
    ensures forall b :: b in m ==> m[b] == Get(counts, b)
  {
    RangeFacts(lo, hi + 1);
    map b | b in counts.Keys + ToSet(Range(lo, hi + 1)) :: Get(counts, b)
  }

  /** Keys appended by zero-filling lo..hi: the uncounted balls, ascending. */
  function Missing(counts: map<int, int>, lo: int, hi: int): seq<int>
    decreases hi - lo
  {
    if hi < lo then [] else Missing(counts, lo, hi - 1) + (if hi !in counts then [hi] else [])
  }

  lemma {:induction false} MissingFacts(counts: map<int, int>, lo: int, hi: int)
    ensures forall x :: x in Missing(counts, lo, hi) <==> lo <= x <= hi && x !in counts
    ensures Ascending(Missing(counts, lo, hi))
    decreases hi - lo
  {
    if hi >= lo {
      var t := Missing(counts, lo, hi - 1);
      MissingFacts(counts, lo, hi - 1);
      if hi !in counts {
        var r := t + [hi];
        forall i, j | 0 <= i < j < |r|
          ensures r[i] < r[j]
        {
          assert r[i] == t[i] && t[i] in t;
          if j < |t| {
            assert r[j] == t[j];
          }
        }
      }
    }
  }

  /** `for ball in range(lo, hi + 1): if ball not in counter: counter[ball] = 0` */
  method ZeroFill(counts: map<int, int>, order: seq<int>, lo: int, hi: int)
    returns (filled: map<int, int>, order': seq<int>)
    requires lo <= hi + 1
    ensures filled == ZeroFilled(counts, lo, hi)
    ensures order' == order + Missing(counts, lo, hi)
  {
    filled := counts;
    order' := order;
    var b := lo;
    assert ZeroFilled(counts, lo, lo - 1) == counts;
    while b <= hi
      invariant lo <= b <= hi + 1
      invariant filled == ZeroFilled(counts, lo, b - 1)
      invariant order' == order + Missing(counts, lo, b - 1)
    {
      ZeroFillStep(counts, lo, b);
      if b !in filled {
        filled := filled[b := 0];
        order' := order' + [b];
      }
      b := b + 1;
    }
  }

  /** Zero-filling one more ball b: a new key 0 exactly when b was not counted. */
  lemma ZeroFillStep(counts: map<int, int>, lo: int, b: int)
    requires lo <= b
    ensures b in ZeroFilled(counts, lo, b - 1) <==> b in counts
    ensures ZeroFilled(counts, lo, b) ==
            if b in counts then ZeroFilled(counts, lo, b - 1) else ZeroFilled(counts, lo, b - 1)[b := 0]
  {
  }

  /**
   * The key order of the zero-filled red Counter: balls in order of first
   * appearance, then the never-drawn balls ascending.
   */
  function ZeroFilledOrder(draws: seq<Draw>): seq<int>
  {
    Dedupe(AllReds(draws)) + Missing(CountMap(AllReds(draws)), 1, RedMax)
  }

  lemma DistinctConcat(a: seq<int>, b: seq<int>)
    requires Distinct(a) && Distinct(b)
    requires forall x :: x in a ==> x !in b
    ensures Distinct(a + b)
  {
    forall i, j | 0 <= i < j < |a + b|
      ensures (a + b)[i] != (a + b)[j]
    {
      if j >= |a| && i < |a| {
        assert (a + b)[i] in a;
        assert (a + b)[j] in b;
      }
    }
  }

  /** For valid records the zero-filled key list is exactly 1..33, each once. */
  lemma ZeroFilledOrderFacts(draws: seq<Draw>)
    requires RedsInRange(draws)
    ensures Distinct(ZeroFilledOrder(draws))
    ensures forall x :: x in ZeroFilledOrder(draws) <==> IsRed(x)
    ensures |ZeroFilledOrder(draws)| == RedMax
  {
    var xs := AllReds(draws);
    var keys := ZeroFilledOrder(draws);
    ZeroFilledOrderMembers(draws);
    var r := Range(1, RedMax + 1);
    RangeFacts(1, RedMax + 1);
    forall x
      ensures x in ToSet(keys) <==> x in ToSet(r)
    {
      assert x in keys <==> IsRed(x);
      assert x in r <==> IsRed(x);
    }
    assert ToSet(keys) == ToSet(r);
    CardToSet(keys);
    CardToSet(r);
  }

  lemma ZeroFilledOrderMembers(draws: seq<Draw>)
    requires RedsInRange(draws)
    ensures Distinct(ZeroFilledOrder(draws))
    ensures forall x :: x in ZeroFilledOrder(draws) <==> IsRed(x)
  {
    var xs := AllReds(draws);
    var d := Dedupe(xs);
    var m := Missing(CountMap(xs), 1, RedMax);
    DedupeFacts(xs);
    MissingFacts(CountMap(xs), 1, RedMax);
    CountMapFacts(xs);
    AllRedsInRange(draws);
    DistinctConcat(d, m);
  }

  /** |reds_i & reds_{i+1}| for each adjacent pair of records. */
  function RepeatCounts(draws: seq<Draw>): (r: seq<int>)
    ensures |r| == if |draws| == 0 then 0 else |draws| - 1
    ensures forall i :: 0 <= i < |r| ==> r[i] == Overlap(draws[i].reds, draws[i + 1].reds)
  {
    if |draws| <= 1 then []
    else seq(|draws| - 1, i requires 0 <= i < |draws| - 1 =>
               Overlap(draws[i].reds, draws[i + 1].reds))
  }

  /** The shared pairwise-intersection kernel: a repeat count is 0..6. */
  lemma RepeatCountBounds(draws: seq<Draw>)
    ensures forall i :: 0 <= i < |RepeatCounts(draws)| ==> 0 <= RepeatCounts(draws)[i] <= 6
  {
    forall i | 0 <= i < |RepeatCounts(draws)|
      ensures RepeatCounts(draws)[i] <= 6
    {
      OverlapBound(draws[i].reds, draws[i + 1].reds);
    }
  }

  /** Whether two adjacent records have the same blue ball (0 or 1). */
  function BlueRepeat(a: Draw, b: Draw): int
  {
    if a.blue == b.blue then 1 else 0
  }

  /** Red sums, one per record. */
  function RedSums(draws: seq<Draw>): (r: seq<int>)
    ensures |r| == |draws|
    ensures forall i :: 0 <= i < |draws| ==> r[i] == Sum(draws[i].reds)
  {
    seq(|draws|, i requires 0 <= i < |draws| => Sum(draws[i].reds))
  }

  // ---------------------------------------------------------------------
  // Unused reds

  /** `[ball for ball in range(1, 34) if ball not in existing]` */
  function Available(existing: seq<int>): (r: seq<int>)
    ensures forall b :: b in r <==> IsRed(b) && b !in existing
    ensures Ascending(r)
  {
    var free := b => b !in existing;
    RangeFacts(1, 34);
    FilterFacts(Range(1, 34), free);
    FilterSubsequence(Range(1, 34), free);
    Filter(Range(1, 34), free)
  }

  /** The head of an ascending sequence is its smallest element. */
  lemma AscendingHead(s: seq<int>)
    requires Ascending(s) && |s| > 0
    ensures forall x :: x in s ==> s[0] <= x
  {
    forall x | x in s
      ensures s[0] <= x
    {
      var k :| 0 <= k < |s| && s[k] == x;
      if k > 0 {
        assert s[0] < s[k];
      }
    }
  }

  /** Some red is unused whenever fewer than 33 balls are in use. */
  lemma FreeRedExists(chosen: seq<int>)
    requires |chosen| < 33
    ensures exists b :: IsRed(b) && b !in chosen
  {
    var S, C := ToSet(Range(1, 34)), ToSet(chosen);
    RangeFacts(1, 34);
    CardToSet(Range(1, 34));
    CardToSet(chosen);
    SubsetCard(S * C, C);
    assert |S - C| + |C - S| + |S * C| == |S + C|;
    assert |S + C| + |S * C| == |S| + |C|;
    assert |S - C| > 0;
    var b :| b in S - C;
    assert IsRed(b) && b !in chosen;
  }

  /** At least 33 - |existing| reds are unused (exactly that many when `existing` holds distinct reds). */
  lemma AvailableSize(existing: seq<int>)
    ensures |Available(existing)| >= RedMax - |existing|
  {
    var a := Available(existing);
    var S, C := ToSet(Range(1, 34)), ToSet(existing);
    RangeFacts(1, 34);
    CardToSet(Range(1, 34));
    CardToSet(existing);
    CardToSet(a);
    assert ToSet(a) == S - C;
    assert |S - C| + |C - S| + |S * C| == |S + C|;
    assert |S + C| + |S * C| == |S| + |C|;
    SubsetCard(S * C, C);
  }

  predicate AllRed(s: seq<int>)
  {
    forall b :: b in s ==> IsRed(b)
  }

  /** Sorting distinct reds with one more unused red gives one more distinct sorted red. */
  lemma AddFreshRed(s: seq<int>, x: int)
    requires Distinct(s) && AllRed(s) && IsRed(x) && x !in s
    ensures var t := SortInts(s + [x]);
      |t| == |s| + 1 && Distinct(t) && NonDecreasing(t) && AllRed(t) &&
      forall b :: b in t <==> b in s || b == x
  {
    var t := SortInts(s + [x]);
    DistinctSnoc(s, x);
    PermutationKeepsDistinct(s + [x], t);
    forall b
      ensures b in t <==> b in s || b == x
    {
      assert b in t <==> b in multiset(t);
      assert b in s + [x] <==> b in multiset(s + [x]);
    }
  }
}
