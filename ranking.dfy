/**
 * Ranking balls by frequency, as the analyzers do it with Python's `sorted`
 * and `Counter.most_common`, and the tier split that follows.
 *
 * Both orders are one sort by (count descending, tie key ascending):
 * `sorted(items, key=lambda x: (-x[1], x[0]))` uses the ball as tie key;
 * `most_common()` is a stable sort of the Counter's items in insertion
 * order, which is the same as using the insertion index as tie key.
 */
module Ranking {
  import opened Common
  import opened Draws

  datatype Entry = Entry(ball: int, count: int, tie: int)

  /** a sorts strictly before b */
  predicate Before(a: Entry, b: Entry)
  {
    a.count > b.count || (a.count == b.count && a.tie < b.tie)
  }

  predicate SortedEntries(s: seq<Entry>)
  {
    forall i, j :: 0 <= i < j < |s| ==> !Before(s[j], s[i])
  }

  function Insert(x: Entry, s: seq<Entry>): (r: seq<Entry>)
    ensures multiset(r) == multiset(s) + multiset{x}
    ensures |r| == |s| + 1
  {
    if |s| == 0 then [x]
    else if Before(x, s[0]) then [x] + s
    else
      assert s == [s[0]] + s[1..];
      [s[0]] + Insert(x, s[1..])
  }

  lemma {:induction false} InsertSorted(x: Entry, s: seq<Entry>)
    requires SortedEntries(s)
    ensures SortedEntries(Insert(x, s))
  {
    if |s| > 0 && !Before(x, s[0]) {
      var t := s[1..];
      assert SortedEntries(t);
      InsertSorted(x, t);
      assert forall i :: 0 <= i < |t| ==> !Before(t[i], s[0]) by {
        forall i | 0 <= i < |t|
          ensures !Before(t[i], s[0])
        {
          assert t[i] == s[i + 1];
        }
      }
      InsertNotBefore(x, t, s[0]);
      ConsSorted(s[0], Insert(x, t));
    } else {
      ConsSorted(x, s);
    }
  }

  /** Inserting an entry that does not sort before a into entries none of which do. */
  lemma InsertNotBefore(x: Entry, s: seq<Entry>, a: Entry)
    requires !Before(x, a) && forall i :: 0 <= i < |s| ==> !Before(s[i], a)
    ensures forall i :: 0 <= i < |Insert(x, s)| ==> !Before(Insert(x, s)[i], a)
  {
    var r := Insert(x, s);
    forall i | 0 <= i < |r|
      ensures !Before(r[i], a)
    {
      assert r[i] in multiset(r);
      if r[i] != x {
        assert r[i] in multiset(s);
        var k :| 0 <= k < |s| && s[k] == r[i];
      }
    }
  }

  lemma ConsSorted(a: Entry, s: seq<Entry>)
    requires SortedEntries(s) && forall i :: 0 <= i < |s| ==> !Before(s[i], a)
    ensures SortedEntries([a] + s)
  {
    var r := [a] + s;
    forall i, j | 0 <= i < j < |r|
      ensures !Before(r[j], r[i])
    {
      assert r[j] == s[j - 1];
      if i > 0 {
        assert r[i] == s[i - 1];
      }
    }
  }

  /** Insertion sort: a permutation of its input in (count desc, tie asc) order. */
  function Sort(s: seq<Entry>): (r: seq<Entry>)
    ensures multiset(r) == multiset(s)
    ensures |r| == |s|
    ensures SortedEntries(r)
  {
    if |s| == 0 then []
    else
      var t := Sort(s[..|s| - 1]);
      InsertSorted(s[|s| - 1], t);
      assert s == s[..|s| - 1] + [s[|s| - 1]];
      Insert(s[|s| - 1], t)
  }

  function BallsOf(s: seq<Entry>): (r: seq<int>)
    ensures |r| == |s|
    ensures forall i :: 0 <= i < |s| ==> r[i] == s[i].ball
  {
    seq(|s|, i requires 0 <= i < |s| => s[i].ball)
  }

  function ByBallEntries(keys: seq<int>, cnt: map<int, int>): seq<Entry>
  {
    seq(|keys|, i requires 0 <= i < |keys| => Entry(keys[i], Get(cnt, keys[i]), keys[i]))
  }

  function ByIndexEntries(order: seq<int>, cnt: map<int, int>): seq<Entry>
  {
    seq(|order|, i requires 0 <= i < |order| => Entry(order[i], Get(cnt, order[i]), i))
  }

  /** `[b for b, _ in sorted(counter.items(), key=lambda x: (-x[1], x[0]))]` */
  function RankByCount(keys: seq<int>, cnt: map<int, int>): seq<int>
  {
    BallsOf(Sort(ByBallEntries(keys, cnt)))
  }

  /** `[b for b, _ in counter.most_common()]`, keys given in insertion order. */
  function MostCommon(order: seq<int>, cnt: map<int, int>): seq<int>
  {
    BallsOf(Sort(ByIndexEntries(order, cnt)))
  }

  /** Every element of a sorted permutation comes from the input. */
  lemma SortedFrom(s: seq<Entry>, i: int)
    requires 0 <= i < |Sort(s)|
    ensures Sort(s)[i] in s
  {
    assert Sort(s)[i] in multiset(Sort(s));
  }

  lemma BallsAppend(a: seq<Entry>, b: seq<Entry>)
    ensures BallsOf(a + b) == BallsOf(a) + BallsOf(b)
  {
  }

  lemma {:induction false} InsertBalls(x: Entry, s: seq<Entry>)
    ensures multiset(BallsOf(Insert(x, s))) == multiset(BallsOf(s)) + multiset{x.ball}
  {
    if |s| == 0 {
    } else if Before(x, s[0]) {
      BallsAppend([x], s);
    } else {
      InsertBalls(x, s[1..]);
      BallsAppend([s[0]], Insert(x, s[1..]));
      BallsAppend([s[0]], s[1..]);
      assert s == [s[0]] + s[1..];
    }
  }

  /** Sorting keeps the balls, with their multiplicities. */
  lemma {:induction false} SortBalls(s: seq<Entry>)
    ensures multiset(BallsOf(Sort(s))) == multiset(BallsOf(s))
  {
    if |s| > 0 {
      var s' := s[..|s| - 1];
      var x := s[|s| - 1];
      SortBalls(s');
      InsertBalls(x, Sort(s'));
      SortSnoc(s);
      BallsSnoc(s);
    }
  }

  lemma SortSnoc(s: seq<Entry>)
    requires |s| > 0
    ensures Sort(s) == Insert(s[|s| - 1], Sort(s[..|s| - 1]))
  {
  }

  lemma BallsSnoc(s: seq<Entry>)
    requires |s| > 0
    ensures multiset(BallsOf(s)) == multiset(BallsOf(s[..|s| - 1])) + multiset{s[|s| - 1].ball}
  {
    var s' := s[..|s| - 1];
    assert s == s' + [s[|s| - 1]];
    BallsAppend(s', [s[|s| - 1]]);
    assert BallsOf([s[|s| - 1]]) == [s[|s| - 1].ball];
  }

  /**
   * The ranking is a permutation of the keys in descending count order,
   * equal counts in ascending ball order.
   */
  lemma RankByCountFacts(keys: seq<int>, cnt: map<int, int>)
    requires Distinct(keys)
    ensures multiset(RankByCount(keys, cnt)) == multiset(keys)
    ensures Distinct(RankByCount(keys, cnt))
    ensures forall i, j :: 0 <= i < j < |keys| ==>
      var r := RankByCount(keys, cnt);
      Get(cnt, r[i]) > Get(cnt, r[j]) || (Get(cnt, r[i]) == Get(cnt, r[j]) && r[i] < r[j])
  {
    var e := ByBallEntries(keys, cnt);
    var s := Sort(e);
    var r := BallsOf(s);
    assert BallsOf(e) == keys;
    SortBalls(e);
    PermutationKeepsDistinct(keys, r);
    forall i, j | 0 <= i < j < |keys|
      ensures Get(cnt, r[i]) > Get(cnt, r[j]) || (Get(cnt, r[i]) == Get(cnt, r[j]) && r[i] < r[j])
    {
      SortedFrom(e, i);
      SortedFrom(e, j);
      assert !Before(s[j], s[i]);
      assert r[i] != r[j];
    }
  }

  /** First index of x in s. */
  function IndexOf(s: seq<int>, x: int): (k: nat)
    requires x in s
    ensures k < |s| && s[k] == x
    ensures forall j :: 0 <= j < k ==> s[j] != x
  {
    if s[0] == x then 0 else 1 + IndexOf(s[1..], x)
  }

  /**
   * most_common order: a permutation of the Counter keys in descending
   * count order; balls with equal counts keep the Counter's insertion order.
   */
  lemma MostCommonFacts(order: seq<int>, cnt: map<int, int>)
    requires Distinct(order)
    ensures multiset(MostCommon(order, cnt)) == multiset(order)
    ensures Distinct(MostCommon(order, cnt))
    ensures forall i, j :: 0 <= i < j < |order| ==>
      Get(cnt, MostCommon(order, cnt)[i]) >= Get(cnt, MostCommon(order, cnt)[j])
    ensures forall i, j, ki, kj ::
      (0 <= i < j < |order| && 0 <= ki < |order| && 0 <= kj < |order| &&
       order[ki] == MostCommon(order, cnt)[i] && order[kj] == MostCommon(order, cnt)[j] &&
       Get(cnt, order[ki]) == Get(cnt, order[kj])) ==> ki < kj
  {
    MostCommonPermutes(order, cnt);
    MostCommonDescends(order, cnt);
    MostCommonTies(order, cnt);
  }

  lemma MostCommonPermutes(order: seq<int>, cnt: map<int, int>)
    requires Distinct(order)
    ensures multiset(MostCommon(order, cnt)) == multiset(order)
    ensures Distinct(MostCommon(order, cnt))
  {
    var e := ByIndexEntries(order, cnt);
    assert BallsOf(e) == order;
    SortBalls(e);
    PermutationKeepsDistinct(order, BallsOf(Sort(e)));
  }

  lemma MostCommonDescends(order: seq<int>, cnt: map<int, int>)
    requires Distinct(order)
    ensures forall i, j :: 0 <= i < j < |order| ==>
      Get(cnt, MostCommon(order, cnt)[i]) >= Get(cnt, MostCommon(order, cnt)[j])
  {
    var e := ByIndexEntries(order, cnt);
    var s := Sort(e);
    var r := BallsOf(s);
    SortBalls(e);
    forall i, j | 0 <= i < j < |order|
      ensures Get(cnt, r[i]) >= Get(cnt, r[j])
    {
      assert !Before(s[j], s[i]);
      SortedFrom(e, i);
      SortedFrom(e, j);
    }
  }

  lemma MostCommonTies(order: seq<int>, cnt: map<int, int>)
    requires Distinct(order)
    ensures forall i, j, ki, kj ::
      (0 <= i < j < |order| && 0 <= ki < |order| && 0 <= kj < |order| &&
       order[ki] == MostCommon(order, cnt)[i] && order[kj] == MostCommon(order, cnt)[j] &&
       Get(cnt, order[ki]) == Get(cnt, order[kj])) ==> ki < kj
  {
    var e := ByIndexEntries(order, cnt);
    var s := Sort(e);
    var r := BallsOf(s);
    SortBalls(e);
    MostCommonPermutes(order, cnt);
    forall i, j, ki, kj |
      0 <= i < j < |order| && 0 <= ki < |order| && 0 <= kj < |order| &&
      order[ki] == r[i] && order[kj] == r[j] && Get(cnt, order[ki]) == Get(cnt, order[kj])
      ensures ki < kj
    {
      TieIsIndex(order, cnt, i);
      TieIsIndex(order, cnt, j);
      assert !Before(s[j], s[i]);
      assert r[i] != r[j];
    }
  }

  /** In the most_common sort, an entry's tie key is its ball's insertion index. */
  lemma TieIsIndex(order: seq<int>, cnt: map<int, int>, i: int)
    requires Distinct(order)
    requires 0 <= i < |order|
    ensures var s := Sort(ByIndexEntries(order, cnt));
      0 <= s[i].tie < |order| && order[s[i].tie] == s[i].ball && s[i].count == Get(cnt, s[i].ball)
  {
    var e := ByIndexEntries(order, cnt);
    SortedFrom(e, i);
  }

  lemma IndexOfDistinct(s: seq<int>, k: int)
    requires Distinct(s) && 0 <= k < |s|
    ensures IndexOf(s, s[k]) == k
  {
  }

  /** A most_common ranking lists each key of the Counter once, most frequent first. */
  lemma RankingShape(order: seq<int>, cnt: map<int, int>)
    requires Distinct(order)
    ensures var mc := MostCommon(order, cnt);
      |mc| == |order| && Distinct(mc) && (forall x :: x in mc <==> x in order) &&
      (forall i, j :: 0 <= i < j < |mc| ==> Get(cnt, mc[i]) >= Get(cnt, mc[j]))
  {
    var mc := MostCommon(order, cnt);
    MostCommonPermutes(order, cnt);
    MostCommonDescends(order, cnt);
    assert |multiset(mc)| == |multiset(order)|;
    forall x
      ensures x in mc <==> x in order
    {
      assert x in mc <==> x in multiset(mc);
      assert x in order <==> x in multiset(order);
    }
  }

  /** A key ranked after the first k is no more frequent than the k-th. */
  lemma RankingHead(mc: seq<int>, cnt: map<int, int>, k: int, b: int)
    requires 0 < k <= |mc|
    requires forall i, j :: 0 <= i < j < |mc| ==> Get(cnt, mc[i]) >= Get(cnt, mc[j])
    requires b in mc && b !in mc[..k]
    ensures Get(cnt, b) <= Get(cnt, mc[k - 1])
  {
    forall i | 0 <= i < k
      ensures mc[i] != b
    {
      assert mc[i] == mc[..k][i];
    }
  }

  /** A key ranked before the last entries is at least as frequent as each of them. */
  lemma RankingTail(mc: seq<int>, cnt: map<int, int>, start: int, b: int, i: int)
    requires 0 <= start <= |mc| && 0 <= i < |mc| - start
    requires forall i, j :: 0 <= i < j < |mc| ==> Get(cnt, mc[i]) >= Get(cnt, mc[j])
    requires b in mc && b !in mc[start..]
    ensures Get(cnt, b) >= Get(cnt, mc[start + i])
  {
    forall j | start <= j < |mc|
      ensures mc[j] != b
    {
      assert mc[j] == mc[start..][j - start];
    }
  }

  /**
   * Every ball of `xs` ranks above every ball of `ys` in a `most_common()`
   * ranking: a larger count, or the same count and an earlier first
   * appearance in `order`.
   */
  predicate RanksAbove(order: seq<int>, cnt: map<int, int>, xs: seq<int>, ys: seq<int>)
  {
    forall x, y :: x in xs && y in ys ==>
      x in order && y in order && Get(cnt, x) >= Get(cnt, y) &&
      (Get(cnt, x) == Get(cnt, y) ==> IndexOf(order, x) < IndexOf(order, y))
  }

  /** Of two ranks of a `most_common()` ranking the earlier has the larger count, or the same count and an earlier first appearance. */
  lemma RankPair(order: seq<int>, cnt: map<int, int>, i: int, j: int)
    requires Distinct(order) && 0 <= i < j < |order| == |MostCommon(order, cnt)|
    requires MostCommon(order, cnt)[i] in order && MostCommon(order, cnt)[j] in order
    ensures var r := MostCommon(order, cnt);
      Get(cnt, r[i]) >= Get(cnt, r[j]) &&
      (Get(cnt, r[i]) == Get(cnt, r[j]) ==> IndexOf(order, r[i]) < IndexOf(order, r[j]))
  {
    var r := MostCommon(order, cnt);
    MostCommonDescends(order, cnt);
    MostCommonTies(order, cnt);
    var ki := IndexOf(order, r[i]);
    var kj := IndexOf(order, r[j]);
    assert order[ki] == r[i] && order[kj] == r[j];
  }

  /** A member of the slice s[a..b] is s[i] for some a <= i < b. */
  lemma SliceIndex(s: seq<int>, a: int, b: int, x: int) returns (i: int)
    requires 0 <= a <= b <= |s| && x in s[a..b]
    ensures a <= i < b && s[i] == x
  {
    var k :| 0 <= k < b - a && s[a..b][k] == x;
    i := a + k;
  }

  /** RankPair, with the two ranked balls known to be keys of `order`. */
  lemma RankPairIn(order: seq<int>, cnt: map<int, int>, i: int, j: int)
    requires Distinct(order) && 0 <= i < j < |order| == |MostCommon(order, cnt)|
    ensures var r := MostCommon(order, cnt);
      r[i] in order && r[j] in order && Get(cnt, r[i]) >= Get(cnt, r[j]) &&
      (Get(cnt, r[i]) == Get(cnt, r[j]) ==> IndexOf(order, r[i]) < IndexOf(order, r[j]))
  {
    var r := MostCommon(order, cnt);
    MostCommonPermutes(order, cnt);
    assert r[i] in multiset(r) && r[j] in multiset(r);
    RankPair(order, cnt, i, j);
  }

  /** x ranks above y: a larger count, or the same count and an earlier first appearance. */
  predicate PairRanked(order: seq<int>, cnt: map<int, int>, x: int, y: int)
  {
    x in order && y in order && Get(cnt, x) >= Get(cnt, y) &&
    (Get(cnt, x) == Get(cnt, y) ==> IndexOf(order, x) < IndexOf(order, y))
  }

  /** Every rank of a `most_common()` ranking ranks above every later one. */
  lemma MostCommonRanked(order: seq<int>, cnt: map<int, int>)
    requires Distinct(order)
    ensures |MostCommon(order, cnt)| == |order|
    ensures forall i, j :: 0 <= i < j < |MostCommon(order, cnt)| ==>
      PairRanked(order, cnt, MostCommon(order, cnt)[i], MostCommon(order, cnt)[j])
  {
    var r := MostCommon(order, cnt);
    MostCommonPermutes(order, cnt);
    assert |r| == |multiset(r)| == |multiset(order)| == |order|;
    forall i, j | 0 <= i < j < |r|
      ensures PairRanked(order, cnt, r[i], r[j])
    {
      RankPairIn(order, cnt, i, j);
    }
  }

  /** In a list whose every element ranks above every later one, an earlier slice ranks above a later one. */
  lemma SlicesRanked(order: seq<int>, cnt: map<int, int>, r: seq<int>, a: int, b: int, c: int, d: int)
    requires 0 <= a <= b <= c <= d <= |r|
    requires forall i, j :: 0 <= i < j < |r| ==> PairRanked(order, cnt, r[i], r[j])
    ensures RanksAbove(order, cnt, r[a..b], r[c..d])
  {
    forall x, y | x in r[a..b] && y in r[c..d]
      ensures x in order && y in order && Get(cnt, x) >= Get(cnt, y)
      ensures Get(cnt, x) == Get(cnt, y) ==> IndexOf(order, x) < IndexOf(order, y)
    {
      var i := SliceIndex(r, a, b, x);
      var j := SliceIndex(r, c, d, y);
      assert PairRanked(order, cnt, r[i], r[j]);
    }
  }

  /** Ranks a..b-1 of a `most_common()` ranking come before ranks c..d-1 (b <= c) in count, and in first appearance on ties. */
  lemma TierOrder(order: seq<int>, cnt: map<int, int>, a: int, b: int, c: int, d: int)
    requires Distinct(order) && 0 <= a <= b <= c <= d <= |order|
    ensures var r := MostCommon(order, cnt);
      |r| == |order| && RanksAbove(order, cnt, r[a..b], r[c..d])
  {
    MostCommonRanked(order, cnt);
    SlicesRanked(order, cnt, MostCommon(order, cnt), a, b, c, d);
  }

  datatype Tier = Hot | Warm | Cold

  /** Hot = ranks 0..10, warm = 11..21, cold = 22..32 of a 33-ball ranking. */
  lemma {:induction false} ElevenSplit(r: seq<int>)
    requires Distinct(r) && |r| == RedMax
    requires forall x :: x in r <==> IsRed(x)
    ensures |r[..11]| == 11 && |r[11..22]| == 11 && |r[22..33]| == 11
    ensures forall b :: IsRed(b) ==>
      (b in r[..11] && b !in r[11..22] && b !in r[22..33]) ||
      (b !in r[..11] && b in r[11..22] && b !in r[22..33]) ||
      (b !in r[..11] && b !in r[11..22] && b in r[22..33])
    ensures forall b :: b in r[..11] || b in r[11..22] || b in r[22..33] ==> IsRed(b)
  {
    forall b | IsRed(b)
      ensures (b in r[..11] && b !in r[11..22] && b !in r[22..33]) ||
              (b !in r[..11] && b in r[11..22] && b !in r[22..33]) ||
              (b !in r[..11] && b !in r[11..22] && b in r[22..33])
    {
      var k := IndexOf(r, b);
      forall j | 0 <= j < |r| && j != k
        ensures r[j] != b
      {
      }
    }
  }

  /** A Counter's `most_common()` ranking lists every counted value once, each with a count of at least 1. */
  lemma RankedCounts(xs: seq<int>)
    ensures var ranked := MostCommon(Dedupe(xs), CountMap(xs));
      |ranked| == |Dedupe(xs)| && (|xs| > 0 ==> |ranked| > 0) && Distinct(ranked) &&
      (forall b :: b in ranked <==> b in xs) &&
      forall b :: b in ranked ==> Get(CountMap(xs), b) >= 1
  {
    var order := Dedupe(xs);
    var ranked := MostCommon(order, CountMap(xs));
    DedupeFacts(xs);
    CountMapFacts(xs);
    MostCommonPermutes(order, CountMap(xs));
    assert |ranked| == |multiset(ranked)| == |multiset(order)| == |order|;
    forall b
      ensures b in ranked <==> b in xs
    {
      assert b in ranked <==> b in multiset(ranked);
    }
    if |xs| > 0 {
      var first := xs[0];
      assert first in xs;
      assert first in order;
    }
  }
}
