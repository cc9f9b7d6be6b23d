/**
 * `get_combination_probability` of the record store: every pair of reds
 * drawn together in the last `period` draws, counted in a Counter keyed
 * by the pair and ranked with `most_common`.
 */
module Combinations {
  import opened Common
  import opened Draws
  import opened Ranking
  import Database
  import Models

  /** A pair of reds taken from a sorted draw, `low` listed before `high`. */
  datatype Pair = Pair(low: int, high: int)

  // ---------------------------------------------------------------------
  // The pairs of one draw

  /** Row i of the pair loop: (s[i], s[j]) for j = i + 1, ..., |s| - 1. */
  function Row(s: seq<int>, i: int): (r: seq<Pair>)
    requires 0 <= i < |s|
    ensures |r| == |s| - 1 - i
    ensures forall k :: 0 <= k < |r| ==> r[k] == Pair(s[i], s[i + 1 + k])
  {
    seq(|s| - 1 - i, k requires 0 <= k < |s| - 1 - i => Pair(s[i], s[i + 1 + k]))
  }

  /** Rows i, i + 1, ... of the pair loop. */
  function Rows(s: seq<int>, i: int): seq<Pair>
    requires 0 <= i <= |s|
    decreases |s| - i
  {
    if i == |s| then [] else Row(s, i) + Rows(s, i + 1)
  }

  /** `for i in range(len(s)): for j in range(i + 1, len(s)): (s[i], s[j])`, in loop order. */
  function PairsFrom(s: seq<int>): seq<Pair>
  {
    Rows(s, 0)
  }

  /** p is the pair of positions i < j of s. */
  predicate PairAt(s: seq<int>, i: int, j: int, p: Pair)
  {
    0 <= i < j < |s| && p == Pair(s[i], s[j])
  }

  /** Rows i.. hold one entry per choice of two positions from i on. */
  lemma {:induction false} RowsLength(s: seq<int>, i: int)
    requires 0 <= i <= |s|
    ensures |Rows(s, i)| == (|s| - i) * (|s| - i - 1) / 2
    decreases |s| - i
  {
    if i < |s| {
      RowsLength(s, i + 1);
      var m := |s| - i - 1;
      var x := m * (m - 1);
      assert x + 2 * m == (m + 1) * m;
      assert (x + 2 * m) / 2 == x / 2 + m;
    }
  }

  /** Rows i.. hold the pairs of positions a < b with a >= i, and nothing else. */
  lemma {:induction false} RowsMembers(s: seq<int>, i: int)
    requires 0 <= i <= |s|
    ensures forall p :: p in Rows(s, i) <==> exists a, b :: i <= a && PairAt(s, a, b, p)
    decreases |s| - i
  {
    if i < |s| {
      var row := Row(s, i);
      RowsMembers(s, i + 1);
      forall p
        ensures p in Rows(s, i) <==> exists a, b :: i <= a && PairAt(s, a, b, p)
      {
        if p in row {
          var k :| 0 <= k < |row| && row[k] == p;
          assert PairAt(s, i, i + 1 + k, p);
        }
        if exists a, b :: i <= a && PairAt(s, a, b, p) {
          var a, b :| i <= a && PairAt(s, a, b, p);
          if a == i {
            assert row[b - i - 1] == p;
          }
        }
      }
    }
  }

  /** The pair list has C(|s|, 2) entries: one per choice of two positions, and nothing else. */
  lemma PairsFromFacts(s: seq<int>)
    ensures |PairsFrom(s)| == |s| * (|s| - 1) / 2
    ensures forall p :: p in PairsFrom(s) <==> exists i, j :: PairAt(s, i, j, p)
  {
    RowsLength(s, 0);
    RowsMembers(s, 0);
  }

  /** Distinct values give distinct pairs. */
  lemma {:induction false} RowsDistinct(s: seq<int>, i: int)
    requires Distinct(s) && 0 <= i <= |s|
    ensures Distinct(Rows(s, i))
    decreases |s| - i
  {
    if i < |s| {
      var row := Row(s, i);
      var rest := Rows(s, i + 1);
      RowsDistinct(s, i + 1);
      RowsMembers(s, i + 1);
      var all := row + rest;
      forall x, y | 0 <= x < y < |all|
        ensures all[x] != all[y]
      {
        if y < |row| {
          assert s[i + 1 + x] != s[i + 1 + y];
        } else if x < |row| {
          var q := rest[y - |row|];
          assert q in rest;
          var a, b :| i + 1 <= a && PairAt(s, a, b, q);
          assert s[a] != s[i];
        } else {
          assert all[x] == rest[x - |row|] && all[y] == rest[y - |row|];
        }
      }
    }
  }

  /** The pairs of a draw, from its reds sorted ascending. */
  function DrawPairs(d: Draw): seq<Pair>
  {
    PairsFrom(SortInts(d.reds))
  }

  /** A draw contributes its C(6, 2) = 15 pairs; a valid draw's pairs are distinct, ascending reds. */
  lemma DrawPairsFacts(d: Draw)
    ensures |DrawPairs(d)| == 15
    ensures Distinct(d.reds) ==> Distinct(DrawPairs(d))
    ensures Distinct(d.reds) ==> forall p :: p in DrawPairs(d) ==> p.low < p.high
    ensures forall p :: p in DrawPairs(d) ==> p.low in d.reds && p.high in d.reds
  {
    var s := SortInts(d.reds);
    PairsFromFacts(s);
    assert 6 * 5 / 2 == 15;
    forall p | p in DrawPairs(d)
      ensures p.low in d.reds && p.high in d.reds
      ensures Distinct(d.reds) ==> p.low < p.high
    {
      var i, j :| PairAt(s, i, j, p);
      assert s[i] in multiset(s) && s[j] in multiset(s);
      if Distinct(d.reds) {
        DistinctSorted(d.reds, i, j);
      }
    }
    if Distinct(d.reds) {
      PermutationKeepsDistinct(d.reds, s);
      RowsDistinct(s, 0);
    }
  }

  /** Sorting distinct values leaves them strictly ascending. */
  lemma DistinctSorted(xs: seq<int>, i: int, j: int)
    requires Distinct(xs) && 0 <= i < j < |xs|
    ensures SortInts(xs)[i] < SortInts(xs)[j]
  {
    var s := SortInts(xs);
    PermutationKeepsDistinct(xs, s);
    assert s[i] <= s[j];
    assert s[i] != s[j];
  }

  /** The pairs of all draws, in the order the loop counts them. */
  function AllPairs(draws: seq<Draw>): seq<Pair>
  {
    if |draws| == 0 then [] else AllPairs(draws[..|draws| - 1]) + DrawPairs(draws[|draws| - 1])
  }

  /** Fifteen pairs per draw; with distinct reds a pair is counted at most once per draw. */
  lemma AllPairsFacts(draws: seq<Draw>)
    ensures |AllPairs(draws)| == 15 * |draws|
    ensures (forall k :: 0 <= k < |draws| ==> Distinct(draws[k].reds)) ==>
      forall p :: multiset(AllPairs(draws))[p] <= |draws|
  {
    AllPairsLength(draws);
    if forall k :: 0 <= k < |draws| ==> Distinct(draws[k].reds) {
      AllPairsMultiplicity(draws);
    }
  }

  lemma {:induction false} AllPairsLength(draws: seq<Draw>)
    ensures |AllPairs(draws)| == 15 * |draws|
  {
    if |draws| > 0 {
      AllPairsLength(draws[..|draws| - 1]);
      DrawPairsFacts(draws[|draws| - 1]);
    }
  }

  lemma {:induction false} AllPairsMultiplicity(draws: seq<Draw>)
    requires forall k :: 0 <= k < |draws| ==> Distinct(draws[k].reds)
    ensures forall p :: multiset(AllPairs(draws))[p] <= |draws|
  {
    if |draws| > 0 {
      var t := draws[..|draws| - 1];
      var d := draws[|draws| - 1];
      forall k | 0 <= k < |t|
        ensures Distinct(t[k].reds)
      {
        assert t[k] == draws[k];
      }
      AllPairsMultiplicity(t);
      DrawPairsFacts(d);
      forall p
        ensures multiset(AllPairs(draws))[p] <= |draws|
      {
        DistinctMultiplicity(DrawPairs(d), p);
      }
    }
  }

  // ---------------------------------------------------------------------
  // The pair Counter

  /** `pair_counts[p]` of a Counter. */
  function PairGet(m: map<Pair, int>, p: Pair): int
  {
    if p in m then m[p] else 0
  }

  /** The Counter after `pair_counts[p] += 1` for each p of ps in turn. */
  function PairCounts(ps: seq<Pair>): map<Pair, int>
  {
    if |ps| == 0 then map[]
    else
      var m := PairCounts(ps[..|ps| - 1]);
      m[ps[|ps| - 1] := PairGet(m, ps[|ps| - 1]) + 1]
  }

  /** The Counter's key order: pairs by first appearance. */
  function PairOrder(ps: seq<Pair>): seq<Pair>
  {
    if |ps| == 0 then []
    else
      var d := PairOrder(ps[..|ps| - 1]);
      if ps[|ps| - 1] in ps[..|ps| - 1] then d else d + [ps[|ps| - 1]]
  }

  /** The keys are the pairs seen, in first-appearance order, each counted by multiplicity. */
  lemma {:induction false} PairCountsFacts(ps: seq<Pair>)
    ensures forall p :: p in PairCounts(ps) <==> p in ps
    ensures forall p :: PairGet(PairCounts(ps), p) == multiset(ps)[p]
    ensures Distinct(PairOrder(ps))
    ensures forall p :: p in PairOrder(ps) <==> p in ps
  {
    if |ps| > 0 {
      var t := ps[..|ps| - 1];
      var x := ps[|ps| - 1];
      PairCountsFacts(t);
      assert ps == t + [x];
      assert multiset(ps) == multiset(t) + multiset{x};
      var d := PairOrder(t);
      if x !in t {
        forall i | 0 <= i < |d|
          ensures d[i] != x
        {
          assert d[i] in d;
        }
      }
    }
  }

  /** One Counter increment. */
  lemma PairStep(seen: seq<Pair>, p: Pair)
    ensures PairCounts(seen + [p]) == PairCounts(seen)[p := PairGet(PairCounts(seen), p) + 1]
    ensures p in PairCounts(seen) ==> PairOrder(seen + [p]) == PairOrder(seen)
    ensures p !in PairCounts(seen) ==> PairOrder(seen + [p]) == PairOrder(seen) + [p]
  {
    var s := seen + [p];
    assert s[..|s| - 1] == seen && s[|s| - 1] == p;
    PairCountsKeys(seen);
  }

  /** The Counter's keys are the pairs seen. */
  lemma PairCountsKeys(ps: seq<Pair>)
    ensures forall p :: p in PairCounts(ps) <==> p in ps
  {
    PairCountsFacts(ps);
  }

  /** `pair_counts[pair] += 1` on a Counter that holds the pairs `seen`. */
  method PairIncrement(counts: map<Pair, int>, order: seq<Pair>, ghost seen: seq<Pair>, p: Pair)
    returns (counts': map<Pair, int>, order': seq<Pair>)
    requires counts == PairCounts(seen) && order == PairOrder(seen)
    ensures counts' == PairCounts(seen + [p]) && order' == PairOrder(seen + [p])
  {
    PairStep(seen, p);
    order' := if p in counts then order else order + [p];
    counts' := counts[p := PairGet(counts, p) + 1];
  }

  /** `for j in range(i + 1, len(reds)): pair_counts[(reds[i], reds[j])] += 1` */
  method CountRow(counts: map<Pair, int>, order: seq<Pair>, ghost seen: seq<Pair>, reds: seq<int>, i: int)
    returns (counts': map<Pair, int>, order': seq<Pair>)
    requires 0 <= i < |reds|
    requires counts == PairCounts(seen) && order == PairOrder(seen)
    ensures counts' == PairCounts(seen + Row(reds, i)) && order' == PairOrder(seen + Row(reds, i))
  {
    counts', order' := counts, order;
    ghost var row := Row(reds, i);
    ghost var done := seen;
    assert seen + row[..0] == seen;
    var j := i + 1;
    while j < |reds|
      invariant i + 1 <= j <= |reds|
      invariant done == seen + row[..j - i - 1]
      invariant counts' == PairCounts(done) && order' == PairOrder(done)
    {
      var p := Pair(reds[i], reds[j]);
      assert row[j - i - 1] == p;
      counts', order' := PairIncrement(counts', order', done, p);
      RowPrefix(seen, row, j - i - 1);
      done := done + [p];
      j := j + 1;
    }
    assert row[..|row|] == row;
  }

  lemma RowPrefix(seen: seq<Pair>, row: seq<Pair>, k: int)
    requires 0 <= k < |row|
    ensures seen + row[..k + 1] == (seen + row[..k]) + [row[k]]
  {
    assert row[..k + 1] == row[..k] + [row[k]];
  }

  /**
   * The nested loop `for i in range(len(reds)): for j in range(i + 1,
   * len(reds)): pair_counts[(reds[i], reds[j])] += 1`.
   */
  method CountDrawPairs(counts: map<Pair, int>, order: seq<Pair>, ghost seen: seq<Pair>, reds: seq<int>)
    returns (counts': map<Pair, int>, order': seq<Pair>)
    requires counts == PairCounts(seen) && order == PairOrder(seen)
    ensures counts' == PairCounts(seen + PairsFrom(reds)) && order' == PairOrder(seen + PairsFrom(reds))
  {
    counts', order' := counts, order;
    ghost var done := seen;
    var i := 0;
    while i < |reds|
      invariant 0 <= i <= |reds|
      invariant done + Rows(reds, i) == seen + PairsFrom(reds)
      invariant counts' == PairCounts(done) && order' == PairOrder(done)
    {
      counts', order' := CountRow(counts', order', done, reds, i);
      RowsAssoc(done, Row(reds, i), Rows(reds, i + 1));
      done := done + Row(reds, i);
      i := i + 1;
    }
    assert done + [] == done;
  }

  lemma RowsAssoc(done: seq<Pair>, row: seq<Pair>, rest: seq<Pair>)
    ensures done + (row + rest) == (done + row) + rest
  {
  }

  /** The counting loop over the records. */
  method CountAllPairs(records: seq<Draw>) returns (counts: map<Pair, int>, order: seq<Pair>)
    ensures counts == PairCounts(AllPairs(records)) && order == PairOrder(AllPairs(records))
  {
    counts, order := map[], [];
    var i := 0;
    while i < |records|
      invariant 0 <= i <= |records|
      invariant counts == PairCounts(AllPairs(records[..i])) && order == PairOrder(AllPairs(records[..i]))
    {
      var reds := SortInts(records[i].reds);
      counts, order := CountDrawPairs(counts, order, AllPairs(records[..i]), reds);
      AllPairsSnoc(records, i);
      i := i + 1;
    }
    assert records[..|records|] == records;
  }

  lemma AllPairsSnoc(records: seq<Draw>, i: int)
    requires 0 <= i < |records|
    ensures AllPairs(records[..i + 1]) == AllPairs(records[..i]) + DrawPairs(records[i])
  {
    assert records[..i + 1][..i] == records[..i];
  }

  // ---------------------------------------------------------------------
  // most_common over pairs

  /** The Counter's counts by key position. */
  function IndexCounts(order: seq<Pair>, counts: map<Pair, int>): map<int, int>
  {
    map k | 0 <= k < |order| :: PairGet(counts, order[k])
  }

  /** `[p for p, _ in pair_counts.most_common()]`: the key positions ranked, mapped back to pairs. */
  function RankPairs(order: seq<Pair>, counts: map<Pair, int>): seq<Pair>
  {
    var idx := MostCommon(Range(0, |order|), IndexCounts(order, counts));
    RankedPositions(|order|, IndexCounts(order, counts));
    seq(|idx|, i requires 0 <= i < |idx| => order[idx[i]])
  }

  /** Ranking the positions 0..n - 1 lists each of them once. */
  lemma RankedPositions(n: nat, cnt: map<int, int>)
    ensures var idx := MostCommon(Range(0, n), cnt);
      |idx| == n && Distinct(idx) && (forall i :: 0 <= i < n ==> 0 <= idx[i] < n) &&
      forall k :: 0 <= k < n ==> k in idx
  {
    var idx := MostCommon(Range(0, n), cnt);
    RangeFacts(0, n);
    RankingShape(Range(0, n), cnt);
    forall i | 0 <= i < n
      ensures 0 <= idx[i] < n
    {
      assert idx[i] in idx;
    }
  }

  /** First position of a pair in the key order. */
  function PairIndex(order: seq<Pair>, p: Pair): (k: nat)
    requires p in order
    ensures k < |order| && order[k] == p
  {
    if order[0] == p then 0 else 1 + PairIndex(order[1..], p)
  }

  /** The ranking lists every key of the Counter once. */
  lemma RankPairsShape(order: seq<Pair>, counts: map<Pair, int>)
    requires Distinct(order)
    ensures var r := RankPairs(order, counts);
      |r| == |order| && Distinct(r) && forall p :: p in r <==> p in order
  {
    var cnt := IndexCounts(order, counts);
    var idx := MostCommon(Range(0, |order|), cnt);
    RankedPositions(|order|, cnt);
    var r := RankPairs(order, counts);
    forall i, j | 0 <= i < j < |r|
      ensures r[i] != r[j]
    {
      assert idx[i] != idx[j];
    }
    forall p | p in order
      ensures p in r
    {
      var k := PairIndex(order, p);
      assert k in idx;
      var i :| 0 <= i < |idx| && idx[i] == k;
      assert r[i] == p;
    }
  }

  /** The ranking is by descending count. */
  lemma RankPairsDescend(order: seq<Pair>, counts: map<Pair, int>)
    ensures var r := RankPairs(order, counts);
      forall i, j :: 0 <= i < j < |r| ==> PairGet(counts, r[i]) >= PairGet(counts, r[j])
  {
    var keys := Range(0, |order|);
    var cnt := IndexCounts(order, counts);
    var idx := MostCommon(keys, cnt);
    RangeFacts(0, |order|);
    RankedPositions(|order|, cnt);
    MostCommonDescends(keys, cnt);
    var r := RankPairs(order, counts);
    forall i, j | 0 <= i < j < |r|
      ensures PairGet(counts, r[i]) >= PairGet(counts, r[j])
    {
      assert Get(cnt, idx[i]) >= Get(cnt, idx[j]);
    }
  }

  /** Pairs with equal counts keep the Counter's key order (most_common is a stable sort). */
  lemma RankPairsTies(order: seq<Pair>, counts: map<Pair, int>)
    requires Distinct(order)
    ensures var r := RankPairs(order, counts);
      forall i, j ::
        (0 <= i < j < |r| && PairGet(counts, r[i]) == PairGet(counts, r[j]) && r[i] in order && r[j] in order) ==>
        PairIndex(order, r[i]) < PairIndex(order, r[j])
  {
    var keys := Range(0, |order|);
    var cnt := IndexCounts(order, counts);
    var idx := MostCommon(keys, cnt);
    RangeFacts(0, |order|);
    RankedPositions(|order|, cnt);
    MostCommonTies(keys, cnt);
    var r := RankPairs(order, counts);
    forall i, j | 0 <= i < j < |r| && PairGet(counts, r[i]) == PairGet(counts, r[j]) && r[i] in order && r[j] in order
      ensures PairIndex(order, r[i]) < PairIndex(order, r[j])
    {
      PairIndexDistinct(order, idx[i]);
      PairIndexDistinct(order, idx[j]);
      assert keys[idx[i]] == idx[i] && keys[idx[j]] == idx[j];
      assert Get(cnt, keys[idx[i]]) == Get(cnt, keys[idx[j]]);
    }
  }

  lemma PairIndexDistinct(order: seq<Pair>, k: int)
    requires Distinct(order) && 0 <= k < |order|
    ensures PairIndex(order, order[k]) == k
  {
    var m := PairIndex(order, order[k]);
    assert order[m] == order[k];
  }

  // ---------------------------------------------------------------------
  // get_combination_probability

  /** One entry of `pair_probabilities`. */
  datatype PairStat = PairStat(key: string, count: int, probability: real, expected: real)

  /** The result dictionary; `pairProbabilities` lists the entries in key insertion order. */
  datatype CombinationStats = CombinationStats(
    period: int, totalGames: int, pairProbabilities: seq<PairStat>, mostCommonPairs: seq<(Pair, int)>)

  /** `f"{pair[0]:02d}-{pair[1]:02d}"` */
  function PairKey(p: Pair): string
  {
    Models.Pad2(p.low) + "-" + Models.Pad2(p.high)
  }

  /** `pair_probabilities[key] = stat`: a present key keeps its place and takes the new value. */
  function PutStat(table: seq<PairStat>, st: PairStat): seq<PairStat>
  {
    if |table| == 0 then [st]
    else if table[0].key == st.key then [st] + table[1..]
    else [table[0]] + PutStat(table[1..], st)
  }

  /** The keys of the table. */
  function StatKeys(table: seq<PairStat>): seq<string>
  {
    seq(|table|, i requires 0 <= i < |table| => table[i].key)
  }

  /** Assigning a key the table does not hold appends the entry. */
  lemma {:induction false} PutFresh(table: seq<PairStat>, st: PairStat)
    requires st.key !in StatKeys(table)
    ensures PutStat(table, st) == table + [st]
  {
    if |table| > 0 {
      assert table[0].key == StatKeys(table)[0];
      assert StatKeys(table[1..]) == StatKeys(table)[1..];
      PutFresh(table[1..], st);
      assert table == [table[0]] + table[1..];
    }
  }

  /** The entry written for a pair: its count, `count / total_games` and `probability * total_games`. */
  function StatOf(p: Pair, counts: map<Pair, int>, n: int): PairStat
  {
    var c := PairGet(counts, p);
    PairStat(PairKey(p), c, Ratio(c, n), Ratio(c, n) * n as real)
  }

  /** `for pair, count in top: pair_probabilities[key] = {...}` */
  function PairTable(top: seq<Pair>, counts: map<Pair, int>, n: int): seq<PairStat>
  {
    if |top| == 0 then []
    else PutStat(PairTable(top[..|top| - 1], counts, n), StatOf(top[|top| - 1], counts, n))
  }

  /** `list(pair_counts.most_common(20))`: the first twenty ranked pairs with their counts. */
  function TopCounts(ranked: seq<Pair>, counts: map<Pair, int>): seq<(Pair, int)>
  {
    var top := SliceTo(ranked, 20);
    seq(|top|, i requires 0 <= i < |top| => (top[i], PairGet(counts, top[i])))
  }

  /** `get_combination_probability(period)`: None stands for the empty dictionary. */
  function CombinationProbability(all: seq<Draw>, period: int): Option<CombinationStats>
  {
    var recent := Database.RecentRecords(all, period);
    if |recent| == 0 then None
    else
      var ps := AllPairs(recent);
      var counts := PairCounts(ps);
      var ranked := RankPairs(PairOrder(ps), counts);
      Some(CombinationStats(period, |recent|, PairTable(SliceTo(ranked, 50), counts, |recent|),
        TopCounts(ranked, counts)))
  }

  /** The result, spelled out over the ranking of the window. */
  lemma ResultOf(all: seq<Draw>, period: int)
    requires CombinationProbability(all, period).Some?
    ensures var recent := Database.RecentRecords(all, period);
      var counts := PairCounts(AllPairs(recent));
      var ranked := RankPairs(PairOrder(AllPairs(recent)), counts);
      CombinationProbability(all, period).value ==
        CombinationStats(period, |recent|, PairTable(SliceTo(ranked, 50), counts, |recent|), TopCounts(ranked, counts))
  {
  }

  /** The first twenty ranked pairs, each with its count. */
  lemma TopCountsFacts(ranked: seq<Pair>, counts: map<Pair, int>)
    ensures var m := TopCounts(ranked, counts);
      |m| == Min(20, |ranked|) && forall i :: 0 <= i < |m| ==> m[i] == (ranked[i], PairGet(counts, ranked[i]))
  {
  }

  /** The table loop over `most_common(50)`. */
  method BuildTable(top: seq<Pair>, counts: map<Pair, int>, n: int) returns (table: seq<PairStat>)
    ensures table == PairTable(top, counts, n)
  {
    table := [];
    var i := 0;
    while i < |top|
      invariant 0 <= i <= |top|
      invariant table == PairTable(top[..i], counts, n)
    {
      TableStep(top, counts, n, i);
      table := PutStat(table, StatOf(top[i], counts, n));
      i := i + 1;
    }
    assert top[..|top|] == top;
  }

  lemma TableStep(top: seq<Pair>, counts: map<Pair, int>, n: int, i: int)
    requires 0 <= i < |top|
    ensures PairTable(top[..i + 1], counts, n) == PutStat(PairTable(top[..i], counts, n), StatOf(top[i], counts, n))
  {
    assert top[..i + 1][..i] == top[..i];
  }

  /** `get_combination_probability` with its counting loop and its table loop. */
  method GetCombinationProbability(all: seq<Draw>, period: int) returns (r: Option<CombinationStats>)
    ensures r == CombinationProbability(all, period)
  {
    var recent := Database.RecentRecords(all, period);
    if |recent| == 0 {
      return None;
    }
    var counts, order := CountAllPairs(recent);
    var ranked := RankPairs(order, counts);
    var table := BuildTable(SliceTo(ranked, 50), counts, |recent|);
    r := Some(CombinationStats(period, |recent|, table, TopCounts(ranked, counts)));
  }

  // ---------------------------------------------------------------------
  // What the result promises

  /** Every red of every draw lies in 1..33 and no draw repeats a red. */
  predicate ValidReds(draws: seq<Draw>)
  {
    RedsInRange(draws) && forall k :: 0 <= k < |draws| ==> Distinct(draws[k].reds)
  }

  /** Every pair counted comes from one of the draws. */
  lemma {:induction false} AllPairsMembers(draws: seq<Draw>)
    ensures forall p :: p in AllPairs(draws) ==> exists k :: 0 <= k < |draws| && p in DrawPairs(draws[k])
  {
    if |draws| > 0 {
      var t := draws[..|draws| - 1];
      AllPairsMembers(t);
      forall p | p in AllPairs(draws)
        ensures exists k :: 0 <= k < |draws| && p in DrawPairs(draws[k])
      {
        if p in AllPairs(t) {
          var k :| 0 <= k < |t| && p in DrawPairs(t[k]);
          assert t[k] == draws[k];
        } else {
          assert p in DrawPairs(draws[|draws| - 1]);
        }
      }
    }
  }

  /** A pair counted from valid draws is two reds, the smaller first. */
  lemma ValidPair(draws: seq<Draw>, p: Pair)
    requires ValidReds(draws) && p in AllPairs(draws)
    ensures IsRed(p.low) && IsRed(p.high) && p.low < p.high
  {
    AllPairsMembers(draws);
    var k :| 0 <= k < |draws| && p in DrawPairs(draws[k]);
    var d := draws[k];
    DrawPairsFacts(d);
    var a :| 0 <= a < 6 && d.reds[a] == p.low;
    var b :| 0 <= b < 6 && d.reds[b] == p.high;
    assert IsRed(draws[k].reds[a]) && IsRed(draws[k].reds[b]);
  }

  /** A pair counted from valid draws is counted at least once and at most once per draw. */
  lemma ValidPairCount(draws: seq<Draw>, p: Pair)
    requires ValidReds(draws) && p in AllPairs(draws)
    ensures 1 <= multiset(AllPairs(draws))[p] <= |draws|
  {
    AllPairsFacts(draws);
  }

  /** Two-digit keys: pairs of values in 0..99 with the same key are the same pair. */
  lemma PairKeyInjective(p: Pair, q: Pair)
    requires 0 <= p.low <= 99 && 0 <= p.high <= 99 && 0 <= q.low <= 99 && 0 <= q.high <= 99
    ensures PairKey(p) == PairKey(q) ==> p == q
  {
    Models.Pad2Small(p.low);
    Models.Pad2Small(p.high);
    Models.Pad2Small(q.low);
    Models.Pad2Small(q.high);
    var kp, kq := PairKey(p), PairKey(q);
    assert kp[..2] == Models.Pad2(p.low) && kp[3..] == Models.Pad2(p.high);
    assert kq[..2] == Models.Pad2(q.low) && kq[3..] == Models.Pad2(q.high);
  }

  /** Pairs of values in 0..99. */
  predicate TwoDigitPairs(top: seq<Pair>)
  {
    forall i :: 0 <= i < |top| ==> 0 <= top[i].low <= 99 && 0 <= top[i].high <= 99
  }

  /** With distinct two-digit pairs no key repeats, so each assignment appends an entry. */
  lemma {:induction false} TableOfDistinct(top: seq<Pair>, counts: map<Pair, int>, n: int)
    requires Distinct(top) && TwoDigitPairs(top)
    ensures PairTable(top, counts, n) == seq(|top|, k requires 0 <= k < |top| => StatOf(top[k], counts, n))
  {
    if |top| > 0 {
      var t := top[..|top| - 1];
      var last := top[|top| - 1];
      assert Distinct(t) && TwoDigitPairs(t);
      TableOfDistinct(t, counts, n);
      var table := PairTable(t, counts, n);
      forall k | 0 <= k < |table|
        ensures StatKeys(table)[k] != PairKey(last)
      {
        assert t[k] == top[k] && top[k] != last;
        PairKeyInjective(t[k], last);
      }
      PutFresh(table, StatOf(last, counts, n));
      StatsSnoc(top, counts, n);
    }
  }

  /** The stats of all pairs are the stats of all but the last, then the last one's. */
  lemma StatsSnoc(top: seq<Pair>, counts: map<Pair, int>, n: int)
    requires |top| > 0
    ensures var t := top[..|top| - 1];
      seq(|t|, k requires 0 <= k < |t| => StatOf(t[k], counts, n)) + [StatOf(top[|top| - 1], counts, n)] ==
      seq(|top|, k requires 0 <= k < |top| => StatOf(top[k], counts, n))
  {
    var t := top[..|top| - 1];
    var a := seq(|t|, k requires 0 <= k < |t| => StatOf(t[k], counts, n)) + [StatOf(top[|top| - 1], counts, n)];
    var b := seq(|top|, k requires 0 <= k < |top| => StatOf(top[k], counts, n));
    forall k | 0 <= k < |top|
      ensures a[k] == b[k]
    {
      if k < |t| {
        assert t[k] == top[k];
      }
    }
  }

  /** `probability * total_games` gives the count back. */
  lemma RatioTimes(c: int, n: int)
    requires n > 0
    ensures Ratio(c, n) * n as real == c as real
  {
  }

  /** The window the result is computed over, and the number of draws it covers. */
  lemma CombinationWindow(all: seq<Draw>, period: int)
    ensures var r := CombinationProbability(all, period);
      (r.None? <==> period <= 0 || |all| == 0) &&
      (r.Some? ==> (
        r.value.period == period && r.value.totalGames == Min(period, |all|) &&
        |AllPairs(Database.RecentRecords(all, period))| == 15 * r.value.totalGames))
  {
    AllPairsFacts(Database.RecentRecords(all, period));
  }

  /** The ranked pairs of the window, as the result lists them. */
  function RankedOf(all: seq<Draw>, period: int): seq<Pair>
  {
    var ps := AllPairs(Database.RecentRecords(all, period));
    RankPairs(PairOrder(ps), PairCounts(ps))
  }

  /**
   * `most_common_pairs`: up to twenty distinct pairs, each with the number
   * of draws of the window that hold both balls, most frequent first.
   */
  lemma MostCommonPairsFacts(all: seq<Draw>, period: int)
    requires CombinationProbability(all, period).Some?
    ensures var recent := Database.RecentRecords(all, period);
      var ps := AllPairs(recent);
      var m := CombinationProbability(all, period).value.mostCommonPairs;
      |m| == Min(20, |PairOrder(ps)|) &&
      (forall i :: 0 <= i < |m| ==> m[i].0 in ps && m[i].1 == multiset(ps)[m[i].0]) &&
      (forall i, j :: 0 <= i < j < |m| ==> m[i].0 != m[j].0 && m[i].1 >= m[j].1)
  {
    var ps := AllPairs(Database.RecentRecords(all, period));
    var order := PairOrder(ps);
    var counts := PairCounts(ps);
    ResultOf(all, period);
    PairCountsFacts(ps);
    RankPairsShape(order, counts);
    RankPairsDescend(order, counts);
    var ranked := RankPairs(order, counts);
    var m := TopCounts(ranked, counts);
    TopCountsFacts(ranked, counts);
    forall i | 0 <= i < |m|
      ensures m[i].0 in ps && m[i].1 == multiset(ps)[m[i].0]
    {
      assert ranked[i] in order;
    }
  }

  /** The fifty most common pairs of valid draws are distinct two-digit pairs from the window. */
  lemma TopPairs(all: seq<Draw>, period: int)
    requires ValidReds(all)
    ensures var top := SliceTo(RankedOf(all, period), 50);
      Distinct(top) && TwoDigitPairs(top) &&
      forall i :: 0 <= i < |top| ==> top[i] in AllPairs(Database.RecentRecords(all, period))
  {
    TopPairsDistinct(all, period);
    var recent := Database.RecentRecords(all, period);
    var ps := AllPairs(recent);
    var order := PairOrder(ps);
    PairCountsFacts(ps);
    RankPairsShape(order, PairCounts(ps));
    var ranked := RankedOf(all, period);
    var top := SliceTo(ranked, 50);
    assert ValidReds(recent);
    forall i | 0 <= i < |top|
      ensures top[i] in ps && 0 <= top[i].low <= 99 && 0 <= top[i].high <= 99
    {
      assert top[i] == ranked[i] && ranked[i] in order;
      ValidPair(recent, top[i]);
    }
  }

  lemma TopPairsDistinct(all: seq<Draw>, period: int)
    ensures Distinct(SliceTo(RankedOf(all, period), 50))
  {
    var ps := AllPairs(Database.RecentRecords(all, period));
    PairCountsFacts(ps);
    RankPairsShape(PairOrder(ps), PairCounts(ps));
    var ranked := RankedOf(all, period);
    var top := SliceTo(ranked, 50);
    forall i, j | 0 <= i < j < |top|
      ensures top[i] != top[j]
    {
      assert top[i] == ranked[i] && top[j] == ranked[j];
    }
  }

  /**
   * `pair_probabilities` for valid draws: one entry per pair among the
   * fifty most common, with distinct keys, in ranking order.
   */
  lemma PairTableShape(all: seq<Draw>, period: int)
    requires ValidReds(all) && CombinationProbability(all, period).Some?
    ensures var t := CombinationProbability(all, period).value.pairProbabilities;
      var top := SliceTo(RankedOf(all, period), 50);
      |t| == |top| == Min(50, |PairOrder(AllPairs(Database.RecentRecords(all, period)))|) &&
      Distinct(StatKeys(t)) &&
      forall k :: 0 <= k < |t| ==> t[k].key == PairKey(top[k])
  {
    var recent := Database.RecentRecords(all, period);
    var ps := AllPairs(recent);
    var counts := PairCounts(ps);
    PairCountsFacts(ps);
    RankPairsShape(PairOrder(ps), counts);
    var top := SliceTo(RankedOf(all, period), 50);
    ResultOf(all, period);
    TopPairs(all, period);
    TableOfDistinct(top, counts, |recent|);
    var t := PairTable(top, counts, |recent|);
    forall i, j | 0 <= i < j < |t|
      ensures StatKeys(t)[i] != StatKeys(t)[j]
    {
      PairKeyInjective(top[i], top[j]);
    }
  }

  /** Entry k of a table built from distinct two-digit pairs is the entry of pair k. */
  lemma TableEntry(top: seq<Pair>, counts: map<Pair, int>, n: int, k: int)
    requires Distinct(top) && TwoDigitPairs(top) && 0 <= k < |top|
    ensures |PairTable(top, counts, n)| == |top|
    ensures PairTable(top, counts, n)[k] == StatOf(top[k], counts, n)
  {
    TableOfDistinct(top, counts, n);
  }

  /**
   * An entry of `pair_probabilities` for valid draws: the pair's count in
   * the window (at least one, at most one per draw), `count / total_games`
   * as a probability in (0, 1], and `expected` equal to the count.
   */
  lemma PairTableEntry(all: seq<Draw>, period: int, k: int)
    requires ValidReds(all) && CombinationProbability(all, period).Some?
    requires 0 <= k < |SliceTo(RankedOf(all, period), 50)|
    ensures k < |CombinationProbability(all, period).value.pairProbabilities|
    ensures var e := CombinationProbability(all, period).value.pairProbabilities[k];
      var p := SliceTo(RankedOf(all, period), 50)[k];
      e.key == PairKey(p) && p.low < p.high
    ensures var r := CombinationProbability(all, period).value;
      var e := r.pairProbabilities[k];
      var p := SliceTo(RankedOf(all, period), 50)[k];
      e.count == multiset(AllPairs(Database.RecentRecords(all, period)))[p] && 1 <= e.count <= r.totalGames
    ensures var r := CombinationProbability(all, period).value;
      var e := r.pairProbabilities[k];
      e.probability == Ratio(e.count, r.totalGames) && 0.0 < e.probability <= 1.0 && e.expected == e.count as real
  {
    var recent := Database.RecentRecords(all, period);
    var ps := AllPairs(recent);
    var counts := PairCounts(ps);
    var top := SliceTo(RankedOf(all, period), 50);
    var p := top[k];
    ResultOf(all, period);
    assert RankedOf(all, period) == RankPairs(PairOrder(ps), counts);
    TopPairs(all, period);
    TableEntry(top, counts, |recent|, k);
    var r := CombinationProbability(all, period).value;
    assert r.pairProbabilities == PairTable(top, counts, |recent|) && r.totalGames == |recent|;
    var e := r.pairProbabilities[k];
    assert e == StatOf(p, counts, |recent|);
    assert ValidReds(recent);
    ValidPair(recent, p);
    ValidPairCount(recent, p);
    PairCountsFacts(ps);
    assert e.count == multiset(ps)[p];
    StatRatios(p, counts, |recent|);
  }

  /** An entry for a pair seen at least once in n draws holds a probability in (0, 1] and its count back. */
  lemma StatRatios(p: Pair, counts: map<Pair, int>, n: int)
    requires 1 <= PairGet(counts, p) <= n
    ensures var e := StatOf(p, counts, n);
      e.probability == Ratio(e.count, n) && 0.0 < e.probability <= 1.0 && e.expected == e.count as real
  {
    RatioUnit(PairGet(counts, p), n);
    RatioTimes(PairGet(counts, p), n);
  }

  /** The entries of `pair_probabilities` come by descending count. */
  lemma PairTableDescends(all: seq<Draw>, period: int, i: int, j: int)
    requires ValidReds(all) && CombinationProbability(all, period).Some?
    requires 0 <= i < j < |CombinationProbability(all, period).value.pairProbabilities|
    ensures var t := CombinationProbability(all, period).value.pairProbabilities;
      t[i].count >= t[j].count
  {
    var ps := AllPairs(Database.RecentRecords(all, period));
    PairTableShape(all, period);
    PairTableEntry(all, period, i);
    PairTableEntry(all, period, j);
    RankPairsDescend(PairOrder(ps), PairCounts(ps));
    PairCountsFacts(ps);
    var top := SliceTo(RankedOf(all, period), 50);
    assert top[i] == RankedOf(all, period)[i] && top[j] == RankedOf(all, period)[j];
  }
}
