/**
 * The spread of a list of percentages across analysis windows (largest
 * minus smallest) and monotonicity, which every trend label of the
 * analyzers is built from.
 */
module Spread {
  import opened Common

  function RealSeqMax(p: seq<real>): real
    requires |p| > 0
  {
    if |p| == 1 then p[0] else RealMax(RealSeqMax(p[..|p| - 1]), p[|p| - 1])
  }

  function RealSeqMin(p: seq<real>): real
    requires |p| > 0
  {
    if |p| == 1 then p[0] else RealMin(RealSeqMin(p[..|p| - 1]), p[|p| - 1])
  }

  /** `max(p)` and `min(p)` are attained and bound every element. */
  lemma {:induction false} ExtremaFacts(p: seq<real>)
    requires |p| > 0
    ensures forall i :: 0 <= i < |p| ==> RealSeqMin(p) <= p[i] <= RealSeqMax(p)
    ensures exists i :: 0 <= i < |p| && p[i] == RealSeqMax(p)
    ensures exists i :: 0 <= i < |p| && p[i] == RealSeqMin(p)
  {
    if |p| > 1 {
      var t := p[..|p| - 1];
      ExtremaFacts(t);
      var i :| 0 <= i < |t| && t[i] == RealSeqMax(t);
      var j :| 0 <= j < |t| && t[j] == RealSeqMin(t);
      assert p[i] == t[i] && p[j] == t[j];
      if RealSeqMax(t) >= p[|p| - 1] {
        assert p[i] == RealSeqMax(p);
      } else {
        assert p[|p| - 1] == RealSeqMax(p);
      }
      if RealSeqMin(t) <= p[|p| - 1] {
        assert p[j] == RealSeqMin(p);
      } else {
        assert p[|p| - 1] == RealSeqMin(p);
      }
      forall k | 0 <= k < |p| - 1
        ensures RealSeqMin(p) <= p[k] <= RealSeqMax(p)
      {
        assert p[k] == t[k];
      }
    }
  }

  /** The spread `max(p) - min(p)` exceeds d exactly when two elements differ by more than d. */
  lemma SpreadAbove(p: seq<real>, d: real)
    requires |p| > 0
    ensures RealSeqMax(p) - RealSeqMin(p) > d <==>
      exists i, j :: 0 <= i < |p| && 0 <= j < |p| && p[i] - p[j] > d
  {
    ExtremaFacts(p);
  }

  predicate Rising(p: seq<real>)
  {
    forall i :: 0 <= i < |p| - 1 ==> p[i] <= p[i + 1]
  }

  predicate Falling(p: seq<real>)
  {
    forall i :: 0 <= i < |p| - 1 ==> p[i] >= p[i + 1]
  }

  /** In a rising list every element lies between the first and the last. */
  lemma {:induction false} RisingBounds(p: seq<real>, i: int)
    requires Rising(p) && 0 <= i < |p|
    ensures p[0] <= p[i] <= p[|p| - 1]
  {
    RisingFrom(p, 0, i);
    RisingFrom(p, i, |p| - 1);
  }

  lemma {:induction false} RisingFrom(p: seq<real>, i: int, j: int)
    requires Rising(p) && 0 <= i <= j < |p|
    ensures p[i] <= p[j]
    decreases j - i
  {
    if i < j {
      RisingFrom(p, i + 1, j);
    }
  }

  lemma {:induction false} FallingFrom(p: seq<real>, i: int, j: int)
    requires Falling(p) && 0 <= i <= j < |p|
    ensures p[i] >= p[j]
    decreases j - i
  {
    if i < j {
      FallingFrom(p, i + 1, j);
    }
  }

  /** In a rising list the spread runs from the first element to the last. */
  lemma RisingSpread(p: seq<real>)
    requires |p| > 0 && Rising(p)
    ensures RealSeqMax(p) == p[|p| - 1] && RealSeqMin(p) == p[0]
  {
    ExtremaFacts(p);
    var i :| 0 <= i < |p| && p[i] == RealSeqMax(p);
    var j :| 0 <= j < |p| && p[j] == RealSeqMin(p);
    RisingFrom(p, i, |p| - 1);
    RisingFrom(p, 0, j);
  }

  /** In a falling list the spread runs from the last element to the first. */
  lemma FallingSpread(p: seq<real>)
    requires |p| > 0 && Falling(p)
    ensures RealSeqMax(p) == p[0] && RealSeqMin(p) == p[|p| - 1]
  {
    ExtremaFacts(p);
    var i :| 0 <= i < |p| && p[i] == RealSeqMax(p);
    var j :| 0 <= j < |p| && p[j] == RealSeqMin(p);
    FallingFrom(p, 0, i);
    FallingFrom(p, j, |p| - 1);
  }
}
