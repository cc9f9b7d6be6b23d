/**
 * Shared vocabulary of the model: optional values and results, Python's
 * slicing rules, sums, duplicate removal, the Counter of a flat sequence,
 * decimal text and the Python `int()` conversion the analyzers rely on.
 */
module Common {

  datatype Option<T> = None | Some(value: T)

  datatype Result<T> = Ok(value: T) | Err(msg: string)

  /** Python's normalisation of a slice bound `i` against a length `n`. */
  function Clamp(n: nat, i: int): (r: nat)
    ensures r <= n
    ensures 0 <= i <= n ==> r == i
    ensures i < 0 && i + n >= 0 ==> r == n + i
  {
    if i < 0 then (if i + n < 0 then 0 else i + n) else if i > n then n else i
  }

  /** `s[i:]` */
  function SliceFrom<T>(s: seq<T>, i: int): seq<T>
  {
    s[Clamp(|s|, i)..]
  }

  /** `s[:j]` */
  function SliceTo<T>(s: seq<T>, j: int): seq<T>
  {
    s[..Clamp(|s|, j)]
  }

  /** `s[i:j]` */
  function Slice<T>(s: seq<T>, i: int, j: int): seq<T>
  {
    var a := Clamp(|s|, i);
    var b := Clamp(|s|, j);
    if a <= b then s[a..b] else []
  }

  /**
   * `s[-k:]` for k >= 0: the last k elements, except that `-0 == 0`, so
   * `s[-0:]` is the whole sequence.
   */
  lemma TakeLast<T>(s: seq<T>, k: int)
    requires k >= 0
    ensures k == 0 ==> SliceFrom(s, -k) == s
    ensures 0 < k <= |s| ==> SliceFrom(s, -k) == s[|s| - k..]
    ensures k > |s| ==> SliceFrom(s, -k) == s
    ensures 0 < k ==> |SliceFrom(s, -k)| == if k <= |s| then k else |s|
  {
  }

  function Min(a: int, b: int): int { if a <= b then a else b }

  function Max(a: int, b: int): int { if a >= b then a else b }

  function RealMin(a: real, b: real): real { if a <= b then a else b }

  function RealMax(a: real, b: real): real { if a >= b then a else b }

  function Abs(a: real): real { if a < 0.0 then -a else a }

  function Sum(xs: seq<int>): int
  {
    if |xs| == 0 then 0 else Sum(xs[..|xs| - 1]) + xs[|xs| - 1]
  }

  function RealSum(xs: seq<real>): real
  {
    if |xs| == 0 then 0.0 else RealSum(xs[..|xs| - 1]) + xs[|xs| - 1]
  }

  lemma SumSnoc(xs: seq<int>, x: int)
    ensures Sum(xs + [x]) == Sum(xs) + x
  {
    assert (xs + [x])[..|xs|] == xs;
  }

  lemma SumAppend(xs: seq<int>, ys: seq<int>)
    ensures Sum(xs + ys) == Sum(xs) + Sum(ys)
  {
    if |ys| == 0 {
      assert xs + ys == xs;
    } else {
      assert (xs + ys)[..|xs + ys| - 1] == xs + ys[..|ys| - 1];
      SumAppend(xs, ys[..|ys| - 1]);
    }
  }

  /** Sum of a sequence whose elements all lie in [lo, hi]. */
  lemma {:induction false} SumBounds(xs: seq<int>, lo: int, hi: int)
    requires forall i :: 0 <= i < |xs| ==> lo <= xs[i] <= hi
    ensures |xs| * lo <= Sum(xs) <= |xs| * hi
  {
    if |xs| > 0 {
      var t := xs[..|xs| - 1];
      SumBounds(t, lo, hi);
      assert |xs| * lo == |t| * lo + lo && |xs| * hi == |t| * hi + hi;
    }
  }

  lemma RealSumAppend(xs: seq<real>, ys: seq<real>)
    ensures RealSum(xs + ys) == RealSum(xs) + RealSum(ys)
  {
    if |ys| == 0 {
      assert xs + ys == xs;
    } else {
      assert (xs + ys)[..|xs + ys| - 1] == xs + ys[..|ys| - 1];
      RealSumAppend(xs, ys[..|ys| - 1]);
    }
  }

  predicate Distinct<T(==)>(s: seq<T>)
  {
    forall i, j :: 0 <= i < j < |s| ==> s[i] != s[j]
  }

  /** Appending a new value keeps a sequence free of repeats. */
  lemma DistinctSnoc<T>(s: seq<T>, x: T)
    requires Distinct(s) && x !in s
    ensures Distinct(s + [x])
  {
    forall i, j | 0 <= i < j < |s + [x]|
      ensures (s + [x])[i] != (s + [x])[j]
    {
      if j == |s| {
        assert (s + [x])[i] == s[i];
      } else {
        assert (s + [x])[i] == s[i] && (s + [x])[j] == s[j];
      }
    }
  }

  predicate Ascending(s: seq<int>)
  {
    forall i, j :: 0 <= i < j < |s| ==> s[i] < s[j]
  }

  predicate NonDecreasing(s: seq<int>)
  {
    forall i, j :: 0 <= i < j < |s| ==> s[i] <= s[j]
  }

  function ToSet<T>(s: seq<T>): set<T>
  {
    set x | x in s
  }

  lemma {:induction false} CardToSet<T>(s: seq<T>)
    ensures |ToSet(s)| <= |s|
    ensures Distinct(s) ==> |ToSet(s)| == |s|
  {
    if |s| > 0 {
      var t := s[..|s| - 1];
      var x := s[|s| - 1];
      CardToSet(t);
      assert ToSet(s) == ToSet(t) + {x};
      if Distinct(s) {
        assert Distinct(t);
        forall i | 0 <= i < |t|
          ensures t[i] != x
        {
          assert s[i] != s[|s| - 1];
        }
      }
    }
  }

  /** A sequence whose set has as many elements as the sequence is duplicate-free. */
  lemma {:induction false} CardToSetDistinct<T>(s: seq<T>)
    requires |ToSet(s)| == |s|
    ensures Distinct(s)
  {
    if |s| > 0 {
      var t := s[..|s| - 1];
      var x := s[|s| - 1];
      assert ToSet(s) == ToSet(t) + {x};
      CardToSet(t);
      if x in ToSet(t) {
        assert false;
      }
      assert |ToSet(t)| == |t|;
      CardToSetDistinct(t);
      forall i, j | 0 <= i < j < |s|
        ensures s[i] != s[j]
      {
        if j < |s| - 1 {
          assert s[i] == t[i] && s[j] == t[j];
        } else {
          assert s[i] == t[i] && t[i] in ToSet(t);
        }
      }
    }
  }

  lemma DistinctIffCard<T>(s: seq<T>)
    ensures Distinct(s) <==> |ToSet(s)| == |s|
  {
    CardToSet(s);
    if |ToSet(s)| == |s| {
      CardToSetDistinct(s);
    }
  }

  /** A duplicate-free sequence holds each of its elements exactly once. */
  lemma {:induction false} DistinctMultiplicity<T>(s: seq<T>, x: T)
    requires Distinct(s)
    ensures multiset(s)[x] == if x in s then 1 else 0
  {
    if |s| > 0 {
      var t := s[..|s| - 1];
      assert s == t + [s[|s| - 1]];
      assert Distinct(t);
      DistinctMultiplicity(t, x);
      if x == s[|s| - 1] {
        forall i | 0 <= i < |t|
          ensures t[i] != x
        {
          assert s[i] != s[|s| - 1];
        }
      }
    }
  }

  /** A sequence in which no element occurs twice is duplicate-free. */
  lemma {:induction false} MultiplicityDistinct<T>(s: seq<T>)
    requires forall x :: multiset(s)[x] <= 1
    ensures Distinct(s)
  {
    if |s| > 0 {
      var t := s[..|s| - 1];
      var x := s[|s| - 1];
      assert s == t + [x];
      forall y
        ensures multiset(t)[y] <= 1
      {
        assert multiset(s)[y] == multiset(t)[y] + (if y == x then 1 else 0);
      }
      MultiplicityDistinct(t);
      assert multiset(t)[x] == 0;
      forall i | 0 <= i < |t|
        ensures t[i] != x
      {
        assert t[i] in multiset(t);
      }
    }
  }

  /** Two sequences holding the same elements with the same multiplicity. */
  lemma PermutationKeepsDistinct<T>(s: seq<T>, t: seq<T>)
    requires multiset(s) == multiset(t)
    requires Distinct(s)
    ensures Distinct(t)
  {
    forall x
      ensures multiset(t)[x] <= 1
    {
      DistinctMultiplicity(s, x);
    }
    MultiplicityDistinct(t);
  }

  /** The balls lo, lo+1, ..., hi-1. */
  function Range(lo: int, hi: int): (r: seq<int>)
    ensures |r| == if hi >= lo then hi - lo else 0
    ensures forall i :: 0 <= i < |r| ==> r[i] == lo + i
  {
    if hi <= lo then [] else seq(hi - lo, i => lo + i)
  }

  lemma RangeFacts(lo: int, hi: int)
    ensures Ascending(Range(lo, hi)) && Distinct(Range(lo, hi))
    ensures forall x :: x in Range(lo, hi) <==> lo <= x < hi
  {
    var r := Range(lo, hi);
    forall x | lo <= x < hi
      ensures x in r
    {
      assert r[x - lo] == x;
    }
  }

  /**
   * Order-preserving duplicate removal: the first occurrence of each value
   * is kept. This is the key order of a Counter filled from `xs`, and of a
   * list de-duplicated with an `if x not in out: out.append(x)` loop.
   */
  function Dedupe(xs: seq<int>): seq<int>
  {
    if |xs| == 0 then []
    else
      var d := Dedupe(xs[..|xs| - 1]);
      if xs[|xs| - 1] in xs[..|xs| - 1] then d else d + [xs[|xs| - 1]]
  }

  lemma {:induction false} DedupeFacts(xs: seq<int>)
    ensures Distinct(Dedupe(xs))
    ensures forall x :: x in Dedupe(xs) <==> x in xs
    ensures |Dedupe(xs)| <= |xs|
  {
    if |xs| > 0 {
      var t := xs[..|xs| - 1];
      DedupeFacts(t);
      assert xs == t + [xs[|xs| - 1]];
    }
  }

  /** Dedupe of a duplicate-free sequence is the sequence itself. */
  lemma {:induction false} DedupeDistinct(xs: seq<int>)
    requires Distinct(xs)
    ensures Dedupe(xs) == xs
  {
    if |xs| > 0 {
      var t := xs[..|xs| - 1];
      assert Distinct(t);
      DedupeDistinct(t);
      forall i | 0 <= i < |t|
        ensures t[i] != xs[|xs| - 1]
      {
        assert xs[i] != xs[|xs| - 1];
      }
      assert xs == t + [xs[|xs| - 1]];
    }
  }

  function InsertInt(x: int, s: seq<int>): (r: seq<int>)
    ensures multiset(r) == multiset(s) + multiset{x}
    ensures |r| == |s| + 1
  {
    if |s| == 0 || x <= s[0] then [x] + s
    else
      assert s == [s[0]] + s[1..];
      [s[0]] + InsertInt(x, s[1..])
  }

  lemma {:induction false} InsertIntSorted(x: int, s: seq<int>)
    requires NonDecreasing(s)
    ensures NonDecreasing(InsertInt(x, s))
  {
    if |s| > 0 && x > s[0] {
      var t := s[1..];
      assert NonDecreasing(t);
      InsertIntSorted(x, t);
      assert forall i :: 0 <= i < |t| ==> s[0] <= t[i] by {
        forall i | 0 <= i < |t|
          ensures s[0] <= t[i]
        {
          assert t[i] == s[i + 1];
        }
      }
      InsertIntBelow(x, t, s[0]);
      ConsNonDecreasing(s[0], InsertInt(x, t));
    } else {
      ConsNonDecreasing(x, s);
    }
  }

  /** Inserting a value no smaller than lo into values no smaller than lo. */
  lemma InsertIntBelow(x: int, s: seq<int>, lo: int)
    requires lo <= x && forall i :: 0 <= i < |s| ==> lo <= s[i]
    ensures forall i :: 0 <= i < |InsertInt(x, s)| ==> lo <= InsertInt(x, s)[i]
  {
    var r := InsertInt(x, s);
    forall i | 0 <= i < |r|
      ensures lo <= r[i]
    {
      assert r[i] in multiset(r);
      if r[i] != x {
        assert r[i] in multiset(s);
        var k :| 0 <= k < |s| && s[k] == r[i];
      }
    }
  }

  lemma ConsNonDecreasing(a: int, s: seq<int>)
    requires NonDecreasing(s) && forall i :: 0 <= i < |s| ==> a <= s[i]
    ensures NonDecreasing([a] + s)
  {
    var r := [a] + s;
    forall i, j | 0 <= i < j < |r|
      ensures r[i] <= r[j]
    {
      assert r[j] == s[j - 1];
      if i > 0 {
        assert r[i] == s[i - 1];
      }
    }
  }

  /** `sorted(xs)` on integers: the ascending permutation. */
  function SortInts(s: seq<int>): (r: seq<int>)
    ensures multiset(r) == multiset(s)
    ensures |r| == |s|
    ensures NonDecreasing(r)
  {
    if |s| == 0 then []
    else
      var t := SortInts(s[..|s| - 1]);
      InsertIntSorted(s[|s| - 1], t);
      assert s == s[..|s| - 1] + [s[|s| - 1]];
      InsertInt(s[|s| - 1], t)
  }

  /** The values of `xs` that satisfy `p`, in order (a list comprehension with a filter). */
  function Filter(xs: seq<int>, p: int -> bool): seq<int>
  {
    if |xs| == 0 then []
    else
      var t := Filter(xs[..|xs| - 1], p);
      if p(xs[|xs| - 1]) then t + [xs[|xs| - 1]] else t
  }

  /** A filter keeps exactly the elements satisfying p, and never grows. */
  lemma {:induction false} FilterFacts(xs: seq<int>, p: int -> bool)
    ensures |Filter(xs, p)| <= |xs|
    ensures forall x :: x in Filter(xs, p) <==> x in xs && p(x)
  {
    if |xs| > 0 {
      var t := xs[..|xs| - 1];
      FilterFacts(t, p);
      assert xs == t + [xs[|xs| - 1]];
    }
  }

  /** A filter keeps a subsequence: order, and therefore distinctness, survive it. */
  lemma {:induction false} FilterSubsequence(xs: seq<int>, p: int -> bool)
    ensures Distinct(xs) ==> Distinct(Filter(xs, p))
    ensures Ascending(xs) ==> Ascending(Filter(xs, p))
  {
    if |xs| > 0 {
      var t := xs[..|xs| - 1];
      var x := xs[|xs| - 1];
      FilterSubsequence(t, p);
      FilterFacts(t, p);
      var ft := Filter(t, p);
      forall y | y in ft
        ensures Distinct(xs) ==> y != x
        ensures Ascending(xs) ==> y < x
      {
        assert y in t;
        var k :| 0 <= k < |t| && t[k] == y;
        assert xs[k] == y;
      }
      if p(x) {
        var f := ft + [x];
        assert Filter(xs, p) == f;
        if Ascending(xs) {
          forall a, c | 0 <= a < c < |f|
            ensures f[a] < f[c]
          {
            if c == |f| - 1 {
              assert f[a] == ft[a] && ft[a] in ft;
            } else {
              assert f[a] == ft[a] && f[c] == ft[c];
            }
          }
        }
        if Distinct(xs) {
          forall a, c | 0 <= a < c < |f|
            ensures f[a] != f[c]
          {
            if c == |f| - 1 {
              assert f[a] == ft[a] && ft[a] in ft;
            } else {
              assert f[a] == ft[a] && f[c] == ft[c];
            }
          }
        }
      }
    }
  }

  /**
   * A Counter filled from `xs` one value at a time: each value's entry is
   * incremented, a value not yet counted enters at 1.
   */
  function CountMap(xs: seq<int>): map<int, int>
  {
    if |xs| == 0 then map[]
    else
      var m := CountMap(xs[..|xs| - 1]);
      m[xs[|xs| - 1] := Get(m, xs[|xs| - 1]) + 1]
  }

  /** The Counter's keys are the values seen, and each maps to its multiplicity. */
  lemma {:induction false} CountMapFacts(xs: seq<int>)
    ensures forall b :: b in CountMap(xs) <==> b in xs
    ensures forall b :: Get(CountMap(xs), b) == multiset(xs)[b]
  {
    if |xs| > 0 {
      var t := xs[..|xs| - 1];
      CountMapFacts(t);
      assert xs == t + [xs[|xs| - 1]];
      assert multiset(xs) == multiset(t) + multiset{xs[|xs| - 1]};
    }
  }

  /** `m[b]` of a zero-filled Counter (`counts.get(b, 0)`). */
  function Get(m: map<int, int>, b: int): int
  {
    if b in m then m[b] else 0
  }

  /**
   * Number of positions in xs holding a value in [lo, hi] summed per value
   * equals the number of such positions: sum over b in lo..hi of the
   * multiplicity of b.
   */
  function CountSum(xs: seq<int>, lo: int, hi: int): int
    decreases hi - lo
  {
    if hi < lo then 0 else CountSum(xs, lo, hi - 1) + multiset(xs)[hi]
  }

  lemma {:induction false} CountSumSnoc(xs: seq<int>, x: int, lo: int, hi: int)
    ensures CountSum(xs + [x], lo, hi) ==
            CountSum(xs, lo, hi) + (if lo <= x <= hi then 1 else 0)
    decreases hi - lo
  {
    if hi >= lo {
      CountSumSnoc(xs, x, lo, hi - 1);
      assert multiset(xs + [x]) == multiset(xs) + multiset{x};
    }
  }

  /** Conservation: if every value lies in [lo, hi], the per-value counts add up to |xs|. */
  lemma {:induction false} CountSumAll(xs: seq<int>, lo: int, hi: int)
    requires forall i :: 0 <= i < |xs| ==> lo <= xs[i] <= hi
    ensures CountSum(xs, lo, hi) == |xs|
  {
    if |xs| == 0 {
      CountSumEmpty(lo, hi);
    } else {
      var t := xs[..|xs| - 1];
      CountSumAll(t, lo, hi);
      assert xs == t + [xs[|xs| - 1]];
      CountSumSnoc(t, xs[|xs| - 1], lo, hi);
    }
  }

  lemma {:induction false} CountSumEmpty(lo: int, hi: int)
    ensures CountSum([], lo, hi) == 0
    decreases hi - lo
  {
    if hi >= lo {
      CountSumEmpty(lo, hi - 1);
    }
  }

  /** Sum of m[b] over the keys b in lo..hi that m holds. */
  function KeySum(m: map<int, int>, lo: int, hi: int): int
    decreases hi - lo
  {
    if hi < lo then 0 else KeySum(m, lo, hi - 1) + (if hi in m then m[hi] else 0)
  }

  /** Number of keys of m in lo..hi. */
  function KeyCount(m: map<int, int>, lo: int, hi: int): nat
    decreases hi - lo
  {
    if hi < lo then 0 else KeyCount(m, lo, hi - 1) + (if hi in m then 1 else 0)
  }

  /** Summing a Counter's values over lo..hi counts the positions of xs holding lo..hi. */
  lemma {:induction false} KeySumIsCountSum(m: map<int, int>, xs: seq<int>, lo: int, hi: int)
    requires forall b :: lo <= b <= hi ==> b in m && m[b] == multiset(xs)[b]
    ensures KeySum(m, lo, hi) == CountSum(xs, lo, hi)
    decreases hi - lo
  {
    if hi >= lo {
      KeySumIsCountSum(m, xs, lo, hi - 1);
    }
  }

  /** Summing a Counter over lo..hi counts the positions holding lo..hi (absent keys count 0). */
  lemma {:induction false} CountMapKeySum(xs: seq<int>, lo: int, hi: int)
    ensures KeySum(CountMap(xs), lo, hi) == CountSum(xs, lo, hi)
    decreases hi - lo
  {
    if hi >= lo {
      CountMapKeySum(xs, lo, hi - 1);
      CountMapFacts(xs);
      assert Get(CountMap(xs), hi) == multiset(xs)[hi];
    }
  }

  /** |set(a) & set(b)|: how many distinct values two draws share. */
  function Overlap(a: seq<int>, b: seq<int>): nat
  {
    |ToSet(a) * ToSet(b)|
  }

  lemma SubsetCard<T>(x: set<T>, y: set<T>)
    requires x <= y
    ensures |x| <= |y|
  {
    assert y == x + (y - x);
    assert x * (y - x) == {};
  }

  /** The shared repeat kernel: an overlap never exceeds either side's length. */
  lemma OverlapBound(a: seq<int>, b: seq<int>)
    ensures Overlap(a, b) <= |a| && Overlap(a, b) <= |b|
    ensures Overlap(a, b) == Overlap(b, a)
  {
    CardToSet(a);
    CardToSet(b);
    var A, B := ToSet(a), ToSet(b);
    SubsetCard(A * B, A);
    SubsetCard(A * B, B);
    assert A * B == B * A;
  }

  // ---------------------------------------------------------------------
  // Decimal text

  function DigitChar(d: int): char
    requires 0 <= d <= 9
  {
    ['0', '1', '2', '3', '4', '5', '6', '7', '8', '9'][d]
  }

  predicate IsDigit(c: char) { '0' <= c <= '9' }

  predicate AllDigits(s: string) { forall i :: 0 <= i < |s| ==> IsDigit(s[i]) }

  function DigitValue(c: char): int
    requires IsDigit(c)
  {
    c as int - '0' as int
  }

  /** `str(n)` for n >= 0. */
  function NatToString(n: nat): (s: string)
    ensures |s| >= 1 && AllDigits(s)
    decreases n
  {
    if n < 10 then [DigitChar(n)] else NatToString(n / 10) + [DigitChar(n % 10)]
  }

  /** The value of a string of decimal digits. */
  function DigitsValue(s: string): nat
    requires AllDigits(s)
  {
    if |s| == 0 then 0 else DigitsValue(s[..|s| - 1]) * 10 + DigitValue(s[|s| - 1])
  }

  lemma {:induction false} DigitsOfNat(n: nat)
    ensures DigitsValue(NatToString(n)) == n
    decreases n
  {
    if n >= 10 {
      DigitsOfNat(n / 10);
      var s := NatToString(n);
      assert s[..|s| - 1] == NatToString(n / 10);
      assert DigitValue(s[|s| - 1]) == n % 10;
      assert DigitsValue(s) == (n / 10) * 10 + n % 10;
    }
  }

  /** Leading zeros do not change the value of a digit string. */
  lemma {:induction false} DigitsLeadingZeros(k: nat, s: string)
    requires AllDigits(s)
    ensures AllDigits(Zeros(k) + s)
    ensures DigitsValue(Zeros(k) + s) == DigitsValue(s)
    decreases |s|
  {
    if |s| == 0 {
      ZerosValue(k);
      assert Zeros(k) + s == Zeros(k);
    } else {
      var t := s[..|s| - 1];
      DigitsLeadingZeros(k, t);
      assert (Zeros(k) + s)[..|Zeros(k) + s| - 1] == Zeros(k) + t;
    }
  }

  function Zeros(k: nat): (z: string)
    ensures |z| == k && AllDigits(z)
    ensures forall i :: 0 <= i < k ==> z[i] == '0'
  {
    seq(k, i => '0')
  }

  lemma {:induction false} ZerosValue(k: nat)
    ensures DigitsValue(Zeros(k)) == 0
  {
    if k > 0 {
      ZerosValue(k - 1);
      assert Zeros(k)[..k - 1] == Zeros(k - 1);
    }
  }

  /** `"%0wd" % n` / `f"{n:0wd}"`: sign, then digits zero-padded to total width w. */
  function PadInt(n: int, w: nat): (s: string)
    ensures |s| >= w
  {
    var sign := if n < 0 then "-" else "";
    var digits := NatToString(if n < 0 then -n else n);
    var fill := if |sign| + |digits| < w then w - |sign| - |digits| else 0;
    sign + Zeros(fill) + digits
  }

  lemma PadIntNat(n: nat, w: nat)
    ensures AllDigits(PadInt(n, w))
    ensures DigitsValue(PadInt(n, w)) == n
    ensures |NatToString(n)| <= w ==> |PadInt(n, w)| == w
  {
    var digits := NatToString(n);
    var fill := if |digits| < w then w - |digits| else 0;
    assert PadInt(n, w) == Zeros(fill) + digits;
    DigitsLeadingZeros(fill, digits);
    DigitsOfNat(n);
  }

  lemma {:induction false} NatToStringLength(n: nat, k: nat)
    ensures n < Pow10(k) && k >= 1 ==> |NatToString(n)| <= k
    decreases n
  {
    if n >= 10 && k >= 1 && n < Pow10(k) {
      assert n / 10 < Pow10(k - 1);
      NatToStringLength(n / 10, k - 1);
    }
  }

  function Pow10(k: nat): nat
  {
    if k == 0 then 1 else 10 * Pow10(k - 1)
  }

  predicate IsSpace(c: char)
  {
    c == ' ' || c == '\t' || c == '\n' || c == '\r' || c == '\U{000B}' || c == '\U{000C}'
  }

  /** `s.strip()` over ASCII whitespace. */
  function Strip(s: string): (r: string)
    ensures |r| <= |s|
    ensures |r| > 0 ==> !IsSpace(r[0]) && !IsSpace(r[|r| - 1])
    decreases |s|
  {
    if |s| > 0 && IsSpace(s[0]) then Strip(s[1..])
    else if |s| > 0 && IsSpace(s[|s| - 1]) then Strip(s[..|s| - 1])
    else s
  }

  /**
   * `int(s)` on a string: surrounding whitespace, an optional sign, then
   * one or more ASCII digits; anything else raises ValueError (None here).
   */
  function PyInt(s: string): (r: Option<int>)
    ensures AllDigits(s) && |s| > 0 ==> r == Some(DigitsValue(s))
  {
    var t := Strip(s);
    if |t| > 0 && (t[0] == '-' || t[0] == '+') then
      var d := t[1..];
      if |d| > 0 && AllDigits(d) then
        var v: int := DigitsValue(d);
        Some(if t[0] == '-' then -v else v)
      else None
    else if |t| > 0 && AllDigits(t) then Some(DigitsValue(t))
    else None
  }

  lemma PyIntOfNat(n: nat)
    ensures PyInt(NatToString(n)) == Some(n)
  {
    DigitsOfNat(n);
  }

  /** `sep.join(xs)` */
  function JoinStrings(xs: seq<string>, sep: string): string
  {
    if |xs| == 0 then ""
    else if |xs| == 1 then xs[0]
    else JoinStrings(xs[..|xs| - 1], sep) + sep + xs[|xs| - 1]
  }

  /**
   * Joining two-character pieces with a one-character separator puts piece
   * k at positions 3k and 3k+1 and the separator at 3k+2.
   */
  lemma {:induction false} JoinPairs(xs: seq<string>, sep: string)
    requires |xs| >= 1 && |sep| == 1
    requires forall i :: 0 <= i < |xs| ==> |xs[i]| == 2
    ensures |JoinStrings(xs, sep)| == 3 * |xs| - 1
    ensures forall k :: 0 <= k < |xs| ==> JoinStrings(xs, sep)[3 * k..3 * k + 2] == xs[k]
    ensures forall k :: 0 <= k < |xs| - 1 ==> JoinStrings(xs, sep)[3 * k + 2] == sep[0]
  {
    if |xs| > 1 {
      var t := xs[..|xs| - 1];
      JoinPairs(t, sep);
      var jt := JoinStrings(t, sep);
      var j := JoinStrings(xs, sep);
      assert j == jt + sep + xs[|xs| - 1];
      forall k | 0 <= k < |xs|
        ensures j[3 * k..3 * k + 2] == xs[k]
      {
        if k < |t| {
          assert j[3 * k..3 * k + 2] == jt[3 * k..3 * k + 2];
        } else {
          assert j[3 * k..3 * k + 2] == xs[|xs| - 1];
        }
      }
      forall k | 0 <= k < |xs| - 1
        ensures j[3 * k + 2] == sep[0]
      {
        if k < |t| - 1 {
          assert j[3 * k + 2] == jt[3 * k + 2];
        }
      }
    }
  }

  /** `sep.join(str(x) for x in xs)` */
  function JoinInts(xs: seq<int>, sep: string): string
  {
    if |xs| == 0 then ""
    else if |xs| == 1 then IntToString(xs[0])
    else JoinInts(xs[..|xs| - 1], sep) + sep + IntToString(xs[|xs| - 1])
  }

  /** `str(n)` */
  function IntToString(n: int): string
  {
    if n < 0 then "-" + NatToString(-n) else NatToString(n)
  }

  // ---------------------------------------------------------------------
  // Ratios of counts, as exact reals

  /** `a / b` for counts, as an exact real; only ever taken with b > 0. */
  function Ratio(a: int, b: int): real
  {
    if b == 0 then 0.0 else a as real / b as real
  }

  /** A frequency divided by a total it does not exceed is a probability. */
  lemma RatioUnit(a: int, b: int)
    requires 0 <= a <= b && b > 0
    ensures 0.0 <= Ratio(a, b) <= 1.0
    ensures Ratio(a, b) == 0.0 <==> a == 0
    ensures Ratio(a, b) == 1.0 <==> a == b
  {
    var x, y := a as real, b as real;
    assert x / y * y == x;
  }

  /** a / b <= k when a <= k * b. */
  lemma RatioAtMost(a: int, b: int, k: int)
    requires 0 <= a <= k * b && b > 0
    ensures 0.0 <= Ratio(a, b) <= k as real
  {
    var x, y := a as real, b as real;
    assert x / y * y == x;
    assert x <= k as real * y;
  }

  /** Fractions over one denominator add up as their numerators do. */
  lemma RatioAdd(a: int, c: int, t: int)
    requires t > 0
    ensures Ratio(a, t) + Ratio(c, t) == Ratio(a + c, t)
  {
    var x, y, z := a as real, c as real, t as real;
    assert x / z + y / z == (x + y) / z;
  }

  /** No value occurs in a sequence more often than the sequence is long. */
  lemma {:induction false} MultiplicityBound(xs: seq<int>, c: int)
    ensures multiset(xs)[c] <= |xs|
  {
    if |xs| > 0 {
      var t := xs[..|xs| - 1];
      MultiplicityBound(t, c);
      assert xs == t + [xs[|xs| - 1]];
      assert multiset(xs) == multiset(t) + multiset{xs[|xs| - 1]};
    }
  }

  /** A sum of 0/1 flags is 0 exactly when no flag is set, and |xs| exactly when all are. */
  lemma {:induction false} FlagSum(xs: seq<int>)
    requires forall i :: 0 <= i < |xs| ==> 0 <= xs[i] <= 1
    ensures 0 <= Sum(xs) <= |xs|
    ensures Sum(xs) == 0 <==> forall i :: 0 <= i < |xs| ==> xs[i] == 0
    ensures Sum(xs) == |xs| <==> forall i :: 0 <= i < |xs| ==> xs[i] == 1
  {
    if |xs| > 0 {
      var t := xs[..|xs| - 1];
      assert forall i :: 0 <= i < |t| ==> t[i] == xs[i];
      FlagSum(t);
    }
  }
}
