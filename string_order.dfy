/**
 * Python's ordering of `str` values (character by character, a proper
 * prefix first) and `list.sort()` on a list of strings, with the facts the
 * issue-number lists rely on: the order is a strict total order, a sorted
 * permutation is unique, and on digit strings of one length it is the
 * order of their values.
 */
module StringOrder {
  import opened Common

  /** `a < b` on Python strings. */
  predicate Less(a: string, b: string)
    decreases |a|
  {
    if |a| == 0 then |b| > 0
    else if |b| == 0 then false
    else if a[0] != b[0] then a[0] < b[0]
    else Less(a[1..], b[1..])
  }

  lemma {:induction false} LessIrreflexive(a: string)
    ensures !Less(a, a)
    decreases |a|
  {
    if |a| > 0 {
      LessIrreflexive(a[1..]);
    }
  }

  lemma {:induction false} LessTransitive(a: string, b: string, c: string)
    requires Less(a, b) && Less(b, c)
    ensures Less(a, c)
    decreases |a|
  {
    if |a| > 0 && a[0] == b[0] && b[0] == c[0] {
      LessTransitive(a[1..], b[1..], c[1..]);
    }
  }

  lemma {:induction false} LessTotal(a: string, b: string)
    ensures a == b || Less(a, b) || Less(b, a)
    decreases |a|
  {
    if |a| > 0 && |b| > 0 && a[0] == b[0] {
      LessTotal(a[1..], b[1..]);
      assert a == [a[0]] + a[1..] && b == [b[0]] + b[1..];
    }
  }

  lemma LessAsymmetric(a: string, b: string)
    requires Less(a, b)
    ensures !Less(b, a) && a != b
  {
    LessIrreflexive(a);
    if Less(b, a) {
      LessTransitive(a, b, a);
    }
  }

  /** Non-decreasing: no later string is below an earlier one. */
  predicate Sorted(s: seq<string>)
  {
    forall i, j :: 0 <= i < j < |s| ==> !Less(s[j], s[i])
  }

  /** Increasing, hence also free of duplicates. */
  predicate StrictlySorted(s: seq<string>)
  {
    forall i, j :: 0 <= i < j < |s| ==> Less(s[i], s[j])
  }

  /** x placed before the first element not below it. */
  function Insert(x: string, s: seq<string>): (r: seq<string>)
    ensures |r| == |s| + 1
    ensures multiset(r) == multiset(s) + multiset{x}
  {
    if |s| == 0 || !Less(s[0], x) then [x] + s
    else
      assert s == [s[0]] + s[1..];
      [s[0]] + Insert(x, s[1..])
  }

  /** `list.sort()` on strings, as an insertion sort. */
  function Sort(s: seq<string>): (r: seq<string>)
    ensures multiset(r) == multiset(s)
  {
    if |s| == 0 then []
    else
      assert s == [s[0]] + s[1..];
      Insert(s[0], Sort(s[1..]))
  }

  /** No element of s is below x. */
  predicate NoneBelow(x: string, s: seq<string>)
  {
    forall e :: e in s ==> !Less(e, x)
  }

  lemma SortedCons(x: string, s: seq<string>)
    requires Sorted(s) && NoneBelow(x, s)
    ensures Sorted([x] + s)
  {
    var r := [x] + s;
    forall i, j | 0 <= i < j < |r|
      ensures !Less(r[j], r[i])
    {
      assert r[j] == s[j - 1];
      if i == 0 {
        assert s[j - 1] in s;
      } else {
        assert r[i] == s[i - 1];
      }
    }
  }

  lemma SortedHead(s: seq<string>)
    requires Sorted(s) && |s| > 0
    ensures Sorted(s[1..]) && NoneBelow(s[0], s[1..])
  {
    forall e | e in s[1..]
      ensures !Less(e, s[0])
    {
      var k :| 0 <= k < |s[1..]| && s[1..][k] == e;
      assert s[k + 1] == e;
    }
  }

  lemma {:induction false} InsertSorted(x: string, s: seq<string>)
    requires Sorted(s)
    ensures Sorted(Insert(x, s))
    decreases |s|
  {
    if |s| == 0 {
    } else if !Less(s[0], x) {
      SortedHead(s);
      forall e | e in s
        ensures !Less(e, x)
      {
        if e != s[0] {
          assert e in s[1..] by {
            assert s == [s[0]] + s[1..];
          }
          LessTotal(s[0], x);
          if Less(e, x) {
            if Less(s[0], e) {
              LessTransitive(s[0], e, x);
            } else {
              LessTotal(s[0], e);
            }
          }
        }
      }
      SortedCons(x, s);
    } else {
      SortedHead(s);
      InsertSorted(x, s[1..]);
      var r := Insert(x, s[1..]);
      forall e | e in r
        ensures !Less(e, s[0])
      {
        assert e in multiset(r);
        if e == x {
          LessAsymmetric(s[0], x);
        } else {
          assert e in multiset(s[1..]);
        }
      }
      SortedCons(s[0], r);
    }
  }

  lemma {:induction false} SortSorted(s: seq<string>)
    ensures Sorted(Sort(s))
    decreases |s|
  {
    if |s| > 0 {
      SortSorted(s[1..]);
      InsertSorted(s[0], Sort(s[1..]));
    }
  }

  /** Sorted arrangements of the same strings start with the same string. */
  lemma SortedHeads(a: seq<string>, b: seq<string>)
    requires Sorted(a) && Sorted(b) && |a| > 0 && |b| > 0 && multiset(a) == multiset(b)
    ensures a[0] == b[0]
  {
    var x, y := a[0], b[0];
    assert x in multiset(b) && y in multiset(a);
    var i :| 0 <= i < |b| && b[i] == x;
    var j :| 0 <= j < |a| && a[j] == y;
    if i > 0 {
      assert !Less(b[i], b[0]);
    }
    if j > 0 {
      assert !Less(a[j], a[0]);
    }
    LessTotal(x, y);
  }

  /** Two sorted arrangements of the same strings are the same list. */
  lemma {:induction false} SortedUnique(a: seq<string>, b: seq<string>)
    requires Sorted(a) && Sorted(b) && multiset(a) == multiset(b)
    ensures a == b
    decreases |a|
  {
    assert |a| == |multiset(a)| == |multiset(b)| == |b|;
    if |a| > 0 {
      SortedHeads(a, b);
      SortedHead(a);
      SortedHead(b);
      assert a == [a[0]] + a[1..] && b == [b[0]] + b[1..];
      assert multiset(a) == multiset{a[0]} + multiset(a[1..]);
      assert multiset(b) == multiset{b[0]} + multiset(b[1..]);
      assert multiset(a[1..]) == multiset(a) - multiset{a[0]};
      assert multiset(b[1..]) == multiset(b) - multiset{b[0]};
      SortedUnique(a[1..], b[1..]);
    }
  }

  /** `sorted(s)` is the unique increasing arrangement of s when there is one. */
  lemma SortIsArrangement(s: seq<string>, t: seq<string>)
    requires StrictlySorted(t) && multiset(s) == multiset(t)
    ensures Sort(s) == t
  {
    forall i, j | 0 <= i < j < |t|
      ensures !Less(t[j], t[i])
    {
      LessAsymmetric(t[i], t[j]);
    }
    SortSorted(s);
    SortedUnique(Sort(s), t);
  }

  // ---------------------------------------------------------------------
  // Digit strings

  lemma {:induction false} DigitsAppend(s: string, t: string)
    requires AllDigits(s) && AllDigits(t)
    ensures AllDigits(s + t)
    ensures DigitsValue(s + t) == DigitsValue(s) * Pow10(|t|) + DigitsValue(t)
    decreases |t|
  {
    if |t| == 0 {
      assert s + t == s;
    } else {
      var t' := t[..|t| - 1];
      DigitsAppend(s, t');
      assert (s + t)[..|s + t| - 1] == s + t';
      var v := DigitsValue(s);
      assert v * Pow10(|t'|) * 10 == v * Pow10(|t|);
    }
  }

  lemma {:induction false} DigitsBound(s: string)
    requires AllDigits(s)
    ensures DigitsValue(s) < Pow10(|s|)
    decreases |s|
  {
    if |s| > 0 {
      DigitsBound(s[..|s| - 1]);
    }
  }

  lemma DigitsCons(s: string)
    requires AllDigits(s) && |s| > 0
    ensures DigitsValue(s) == DigitValue(s[0]) * Pow10(|s| - 1) + DigitsValue(s[1..])
    ensures DigitsValue(s[1..]) < Pow10(|s| - 1)
  {
    var h := s[..1];
    assert s == h + s[1..];
    assert h[..0] == [];
    assert DigitsValue(h) == DigitValue(s[0]);
    DigitsAppend(h, s[1..]);
    DigitsBound(s[1..]);
  }

  lemma MulStep(a: int, b: int, p: int)
    requires 0 <= a < b && p >= 0
    ensures a * p + p <= b * p
  {
    var d := b - a;
    assert b * p == a * p + d * p;
    assert (d - 1) * p >= 0;
  }

  /** On digit strings of one length, string order is the order of their values. */
  lemma {:induction false} DigitsLess(a: string, b: string)
    requires AllDigits(a) && AllDigits(b) && |a| == |b|
    ensures Less(a, b) <==> DigitsValue(a) < DigitsValue(b)
    decreases |a|
  {
    if |a| > 0 {
      DigitsCons(a);
      DigitsCons(b);
      var p := Pow10(|a| - 1);
      var x, y := DigitValue(a[0]), DigitValue(b[0]);
      if a[0] == b[0] {
        DigitsLess(a[1..], b[1..]);
      } else if x < y {
        MulStep(x, y, p);
      } else {
        MulStep(y, x, p);
      }
    }
  }

  /** Digit strings of one length with one value are the same string. */
  lemma {:induction false} DigitsInjective(a: string, b: string)
    requires AllDigits(a) && AllDigits(b) && |a| == |b|
    requires DigitsValue(a) == DigitsValue(b)
    ensures a == b
    decreases |a|
  {
    if |a| > 0 {
      var n := |a|;
      DigitsInjective(a[..n - 1], b[..n - 1]);
      assert a == a[..n - 1] + [a[n - 1]] && b == b[..n - 1] + [b[n - 1]];
    }
  }
}
