/**
 * The issue-number and date-string logic of the draw crawler: the ids that
 * `generate_all_issues` and `crawl_issue_range` hand to the downloader, the
 * id accepted at the console prompt, the normalisation of a date found on
 * a draw page, and the day offset used to estimate a draw date.
 *
 * An issue id is `f"{year_part:02d}{issue_num:03d}"`: two digits of the
 * year (03 for 2003) and the draw's number within that year.
 */
module Crawler {
  import opened Common
  import opened StringOrder

  /** Draws per year in the crawler configuration (`YEAR_ISSUES`). */
  const YearIssues: map<int, int> := map[
    2003 := 89, 2004 := 122, 2005 := 153, 2006 := 154, 2007 := 153,
    2008 := 154, 2009 := 154, 2010 := 153, 2011 := 153, 2012 := 154,
    2013 := 154, 2014 := 152, 2015 := 154, 2016 := 153, 2017 := 154,
    2018 := 153, 2019 := 151, 2020 := 134, 2021 := 150, 2022 := 150,
    2023 := 151, 2024 := 151, 2025 := 151, 2026 := 151]

  // ---------------------------------------------------------------------
  // Issue ids

  /** An issue before formatting: the year part and the number within the year. */
  datatype IssueNo = IssueNo(yearPart: int, num: int)

  /** `f"{year_part:02d}{issue_num:03d}"` */
  function IssueId(yearPart: int, num: int): string
  {
    PadInt(yearPart, 2) + PadInt(num, 3)
  }

  /** The five digits of an id read as one number. */
  function Key(p: IssueNo): int
  {
    p.yearPart * 1000 + p.num
  }

  /** Year part and number fit their two and three digits. */
  predicate Fits(p: IssueNo)
  {
    0 <= p.yearPart <= 99 && 0 <= p.num <= 999
  }

  function Ids(ps: seq<IssueNo>): (r: seq<string>)
    ensures |r| == |ps|
  {
    seq(|ps|, i requires 0 <= i < |ps| => IssueId(ps[i].yearPart, ps[i].num))
  }

  lemma IdsSnoc(ps: seq<IssueNo>, p: IssueNo)
    ensures Ids(ps + [p]) == Ids(ps) + [IssueId(p.yearPart, p.num)]
  {
  }

  lemma IdsAppend(a: seq<IssueNo>, b: seq<IssueNo>)
    ensures Ids(a + b) == Ids(a) + Ids(b)
  {
  }

  /** A fitting id is five digits whose value is its key, split as year part and number. */
  lemma IssueIdDigits(p: IssueNo)
    requires Fits(p)
    ensures var id := IssueId(p.yearPart, p.num);
      |id| == 5 && AllDigits(id) && DigitsValue(id) == Key(p) &&
      id[..2] == PadInt(p.yearPart, 2) && id[2..] == PadInt(p.num, 3) &&
      DigitsValue(id[..2]) == p.yearPart && DigitsValue(id[2..]) == p.num
  {
    assert Pow10(2) == 100 && Pow10(3) == 1000;
    NatToStringLength(p.yearPart, 2);
    NatToStringLength(p.num, 3);
    PadIntNat(p.yearPart, 2);
    PadIntNat(p.num, 3);
    var y, n := PadInt(p.yearPart, 2), PadInt(p.num, 3);
    DigitsAppend(y, n);
    assert (y + n)[..2] == y && (y + n)[2..] == n;
  }

  /** Fitting ids compare as strings exactly as their keys compare. */
  lemma IssueIdOrder(p: IssueNo, q: IssueNo)
    requires Fits(p) && Fits(q)
    ensures Less(IssueId(p.yearPart, p.num), IssueId(q.yearPart, q.num)) <==> Key(p) < Key(q)
  {
    IssueIdDigits(p);
    IssueIdDigits(q);
    DigitsLess(IssueId(p.yearPart, p.num), IssueId(q.yearPart, q.num));
  }

  predicate KeysAscending(ps: seq<IssueNo>)
  {
    forall i, j :: 0 <= i < j < |ps| ==> Key(ps[i]) < Key(ps[j])
  }

  lemma AscendingAppend(a: seq<IssueNo>, b: seq<IssueNo>, k: int)
    requires KeysAscending(a) && KeysAscending(b)
    requires forall p :: p in a ==> Key(p) < k
    requires forall p :: p in b ==> Key(p) >= k
    ensures KeysAscending(a + b)
  {
    var ab := a + b;
    forall i, j | 0 <= i < j < |ab|
      ensures Key(ab[i]) < Key(ab[j])
    {
      if j >= |a| && i < |a| {
        assert ab[i] in a && ab[j] in b;
      } else if i >= |a| {
        assert ab[i] == b[i - |a|] && ab[j] == b[j - |a|];
      }
    }
  }

  /** Ids of fitting issues in ascending key order are in ascending string order. */
  lemma IdsSorted(ps: seq<IssueNo>)
    requires KeysAscending(ps) && forall p :: p in ps ==> Fits(p)
    ensures StrictlySorted(Ids(ps))
  {
    var ids := Ids(ps);
    forall i, j | 0 <= i < j < |ids|
      ensures Less(ids[i], ids[j])
    {
      assert ps[i] in ps && ps[j] in ps;
      IssueIdOrder(ps[i], ps[j]);
    }
  }

  /** `range(lo, hi + 1)` of numbers within one year. */
  function YearRun(yearPart: int, lo: int, hi: int): (r: seq<IssueNo>)
    ensures |r| == if hi >= lo then hi - lo + 1 else 0
  {
    seq(if hi >= lo then hi - lo + 1 else 0, i => IssueNo(yearPart, lo + i))
  }

  lemma YearRunMembers(yearPart: int, lo: int, hi: int)
    ensures forall p :: p in YearRun(yearPart, lo, hi) <==> p.yearPart == yearPart && lo <= p.num <= hi
    ensures KeysAscending(YearRun(yearPart, lo, hi))
  {
    var r := YearRun(yearPart, lo, hi);
    forall p: IssueNo | p.yearPart == yearPart && lo <= p.num <= hi
      ensures p in r
    {
      assert r[p.num - lo] == p;
    }
  }

  lemma YearRunSnoc(yearPart: int, lo: int, hi: int)
    requires hi >= lo
    ensures YearRun(yearPart, lo, hi) == YearRun(yearPart, lo, hi - 1) + [IssueNo(yearPart, hi)]
  {
  }

  lemma ConcatAssoc(a: seq<string>, b: seq<string>, c: seq<string>)
    ensures (a + b) + c == a + (b + c)
  {
  }

  /** `issues.append(f"{year_part:02d}{n:03d}")` for n in `range(first, last + 1)`. */
  method AppendYear(issues: seq<string>, yearPart: int, first: int, last: int) returns (r: seq<string>)
    ensures r == issues + Ids(YearRun(yearPart, first, last))
  {
    r := issues;
    var n := first;
    while n < last + 1
      invariant first <= n <= Max(first, last + 1)
      invariant r == issues + Ids(YearRun(yearPart, first, n - 1))
    {
      YearRunSnoc(yearPart, first, n);
      IdsSnoc(YearRun(yearPart, first, n - 1), IssueNo(yearPart, n));
      r := r + [IssueId(yearPart, n)];
      n := n + 1;
    }
    assert YearRun(yearPart, first, n - 1) == YearRun(yearPart, first, last);
  }

  // ---------------------------------------------------------------------
  // generate_all_issues

  /**
   * The 2026 ids `range(1, latest_num + 1)` when the latest id starts with
   * "26"; None when its number part is not an integer (ValueError).
   */
  function LatestRun(latest: string): Option<seq<IssueNo>>
  {
    if |latest| >= 2 && latest[0] == '2' && latest[1] == '6' then
      match PyInt(latest[2..])
      case None => None
      case Some(k) => Some(YearRun(26, 1, k))
    else Some([])
  }

  /** Years lo..hi-1 of the table, each with numbers 1..`year_issues.get(year, 0)`. */
  function TableRun(table: map<int, int>, lo: int, hi: int): seq<IssueNo>
    decreases hi - lo
  {
    if hi <= lo then [] else TableRun(table, lo, hi - 1) + YearRun((hi - 1) % 100, 1, Get(table, hi - 1))
  }

  /**
   * `generate_all_issues()` for the crawler's table and a given latest id:
   * the 2026 ids, then the ids of 2003..2025, the whole list sorted as
   * strings.
   */
  function AllIssues(table: map<int, int>, latest: string): Option<seq<string>>
  {
    match LatestRun(latest)
    case None => None
    case Some(run) => Some(Sort(Ids(run) + Ids(TableRun(table, 2003, 2026))))
  }

  /** The table years give exactly the numbers 1..count of each year 2003..hi-1. */
  lemma {:induction false} TableRunMembers(table: map<int, int>, hi: int)
    requires 2003 <= hi <= 2026
    ensures forall p :: p in TableRun(table, 2003, hi) <==>
      3 <= p.yearPart < hi - 2000 && 1 <= p.num <= Get(table, 2000 + p.yearPart)
    decreases hi
  {
    if hi > 2003 {
      TableRunMembers(table, hi - 1);
      var y := (hi - 1) % 100;
      assert y == hi - 1 - 2000;
      YearRunMembers(y, 1, Get(table, hi - 1));
    }
  }

  /** With at most 999 draws a year, the table ids ascend year after year. */
  lemma {:induction false} TableRunAscending(table: map<int, int>, hi: int)
    requires 2003 <= hi <= 2026
    requires forall y :: Get(table, y) <= 999
    ensures KeysAscending(TableRun(table, 2003, hi))
    ensures forall p :: p in TableRun(table, 2003, hi) ==> Fits(p) && Key(p) < (hi - 2000) * 1000
    decreases hi
  {
    if hi > 2003 {
      TableRunAscending(table, hi - 1);
      var y := (hi - 1) % 100;
      assert y == hi - 1 - 2000;
      var k := Get(table, hi - 1);
      YearRunMembers(y, 1, k);
      AscendingAppend(TableRun(table, 2003, hi - 1), YearRun(y, 1, k), y * 1000);
    }
  }

  /**
   * While the latest 2026 number fits three digits, `issues.sort()` leaves
   * the years in order, 2003 first and 2026 last, and the list is strictly
   * increasing, so no id appears twice.
   */
  lemma AllIssuesOrder(table: map<int, int>, latest: string)
    requires forall y :: Get(table, y) <= 999
    requires LatestRun(latest).Some? && |LatestRun(latest).value| <= 999
    ensures AllIssues(table, latest) == Some(Ids(TableRun(table, 2003, 2026) + LatestRun(latest).value))
    ensures StrictlySorted(AllIssues(table, latest).value)
  {
    var run := LatestRun(latest).value;
    var t := TableRun(table, 2003, 2026);
    TableRunAscending(table, 2026);
    if |latest| >= 2 && latest[0] == '2' && latest[1] == '6' {
      var k := PyInt(latest[2..]).value;
      assert run == YearRun(26, 1, k);
      YearRunMembers(26, 1, k);
      forall p | p in run
        ensures Fits(p) && Key(p) >= 26000
      {
        assert p.yearPart == 26 && 1 <= p.num <= k;
        assert k <= 999;
      }
    }
    AscendingAppend(t, run, 26000);
    IdsSorted(t + run);
    IdsAppend(t, run);
    assert multiset(Ids(run) + Ids(t)) == multiset(Ids(t) + Ids(run));
    SortIsArrangement(Ids(run) + Ids(t), Ids(t + run));
  }

  /** `generate_all_issues` as the source builds it: one loop per year, then a sort. */
  method GenerateAllIssues(table: map<int, int>, latest: string) returns (r: Option<seq<string>>)
    ensures r == AllIssues(table, latest)
  {
    var issues: seq<string> := [];
    ghost var head: seq<IssueNo> := [];
    if |latest| >= 2 && latest[0] == '2' && latest[1] == '6' {
      var parsed := PyInt(latest[2..]);
      if parsed.None? {
        return None;
      }
      issues := AppendYear(issues, 26, 1, parsed.value);
      head := YearRun(26, 1, parsed.value);
    }
    assert LatestRun(latest) == Some(head) && issues == Ids(head);
    var year := 2003;
    while year < 2026
      invariant 2003 <= year <= 2026
      invariant issues == Ids(head) + Ids(TableRun(table, 2003, year))
    {
      var maxIssue := Get(table, year);
      ghost var done := TableRun(table, 2003, year);
      ghost var next := YearRun(year % 100, 1, maxIssue);
      ghost var prev := issues;
      if maxIssue > 0 {
        issues := AppendYear(issues, year % 100, 1, maxIssue);
      } else {
        assert next == [];
      }
      assert issues == prev + Ids(next);
      IdsAppend(done, next);
      ConcatAssoc(Ids(head), Ids(done), Ids(next));
      assert TableRun(table, 2003, year + 1) == done + next;
      year := year + 1;
    }
    r := Some(Sort(issues));
  }

  // ---------------------------------------------------------------------
  // crawl_issue_range

  datatype RangeOutcome =
    | Rejected                  // a guard failed or a part was not an integer: []
    | Issues(ids: seq<string>)  // the ids handed to the downloader
    | EmptyRangeError           // `all_issues[0]` on an empty list (IndexError)

  /**
   * The guards of `crawl_issue_range` and the swap of reversed bounds: both
   * ids five characters, every part an integer, year parts at least 3 and
   * numbers at least 1; the ids swap when start > end as strings.
   */
  function RangeBounds(start: string, end: string): Option<(IssueNo, IssueNo)>
  {
    if |start| != 5 || |end| != 5 then None
    else
      match (PyInt(start[..2]), PyInt(start[2..]), PyInt(end[..2]), PyInt(end[2..]))
      case (Some(sy), Some(sn), Some(ey), Some(en)) =>
        if sy < 3 || ey < 3 then None
        else if sn < 1 || en < 1 then None
        else if Less(end, start) then Some((IssueNo(ey, en), IssueNo(sy, sn)))
        else Some((IssueNo(sy, sn), IssueNo(ey, en)))
      case _ => None
  }

  /**
   * `year_issues.get(full_year, 154)` for a year part. As written the
   * century is 2000 only when the year part exceeds 23; corrected, it is
   * 2000 for every year part.
   */
  function YearLimit(table: map<int, int>, yearPart: int, corrected: bool): int
  {
    var fullYear := if corrected || yearPart > 23 then 2000 + yearPart else 1900 + yearPart;
    if fullYear in table then table[fullYear] else 154
  }

  /** The first and last number generated for year part yp of a cross-year range. */
  function SpanBounds(table: map<int, int>, lo: IssueNo, hi: IssueNo, yp: int, corrected: bool): (int, int)
  {
    if yp == lo.yearPart then (lo.num, YearLimit(table, yp, corrected))
    else if yp == hi.yearPart then (1, hi.num)
    else (1, YearLimit(table, yp, corrected))
  }

  function YearSpan(table: map<int, int>, lo: IssueNo, hi: IssueNo, yp: int, corrected: bool): seq<IssueNo>
  {
    var b := SpanBounds(table, lo, hi, yp, corrected);
    YearRun(yp, b.0, b.1)
  }

  /** The cross-year ids of year parts lo.yearPart..upTo-1. */
  function Spans(table: map<int, int>, lo: IssueNo, hi: IssueNo, upTo: int, corrected: bool): seq<IssueNo>
    decreases upTo - lo.yearPart
  {
    if upTo <= lo.yearPart then []
    else Spans(table, lo, hi, upTo - 1, corrected) + YearSpan(table, lo, hi, upTo - 1, corrected)
  }

  /** The generated issues: one year's numbers, or the years lo..hi. */
  function RangeRun(table: map<int, int>, lo: IssueNo, hi: IssueNo, corrected: bool): seq<IssueNo>
  {
    if lo.yearPart == hi.yearPart then YearRun(lo.yearPart, lo.num, hi.num)
    else Spans(table, lo, hi, hi.yearPart + 1, corrected)
  }

  function RangeWith(table: map<int, int>, start: string, end: string, corrected: bool): RangeOutcome
  {
    match RangeBounds(start, end)
    case None => Rejected
    case Some((lo, hi)) =>
      var run := RangeRun(table, lo, hi, corrected);
      if |run| == 0 then EmptyRangeError else Issues(Ids(run))
  }

  /** `crawl_issue_range(start, end)` as written. */
  function IssueRangeAsWritten(table: map<int, int>, start: string, end: string): RangeOutcome
  {
    RangeWith(table, start, end, false)
  }

  /** `crawl_issue_range(start, end)` with the century corrected. */
  function IssueRange(table: map<int, int>, start: string, end: string): RangeOutcome
  {
    RangeWith(table, start, end, true)
  }

  /** Swapping the two ids changes nothing. */
  lemma RangeSymmetric(table: map<int, int>, a: string, b: string, corrected: bool)
    ensures RangeBounds(a, b) == RangeBounds(b, a)
    ensures RangeWith(table, a, b, corrected) == RangeWith(table, b, a, corrected)
  {
    LessTotal(a, b);
    if Less(a, b) {
      LessAsymmetric(a, b);
    }
  }

  /** The configured table: 2003 had 89 draws, and no year of the 1900s is listed. */
  lemma ConfiguredTable()
    ensures YearIssues[2003] == 89
    ensures forall y :: 1900 <= y < 2000 ==> y !in YearIssues
  {
  }

  /** The ids of the cross-year example. */
  lemma ExampleIds()
    ensures IssueId(3, 88) == "03088" && IssueId(4, 2) == "04002" && IssueId(3, 90) == "03090"
  {
  }

  /**
   * As written, a crawler whose table lists no 1900s year, asked for
   * 03088..04002, generates 03090 (with the configured table, a 2003 draw
   * past the 89th, which does not exist).
   */
  lemma CrossYearOvershoot(table: map<int, int>)
    requires 1903 !in table
    ensures IssueRangeAsWritten(table, "03088", "04002").Issues?
    ensures "03090" in IssueRangeAsWritten(table, "03088", "04002").ids
  {
    var lo, hi := IssueNo(3, 88), IssueNo(4, 2);
    ExampleIds();
    BoundsOfIds(lo, hi);
    assert YearLimit(table, 3, false) == 154;
    assert Spans(table, lo, hi, 3, false) == [];
    assert Spans(table, lo, hi, 4, false) == YearRun(3, 88, 154);
    var run := RangeRun(table, lo, hi, false);
    assert run == YearRun(3, 88, 154) + YearRun(4, 1, 2);
    assert run[2] == IssueNo(3, 90);
    assert Ids(run)[2] == IssueId(3, 90);
  }

  /** Corrected, the same range is the last two draws of 2003 and the first two of 2004. */
  lemma CrossYearCorrected(table: map<int, int>)
    requires 2003 in table && table[2003] == 89
    ensures IssueRange(table, "03088", "04002") ==
      Issues(Ids(YearRun(3, 88, 89) + YearRun(4, 1, 2)))
  {
    var lo, hi := IssueNo(3, 88), IssueNo(4, 2);
    ExampleIds();
    BoundsOfIds(lo, hi);
    assert YearLimit(table, 3, true) == 89;
    assert Spans(table, lo, hi, 3, true) == [];
    assert Spans(table, lo, hi, 4, true) == YearRun(3, 88, 89);
    var run := RangeRun(table, lo, hi, true);
    assert run == YearRun(3, 88, 89) + YearRun(4, 1, 2);
  }

  /** The guards read two fitting ids back as their parts, the earlier one first. */
  lemma BoundsOfIds(lo: IssueNo, hi: IssueNo)
    requires Fits(lo) && Fits(hi) && lo.yearPart >= 3 && hi.yearPart >= 3 && lo.num >= 1 && hi.num >= 1
    requires Key(lo) <= Key(hi)
    ensures RangeBounds(IssueId(lo.yearPart, lo.num), IssueId(hi.yearPart, hi.num)) == Some((lo, hi))
  {
    IssueIdDigits(lo);
    IssueIdDigits(hi);
    var a, b := IssueId(lo.yearPart, lo.num), IssueId(hi.yearPart, hi.num);
    IssueOfFacts(a);
    IssueOfFacts(b);
    IssueIdOrder(hi, lo);
  }

  /**
   * With the century corrected, no year before the last is asked for more
   * draws than the table gives it.
   */
  lemma {:induction false} SpansWithinYears(table: map<int, int>, lo: IssueNo, hi: IssueNo, upTo: int)
    ensures forall p :: p in Spans(table, lo, hi, upTo, true) && p.yearPart != hi.yearPart ==>
      p.num <= YearLimit(table, p.yearPart, true)
    decreases upTo - lo.yearPart
  {
    if upTo > lo.yearPart {
      SpansWithinYears(table, lo, hi, upTo - 1);
      var b := SpanBounds(table, lo, hi, upTo - 1, true);
      YearRunMembers(upTo - 1, b.0, b.1);
    }
  }

  lemma RangeWithinYears(table: map<int, int>, start: string, end: string)
    requires RangeBounds(start, end).Some?
    ensures var (lo, hi) := RangeBounds(start, end).value;
      forall p :: p in RangeRun(table, lo, hi, true) && p.yearPart != hi.yearPart && 2000 + p.yearPart in table ==>
        p.num <= table[2000 + p.yearPart]
  {
    var (lo, hi) := RangeBounds(start, end).value;
    if lo.yearPart != hi.yearPart {
      SpansWithinYears(table, lo, hi, hi.yearPart + 1);
    }
  }

  /** Where every year part before upTo gets the same count both ways, the spans agree. */
  lemma {:induction false} SpansAgree(table: map<int, int>, lo: IssueNo, hi: IssueNo, upTo: int)
    requires forall yp :: lo.yearPart <= yp < upTo ==> YearLimit(table, yp, false) == YearLimit(table, yp, true)
    ensures Spans(table, lo, hi, upTo, false) == Spans(table, lo, hi, upTo, true)
    decreases upTo - lo.yearPart
  {
    if upTo > lo.yearPart {
      SpansAgree(table, lo, hi, upTo - 1);
      assert YearLimit(table, upTo - 1, false) == YearLimit(table, upTo - 1, true);
    }
  }

  /**
   * The corrected range is the range as written whenever the two ids share
   * a year, or every year part of the range exceeds 23 (where the century
   * was already 2000).
   */
  lemma RangeAgrees(table: map<int, int>, a: string, b: string)
    requires RangeBounds(a, b).Some?
    requires var (lo, hi) := RangeBounds(a, b).value; lo.yearPart == hi.yearPart || lo.yearPart > 23
    ensures IssueRange(table, a, b) == IssueRangeAsWritten(table, a, b)
  {
    var (lo, hi) := RangeBounds(a, b).value;
    if lo.yearPart != hi.yearPart {
      SpansAgree(table, lo, hi, hi.yearPart + 1);
    }
  }

  /** `crawl_issue_range` as the source builds it: a loop over the years, each with a loop over its numbers. */
  method CrawlIssueRange(table: map<int, int>, start: string, end: string) returns (r: RangeOutcome)
    ensures r == IssueRange(table, start, end)
  {
    var bounds := RangeBounds(start, end);
    if bounds.None? {
      return Rejected;
    }
    var (lo, hi) := bounds.value;
    var issues := GenerateRange(table, lo, hi);
    if |issues| == 0 {
      return EmptyRangeError;
    }
    r := Issues(issues);
  }

  /** The id list of `crawl_issue_range` between parsed bounds, year by year. */
  method GenerateRange(table: map<int, int>, lo: IssueNo, hi: IssueNo) returns (issues: seq<string>)
    ensures issues == Ids(RangeRun(table, lo, hi, true))
  {
    issues := [];
    if lo.yearPart == hi.yearPart {
      issues := AppendYear(issues, lo.yearPart, lo.num, hi.num);
    } else {
      var yp := lo.yearPart;
      while yp < hi.yearPart + 1
        invariant lo.yearPart <= yp <= Max(lo.yearPart, hi.yearPart + 1)
        invariant issues == Ids(Spans(table, lo, hi, yp, true))
      {
        var b := SpanBounds(table, lo, hi, yp, true);
        IdsAppend(Spans(table, lo, hi, yp, true), YearSpan(table, lo, hi, yp, true));
        issues := AppendYear(issues, yp, b.0, b.1);
        yp := yp + 1;
      }
    }
  }

  // ---------------------------------------------------------------------
  // Ranges between digit ids

  /** A five-digit id as year part and number. */
  function IssueOf(id: string): (p: IssueNo)
    requires |id| == 5 && AllDigits(id)
    ensures Fits(p)
  {
    DigitsBound(id[..2]);
    DigitsBound(id[2..]);
    assert Pow10(2) == 100 && Pow10(3) == 1000;
    IssueNo(DigitsValue(id[..2]), DigitsValue(id[2..]))
  }

  /** A five-digit id parses to its two parts, formats back to itself, and its value is its key. */
  lemma IssueOfFacts(id: string)
    requires |id| == 5 && AllDigits(id)
    ensures PyInt(id[..2]) == Some(IssueOf(id).yearPart) && PyInt(id[2..]) == Some(IssueOf(id).num)
    ensures IssueId(IssueOf(id).yearPart, IssueOf(id).num) == id
    ensures DigitsValue(id) == Key(IssueOf(id))
  {
    var p := IssueOf(id);
    assert id == id[..2] + id[2..];
    DigitsAppend(id[..2], id[2..]);
    assert Pow10(3) == 1000;
    IssueIdDigits(p);
    var f := IssueId(p.yearPart, p.num);
    DigitsInjective(f, id);
  }

  /**
   * Between two five-digit ids the range is refused exactly when a year
   * part is below 3 or a number is 0.
   */
  lemma DigitRangeRefused(table: map<int, int>, a: string, b: string)
    requires |a| == 5 && AllDigits(a) && |b| == 5 && AllDigits(b)
    ensures IssueRange(table, a, b).Rejected? <==>
      IssueOf(a).yearPart < 3 || IssueOf(b).yearPart < 3 || IssueOf(a).num == 0 || IssueOf(b).num == 0
  {
    IssueOfFacts(a);
    IssueOfFacts(b);
  }

  /**
   * Otherwise it never raises, and the ids run in increasing order without
   * duplicates up to the later of the two ids.
   */
  lemma DigitRangeOrder(table: map<int, int>, a: string, b: string)
    requires |a| == 5 && AllDigits(a) && |b| == 5 && AllDigits(b)
    requires forall y :: Get(table, y) <= 999
    requires RangeBounds(a, b).Some?
    ensures IssueRange(table, a, b).Issues?
    ensures var ids := IssueRange(table, a, b).ids;
      |ids| > 0 && StrictlySorted(ids) && ids[|ids| - 1] == (if Less(a, b) then b else a)
  {
    DigitBounds(a, b);
    var (lo, hi) := RangeBounds(a, b).value;
    var run := RangeRun(table, lo, hi, true);
    RangeRunFacts(table, lo, hi);
    IdsSorted(run);
  }

  /** Guards passed, the bounds are the two ids' parts, the earlier id first. */
  lemma DigitBounds(a: string, b: string)
    requires |a| == 5 && AllDigits(a) && |b| == 5 && AllDigits(b)
    requires RangeBounds(a, b).Some?
    ensures var (lo, hi) := RangeBounds(a, b).value;
      Fits(lo) && Fits(hi) && Key(lo) <= Key(hi) && lo.num >= 1 && hi.num >= 1 &&
      hi == IssueOf(if Less(a, b) then b else a) &&
      IssueId(hi.yearPart, hi.num) == (if Less(a, b) then b else a)
  {
    IssueOfFacts(a);
    IssueOfFacts(b);
    DigitsLess(a, b);
    DigitsLess(b, a);
  }

  /** The generated issues fit five digits, ascend, and end at hi. */
  lemma RangeRunFacts(table: map<int, int>, lo: IssueNo, hi: IssueNo)
    requires forall y :: Get(table, y) <= 999
    requires Fits(lo) && Fits(hi) && lo.num >= 1 && hi.num >= 1 && Key(lo) <= Key(hi)
    ensures var run := RangeRun(table, lo, hi, true);
      |run| > 0 && run[|run| - 1] == hi && KeysAscending(run) && forall p :: p in run ==> Fits(p)
  {
    if lo.yearPart == hi.yearPart {
      YearRunMembers(lo.yearPart, lo.num, hi.num);
    } else {
      SpansAscending(table, lo, hi, hi.yearPart + 1);
    }
  }

  lemma {:induction false} SpansAscending(table: map<int, int>, lo: IssueNo, hi: IssueNo, upTo: int)
    requires forall y :: Get(table, y) <= 999
    requires Fits(lo) && Fits(hi) && lo.yearPart < hi.yearPart && upTo <= hi.yearPart + 1
    ensures var s := Spans(table, lo, hi, upTo, true);
      KeysAscending(s) && forall p :: p in s ==> Fits(p) && p.yearPart < upTo
    decreases upTo - lo.yearPart
  {
    if upTo > lo.yearPart {
      SpansAscending(table, lo, hi, upTo - 1);
      var b := SpanBounds(table, lo, hi, upTo - 1, true);
      assert b.1 <= 999 by {
        assert YearLimit(table, upTo - 1, true) <= Max(154, Get(table, 2000 + upTo - 1));
      }
      YearRunMembers(upTo - 1, b.0, b.1);
      AscendingAppend(Spans(table, lo, hi, upTo - 1, true), YearSpan(table, lo, hi, upTo - 1, true), (upTo - 1) * 1000);
    }
  }

  // ---------------------------------------------------------------------
  // get_issue_input

  /**
   * One answer at the `get_issue_input` prompt: the stripped text when it
   * is five digits with year part 3..99 and number 1..154.
   */
  function AcceptedIssue(line: string): Option<string>
  {
    var issue := Strip(line);
    if |issue| == 5 && AllDigits(issue) then
      var yearPart := DigitsValue(issue[..2]);
      var num := DigitsValue(issue[2..]);
      if 3 <= yearPart <= 99 && 1 <= num <= 154 then Some(issue) else None
    else None
  }

  lemma StripUnchanged(s: string)
    requires |s| > 0 && !IsSpace(s[0]) && !IsSpace(s[|s| - 1])
    ensures Strip(s) == s
  {
  }

  /** The accepted answers are exactly the ids of year parts 3..99 and numbers 1..154. */
  lemma AcceptedIssueIff(line: string)
    ensures AcceptedIssue(line).Some? <==>
      exists y, n :: 3 <= y <= 99 && 1 <= n <= 154 && Strip(line) == IssueId(y, n)
    ensures AcceptedIssue(line).Some? ==> AcceptedIssue(line).value == Strip(line)
  {
    var issue := Strip(line);
    if AcceptedIssue(line).Some? {
      IssueOfFacts(issue);
      var p := IssueOf(issue);
      assert 3 <= p.yearPart <= 99 && 1 <= p.num <= 154 && issue == IssueId(p.yearPart, p.num);
    }
    if exists y, n :: 3 <= y <= 99 && 1 <= n <= 154 && issue == IssueId(y, n) {
      var y, n :| 3 <= y <= 99 && 1 <= n <= 154 && issue == IssueId(y, n);
      IssueIdDigits(IssueNo(y, n));
    }
  }

  /** An id accepted at the prompt is accepted by the range guards, and gives itself alone. */
  lemma AcceptedIssueRange(id: string)
    requires AcceptedIssue(id) == Some(id)
    ensures forall table :: IssueRange(table, id, id) == Issues([id])
  {
    IssueOfFacts(id);
    LessIrreflexive(id);
    var p := IssueOf(id);
    assert YearRun(p.yearPart, p.num, p.num) == [p];
  }

  // ---------------------------------------------------------------------
  // _parse_date_string

  /** A date pattern: `(\d{4})<yearSep>(\d{1,2})<monthSep>(\d{1,2})` and an optional closing character. */
  datatype DateForm = DateForm(yearSep: char, monthSep: char, close: Option<char>)

  /** `(\d{4})年(\d{1,2})月(\d{1,2})日` */
  const Chinese := DateForm('年', '月', Some('日'))

  /** `(\d{4})-(\d{1,2})-(\d{1,2})` */
  const Standard := DateForm('-', '-', None)

  datatype DateGroups = DateGroups(year: string, month: string, day: string)

  /** The rest of the pattern after a group: the closing character at q, or nothing. */
  predicate Follows(s: string, q: int, next: Option<char>)
  {
    next.None? || (0 <= q < |s| && s[q] == next.value)
  }

  /**
   * The length of `(\d{1,2})` at q when the rest of the pattern follows:
   * two digits when that works, else one (the regex backtracks), 0 when
   * neither matches.
   */
  function GroupAt(s: string, q: nat, next: Option<char>): (r: nat)
    ensures r <= 2
    ensures r > 0 ==> q + r <= |s| && AllDigits(s[q..q + r]) && Follows(s, q + r, next)
  {
    if q + 2 <= |s| && IsDigit(s[q]) && IsDigit(s[q + 1]) && Follows(s, q + 2, next) then 2
    else if q + 1 <= |s| && IsDigit(s[q]) && Follows(s, q + 1, next) then 1
    else 0
  }

  /** The match of form f starting exactly at p, as its three groups. */
  function MatchAt(s: string, p: nat, f: DateForm): (r: Option<DateGroups>)
    ensures r.Some? ==> (|r.value.year| == 4 && AllDigits(r.value.year) &&
      1 <= |r.value.month| <= 2 && AllDigits(r.value.month) &&
      1 <= |r.value.day| <= 2 && AllDigits(r.value.day))
  {
    if p + 5 <= |s| && AllDigits(s[p..p + 4]) && s[p + 4] == f.yearSep then
      var m := GroupAt(s, p + 5, Some(f.monthSep));
      if m == 0 then None
      else
        var q := p + 5 + m + 1;
        var d := GroupAt(s, q, f.close);
        if d == 0 then None
        else Some(DateGroups(s[p..p + 4], s[p + 5..p + 5 + m], s[q..q + d]))
    else None
  }

  /** `re.search`: the match at the leftmost position from p on. */
  function Search(s: string, p: nat, f: DateForm): Option<DateGroups>
    decreases |s| - p
  {
    if p >= |s| then None
    else if MatchAt(s, p, f).Some? then MatchAt(s, p, f)
    else Search(s, p + 1, f)
  }

  /** The search finds the leftmost match, and finds none only when no position matches. */
  lemma {:induction false} SearchLeftmost(s: string, p: nat, f: DateForm)
    ensures Search(s, p, f).Some? ==> exists q :: (p <= q < |s| && Search(s, p, f) == MatchAt(s, q, f) &&
      forall q' :: p <= q' < q ==> MatchAt(s, q', f).None?)
    ensures Search(s, p, f).None? ==> forall q: nat :: p <= q ==> MatchAt(s, q, f).None?
    decreases |s| - p
  {
    if p < |s| && MatchAt(s, p, f).None? {
      SearchLeftmost(s, p + 1, f);
      if Search(s, p, f).Some? {
        var q :| p + 1 <= q < |s| && Search(s, p + 1, f) == MatchAt(s, q, f) &&
          forall q' :: p + 1 <= q' < q ==> MatchAt(s, q', f).None?;
        assert p <= q < |s| && Search(s, p, f) == MatchAt(s, q, f);
      }
    }
  }

  /** `str.zfill(2)` on a group of one or two digits. */
  function ZFill2(x: string): string
  {
    if |x| >= 2 then x else Zeros(2 - |x|) + x
  }

  function Normalize(g: DateGroups): string
  {
    g.year + "-" + ZFill2(g.month) + "-" + ZFill2(g.day)
  }

  /**
   * `_parse_date_string`: the first "Y年M月D日" match, or else the first
   * "Y-M-D" match, as "YYYY-MM-DD"; None when neither occurs.
   */
  function ParseDateString(raw: string): Option<string>
  {
    var s := Strip(raw);
    match Search(s, 0, Chinese)
    case Some(g) => Some(Normalize(g))
    case None =>
      match Search(s, 0, Standard)
      case Some(g) => Some(Normalize(g))
      case None => None
  }

  /** "YYYY-MM-DD" */
  predicate IsoDate(t: string)
  {
    |t| == 10 && AllDigits(t[..4]) && t[4] == '-' && AllDigits(t[5..7]) && t[7] == '-' && AllDigits(t[8..])
  }

  lemma NormalizeIso(g: DateGroups)
    requires |g.year| == 4 && AllDigits(g.year)
    requires 1 <= |g.month| <= 2 && AllDigits(g.month) && 1 <= |g.day| <= 2 && AllDigits(g.day)
    ensures IsoDate(Normalize(g))
  {
    var t := Normalize(g);
    var m, d := ZFill2(g.month), ZFill2(g.day);
    assert t[..4] == g.year && t[5..7] == m && t[8..] == d;
  }

  /** Every parsed date has the "YYYY-MM-DD" shape. */
  lemma ParseDateShape(raw: string)
    ensures ParseDateString(raw).Some? ==> IsoDate(ParseDateString(raw).value)
  {
    var s := Strip(raw);
    if Search(s, 0, Chinese).Some? {
      SearchLeftmost(s, 0, Chinese);
      NormalizeIso(Search(s, 0, Chinese).value);
    } else if Search(s, 0, Standard).Some? {
      SearchLeftmost(s, 0, Standard);
      NormalizeIso(Search(s, 0, Standard).value);
    }
  }

  /** A "YYYY-MM-DD" date is read back as itself. */
  lemma ParseIsoDate(t: string)
    requires IsoDate(t)
    ensures ParseDateString(t) == Some(t)
  {
    assert forall i :: 0 <= i < 4 ==> t[..4][i] == t[i];
    assert forall i :: 5 <= i < 7 ==> t[5..7][i - 5] == t[i];
    assert forall i :: 8 <= i < 10 ==> t[8..][i - 8] == t[i];
    assert forall i :: 0 <= i < 10 ==> IsDigit(t[i]) || t[i] == '-';
    StripUnchanged(t);
    forall q: nat | 0 <= q
      ensures MatchAt(t, q, Chinese).None?
    {
      if q + 5 <= |t| {
        assert t[q + 4] != '年';
      }
    }
    SearchLeftmost(t, 0, Chinese);
    var g := DateGroups(t[..4], t[5..7], t[8..]);
    assert GroupAt(t, 5, Some('-')) == 2;
    assert GroupAt(t, 8, None) == 2;
    assert t[0..4] == t[..4] && t[8..10] == t[8..];
    assert MatchAt(t, 0, Standard) == Some(g);
    assert Normalize(g) == t;
  }

  /** Normalising twice gives what normalising once gives. */
  lemma ParseDateIdempotent(raw: string)
    requires ParseDateString(raw).Some?
    ensures ParseDateString(ParseDateString(raw).value) == ParseDateString(raw)
  {
    ParseDateShape(raw);
    ParseIsoDate(ParseDateString(raw).value);
  }

  /** "Y年M月D日" with one- or two-digit month and day is zero-padded into "YYYY-MM-DD". */
  lemma ParseChineseDate(y: string, m: string, d: string)
    requires |y| == 4 && AllDigits(y) && 1 <= |m| <= 2 && AllDigits(m) && 1 <= |d| <= 2 && AllDigits(d)
    ensures ParseDateString(y + "年" + m + "月" + d + "日") == Some(y + "-" + ZFill2(m) + "-" + ZFill2(d))
  {
    var s := y + "年" + m + "月" + d + "日";
    StripUnchanged(s);
    ChineseMatch(y, m, d);
  }

  lemma ChineseMatch(y: string, m: string, d: string)
    requires |y| == 4 && AllDigits(y) && 1 <= |m| <= 2 && AllDigits(m) && 1 <= |d| <= 2 && AllDigits(d)
    ensures MatchAt(y + "年" + m + "月" + d + "日", 0, Chinese) == Some(DateGroups(y, m, d))
  {
    var s := y + "年" + m + "月" + d + "日";
    assert s[0..4] == y && s[4] == '年';
    assert s[5..5 + |m|] == m && s[5 + |m|] == '月';
    var q := 5 + |m| + 1;
    assert s[q..q + |d|] == d && s[q + |d|] == '日';
  }

  // ---------------------------------------------------------------------
  // _estimate_date_from_issue

  /**
   * Days from a year's first draw to draw n: `(n - 1) // 3` whole weeks and
   * 0, 2 or 5 more days (Tuesday, Thursday, Sunday). Python's `//` and `%`
   * floor, which is what `/` and `%` do here for the divisor 3.
   */
  function DayOffset(n: int): int
  {
    var k := n - 1;
    (k / 3) * 7 + [0, 2, 5][k % 3]
  }

  /** The schedule repeats weekly, the first draw is day 0, and consecutive draws are 2 or 3 days apart. */
  lemma DayOffsetSchedule(n: int)
    ensures DayOffset(1) == 0
    ensures DayOffset(n + 3) == DayOffset(n) + 7
    ensures DayOffset(n + 1) - DayOffset(n) == if (n - 1) % 3 == 1 then 3 else 2
    ensures DayOffset(n) % 7 == [0, 2, 5][(n - 1) % 3]
  {
  }

  /** Later draws fall on later days. */
  lemma {:induction false} DayOffsetIncreasing(m: int, n: int)
    requires m < n
    ensures DayOffset(m) < DayOffset(n)
    decreases n - m
  {
    DayOffsetSchedule(n - 1);
    if m < n - 1 {
      DayOffsetIncreasing(m, n - 1);
    }
  }
}
