/**
 * The standalone validators of the utilities package: red balls, blue
 * ball, issue number, date, a whole draw record, a prediction result, a
 * configuration, a phone number and a numeric range. Each runs its checks
 * in a fixed order and reports the first that fails; the human-readable
 * message is modelled by a `Why` value carrying what the message
 * interpolates.
 */
module Validation {
  import opened Common

  /** The Python values the validators are handed. `bool` is a subclass of `int`. */
  datatype PyValue =
    | PNone
    | PBool(b: bool)
    | PInt(i: int)
    | PFloat(f: real)
    | PStr(s: string)
    | PList(items: seq<PyValue>)
    | PDict(entries: map<string, PyValue>)

  /** `isinstance(v, int)`, which holds for `True` and `False` too. */
  predicate IsInt(v: PyValue)
  {
    v.PInt? || v.PBool?
  }

  /** The integer value of an int or a bool (`True == 1`). */
  function IntOf(v: PyValue): int
    requires IsInt(v)
  {
    if v.PBool? then (if v.b then 1 else 0) else v.i
  }

  /** Why a check failed. */
  datatype Why =
    | NotAList
    | RedCount(count: int)
    | RedNotInt(value: PyValue)
    | RedOutOfRange(ball: int)
    | RedRepeated
    | RedNotAscending
    | BlueNotInt(value: PyValue)
    | BlueOutOfRange(ball: int)
    | IssueNotString
    | IssueFormat
    | IssueYear(year: int)
    | IssueSequence(sequence: int)
    | DateFormat
    | MissingField(field: string)
    | NotADict
    | ComboRedCount(key: string, expected: int, count: int)
    | ComboBlueRange(key: string, blue: real)
    | NoCombination
    | MissingSection(section: string)
    | MissingPath(key: string)
    | MissingWindow(key: string)
    | WindowNotPositive(key: string)
    | NotNumeric
    | OutOfRange(number: real)

  /** `(True, msg)`, `(False, msg)`, or an exception the validator lets escape. */
  datatype Verdict = Pass | Fail(why: Why) | Raises

  // ---------------------------------------------------------------------
  // validate_red_balls

  /** What is wrong with one element of the red list, if anything. */
  function RedProblem(v: PyValue): Option<Why>
  {
    if !IsInt(v) then Some(RedNotInt(v))
    else if IntOf(v) < 1 || IntOf(v) > 33 then Some(RedOutOfRange(IntOf(v)))
    else None
  }

  /** The element loop: the problem of the first bad element from position i on. */
  function FirstRedProblem(xs: seq<PyValue>, i: nat): Option<Why>
    requires i <= |xs|
    decreases |xs| - i
  {
    if i == |xs| then None
    else if RedProblem(xs[i]).Some? then RedProblem(xs[i])
    else FirstRedProblem(xs, i + 1)
  }

  /** The scan reports the first bad element, and nothing when every element is an int in 1..33. */
  lemma {:induction false} FirstRedProblemFacts(xs: seq<PyValue>, i: nat)
    requires i <= |xs|
    ensures FirstRedProblem(xs, i).None? <==> forall k :: i <= k < |xs| ==> RedProblem(xs[k]).None?
    ensures FirstRedProblem(xs, i).Some? ==> exists k :: (i <= k < |xs| && FirstRedProblem(xs, i) == RedProblem(xs[k]) &&
      forall j :: i <= j < k ==> RedProblem(xs[j]).None?)
    decreases |xs| - i
  {
    if i < |xs| && RedProblem(xs[i]).None? {
      FirstRedProblemFacts(xs, i + 1);
      if FirstRedProblem(xs, i).Some? {
        var k :| i + 1 <= k < |xs| && FirstRedProblem(xs, i + 1) == RedProblem(xs[k]) &&
          forall j :: i + 1 <= j < k ==> RedProblem(xs[j]).None?;
        assert forall j :: i <= j < k ==> RedProblem(xs[j]).None?;
      }
    }
  }

  /** The integer values of a list whose elements are all ints. */
  function IntsOf(xs: seq<PyValue>): (r: seq<int>)
    requires forall k :: 0 <= k < |xs| ==> IsInt(xs[k])
    ensures |r| == |xs| && forall k :: 0 <= k < |xs| ==> r[k] == IntOf(xs[k])
  {
    seq(|xs|, k requires 0 <= k < |xs| => IntOf(xs[k]))
  }

  /**
   * `validate_red_balls`: a list, of six elements, each an int in 1..33,
   * no value twice (`len(set(...)) != 6`), equal to its sorted copy (a
   * list equals its sorted copy exactly when it never decreases).
   */
  function ValidateRedBalls(v: PyValue): Verdict
  {
    if !v.PList? then Fail(NotAList)
    else if |v.items| != 6 then Fail(RedCount(|v.items|))
    else
      match FirstRedProblem(v.items, 0)
      case Some(why) => Fail(why)
      case None =>
        FirstRedProblemFacts(v.items, 0);
        var ns := IntsOf(v.items);
        if !Distinct(ns) then Fail(RedRepeated)
        else if !NonDecreasing(ns) then Fail(RedNotAscending)
        else Pass
  }

  /** Six ints in 1..33 in strictly ascending order, `True` counting as 1. */
  predicate GoodReds(xs: seq<PyValue>)
  {
    |xs| == 6 && (forall k :: 0 <= k < 6 ==> IsInt(xs[k]) && 1 <= IntOf(xs[k]) <= 33) &&
    forall j, k :: 0 <= j < k < 6 ==> IntOf(xs[j]) < IntOf(xs[k])
  }

  /** The red check passes exactly for a list of six ints in 1..33, strictly ascending. */
  lemma RedBallsPass(v: PyValue)
    ensures ValidateRedBalls(v) == Pass <==> v.PList? && GoodReds(v.items)
  {
    if v.PList? && |v.items| == 6 {
      FirstRedProblemFacts(v.items, 0);
      if FirstRedProblem(v.items, 0).None? {
        var ns := IntsOf(v.items);
        if GoodReds(v.items) {
          assert Distinct(ns) && NonDecreasing(ns);
        }
        if Distinct(ns) && NonDecreasing(ns) {
          forall j, k | 0 <= j < k < 6
            ensures IntOf(v.items[j]) < IntOf(v.items[k])
          {
            assert ns[j] <= ns[k] && ns[j] != ns[k];
          }
        }
      }
    }
  }

  /** The checks run in order: a wrong length is reported whatever the elements, a bad element before any repeat. */
  lemma RedBallsOrder(v: PyValue)
    requires v.PList?
    ensures |v.items| != 6 ==> ValidateRedBalls(v) == Fail(RedCount(|v.items|))
    ensures |v.items| == 6 && (exists k :: 0 <= k < 6 && RedProblem(v.items[k]).Some?) ==>
      exists k :: 0 <= k < 6 && RedProblem(v.items[k]).Some? && ValidateRedBalls(v) == Fail(RedProblem(v.items[k]).value) &&
        forall j :: 0 <= j < k ==> RedProblem(v.items[j]).None?
  {
    if |v.items| == 6 {
      FirstRedProblemFacts(v.items, 0);
    }
  }

  // ---------------------------------------------------------------------
  // validate_blue_ball

  /** `validate_blue_ball`: an int in 1..16. */
  function ValidateBlueBall(v: PyValue): Verdict
  {
    if !IsInt(v) then Fail(BlueNotInt(v))
    else if IntOf(v) < 1 || IntOf(v) > 16 then Fail(BlueOutOfRange(IntOf(v)))
    else Pass
  }

  /** The blue check passes exactly for the ints 1..16; `True` passes as 1, `False` fails as 0. */
  lemma BlueBallPass(v: PyValue)
    ensures ValidateBlueBall(v) == Pass <==> IsInt(v) && 1 <= IntOf(v) <= 16
    ensures ValidateBlueBall(PBool(true)) == Pass && ValidateBlueBall(PBool(false)) == Fail(BlueOutOfRange(0))
  {
  }

  // ---------------------------------------------------------------------
  // validate_issue_number

  /**
   * `re.match(r'^\d{7}$', s)`: seven digits; `$` also matches just before
   * a final newline, so the seven digits may be followed by one "\n".
   */
  predicate IssueShape(s: string)
  {
    (|s| == 7 || (|s| == 8 && s[7] == '\n')) && AllDigits(s[..7])
  }

  /** `validate_issue_number`, with the current year given. */
  function ValidateIssueNumber(v: PyValue, currentYear: int): Verdict
  {
    if !v.PStr? then Fail(IssueNotString)
    else if !IssueShape(v.s) then Fail(IssueFormat)
    else
      var s := v.s;
      IssueParts(s);
      var year := PyInt(s[..4]).value;
      if year < 2003 || year > currentYear + 1 then Fail(IssueYear(year))
      else
        var sequence := PyInt(s[4..]).value;
        if sequence < 1 || sequence > 154 then Fail(IssueSequence(sequence))
        else Pass
  }

  /** `int(issue[:4])` and `int(issue[4:])` read the year and the three-digit number (the newline is stripped). */
  lemma IssueParts(s: string)
    requires IssueShape(s)
    ensures AllDigits(s[..4]) && AllDigits(s[4..7])
    ensures PyInt(s[..4]) == Some(DigitsValue(s[..4]))
    ensures PyInt(s[4..]) == Some(DigitsValue(s[4..7]))
  {
    assert s[..4] == s[..7][..4] && s[4..7] == s[..7][4..];
    var t := s[4..];
    if |s| == 8 {
      assert !IsSpace(t[0]) && IsSpace(t[3]);
      assert Strip(t) == Strip(t[..3]);
      assert t[..3] == s[4..7];
    } else {
      assert t == s[4..7];
    }
  }

  /** The year and the number of a well-shaped issue. */
  function IssueYearOf(s: string): int
    requires IssueShape(s)
  {
    IssueParts(s);
    DigitsValue(s[..4])
  }

  function IssueNumberOf(s: string): int
    requires IssueShape(s)
  {
    IssueParts(s);
    DigitsValue(s[4..7])
  }

  /** An issue passes exactly when it is seven digits (optionally newline-ended), its year in 2003..next year, its number in 1..154. */
  lemma IssuePass(v: PyValue, currentYear: int)
    ensures ValidateIssueNumber(v, currentYear) == Pass <==>
      v.PStr? && IssueShape(v.s) &&
      2003 <= IssueYearOf(v.s) <= currentYear + 1 && 1 <= IssueNumberOf(v.s) <= 154
  {
    if v.PStr? && IssueShape(v.s) {
      IssueParts(v.s);
    }
  }

  /** The issue written for year y and number n: four digits, then the number padded to three. */
  function IssueText(y: nat, n: nat): string
  {
    PadInt(y, 4) + PadInt(n, 3)
  }

  /** The issue text of a four-digit year and a number below 1000 has the issue shape and reads back. */
  lemma IssueTextParts(y: nat, n: nat)
    requires 1000 <= y <= 9999 && n <= 999
    ensures IssueShape(IssueText(y, n))
    ensures IssueYearOf(IssueText(y, n)) == y && IssueNumberOf(IssueText(y, n)) == n
  {
    NatToStringLength(y, 4);
    NatToStringLength(n, 3);
    PadIntNat(y, 4);
    PadIntNat(n, 3);
    var a, b := PadInt(y, 4), PadInt(n, 3);
    var s := a + b;
    assert s[..4] == a && s[4..7] == b && s[..7] == s;
  }

  /** Every year from 2003 to next year (up to 9999) and number 1..154 has an issue that passes and reads back. */
  lemma IssueRoundTrip(y: nat, n: nat, currentYear: int)
    requires 2003 <= y <= currentYear + 1 && y <= 9999 && 1 <= n <= 154
    ensures IssueShape(IssueText(y, n))
    ensures IssueYearOf(IssueText(y, n)) == y && IssueNumberOf(IssueText(y, n)) == n
    ensures ValidateIssueNumber(PStr(IssueText(y, n)), currentYear) == Pass
  {
    IssueTextParts(y, n);
    IssuePass(PStr(IssueText(y, n)), currentYear);
  }

  /** One trailing newline does not change the verdict on seven digits. */
  lemma IssueTrailingNewline(s: string, currentYear: int)
    requires |s| == 7
    ensures ValidateIssueNumber(PStr(s + "\n"), currentYear) == ValidateIssueNumber(PStr(s), currentYear)
  {
    var t := s + "\n";
    assert t[..7] == s && t[..4] == s[..4];
    if AllDigits(s) {
      IssueParts(s);
      IssueParts(t);
      assert t[4..7] == s[4..7];
    }
  }

  // ---------------------------------------------------------------------
  // validate_date: datetime.strptime(s, '%Y-%m-%d')

  /** A calendar date. */
  datatype Date = Date(year: int, month: int, day: int)

  predicate Leap(y: int)
  {
    y % 4 == 0 && (y % 100 != 0 || y % 400 == 0)
  }

  /** Days in month m of year y. */
  function DaysIn(y: int, m: int): int
  {
    if m == 2 then (if Leap(y) then 29 else 28)
    else if m == 4 || m == 6 || m == 9 || m == 11 then 30
    else 31
  }

  /** `%m`: `1[0-2]|0[1-9]|[1-9]`. */
  function MonthField(t: string): Option<int>
  {
    if |t| == 1 && '1' <= t[0] <= '9' then Some(DigitValue(t[0]))
    else if |t| == 2 && t[0] == '0' && '1' <= t[1] <= '9' then Some(DigitValue(t[1]))
    else if |t| == 2 && t[0] == '1' && '0' <= t[1] <= '2' then Some(10 + DigitValue(t[1]))
    else None
  }

  /**
   * `%d`: `3[01]|[12]\d|0[1-9]|[1-9]| [1-9]`, which must reach the end of
   * the string ("unconverted data remains" otherwise).
   */
  function DayField(t: string): Option<int>
  {
    if |t| == 1 && '1' <= t[0] <= '9' then Some(DigitValue(t[0]))
    else if |t| == 2 && (t[0] == '0' || t[0] == ' ') && '1' <= t[1] <= '9' then Some(DigitValue(t[1]))
    else if |t| == 2 && (t[0] == '1' || t[0] == '2') && IsDigit(t[1]) then Some(10 * DigitValue(t[0]) + DigitValue(t[1]))
    else if |t| == 2 && t[0] == '3' && (t[1] == '0' || t[1] == '1') then Some(30 + DigitValue(t[1]))
    else None
  }

  /**
   * `%Y-%m-%d`: four digits, a dash, the month field up to the next dash
   * (one character when the second character is a dash, else two), then
   * the day field to the end; then the date must exist (year 0 and the
   * 31st of a 30-day month are rejected).
   */
  function ParseDate(s: string): Option<Date>
  {
    if |s| < 8 || !AllDigits(s[..4]) || s[4] != '-' then None
    else
      var rest := s[5..];
      var k := if rest[1] == '-' then 1 else 2;
      if rest[k] != '-' then None
      else
        var m := MonthField(rest[..k]);
        var d := DayField(rest[k + 1..]);
        var y := DigitsValue(s[..4]);
        if m.None? || d.None? || y < 1 || d.value > DaysIn(y, m.value) then None
        else Some(Date(y, m.value, d.value))
  }

  /** A date is read only when it exists in the calendar. */
  lemma ParseDateSound(s: string)
    ensures ParseDate(s).Some? ==> var x := ParseDate(s).value;
      1 <= x.year <= 9999 && 1 <= x.month <= 12 && 1 <= x.day <= DaysIn(x.year, x.month)
  {
    if ParseDate(s).Some? {
      assert |s[..4]| == 4;
      DigitsBelow(s[..4]);
    }
  }

  /** A string of k digits is below 10^k. */
  lemma {:induction false} DigitsBelow(s: string)
    requires AllDigits(s)
    ensures DigitsValue(s) < Pow10(|s|)
  {
    if |s| > 0 {
      DigitsBelow(s[..|s| - 1]);
    }
  }

  /** `date.strftime('%Y-%m-%d')` of an existing date. */
  function DateText(x: Date): string
  {
    PadInt(x.year, 4) + "-" + PadInt(x.month, 2) + "-" + PadInt(x.day, 2)
  }

  /** Every date of years 1..9999, written zero-padded, is read back as itself. */
  lemma DateRoundTrip(x: Date)
    requires 1 <= x.year <= 9999 && 1 <= x.month <= 12 && 1 <= x.day <= DaysIn(x.year, x.month)
    ensures ParseDate(DateText(x)) == Some(x)
  {
    NatToStringLength(x.year, 4);
    PadIntNat(x.year, 4);
    MonthOf(x.month);
    DayOf(x.day);
    DateFields(PadInt(x.year, 4), PadInt(x.month, 2), PadInt(x.day, 2));
  }

  /** A date written as four digits, a dash, two characters, a dash, and the rest is read field by field. */
  lemma DateFields(y: string, m: string, d: string)
    requires |y| == 4 && AllDigits(y) && |m| == 2 && m[1] != '-' && |d| >= 1
    ensures var s := y + "-" + m + "-" + d;
      ParseDate(s) == (
        if MonthField(m).None? || DayField(d).None? || DigitsValue(y) < 1 ||
          DayField(d).value > DaysIn(DigitsValue(y), MonthField(m).value) then None
        else Some(Date(DigitsValue(y), MonthField(m).value, DayField(d).value)))
  {
    var s := y + "-" + m + "-" + d;
    assert s[..4] == y && s[4] == '-';
    var rest := s[5..];
    assert rest == m + "-" + d;
    assert rest[1] == m[1] && rest[2] == '-';
    assert rest[..2] == m && rest[3..] == d;
  }

  /** A month 1..12 written with two digits is read back. */
  lemma MonthOf(n: int)
    requires 1 <= n <= 12
    ensures |PadInt(n, 2)| == 2 && PadInt(n, 2)[1] != '-' && MonthField(PadInt(n, 2)) == Some(n)
  {
    var t := PadInt(n, 2);
    TwoDigitsOf(n);
  }

  /** A day 1..31 written with two digits is read back. */
  lemma DayOf(n: int)
    requires 1 <= n <= 31
    ensures |PadInt(n, 2)| == 2 && DayField(PadInt(n, 2)) == Some(n)
  {
    TwoDigitsOf(n);
  }

  /** `f"{n:02d}"` for 0 <= n <= 99: the tens digit, then the units digit. */
  lemma TwoDigitsOf(n: int)
    requires 0 <= n <= 99
    ensures var t := PadInt(n, 2);
      |t| == 2 && AllDigits(t) && DigitValue(t[0]) == n / 10 && DigitValue(t[1]) == n % 10
  {
    NatToStringLength(n, 2);
    PadIntNat(n, 2);
    var t := PadInt(n, 2);
    TwoDigits(t);
  }

  /** A two-digit string holds ten times its first digit plus its second. */
  lemma TwoDigits(t: string)
    requires |t| == 2 && AllDigits(t)
    ensures DigitsValue(t) == 10 * DigitValue(t[0]) + DigitValue(t[1])
  {
    var h := t[..1];
    assert h[..0] == [] && h[0] == t[0];
    assert DigitsValue(h) == DigitValue(t[0]);
  }

  /** The format also reads unpadded fields: "2023-1-5" is 5 January 2023. */
  lemma DateUnpadded()
    ensures ParseDate("2023-1-5") == Some(Date(2023, 1, 5))
  {
    assert "2023-1-5"[..4] == "2023" && "2023-1-5"[5..] == "1-5";
    assert "1-5"[..1] == "1" && "1-5"[2..] == "5";
    Year4("2023");
  }

  /** A space may stand in for the leading zero of the day: "2023-01- 5" is 5 January 2023. */
  lemma DateSpacePadded()
    ensures ParseDate("2023-01- 5") == Some(Date(2023, 1, 5))
  {
    assert "2023" + "-" + "01" + "-" + " 5" == "2023-01- 5";
    DateFields("2023", "01", " 5");
    Year4("2023");
  }

  /** The 29th of February is refused in a common year ... */
  lemma DateNoLeapDay()
    ensures ParseDate("2023-02-29") == None
  {
    assert "2023" + "-" + "02" + "-" + "29" == "2023-02-29";
    DateFields("2023", "02", "29");
    Year4("2023");
  }

  /** ... and read in a leap year. */
  lemma DateLeapDay()
    ensures ParseDate("2024-02-29") == Some(Date(2024, 2, 29))
  {
    assert "2024" + "-" + "02" + "-" + "29" == "2024-02-29";
    DateFields("2024", "02", "29");
    Year4("2024");
  }

  lemma Year4(s: string)
    requires |s| == 4 && AllDigits(s)
    ensures DigitsValue(s) == 1000 * DigitValue(s[0]) + 100 * DigitValue(s[1]) + 10 * DigitValue(s[2]) + DigitValue(s[3])
  {
    var a, b := s[..3], s[..2];
    assert a[..2] == b && b[..1] == s[..1] && s[..1][..0] == [];
    assert a[2] == s[2] && b[1] == s[1] && s[..1][0] == s[0];
    assert DigitsValue(s[..1]) == DigitValue(s[0]);
    assert DigitsValue(b) == 10 * DigitValue(s[0]) + DigitValue(s[1]);
    assert DigitsValue(a) == 10 * DigitsValue(b) + DigitValue(s[2]);
  }

  /** `validate_date`: a string strptime reads; any other type makes strptime raise TypeError, which is not caught. */
  function ValidateDate(v: PyValue): Verdict
  {
    if !v.PStr? then Raises
    else if ParseDate(v.s).None? then Fail(DateFormat)
    else Pass
  }

  // ---------------------------------------------------------------------
  // validate_record_data

  const RequiredFields: seq<string> := ["issue", "date", "red1", "red2", "red3", "red4", "red5", "red6", "blue"]

  /** The first of fields[i..] missing from the record. */
  function FirstMissing(fields: seq<string>, i: nat, rec: map<string, PyValue>): Option<string>
    requires i <= |fields|
    decreases |fields| - i
  {
    if i == |fields| then None
    else if fields[i] !in rec then Some(fields[i])
    else FirstMissing(fields, i + 1, rec)
  }

  /** The first missing field is missing, every field before it is present, and there is none exactly when all are present. */
  lemma {:induction false} FirstMissingFacts(fields: seq<string>, i: nat, rec: map<string, PyValue>)
    requires i <= |fields|
    ensures FirstMissing(fields, i, rec).None? <==> forall k :: i <= k < |fields| ==> fields[k] in rec
    ensures FirstMissing(fields, i, rec).Some? ==> exists k :: (i <= k < |fields| &&
      FirstMissing(fields, i, rec) == Some(fields[k]) && fields[k] !in rec &&
      forall j :: i <= j < k ==> fields[j] in rec)
    decreases |fields| - i
  {
    if i < |fields| && fields[i] in rec {
      FirstMissingFacts(fields, i + 1, rec);
      if FirstMissing(fields, i, rec).Some? {
        var k :| i + 1 <= k < |fields| && FirstMissing(fields, i + 1, rec) == Some(fields[k]) &&
          fields[k] !in rec && forall j :: i + 1 <= j < k ==> fields[j] in rec;
        assert forall j :: i <= j < k ==> fields[j] in rec;
      }
    }
  }

  /** Every required field is present. */
  predicate HasFields(rec: map<string, PyValue>)
  {
    "issue" in rec && "date" in rec && "red1" in rec && "red2" in rec && "red3" in rec &&
    "red4" in rec && "red5" in rec && "red6" in rec && "blue" in rec
  }

  /** No field is missing exactly when all nine are present. */
  lemma HasFieldsIff(rec: map<string, PyValue>)
    ensures FirstMissing(RequiredFields, 0, rec).None? <==> HasFields(rec)
  {
    FirstMissingFacts(RequiredFields, 0, rec);
    if HasFields(rec) {
      forall k | 0 <= k < |RequiredFields|
        ensures RequiredFields[k] in rec
      {
      }
    }
    if FirstMissing(RequiredFields, 0, rec).None? {
      assert RequiredFields[0] in rec && RequiredFields[1] in rec && RequiredFields[2] in rec;
      assert RequiredFields[3] in rec && RequiredFields[4] in rec && RequiredFields[5] in rec;
      assert RequiredFields[6] in rec && RequiredFields[7] in rec && RequiredFields[8] in rec;
    }
  }

  /** The six red columns as the list the red check is given. */
  function RedColumns(rec: map<string, PyValue>): PyValue
    requires HasFields(rec)
  {
    PList([rec["red1"], rec["red2"], rec["red3"], rec["red4"], rec["red5"], rec["red6"]])
  }

  /** `validate_record_data`: all fields present, then issue, date, reds and blue, in that order. */
  function ValidateRecordData(rec: map<string, PyValue>, currentYear: int): Verdict
  {
    match FirstMissing(RequiredFields, 0, rec)
    case Some(f) => Fail(MissingField(f))
    case None =>
      HasFieldsIff(rec);
      var issue := ValidateIssueNumber(rec["issue"], currentYear);
      if issue != Pass then issue
      else
        var date := ValidateDate(rec["date"]);
        if date != Pass then date
        else
          var reds := ValidateRedBalls(RedColumns(rec));
          if reds != Pass then reds
          else ValidateBlueBall(rec["blue"])
  }

  /** A record passes exactly when every field is there and each check passes on it. */
  lemma RecordPass(rec: map<string, PyValue>, currentYear: int)
    ensures ValidateRecordData(rec, currentYear) == Pass <==>
      HasFields(rec) &&
      ValidateIssueNumber(rec["issue"], currentYear) == Pass && ValidateDate(rec["date"]) == Pass &&
      ValidateRedBalls(RedColumns(rec)) == Pass && ValidateBlueBall(rec["blue"]) == Pass
  {
    HasFieldsIff(rec);
  }

  /** A missing field is reported before anything is checked: the first missing one in field order. */
  lemma RecordMissing(rec: map<string, PyValue>, currentYear: int)
    requires exists k :: 0 <= k < |RequiredFields| && RequiredFields[k] !in rec
    ensures exists k :: (0 <= k < |RequiredFields| && ValidateRecordData(rec, currentYear) == Fail(MissingField(RequiredFields[k])) &&
      RequiredFields[k] !in rec && forall j :: 0 <= j < k ==> RequiredFields[j] in rec)
  {
    FirstMissingFacts(RequiredFields, 0, rec);
  }

  /** The record dict of a draw, with the reds as red1..red6. */
  function DrawRecord(issue: string, date: string, reds: seq<int>, blue: int): (rec: map<string, PyValue>)
    requires |reds| == 6
    ensures HasFields(rec) && rec["issue"] == PStr(issue) && rec["date"] == PStr(date) && rec["blue"] == PInt(blue)
    ensures RedColumns(rec) == PList([PInt(reds[0]), PInt(reds[1]), PInt(reds[2]), PInt(reds[3]), PInt(reds[4]), PInt(reds[5])])
  {
    map["issue" := PStr(issue), "date" := PStr(date),
      "red1" := PInt(reds[0]), "red2" := PInt(reds[1]), "red3" := PInt(reds[2]),
      "red4" := PInt(reds[3]), "red5" := PInt(reds[4]), "red6" := PInt(reds[5]), "blue" := PInt(blue)]
  }

  /** Six ascending reds in 1..33, as ints, are good reds. */
  lemma GoodRedsOf(reds: seq<int>)
    requires |reds| == 6 && Ascending(reds) && forall k :: 0 <= k < 6 ==> 1 <= reds[k] <= 33
    ensures GoodReds([PInt(reds[0]), PInt(reds[1]), PInt(reds[2]), PInt(reds[3]), PInt(reds[4]), PInt(reds[5])])
  {
    var xs := [PInt(reds[0]), PInt(reds[1]), PInt(reds[2]), PInt(reds[3]), PInt(reds[4]), PInt(reds[5])];
    assert forall k :: 0 <= k < 6 ==> xs[k] == PInt(reds[k]);
  }

  /** A record written from a real draw (issue, zero-padded date, ascending reds, blue) passes. */
  lemma RecordOfDraw(y: nat, n: nat, x: Date, reds: seq<int>, blue: int, currentYear: int)
    requires 2003 <= y <= currentYear + 1 && y <= 9999 && 1 <= n <= 154
    requires 1 <= x.year <= 9999 && 1 <= x.month <= 12 && 1 <= x.day <= DaysIn(x.year, x.month)
    requires |reds| == 6 && Ascending(reds) && forall k :: 0 <= k < 6 ==> 1 <= reds[k] <= 33
    requires 1 <= blue <= 16
    ensures ValidateRecordData(DrawRecord(IssueText(y, n), DateText(x), reds, blue), currentYear) == Pass
  {
    var rec := DrawRecord(IssueText(y, n), DateText(x), reds, blue);
    IssueRoundTrip(y, n, currentYear);
    DateRoundTrip(x);
    var v := RedColumns(rec);
    RedBallsPass(v);
    GoodRedsOf(reds);
    assert ValidateIssueNumber(rec["issue"], currentYear) == Pass;
    assert ValidateDate(rec["date"]) == Pass;
    assert ValidateRedBalls(v) == Pass;
    assert ValidateBlueBall(rec["blue"]) == Pass;
    RecordPass(rec, currentYear);
  }

  // ---------------------------------------------------------------------
  // validate_prediction_result

  /** `len(v)` for the values that have one; any other raises TypeError. */
  function Len(v: PyValue): Option<int>
  {
    match v
    case PList(items) => Some(|items|)
    case PStr(s) => Some(|s|)
    case PDict(entries) => Some(|entries.Keys|)
    case _ => None
  }

  /** The value of a number in a comparison with an int; other types raise TypeError. */
  function Numeric(v: PyValue): Option<real>
  {
    match v
    case PInt(i) => Some(i as real)
    case PBool(b) => Some(if b then 1.0 else 0.0)
    case PFloat(f) => Some(f)
    case _ => None
  }

  /** `d.get(key, default)` */
  function GetOr(d: map<string, PyValue>, key: string, default: PyValue): PyValue
  {
    if key in d then d[key] else default
  }

  const ComboKeys: seq<string> := ["6_plus_1", "7_plus_1", "8_plus_1"]

  /** `int(key[0])`: the red count a combination key names. */
  function ExpectedReds(i: int): int
  {
    6 + i
  }

  /** Where the combination loop stops: a verdict, or the list of accepted keys. */
  datatype Scan = Stopped(verdict: Verdict) | Accepted(keys: seq<string>)

  /** The combination check of one key whose value is a dict. */
  function CheckCombo(key: string, expected: int, combo: map<string, PyValue>): Option<Verdict>
  {
    var reds := GetOr(combo, "red_balls", PList([]));
    var blue := GetOr(combo, "blue_ball", PInt(0));
    if Len(reds).None? then Some(Raises)
    else if Len(reds).value != expected then Some(Fail(ComboRedCount(key, expected, Len(reds).value)))
    else if Numeric(blue).None? then Some(Raises)
    else if !(1.0 <= Numeric(blue).value <= 16.0) then Some(Fail(ComboBlueRange(key, Numeric(blue).value)))
    else None
  }

  /** The loop over the three keys from position i on, with the keys accepted so far. */
  function ScanCombos(d: map<string, PyValue>, i: nat, found: seq<string>): Scan
    requires i <= 3
    decreases 3 - i
  {
    if i == 3 then Accepted(found)
    else
      var key := ComboKeys[i];
      if key in d && d[key].PDict? then
        var c := CheckCombo(key, ExpectedReds(i), d[key].entries);
        if c.Some? then Stopped(c.value) else ScanCombos(d, i + 1, found + [key])
      else ScanCombos(d, i + 1, found)
  }

  /** The keys present with a dict value, in loop order. */
  function PresentCombos(d: map<string, PyValue>, i: nat): seq<string>
    requires i <= 3
    decreases 3 - i
  {
    if i == 3 then []
    else if ComboKeys[i] in d && d[ComboKeys[i]].PDict? then [ComboKeys[i]] + PresentCombos(d, i + 1)
    else PresentCombos(d, i + 1)
  }

  /** Every present combination passes its check. */
  predicate CombosGood(d: map<string, PyValue>)
  {
    forall i :: 0 <= i < 3 && ComboKeys[i] in d && d[ComboKeys[i]].PDict? ==>
      CheckCombo(ComboKeys[i], ExpectedReds(i), d[ComboKeys[i]].entries).None?
  }

  /** The loop accepts exactly when every present combination passes, and then lists the present keys. */
  lemma {:induction false} ScanFacts(d: map<string, PyValue>, i: nat, found: seq<string>)
    requires i <= 3
    ensures ScanCombos(d, i, found).Accepted? <==>
      forall k :: i <= k < 3 && ComboKeys[k] in d && d[ComboKeys[k]].PDict? ==>
        CheckCombo(ComboKeys[k], ExpectedReds(k), d[ComboKeys[k]].entries).None?
    ensures ScanCombos(d, i, found).Accepted? ==> ScanCombos(d, i, found).keys == found + PresentCombos(d, i)
    decreases 3 - i
  {
    if i < 3 {
      var key := ComboKeys[i];
      if key in d && d[key].PDict? {
        ScanFacts(d, i + 1, found + [key]);
        assert found + [key] + PresentCombos(d, i + 1) == found + PresentCombos(d, i);
      } else {
        ScanFacts(d, i + 1, found);
      }
    }
  }

  /** `validate_prediction_result`: a dict, every present combination well formed, at least one present. */
  function ValidatePredictionResult(v: PyValue): Verdict
  {
    if !v.PDict? then Fail(NotADict)
    else
      match ScanCombos(v.entries, 0, [])
      case Stopped(verdict) => verdict
      case Accepted(keys) => if |keys| == 0 then Fail(NoCombination) else Pass
  }

  /** The keys named in the success message: the combinations present, in the order 6+1, 7+1, 8+1. */
  function AcceptedCombos(v: PyValue): seq<string>
  {
    if v.PDict? && ScanCombos(v.entries, 0, []).Accepted? then ScanCombos(v.entries, 0, []).keys else []
  }

  /**
   * A prediction passes exactly when it is a dict holding at least one of
   * the three combinations as a dict, and each one it holds has the named
   * number of reds and a blue in 1..16; the accepted keys are then those
   * present, in order.
   */
  lemma PredictionPass(v: PyValue)
    ensures ValidatePredictionResult(v) == Pass <==> v.PDict? && |PresentCombos(v.entries, 0)| > 0 && CombosGood(v.entries)
    ensures ValidatePredictionResult(v) == Pass ==> AcceptedCombos(v) == PresentCombos(v.entries, 0)
  {
    if v.PDict? {
      ScanFacts(v.entries, 0, []);
      assert [] + PresentCombos(v.entries, 0) == PresentCombos(v.entries, 0);
    }
  }

  /** A combination passes its check exactly with the named number of reds and a numeric blue in 1..16. */
  lemma ComboCheck(key: string, expected: int, combo: map<string, PyValue>)
    ensures CheckCombo(key, expected, combo).None? <==>
      Len(GetOr(combo, "red_balls", PList([]))) == Some(expected) &&
      Numeric(GetOr(combo, "blue_ball", PInt(0))).Some? &&
      1.0 <= Numeric(GetOr(combo, "blue_ball", PInt(0))).value <= 16.0
    ensures "blue_ball" !in combo ==> CheckCombo(key, expected, combo).Some?
  {
  }

  // ---------------------------------------------------------------------
  // validate_config

  const ConfigSections: seq<string> := ["paths", "analysis", "prediction", "database", "system"]
  const PathKeys: seq<string> := ["DATABASE_PATH", "LOGS_DIR"]
  const WindowKeys: seq<string> := ["BASIC_STATS_WINDOW", "TREND_ANALYSIS_WINDOW", "FREQUENCY_ANALYSIS_WINDOW"]

  /** key occurs in s at position i. */
  predicate OccursAt(s: string, key: string, i: int)
    requires 0 <= i <= |s| - |key|
  {
    s[i..i + |key|] == key
  }

  /** `key in v`: a dict key, a list element or a substring; other types raise TypeError. */
  function Contains(v: PyValue, key: string): Option<bool>
  {
    match v
    case PDict(entries) => Some(key in entries)
    case PList(items) => Some(PStr(key) in items)
    case PStr(s) => Some(exists i :: 0 <= i <= |s| - |key| && OccursAt(s, key, i))
    case _ => None
  }

  /** The path loop over `PathKeys[i..]`. */
  function CheckPaths(paths: PyValue, i: nat): Option<Verdict>
    requires i <= |PathKeys|
    decreases |PathKeys| - i
  {
    if i == |PathKeys| then None
    else
      var c := Contains(paths, PathKeys[i]);
      if c.None? then Some(Raises)
      else if !c.value then Some(Fail(MissingPath(PathKeys[i])))
      else CheckPaths(paths, i + 1)
  }

  /** The window loop over `WindowKeys[i..]`: present, then (indexing a non-dict raises) a positive int. */
  function CheckWindows(analysis: PyValue, i: nat): Option<Verdict>
    requires i <= |WindowKeys|
    decreases |WindowKeys| - i
  {
    if i == |WindowKeys| then None
    else
      var w := WindowKeys[i];
      var c := Contains(analysis, w);
      if c.None? then Some(Raises)
      else if !c.value then Some(Fail(MissingWindow(w)))
      else if !analysis.PDict? then Some(Raises)
      else if !IsInt(analysis.entries[w]) || IntOf(analysis.entries[w]) <= 0 then Some(Fail(WindowNotPositive(w)))
      else CheckWindows(analysis, i + 1)
  }

  /** `validate_config` */
  function ValidateConfig(config: map<string, PyValue>): Verdict
  {
    match FirstMissing(ConfigSections, 0, config)
    case Some(s) => Fail(MissingSection(s))
    case None =>
      FirstMissingFacts(ConfigSections, 0, config);
      assert ConfigSections[0] == "paths" && ConfigSections[1] == "analysis";
      var p := CheckPaths(config["paths"], 0);
      if p.Some? then p.value
      else
        var w := CheckWindows(config["analysis"], 0);
        if w.Some? then w.value else Pass
  }

  /** Every window key is present in the dict with a positive int (`True` counts as 1). */
  predicate WindowsPositive(analysis: map<string, PyValue>)
  {
    forall i :: 0 <= i < |WindowKeys| ==> (WindowKeys[i] in analysis &&
      IsInt(analysis[WindowKeys[i]]) && IntOf(analysis[WindowKeys[i]]) > 0)
  }

  lemma {:induction false} CheckWindowsFacts(analysis: map<string, PyValue>, i: nat)
    requires i <= |WindowKeys|
    ensures CheckWindows(PDict(analysis), i).None? <==>
      forall k :: i <= k < |WindowKeys| ==> (WindowKeys[k] in analysis &&
        IsInt(analysis[WindowKeys[k]]) && IntOf(analysis[WindowKeys[k]]) > 0)
    decreases |WindowKeys| - i
  {
    if i < |WindowKeys| {
      CheckWindowsFacts(analysis, i + 1);
    }
  }

  lemma {:induction false} CheckPathsFacts(paths: map<string, PyValue>, i: nat)
    requires i <= |PathKeys|
    ensures CheckPaths(PDict(paths), i).None? <==> forall k :: i <= k < |PathKeys| ==> PathKeys[k] in paths
    decreases |PathKeys| - i
  {
    if i < |PathKeys| {
      CheckPathsFacts(paths, i + 1);
    }
  }

  /**
   * A configuration whose sections are dicts passes exactly when all five
   * sections, both path keys and all three windows are present and each
   * window is a positive int.
   */
  lemma ConfigPass(config: map<string, PyValue>)
    requires "paths" in config && config["paths"].PDict? && "analysis" in config && config["analysis"].PDict?
    ensures ValidateConfig(config) == Pass <==>
      (forall k :: 0 <= k < |ConfigSections| ==> ConfigSections[k] in config) &&
      (forall k :: 0 <= k < |PathKeys| ==> PathKeys[k] in config["paths"].entries) &&
      WindowsPositive(config["analysis"].entries)
  {
    FirstMissingFacts(ConfigSections, 0, config);
    CheckPathsFacts(config["paths"].entries, 0);
    CheckWindowsFacts(config["analysis"].entries, 0);
    if FirstMissing(ConfigSections, 0, config).Some? {
      var k :| 0 <= k < |ConfigSections| && ConfigSections[k] !in config;
    }
  }

  /** An analysis section that is a list naming the windows passes the membership test, then indexing it raises. */
  lemma ConfigListWindows(config: map<string, PyValue>)
    requires "paths" in config && "analysis" in config && "prediction" in config && "database" in config && "system" in config
    requires config["paths"] == PDict(map["DATABASE_PATH" := PNone, "LOGS_DIR" := PNone])
    requires config["analysis"] == PList([PStr("BASIC_STATS_WINDOW")])
    ensures ValidateConfig(config) == Raises
  {
    FirstMissingFacts(ConfigSections, 0, config);
    CheckPathsFacts(config["paths"].entries, 0);
  }

  // ---------------------------------------------------------------------
  // validate_phone

  /** `re.match(r'^1[3-9]\d{9}$', phone)`: eleven digits, "1" then 3..9 first; `$` allows one final newline. */
  function ValidatePhone(phone: string): bool
  {
    (|phone| == 11 || (|phone| == 12 && phone[11] == '\n')) &&
    phone[0] == '1' && '3' <= phone[1] <= '9' && AllDigits(phone[2..11])
  }

  /** An accepted number is eleven digits opening with 1 and then 3..9, and every such number is accepted. */
  lemma PhoneAccepts(phone: string)
    ensures ValidatePhone(phone) ==> |phone| >= 11 && AllDigits(phone[..11]) && phone[0] == '1' && phone[1] != '0' && phone[1] != '1' && phone[1] != '2'
    ensures |phone| == 11 && AllDigits(phone) && phone[0] == '1' && phone[1] >= '3' ==> ValidatePhone(phone)
    ensures |phone| == 11 ==> ValidatePhone(phone + "\n") == ValidatePhone(phone)
  {
    if ValidatePhone(phone) {
      forall i | 0 <= i < 11
        ensures IsDigit(phone[..11][i])
      {
        if i >= 2 {
          assert phone[..11][i] == phone[2..11][i - 2];
        }
      }
    }
    if |phone| == 11 {
      var t := phone + "\n";
      assert t[2..11] == phone[2..11] && t[..2] == phone[..2];
    }
  }

  // ---------------------------------------------------------------------
  // validate_number_range

  /** Optional sign, digits, an optional point with more digits; at least one digit overall. */
  function ParseDecimal(t: string): Option<real>
  {
    if |t| > 0 && (t[0] == '-' || t[0] == '+') then
      var m := ParseUnsigned(t[1..]);
      if m.None? then None else Some(if t[0] == '-' then -m.value else m.value)
    else ParseUnsigned(t)
  }

  /** The position of the first '.' in t, or |t|. */
  function PointAt(t: string): (k: nat)
    ensures k <= |t| && (k < |t| ==> t[k] == '.') && forall i :: 0 <= i < k ==> t[i] != '.'
  {
    if |t| == 0 then 0 else if t[0] == '.' then 0 else 1 + PointAt(t[1..])
  }

  /** "123", "1.5", ".5" or "5.". */
  function ParseUnsigned(t: string): Option<real>
  {
    var k := PointAt(t);
    var whole := t[..k];
    var frac := if k < |t| then t[k + 1..] else "";
    if !AllDigits(whole) || !AllDigits(frac) || |whole| + |frac| == 0 then None
    else if |frac| == 0 then Some(DigitsValue(whole) as real)
    else
      Pow10Positive(|frac|);
      Some(DigitsValue(whole) as real + DigitsValue(frac) as real / Pow10(|frac|) as real)
  }

  lemma {:induction false} Pow10Positive(k: nat)
    ensures Pow10(k) >= 1
  {
    if k > 0 {
      Pow10Positive(k - 1);
    }
  }

  /** `float(value)`: ints and bools exactly, floats as they are, strings by the decimal grammar after stripping. */
  function FloatOf(v: PyValue): Option<real>
  {
    match v
    case PInt(i) => Some(i as real)
    case PBool(b) => Some(if b then 1.0 else 0.0)
    case PFloat(f) => Some(f)
    case PStr(s) => ParseDecimal(Strip(s))
    case _ => None
  }

  /** `validate_number_range(value, min_val, max_val)` */
  function ValidateNumberRange(v: PyValue, lo: real, hi: real): Verdict
  {
    var x := FloatOf(v);
    if x.None? then Fail(NotNumeric)
    else if lo <= x.value <= hi then Pass
    else Fail(OutOfRange(x.value))
  }

  /** The range check is inclusive at both ends; lists, dicts and None are not numeric. */
  lemma NumberRangeFacts(v: PyValue, lo: real, hi: real)
    ensures ValidateNumberRange(v, lo, hi) == Pass <==> FloatOf(v).Some? && lo <= FloatOf(v).value <= hi
    ensures lo <= hi ==> ValidateNumberRange(PFloat(lo), lo, hi) == Pass && ValidateNumberRange(PFloat(hi), lo, hi) == Pass
    ensures v.PList? || v.PDict? || v.PNone? ==> ValidateNumberRange(v, lo, hi) == Fail(NotNumeric)
  {
  }

  /** A number written in decimal is read back: `float(str(n)) == n`. */
  lemma DecimalOfNat(n: nat)
    ensures FloatOf(PStr(NatToString(n))) == Some(n as real)
  {
    var s := NatToString(n);
    NoSpaceInDigits(s);
    UnsignedOfDigits(s);
    DigitsOfNat(n);
    assert s[0] != '-' && s[0] != '+';
  }

  lemma NoSpaceInDigits(s: string)
    requires |s| > 0 && AllDigits(s)
    ensures Strip(s) == s
  {
    assert !IsSpace(s[0]) && !IsSpace(s[|s| - 1]);
  }

  /** A non-empty digit string is read as its value. */
  lemma UnsignedOfDigits(s: string)
    requires |s| > 0 && AllDigits(s)
    ensures ParseUnsigned(s) == Some(DigitsValue(s) as real)
  {
    NoPointInDigits(s);
    assert s[..|s|] == s;
  }

  lemma NoPointInDigits(s: string)
    requires AllDigits(s)
    ensures PointAt(s) == |s|
  {
    if PointAt(s) < |s| {
      assert IsDigit(s[PointAt(s)]);
    }
  }

  /** "12.5" reads as 25/2. */
  lemma DecimalPoint()
    ensures ParseDecimal("12.5") == Some(12.5)
  {
    assert PointAt("12.5") == 2;
    assert "12.5"[..2] == "12" && "12.5"[3..] == "5";
    assert "12"[..1] == "1" && "1"[..0] == [];
    assert DigitsValue("12") == 12 && DigitsValue("5") == 5;
    assert Pow10(1) == 10;
  }

  /** Surrounding whitespace is stripped and a sign is read: " -3 " is -3. */
  lemma DecimalSigned()
    ensures FloatOf(PStr(" -3 ")) == Some(-3.0)
  {
    assert Strip(" -3 ") == "-3" by {
      assert " -3 "[1..] == "-3 ";
      assert "-3 "[..2] == "-3";
    }
    assert "-3"[1..] == "3";
    UnsignedOfDigits("3");
  }
}
