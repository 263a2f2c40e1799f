/**
 * The date-range handler: it finds the two `YYYY-MM-DD` dates in the
 * question, parses them as `strptime(..., '%Y-%m-%d')` does, and counts the
 * Wednesdays from the first to the second, both included, by walking one
 * day at a time.
 *
 * Dates are proleptic Gregorian, years 1 to 9999, as Python's `datetime`
 * has them. A day is represented by its ordinal (0001-01-01 is day 1):
 * `datetime` itself adds a `timedelta` by converting to the ordinal and
 * back, and `weekday()` is `(ordinal + 6) % 7` with Monday = 0.
 */
module Dates {
  import opened Text

  datatype Date = Date(year: int, month: int, day: int)

  datatype Outcome =
    | Counted(start: Date, end: Date, answer: nat)
    | Failure(message: string)
      /** `strptime` rejected a date, or the walk stepped past 9999-12-31
          (`OverflowError`); the handler's `except` reports either. */
    | Raised

  const TWO_DATES := "Unable to extract two dates from the question"
  const WEDNESDAY := 2
  const MAX_YEAR := 9999

  // ---------------------------------------------------------------------------
  // the calendar

  predicate Leap(y: int) { y % 4 == 0 && (y % 100 != 0 || y % 400 == 0) }

  function DaysInMonth(y: int, m: int): int
  {
    if m == 2 then (if Leap(y) then 29 else 28)
    else if m == 4 || m == 6 || m == 9 || m == 11 then 30
    else 31
  }

  /** What `strptime` accepts: a year 1..9999, a month 1..12, a day of that
      month. */
  predicate Valid(d: Date)
  {
    1 <= d.year <= MAX_YEAR && 1 <= d.month <= 12 && 1 <= d.day <= DaysInMonth(d.year, d.month)
  }

  /** Days in the months of year `y` before month `m`. */
  function DaysBeforeMonth(y: int, m: int): int
    requires 1 <= m <= 13
  {
    if m == 1 then 0 else DaysBeforeMonth(y, m - 1) + DaysInMonth(y, m - 1)
  }

  /** Days in the years before year `y`. */
  function DaysBeforeYear(y: int): int
    requires y >= 1
  {
    var p := y - 1;
    365 * p + p / 4 - p / 100 + p / 400
  }

  /** `date.toordinal()` */
  function Ordinal(d: Date): int
    requires Valid(d)
  {
    DaysBeforeYear(d.year) + DaysBeforeMonth(d.year, d.month) + d.day
  }

  const MAX_ORDINAL := Ordinal(Date(MAX_YEAR, 12, 31))

  /** `date.weekday()` */
  function Weekday(ordinal: int): int { (ordinal + 6) % 7 }

  lemma {:induction false} DaysBeforeMonthGrows(y: int, m: int, n: int)
    requires 1 <= m <= n <= 13
    ensures DaysBeforeMonth(y, m) <= DaysBeforeMonth(y, n) - (if m < n then DaysInMonth(y, m) else 0)
    decreases n - m
  {
    if m < n - 1 { DaysBeforeMonthGrows(y, m, n - 1); }
  }

  lemma YearLength(y: int)
    requires y >= 1
    ensures DaysBeforeYear(y + 1) - DaysBeforeYear(y) == DaysBeforeMonth(y, 13)
  {
    MonthTable(y);
    DivStep4(y);
    DivStep100(y);
    DivStep400(y);
    ModChain(y);
    var p := y - 1;
    assert DaysBeforeYear(y) == 365 * p + p / 4 - p / 100 + p / 400;
    assert DaysBeforeYear(y + 1) == 365 * p + 365 + y / 4 - y / 100 + y / 400;
  }

  /** A year has 337 days besides February. */
  lemma MonthTable(y: int)
    ensures DaysBeforeMonth(y, 13) == 337 + DaysInMonth(y, 2)
  {
    var feb := DaysInMonth(y, 2);
    assert DaysBeforeMonth(y, 2) == 31;
    assert DaysBeforeMonth(y, 3) == 31 + feb;
    assert DaysBeforeMonth(y, 4) == 62 + feb;
    assert DaysBeforeMonth(y, 5) == 92 + feb;
    assert DaysBeforeMonth(y, 6) == 123 + feb;
    assert DaysBeforeMonth(y, 7) == 153 + feb;
    assert DaysBeforeMonth(y, 8) == 184 + feb;
    assert DaysBeforeMonth(y, 9) == 215 + feb;
    assert DaysBeforeMonth(y, 10) == 245 + feb;
    assert DaysBeforeMonth(y, 11) == 276 + feb;
    assert DaysBeforeMonth(y, 12) == 306 + feb;
  }

  lemma ModChain(y: int)
    ensures y % 400 == 0 ==> y % 100 == 0
    ensures y % 100 == 0 ==> y % 4 == 0
  {
    if y % 400 == 0 {
      var k := y / 400;
      assert y == 400 * k;
      assert y / 100 == 4 * k;
    }
    if y % 100 == 0 {
      var k := y / 100;
      assert y == 100 * k;
      assert y / 4 == 25 * k;
    }
  }

  lemma DivStep7(b: int) ensures (b + 4) / 7 - (b + 3) / 7 == if (b + 6) % 7 == WEDNESDAY then 1 else 0 { }

  lemma DivStep4(y: int) ensures y / 4 - (y - 1) / 4 == if y % 4 == 0 then 1 else 0 { }

  lemma DivStep100(y: int) ensures y / 100 - (y - 1) / 100 == if y % 100 == 0 then 1 else 0 { }

  lemma DivStep400(y: int) ensures y / 400 - (y - 1) / 400 == if y % 400 == 0 then 1 else 0 { }

  lemma {:induction false} DaysBeforeYearGrows(y: int, z: int)
    requires 1 <= y < z
    ensures DaysBeforeYear(y) + DaysBeforeMonth(y, 13) <= DaysBeforeYear(z)
    decreases z - y
  {
    YearLength(y);
    if y + 1 < z {
      DaysBeforeYearGrows(y + 1, z);
      assert DaysBeforeMonth(y + 1, 13) >= 0 by { DaysBeforeMonthGrows(y + 1, 1, 13); }
    }
  }

  /** Date order (year, then month, then day — how `datetime` compares) is
      ordinal order, so comparing ordinals is comparing dates. */
  predicate Before(a: Date, b: Date)
  {
    a.year < b.year || (a.year == b.year && (a.month < b.month || (a.month == b.month && a.day < b.day)))
  }

  lemma OrdinalOrder(a: Date, b: Date)
    requires Valid(a) && Valid(b)
    ensures Before(a, b) <==> Ordinal(a) < Ordinal(b)
    ensures a == b <==> Ordinal(a) == Ordinal(b)
  {
    if Before(a, b) { OrdinalBefore(a, b); }
    if Before(b, a) { OrdinalBefore(b, a); }
  }

  lemma OrdinalBefore(a: Date, b: Date)
    requires Valid(a) && Valid(b) && Before(a, b)
    ensures Ordinal(a) < Ordinal(b)
  {
    if a.year < b.year {
      DaysBeforeMonthGrows(a.year, a.month, 13);
      DaysBeforeYearGrows(a.year, b.year);
      DaysBeforeMonthGrows(b.year, 1, b.month);
    } else if a.month < b.month {
      DaysBeforeMonthGrows(a.year, a.month, b.month);
    }
  }

  // ---------------------------------------------------------------------------
  // counting Wednesdays

  /** The Wednesdays among days `a` to `b`, both included. */
  function Wednesdays(a: int, b: int): nat
    decreases b - a + 1
  {
    if b < a then 0 else Wednesdays(a, b - 1) + (if Weekday(b) == WEDNESDAY then 1 else 0)
  }

  /** Day `n` is a Wednesday exactly when n % 7 == 3; there are (n + 4) / 7
      of them among days 1..n. */
  lemma {:induction false} WednesdaysClosedForm(a: int, b: int)
    requires a >= 1 && b >= a - 1
    ensures Wednesdays(a, b) == (b + 4) / 7 - (a + 3) / 7
    decreases b - a + 1
  {
    if b >= a {
      WednesdaysClosedForm(a, b - 1);
      DivStep7(b);
    }
  }

  /** What the walk produces: no step at all when the start is after the
      end; otherwise the count, unless the end is 9999-12-31, where the step
      past the last day raises. */
  function Walk(start: int, end: int): Option<nat>
  {
    if start > end then Some(0) else if end == MAX_ORDINAL then None else Some(Wednesdays(start, end))
  }

  /** The `while current_date <= end_date` loop, on ordinals. None is the
      `OverflowError` of `current_date += timedelta(days=1)` past the last
      representable day. */
  method CountWednesdays(start: int, end: int) returns (r: Option<nat>)
    requires 1 <= start <= MAX_ORDINAL && 1 <= end <= MAX_ORDINAL
    ensures r == Walk(start, end)
  {
    var current := start;
    var count := 0;
    while current <= end
      invariant start <= current <= MAX_ORDINAL
      invariant start <= end ==> current <= end + 1
      invariant start > end ==> current == start
      invariant count == Wednesdays(start, current - 1)
      decreases end - current + 1
    {
      if Weekday(current) == WEDNESDAY {
        count := count + 1;
      }
      if current == MAX_ORDINAL {
        return None;
      }
      current := current + 1;
    }
    return Some(count);
  }

  // ---------------------------------------------------------------------------
  // re.findall(r'\d{4}-\d{2}-\d{2}', question) and strptime

  /** A `\d{4}-\d{2}-\d{2}` match starts at `p`. */
  predicate DateShapeAt(s: string, p: nat)
  {
    p + 10 <= |s| &&
    IsDigit(s[p]) && IsDigit(s[p + 1]) && IsDigit(s[p + 2]) && IsDigit(s[p + 3]) && s[p + 4] == '-' &&
    IsDigit(s[p + 5]) && IsDigit(s[p + 6]) && s[p + 7] == '-' && IsDigit(s[p + 8]) && IsDigit(s[p + 9])
  }

  predicate DateShape(t: string) { |t| == 10 && DateShapeAt(t, 0) }

  /** The matches found scanning from `p`; each resumes after the previous
      one. */
  function DateMatchesFrom(s: string, p: nat): (ms: seq<string>)
    ensures forall k :: 0 <= k < |ms| ==> DateShape(ms[k])
    decreases |s| - p
  {
    if p + 10 > |s| then []
    else if DateShapeAt(s, p) then
      var t := s[p..p + 10];
      assert DateShape(t) by { assert forall k :: 0 <= k < 10 ==> t[k] == s[p + k]; }
      [s[p..p + 10]] + DateMatchesFrom(s, p + 10)
    else DateMatchesFrom(s, p + 1)
  }

  function DateMatches(s: string): seq<string> { DateMatchesFrom(s, 0) }

  /** Positions where no match starts are passed over. */
  lemma {:induction false} DateMatchesSkip(s: string, p: nat, q: nat)
    requires p <= q <= |s|
    requires forall i :: p <= i < q ==> !DateShapeAt(s, i)
    ensures DateMatchesFrom(s, p) == DateMatchesFrom(s, q)
    decreases q - p
  {
    if p < q && p + 10 <= |s| {
      DateMatchesSkip(s, p + 1, q);
    } else if p < q {
      NoMatchTail(s, p);
      NoMatchTail(s, q);
    }
  }

  lemma NoMatchTail(s: string, p: nat)
    requires p + 10 > |s|
    ensures DateMatchesFrom(s, p) == []
  {
  }

  /** `findall` scans left to right: text without a match up to the first
      `YYYY-MM-DD`, then that date, then the matches after it. */
  lemma DateMatchesOf(a: string, d: string, b: string)
    requires DateShape(d)
    requires forall i :: 0 <= i < |a| ==> !DateShapeAt(a + d + b, i)
    ensures DateMatches(a + d + b) == [d] + DateMatchesFrom(a + d + b, |a| + 10)
  {
    var s := a + d + b;
    DateMatchesSkip(s, 0, |a|);
    assert s[|a|..|a| + 10] == d;
    assert DateShapeAt(s, |a|) by {
      forall k | 0 <= k < 10 ensures s[|a| + k] == d[k] { }
    }
  }

  /** What is left after a date is scanned like a text of its own. */
  lemma DateMatchesRest(a: string, d: string, b: string)
    requires |d| == 10
    ensures DateMatchesFrom(a + d + b, |a| + 10) == DateMatches(b)
  {
    var s := a + d + b;
    RestFrom(s, |a| + 10, b, 0);
  }

  lemma {:induction false} RestFrom(s: string, base: nat, b: string, p: nat)
    requires base + |b| == |s| && s[base..] == b && p <= |b|
    ensures DateMatchesFrom(s, base + p) == DateMatchesFrom(b, p)
    decreases |b| - p
  {
    if p + 10 <= |b| {
      assert DateShapeAt(s, base + p) <==> DateShapeAt(b, p) by {
        forall k | p <= k < p + 10 ensures s[base + k] == b[k] { }
      }
      assert s[base + p..base + p + 10] == s[base..][p..p + 10];
      if DateShapeAt(b, p) {
        RestFrom(s, base, b, p + 10);
      } else {
        RestFrom(s, base, b, p + 1);
      }
    }
  }

  /** A text in which no `YYYY-MM-DD` starts has no matches. */
  lemma NoDateNoMatches(s: string)
    requires forall i :: 0 <= i < |s| ==> !DateShapeAt(s, i)
    ensures DateMatches(s) == []
  {
    DateMatchesSkip(s, 0, |s|);
  }

  /** A question made of exactly two dates and text with no other date
      around them has those two matches, in order. */
  lemma TwoDates(a: string, d: string, b: string, e: string, c: string)
    requires DateShape(d) && DateShape(e)
    requires forall i :: 0 <= i < |a| ==> !DateShapeAt(a + d + b + e + c, i)
    requires forall i :: 0 <= i < |b| ==> !DateShapeAt(b + e + c, i)
    requires forall i :: 0 <= i < |c| ==> !DateShapeAt(c, i)
    ensures DateMatches(a + d + b + e + c) == [d, e]
  {
    var rest := b + e + c;
    assert a + d + b + e + c == a + d + rest;
    DateMatchesOf(a, d, rest);
    DateMatchesRest(a, d, rest);
    DateMatchesOf(b, e, c);
    DateMatchesRest(b, e, c);
    NoDateNoMatches(c);
  }

  /** The value of the digits `t[i..i + n]`, digit by digit. */
  function DigitsAt(t: string, i: nat, n: nat): nat
    requires i + n <= |t| && forall k :: i <= k < i + n ==> IsDigit(t[k])
  {
    if n == 0 then 0 else 10 * DigitsAt(t, i, n - 1) + DigitValue(t[i + n - 1])
  }

  lemma {:induction false} DecimalDigitsAt(t: string, i: nat, n: nat)
    requires i + n <= |t| && forall k :: i <= k < i + n ==> IsDigit(t[k])
    ensures AllDigits(t[i..i + n]) && Decimal(t[i..i + n]) == DigitsAt(t, i, n)
  {
    if n > 0 {
      DecimalDigitsAt(t, i, n - 1);
      assert t[i..i + n][..n - 1] == t[i..i + n - 1];
    }
  }

  /** The date `YYYY-MM-DD` spells out, before any range check. */
  function Fields(t: string): Date
    requires DateShape(t)
  {
    Date(DigitsAt(t, 0, 4), DigitsAt(t, 5, 2), DigitsAt(t, 8, 2))
  }

  /** `datetime.strptime(t, '%Y-%m-%d')` on a matched `YYYY-MM-DD`; None is
      the ValueError for year 0, month 00 or past 12, day 00 or past the
      month's end.  It accepts exactly the spelled-out dates that exist, and
      gives that date. */
  function ParseDate(t: string): (r: Option<Date>)
    requires DateShape(t)
    ensures r.Some? <==> Valid(Fields(t))
    ensures r.Some? ==> r.value == Fields(t)
  {
    DecimalDigitsAt(t, 0, 4);
    DecimalDigitsAt(t, 5, 2);
    DecimalDigitsAt(t, 8, 2);
    var d := Date(Decimal(t[0..4]), Decimal(t[5..7]), Decimal(t[8..10]));
    if Valid(d) then Some(d) else None
  }

  /** Two concrete dates: an existing one and a 29 February of a common
      year. */
  lemma ParseDateExamples()
    ensures ParseDate("2022-01-05") == Some(Date(2022, 1, 5))
    ensures ParseDate("2023-02-29") == None
  {
    var t, u := "2022-01-05", "2023-02-29";
    assert DateShape(t) && DateShape(u);
    assert Fields(t) == Date(2022, 1, 5);
    assert Fields(u) == Date(2023, 2, 29);
  }

  /** `_process_date_range_calculation`, as a function of the question. */
  function DateRange(question: string): Outcome
  {
    var ms := DateMatches(question);
    if |ms| != 2 then Failure(TWO_DATES)
    else match (ParseDate(ms[0]), ParseDate(ms[1]))
      case (Some(a), Some(b)) =>
        (match Walk(Ordinal(a), Ordinal(b))
         case Some(n) => Counted(a, b, n)
         case None => Raised)
      case _ => Raised
  }

  /** The handler with its day-by-day loop. */
  method DateRangeCalculation(question: string) returns (r: Outcome)
    ensures r == DateRange(question)
  {
    var ms := DateMatches(question);
    if |ms| != 2 {
      return Failure(TWO_DATES);
    }
    var a := ParseDate(ms[0]);
    var b := ParseDate(ms[1]);
    if a.None? || b.None? {
      return Raised;
    }
    OrdinalBounds(a.value);
    OrdinalBounds(b.value);
    var n := CountWednesdays(Ordinal(a.value), Ordinal(b.value));
    if n.None? {
      return Raised;
    }
    return Counted(a.value, b.value, n.value);
  }

  lemma OrdinalBounds(d: Date)
    requires Valid(d)
    ensures 1 <= Ordinal(d) <= MAX_ORDINAL
  {
    var last := Date(MAX_YEAR, 12, 31);
    DaysBeforeMonthGrows(d.year, 1, d.month);
    if d != last {
      assert Before(d, last);
      OrdinalBefore(d, last);
    }
  }

  // ---------------------------------------------------------------------------
  // what the answer is

  /** With two valid dates, the end before 9999-12-31 and the start not
      after it, the answer is the number of Wednesdays between them, both
      included, in closed form; a start after the end gives 0. */
  lemma DateRangeAnswer(question: string)
    requires |DateMatches(question)| == 2
    requires ParseDate(DateMatches(question)[0]).Some? && ParseDate(DateMatches(question)[1]).Some?
    ensures var a := ParseDate(DateMatches(question)[0]).value;
      var b := ParseDate(DateMatches(question)[1]).value;
      (Before(b, a) ==> DateRange(question) == Counted(a, b, 0)) &&
      (!Before(b, a) && b != Date(MAX_YEAR, 12, 31) ==>
        DateRange(question).Counted? && DateRange(question).start == a && DateRange(question).end == b &&
        DateRange(question).answer == (Ordinal(b) + 4) / 7 - (Ordinal(a) + 3) / 7) &&
      (!Before(b, a) && b == Date(MAX_YEAR, 12, 31) ==> DateRange(question) == Raised)
  {
    var a := ParseDate(DateMatches(question)[0]).value;
    var b := ParseDate(DateMatches(question)[1]).value;
    assert DateRange(question) ==
      (match Walk(Ordinal(a), Ordinal(b)) case Some(n) => Counted(a, b, n) case None => Raised);
    WalkAnswer(a, b);
  }

  /** The walk between two valid dates, in closed form. */
  lemma WalkAnswer(a: Date, b: Date)
    requires Valid(a) && Valid(b)
    ensures Before(b, a) ==> Walk(Ordinal(a), Ordinal(b)) == Some(0)
    ensures !Before(b, a) && b != Date(MAX_YEAR, 12, 31) ==>
      Walk(Ordinal(a), Ordinal(b)) == Some((Ordinal(b) + 4) / 7 - (Ordinal(a) + 3) / 7)
    ensures !Before(b, a) && b == Date(MAX_YEAR, 12, 31) ==> Walk(Ordinal(a), Ordinal(b)) == None
  {
    OrdinalOrder(a, b);
    LastOrdinal(b);
    OrdinalBounds(a);
    WalkCases(Ordinal(a), Ordinal(b));
  }

  lemma WalkCases(x: int, y: int)
    requires x >= 1
    ensures y < x ==> Walk(x, y) == Some(0)
    ensures x <= y && y != MAX_ORDINAL ==> Walk(x, y) == Some((y + 4) / 7 - (x + 3) / 7)
    ensures x <= y && y == MAX_ORDINAL ==> Walk(x, y) == None
  {
    if x <= y {
      WednesdaysClosedForm(x, y);
    }
  }

  /** Only 9999-12-31 has the last ordinal. */
  lemma LastOrdinal(b: Date)
    requires Valid(b)
    ensures Ordinal(b) == MAX_ORDINAL <==> b == Date(MAX_YEAR, 12, 31)
  {
    OrdinalOrder(b, Date(MAX_YEAR, 12, 31));
    OrdinalBounds(b);
  }

  /** Fewer or more than two dates in the question is the extraction
      error. */
  lemma NotTwoDates(question: string)
    requires |DateMatches(question)| != 2
    ensures DateRange(question) == Failure(TWO_DATES)
  {
  }

  /** Two matches of which one is not a date that exists: `strptime`
      raises, and the handler's envelope catches it. */
  lemma InvalidDate(question: string)
    requires |DateMatches(question)| == 2
    requires !Valid(Fields(DateMatches(question)[0])) || !Valid(Fields(DateMatches(question)[1]))
    ensures DateRange(question) == Raised
  {
    var ms := DateMatches(question);
    assert ParseDate(ms[0]).None? || ParseDate(ms[1]).None?;
  }

  /** January 2022 has four Wednesdays (the 5th, 12th, 19th and 26th). */
  lemma January2022()
    ensures Walk(Ordinal(Date(2022, 1, 1)), Ordinal(Date(2022, 1, 31))) == Some(4)
  {
    January2022Ordinals();
    MaxOrdinalValue();
    WednesdaysClosedForm(738156, 738186);
  }

  lemma January2022Ordinals()
    ensures Ordinal(Date(2022, 1, 1)) == 738156 && Ordinal(Date(2022, 1, 31)) == 738186
  {
    assert DaysBeforeYear(2022) == 738155;
  }

  /** 9999-12-31 is day 3652059. */
  lemma MaxOrdinalValue()
    ensures MAX_ORDINAL == 3652059
  {
    assert DaysBeforeYear(MAX_YEAR) == 3651694;
    MonthTable(MAX_YEAR);
    assert DaysBeforeMonth(MAX_YEAR, 13) == 365;
    assert DaysBeforeMonth(MAX_YEAR, 12) == 334;
  }
}
