/** The part of the ISO calendar that the inflation coupon relies on: dates
    as year, month and day, month arithmetic that clamps the day to the
    length of the target month, the first of a month, the previous day, and
    the chronological order. Times of day and time zones are not modelled. */
module Calendar {

  datatype YearMonthDay = YearMonthDay(year: int, month: int, day: int)

  /** The proleptic Gregorian leap-year rule. */
  predicate IsLeapYear(y: int) {
    y % 4 == 0 && (y % 100 != 0 || y % 400 == 0)
  }

  function LengthOfMonth(year: int, month: int): (n: int)
    ensures 28 <= n <= 31
  {
    if month == 2 then (if IsLeapYear(year) then 29 else 28)
    else if month == 4 || month == 6 || month == 9 || month == 11 then 30
    else 31
  }

  /** A date that exists in the calendar. */
  type Date = d: YearMonthDay | 1 <= d.month <= 12 && 1 <= d.day <= LengthOfMonth(d.year, d.month)
    witness YearMonthDay(2000, 1, 1)

  /** Months elapsed since January of year 0. */
  function MonthIndex(d: Date): int {
    d.year * 12 + (d.month - 1)
  }

  /** Adds n months (n may be negative); a day past the end of the target
      month becomes its last day. */
  function PlusMonths(d: Date, n: int): (r: Date)
    ensures MonthIndex(r) == MonthIndex(d) + n
    ensures r.day == if d.day <= LengthOfMonth(r.year, r.month) then d.day else LengthOfMonth(r.year, r.month)
  {
    var index := MonthIndex(d) + n;
    var year := index / 12;
    var month := index % 12 + 1;
    var length := LengthOfMonth(year, month);
    YearMonthDay(year, month, if d.day <= length then d.day else length)
  }

  function MinusMonths(d: Date, n: int): (r: Date)
    ensures MonthIndex(r) == MonthIndex(d) - n
  {
    PlusMonths(d, -n)
  }

  /** The same month, day 1. */
  function FirstOfMonth(d: Date): (r: Date)
    ensures r.day == 1 && MonthIndex(r) == MonthIndex(d)
  {
    YearMonthDay(d.year, d.month, 1)
  }

  /** The calendar day before d. */
  function MinusOneDay(d: Date): (r: Date)
    ensures d.day > 1 ==> MonthIndex(r) == MonthIndex(d) && r.day == d.day - 1
    ensures d.day == 1 ==> MonthIndex(r) == MonthIndex(d) - 1 && r.day == LengthOfMonth(r.year, r.month)
  {
    if d.day > 1 then YearMonthDay(d.year, d.month, d.day - 1)
    else
      var p := PlusMonths(d, -1);
      YearMonthDay(p.year, p.month, LengthOfMonth(p.year, p.month))
  }

  /** Strictly later in time. */
  predicate IsAfter(a: Date, b: Date) {
    a.year > b.year || (a.year == b.year && (a.month > b.month || (a.month == b.month && a.day > b.day)))
  }

  /** The month index determines year and month. */
  lemma MonthIndexInjective(a: Date, b: Date)
    requires MonthIndex(a) == MonthIndex(b)
    ensures a.year == b.year && a.month == b.month
  {
  }

  /** Two dates in the same month with the same day are the same date. */
  lemma SameMonthSameDay(a: Date, b: Date)
    requires MonthIndex(a) == MonthIndex(b) && a.day == b.day
    ensures a == b
  {
    MonthIndexInjective(a, b);
  }

  /** Month arithmetic on the first of a month never clamps, so it
      composes. */
  lemma PlusMonthsCompose(d: Date, m: int, n: int)
    requires d.day == 1
    ensures PlusMonths(PlusMonths(d, m), n) == PlusMonths(d, m + n)
  {
    SameMonthSameDay(PlusMonths(PlusMonths(d, m), n), PlusMonths(d, m + n));
  }

  /** Stepping back one day from the first of the month after d, then to
      the first of that month, returns to the first of d's month. */
  lemma FirstOfMonthBeforeNextMonth(d: Date)
    requires d.day == 1
    ensures FirstOfMonth(MinusOneDay(PlusMonths(d, 1))) == d
  {
    SameMonthSameDay(FirstOfMonth(MinusOneDay(PlusMonths(d, 1))), d);
  }

  /** IsAfter is a strict total order on dates. */
  lemma IsAfterTotal(a: Date, b: Date)
    ensures !IsAfter(a, a)
    ensures IsAfter(a, b) ==> !IsAfter(b, a)
    ensures a != b ==> IsAfter(a, b) || IsAfter(b, a)
  {
  }

  lemma IsAfterTransitive(a: Date, b: Date, c: Date)
    requires IsAfter(a, b) && IsAfter(b, c)
    ensures IsAfter(a, c)
  {
  }

  /** For dates on the first of a month, the order is the order of month
      indices. */
  lemma IsAfterOnFirsts(a: Date, b: Date)
    requires a.day == 1 && b.day == 1
    ensures IsAfter(a, b) <==> MonthIndex(a) > MonthIndex(b)
  {
    if a.year < b.year {
      assert a.year * 12 + 12 <= b.year * 12;
    } else if a.year > b.year {
      assert b.year * 12 + 12 <= a.year * 12;
    }
  }
}
