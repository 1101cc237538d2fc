/** Timezone-free Gregorian calendar arithmetic, standing in for the
    JavaScript `Date` calls the report view makes: the first and last day of
    a month, and months counted back from the current one. */
module Calendar {

  datatype Date = Date(year: int, month: int, day: int)

  datatype YearMonth = YearMonth(year: int, month: int)

  predicate ValidMonth(ym: YearMonth)
  {
    1 <= ym.month <= 12
  }

  predicate IsLeapYear(year: int)
  {
    year % 4 == 0 && (year % 100 != 0 || year % 400 == 0)
  }

  function DaysInMonth(year: int, month: int): (n: int)
    requires 1 <= month <= 12
    ensures 28 <= n <= 31
  {
    if month == 2 then (if IsLeapYear(year) then 29 else 28)
    else if month == 4 || month == 6 || month == 9 || month == 11 then 30
    else 31
  }

  predicate ValidDate(d: Date)
  {
    1 <= d.month <= 12 && 1 <= d.day <= DaysInMonth(d.year, d.month)
  }

  function NextMonth(ym: YearMonth): (n: YearMonth)
    requires ValidMonth(ym)
    ensures ValidMonth(n)
  {
    if ym.month == 12 then YearMonth(ym.year + 1, 1) else YearMonth(ym.year, ym.month + 1)
  }

  function PreviousMonth(ym: YearMonth): (p: YearMonth)
    requires ValidMonth(ym)
    ensures ValidMonth(p) && NextMonth(p) == ym
  {
    if ym.month == 1 then YearMonth(ym.year - 1, 12) else YearMonth(ym.year, ym.month - 1)
  }

  function FirstDay(ym: YearMonth): Date
  {
    Date(ym.year, ym.month, 1)
  }

  /** The calendar successor of a date. */
  function NextDay(d: Date): (n: Date)
    requires ValidDate(d)
    ensures ValidDate(n)
  {
    if d.day < DaysInMonth(d.year, d.month) then Date(d.year, d.month, d.day + 1)
    else FirstDay(NextMonth(YearMonth(d.year, d.month)))
  }

  /** The date JavaScript means by day zero of `d`'s month when `d` is a
      first of the month, and in general the day before `d`. */
  function DayBefore(d: Date): (p: Date)
    requires ValidDate(d)
    ensures ValidDate(p) && NextDay(p) == d
  {
    if d.day > 1 then Date(d.year, d.month, d.day - 1)
    else
      var prev := PreviousMonth(YearMonth(d.year, d.month));
      Date(prev.year, prev.month, DaysInMonth(prev.year, prev.month))
  }

  /** Lexicographic order of dates, the order of their `YYYY-MM-DD` texts. */
  predicate NotAfter(a: Date, b: Date)
  {
    a.year < b.year
    || (a.year == b.year && a.month < b.month)
    || (a.year == b.year && a.month == b.month && a.day <= b.day)
  }

  datatype DateRange = DateRange(first: Date, last: Date)

  /** The month filter of the report: from `YYYY-MM-01` to day zero of the
      following month. */
  function MonthRange(ym: YearMonth): (r: DateRange)
    requires ValidMonth(ym)
    ensures r.first == FirstDay(ym)
    ensures ValidDate(r.last) && r.last.year == ym.year && r.last.month == ym.month
    ensures NextDay(r.last) == FirstDay(NextMonth(ym))
  {
    DateRange(FirstDay(ym), DayBefore(FirstDay(NextMonth(ym))))
  }

  /** The range ends on the month's last calendar day and holds exactly the
      valid dates of that month. */
  lemma MonthRangeIsWholeMonth(ym: YearMonth)
    requires ValidMonth(ym)
    ensures MonthRange(ym).last.day == DaysInMonth(ym.year, ym.month)
    ensures forall d :: ValidDate(d) ==>
              (NotAfter(MonthRange(ym).first, d) && NotAfter(d, MonthRange(ym).last)
               <==> d.year == ym.year && d.month == ym.month)
  {
  }

  lemma MonthRangeExamples()
    ensures MonthRange(YearMonth(2024, 2)) == DateRange(Date(2024, 2, 1), Date(2024, 2, 29))
    ensures MonthRange(YearMonth(2023, 2)) == DateRange(Date(2023, 2, 1), Date(2023, 2, 28))
    ensures MonthRange(YearMonth(1900, 2)).last == Date(1900, 2, 28)
    ensures MonthRange(YearMonth(2000, 2)).last == Date(2000, 2, 29)
    ensures MonthRange(YearMonth(2024, 12)).last == Date(2024, 12, 31)
    ensures MonthRange(YearMonth(2024, 4)).last == Date(2024, 4, 30)
  {
  }

  // ------------------------------------------------------------------
  // Counting months back, as `new Date(y, m - i, 1)` does
  // ------------------------------------------------------------------

  /** Months since January of year 0. */
  function MonthIndex(ym: YearMonth): int
  {
    ym.year * 12 + (ym.month - 1)
  }

  /** The month with a given index; JavaScript's `Date` normalises a month
      number outside 0..11 the same way. */
  function MonthAt(index: int): (ym: YearMonth)
    ensures ValidMonth(ym) && MonthIndex(ym) == index
  {
    YearMonth(index / 12, index % 12 + 1)
  }

  lemma MonthAtIndex(ym: YearMonth)
    requires ValidMonth(ym)
    ensures MonthAt(MonthIndex(ym)) == ym
  {
  }

  lemma NextMonthAt(index: int)
    ensures NextMonth(MonthAt(index)) == MonthAt(index + 1)
  {
    var m := MonthAt(index);
    var n := NextMonth(m);
    assert MonthIndex(n) == index + 1;
    MonthAtIndex(n);
  }
}
