/**
Calendar dates of the proleptic Gregorian calendar, as `datetime.date` has them:
years 1 to 9999, ordered by their day number.
*/
module Calendar {
  import opened Text

  datatype RawDate = Date(year: int, month: int, day: int)

  predicate IsLeap(year: int) {
    year % 4 == 0 && (year % 100 != 0 || year % 400 == 0)
  }

  function DaysInMonth(year: int, month: int): int {
    if month == 2 then (if IsLeap(year) then 29 else 28)
    else if month in {4, 6, 9, 11} then 30
    else 31
  }

  predicate ValidDate(year: int, month: int, day: int) {
    && 1 <= year <= 9999
    && 1 <= month <= 12
    && 1 <= day <= DaysInMonth(year, month)
  }

  type Date = d: RawDate | ValidDate(d.year, d.month, d.day) witness RawDate.Date(1, 1, 1)

  function DaysBeforeYear(year: int): int {
    (year - 1) * 365 + (year - 1) / 4 - (year - 1) / 100 + (year - 1) / 400
  }

  function DaysBeforeMonth(year: int, month: int): int
    requires 1 <= month <= 12
    decreases month
  {
    if month == 1 then 0 else DaysBeforeMonth(year, month - 1) + DaysInMonth(year, month - 1)
  }

  /** The day number; day 1 is 1 January of year 1. */
  function Ordinal(d: Date): int {
    DaysBeforeYear(d.year) + DaysBeforeMonth(d.year, d.month) + d.day
  }

  /** A calendar month, the unit that the metrics group by. */
  datatype Month = Month(year: int, month: int)

  function MonthOf(d: Date): Month {
    Month(d.year, d.month)
  }

  predicate MonthBefore(a: Month, b: Month) {
    a.year < b.year || (a.year == b.year && a.month < b.month)
  }

  predicate ValidMonth(m: Month) {
    1 <= m.year <= 9999 && 1 <= m.month <= 12
  }

  function FirstDay(m: Month): Date
    requires ValidMonth(m)
  {
    RawDate.Date(m.year, m.month, 1)
  }

  function LastDay(m: Month): Date
    requires ValidMonth(m)
  {
    RawDate.Date(m.year, m.month, DaysInMonth(m.year, m.month))
  }

  lemma YearLength(year: int)
    ensures DaysBeforeYear(year + 1) == DaysBeforeYear(year) + (if IsLeap(year) then 366 else 365)
  {
    assert year / 4 - (year - 1) / 4 == if year % 4 == 0 then 1 else 0;
    assert year / 100 - (year - 1) / 100 == if year % 100 == 0 then 1 else 0;
    assert year / 400 - (year - 1) / 400 == if year % 400 == 0 then 1 else 0;
  }

  lemma {:induction false} MonthsFillTheYear(year: int, month: int)
    requires 1 <= month <= 12
    ensures 0 <= DaysBeforeMonth(year, month)
    ensures DaysBeforeMonth(year, month) + DaysInMonth(year, month) <= if IsLeap(year) then 366 else 365
    decreases 12 - month
  {
    if month == 12 {
      assert DaysBeforeMonth(year, 3) == 31 + DaysInMonth(year, 2);
      assert DaysBeforeMonth(year, 5) == DaysBeforeMonth(year, 3) + 61;
      assert DaysBeforeMonth(year, 7) == DaysBeforeMonth(year, 5) + 61;
      assert DaysBeforeMonth(year, 9) == DaysBeforeMonth(year, 7) + 62;
      assert DaysBeforeMonth(year, 11) == DaysBeforeMonth(year, 9) + 61;
    } else {
      MonthsFillTheYear(year, month + 1);
      assert DaysBeforeMonth(year, month + 1) == DaysBeforeMonth(year, month) + DaysInMonth(year, month);
      MonthsBeforeNonNegative(year, month);
    }
  }

  lemma {:induction false} MonthsBeforeNonNegative(year: int, month: int)
    requires 1 <= month <= 12
    ensures 0 <= DaysBeforeMonth(year, month)
    decreases month
  {
    if month > 1 {
      MonthsBeforeNonNegative(year, month - 1);
    }
  }

  lemma {:induction false} MonthsAscend(year: int, a: int, b: int)
    requires 1 <= a < b <= 12
    ensures DaysBeforeMonth(year, a) + DaysInMonth(year, a) <= DaysBeforeMonth(year, b)
    decreases b - a
  {
    assert DaysBeforeMonth(year, a + 1) == DaysBeforeMonth(year, a) + DaysInMonth(year, a);
    if a + 1 < b {
      MonthsAscend(year, a + 1, b);
    }
  }

  lemma {:induction false} YearsAscend(a: int, b: int)
    requires a < b
    ensures DaysBeforeYear(a) + (if IsLeap(a) then 366 else 365) <= DaysBeforeYear(b)
    decreases b - a
  {
    YearLength(a);
    if a + 1 < b {
      YearsAscend(a + 1, b);
    }
  }

  /** A date of an earlier month has a smaller day number than every date of a later month. */
  lemma EarlierMonthEarlierDay(a: Date, b: Date)
    requires MonthBefore(MonthOf(a), MonthOf(b))
    ensures Ordinal(a) < Ordinal(b)
  {
    MonthsFillTheYear(a.year, a.month);
    MonthsFillTheYear(b.year, b.month);
    if a.year < b.year {
      YearsAscend(a.year, b.year);
    } else {
      MonthsAscend(a.year, a.month, b.month);
    }
  }

  /** The day numbers between the first and the last day of a month are exactly that month's dates. */
  lemma MonthIsARange(m: Month, d: Date)
    requires ValidMonth(m)
    ensures Ordinal(FirstDay(m)) <= Ordinal(d) <= Ordinal(LastDay(m)) <==> MonthOf(d) == m
  {
    if MonthBefore(MonthOf(d), m) {
      EarlierMonthEarlierDay(d, FirstDay(m));
    } else if MonthBefore(m, MonthOf(d)) {
      EarlierMonthEarlierDay(LastDay(m), d);
    }
  }

  /** Day numbers order dates as `datetime.date` compares them: by year, then month, then day. */
  lemma OrdinalOrder(a: Date, b: Date)
    ensures Ordinal(a) < Ordinal(b) <==>
            MonthBefore(MonthOf(a), MonthOf(b)) || (MonthOf(a) == MonthOf(b) && a.day < b.day)
    ensures Ordinal(a) == Ordinal(b) <==> a == b
  {
    if MonthBefore(MonthOf(a), MonthOf(b)) {
      EarlierMonthEarlierDay(a, b);
    } else if MonthBefore(MonthOf(b), MonthOf(a)) {
      EarlierMonthEarlierDay(b, a);
    }
  }

  /** The day after, if the calendar has one. */
  predicate FollowingDay(a: Date, b: Date) {
    if a.day < DaysInMonth(a.year, a.month) then b == RawDate.Date(a.year, a.month, a.day + 1)
    else if a.month < 12 then b == RawDate.Date(a.year, a.month + 1, 1)
    else b == RawDate.Date(a.year + 1, 1, 1)
  }

  /** Day numbers count days: the day after has the next number, and no other date has it. */
  lemma DayNumbersCountDays(a: Date, b: Date)
    ensures FollowingDay(a, b) <==> Ordinal(b) == Ordinal(a) + 1
  {
    var next :=
      if a.day < DaysInMonth(a.year, a.month) then RawDate.Date(a.year, a.month, a.day + 1)
      else if a.month < 12 then RawDate.Date(a.year, a.month + 1, 1)
      else RawDate.Date(a.year + 1, 1, 1);
    if ValidDate(next.year, next.month, next.day) {
      NextDayNumber(a, next);
      OrdinalOrder(b, next);
    } else {
      LastOfAllDays(a, b);
    }
  }

  lemma NextDayNumber(a: Date, b: Date)
    requires FollowingDay(a, b)
    ensures Ordinal(b) == Ordinal(a) + 1
  {
    if a.month == 12 {
      YearLength(a.year);
      assert DaysBeforeMonth(a.year, 3) == 31 + DaysInMonth(a.year, 2);
      assert DaysBeforeMonth(a.year, 5) == DaysBeforeMonth(a.year, 3) + 61;
      assert DaysBeforeMonth(a.year, 7) == DaysBeforeMonth(a.year, 5) + 61;
      assert DaysBeforeMonth(a.year, 9) == DaysBeforeMonth(a.year, 7) + 62;
      assert DaysBeforeMonth(a.year, 11) == DaysBeforeMonth(a.year, 9) + 61;
    }
  }

  lemma LastOfAllDays(a: Date, b: Date)
    requires a.year == 9999 && a.month == 12 && a.day == 31
    ensures Ordinal(b) <= Ordinal(a)
  {
    OrdinalOrder(a, b);
  }

  /** How a date prints: four digits, two and two. */
  function IsoDate(d: Date): string {
    [Digit(d.year / 1000), Digit(d.year / 100), Digit(d.year / 10), Digit(d.year), '-',
     Digit(d.month / 10), Digit(d.month), '-', Digit(d.day / 10), Digit(d.day)]
  }
}
