/** Dates of the proleptic Gregorian calendar, as Python's `datetime.date`
    represents them: a year in 1..9999, a month and a day of that month.
    Day arithmetic (`date ± timedelta(days=k)`) goes through a day number,
    the days-from-civil conversion. */
module Calendar {

  datatype Date = Date(year: int, month: int, day: int)

  const MinYear: int := 1
  const MaxYear: int := 9999
  const FirstDate: Date := Date(1, 1, 1)
  const LastDate: Date := Date(9999, 12, 31)

  predicate IsLeapYear(y: int) {
    y % 4 == 0 && (y % 100 != 0 || y % 400 == 0)
  }

  function YearLength(y: int): int {
    if IsLeapYear(y) then 366 else 365
  }

  function DaysInMonth(y: int, m: int): (n: int)
    requires 1 <= m <= 12
    ensures 28 <= n <= 31
    ensures m == 2 ==> (n == 29 <==> IsLeapYear(y))
  {
    if m == 2 then (if IsLeapYear(y) then 29 else 28)
    else if m == 4 || m == 6 || m == 9 || m == 11 then 30
    else 31
  }

  /** A real calendar date, from year 1 on, without the upper year bound. */
  predicate IsCalendarDate(d: Date) {
    MinYear <= d.year && 1 <= d.month <= 12 && 1 <= d.day <= DaysInMonth(d.year, d.month)
  }

  /** A date Python's `datetime.date` can represent. */
  predicate ValidDate(d: Date) {
    IsCalendarDate(d) && d.year <= MaxYear
  }

  /** Chronological order: year, then month, then day. */
  predicate DateLe(a: Date, b: Date) {
    a.year < b.year || (a.year == b.year && (a.month < b.month || (a.month == b.month && a.day <= b.day)))
  }

  predicate DateLt(a: Date, b: Date) {
    DateLe(a, b) && a != b
  }

  // ---------------------------------------------------------------------
  // Days from civil
  // ---------------------------------------------------------------------

  /** Days in the years before `y`, counted from 0001-01-01. */
  function DaysBeforeYear(y: int): int
    requires y >= 1
  {
    var n := y - 1;
    365 * n + n / 4 - n / 100 + n / 400
  }

  /** Days in the months of year `y` before month `m` (`m == 13` gives the
      whole year). */
  function DaysBeforeMonth(y: int, m: int): int
    requires 1 <= m <= 13
  {
    var common :=
      if m == 1 then 0 else if m == 2 then 31 else if m == 3 then 59
      else if m == 4 then 90 else if m == 5 then 120 else if m == 6 then 151
      else if m == 7 then 181 else if m == 8 then 212 else if m == 9 then 243
      else if m == 10 then 273 else if m == 11 then 304 else if m == 12 then 334
      else 365;
    if m > 2 && IsLeapYear(y) then common + 1 else common
  }

  /** The number of days from 0001-01-01 to `d` (Python's `toordinal() - 1`). */
  function DayNumber(d: Date): int
    requires IsCalendarDate(d)
  {
    DaysBeforeYear(d.year) + DaysBeforeMonth(d.year, d.month) + d.day - 1
  }

  /** Day of the week, 0 for Monday through 6 for Sunday (Python's `weekday()`). */
  function Weekday(d: Date): (w: int)
    requires IsCalendarDate(d)
    ensures 0 <= w <= 6
  {
    DayNumber(d) % 7
  }

  lemma MonthStep(y: int, m: int)
    requires 1 <= m <= 12
    ensures DaysBeforeMonth(y, m + 1) == DaysBeforeMonth(y, m) + DaysInMonth(y, m)
  {
  }

  lemma YearStep(y: int)
    requires y >= 1
    ensures DaysBeforeYear(y + 1) == DaysBeforeYear(y) + YearLength(y)
  {
    var n := y - 1;
    assert DaysBeforeYear(y + 1) == 365 * y + y / 4 - y / 100 + y / 400;
    assert DaysBeforeYear(y) == 365 * n + n / 4 - n / 100 + n / 400;
    LeapDays(y);
  }

  /** The leap days counted up to year `y` grow by one exactly in a leap
      year. */
  lemma LeapDays(y: int)
    requires y >= 1
    ensures var n := y - 1;
            (y / 4 - n / 4) - (y / 100 - n / 100) + (y / 400 - n / 400) == (if IsLeapYear(y) then 1 else 0)
  {
    StepBy4(y);
    StepBy100(y);
    StepBy400(y);
    Divides(y);
  }

  lemma Divides(y: int)
    ensures y % 400 == 0 ==> y % 100 == 0
    ensures y % 100 == 0 ==> y % 4 == 0
  {
    if y % 400 == 0 {
      assert y == 100 * (4 * (y / 400));
      HundredFold(4 * (y / 400));
    }
    if y % 100 == 0 {
      assert y == 4 * (25 * (y / 100));
      FourFold(25 * (y / 100));
    }
  }

  lemma HundredFold(q: int)
    ensures (100 * q) % 100 == 0
  {
  }

  lemma FourFold(q: int)
    ensures (4 * q) % 4 == 0
  {
  }



  lemma StepBy4(y: int)
    requires y >= 1
    ensures y / 4 - (y - 1) / 4 == (if y % 4 == 0 then 1 else 0)
  {
  }

  lemma StepBy100(y: int)
    requires y >= 1
    ensures y / 100 - (y - 1) / 100 == (if y % 100 == 0 then 1 else 0)
  {
  }

  lemma StepBy400(y: int)
    requires y >= 1
    ensures y / 400 - (y - 1) / 400 == (if y % 400 == 0 then 1 else 0)
  {
  }

  /** Every date of year `y1` comes before the first day of a later year. */
  lemma {:induction false} YearsOrdered(y1: int, y2: int)
    requires 1 <= y1 < y2
    ensures DaysBeforeYear(y1) + YearLength(y1) <= DaysBeforeYear(y2)
    decreases y2 - y1
  {
    YearStep(y1);
    if y1 + 1 < y2 {
      YearsOrdered(y1 + 1, y2);
    }
  }

  lemma DayOfYearBounds(d: Date)
    requires IsCalendarDate(d)
    ensures 0 <= DaysBeforeMonth(d.year, d.month) + d.day - 1 < YearLength(d.year)
  {
  }

  lemma MonthsOrdered(y: int, m1: int, m2: int)
    requires 1 <= m1 < m2 <= 12
    ensures DaysBeforeMonth(y, m1) + DaysInMonth(y, m1) <= DaysBeforeMonth(y, m2)
  {
  }

  /** The day number is strictly increasing in chronological order; in
      particular it is one-to-one. */
  lemma DayNumberOrder(a: Date, b: Date)
    requires IsCalendarDate(a) && IsCalendarDate(b)
    ensures DateLe(a, b) <==> DayNumber(a) <= DayNumber(b)
    ensures a == b <==> DayNumber(a) == DayNumber(b)
  {
    DayOfYearBounds(a);
    DayOfYearBounds(b);
    if a.year < b.year {
      YearsOrdered(a.year, b.year);
    } else if b.year < a.year {
      YearsOrdered(b.year, a.year);
    } else if a.month < b.month {
      MonthsOrdered(a.year, a.month, b.month);
    } else if b.month < a.month {
      MonthsOrdered(a.year, b.month, a.month);
    }
  }

  /** A calendar date is representable exactly when it is not past
      9999-12-31. */
  lemma BeforeLastDate(d: Date)
    requires IsCalendarDate(d)
    ensures ValidDate(d) <==> DayNumber(d) <= DayNumber(LastDate)
  {
    DayNumberOrder(d, LastDate);
  }

  lemma DayNumberNonNegative(d: Date)
    requires IsCalendarDate(d)
    ensures DayNumber(d) >= 0 && (DayNumber(d) == 0 <==> d == FirstDate)
  {
    DayNumberOrder(FirstDate, d);
  }

  // ---------------------------------------------------------------------
  // Stepping one day at a time
  // ---------------------------------------------------------------------

  function NextDay(d: Date): Date
    requires IsCalendarDate(d)
  {
    if d.day < DaysInMonth(d.year, d.month) then Date(d.year, d.month, d.day + 1)
    else if d.month < 12 then Date(d.year, d.month + 1, 1)
    else Date(d.year + 1, 1, 1)
  }

  function PrevDay(d: Date): Date
    requires IsCalendarDate(d) && d != FirstDate
  {
    if d.day > 1 then Date(d.year, d.month, d.day - 1)
    else if d.month > 1 then Date(d.year, d.month - 1, DaysInMonth(d.year, d.month - 1))
    else Date(d.year - 1, 12, 31)
  }

  lemma NextDayNumber(d: Date)
    requires IsCalendarDate(d)
    ensures IsCalendarDate(NextDay(d))
    ensures DayNumber(NextDay(d)) == DayNumber(d) + 1
  {
    if d.day == DaysInMonth(d.year, d.month) {
      if d.month < 12 {
        MonthStep(d.year, d.month);
      } else {
        YearStep(d.year);
      }
    }
  }

  lemma PrevDayNumber(d: Date)
    requires IsCalendarDate(d) && d != FirstDate
    ensures IsCalendarDate(PrevDay(d))
    ensures DayNumber(PrevDay(d)) == DayNumber(d) - 1
  {
    var p := PrevDay(d);
    if d.day == 1 {
      if d.month > 1 {
        MonthStep(d.year, d.month - 1);
      } else {
        YearStep(d.year - 1);
      }
    }
    assert NextDay(p) == d;
    NextDayNumber(p);
  }

  /** `d + timedelta(days=k)`: the date `k` days later. */
  function AddDays(d: Date, k: nat): (r: Date)
    requires IsCalendarDate(d)
    ensures IsCalendarDate(r) && DayNumber(r) == DayNumber(d) + k
    decreases k
  {
    if k == 0 then d
    else
      NextDayNumber(d);
      AddDays(NextDay(d), k - 1)
  }

  /** `d - timedelta(days=k)`: the date `k` days earlier, when there is one. */
  function SubDays(d: Date, k: nat): (r: Date)
    requires IsCalendarDate(d) && k <= DayNumber(d)
    ensures IsCalendarDate(r) && DayNumber(r) == DayNumber(d) - k
    decreases k
  {
    if k == 0 then d
    else
      DayNumberNonNegative(d);
      PrevDayNumber(d);
      SubDays(PrevDay(d), k - 1)
  }

  /** 0001-01-01 is a Monday in the proleptic Gregorian calendar. */
  lemma FirstDateIsMonday()
    ensures Weekday(FirstDate) == 0
  {
  }
}
