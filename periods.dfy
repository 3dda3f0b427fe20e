/** Budget periods and the period calculator: the inclusive date window
    (weekly Monday to Sunday, monthly first to last day, yearly 1 January to
    31 December) that contains a reference date. */
module Periods {
  import opened Wrappers
  import opened Text
  import opened Calendar
  import opened IsoDate

  datatype Period = Weekly | Monthly | Yearly

  /** The name stored in the `period` column. */
  function PeriodName(p: Period): string {
    match p
    case Weekly => "weekly"
    case Monthly => "monthly"
    case Yearly => "yearly"
  }

  /** `period.lower()` checked against ("weekly", "monthly", "yearly"). */
  function ParsePeriod(text: string): (r: Option<Period>)
    ensures r.Some? <==> Lower(text) == "weekly" || Lower(text) == "monthly" || Lower(text) == "yearly"
    ensures r.Some? ==> PeriodName(r.value) == Lower(text)
  {
    var t := Lower(text);
    if t == "weekly" then Some(Weekly)
    else if t == "monthly" then Some(Monthly)
    else if t == "yearly" then Some(Yearly)
    else None
  }

  /** A stored period name reads back as its period, and a text selects that
      period exactly when its lowercase form is the name, whatever the letter
      case of the text. */
  lemma ParsePeriodName(p: Period)
    ensures ParsePeriod(PeriodName(p)) == Some(p)
    ensures forall t :: ParsePeriod(t) == Some(p) <==> Lower(t) == PeriodName(p)
    ensures ParsePeriod("Weekly") == Some(Weekly) && ParsePeriod("MONTHLY") == Some(Monthly)
    ensures ParsePeriod("daily") == None
  {
    LowerUnchanged("weekly");
    LowerUnchanged("monthly");
    LowerUnchanged("yearly");
    assert Lower("Weekly") == "weekly" && Lower("MONTHLY") == "monthly";
    assert Lower("daily")[0] == 'd';
  }

  // ---------------------------------------------------------------------
  // The window of a period around a date
  // ---------------------------------------------------------------------

  /** The window `_get_period_range` computes for an already parsed period
      and reference date. Python raises when the computation steps past
      9999-12-31; that is `Err(DateOutOfRange)` here. */
  function PeriodWindow(p: Period, base: Date): Result<(Date, Date), Error>
    requires ValidDate(base)
  {
    match p
    case Weekly =>
      var start := WeekStart(base);
      var end := AddDays(start, 6);
      if ValidDate(end) then Ok((start, end)) else Err(DateOutOfRange)
    case Monthly =>
      var start := Date(base.year, base.month, 1);
      var next := if start.month == 12 then Date(start.year + 1, 1, 1) else Date(start.year, start.month + 1, 1);
      if ValidDate(next) then Ok((start, PrevDay(next))) else Err(DateOutOfRange)
    case Yearly =>
      Ok((Date(base.year, 1, 1), Date(base.year, 12, 31)))
  }

  /** `reference - timedelta(days=reference.weekday())`: the Monday on or
      before the reference date, which always exists. */
  function WeekStart(base: Date): (start: Date)
    requires IsCalendarDate(base)
    ensures IsCalendarDate(start) && DayNumber(start) == DayNumber(base) - Weekday(base)
  {
    DayNumberNonNegative(base);
    RemainderBelow(DayNumber(base), Weekday(base));
    SubDays(base, Weekday(base))
  }

  lemma RemainderBelow(n: int, w: int)
    requires n >= 0 && w == n % 7
    ensures w <= n
  {
  }

  /** The reference date: a non-empty reference text read by `strptime`, or
      `today` when the reference is absent or empty. */
  function ReferenceDate(reference: Option<string>, today: Date): Option<Date> {
    if reference.Some? && reference.value != "" then StrptimeParse(reference.value) else Some(today)
  }

  /** `_get_period_range(period, reference_date)`: the period name is
      lowercased, the reference date is read, then the period name is
      checked. A window returned holds the reference date, and both its ends
      are real dates. */
  function PeriodRange(periodText: string, reference: Option<string>, today: Date): (r: Result<(Date, Date), Error>)
    requires ValidDate(today)
    ensures r.Ok? ==>
              && ReferenceDate(reference, today).Some?
              && ValidDate(r.value.0) && ValidDate(r.value.1)
              && DateLe(r.value.0, ReferenceDate(reference, today).value)
              && DateLe(ReferenceDate(reference, today).value, r.value.1)
  {
    var base := ReferenceDate(reference, today);
    if base.None? then Err(BadDate)
    else match ParsePeriod(periodText)
      case None => Err(BadPeriod)
      case Some(p) =>
        WindowContainsReference(p, base.value);
        PeriodWindow(p, base.value)
  }

  /** The error cases of the calculator, in the order the source checks them. */
  lemma PeriodRangeErrors(periodText: string, reference: Option<string>, today: Date)
    requires ValidDate(today)
    ensures ReferenceDate(reference, today).None? ==> PeriodRange(periodText, reference, today) == Err(BadDate)
    ensures ReferenceDate(reference, today).Some? ==>
              (PeriodRange(periodText, reference, today) == Err(BadPeriod) <==> ParsePeriod(periodText).None?)
    ensures reference.None? || reference.value == "" ==>
              (ParsePeriod(periodText).Some? ==>
                 PeriodRange(periodText, reference, today) == PeriodWindow(ParsePeriod(periodText).value, today))
  {
  }

  /** Every window holds its reference date, and both ends are real dates. */
  lemma WindowContainsReference(p: Period, base: Date)
    requires ValidDate(base)
    ensures PeriodWindow(p, base).Ok? ==>
              var (start, end) := PeriodWindow(p, base).value;
              ValidDate(start) && ValidDate(end) && DateLe(start, base) && DateLe(base, end)
  {
    match p {
      case Weekly =>
        WeeklyWindow(base);
        if PeriodWindow(p, base).Ok? {
          var (start, end) := PeriodWindow(p, base).value;
          DayNumberOrder(start, base);
          DayNumberOrder(base, end);
        }
      case Monthly =>
        MonthlyWindow(base);
      case Yearly =>
    }
  }

  /** Weekly: the window runs from the Monday on or before the reference date
      to the Sunday six days later, and fails only past 9999-12-31. */
  lemma WeeklyWindow(base: Date)
    requires ValidDate(base)
    ensures PeriodWindow(Weekly, base).Ok? <==>
              DayNumber(base) - Weekday(base) + 6 <= DayNumber(LastDate)
    ensures PeriodWindow(Weekly, base).Ok? ==>
              var (start, end) := PeriodWindow(Weekly, base).value;
              && ValidDate(start) && ValidDate(end)
              && Weekday(start) == 0 && Weekday(end) == 6
              && DayNumber(start) == DayNumber(base) - Weekday(base)
              && DayNumber(end) == DayNumber(start) + 6
  {
    var start := WeekStart(base);
    var end := AddDays(start, 6);
    WeekBounds(base, start, end);
    BeforeLastDate(end);
  }

  /** The Monday and the Sunday of the week of `base`. */
  lemma WeekBounds(base: Date, start: Date, end: Date)
    requires ValidDate(base) && start == WeekStart(base) && end == AddDays(start, 6)
    ensures ValidDate(start) && Weekday(start) == 0 && Weekday(end) == 6
    ensures DayNumber(end) == DayNumber(start) + 6
  {
    WeekArithmetic(DayNumber(base), DayNumber(start), DayNumber(end));
    DayNumberOrder(start, base);
  }

  /** Stepping back to a multiple of 7 and then six days on. */
  lemma WeekArithmetic(n: int, monday: int, sunday: int)
    requires monday == n - n % 7 && sunday == monday + 6
    ensures monday % 7 == 0 && sunday % 7 == 6
  {
    assert monday == 7 * (n / 7);
  }

  /** Weekly windows are the calendar weeks: a date lies in the window of
      `base` exactly when it falls in the same Monday-to-Sunday week. */
  lemma WeeklyMembership(base: Date, d: Date)
    requires ValidDate(base) && IsCalendarDate(d) && PeriodWindow(Weekly, base).Ok?
    ensures var (start, end) := PeriodWindow(Weekly, base).value;
            DateLe(start, d) && DateLe(d, end) <==> DayNumber(d) / 7 == DayNumber(base) / 7
  {
    WeeklyWindow(base);
    var (start, end) := PeriodWindow(Weekly, base).value;
    DayNumberOrder(start, d);
    DayNumberOrder(d, end);
    SameWeek(DayNumber(base), DayNumber(d), DayNumber(start), DayNumber(end));
  }

  lemma SameWeek(n: int, x: int, monday: int, sunday: int)
    requires monday == n - n % 7 && sunday == monday + 6
    ensures monday <= x <= sunday <==> x / 7 == n / 7
  {
    assert monday == 7 * (n / 7);
  }

  /** Monthly: from the 1st to the last day of the reference month (29 days
      for February of a leap year), failing only for December 9999, where the
      source asks for year 10000 to find the next month. */
  lemma MonthlyWindow(base: Date)
    requires ValidDate(base)
    ensures PeriodWindow(Monthly, base).Ok? <==> !(base.year == MaxYear && base.month == 12)
    ensures PeriodWindow(Monthly, base).Ok? ==>
              PeriodWindow(Monthly, base).value ==
                (Date(base.year, base.month, 1), Date(base.year, base.month, DaysInMonth(base.year, base.month)))
  {
  }

  lemma MonthlyMembership(base: Date, d: Date)
    requires ValidDate(base) && IsCalendarDate(d) && PeriodWindow(Monthly, base).Ok?
    ensures var (start, end) := PeriodWindow(Monthly, base).value;
            DateLe(start, d) && DateLe(d, end) <==> d.year == base.year && d.month == base.month
  {
    MonthlyWindow(base);
  }

  /** Yearly: 1 January to 31 December of the reference year; never fails. */
  lemma YearlyWindow(base: Date, d: Date)
    requires ValidDate(base) && IsCalendarDate(d)
    ensures PeriodWindow(Yearly, base) == Ok((Date(base.year, 1, 1), Date(base.year, 12, 31)))
    ensures DateLe(Date(base.year, 1, 1), d) && DateLe(d, Date(base.year, 12, 31)) <==> d.year == base.year
  {
  }

  /** February 2024 has 29 days. */
  lemma MonthlyLeapExample()
    ensures PeriodRange("monthly", None, Date(2024, 2, 15)) == Ok((Date(2024, 2, 1), Date(2024, 2, 29)))
  {
    ParsePeriodName(Monthly);
    MonthlyWindow(Date(2024, 2, 15));
  }

  /** February 2023 has 28 days. */
  lemma MonthlyCommonExample()
    ensures PeriodRange("monthly", None, Date(2023, 2, 15)) == Ok((Date(2023, 2, 1), Date(2023, 2, 28)))
  {
    ParsePeriodName(Monthly);
    MonthlyWindow(Date(2023, 2, 15));
  }

  /** 17 January 2024 is a Wednesday; its week runs from Monday the 15th to
      Sunday the 21st. */
  lemma WeeklyExample()
    ensures PeriodRange("weekly", None, Date(2024, 1, 17)) == Ok((Date(2024, 1, 15), Date(2024, 1, 21)))
  {
    ParsePeriodName(Weekly);
    WeeklyExampleWindow();
  }

  lemma WeeklyExampleWindow()
    ensures PeriodWindow(Weekly, Date(2024, 1, 17)) == Ok((Date(2024, 1, 15), Date(2024, 1, 21)))
  {
    var base := Date(2024, 1, 17);
    assert DayNumber(base) == 738901;
    assert Weekday(base) == 2;
    assert DayNumber(LastDate) == 3652058;
    WeeklyWindow(base);
    var (start, end) := PeriodWindow(Weekly, base).value;
    DayNumberOrder(start, Date(2024, 1, 15));
    DayNumberOrder(end, Date(2024, 1, 21));
  }
}
