/** The text form of dates: the ISO 8601 extended calendar-date format
    `YYYY-MM-DD` (section 4.1.2.2 of ISO 8601:2004) that the ledger stores in
    its `date` column, and the `YYYY-MM` month keys SQLite's
    `strftime('%Y-%m', date)` derives from it. */
module IsoDate {
  import opened Wrappers
  import opened Text
  import opened Calendar

  /** `date.strftime("%Y-%m-%d")`. */
  function FormatDate(d: Date): (s: string)
    requires ValidDate(d)
    ensures |s| == 10 && s[4] == '-' && s[7] == '-'
  {
    Decimal(d.year, 4) + "-" + Decimal(d.month, 2) + "-" + Decimal(d.day, 2)
  }

  /** `strftime('%Y-%m', date)`: the month key of a date. */
  function MonthText(d: Date): (s: string)
    requires ValidDate(d)
    ensures |s| == 7 && s[4] == '-'
  {
    Decimal(d.year, 4) + "-" + Decimal(d.month, 2)
  }

  /** Strict reading of `YYYY-MM-DD`: four, two and two digits separated by
      hyphens, naming a real date of the years 1..9999. */
  function ParseDate(s: string): Option<Date> {
    if |s| == 10 && s[4] == '-' && s[7] == '-'
       && AllDigits(s[..4]) && AllDigits(s[5..7]) && AllDigits(s[8..])
    then
      var d := Date(DecimalValue(s[..4]), DecimalValue(s[5..7]), DecimalValue(s[8..]));
      if ValidDate(d) then Some(d) else None
    else None
  }

  lemma FormatDateParts(d: Date)
    requires ValidDate(d)
    ensures FormatDate(d)[..4] == Decimal(d.year, 4)
    ensures FormatDate(d)[5..7] == Decimal(d.month, 2)
    ensures FormatDate(d)[8..] == Decimal(d.day, 2)
  {
  }

  /** Formatting a date and reading it back gives the date. */
  lemma ParseFormatRoundTrip(d: Date)
    requires ValidDate(d)
    ensures ParseDate(FormatDate(d)) == Some(d)
  {
    FormatDateParts(d);
    assert Pow10(4) == 10000 && Pow10(2) == 100;
    DecimalRoundTrip(d.year, 4);
    DecimalRoundTrip(d.month, 2);
    DecimalRoundTrip(d.day, 2);
  }

  /** Text that parses is the canonical text of the date it denotes, so a
      stored date string and the date it names carry the same information. */
  lemma FormatParseRoundTrip(s: string)
    requires ParseDate(s).Some?
    ensures FormatDate(ParseDate(s).value) == s
  {
    DecimalValueRoundTrip(s[..4]);
    DecimalValueRoundTrip(s[5..7]);
    DecimalValueRoundTrip(s[8..]);
    SplitAtHyphens(s);
  }

  /** Canonical date texts sort as the dates they denote: comparing stored
      `date` strings (SQL `ORDER BY date`, `BETWEEN`) is comparing dates. */
  lemma FormatDateOrder(a: Date, b: Date)
    requires ValidDate(a) && ValidDate(b)
    ensures LexLe(FormatDate(a), FormatDate(b)) <==> DateLe(a, b)
  {
    assert Pow10(4) == 10000 && Pow10(2) == 100;
    var ya, yb := Decimal(a.year, 4), Decimal(b.year, 4);
    var ma, mb := Decimal(a.month, 2), Decimal(b.month, 2);
    var da, db := Decimal(a.day, 2), Decimal(b.day, 2);
    DecimalOrder(a.year, b.year, 4);
    DecimalOrder(a.month, b.month, 2);
    DecimalOrder(a.day, b.day, 2);
    DecimalInjective(a.year, b.year, 4);
    DecimalInjective(a.month, b.month, 2);
    LexLeFields(ya, ma, da, yb, mb, db);
  }

  /** The month key is the first seven characters of the date text. */
  lemma MonthTextIsPrefix(d: Date)
    requires ValidDate(d)
    ensures MonthText(d) == FormatDate(d)[..7]
  {
  }

  /** Month keys sort as (year, month) pairs and name one month each. */
  lemma MonthTextOrder(a: Date, b: Date)
    requires ValidDate(a) && ValidDate(b)
    ensures LexLe(MonthText(a), MonthText(b)) <==>
              a.year < b.year || (a.year == b.year && a.month <= b.month)
    ensures MonthText(a) == MonthText(b) <==> a.year == b.year && a.month == b.month
  {
    assert Pow10(4) == 10000 && Pow10(2) == 100;
    var ya, yb := Decimal(a.year, 4), Decimal(b.year, 4);
    var ma, mb := Decimal(a.month, 2), Decimal(b.month, 2);
    DecimalOrder(a.year, b.year, 4);
    DecimalOrder(a.month, b.month, 2);
    DecimalInjective(a.year, b.year, 4);
    DecimalInjective(a.month, b.month, 2);
    assert MonthText(a) == ya + ("-" + ma);
    assert MonthText(b) == yb + ("-" + mb);
    LexLeConcat(ya, "-" + ma, yb, "-" + mb);
    LexLeConcat("-", ma, "-", mb);
    if MonthText(a) == MonthText(b) {
      assert MonthText(a)[..4] == ya && MonthText(b)[..4] == yb;
      assert MonthText(a)[5..] == ma && MonthText(b)[5..] == mb;
    }
  }

  // ---------------------------------------------------------------------
  // What `datetime.strptime(s, "%Y-%m-%d")` accepts
  // ---------------------------------------------------------------------

  /** Python's `strptime` with `%m` and `%d` also accepts a month or a day
      written with a single digit; the text is then stored as given. */
  function StrptimeParse(s: string): (r: Option<Date>)
    ensures r.Some? ==> ValidDate(r.value)
  {
    if |s| >= 7 && AllDigits(s[..4]) && s[4] == '-' then
      var rest := s[5..];
      var split := if rest[1] == '-' then 1 else if |rest| >= 3 && rest[2] == '-' then 2 else 0;
      if split == 0 then None
      else
        var mt, dt := rest[..split], rest[split + 1..];
        if 1 <= |dt| <= 2 && AllDigits(mt) && AllDigits(dt) then
          var d := Date(DecimalValue(s[..4]), DecimalValue(mt), DecimalValue(dt));
          if ValidDate(d) then Some(d) else None
        else None
    else None
  }

  /** Every canonical text is accepted by `strptime` as the same date. */
  lemma StrptimeAcceptsCanonical(s: string)
    requires ParseDate(s).Some?
    ensures StrptimeParse(s) == ParseDate(s)
  {
    assert s[5..][2] == '-' && s[5..][1] != '-';
    assert s[5..][..2] == s[5..7] && s[5..][3..] == s[8..];
  }

  /** As written, `add_expense` stores "2024-1-5" verbatim; as text it sorts
      after "2024-01-31", so the January window `BETWEEN '2024-01-01' AND
      '2024-01-31'` leaves out an expense of 5 January 2024. */
  lemma UnpaddedDateMissesItsMonth()
    ensures StrptimeParse("2024-1-5") == Some(Date(2024, 1, 5))
    ensures DateLe(Date(2024, 1, 1), Date(2024, 1, 5)) && DateLe(Date(2024, 1, 5), Date(2024, 1, 31))
    ensures !LexLe("2024-1-5", "2024-01-31")
  {
    UnpaddedDateRead();
    UnpaddedTextSortsLate();
  }

  lemma UnpaddedDateRead()
    ensures StrptimeParse("2024-1-5") == Some(Date(2024, 1, 5))
  {
    var s := "2024-1-5";
    assert s[..4] == "2024" && s[5..] == "1-5";
    assert "1-5"[..1] == "1" && "1-5"[2..] == "5" && "1"[..0] == "" && "5"[..0] == "";
    DecimalValueOfFour("2024");
  }

  lemma UnpaddedTextSortsLate()
    ensures !LexLe("2024-1-5", "2024-01-31")
  {
    assert "2024-1-5" == "2024-" + "1-5" && "2024-01-31" == "2024-" + "01-31";
    LexLeConcat("2024-", "1-5", "2024-", "01-31");
  }

  /** Corrected: the date `strptime` accepts is stored in its canonical
      text, and that text lies between two window bounds exactly when the
      date lies in the window; "2024-1-5" is then inside January 2024. */
  lemma CanonicalTextWindowIsDateWindow(s: string, start: Date, end: Date)
    requires StrptimeParse(s).Some? && ValidDate(start) && ValidDate(end)
    ensures var stored := FormatDate(StrptimeParse(s).value);
            LexLe(FormatDate(start), stored) && LexLe(stored, FormatDate(end)) <==>
              DateLe(start, StrptimeParse(s).value) && DateLe(StrptimeParse(s).value, end)
    ensures StrptimeParse("2024-1-5") == Some(Date(2024, 1, 5))
    ensures LexLe(FormatDate(Date(2024, 1, 1)), FormatDate(Date(2024, 1, 5)))
    ensures LexLe(FormatDate(Date(2024, 1, 5)), FormatDate(Date(2024, 1, 31)))
  {
    FormatDateOrder(start, StrptimeParse(s).value);
    FormatDateOrder(StrptimeParse(s).value, end);
    UnpaddedDateRead();
    FormatDateOrder(Date(2024, 1, 1), Date(2024, 1, 5));
    FormatDateOrder(Date(2024, 1, 5), Date(2024, 1, 31));
  }

  /** Month 13 is refused by both readings. */
  lemma MonthThirteenRejected()
    ensures ParseDate("2024-13-01") == None && StrptimeParse("2024-13-01") == None
  {
    var t := "2024-13-01";
    assert t[5..7] == "13" && t[5..][..2] == "13" && t[5..][3..] == "01";
    DecimalValueOfTwo("13");
  }

  /** 30 February is refused by both readings. */
  lemma FebruaryThirtiethRejected()
    ensures ParseDate("2023-02-30") == None && StrptimeParse("2023-02-30") == None
  {
    var t := "2023-02-30";
    assert t[..4] == "2023" && t[5..7] == "02" && t[8..] == "30";
    assert t[5..][..2] == "02" && t[5..][3..] == "30";
    DecimalValueOfFour("2023");
    DecimalValueOfTwo("02");
    DecimalValueOfTwo("30");
  }

  /** A real date is accepted by both readings. */
  lemma RealDateAccepted()
    ensures ParseDate("2024-01-15") == Some(Date(2024, 1, 15)) && StrptimeParse("2024-01-15") == Some(Date(2024, 1, 15))
  {
    var t := "2024-01-15";
    assert t[..4] == "2024" && t[5..7] == "01" && t[8..] == "15";
    DecimalValueOfFour("2024");
    DecimalValueOfTwo("01");
    DecimalValueOfTwo("15");
    StrptimeAcceptsCanonical(t);
  }


}
