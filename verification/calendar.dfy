/**
 * Calendar dates and the three `strftime` month labels the pipeline writes
 * into its shared `Month` column: `%b-%y` ("Jan-24"), `%Y-%m` ("2024-01")
 * and `%b` ("Jan").
 */
module Calendar {
  import opened Text

  datatype Day = Day(year: int, month: int, day: int)

  predicate IsLeapYear(y: int)
  {
    y % 4 == 0 && (y % 100 != 0 || y % 400 == 0)
  }

  function DaysInMonth(y: int, m: int): int
    requires 1 <= m <= 12
  {
    if m == 2 then (if IsLeapYear(y) then 29 else 28)
    else if m == 4 || m == 6 || m == 9 || m == 11 then 30
    else 31
  }

  /** A Gregorian date with a four-digit year (pandas timestamps lie inside 1677..2262). */
  predicate ValidDay(d: Day)
  {
    1000 <= d.year <= 9999 && 1 <= d.month <= 12 && 1 <= d.day <= DaysInMonth(d.year, d.month)
  }

  type Date = d: Day | ValidDay(d) witness Day(2000, 1, 1)

  /** `d1` lies in an earlier calendar month than `d2`. */
  predicate MonthBefore(d1: Date, d2: Date)
  {
    d1.year < d2.year || (d1.year == d2.year && d1.month < d2.month)
  }

  predicate SameMonth(d1: Date, d2: Date)
  {
    d1.year == d2.year && d1.month == d2.month
  }

  /** Chronological order of dates. */
  predicate DateBefore(d1: Date, d2: Date)
  {
    MonthBefore(d1, d2) || (SameMonth(d1, d2) && d1.day < d2.day)
  }

  function DaysInYear(y: int): int
  {
    if IsLeapYear(y) then 366 else 365
  }

  /** Days in the proleptic Gregorian years before year `y`. */
  function DaysBeforeYear(y: int): int
  {
    var p := y - 1;
    p * 365 + p / 4 - p / 100 + p / 400
  }

  /** Days in the months of year `y` before month `m`. */
  function DaysBeforeMonth(y: int, m: int): (n: int)
    requires 1 <= m <= 12
    ensures 0 <= n <= 31 * (m - 1)
  {
    if m == 1 then 0 else DaysBeforeMonth(y, m - 1) + DaysInMonth(y, m - 1)
  }

  /** `date.toordinal()`: 0001-01-01 is day 1. */
  function Ordinal(d: Date): int
  {
    DaysBeforeYear(d.year) + DaysBeforeMonth(d.year, d.month) + d.day
  }

  /** `date.weekday()` and pandas' `dt.dayofweek`: Monday is 0, Sunday 6. */
  function Weekday(d: Date): (w: int)
    ensures 0 <= w < 7
  {
    (Ordinal(d) + 6) % 7
  }

  lemma DaysBeforeYearStep(y: int)
    ensures DaysBeforeYear(y + 1) == DaysBeforeYear(y) + DaysInYear(y)
  {
    assert y / 4 - (y - 1) / 4 == if y % 4 == 0 then 1 else 0;
    assert y / 100 - (y - 1) / 100 == if y % 100 == 0 then 1 else 0;
    assert y / 400 - (y - 1) / 400 == if y % 400 == 0 then 1 else 0;
  }

  lemma {:induction false} DaysBeforeYearGrows(y1: int, y2: int)
    requires y1 < y2
    ensures DaysBeforeYear(y1) + DaysInYear(y1) <= DaysBeforeYear(y2)
    decreases y2 - y1
  {
    DaysBeforeYearStep(y1);
    if y1 + 1 < y2 {
      DaysBeforeYearGrows(y1 + 1, y2);
    }
  }

  lemma {:induction false} DaysBeforeMonthGrows(y: int, m1: int, m2: int)
    requires 1 <= m1 < m2 <= 12
    ensures DaysBeforeMonth(y, m1) + DaysInMonth(y, m1) <= DaysBeforeMonth(y, m2)
    decreases m2 - m1
  {
    if m1 + 1 < m2 {
      DaysBeforeMonthGrows(y, m1 + 1, m2);
    }
  }

  lemma MonthsFillYear(y: int, m: int)
    requires 1 <= m <= 12
    ensures DaysBeforeMonth(y, m) + DaysInMonth(y, m) <= DaysInYear(y)
  {
    if m < 12 {
      DaysBeforeMonthGrows(y, m, 12);
    }
    assert DaysBeforeMonth(y, 12) + 31 == DaysInYear(y);
  }

  /** Day numbers follow the calendar: an earlier date has a smaller ordinal, and only equal dates share one. */
  lemma OrdinalChronological(d1: Date, d2: Date)
    ensures DateBefore(d1, d2) <==> Ordinal(d1) < Ordinal(d2)
    ensures d1 == d2 <==> Ordinal(d1) == Ordinal(d2)
  {
    if DateBefore(d1, d2) {
      OrdinalIncreases(d1, d2);
    } else if DateBefore(d2, d1) {
      OrdinalIncreases(d2, d1);
    }
  }

  lemma OrdinalIncreases(d1: Date, d2: Date)
    requires DateBefore(d1, d2)
    ensures Ordinal(d1) < Ordinal(d2)
  {
    if d1.year < d2.year {
      MonthsFillYear(d1.year, d1.month);
      DaysBeforeYearGrows(d1.year, d2.year);
    } else if d1.month < d2.month {
      DaysBeforeMonthGrows(d1.year, d1.month, d2.month);
    }
  }

  /** `%b` in the C locale. */
  function MonthAbbrev(m: int): (s: string)
    requires 1 <= m <= 12
    ensures |s| == 3
  {
    ["Jan", "Feb", "Mar", "Apr", "May", "Jun", "Jul", "Aug", "Sep", "Oct", "Nov", "Dec"][m - 1]
  }

  /** pandas' `dt.quarter`. */
  function Quarter(d: Date): (q: int)
    ensures 1 <= q <= 4
    ensures 3 * (q - 1) < d.month <= 3 * q
  {
    (d.month - 1) / 3 + 1
  }

  /** The three formats the `Month` column is written in. */
  datatype MonthFormat =
    | MonYY      // '%b-%y', written by process_data
    | YearMonth  // '%Y-%m', written by get_kpis and generate_insights
    | MonName    // '%b', written by get_seasonal_trends

  function YearMonthKey(d: Date): string
  {
    PadDigits(d.year, 4) + "-" + PadDigits(d.month, 2)
  }

  function Format(fmt: MonthFormat, d: Date): string
  {
    match fmt
    case MonYY => MonthAbbrev(d.month) + "-" + PadDigits(d.year % 100, 2)
    case YearMonth => YearMonthKey(d)
    case MonName => MonthAbbrev(d.month)
  }

  /** `%Y-%m` keys sort as strings exactly as their months do in time. */
  lemma YearMonthKeyChronological(d1: Date, d2: Date)
    ensures LexLess(Format(YearMonth, d1), Format(YearMonth, d2)) <==> MonthBefore(d1, d2)
    ensures Format(YearMonth, d1) == Format(YearMonth, d2) <==> SameMonth(d1, d2)
  {
    var y1, y2 := PadDigits(d1.year, 4) + "-", PadDigits(d2.year, 4) + "-";
    var m1, m2 := PadDigits(d1.month, 2), PadDigits(d2.month, 2);
    PadDigitsOrder(d1.year, d2.year, 4);
    PadDigitsOrder(d1.month, d2.month, 2);
    LexLessAppend(PadDigits(d1.year, 4), "-", PadDigits(d2.year, 4), "-");
    LexLessIrreflexive("-");
    assert y1 == y2 <==> d1.year == d2.year by {
      if y1 == y2 {
        assert PadDigits(d1.year, 4) == y1[..4] && PadDigits(d2.year, 4) == y2[..4];
      }
    }
    assert LexLess(y1, y2) <==> d1.year < d2.year;
    LexLessAppend(y1, m1, y2, m2);
    if y1 + m1 == y2 + m2 {
      assert y1 == (y1 + m1)[..5] && y2 == (y2 + m2)[..5];
      assert m1 == (y1 + m1)[5..] && m2 == (y2 + m2)[5..];
      assert PadDigits(d1.year, 4) == y1[..4] && PadDigits(d2.year, 4) == y2[..4];
    }
  }

  /** `%b` labels forget the year: two dates share one iff they share the calendar month. */
  lemma MonNameMergesYears(d1: Date, d2: Date)
    ensures Format(MonName, d1) == Format(MonName, d2) <==> d1.month == d2.month
  {
  }

  // ---------------------------------------------------------------------
  // Examples
  // ---------------------------------------------------------------------

  /** 1 January 2024 is day 738886 and a Monday. */
  lemma KnownOrdinal()
    ensures Ordinal(Day(2024, 1, 1)) == 738886 && Weekday(Day(2024, 1, 1)) == 0
  {
  }

  /** `%b-%y` labels do not sort as their months do: April 2024 sorts before January 2024. */
  lemma MonYYLabelsNotChronological()
    ensures var jan, apr := Day(2024, 1, 15), Day(2024, 4, 15);
            MonthBefore(jan, apr) && LexLess(Format(MonYY, apr), Format(MonYY, jan))
  {
    var jan, apr := Day(2024, 1, 15), Day(2024, 4, 15);
    assert Format(MonYY, apr)[0] == 'A' && Format(MonYY, jan)[0] == 'J';
  }
}
