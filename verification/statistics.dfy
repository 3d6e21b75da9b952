/**
 * `calculate_statistics` (src/processor.py): per-type summary figures and
 * the blocks that are present only when enough data is there. Standard
 * deviation, volatility and the regression are not computed: their blocks
 * carry the data they would be computed from.
 */
module Statistics {
  import opened Base
  import opened Order
  import opened Text
  import opened Calendar
  import opened Table
  import opened Grouping
  import opened Monthly
  import Kpis

  // ---------------------------------------------------------------------
  // Amounts: sum, extremes, sorting, mean and median
  // ---------------------------------------------------------------------

  /** `.min()` of a non-empty list. */
  function MinOf(xs: seq<real>): (m: real)
    requires |xs| > 0
    ensures m in xs
    ensures forall i :: 0 <= i < |xs| ==> m <= xs[i]
  {
    if |xs| == 1 then xs[0]
    else
      var rest := MinOf(xs[1..]);
      assert forall i :: 1 <= i < |xs| ==> xs[i] == xs[1..][i - 1];
      if xs[0] <= rest then xs[0] else rest
  }

  /** `.max()` of a non-empty list. */
  function MaxOf(xs: seq<real>): (m: real)
    requires |xs| > 0
    ensures m in xs
    ensures forall i :: 0 <= i < |xs| ==> xs[i] <= m
  {
    if |xs| == 1 then xs[0]
    else
      var rest := MaxOf(xs[1..]);
      assert forall i :: 1 <= i < |xs| ==> xs[i] == xs[1..][i - 1];
      if xs[0] >= rest then xs[0] else rest
  }

  ghost predicate SortedReals(s: seq<real>)
  {
    forall i, j :: 0 <= i < j < |s| ==> s[i] <= s[j]
  }

  function InsertReal(x: real, s: seq<real>): seq<real>
  {
    if |s| == 0 || x <= s[0] then [x] + s else [s[0]] + InsertReal(x, s[1..])
  }

  lemma InsertRealSpec(x: real, s: seq<real>)
    requires SortedReals(s)
    ensures SortedReals(InsertReal(x, s))
    ensures multiset(InsertReal(x, s)) == multiset(s) + multiset{x}
  {
    InsertRealSorted(x, s);
    InsertRealPermutes(x, s);
  }

  lemma {:induction false} InsertRealPermutes(x: real, s: seq<real>)
    ensures multiset(InsertReal(x, s)) == multiset(s) + multiset{x}
  {
    if |s| > 0 && x > s[0] {
      InsertRealPermutes(x, s[1..]);
      assert s == [s[0]] + s[1..];
    }
  }

  lemma {:induction false} InsertRealMembers(x: real, s: seq<real>)
    ensures forall y :: y in InsertReal(x, s) <==> y == x || y in s
  {
    if |s| > 0 && x > s[0] {
      InsertRealMembers(x, s[1..]);
      assert s == [s[0]] + s[1..];
    }
  }

  lemma {:induction false} InsertRealSorted(x: real, s: seq<real>)
    requires SortedReals(s)
    ensures SortedReals(InsertReal(x, s))
  {
    if |s| > 0 && x > s[0] {
      var rest := InsertReal(x, s[1..]);
      InsertRealSorted(x, s[1..]);
      InsertRealMembers(x, s[1..]);
      forall j | 0 <= j < |rest| ensures s[0] <= rest[j] {
        assert rest[j] in rest;
        if rest[j] != x {
          var k :| 0 <= k < |s[1..]| && s[1..][k] == rest[j];
          assert s[0] <= s[k + 1];
        }
      }
    }
  }

  /** `sorted(xs)`, by insertion. */
  function SortReals(xs: seq<real>): seq<real>
  {
    if |xs| == 0 then [] else InsertReal(xs[0], SortReals(xs[1..]))
  }

  lemma {:induction false} SortRealsSpec(xs: seq<real>)
    ensures SortedReals(SortReals(xs))
    ensures multiset(SortReals(xs)) == multiset(xs)
    ensures |SortReals(xs)| == |xs|
  {
    if |xs| > 0 {
      SortRealsSpec(xs[1..]);
      InsertRealSpec(xs[0], SortReals(xs[1..]));
      assert xs == [xs[0]] + xs[1..];
    }
    assert |multiset(SortReals(xs))| == |multiset(xs)|;
  }

  /** `.median()`: the middle value, or the mean of the two middle values, of the sorted list. */
  function Median(xs: seq<real>): real
    requires |xs| > 0
  {
    SortRealsSpec(xs);
    var s := SortReals(xs);
    var n := |s|;
    if n % 2 == 1 then s[n / 2] else (s[n / 2 - 1] + s[n / 2]) / 2.0
  }

  /** The median lies between the smallest and the largest value. */
  lemma MedianBounds(xs: seq<real>)
    requires |xs| > 0
    ensures MinOf(xs) <= Median(xs) <= MaxOf(xs)
  {
    SortRealsSpec(xs);
    var s := SortReals(xs);
    var n := |s|;
    forall k | 0 <= k < n ensures MinOf(xs) <= s[k] <= MaxOf(xs) {
      assert s[k] in multiset(xs);
      var i :| 0 <= i < |xs| && xs[i] == s[k];
    }
    if n % 2 == 0 {
      assert MinOf(xs) <= s[n / 2 - 1] && s[n / 2] <= MaxOf(xs);
    }
  }

  /** A total of `n` values, each between `lo` and `hi`, lies between `n * lo` and `n * hi`. */
  lemma {:induction false} SumBounds(xs: seq<real>, lo: real, hi: real)
    requires forall i :: 0 <= i < |xs| ==> lo <= xs[i] <= hi
    ensures Times(|xs|, lo) <= Sum(xs) <= Times(|xs|, hi)
  {
    if |xs| > 0 {
      SumBounds(xs[1..], lo, hi);
      assert Times(|xs|, lo) == Times(|xs| - 1, lo) + lo;
      assert Times(|xs|, hi) == Times(|xs| - 1, hi) + hi;
    }
  }

  lemma DivBounds(t: real, n: nat, lo: real, hi: real)
    requires n > 0 && Times(n, lo) <= t <= Times(n, hi)
    ensures lo <= t / (n as real) <= hi
  {
    var m := n as real;
    assert t == m * (t / m);
  }

  /**
   * The summary figures of one type's rows (the standard deviation is not
   * modelled). `count` is `len(df)`, NaN rows included; the other figures
   * skip NaN, and mean, median, min and max are NaN (`None`) when every
   * amount is.
   */
  datatype TypeStats = TypeStats(count: nat, total: real, mean: Option<real>, median: Option<real>,
                                 min: Option<real>, max: Option<real>)

  /** Some row has an amount that is not NaN. */
  ghost predicate SomeAmount(rows: seq<Row>)
  {
    exists i :: 0 <= i < |rows| && rows[i].amount.Some?
  }

  function StatsOf(rows: seq<Row>): (s: TypeStats)
    ensures s.count == |rows| && s.total == Total(rows)
    ensures s.mean == Kpis.Mean(rows)
    ensures s.median.Some? <==> SomeAmount(rows)
    ensures s.min.Some? <==> SomeAmount(rows)
    ensures s.max.Some? <==> SomeAmount(rows)
    ensures s.median.Some? ==> s.median.value == Median(Amounts(rows))
    ensures s.min.Some? ==> forall i :: 0 <= i < |rows| && rows[i].amount.Some? ==>
              s.min.value <= rows[i].amount.value <= s.max.value
    ensures s.min.Some? ==> (exists i :: 0 <= i < |rows| && rows[i].amount == s.min)
                            && (exists i :: 0 <= i < |rows| && rows[i].amount == s.max)
  {
    var xs := Amounts(rows);
    if |xs| == 0 then TypeStats(|rows|, Total(rows), Kpis.Mean(rows), None, None, None)
    else
      AmountsMembers(rows);
      var lo, hi := MinOf(xs), MaxOf(xs);
      assert forall i :: 0 <= i < |rows| && rows[i].amount.Some? ==> lo <= rows[i].amount.value <= hi by {
        forall i | 0 <= i < |rows| && rows[i].amount.Some? ensures lo <= rows[i].amount.value <= hi {
          var k :| 0 <= k < |xs| && xs[k] == rows[i].amount.value;
        }
      }
      TypeStats(|rows|, Total(rows), Kpis.Mean(rows), Some(Median(xs)), Some(lo), Some(hi))
  }

  /** The mean of amounts that all lie in `[lo, hi]` lies there too. */
  lemma MeanBounds(rows: seq<Row>, lo: real, hi: real)
    requires SomeAmount(rows)
    requires forall i :: 0 <= i < |rows| && rows[i].amount.Some? ==> lo <= rows[i].amount.value <= hi
    ensures Kpis.Mean(rows).Some? && lo <= Kpis.Mean(rows).value <= hi
  {
    TotalBounds(rows, lo, hi);
    DivBounds(Total(rows), |Amounts(rows)|, lo, hi);
  }

  /** A sum of `n` non-NaN amounts, each in `[lo, hi]`, lies between `n * lo` and `n * hi`. */
  lemma TotalBounds(rows: seq<Row>, lo: real, hi: real)
    requires forall i :: 0 <= i < |rows| && rows[i].amount.Some? ==> lo <= rows[i].amount.value <= hi
    ensures Times(|Amounts(rows)|, lo) <= Total(rows) <= Times(|Amounts(rows)|, hi)
  {
    AmountsInRange(rows, lo, hi);
    SumOfAmounts(rows);
    SumBounds(Amounts(rows), lo, hi);
  }

  lemma AmountsInRange(rows: seq<Row>, lo: real, hi: real)
    requires forall i :: 0 <= i < |rows| && rows[i].amount.Some? ==> lo <= rows[i].amount.value <= hi
    ensures forall k :: 0 <= k < |Amounts(rows)| ==> lo <= Amounts(rows)[k] <= hi
  {
    var xs := Amounts(rows);
    AmountsMembers(rows);
    forall k | 0 <= k < |xs| ensures lo <= xs[k] <= hi {
      assert xs[k] in xs;
    }
  }

  /** Mean and median lie between the minimum and the maximum. */
  lemma StatsBounds(rows: seq<Row>)
    requires SomeAmount(rows)
    ensures var s := StatsOf(rows);
            && s.mean.Some? && s.median.Some? && s.min.Some? && s.max.Some?
            && s.min.value <= s.mean.value <= s.max.value
            && s.min.value <= s.median.value <= s.max.value
  {
    var s := StatsOf(rows);
    MeanBounds(rows, s.min.value, s.max.value);
    MedianBounds(Amounts(rows));
  }

  // ---------------------------------------------------------------------
  // Keys of the grouped blocks
  // ---------------------------------------------------------------------

  /** (Category, Type); a blank category or a NaN type drops the row. */
  function CategoryTypeKey(r: Row): Option<(string, string)>
  {
    match (r.category, r.kind)
    case (Some(c), Some(k)) => Some((c, k))
    case _ => None
  }

  /** (day of week, Type); NaT or a NaN type drops the row. */
  function WeekdayTypeKey(r: Row): Option<(int, string)>
  {
    match (r.date, r.kind)
    case (Some(d), Some(k)) => Some((Weekday(d), k))
    case _ => None
  }

  /** (month number, Type); NaT or a NaN type drops the row. */
  function MonthNumTypeKey(r: Row): Option<(int, string)>
  {
    match (r.date, r.kind)
    case (Some(d), Some(k)) => Some((d.month, k))
    case _ => None
  }

  /** The month number of a row that lands in some (month number, Type) group. */
  function MonthNumKey(r: Row): Option<int>
  {
    match (r.date, r.kind)
    case (Some(d), Some(_)) => Some(d.month)
    case _ => None
  }

  /** `month_analysis['MonthNum'].unique()`: the month numbers of the groups, in increasing order. */
  function MonthNums(rows: seq<Row>): (ns: seq<int>)
    ensures forall n :: n in ns <==> exists i :: 0 <= i < |rows| && Grouped(rows[i]) && rows[i].date.value.month == n
    ensures forall i, j :: 0 <= i < j < |ns| ==> ns[i] < ns[j]
  {
    IntLessIsStrictTotal();
    var g := GroupSum(rows, MonthNumKey, IntLess);
    assert forall n :: n in Keys(g) <==> exists i :: 0 <= i < |rows| && MonthNumKey(rows[i]) == Some(n) by {
      forall n ensures n in Keys(g) <==> exists i :: 0 <= i < |rows| && MonthNumKey(rows[i]) == Some(n) {
        KeyCountPositive(rows, MonthNumKey, n);
      }
    }
    SortedKeysPairwise(g, IntLess);
    Keys(g)
  }

  /** At most twelve month numbers exist, so "more than 4" asks for five to twelve of them. */
  lemma MonthNumsAtMostTwelve(rows: seq<Row>)
    ensures |MonthNums(rows)| <= 12
  {
    var ns := MonthNums(rows);
    forall k | 0 <= k < |ns| ensures 1 <= ns[k] <= 12 {
      assert ns[k] in ns;
    }
    if |ns| > 12 {
      Ascending(ns, 0, 12);
    }
  }

  lemma {:induction false} Ascending(ns: seq<int>, i: int, j: int)
    requires forall a, b :: 0 <= a < b < |ns| ==> ns[a] < ns[b]
    requires 0 <= i <= j < |ns|
    ensures ns[j] >= ns[i] + (j - i)
    decreases j - i
  {
    if i < j {
      Ascending(ns, i + 1, j);
    }
  }

  /** The sums of the groups of type `kind`, in group order (`monthly_data[Type == kind]['Amount']`). */
  function TotalsOfType<K>(g: seq<Group<(K, string)>>, kind: string): (ts: seq<real>)
    ensures |ts| <= |g|
  {
    if |g| == 0 then []
    else (if g[0].key.1 == kind then [g[0].total] else []) + TotalsOfType(g[1..], kind)
  }

  // ---------------------------------------------------------------------
  // Trend data: the day numbers need every date
  // ---------------------------------------------------------------------

  /** The first row without a date, if any. */
  function FirstUndated(rows: seq<Row>): (r: Option<nat>)
    ensures r.None? <==> forall i :: 0 <= i < |rows| ==> rows[i].date.Some?
    ensures r.Some? ==> r.value < |rows| && rows[r.value].date.None?
                        && forall i :: 0 <= i < r.value ==> rows[i].date.Some?
  {
    if |rows| == 0 then None
    else if rows[0].date.None? then Some(0)
    else match FirstUndated(rows[1..])
      case None =>
        assert forall i :: 1 <= i < |rows| ==> rows[i] == rows[1..][i - 1];
        None
      case Some(k) =>
        assert forall i :: 1 <= i < |rows| ==> rows[i] == rows[1..][i - 1];
        Some(k + 1)
  }

  /** (`date_ordinal`, Amount) for each row, the input of `linregress`; NaN amounts are passed on. */
  function TrendPoints(rows: seq<Row>): (ps: seq<(int, Option<real>)>)
    requires forall i :: 0 <= i < |rows| ==> rows[i].date.Some?
    ensures |ps| == |rows|
    ensures forall i :: 0 <= i < |rows| ==> ps[i] == (Ordinal(rows[i].date.value), rows[i].amount)
  {
    if |rows| == 0 then []
    else
      assert forall i :: 0 <= i < |rows[1..]| ==> rows[1..][i] == rows[i + 1];
      [(Ordinal(rows[0].date.value), rows[0].amount)] + TrendPoints(rows[1..])
  }

  /** scipy's `linregress` refuses more than one point when all of them share one x value. */
  predicate SameX(ps: seq<(int, Option<real>)>)
  {
    |ps| > 1 && forall i :: 0 <= i < |ps| ==> ps[i].0 == ps[0].0
  }

  /** More than two rows of the type, all dated on one day. */
  predicate OnOneDay(rows: seq<Row>, kind: string)
  {
    var sel := OfKind(rows, kind);
    |sel| > 2 && forall i :: 0 <= i < |sel| ==> sel[i].date == sel[0].date
  }

  /** A type's trend points all share one day number exactly when its rows all fall on one day. */
  lemma {:induction false} TrendOnOneDay(rows: seq<Row>, kind: string)
    requires forall i :: 0 <= i < |rows| ==> rows[i].date.Some?
    ensures (TrendBlock(rows, kind).Some? && SameX(TrendBlock(rows, kind).value)) <==> OnOneDay(rows, kind)
  {
    var sel := OfKind(rows, kind);
    if |sel| > 2 {
      var ps := TrendBlock(rows, kind).value;
      forall i | 0 <= i < |sel| ensures ps[i].0 == ps[0].0 <==> sel[i].date == sel[0].date {
        OrdinalChronological(sel[i].date.value, sel[0].date.value);
      }
    }
  }

  // ---------------------------------------------------------------------
  // calculate_statistics
  // ---------------------------------------------------------------------

  datatype Statistics = Statistics(
    income: Option<TypeStats>,
    expense: Option<TypeStats>,
    monthly: Option<seq<Group<(string, string)>>>,
    category: Option<seq<Group<(string, string)>>>,
    incomeVolatility: Option<seq<real>>,
    expenseVolatility: Option<seq<real>>,
    dayOfWeek: Option<seq<Group<(int, string)>>>,
    incomeTrend: Option<seq<(int, Option<real>)>>,
    expenseTrend: Option<seq<(int, Option<real>)>>,
    monthlyPatterns: Option<seq<Group<(int, string)>>>)

  datatype StatsError =
    | UndatedRow(row: nat)         // `NaT.toordinal()` raises
    | IdenticalDays(kind: string)  // `linregress` raises when every x value is the same
    | MissingMonthNum              // `groupby(['MonthNum', ...])` without a MonthNum column

  /** Summary figures of a type's rows when the type occurs. */
  function TypeBlock(rows: seq<Row>, kind: string): (b: Option<TypeStats>)
    ensures b.Some? <==> HasKind(rows, kind)
    ensures b.Some? ==> |OfKind(rows, kind)| > 0 && b.value == StatsOf(OfKind(rows, kind))
  {
    HasKindIffSelected(rows, kind);
    if HasKind(rows, kind) then Some(StatsOf(OfKind(rows, kind))) else None
  }

  /** `monthly_data` when a Month column exists, grouped on whatever labels it holds. */
  function MonthlyBlock(f: Frame): (b: Option<seq<Group<(string, string)>>>)
    requires f.Valid()
    ensures b.Some? <==> "Month" in f.columns
    ensures b.Some? ==> b.value == ByMonthAndType(f.rows, f.month.value)
    ensures b.Some? ==> GroupedBy(b.value, f.rows, MonthTypeKey(f.month.value), PairLess)
  {
    if "Month" in f.columns then Some(ByMonthAndType(f.rows, f.month.value)) else None
  }

  /** `category_stats`: sum, mean and count per (Category, Type). */
  function CategoryBlock(rows: seq<Row>, hasCategory: bool): (b: Option<seq<Group<(string, string)>>>)
    ensures b.Some? <==> hasCategory
    ensures b.Some? ==> GroupedBy(b.value, rows, CategoryTypeKey, PairLess) && NonEmptyGroups(b.value)
  {
    PairLessIsStrictTotal();
    if hasCategory then Some(GroupSum(rows, CategoryTypeKey, PairLess)) else None
  }

  /**
   * The monthly sums a type's volatility is computed from: present when there
   * is more than one (month, type) group and more than one of this type; the
   * `kind in unique()` guard of the Expense block is `checkPresent`.
   */
  function VolatilityBlock(rows: seq<Row>, hasDate: bool, kind: string, checkPresent: bool): (b: Option<seq<real>>)
    ensures b.Some? <==> hasDate && |TotalsOfType(ByMonthAndType(rows, YearMonth), kind)| > 1
    ensures b.Some? ==> b.value == TotalsOfType(ByMonthAndType(rows, YearMonth), kind)
  {
    var g := ByMonthAndType(rows, YearMonth);
    var sums := TotalsOfType(g, kind);
    TypedGroupsNeedRows(rows, kind);
    if hasDate && |g| > 1 && (!checkPresent || HasKind(rows, kind)) && |sums| > 1 then Some(sums) else None
  }

  /** `day_of_week`: sums per (weekday, Type), when there are more than seven rows. */
  function DayOfWeekBlock(rows: seq<Row>, hasDate: bool): (b: Option<seq<Group<(int, string)>>>)
    ensures b.Some? <==> hasDate && |rows| > 7
    ensures b.Some? ==> GroupedBy(b.value, rows, WeekdayTypeKey, IntTextLess) && NonEmptyGroups(b.value)
  {
    IntTextLessIsStrictTotal();
    if hasDate && |rows| > 7 then Some(GroupSum(rows, WeekdayTypeKey, IntTextLess)) else None
  }

  /** The trend block of a type: present when it has more than two rows, all of which are dated here. */
  function TrendBlock(rows: seq<Row>, kind: string): (b: Option<seq<(int, Option<real>)>>)
    requires forall i :: 0 <= i < |rows| ==> rows[i].date.Some?
    ensures b.Some? <==> |OfKind(rows, kind)| > 2
    ensures b.Some? ==> var sel := OfKind(rows, kind);
              && |b.value| == |sel|
              && forall i :: 0 <= i < |sel| ==> sel[i].date.Some? && b.value[i] == (Ordinal(sel[i].date.value), sel[i].amount)
  {
    var sel := OfKind(rows, kind);
    if |sel| > 2 then
      assert forall i :: 0 <= i < |sel| ==> sel[i] in rows by {
        forall i | 0 <= i < |sel| ensures sel[i] in rows {
          InOfKind(rows, kind, sel[i]);
        }
      }
      Some(TrendPoints(sel))
    else None
  }

  /** `monthly_patterns`: sums per (month number, Type), when more than four month numbers occur. */
  function PatternBlock(rows: seq<Row>, hasMonthYear: bool): (b: Option<seq<Group<(int, string)>>>)
    ensures b.Some? <==> hasMonthYear && |MonthNums(rows)| > 4
    ensures b.Some? ==> GroupedBy(b.value, rows, MonthNumTypeKey, IntTextLess) && NonEmptyGroups(b.value)
  {
    IntTextLessIsStrictTotal();
    if hasMonthYear && |MonthNums(rows)| > 4 then Some(GroupSum(rows, MonthNumTypeKey, IntTextLess)) else None
  }

  /** The blocks, once the failures are ruled out. */
  function Blocks(f: Frame): Statistics
    requires f.Valid()
    requires "Date" in f.columns && |f.rows| > 2 ==> forall i :: 0 <= i < |f.rows| ==> f.rows[i].date.Some?
  {
    var rows := f.rows;
    var hasDate := "Date" in f.columns;
    var trend := hasDate && |rows| > 2;
    Statistics(
      TypeBlock(rows, INCOME),
      TypeBlock(rows, EXPENSE),
      MonthlyBlock(f),
      CategoryBlock(rows, "Category" in f.columns),
      VolatilityBlock(rows, hasDate, INCOME, false),
      VolatilityBlock(rows, hasDate, EXPENSE, true),
      DayOfWeekBlock(rows, hasDate),
      if trend then TrendBlock(rows, INCOME) else None,
      if trend && HasKind(rows, EXPENSE) then TrendBlock(rows, EXPENSE) else None,
      PatternBlock(rows, "Month" in f.columns && "Year" in f.columns))
  }

  /**
   * `calculate_statistics`; the frame gains `date_ordinal` when the trend
   * block runs. The failures come in program order: an undated row, then the
   * Income regression, then the Expense regression, then a missing MonthNum.
   */
  function CalculateStatistics(f: Frame): (r: Result<(Frame, Statistics), StatsError>)
    requires f.Valid()
    ensures r.Failure? <==>
              || ("Date" in f.columns && |f.rows| > 2 && exists i :: 0 <= i < |f.rows| && f.rows[i].date.None?)
              || ("Date" in f.columns && |f.rows| > 2 && (forall i :: 0 <= i < |f.rows| ==> f.rows[i].date.Some?)
                  && (OnOneDay(f.rows, INCOME) || OnOneDay(f.rows, EXPENSE)))
              || ("Month" in f.columns && "Year" in f.columns && "MonthNum" !in f.columns)
    ensures r.Failure? && r.error.UndatedRow? ==> r.error.row < |f.rows| && f.rows[r.error.row].date.None?
    ensures r.Failure? && r.error.IdenticalDays? ==>
              && (r.error.kind == INCOME || r.error.kind == EXPENSE)
              && OnOneDay(f.rows, r.error.kind)
              && (r.error.kind == EXPENSE ==> !OnOneDay(f.rows, INCOME))
    ensures r.Success? ==> r.value.0.rows == f.rows && r.value.1 == Blocks(f)
    ensures r.Success? ==> ("date_ordinal" in r.value.0.columns <==> "date_ordinal" in f.columns || ("Date" in f.columns && |f.rows| > 2))
  {
    var rows := f.rows;
    var trend := "Date" in f.columns && |rows| > 2;
    var undated := FirstUndated(rows);
    if trend && undated.Some? then Failure(UndatedRow(undated.value))
    else
      var b := Blocks(f);
      TrendsRefused(f);
      if b.incomeTrend.Some? && SameX(b.incomeTrend.value) then Failure(IdenticalDays(INCOME))
      else if b.expenseTrend.Some? && SameX(b.expenseTrend.value) then Failure(IdenticalDays(EXPENSE))
      else if "Month" in f.columns && "Year" in f.columns && "MonthNum" !in f.columns then Failure(MissingMonthNum)
      else
        var g := if trend then Frame(WithColumn(f.columns, "date_ordinal"), rows, f.month) else f;
        Success((g, b))
  }

  /** `linregress` refuses a type's trend exactly when the trend code runs and that type's rows fall on one day. */
  lemma TrendsRefused(f: Frame)
    requires f.Valid()
    requires "Date" in f.columns && |f.rows| > 2 ==> forall i :: 0 <= i < |f.rows| ==> f.rows[i].date.Some?
    ensures var b := Blocks(f);
            && (b.incomeTrend.Some? && SameX(b.incomeTrend.value) <==> "Date" in f.columns && |f.rows| > 2 && OnOneDay(f.rows, INCOME))
            && (b.expenseTrend.Some? && SameX(b.expenseTrend.value) <==> "Date" in f.columns && |f.rows| > 2 && OnOneDay(f.rows, EXPENSE))
  {
    if "Date" in f.columns && |f.rows| > 2 {
      TrendOnOneDay(f.rows, INCOME);
      TrendOnOneDay(f.rows, EXPENSE);
      HasKindIffSelected(f.rows, EXPENSE);
    }
  }

  /**
   * A sheet without a date-like column gets "today" on every row, so three
   * Income rows are enough for the Income regression to raise.
   */
  lemma SingleDayRefused(f: Frame, today: Date)
    requires f.Valid() && "Date" in f.columns
    requires forall i :: 0 <= i < |f.rows| ==> f.rows[i].date == Some(today)
    requires |OfKind(f.rows, INCOME)| > 2
    ensures CalculateStatistics(f) == Failure(IdenticalDays(INCOME))
  {
    var sel := OfKind(f.rows, INCOME);
    forall i | 0 <= i < |sel| ensures sel[i].date == Some(today) {
      InOfKind(f.rows, INCOME, sel[i]);
    }
  }

  /** The Expense trend block is present exactly when there are more than two Expense rows. */
  lemma ExpenseTrendPresence(f: Frame)
    requires f.Valid()
    requires "Date" in f.columns && |f.rows| > 2 ==> forall i :: 0 <= i < |f.rows| ==> f.rows[i].date.Some?
    ensures Blocks(f).expenseTrend.Some? <==> "Date" in f.columns && |f.rows| > 2 && |OfKind(f.rows, EXPENSE)| > 2
  {
    HasKindIffSelected(f.rows, EXPENSE);
  }

  /** A group of a type needs a row of that type, so the `in unique()` guard adds nothing. */
  lemma TypedGroupsNeedRows(rows: seq<Row>, kind: string)
    ensures |TotalsOfType(ByMonthAndType(rows, YearMonth), kind)| > 0 ==> HasKind(rows, kind)
    ensures |TotalsOfType(ByMonthAndType(rows, YearMonth), kind)| > 1 ==> |ByMonthAndType(rows, YearMonth)| > 1
  {
    var g := ByMonthAndType(rows, YearMonth);
    if |TotalsOfType(g, kind)| > 0 {
      var k := GroupOfType(g, kind);
      PairLessIsStrictTotal();
      LookupAtIndex(g, PairLess, k);
      var m := g[k].key.0;
      assert g[k].key == (m, kind);
      assert CountAt(g, (m, kind)) > 0;
      TypedGroupHasRow(rows, m, kind);
    }
  }

  lemma {:induction false} GroupOfType<K>(g: seq<Group<(K, string)>>, kind: string) returns (k: int)
    requires |TotalsOfType(g, kind)| > 0
    ensures 0 <= k < |g| && g[k].key.1 == kind
  {
    if g[0].key.1 == kind {
      k := 0;
    } else {
      var j := GroupOfType(g[1..], kind);
      k := j + 1;
    }
  }

  lemma TypedGroupHasRow(rows: seq<Row>, m: string, kind: string)
    requires CountAt(ByMonthAndType(rows, YearMonth), (m, kind)) > 0
    ensures HasKind(rows, kind)
  {
    PairLessIsStrictTotal();
    assert KeyCount(rows, MonthTypeKey(YearMonth), (m, kind)) > 0;
    KeyCountPositive(rows, MonthTypeKey(YearMonth), (m, kind));
    var i :| 0 <= i < |rows| && MonthTypeKey(YearMonth)(rows[i]) == Some((m, kind));
    assert rows[i].kind == Some(kind);
  }
}
