/**
 * The views built from month and category buckets (src/processor.py):
 * `generate_chart_data` (real-data path, also in processor.py),
 * `get_top_expense_categories` and `get_seasonal_trends`.
 */
module Charts {
  import opened Base
  import opened Order
  import opened Text
  import opened Calendar
  import opened Table
  import opened Grouping
  import opened Monthly

  /** A column a view needs is missing (pandas raises `KeyError`). */
  datatype ViewError = MissingColumn(name: string)

  // ---------------------------------------------------------------------
  // generate_chart_data
  // ---------------------------------------------------------------------

  datatype Chart = Chart(months: seq<string>, income: map<string, real>, expense: map<string, real>)

  /** The frame after `generate_chart_data`: Month is added in `%b-%y` when missing and Date is present. */
  function ChartFrame(f: Frame): (g: Frame)
    ensures g.rows == f.rows
    ensures f.Valid() ==> g.Valid()
    ensures "Month" !in f.columns && "Date" in f.columns ==> g.month == Some(MonYY)
    ensures "Month" in f.columns || "Date" !in f.columns ==> g == f
  {
    if "Month" !in f.columns && "Date" in f.columns then SetMonth(f, MonYY) else f
  }

  /** `{month: monthly[(Month == month) & (Type == kind)]['Amount'].sum() for month in months}`. */
  function ByMonth(rows: seq<Row>, fmt: MonthFormat, months: seq<string>, kind: string): (m: map<string, real>)
    ensures m.Keys == set x | x in months
  {
    map x | x in months :: MonthTotal(rows, fmt, x, kind)
  }

  /**
   * The real-data path of `generate_chart_data`; `None` stands for the
   * random sample chart drawn when there is neither a Month nor a Date column.
   * Months are the distinct labels of the dated rows in string order, each
   * map has exactly those keys, and each value is that month's sum for the
   * type (0 when the type has no row that month).
   */
  function ChartData(f: Frame): (r: (Frame, Option<Chart>))
    requires f.Valid()
    ensures r.0 == ChartFrame(f) && r.0.Valid()
    ensures r.1.None? <==> ("Month" !in f.columns && "Date" !in f.columns)
    ensures r.1.Some? ==>
              var fmt := r.0.month.value;
              var c := r.1.value;
              && Increasing(c.months)
              && (forall m :: m in c.months <==> Labelled(f.rows, fmt, m))
              && c.income.Keys == (set m | m in c.months)
              && c.expense.Keys == (set m | m in c.months)
              && (forall m :: m in c.months ==>
                    && c.income[m] == KeyTotal(OfKind(f.rows, INCOME), MonthKey(fmt), m)
                    && c.expense[m] == KeyTotal(OfKind(f.rows, EXPENSE), MonthKey(fmt), m))
  {
    var g := ChartFrame(f);
    if g.month.None? then (g, None)
    else
      var fmt := g.month.value;
      var months := Months(g.rows, fmt);
      (g, Some(Chart(months, ByMonth(g.rows, fmt, months, INCOME), ByMonth(g.rows, fmt, months, EXPENSE))))
  }

  /** Sum of the map's values at `ks`. */
  function SumAt(m: map<string, real>, ks: seq<string>): real
    requires forall k :: k in ks ==> k in m
  {
    if |ks| == 0 then 0.0 else m[ks[0]] + SumAt(m, ks[1..])
  }

  lemma {:induction false} SumAtByMonth(rows: seq<Row>, fmt: MonthFormat, months: seq<string>, ks: seq<string>, kind: string)
    requires forall k :: k in ks ==> k in months
    ensures SumAt(ByMonth(rows, fmt, months, kind), ks) == SumOver(OfKind(rows, kind), MonthKey(fmt), ks)
  {
    if |ks| > 0 {
      assert ks[0] in ks;
      SumAtByMonth(rows, fmt, months, ks[1..], kind);
    }
  }

  /**
   * The chart loses nothing: its income (expense) values add up to the
   * income (expense) total over the dated rows.
   */
  lemma ChartConserves(f: Frame)
    requires f.Valid() && ChartData(f).1.Some?
    ensures var c := ChartData(f).1.value;
            && SumAt(c.income, c.months) == DatedTotal(OfKind(f.rows, INCOME))
            && SumAt(c.expense, c.months) == DatedTotal(OfKind(f.rows, EXPENSE))
  {
    var g := ChartFrame(f);
    var fmt := g.month.value;
    var months := Months(g.rows, fmt);
    SumAtByMonth(g.rows, fmt, months, months, INCOME);
    SumAtByMonth(g.rows, fmt, months, months, EXPENSE);
    MonthBucketsAddUp(g.rows, fmt, INCOME);
    MonthBucketsAddUp(g.rows, fmt, EXPENSE);
  }

  /**
   * In the dashboard's order (normalise, then KPIs, then chart) the chart's
   * months are `%Y-%m` labels, so their order is the order of time.
   */
  lemma DashboardChartIsChronological(f: Frame, i: int, j: int, p: int, q: int)
    requires f.Valid() && "Date" in f.columns
    requires 0 <= i < |f.rows| && f.rows[i].date.Some? && 0 <= j < |f.rows| && f.rows[j].date.Some?
    requires ChartData(SetMonth(f, YearMonth)).1.Some?
    requires var ms := ChartData(SetMonth(f, YearMonth)).1.value.months;
             && 0 <= p < |ms| && ms[p] == YearMonthKey(f.rows[i].date.value)
             && 0 <= q < |ms| && ms[q] == YearMonthKey(f.rows[j].date.value)
    ensures p < q <==> MonthBefore(f.rows[i].date.value, f.rows[j].date.value)
  {
    var ms := ChartData(SetMonth(f, YearMonth)).1.value.months;
    IncreasingIsSorted(ms);
    PositionOrder(f.rows, ms, i, j, p, q);
  }

  // ---------------------------------------------------------------------
  // get_top_expense_categories
  // ---------------------------------------------------------------------

  /** The Category of a row; a blank category is NaN and drops the row. */
  function CategoryOf(r: Row): Option<string>
  {
    r.category
  }

  /** `df[df['Type'] == 'Expense'].groupby('Category')['Amount'].sum()`. */
  function ExpenseByCategory(rows: seq<Row>): (g: seq<Group<string>>)
    ensures GroupedBy(g, OfKind(rows, EXPENSE), CategoryOf, LexLess)
    ensures NonEmptyGroups(g)
  {
    LexLessIsStrictTotal();
    GroupSum(OfKind(rows, EXPENSE), CategoryOf, LexLess)
  }

  const TOP_CATEGORIES: nat := 5

  /**
   * `get_top_expense_categories`: the five expense categories with the
   * largest sums, largest first, ties to the category that sorts first.
   */
  function TopExpenseCategories(f: Frame): (r: Result<seq<Group<string>>, ViewError>)
    ensures r.Failure? <==> "Category" !in f.columns
    ensures r.Failure? ==> r.error == MissingColumn("Category")
    ensures r.Success? ==>
              var top := r.value;
              var expense := OfKind(f.rows, EXPENSE);
              && |top| <= TOP_CATEGORIES
              && Ranked(top, LexLess)
              && (forall i :: 0 <= i < |top| ==>
                    && KeyCount(expense, CategoryOf, top[i].key) > 0
                    && top[i].total == KeyTotal(expense, CategoryOf, top[i].key))
              && (|top| < TOP_CATEGORIES ==> forall c :: KeyCount(expense, CategoryOf, c) > 0 ==> c in Keys(top))
              && (forall c, i :: KeyCount(expense, CategoryOf, c) > 0 && c !in Keys(top) && 0 <= i < |top| ==>
                    || top[i].total > KeyTotal(expense, CategoryOf, c)
                    || (top[i].total == KeyTotal(expense, CategoryOf, c) && LexLess(top[i].key, c)))
  {
    if "Category" !in f.columns then Failure(MissingColumn("Category"))
    else
      LexLessIsStrictTotal();
      var g := ExpenseByCategory(f.rows);
      var top := Top(g, TOP_CATEGORIES, LexLess);
      TopListed(f.rows, top);
      Success(top)
  }

  /** Every listed category is an expense category with its sum, and every omitted one ranks below. */
  lemma TopListed(rows: seq<Row>, top: seq<Group<string>>)
    requires StrictTotalOrder(LexLess)
    requires top == Top(ExpenseByCategory(rows), TOP_CATEGORIES, LexLess)
    ensures var expense := OfKind(rows, EXPENSE);
            && (forall i :: 0 <= i < |top| ==>
                  && KeyCount(expense, CategoryOf, top[i].key) > 0
                  && top[i].total == KeyTotal(expense, CategoryOf, top[i].key))
            && (forall c :: KeyCount(expense, CategoryOf, c) > 0 ==>
                  && (|top| < TOP_CATEGORIES ==> c in Keys(top))
                  && (c !in Keys(top) ==> forall i :: 0 <= i < |top| ==>
                        Outranks(top[i], GroupOf(expense, CategoryOf, c), LexLess)))
  {
    forall i | 0 <= i < |top| ensures KeyCount(OfKind(rows, EXPENSE), CategoryOf, top[i].key) > 0
                               && top[i].total == KeyTotal(OfKind(rows, EXPENSE), CategoryOf, top[i].key) {
      TopMember(rows, top, i);
    }
    forall c | KeyCount(OfKind(rows, EXPENSE), CategoryOf, c) > 0
      ensures |top| < TOP_CATEGORIES ==> c in Keys(top)
      ensures c !in Keys(top) ==> forall i :: 0 <= i < |top| ==>
                 Outranks(top[i], GroupOf(OfKind(rows, EXPENSE), CategoryOf, c), LexLess)
    {
      OmittedCategory(rows, top, c);
    }
  }

  /** A listed category is an expense category and carries its expense sum. */
  lemma TopMember(rows: seq<Row>, top: seq<Group<string>>, i: int)
    requires StrictTotalOrder(LexLess)
    requires top == Top(ExpenseByCategory(rows), TOP_CATEGORIES, LexLess)
    requires 0 <= i < |top|
    ensures KeyCount(OfKind(rows, EXPENSE), CategoryOf, top[i].key) > 0
    ensures top[i].total == KeyTotal(OfKind(rows, EXPENSE), CategoryOf, top[i].key)
  {
    var g := ExpenseByCategory(rows);
    assert top[i] in g;
    var k :| 0 <= k < |g| && g[k] == top[i];
    LookupAtIndex(g, LexLess, k);
    assert Keys(g)[k] == top[i].key;
  }

  /** An expense category left out is outranked by every listed one, and none is left out of a short list. */
  lemma OmittedCategory(rows: seq<Row>, top: seq<Group<string>>, c: string)
    requires StrictTotalOrder(LexLess)
    requires top == Top(ExpenseByCategory(rows), TOP_CATEGORIES, LexLess)
    requires KeyCount(OfKind(rows, EXPENSE), CategoryOf, c) > 0
    ensures |top| < TOP_CATEGORIES ==> c in Keys(top)
    ensures c !in Keys(top) ==> forall i :: 0 <= i < |top| ==>
              Outranks(top[i], GroupOf(OfKind(rows, EXPENSE), CategoryOf, c), LexLess)
  {
    var g := ExpenseByCategory(rows);
    assert c in Keys(g);
    var k :| 0 <= k < |g| && Keys(g)[k] == c;
    LookupAtIndex(g, LexLess, k);
    assert g[k] in g;
    if g[k] in top {
      var i :| 0 <= i < |top| && top[i] == g[k];
      assert Keys(top)[i] == c;
    }
  }

  // ---------------------------------------------------------------------
  // get_seasonal_trends
  // ---------------------------------------------------------------------

  /**
   * `get_seasonal_trends`: sums by (abbreviated month name, Type), which
   * ignores the year. Month now holds `%b` labels.
   */
  function SeasonalTrends(f: Frame): (r: Result<(Frame, seq<Group<(string, string)>>), ViewError>)
    ensures r.Failure? <==> "Date" !in f.columns
    ensures r.Success? ==> r.value.0 == SetMonth(f, MonName)
    ensures r.Success? ==> GroupedBy(r.value.1, f.rows, MonthTypeKey(MonName), PairLess)
    ensures r.Success? ==> NonEmptyGroups(r.value.1)
    ensures r.Success? ==> forall m, kind :: TotalAt(r.value.1, (m, kind)) == KeyTotal(OfKind(f.rows, kind), MonthKey(MonName), m)
  {
    if "Date" !in f.columns then Failure(MissingColumn("Date"))
    else Success((SetMonth(f, MonName), ByMonthAndType(f.rows, MonName)))
  }

  /** Two rows of one type dated in the same calendar month share a bucket, whatever their years. */
  lemma SeasonalMergesYears(r1: Row, r2: Row)
    requires r1.date.Some? && r2.date.Some? && r1.kind == r2.kind
    requires r1.date.value.month == r2.date.value.month
    ensures MonthTypeKey(MonName)(r1) == MonthTypeKey(MonName)(r2)
  {
    MonNameMergesYears(r1.date.value, r2.date.value);
  }

  /** The type of a (label, type) key is `kind`. */
  function OfType(kind: string): ((string, string)) -> bool
  {
    (key: (string, string)) => key.1 == kind
  }

  lemma {:induction false} SeasonalKeyedIsDated(rows: seq<Row>, kind: string)
    ensures KeyedTotalWhere(rows, MonthTypeKey(MonName), OfType(kind)) == DatedTotal(OfKind(rows, kind))
  {
    if |rows| > 0 {
      SeasonalKeyedIsDated(rows[1..], kind);
      if rows[0].kind == Some(kind) {
        assert OfKind(rows, kind) == [rows[0]] + OfKind(rows[1..], kind);
        assert OfKind(rows, kind)[1..] == OfKind(rows[1..], kind);
      }
    }
  }

  /** For each type the seasonal buckets add up to that type's total over its dated rows. */
  lemma SeasonalBucketsAddUp(f: Frame, kind: string)
    requires SeasonalTrends(f).Success?
    ensures TotalWhere(SeasonalTrends(f).value.1, OfType(kind)) == DatedTotal(OfKind(f.rows, kind))
  {
    PairLessIsStrictTotal();
    GroupSumConserves(f.rows, MonthTypeKey(MonName), PairLess, OfType(kind));
    SeasonalKeyedIsDated(f.rows, kind);
  }
}
