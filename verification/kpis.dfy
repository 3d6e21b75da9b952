/**
 * `get_kpis` (src/processor.py and the older processor.py): total income,
 * total expense, profit, month-over-month income growth and the per-type
 * means. As a side effect both copies rewrite the shared `Month` column with
 * `%Y-%m` labels whenever there is a `Date` column.
 */
module Kpis {
  import opened Base
  import opened Calendar
  import opened Table
  import opened Grouping
  import opened Monthly

  /**
   * `['Amount'].mean()`: NaN amounts are skipped, and with no amount left the
   * mean is NaN (here `None`). The mean times the number of amounts is the sum.
   */
  function Mean(rows: seq<Row>): (m: Option<real>)
    ensures m.Some? <==> exists i :: 0 <= i < |rows| && rows[i].amount.Some?
    ensures m.Some? ==> Times(|Amounts(rows)|, m.value) == Total(rows)
  {
    var n := |Amounts(rows)|;
    if n == 0 then None
    else
      DivTimes(Total(rows), n);
      Some(Total(rows) / (n as real))
  }

  lemma DivTimes(t: real, n: nat)
    requires n != 0
    ensures Times(n, t / (n as real)) == t
  {
  }

  /** `(current - previous) / previous * 100`. */
  function PercentChange(current: real, previous: real): real
    requires previous != 0.0
  {
    (current - previous) / previous * 100.0
  }

  /**
   * The change times the previous value is a hundred times the difference,
   * and with a positive previous value the change is positive, zero or
   * negative exactly as the current value is above, at or below it.
   */
  lemma PercentChangeSign(current: real, previous: real)
    requires previous > 0.0
    ensures PercentChange(current, previous) * previous == (current - previous) * 100.0
    ensures PercentChange(current, previous) > 0.0 <==> current > previous
    ensures PercentChange(current, previous) == 0.0 <==> current == previous
    ensures PercentChange(current, previous) < 0.0 <==> current < previous
  {
    var d := current - previous;
    assert PercentChange(current, previous) == d / previous * 100.0;
    if d > 0.0 {
      assert d / previous > 0.0;
    } else if d < 0.0 {
      assert d / previous < 0.0;
    }
  }

  /**
   * The sums of type `kind` in the last and the second-to-last `%Y-%m` month,
   * when there are at least two months with dated rows.
   */
  function LastTwo(rows: seq<Row>, kind: string): (r: Option<(real, real)>)
    ensures r.Some? <==> |Months(rows, YearMonth)| >= 2
    ensures r.Some? ==> var ms := Months(rows, YearMonth);
              && r.value.0 == KeyTotal(OfKind(rows, kind), MonthKey(YearMonth), ms[|ms| - 1])
              && r.value.1 == KeyTotal(OfKind(rows, kind), MonthKey(YearMonth), ms[|ms| - 2])
  {
    var ms := Months(rows, YearMonth);
    if |ms| >= 2 then
      var cur := MonthTotal(rows, YearMonth, ms[|ms| - 1], kind);
      var prev := MonthTotal(rows, YearMonth, ms[|ms| - 2], kind);
      assert prev == KeyTotal(OfKind(rows, kind), MonthKey(YearMonth), ms[|ms| - 2]);
      Some((cur, prev))
    else None
  }

  /** The growth figure: 0 without a Date column, without two months or without a positive previous income. */
  function Growth(f: Frame): real
  {
    if "Date" !in f.columns then 0.0
    else match LastTwo(f.rows, INCOME)
      case None => 0.0
      case Some(p) => if p.1 > 0.0 then PercentChange(p.0, p.1) else 0.0
  }

  lemma GrowthSpec(f: Frame)
    ensures ("Date" !in f.columns || |Months(f.rows, YearMonth)| < 2) ==> Growth(f) == 0.0
    ensures "Date" in f.columns && |Months(f.rows, YearMonth)| >= 2 ==>
              var ms := Months(f.rows, YearMonth);
              var cur := KeyTotal(OfKind(f.rows, INCOME), MonthKey(YearMonth), ms[|ms| - 1]);
              var prev := KeyTotal(OfKind(f.rows, INCOME), MonthKey(YearMonth), ms[|ms| - 2]);
              && (prev <= 0.0 ==> Growth(f) == 0.0)
              && (prev > 0.0 ==> Growth(f) == PercentChange(cur, prev))
  {
    if "Date" in f.columns && |Months(f.rows, YearMonth)| >= 2 {
      var p := LastTwo(f.rows, INCOME).value;
      assert Growth(f) == if p.1 > 0.0 then PercentChange(p.0, p.1) else 0.0;
    }
  }

  datatype Kpis = Kpis(income: real, expense: real, profit: real, growth: real,
                       avgIncome: Option<real>, avgExpense: Option<real>)

  /** The frame after `get_kpis`: with a Date column, Month holds `%Y-%m` labels. */
  function AfterKpis(f: Frame): (g: Frame)
    ensures g.rows == f.rows
    ensures f.Valid() ==> g.Valid()
    ensures "Date" in f.columns ==> g.month == Some(YearMonth) && "Month" in g.columns
    ensures "Date" !in f.columns ==> g == f
  {
    if "Date" in f.columns then SetMonth(f, YearMonth) else f
  }

  /** An absent type contributes nothing, so guarding its sum with `in unique()` changes nothing. */
  lemma AbsentKindTotal(rows: seq<Row>, kind: string)
    ensures !HasKind(rows, kind) ==> Total(OfKind(rows, kind)) == 0.0
  {
    HasKindIffSelected(rows, kind);
  }

  /** src/processor.py `get_kpis` (the standard deviations are not modelled). */
  function GetKpis(f: Frame): (r: (Frame, Kpis))
    ensures r.0 == AfterKpis(f)
    ensures r.1.income == Total(OfKind(f.rows, INCOME))
    ensures r.1.expense == Total(OfKind(f.rows, EXPENSE))
    ensures r.1.profit == Total(OfKind(f.rows, INCOME)) - Total(OfKind(f.rows, EXPENSE))
    ensures ("Date" !in f.columns || |Months(f.rows, YearMonth)| < 2) ==> r.1.growth == 0.0
    ensures "Date" in f.columns && |Months(f.rows, YearMonth)| >= 2 ==>
              var ms := Months(f.rows, YearMonth);
              var cur := KeyTotal(OfKind(f.rows, INCOME), MonthKey(YearMonth), ms[|ms| - 1]);
              var prev := KeyTotal(OfKind(f.rows, INCOME), MonthKey(YearMonth), ms[|ms| - 2]);
              && (prev <= 0.0 ==> r.1.growth == 0.0)
              && (prev > 0.0 ==> r.1.growth == PercentChange(cur, prev))
    ensures r.1.avgIncome == Mean(OfKind(f.rows, INCOME))
    ensures HasKind(f.rows, EXPENSE) ==> r.1.avgExpense == Mean(OfKind(f.rows, EXPENSE))
    ensures !HasKind(f.rows, EXPENSE) ==> r.1.avgExpense == Some(0.0)
  {
    var income := Total(OfKind(f.rows, INCOME));
    var expense := if HasKind(f.rows, EXPENSE) then Total(OfKind(f.rows, EXPENSE)) else 0.0;
    AbsentKindTotal(f.rows, EXPENSE);
    var avgExpense := if HasKind(f.rows, EXPENSE) then Mean(OfKind(f.rows, EXPENSE)) else Some(0.0);
    GrowthSpec(f);
    (AfterKpis(f), Kpis(income, expense, income - expense, Growth(f), Mean(OfKind(f.rows, INCOME)), avgExpense))
  }

  datatype LegacyKpis = LegacyKpis(income: real, expense: real, profit: real, growth: real)

  /** processor.py `get_kpis`: the same four figures as the newer copy, without the means. */
  function LegacyGetKpis(f: Frame): (r: (Frame, LegacyKpis))
    ensures r.0 == AfterKpis(f)
    ensures r.1.expense == Total(OfKind(f.rows, EXPENSE))
    ensures r.1.profit == Total(OfKind(f.rows, INCOME)) - Total(OfKind(f.rows, EXPENSE))
    ensures var k := GetKpis(f);
            r.0 == k.0 && r.1 == LegacyKpis(k.1.income, k.1.expense, k.1.profit, k.1.growth)
  {
    var income := Total(OfKind(f.rows, INCOME));
    var expense := if HasKind(f.rows, EXPENSE) then Total(OfKind(f.rows, EXPENSE)) else 0.0;
    AbsentKindTotal(f.rows, EXPENSE);
    (AfterKpis(f), LegacyKpis(income, expense, income - expense, Growth(f)))
  }
}
