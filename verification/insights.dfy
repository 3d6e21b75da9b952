/**
 * `generate_insights` (src/assistant.py and the older assistant.py): the
 * rule-based observations shown on the dashboard, as structured values
 * instead of formatted sentences.
 */
module Insights {
  import opened Base
  import opened Order
  import opened Text
  import opened Calendar
  import opened Table
  import opened Grouping
  import opened Monthly
  import opened Kpis
  import opened Charts

  /** `increase_or_decrease`. */
  datatype Direction = Increased | Decreased

  function IncreaseOrDecrease(change: real): (d: Direction)
    ensures d == Increased <==> change >= 0.0
  {
    if change >= 0.0 then Increased else Decreased
  }

  function Abs(x: real): real
  {
    if x < 0.0 then -x else x
  }

  /** Direction and magnitude together give the change back. */
  lemma DirectionAndMagnitude(change: real)
    ensures (if IncreaseOrDecrease(change) == Increased then Abs(change) else -Abs(change)) == change
    ensures Abs(change) >= 0.0
  {
  }

  datatype Verdict = Healthy | Concerning

  /** One insight; the sentence each stands for is fixed by its constructor. */
  datatype Insight =
    | ProfitMargin(margin: real, verdict: Option<Verdict>)
    | IncomeChange(direction: Direction, magnitude: real)
    | GrowthOpportunity
    | RevenueDecline
    | ExpenseChange(direction: Direction, magnitude: real)
    | GreatJob
    | SqueezeWarning
    | LargestCategory(category: string, amount: real, percent: real)
    | ReviewCategory(category: string)
    | PeakIncomeMonth(name: string)
    | UploadPrompt

  /** The `income_change` read before any assignment when the previous month had no income. */
  datatype InsightError = UnboundIncomeChange

  const REVIEW_SHARE: real := 40.0
  const HEALTHY_MARGIN: real := 20.0
  const PEAK_MIN_MONTHS: nat := 6

  // ---------------------------------------------------------------------
  // Profit margin
  // ---------------------------------------------------------------------

  function Margin(income: real, expense: real): real
    requires income != 0.0
  {
    (income - expense) / income * 100.0
  }

  /**
   * With positive income the margin is above 20% exactly when expenses are
   * below four fifths of income, and 0 exactly when they equal income.
   */
  lemma MarginVerdict(income: real, expense: real)
    requires income > 0.0
    ensures Margin(income, expense) > HEALTHY_MARGIN <==> 5.0 * expense < 4.0 * income
    ensures Margin(income, expense) == 0.0 <==> expense == income
  {
    var q := (income - expense) / income;
    assert q * income == income - expense;
    var d := q - 0.2;
    assert d * income == 0.8 * income - expense;
    if d > 0.0 {
      assert d * income > 0.0;
    } else if d < 0.0 {
      assert d * income < 0.0;
    }
    if q > 0.0 {
      assert q * income > 0.0;
    } else if q < 0.0 {
      assert q * income < 0.0;
    }
  }

  /** `profit_margin` with its verdict, shown when income is positive. */
  function MarginInsights(income: real, expense: real): (r: seq<Insight>)
    ensures income <= 0.0 ==> r == []
    ensures income > 0.0 ==> |r| == 1 && r[0].ProfitMargin? && r[0].margin == Margin(income, expense)
    ensures income > 0.0 ==> (r[0].verdict.None? <==> expense == income)
    ensures income > 0.0 ==> (r[0].verdict == Some(Healthy) <==> 5.0 * expense < 4.0 * income)
  {
    if income > 0.0 then
      var m := Margin(income, expense);
      MarginVerdict(income, expense);
      [ProfitMargin(m, if m != 0.0 then Some(if m > HEALTHY_MARGIN then Healthy else Concerning) else None)]
    else []
  }

  // ---------------------------------------------------------------------
  // Month-over-month changes
  // ---------------------------------------------------------------------

  /** The change of a type between the last two months, when the earlier one is positive. */
  function Change(rows: seq<Row>, kind: string): (c: Option<real>)
    ensures c.Some? <==> LastTwo(rows, kind).Some? && LastTwo(rows, kind).value.1 > 0.0
    ensures c.Some? ==> var (cur, prev) := LastTwo(rows, kind).value;
                        && c.value == PercentChange(cur, prev)
                        && (c.value > 0.0 <==> cur > prev)
                        && (c.value < 0.0 <==> cur < prev)
  {
    match LastTwo(rows, kind)
    case None => None
    case Some(p) =>
      if p.1 > 0.0 then
        PercentChangeSign(p.0, p.1);
        Some(PercentChange(p.0, p.1))
      else None
  }

  /** The income insight and its follow-up. */
  function IncomeInsights(c: Option<real>): seq<Insight>
  {
    match c
    case None => []
    case Some(x) => [IncomeChange(IncreaseOrDecrease(x), Abs(x)), if x > 0.0 then GrowthOpportunity else RevenueDecline]
  }

  /** Great job / warning: only when both changes are known and move in opposite directions. */
  function Comparison(ic: real, ec: real): seq<Insight>
  {
    if ic > 0.0 && ec < 0.0 then [GreatJob] else if ic < 0.0 && ec > 0.0 then [SqueezeWarning] else []
  }

  /**
   * The month-over-month block as written, over its inputs: whether two
   * months exist, the income change, whether an Expense row exists and the
   * Expense change. When the previous month had no positive income,
   * `income_change` is never assigned, and an Expense change then reads it
   * and raises.
   */
  function ChangeBlockAsWritten(twoMonths: bool, ic: Option<real>, hasExpense: bool, ec: Option<real>): (r: Result<seq<Insight>, InsightError>)
    ensures r.Failure? <==> twoMonths && ic.None? && hasExpense && ec.Some?
  {
    if !twoMonths then Success([])
    else
      var head := IncomeInsights(ic);
      if !hasExpense then Success(head)
      else match ec
        case None => Success(head)
        case Some(e) =>
          match ic
          case None => Failure(UnboundIncomeChange)
          case Some(x) => Success(head + [ExpenseChange(IncreaseOrDecrease(e), Abs(e))] + Comparison(x, e))
  }

  /** The same block, reporting the Expense change and skipping the comparison when there is no income change. */
  function ChangeBlock(twoMonths: bool, ic: Option<real>, hasExpense: bool, ec: Option<real>): (r: seq<Insight>)
    ensures UploadPrompt !in r
  {
    if !twoMonths then []
    else
      var head := IncomeInsights(ic);
      if !hasExpense then head
      else match ec
        case None => head
        case Some(e) =>
          var tail := [ExpenseChange(IncreaseOrDecrease(e), Abs(e))];
          match ic
          case None => head + tail
          case Some(x) => head + tail + Comparison(x, e)
  }

  /** Where the as-written block does not raise, it says what the corrected block says. */
  lemma ChangeBlockAgrees(twoMonths: bool, ic: Option<real>, hasExpense: bool, ec: Option<real>)
    ensures ChangeBlockAsWritten(twoMonths, ic, hasExpense, ec).Success? ==>
              ChangeBlockAsWritten(twoMonths, ic, hasExpense, ec).value == ChangeBlock(twoMonths, ic, hasExpense, ec)
  {
  }

  /**
   * Which observations the corrected block makes, given that a change is only
   * known with two months on record (and an Expense change only with an
   * Expense row).
   */
  lemma ChangeBlockSpec(twoMonths: bool, ic: Option<real>, hasExpense: bool, ec: Option<real>)
    requires ic.Some? ==> twoMonths
    requires ec.Some? ==> twoMonths && hasExpense
    ensures var r := ChangeBlock(twoMonths, ic, hasExpense, ec);
            && (ic.Some? <==> |r| > 0 && r[0].IncomeChange?)
            && (ic.Some? ==> |r| >= 2 && r[0] == IncomeChange(IncreaseOrDecrease(ic.value), Abs(ic.value))
                             && (r[1] == GrowthOpportunity <==> ic.value > 0.0)
                             && (r[1] == RevenueDecline <==> ic.value <= 0.0))
            && ((exists x :: x in r && x.ExpenseChange?) <==> ec.Some?)
            && (ec.Some? ==> ExpenseChange(IncreaseOrDecrease(ec.value), Abs(ec.value)) in r)
            && (GreatJob in r <==> ic.Some? && ec.Some? && ic.value > 0.0 && ec.value < 0.0)
            && (SqueezeWarning in r <==> ic.Some? && ec.Some? && ic.value < 0.0 && ec.value > 0.0)
  {
    var r := ChangeBlock(twoMonths, ic, hasExpense, ec);
    if ec.Some? {
      assert ExpenseChange(IncreaseOrDecrease(ec.value), Abs(ec.value)) in r;
    }
  }

  /** A previous month with only an Expense, then a month with both: the as-written block raises, the corrected one reports the 20% drop. */
  lemma UnboundIncomeChangeExample()
    ensures ChangeBlockAsWritten(true, None, true, Some(PercentChange(80.0, 100.0))) == Failure(UnboundIncomeChange)
    ensures ChangeBlock(true, None, true, Some(PercentChange(80.0, 100.0))) == [ExpenseChange(Decreased, 20.0)]
  {
    assert PercentChange(80.0, 100.0) == -20.0;
  }

  /** The month-over-month block of src/assistant.py, as written, on a frame's rows. */
  function ChangeInsightsAsWritten(rows: seq<Row>): (r: Result<seq<Insight>, InsightError>)
    ensures r.Failure? <==>
              && |Months(rows, YearMonth)| >= 2 && LastTwo(rows, INCOME).value.1 <= 0.0
              && HasKind(rows, EXPENSE) && LastTwo(rows, EXPENSE).value.1 > 0.0
  {
    ChangeBlockAsWritten(LastTwo(rows, INCOME).Some?, Change(rows, INCOME), HasKind(rows, EXPENSE), Change(rows, EXPENSE))
  }

  /** The corrected month-over-month block on a frame's rows. */
  function ChangeInsights(rows: seq<Row>): (r: seq<Insight>)
    ensures UploadPrompt !in r
  {
    ChangeBlock(LastTwo(rows, INCOME).Some?, Change(rows, INCOME), HasKind(rows, EXPENSE), Change(rows, EXPENSE))
  }

  /** The corrected block in terms of the last two months' totals. */
  lemma ChangeInsightsSpec(rows: seq<Row>)
    ensures var r := ChangeInsights(rows);
            var inc, exp := LastTwo(rows, INCOME), LastTwo(rows, EXPENSE);
            && ((|r| > 0 && r[0].IncomeChange?) <==> inc.Some? && inc.value.1 > 0.0)
            && (GrowthOpportunity in r <==> inc.Some? && inc.value.1 > 0.0 && inc.value.0 > inc.value.1)
            && ((exists x :: x in r && x.ExpenseChange?) <==> exp.Some? && exp.value.1 > 0.0)
            && (GreatJob in r <==>
                  inc.Some? && inc.value.1 > 0.0 && inc.value.0 > inc.value.1
                  && exp.Some? && exp.value.1 > 0.0 && exp.value.0 < exp.value.1)
            && (SqueezeWarning in r <==>
                  inc.Some? && inc.value.1 > 0.0 && inc.value.0 < inc.value.1
                  && exp.Some? && exp.value.1 > 0.0 && exp.value.0 > exp.value.1)
  {
    HasKindOfChange(rows);
    ChangeBlockByTotals(LastTwo(rows, INCOME), Change(rows, INCOME), HasKind(rows, EXPENSE),
                        LastTwo(rows, EXPENSE), Change(rows, EXPENSE));
  }

  /**
   * `ChangeBlockSpec` restated over the two months' totals each change is
   * computed from (`inc` and `exp` are (last, previous) pairs).
   */
  lemma ChangeBlockByTotals(inc: Option<(real, real)>, ic: Option<real>, hasExpense: bool,
                            exp: Option<(real, real)>, ec: Option<real>)
    requires inc.Some? <==> exp.Some?
    requires ic.Some? <==> inc.Some? && inc.value.1 > 0.0
    requires ic.Some? ==> (ic.value > 0.0 <==> inc.value.0 > inc.value.1) && (ic.value < 0.0 <==> inc.value.0 < inc.value.1)
    requires ec.Some? <==> exp.Some? && exp.value.1 > 0.0
    requires ec.Some? ==> (ec.value > 0.0 <==> exp.value.0 > exp.value.1) && (ec.value < 0.0 <==> exp.value.0 < exp.value.1)
    requires ec.Some? ==> hasExpense
    ensures var r := ChangeBlock(inc.Some?, ic, hasExpense, ec);
            && ((|r| > 0 && r[0].IncomeChange?) <==> inc.Some? && inc.value.1 > 0.0)
            && (GrowthOpportunity in r <==> inc.Some? && inc.value.1 > 0.0 && inc.value.0 > inc.value.1)
            && ((exists x :: x in r && x.ExpenseChange?) <==> exp.Some? && exp.value.1 > 0.0)
            && (GreatJob in r <==>
                  inc.Some? && inc.value.1 > 0.0 && inc.value.0 > inc.value.1
                  && exp.Some? && exp.value.1 > 0.0 && exp.value.0 < exp.value.1)
            && (SqueezeWarning in r <==>
                  inc.Some? && inc.value.1 > 0.0 && inc.value.0 < inc.value.1
                  && exp.Some? && exp.value.1 > 0.0 && exp.value.0 > exp.value.1)
  {
    ChangeBlockSpec(inc.Some?, ic, hasExpense, ec);
  }

  /** An Expense change needs an Expense row, so the `'Expense' in unique()` guard never hides one. */
  lemma HasKindOfChange(rows: seq<Row>)
    ensures Change(rows, EXPENSE).Some? ==> HasKind(rows, EXPENSE)
  {
    if Change(rows, EXPENSE).Some? {
      var sel := OfKind(rows, EXPENSE);
      var ms := Months(rows, YearMonth);
      assert KeyTotal(sel, MonthKey(YearMonth), ms[|ms| - 2]) > 0.0;
      assert |sel| > 0;
      HasKindIffSelected(rows, EXPENSE);
    }
  }

  // ---------------------------------------------------------------------
  // Largest expense category
  // ---------------------------------------------------------------------

  /** Share of the total expense, 0 when that total is not positive. */
  function Share(amount: real, expense: real): (p: real)
    ensures expense > 0.0 ==> p * expense == amount * 100.0
    ensures expense <= 0.0 ==> p == 0.0
  {
    if expense > 0.0 then amount / expense * 100.0 else 0.0
  }

  /** The largest expense category and, past 40% of expenses, the advice to review it. */
  function CategoryInsights(rows: seq<Row>, hasCategory: bool, expense: real): (r: seq<Insight>)
    ensures |r| > 0 <==> hasCategory && exists i :: 0 <= i < |rows| && rows[i].kind == Some(EXPENSE) && rows[i].category.Some?
    ensures |r| > 0 ==>
              && r[0].LargestCategory?
              && KeyCount(OfKind(rows, EXPENSE), CategoryOf, r[0].category) > 0
              && r[0].amount == KeyTotal(OfKind(rows, EXPENSE), CategoryOf, r[0].category)
              && r[0].percent == Share(r[0].amount, expense)
              && (|r| == 2 <==> r[0].percent > REVIEW_SHARE)
              && (|r| == 2 ==> r[1] == ReviewCategory(r[0].category))
              && |r| <= 2
  {
    var g := ExpenseByCategory(rows);
    ExpenseCategoryExists(rows);
    if !hasCategory || |g| == 0 then []
    else
      var top := g[ArgMax(g)];
      assert top.key in Keys(g);
      LexLessIsStrictTotal();
      LookupAtIndex(g, LexLess, ArgMax(g));
      var pct := Share(top.total, expense);
      [LargestCategory(top.key, top.total, pct)] + (if pct > REVIEW_SHARE then [ReviewCategory(top.key)] else [])
  }

  lemma ExpenseCategoryExists(rows: seq<Row>)
    ensures |ExpenseByCategory(rows)| > 0 <==> exists i :: 0 <= i < |rows| && rows[i].kind == Some(EXPENSE) && rows[i].category.Some?
  {
    var sel := OfKind(rows, EXPENSE);
    var g := ExpenseByCategory(rows);
    if |g| > 0 {
      assert g[0].key in Keys(g);
      KeyCountPositive(sel, CategoryOf, g[0].key);
      var j :| 0 <= j < |sel| && CategoryOf(sel[j]) == Some(g[0].key);
      InOfKind(rows, EXPENSE, sel[j]);
    }
    if exists i :: 0 <= i < |rows| && rows[i].kind == Some(EXPENSE) && rows[i].category.Some? {
      var i :| 0 <= i < |rows| && rows[i].kind == Some(EXPENSE) && rows[i].category.Some?;
      InOfKind(rows, EXPENSE, rows[i]);
      var j :| 0 <= j < |sel| && sel[j] == rows[i];
      KeyCountPositive(sel, CategoryOf, rows[i].category.value);
      assert rows[i].category.value in Keys(g);
    }
  }

  /** The reported category has the largest expense sum; ties go to the first name in sort order. */
  lemma LargestCategoryIsLargest(rows: seq<Row>, hasCategory: bool, expense: real, c: string)
    requires hasCategory
    requires exists i :: 0 <= i < |rows| && rows[i].kind == Some(EXPENSE) && rows[i].category == Some(c)
    ensures |CategoryInsights(rows, hasCategory, expense)| > 0
    ensures var top := CategoryInsights(rows, hasCategory, expense)[0];
            && KeyTotal(OfKind(rows, EXPENSE), CategoryOf, c) <= top.amount
            && (LexLess(c, top.category) ==> KeyTotal(OfKind(rows, EXPENSE), CategoryOf, c) < top.amount)
  {
    var i :| 0 <= i < |rows| && rows[i].kind == Some(EXPENSE) && rows[i].category == Some(c);
    assert rows[i].category.Some?;
    var sel := OfKind(rows, EXPENSE);
    InOfKind(rows, EXPENSE, rows[i]);
    var j :| 0 <= j < |sel| && sel[j] == rows[i];
    KeyCountPositive(sel, CategoryOf, c);
    LexLessIsStrictTotal();
    ArgMaxIsLargest(OfKind(rows, EXPENSE), CategoryOf, LexLess, c);
  }

  // ---------------------------------------------------------------------
  // Peak income month
  // ---------------------------------------------------------------------

  function MonthName(m: int): string
    requires 1 <= m <= 12
  {
    ["January", "February", "March", "April", "May", "June",
     "July", "August", "September", "October", "November", "December"][m - 1]
  }

  function MonthNumOf(r: Row): Option<int>
  {
    match r.date
    case Some(d) => Some(d.month)
    case None => None
  }

  /** A month number some dated row carries lies in 1..12. */
  lemma MonthNumInRange(rows: seq<Row>, m: int)
    requires KeyCount(rows, MonthNumOf, m) > 0
    ensures 1 <= m <= 12
  {
    KeyCountPositive(rows, MonthNumOf, m);
    var i :| 0 <= i < |rows| && MonthNumOf(rows[i]) == Some(m);
  }

  /** The Income groups of `month_analysis`, by month number. */
  function IncomeByMonth(rows: seq<Row>): (g: seq<Group<int>>)
    ensures forall m :: m in Keys(g) <==> KeyCount(OfKind(rows, INCOME), MonthNumOf, m) > 0
  {
    IntLessIsStrictTotal();
    GroupSum(OfKind(rows, INCOME), MonthNumOf, IntLess)
  }

  /** `idxmax` over the Income rows of `month_analysis`, once at least six months are on record. */
  function PeakMonth(rows: seq<Row>): (p: Option<int>)
    ensures p.Some? <==> |Months(rows, YearMonth)| >= PEAK_MIN_MONTHS && |IncomeByMonth(rows)| > 0
    ensures p.Some? ==> 1 <= p.value <= 12 && KeyCount(OfKind(rows, INCOME), MonthNumOf, p.value) > 0
  {
    var g := IncomeByMonth(rows);
    if |Months(rows, YearMonth)| >= PEAK_MIN_MONTHS && |g| > 0 then
      var m := g[ArgMax(g)].key;
      assert m in Keys(g);
      MonthNumInRange(OfKind(rows, INCOME), m);
      Some(m)
    else None
  }

  /** The peak month has the largest income sum of any month; ties go to the earliest month number. */
  lemma PeakMonthIsLargest(rows: seq<Row>, m: int)
    requires PeakMonth(rows).Some?
    requires KeyCount(OfKind(rows, INCOME), MonthNumOf, m) > 0
    ensures var sel := OfKind(rows, INCOME);
            var p := PeakMonth(rows).value;
            && KeyTotal(sel, MonthNumOf, m) <= KeyTotal(sel, MonthNumOf, p)
            && (m < p ==> KeyTotal(sel, MonthNumOf, m) < KeyTotal(sel, MonthNumOf, p))
  {
    var sel := OfKind(rows, INCOME);
    IntLessIsStrictTotal();
    var g := GroupSum(sel, MonthNumOf, IntLess);
    ArgMaxIsLargest(sel, MonthNumOf, IntLess, m);
    LookupAtIndex(g, IntLess, ArgMax(g));
  }

  /** Some Income row is dated exactly when there is an Income month group. */
  lemma IncomeMonthExists(rows: seq<Row>)
    ensures |IncomeByMonth(rows)| > 0 <==> exists i :: 0 <= i < |rows| && rows[i].kind == Some(INCOME) && rows[i].date.Some?
  {
    var sel := OfKind(rows, INCOME);
    var g := IncomeByMonth(rows);
    if |g| > 0 {
      assert g[0].key in Keys(g);
      KeyCountPositive(sel, MonthNumOf, g[0].key);
      var j :| 0 <= j < |sel| && MonthNumOf(sel[j]) == Some(g[0].key);
      InOfKind(rows, INCOME, sel[j]);
    }
    if exists i :: 0 <= i < |rows| && rows[i].kind == Some(INCOME) && rows[i].date.Some? {
      var i :| 0 <= i < |rows| && rows[i].kind == Some(INCOME) && rows[i].date.Some?;
      InOfKind(rows, INCOME, rows[i]);
      var j :| 0 <= j < |sel| && sel[j] == rows[i];
      KeyCountPositive(sel, MonthNumOf, rows[i].date.value.month);
      assert rows[i].date.value.month in Keys(g);
    }
  }

  function PeakInsights(rows: seq<Row>): (r: seq<Insight>)
    ensures |r| <= 1 && (|r| == 1 <==> PeakMonth(rows).Some?)
    ensures |r| == 1 ==> r[0] == PeakIncomeMonth(MonthName(PeakMonth(rows).value))
  {
    match PeakMonth(rows)
    case None => []
    case Some(m) => [PeakIncomeMonth(MonthName(m))]
  }

  // ---------------------------------------------------------------------
  // generate_insights
  // ---------------------------------------------------------------------

  /** `'Type' in df.columns and 'Amount' in df.columns and 'Date' in df.columns`. */
  predicate CanAnalyse(f: Frame)
  {
    "Type" in f.columns && "Amount" in f.columns && "Date" in f.columns
  }

  /** `expense`: the Expense total, 0 when no row is an Expense. */
  function ExpenseTotal(rows: seq<Row>): (e: real)
    ensures e == Total(OfKind(rows, EXPENSE))
  {
    AbsentKindTotal(rows, EXPENSE);
    if HasKind(rows, EXPENSE) then Total(OfKind(rows, EXPENSE)) else 0.0
  }

  /** The frame afterwards: Month holds `%Y-%m` labels, and MonthNum is added once six months are on record. */
  function InsightFrame(f: Frame): (g: Frame)
    ensures g.rows == f.rows
    ensures CanAnalyse(f) ==> g.Valid() && g.month == Some(YearMonth) && ("MonthNum" in g.columns <==> "MonthNum" in f.columns || |Months(f.rows, YearMonth)| >= PEAK_MIN_MONTHS)
    ensures !CanAnalyse(f) ==> g == f
  {
    if !CanAnalyse(f) then f
    else
      var h := SetMonth(f, YearMonth);
      if |Months(f.rows, YearMonth)| >= PEAK_MIN_MONTHS then Frame(WithColumn(h.columns, "MonthNum"), h.rows, h.month) else h
  }

  /** `if not insights`: the default prompt replaces an empty list, and only that. */
  function WithDefault(found: seq<Insight>): (r: seq<Insight>)
    requires UploadPrompt !in found
    ensures |r| > 0
    ensures UploadPrompt in r <==> found == []
    ensures found != [] ==> r == found
  {
    if found == [] then [UploadPrompt] else found
  }

  /** Margin, changes, largest category and peak month, in that order. */
  function Found(f: Frame, changes: seq<Insight>): (r: seq<Insight>)
    requires UploadPrompt !in changes
    ensures UploadPrompt !in r
    ensures !CanAnalyse(f) ==> r == []
    ensures CanAnalyse(f) ==> r == MarginInsights(Total(OfKind(f.rows, INCOME)), Total(OfKind(f.rows, EXPENSE)))
                                   + changes
                                   + CategoryInsights(f.rows, "Category" in f.columns, Total(OfKind(f.rows, EXPENSE)))
                                   + PeakInsights(f.rows)
  {
    if CanAnalyse(f) then
      var rows := f.rows;
      var m := MarginInsights(Total(OfKind(rows, INCOME)), ExpenseTotal(rows));
      var c := CategoryInsights(rows, "Category" in f.columns, ExpenseTotal(rows));
      var p := PeakInsights(rows);
      assert UploadPrompt !in m && UploadPrompt !in c && UploadPrompt !in p;
      m + changes + c + p
    else []
  }

  /** `generate_insights` in src/assistant.py, as written. */
  function GenerateInsightsAsWritten(f: Frame): (r: Result<(Frame, seq<Insight>), InsightError>)
    ensures r.Failure? <==> CanAnalyse(f) && ChangeInsightsAsWritten(f.rows).Failure?
  {
    if !CanAnalyse(f) then Success((f, [UploadPrompt]))
    else match ChangeInsightsAsWritten(f.rows)
      case Failure(e) => Failure(e)
      case Success(changes) =>
        ChangeBlockAgrees(LastTwo(f.rows, INCOME).Some?, Change(f.rows, INCOME), HasKind(f.rows, EXPENSE), Change(f.rows, EXPENSE));
        Success((InsightFrame(f), WithDefault(Found(f, changes))))
  }

  /** `generate_insights` in src/assistant.py, with the Expense change reported when there is no income change. */
  function GenerateInsights(f: Frame): (r: (Frame, seq<Insight>))
    ensures r.0 == InsightFrame(f)
    ensures |r.1| > 0
    ensures !CanAnalyse(f) ==> r.1 == [UploadPrompt]
    ensures UploadPrompt in r.1 <==> r.1 == [UploadPrompt]
    ensures CanAnalyse(f) && Total(OfKind(f.rows, INCOME)) > 0.0 ==>
              r.1[0] == MarginInsights(Total(OfKind(f.rows, INCOME)), Total(OfKind(f.rows, EXPENSE)))[0]
    ensures CanAnalyse(f) && r.1 != [UploadPrompt] ==>
              r.1 == MarginInsights(Total(OfKind(f.rows, INCOME)), Total(OfKind(f.rows, EXPENSE)))
                     + ChangeInsights(f.rows)
                     + CategoryInsights(f.rows, "Category" in f.columns, Total(OfKind(f.rows, EXPENSE)))
                     + PeakInsights(f.rows)
  {
    var changes := if CanAnalyse(f) then ChangeInsights(f.rows) else [];
    (InsightFrame(f), WithDefault(Found(f, changes)))
  }

  /** Where the source does not raise, it agrees with the corrected version. */
  lemma GenerateInsightsAgrees(f: Frame)
    ensures GenerateInsightsAsWritten(f).Success? ==> GenerateInsightsAsWritten(f).value == GenerateInsights(f)
  {
    ChangeBlockAgrees(LastTwo(f.rows, INCOME).Some?, Change(f.rows, INCOME), HasKind(f.rows, EXPENSE), Change(f.rows, EXPENSE));
  }

  /** The default prompt appears exactly when no rule fired. */
  lemma PromptWhenNothingFound(f: Frame)
    requires CanAnalyse(f)
    ensures GenerateInsights(f).1 == [UploadPrompt] <==>
              && Total(OfKind(f.rows, INCOME)) <= 0.0
              && ChangeInsights(f.rows) == []
              && CategoryInsights(f.rows, "Category" in f.columns, Total(OfKind(f.rows, EXPENSE))) == []
              && PeakMonth(f.rows).None?
  {
    var found := Found(f, ChangeInsights(f.rows));
    var m := MarginInsights(Total(OfKind(f.rows, INCOME)), Total(OfKind(f.rows, EXPENSE)));
    var c := CategoryInsights(f.rows, "Category" in f.columns, Total(OfKind(f.rows, EXPENSE)));
    var p := PeakInsights(f.rows);
    assert found == m + ChangeInsights(f.rows) + c + p;
    assert |found| == |m| + |ChangeInsights(f.rows)| + |c| + |p|;
  }

  // ---------------------------------------------------------------------
  // The older generate_insights (assistant.py)
  // ---------------------------------------------------------------------

  /** assistant.py over its inputs: the margin without a verdict and the changes without follow-ups. */
  function LegacyBlock(income: real, expense: real, ic: Option<real>, hasExpense: bool, ec: Option<real>): (r: seq<Insight>)
    ensures |r| > 0
    ensures forall x :: x in r ==> x.ProfitMargin? || x.IncomeChange? || x.ExpenseChange? || x.UploadPrompt?
    ensures (exists x :: x in r && x.ProfitMargin?) <==> income > 0.0
    ensures income > 0.0 ==> r[0] == ProfitMargin(Margin(income, expense), None)
    ensures (exists x :: x in r && x.IncomeChange?) <==> ic.Some?
    ensures (exists x :: x in r && x.ExpenseChange?) <==> hasExpense && ec.Some?
    ensures r == [UploadPrompt] <==> income <= 0.0 && ic.None? && !(hasExpense && ec.Some?)
    ensures r != [UploadPrompt] ==>
              |r| == (if income > 0.0 then 1 else 0) + (if ic.Some? then 1 else 0) + (if hasExpense && ec.Some? then 1 else 0)
    ensures var k := if income > 0.0 then 1 else 0;
            ic.Some? ==> |r| > k && r[k] == IncomeChange(IncreaseOrDecrease(ic.value), Abs(ic.value))
    ensures var k := (if income > 0.0 then 1 else 0) + (if ic.Some? then 1 else 0);
            hasExpense && ec.Some? ==> |r| > k && r[k] == ExpenseChange(IncreaseOrDecrease(ec.value), Abs(ec.value))
  {
    var margin := if income > 0.0 then [ProfitMargin(Margin(income, expense), None)] else [];
    var incomePart := if ic.Some? then [IncomeChange(IncreaseOrDecrease(ic.value), Abs(ic.value))] else [];
    var expensePart := if hasExpense && ec.Some? then [ExpenseChange(IncreaseOrDecrease(ec.value), Abs(ec.value))] else [];
    var found := margin + incomePart + expensePart;
    assert found == [] <==> margin == [] && incomePart == [] && expensePart == [];
    assert forall x :: x in found <==> x in margin || x in incomePart || x in expensePart;
    assert (exists x :: x in found && x.ProfitMargin?) <==> margin != [] by {
      if margin != [] {
        assert margin[0] in found;
      }
    }
    assert (exists x :: x in found && x.IncomeChange?) <==> incomePart != [] by {
      if incomePart != [] {
        assert incomePart[0] in found;
      }
    }
    assert (exists x :: x in found && x.ExpenseChange?) <==> expensePart != [] by {
      if expensePart != [] {
        assert expensePart[0] in found;
      }
    }
    if found == [] then [UploadPrompt] else found
  }

  /** The month-over-month lines of a block, without the follow-up remarks. */
  function ChangeLines(r: seq<Insight>): (c: seq<Insight>)
    ensures forall x :: x in c ==> x.IncomeChange? || x.ExpenseChange?
  {
    if |r| == 0 then []
    else (if r[0].IncomeChange? || r[0].ExpenseChange? then [r[0]] else []) + ChangeLines(r[1..])
  }

  lemma {:induction false} ChangeLinesAppend(a: seq<Insight>, b: seq<Insight>)
    ensures ChangeLines(a + b) == ChangeLines(a) + ChangeLines(b)
  {
    if |a| > 0 {
      assert (a + b)[0] == a[0];
      assert (a + b)[1..] == a[1..] + b;
      ChangeLinesAppend(a[1..], b);
    } else {
      assert a + b == b;
    }
  }

  lemma ChangeLinesCons(x: Insight, r: seq<Insight>)
    ensures ChangeLines([x] + r) == (if x.IncomeChange? || x.ExpenseChange? then [x] else []) + ChangeLines(r)
  {
    assert ([x] + r)[0] == x;
    assert ([x] + r)[1..] == r;
  }

  /** The follow-up remarks carry no change line. */
  lemma ComparisonHasNoChangeLines(ic: real, ec: real)
    ensures ChangeLines(Comparison(ic, ec)) == []
  {
    var c := Comparison(ic, ec);
    if c != [] {
      ChangeLinesCons(c[0], []);
      assert c == [c[0]] + [];
    }
  }

  /** The corrected block's change lines: the income line, then the Expense line, each when known. */
  lemma ChangeLinesOfBlock(ic: Option<real>, hasExpense: bool, ec: Option<real>)
    ensures ChangeLines(ChangeBlock(true, ic, hasExpense, ec))
            == (if ic.Some? then [IncomeChange(IncreaseOrDecrease(ic.value), Abs(ic.value))] else [])
               + (if hasExpense && ec.Some? then [ExpenseChange(IncreaseOrDecrease(ec.value), Abs(ec.value))] else [])
  {
    var e := if hasExpense && ec.Some? then [ExpenseChange(IncreaseOrDecrease(ec.value), Abs(ec.value))] else [];
    var cmp := if hasExpense && ec.Some? && ic.Some? then Comparison(ic.value, ec.value) else [];
    var tail := e + cmp;
    ChangeLinesAppend(e, cmp);
    if ic.Some? && hasExpense && ec.Some? {
      ComparisonHasNoChangeLines(ic.value, ec.value);
    }
    if e != [] {
      ChangeLinesCons(e[0], []);
      assert e == [e[0]] + [];
    }
    assert ChangeLines(tail) == e;
    match ic
    case None =>
      assert ChangeBlock(true, ic, hasExpense, ec) == tail;
    case Some(x) =>
      var i, f := IncomeChange(IncreaseOrDecrease(x), Abs(x)), if x > 0.0 then GrowthOpportunity else RevenueDecline;
      assert ChangeBlock(true, ic, hasExpense, ec) == [i] + ([f] + tail);
      ChangeLinesCons(i, [f] + tail);
      ChangeLinesCons(f, tail);
  }

  /** The margin insight with its verdict dropped. */
  function Unrated(r: seq<Insight>): seq<Insight>
  {
    if |r| > 0 && r[0].ProfitMargin? then [ProfitMargin(r[0].margin, None)] + r[1..] else r
  }

  /**
   * The older rule set is the newer one trimmed: the margin without its
   * verdict, then the change lines of the corrected month-over-month block
   * without their follow-ups, and the prompt when nothing is left.
   */
  lemma LegacyBlockIsTrimmedBlock(income: real, expense: real, ic: Option<real>, hasExpense: bool, ec: Option<real>)
    ensures var found := Unrated(MarginInsights(income, expense)) + ChangeLines(ChangeBlock(true, ic, hasExpense, ec));
            UploadPrompt !in found && LegacyBlock(income, expense, ic, hasExpense, ec) == WithDefault(found)
  {
    ChangeLinesOfBlock(ic, hasExpense, ec);
  }

  /** assistant.py: `generate_insights`, which also relabels Month as `%Y-%m`. */
  function LegacyGenerateInsights(f: Frame): (r: (Frame, seq<Insight>))
    ensures !CanAnalyse(f) ==> r == (f, [UploadPrompt])
    ensures CanAnalyse(f) ==> r.0 == SetMonth(f, YearMonth)
    ensures CanAnalyse(f) ==>
              r.1 == LegacyBlock(Total(OfKind(f.rows, INCOME)), Total(OfKind(f.rows, EXPENSE)),
                                 Change(f.rows, INCOME), true, Change(f.rows, EXPENSE))
  {
    if !CanAnalyse(f) then (f, [UploadPrompt])
    else
      var rows := f.rows;
      HasKindOfChange(rows);
      (SetMonth(f, YearMonth), LegacyBlock(Total(OfKind(rows, INCOME)), ExpenseTotal(rows),
                                           Change(rows, INCOME), HasKind(rows, EXPENSE), Change(rows, EXPENSE)))
  }
}
