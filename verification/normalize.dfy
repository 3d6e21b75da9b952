/**
 * `process_data` (src/processor.py and the older processor.py): turns an
 * arbitrary spreadsheet into Date / Type / Amount rows, guessing columns by
 * name, and derives the calendar columns.
 */
module Normalize {
  import opened Base
  import opened Text
  import opened Calendar
  import opened Table

  /** A column name that the date guess accepts: contains "date" or "time", any case. */
  predicate DateLike(name: string)
  {
    Contains(Lower(name), "date") || Contains(Lower(name), "time")
  }

  /** A column name that the amount guess accepts: contains "amount" or "value", any case. */
  predicate AmountLike(name: string)
  {
    Contains(Lower(name), "amount") || Contains(Lower(name), "value")
  }

  /** `c` is the first entry of `[col for col in columns if p(col)]`. */
  ghost predicate IsFirst(columns: seq<string>, c: string, p: string -> bool)
  {
    exists i :: 0 <= i < |columns| && columns[i] == c && p(c) && forall j :: 0 <= j < i ==> !p(columns[j])
  }

  function FirstColumn(columns: seq<string>, p: string -> bool): (r: Option<string>)
    ensures r.Some? ==> r.value in columns && IsFirst(columns, r.value, p)
    ensures r.None? <==> forall i :: 0 <= i < |columns| ==> !p(columns[i])
  {
    if |columns| == 0 then None
    else if p(columns[0]) then Some(columns[0])
    else
      var r := FirstColumn(columns[1..], p);
      assert r.Some? ==> IsFirst(columns, r.value, p) by {
        if r.Some? {
          var i :| 0 <= i < |columns[1..]| && columns[1..][i] == r.value && p(r.value)
                   && forall j :: 0 <= j < i ==> !p(columns[1..][j]);
          assert columns[i + 1] == r.value;
          assert forall j :: 0 <= j < i + 1 ==> !p(columns[j]) by {
            forall j | 0 <= j < i + 1 ensures !p(columns[j]) {
              if j > 0 {
                assert columns[j] == columns[1..][j - 1];
              }
            }
          }
        }
      }
      assert r.None? <==> forall i :: 0 <= i < |columns| ==> !p(columns[i]) by {
        if r.None? {
          forall i | 0 <= i < |columns| ensures !p(columns[i]) {
            if i > 0 {
              assert columns[i] == columns[1..][i - 1];
            }
          }
        }
      }
      r
  }

  lemma FirstIsUnique(columns: seq<string>, c1: string, c2: string, p: string -> bool)
    requires IsFirst(columns, c1, p) && IsFirst(columns, c2, p)
    ensures c1 == c2
  {
    var i1 :| 0 <= i1 < |columns| && columns[i1] == c1 && p(c1) && forall j :: 0 <= j < i1 ==> !p(columns[j]);
    var i2 :| 0 <= i2 < |columns| && columns[i2] == c2 && p(c2) && forall j :: 0 <= j < i2 ==> !p(columns[j]);
    assert p(columns[i1]) && p(columns[i2]);
  }

  /** Where the `Date` column comes from. */
  datatype DateSource = DateFrom(column: string) | DateToday

  /** How `Type` and `Amount` are obtained. */
  datatype AmountRule =
    | FromSign(column: string)        // no Type: Income iff value >= 0, Amount = |value|
    | Placeholder                     // no Type and no amount-like column: Income, 1000
    | TypeWithAmount(column: string)  // Type given; Amount copied unchanged from `column`
    | TypeWithDefault                 // Type given, no amount-like column: Amount = 1000

  const DEFAULT_AMOUNT: real := 1000.0

  function DateSourceOf(columns: seq<string>): (s: DateSource)
    ensures s.DateFrom? ==> s.column in columns
  {
    if "Date" in columns then DateFrom("Date")
    else match FirstColumn(columns, DateLike)
      case Some(c) => DateFrom(c)
      case None => DateToday
  }

  function AmountRuleOf(columns: seq<string>): (r: AmountRule)
    ensures (r.FromSign? || r.TypeWithAmount?) ==> r.column in columns
    ensures (r.FromSign? || r.Placeholder?) <==> "Type" !in columns
  {
    if "Type" !in columns then
      match FirstColumn(columns, AmountLike)
      case Some(c) => FromSign(c)
      case None => Placeholder
    else if "Amount" in columns then TypeWithAmount("Amount")
    else
      match FirstColumn(columns, AmountLike)
      case Some(c) => TypeWithAmount(c)
      case None => TypeWithDefault
  }

  /**
   * Why a row cannot be normalised. Under sign inference a text or timestamp
   * amount makes `x >= 0` raise; with a Type column, a cell of the wrong kind
   * (text as an amount, a number as a type or category) is one pandas would
   * carry along but sums and sorts cannot use.
   */
  datatype NormError =
    | NonNumericAmount(row: nat)
    | NonTextType(row: nat)
    | NonTextCategory(row: nat)

  /** `pd.to_datetime(cell, errors='coerce')`: timestamps stay, blanks are NaT, the rest is parsed. */
  function CellDate(c: Cell, parse: Cell -> Option<Date>): Option<Date>
  {
    match c
    case Stamp(d) => Some(d)
    case Blank => None
    case _ => parse(c)
  }

  function Abs(x: real): real
  {
    if x >= 0.0 then x else -x
  }

  ghost predicate Covers(raw: RawRow, dates: DateSource, rule: AmountRule, category: bool)
  {
    && (dates.DateFrom? ==> dates.column in raw)
    && ((rule.FromSign? || rule.TypeWithAmount?) ==> rule.column in raw)
    && ((rule.TypeWithAmount? || rule.TypeWithDefault?) ==> "Type" in raw)
    && (category ==> "Category" in raw)
  }

  function RowCategory(raw: RawRow, i: nat, category: bool): Result<Option<string>, NormError>
    requires category ==> "Category" in raw
  {
    if !category then Success(None)
    else match raw["Category"]
      case Str(s) => Success(Some(s))
      case Blank => Success(None)
      case _ => Failure(NonTextCategory(i))
  }

  /** A Type cell: text is the type and a blank is NaN. */
  function CellKind(c: Cell, i: nat): Result<Option<string>, NormError>
  {
    match c
    case Str(s) => Success(Some(s))
    case Blank => Success(None)
    case _ => Failure(NonTextType(i))
  }

  /** An amount cell: a number is the amount and a blank is NaN. */
  function CellAmount(c: Cell, i: nat): Result<Option<real>, NormError>
  {
    match c
    case Num(v) => Success(Some(v))
    case Blank => Success(None)
    case _ => Failure(NonNumericAmount(i))
  }

  /**
   * Type and Amount of one row under `rule`. Under sign inference a NaN
   * amount is an Expense (`NaN >= 0` is false) and stays NaN under `abs`.
   */
  function RowAmount(raw: RawRow, i: nat, rule: AmountRule): Result<(Option<string>, Option<real>), NormError>
    requires (rule.FromSign? || rule.TypeWithAmount?) ==> rule.column in raw
    requires (rule.TypeWithAmount? || rule.TypeWithDefault?) ==> "Type" in raw
  {
    match rule
    case Placeholder => Success((Some(INCOME), Some(DEFAULT_AMOUNT)))
    case FromSign(c) =>
      (match raw[c]
       case Num(v) => Success((Some(if v >= 0.0 then INCOME else EXPENSE), Some(Abs(v))))
       case Blank => Success((Some(EXPENSE), None))
       case _ => Failure(NonNumericAmount(i)))
    case TypeWithAmount(c) =>
      (match CellKind(raw["Type"], i)
       case Failure(e) => Failure(e)
       case Success(kind) =>
         (match CellAmount(raw[c], i)
          case Failure(e) => Failure(e)
          case Success(amount) => Success((kind, amount))))
    case TypeWithDefault =>
      (match CellKind(raw["Type"], i)
       case Failure(e) => Failure(e)
       case Success(kind) => Success((kind, Some(DEFAULT_AMOUNT))))
  }

  function NormalizeRow(raw: RawRow, i: nat, dates: DateSource, rule: AmountRule, category: bool,
                        today: Date, parse: Cell -> Option<Date>): Result<Row, NormError>
    requires Covers(raw, dates, rule, category)
  {
    var date := match dates
      case DateFrom(c) => CellDate(raw[c], parse)
      case DateToday => Some(today);
    match RowAmount(raw, i, rule)
    case Failure(e) => Failure(e)
    case Success(ka) =>
      match RowCategory(raw, i, category)
      case Failure(e) => Failure(e)
      case Success(cat) => Success(Row(date, ka.0, ka.1, cat))
  }

  function NormalizeRows(rows: seq<RawRow>, from: nat, dates: DateSource, rule: AmountRule, category: bool,
                         today: Date, parse: Cell -> Option<Date>): (r: Result<seq<Row>, NormError>)
    requires forall i :: 0 <= i < |rows| ==> Covers(rows[i], dates, rule, category)
    ensures r.Success? ==> |r.value| == |rows|
    ensures r.Success? ==> forall i :: 0 <= i < |rows| ==>
              NormalizeRow(rows[i], from + i, dates, rule, category, today, parse) == Success(r.value[i])
    ensures r.Failure? ==> exists i :: (0 <= i < |rows| &&
              NormalizeRow(rows[i], from + i, dates, rule, category, today, parse) == Failure(r.error))
    decreases |rows|
  {
    if |rows| == 0 then Success([])
    else
      match NormalizeRow(rows[0], from, dates, rule, category, today, parse)
      case Failure(e) => Failure(e)
      case Success(row) =>
        match NormalizeRows(rows[1..], from + 1, dates, rule, category, today, parse)
        case Failure(e) =>
          TailFails(rows, from, dates, rule, category, today, parse, e);
          Failure(e)
        case Success(rest) =>
          ConsSucceeds(rows, from, dates, rule, category, today, parse, row, rest);
          Success([row] + rest)
  }

  /** A row failing in the tail fails at its shifted position in the whole. */
  lemma TailFails(raws: seq<RawRow>, from: nat, dates: DateSource, rule: AmountRule,
                  category: bool, today: Date, parse: Cell -> Option<Date>, e: NormError)
    requires |raws| > 0
    requires forall i :: 0 <= i < |raws| ==> Covers(raws[i], dates, rule, category)
    requires exists i :: 0 <= i < |raws[1..]| &&
               NormalizeRow(raws[1..][i], from + 1 + i, dates, rule, category, today, parse) == Failure(e)
    ensures exists i :: 0 <= i < |raws| &&
              NormalizeRow(raws[i], from + i, dates, rule, category, today, parse) == Failure(e)
  {
    var i :| 0 <= i < |raws[1..]| &&
      NormalizeRow(raws[1..][i], from + 1 + i, dates, rule, category, today, parse) == Failure(e);
    assert raws[1..][i] == raws[i + 1];
  }

  /** A first row and a tail that normalise at their positions make a whole that does. */
  lemma ConsSucceeds(raws: seq<RawRow>, from: nat, dates: DateSource, rule: AmountRule,
                     category: bool, today: Date, parse: Cell -> Option<Date>, row: Row, rest: seq<Row>)
    requires |raws| > 0 && |rest| == |raws| - 1
    requires forall i :: 0 <= i < |raws| ==> Covers(raws[i], dates, rule, category)
    requires NormalizeRow(raws[0], from, dates, rule, category, today, parse) == Success(row)
    requires forall i :: 0 <= i < |raws[1..]| ==>
               NormalizeRow(raws[1..][i], from + 1 + i, dates, rule, category, today, parse) == Success(rest[i])
    ensures forall i :: 0 <= i < |raws| ==>
              NormalizeRow(raws[i], from + i, dates, rule, category, today, parse) == Success(([row] + rest)[i])
  {
    forall i | 0 <= i < |raws|
      ensures NormalizeRow(raws[i], from + i, dates, rule, category, today, parse) == Success(([row] + rest)[i])
    {
      if i > 0 {
        assert raws[1..][i - 1] == raws[i];
      }
    }
  }

  lemma CoversAll(t: RawTable)
    requires WellFormed(t)
    ensures forall i :: 0 <= i < |t.rows| ==>
              Covers(t.rows[i], DateSourceOf(t.columns), AmountRuleOf(t.columns), "Category" in t.columns)
  {
  }

  /** The rows of `process_data`, shared by both copies. */
  function NormalizedRows(t: RawTable, today: Date, parse: Cell -> Option<Date>): (r: Result<seq<Row>, NormError>)
    requires WellFormed(t)
    ensures r.Success? ==> |r.value| == |t.rows|
  {
    CoversAll(t);
    NormalizeRows(t.rows, 0, DateSourceOf(t.columns), AmountRuleOf(t.columns), "Category" in t.columns, today, parse)
  }

  /** The columns src/processor.py's `process_data` assigns, in assignment order. */
  const DERIVED_COLUMNS: seq<string> :=
    ["Date", "Type", "Amount", "Month", "Year", "MonthNum", "Quarter", "DayOfWeek", "WeekOfYear"]

  /** The columns the older processor.py's `process_data` assigns. */
  const LEGACY_DERIVED_COLUMNS: seq<string> := ["Date", "Type", "Amount", "Month"]

  /**
   * src/processor.py `process_data`. A cell that cannot serve as an amount,
   * a type or a category is reported as an error naming its row.
   */
  function ProcessData(t: RawTable, today: Date, parse: Cell -> Option<Date>): (r: Result<Frame, NormError>)
    requires WellFormed(t)
    ensures r.Success? ==> |r.value.rows| == |t.rows|
    ensures r.Success? ==> r.value.Valid() && r.value.month == Some(MonYY)
    ensures r.Success? ==> forall c :: c in r.value.columns <==> c in t.columns || c in DERIVED_COLUMNS
    ensures r.Success? ==> |t.columns| <= |r.value.columns| && r.value.columns[..|t.columns|] == t.columns
    ensures r.Success? && Distinct(t.columns) ==> Distinct(r.value.columns)
    ensures r.Success? && "Type" !in t.columns ==>
              forall i :: 0 <= i < |t.rows| ==> InferredRow(r.value.rows[i])
    ensures r.Failure? <==> NormalizedRows(t, today, parse).Failure?
    ensures r.Failure? ==> r.error == NormalizedRows(t, today, parse).error
    ensures r.Success? ==> r.value.rows == NormalizedRows(t, today, parse).value
  {
    match NormalizedRows(t, today, parse)
    case Failure(e) => Failure(e)
    case Success(rows) =>
      InferredRowsAreTyped(t, today, parse);
      var columns := WithColumns(t.columns, DERIVED_COLUMNS);
      assert "Month" in columns;
      Success(Frame(columns, rows, Some(MonYY)))
  }

  /** A row whose type was inferred: Income or Expense, a non-negative or NaN amount, NaN only as an Expense. */
  predicate InferredRow(r: Row)
  {
    && (r.kind == Some(INCOME) || r.kind == Some(EXPENSE))
    && (r.amount.Some? ==> r.amount.value >= 0.0)
    && (r.amount.None? ==> r.kind == Some(EXPENSE))
  }

  /** Rule-inferred rows are Income or Expense with a non-negative amount, or an Expense with NaN. */
  lemma InferredRowsAreTyped(t: RawTable, today: Date, parse: Cell -> Option<Date>)
    requires WellFormed(t) && NormalizedRows(t, today, parse).Success?
    ensures "Type" !in t.columns ==> forall i :: 0 <= i < |t.rows| ==>
              InferredRow(NormalizedRows(t, today, parse).value[i])
  {
    var rows := NormalizedRows(t, today, parse).value;
    forall i | 0 <= i < |t.rows| && "Type" !in t.columns ensures InferredRow(rows[i]) {
      RowAt(t, today, parse, i);
      InferredRowOf(t.rows[i], i, DateSourceOf(t.columns), AmountRuleOf(t.columns), "Category" in t.columns,
                    today, parse, rows[i]);
    }
  }

  lemma InferredRowOf(raw: RawRow, i: nat, dates: DateSource, rule: AmountRule, category: bool,
                      today: Date, parse: Cell -> Option<Date>, row: Row)
    requires Covers(raw, dates, rule, category) && (rule.FromSign? || rule.Placeholder?)
    requires NormalizeRow(raw, i, dates, rule, category, today, parse) == Success(row)
    ensures InferredRow(row)
  {
  }

  /** processor.py `process_data`: the same rows, only `Month` is derived. */
  function LegacyProcessData(t: RawTable, today: Date, parse: Cell -> Option<Date>): (r: Result<Frame, NormError>)
    requires WellFormed(t)
    ensures r.Success? ==> r.value.Valid() && r.value.month == Some(MonYY)
    ensures r.Success? ==> forall c :: c in r.value.columns <==> c in t.columns || c in LEGACY_DERIVED_COLUMNS
    ensures r.Success? && Distinct(t.columns) ==> Distinct(r.value.columns)
    ensures ProcessData(t, today, parse).Success? <==> r.Success?
    ensures r.Success? ==> r.value.rows == ProcessData(t, today, parse).value.rows
  {
    match NormalizedRows(t, today, parse)
    case Failure(e) => Failure(e)
    case Success(rows) => Success(Frame(WithColumns(t.columns, LEGACY_DERIVED_COLUMNS), rows, Some(MonYY)))
  }

  /** Row `i` of a successful normalisation is `NormalizeRow` of raw row `i`. */
  lemma RowAt(t: RawTable, today: Date, parse: Cell -> Option<Date>, i: int)
    requires WellFormed(t) && NormalizedRows(t, today, parse).Success?
    requires 0 <= i < |t.rows|
    ensures Covers(t.rows[i], DateSourceOf(t.columns), AmountRuleOf(t.columns), "Category" in t.columns)
    ensures NormalizeRow(t.rows[i], i, DateSourceOf(t.columns), AmountRuleOf(t.columns), "Category" in t.columns,
                         today, parse) == Success(NormalizedRows(t, today, parse).value[i])
  {
    CoversAll(t);
  }

  /** Why one row fails: the error names the row and a cell of the wrong kind. */
  lemma RowFailure(raw: RawRow, i: nat, dates: DateSource, rule: AmountRule, category: bool,
                   today: Date, parse: Cell -> Option<Date>, e: NormError)
    requires Covers(raw, dates, rule, category)
    requires NormalizeRow(raw, i, dates, rule, category, today, parse) == Failure(e)
    ensures e.row == i
    ensures e.NonTextType? ==> (rule.TypeWithAmount? || rule.TypeWithDefault?)
                               && !raw["Type"].Str? && !raw["Type"].Blank?
    ensures e.NonTextCategory? ==> category && !raw["Category"].Str? && !raw["Category"].Blank?
    ensures e.NonNumericAmount? ==> (rule.FromSign? || rule.TypeWithAmount?)
                                    && !raw[rule.column].Num? && !raw[rule.column].Blank?
  {
  }

  /**
   * A failed normalisation names a row whose type, amount or category cell
   * is unusable: neither blank nor of the kind the column needs.
   */
  lemma FailureNamesBadCell(t: RawTable, today: Date, parse: Cell -> Option<Date>)
    requires WellFormed(t) && NormalizedRows(t, today, parse).Failure?
    ensures var e := NormalizedRows(t, today, parse).error;
            && e.row < |t.rows|
            && (e.NonTextType? ==> "Type" in t.columns && !t.rows[e.row]["Type"].Str?
                                   && !t.rows[e.row]["Type"].Blank?)
            && (e.NonTextCategory? ==> "Category" in t.columns && !t.rows[e.row]["Category"].Str?
                                       && !t.rows[e.row]["Category"].Blank?)
            && (e.NonNumericAmount? ==> exists c :: c in t.columns && AmountLike(c)
                                                    && !t.rows[e.row][c].Num? && !t.rows[e.row][c].Blank?)
  {
    CoversAll(t);
    var dates, rule, cat := DateSourceOf(t.columns), AmountRuleOf(t.columns), "Category" in t.columns;
    var e := NormalizedRows(t, today, parse).error;
    var i :| 0 <= i < |t.rows| && NormalizeRow(t.rows[i], 0 + i, dates, rule, cat, today, parse) == Failure(e);
    RowFailure(t.rows[i], i, dates, rule, cat, today, parse, e);
    if e.NonNumericAmount? {
      AmountRuleColumnIsAmountLike(t.columns);
      assert rule.column in t.columns && AmountLike(rule.column)
             && !t.rows[e.row][rule.column].Num? && !t.rows[e.row][rule.column].Blank?;
    }
  }

  /** The cells a row is read from under `rule` are blank or of the kind their column needs. */
  predicate UsableCells(raw: RawRow, rule: AmountRule, category: bool)
  {
    && ((rule.FromSign? || rule.TypeWithAmount?) ==>
          rule.column in raw && (raw[rule.column].Num? || raw[rule.column].Blank?))
    && ((rule.TypeWithAmount? || rule.TypeWithDefault?) ==>
          "Type" in raw && (raw["Type"].Str? || raw["Type"].Blank?))
    && (category ==> "Category" in raw && (raw["Category"].Str? || raw["Category"].Blank?))
  }

  lemma RowSucceedsIffUsable(raw: RawRow, i: nat, dates: DateSource, rule: AmountRule, category: bool,
                             today: Date, parse: Cell -> Option<Date>)
    requires Covers(raw, dates, rule, category)
    ensures NormalizeRow(raw, i, dates, rule, category, today, parse).Success? <==> UsableCells(raw, rule, category)
  {
  }

  /**
   * Normalisation fails exactly when some row has an unusable cell; blank
   * (NaN) cells never make it fail.
   */
  lemma FailsExactlyOnUnusableCell(t: RawTable, today: Date, parse: Cell -> Option<Date>)
    requires WellFormed(t)
    ensures NormalizedRows(t, today, parse).Failure? <==>
              exists i :: 0 <= i < |t.rows| && !UsableCells(t.rows[i], AmountRuleOf(t.columns), "Category" in t.columns)
  {
    CoversAll(t);
    var dates, rule, cat := DateSourceOf(t.columns), AmountRuleOf(t.columns), "Category" in t.columns;
    var r := NormalizedRows(t, today, parse);
    if r.Failure? {
      var i :| 0 <= i < |t.rows| && NormalizeRow(t.rows[i], 0 + i, dates, rule, cat, today, parse) == Failure(r.error);
      RowSucceedsIffUsable(t.rows[i], i, dates, rule, cat, today, parse);
    } else {
      forall i | 0 <= i < |t.rows| ensures UsableCells(t.rows[i], rule, cat) {
        assert NormalizeRow(t.rows[i], 0 + i, dates, rule, cat, today, parse) == Success(r.value[i]);
        RowSucceedsIffUsable(t.rows[i], i, dates, rule, cat, today, parse);
      }
    }
  }

  lemma AmountIsAmountLike()
    ensures AmountLike("Amount")
  {
    assert Lower("Amount") == "amount";
    assert Lower("Amount")[..|"amount"|] == "amount";
  }

  /** The column an amount rule reads is amount-like. */
  lemma AmountRuleColumnIsAmountLike(columns: seq<string>)
    ensures var rule := AmountRuleOf(columns);
            (rule.FromSign? || rule.TypeWithAmount?) ==> AmountLike(rule.column)
  {
    AmountIsAmountLike();
    var first := FirstColumn(columns, AmountLike);
    if first.Some? {
      var j :| 0 <= j < |columns| && columns[j] == first.value && AmountLike(first.value)
               && forall k :: 0 <= k < j ==> !AmountLike(columns[k]);
    }
  }

  /**
   * Without a Type column, Type follows the sign of the first amount-like
   * column (zero is Income, NaN is Expense) and Amount is its absolute value.
   */
  lemma InferTypeFromSign(t: RawTable, today: Date, parse: Cell -> Option<Date>, c: string, i: int)
    requires WellFormed(t) && "Type" !in t.columns && c in t.columns && IsFirst(t.columns, c, AmountLike)
    requires NormalizedRows(t, today, parse).Success? && 0 <= i < |t.rows|
    ensures t.rows[i][c].Num? || t.rows[i][c].Blank?
    ensures var row := NormalizedRows(t, today, parse).value[i];
            && (row.kind == Some(INCOME) <==> t.rows[i][c].Num? && t.rows[i][c].n >= 0.0)
            && (row.kind == Some(EXPENSE) <==> t.rows[i][c].Blank? || t.rows[i][c].n < 0.0)
            && (t.rows[i][c].Num? ==> row.amount == Some(Abs(t.rows[i][c].n)))
            && (t.rows[i][c].Blank? ==> row.amount.None?)
  {
    RowAt(t, today, parse, i);
    var first := FirstColumn(t.columns, AmountLike);
    FirstIsUnique(t.columns, c, first.value, AmountLike);
  }

  /** Without a Type column and without an amount-like column, every row is Income of 1000. */
  lemma PlaceholderRows(t: RawTable, today: Date, parse: Cell -> Option<Date>, i: int)
    requires WellFormed(t) && "Type" !in t.columns
    requires forall j :: 0 <= j < |t.columns| ==> !AmountLike(t.columns[j])
    requires NormalizedRows(t, today, parse).Success? && 0 <= i < |t.rows|
    ensures NormalizedRows(t, today, parse).value[i].kind == Some(INCOME)
    ensures NormalizedRows(t, today, parse).value[i].amount == Some(1000.0)
  {
    RowAt(t, today, parse, i);
  }

  /** With a Type column but no Amount column, Amount is copied unchanged (no abs) from the first amount-like column. */
  lemma AmountCopiedUnchanged(t: RawTable, today: Date, parse: Cell -> Option<Date>, c: string, i: int)
    requires WellFormed(t) && "Type" in t.columns && "Amount" !in t.columns
    requires c in t.columns && IsFirst(t.columns, c, AmountLike)
    requires NormalizedRows(t, today, parse).Success? && 0 <= i < |t.rows|
    ensures CellAmount(t.rows[i][c], i) == Success(NormalizedRows(t, today, parse).value[i].amount)
    ensures CellKind(t.rows[i]["Type"], i) == Success(NormalizedRows(t, today, parse).value[i].kind)
  {
    RowAt(t, today, parse, i);
    var first := FirstColumn(t.columns, AmountLike);
    FirstIsUnique(t.columns, c, first.value, AmountLike);
  }

  /** With a Type column but neither Amount nor an amount-like column, Amount is 1000. */
  lemma AmountDefaulted(t: RawTable, today: Date, parse: Cell -> Option<Date>, i: int)
    requires WellFormed(t) && "Type" in t.columns
    requires forall j :: 0 <= j < |t.columns| ==> !AmountLike(t.columns[j])
    requires NormalizedRows(t, today, parse).Success? && 0 <= i < |t.rows|
    ensures NormalizedRows(t, today, parse).value[i].amount == Some(1000.0)
    ensures CellKind(t.rows[i]["Type"], i) == Success(NormalizedRows(t, today, parse).value[i].kind)
  {
    RowAt(t, today, parse, i);
    AmountIsAmountLike();
    assert "Amount" !in t.columns;
  }

  /**
   * A missing Date is copied from the first date-like column and coerced;
   * without one every row is dated today.
   */
  lemma DateFallback(t: RawTable, today: Date, parse: Cell -> Option<Date>, i: int)
    requires WellFormed(t) && NormalizedRows(t, today, parse).Success? && 0 <= i < |t.rows|
    ensures var date := NormalizedRows(t, today, parse).value[i].date;
            && ("Date" in t.columns ==> date == CellDate(t.rows[i]["Date"], parse))
            && ("Date" !in t.columns ==>
                  (forall c :: c in t.columns && IsFirst(t.columns, c, DateLike) ==> date == CellDate(t.rows[i][c], parse))
                  && ((forall j :: 0 <= j < |t.columns| ==> !DateLike(t.columns[j])) ==> date == Some(today)))
  {
    RowAt(t, today, parse, i);
    if "Date" !in t.columns {
      forall c | c in t.columns && IsFirst(t.columns, c, DateLike)
        ensures NormalizedRows(t, today, parse).value[i].date == CellDate(t.rows[i][c], parse)
      {
        var first := FirstColumn(t.columns, DateLike);
        FirstIsUnique(t.columns, c, first.value, DateLike);
      }
    }
  }

  // ---------------------------------------------------------------------
  // Normalising a normalised table again changes nothing.
  // ---------------------------------------------------------------------

  function TextCell(c: Option<string>): Cell
  {
    match c
    case Some(s) => Str(s)
    case None => Blank
  }

  function AmountCell(a: Option<real>): Cell
  {
    match a
    case Some(v) => Num(v)
    case None => Blank
  }

  function DateCell(d: Option<Date>): Cell
  {
    match d
    case Some(x) => Stamp(x)
    case None => Blank
  }

  /** A frame written back out as a spreadsheet with Date, Type, Amount and Category columns. */
  function ToRaw(rows: seq<Row>): (t: RawTable)
    ensures WellFormed(t) && |t.rows| == |rows|
  {
    RawTable(["Date", "Type", "Amount", "Category"],
             seq(|rows|, i requires 0 <= i < |rows| =>
                   map["Date" := DateCell(rows[i].date), "Type" := TextCell(rows[i].kind),
                       "Amount" := AmountCell(rows[i].amount), "Category" := TextCell(rows[i].category)]))
  }

  /** Reading back a written-out frame recovers its rows exactly. */
  lemma ToRawRoundTrip(rows: seq<Row>, today: Date, parse: Cell -> Option<Date>)
    ensures NormalizedRows(ToRaw(rows), today, parse) == Success(rows)
  {
    var t := ToRaw(rows);
    assert "Date" in t.columns && "Type" in t.columns && "Amount" in t.columns && "Category" in t.columns;
    var dates, rule := DateSourceOf(t.columns), AmountRuleOf(t.columns);
    assert dates == DateFrom("Date");
    assert rule == TypeWithAmount("Amount");
    CoversAll(t);
    forall i | 0 <= i < |rows|
      ensures NormalizeRow(t.rows[i], 0 + i, dates, rule, true, today, parse) == Success(rows[i])
    {
      assert t.rows[i]["Date"] == DateCell(rows[i].date);
      assert t.rows[i]["Type"] == TextCell(rows[i].kind);
      assert t.rows[i]["Amount"] == AmountCell(rows[i].amount);
      assert t.rows[i]["Category"] == TextCell(rows[i].category);
    }
    NormalizeAllSucceed(t.rows, 0, dates, rule, true, today, parse, rows);
  }

  /**
   * Every frame either `process_data` hands to the views carries Date, Type
   * and Amount, so the views' `df['Type']` and `df['Amount']` always find
   * their column.
   */
  lemma ProcessedFrameHasCoreColumns(t: RawTable, today: Date, parse: Cell -> Option<Date>)
    requires WellFormed(t)
    ensures var r := ProcessData(t, today, parse);
            r.Success? ==> "Date" in r.value.columns && "Type" in r.value.columns && "Amount" in r.value.columns
    ensures var r := LegacyProcessData(t, today, parse);
            r.Success? ==> "Date" in r.value.columns && "Type" in r.value.columns && "Amount" in r.value.columns
  {
    assert DERIVED_COLUMNS[0] == "Date" && DERIVED_COLUMNS[1] == "Type" && DERIVED_COLUMNS[2] == "Amount";
    assert LEGACY_DERIVED_COLUMNS[0] == "Date" && LEGACY_DERIVED_COLUMNS[1] == "Type" && LEGACY_DERIVED_COLUMNS[2] == "Amount";
  }

  /** Normalisation is idempotent: re-reading its own output yields the same rows. */
  lemma ProcessDataIdempotent(t: RawTable, today: Date, parse: Cell -> Option<Date>)
    requires WellFormed(t)
    ensures ProcessData(t, today, parse).Success? ==>
              var rows := ProcessData(t, today, parse).value.rows;
              && ProcessData(ToRaw(rows), today, parse).Success?
              && ProcessData(ToRaw(rows), today, parse).value.rows == rows
  {
    if ProcessData(t, today, parse).Success? {
      ToRawRoundTrip(ProcessData(t, today, parse).value.rows, today, parse);
    }
  }

  /** Rows that each normalise at their positions normalise together, in order. */
  lemma NormalizeAllSucceed(raws: seq<RawRow>, from: nat, dates: DateSource, rule: AmountRule,
                            category: bool, today: Date, parse: Cell -> Option<Date>, rows: seq<Row>)
    requires forall i :: 0 <= i < |raws| ==> Covers(raws[i], dates, rule, category)
    requires |rows| == |raws|
    requires forall i :: 0 <= i < |raws| ==>
               NormalizeRow(raws[i], from + i, dates, rule, category, today, parse) == Success(rows[i])
    ensures NormalizeRows(raws, from, dates, rule, category, today, parse) == Success(rows)
  {
    var r := NormalizeRows(raws, from, dates, rule, category, today, parse);
    assert forall i :: 0 <= i < |raws| ==>
             !NormalizeRow(raws[i], from + i, dates, rule, category, today, parse).Failure?;
    assert r.Success?;
    assert forall i :: 0 <= i < |raws| ==> r.value[i] == rows[i];
    assert r.value == rows;
  }
}
