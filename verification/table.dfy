/**
 * The data the pipeline works on: a raw spreadsheet (named columns of
 * loosely typed cells) before normalisation, and the normalised frame of
 * Date / Type / Amount rows after it.
 */
module Table {
  import opened Base
  import opened Calendar

  /** One spreadsheet cell; `Blank` is pandas' NaN / NaT. */
  datatype Cell = Num(n: real) | Str(s: string) | Stamp(at: Date) | Blank

  type RawRow = map<string, Cell>

  datatype RawTable = RawTable(columns: seq<string>, rows: seq<RawRow>)

  /** Column names are distinct and every row has a cell in every column. */
  predicate WellFormed(t: RawTable)
  {
    && (forall i, j :: 0 <= i < j < |t.columns| ==> t.columns[i] != t.columns[j])
    && (forall i, c :: 0 <= i < |t.rows| && c in t.columns ==> c in t.rows[i])
  }

  const INCOME: string := "Income"
  const EXPENSE: string := "Expense"

  /**
   * A normalised transaction. `None` is pandas' missing value: `date` is
   * `None` where the date was missing or unparseable (NaT), `kind` and
   * `amount` where the Type or Amount cell is NaN, and `category` where the
   * frame has no Category column or the cell is blank.
   */
  datatype Row = Row(date: Option<Date>, kind: Option<string>, amount: Option<real>, category: Option<string>)

  /** What a row adds to `['Amount'].sum()`: its amount, nothing for NaN. */
  function Value(r: Row): real
  {
    match r.amount
    case Some(v) => v
    case None => 0.0
  }

  /**
   * A normalised table. The `Month` column is shared by several operations that
   * each overwrite it in their own format; `month` records which format it
   * currently holds (`None` when there is no `Month` column).
   */
  datatype Frame = Frame(columns: seq<string>, rows: seq<Row>, month: Option<MonthFormat>)
  {
    predicate Valid()
    {
      ("Month" in columns) <==> month.Some?
    }
  }

  /** `df[name] = ...`: a new column goes last, an existing one keeps its place. */
  function WithColumn(columns: seq<string>, name: string): (r: seq<string>)
    ensures name in r
    ensures forall c :: c in r <==> c in columns || c == name
    ensures name in columns ==> r == columns
    ensures name !in columns ==> |r| == |columns| + 1 && r[..|columns|] == columns
    ensures Distinct(columns) ==> Distinct(r)
  {
    if name in columns then columns else columns + [name]
  }

  function WithColumns(columns: seq<string>, names: seq<string>): (r: seq<string>)
    ensures forall c :: c in r <==> c in columns || c in names
    ensures |columns| <= |r| && r[..|columns|] == columns
    ensures Distinct(columns) ==> Distinct(r)
    decreases |names|
  {
    if |names| == 0 then columns else WithColumns(WithColumn(columns, names[0]), names[1..])
  }

  /** `df['Month'] = df['Date'].dt.strftime(fmt)`: the Month column now holds `fmt` labels. */
  function SetMonth(f: Frame, fmt: MonthFormat): (g: Frame)
    ensures g.Valid() && g.rows == f.rows && g.month == Some(fmt)
    ensures forall c :: c in g.columns <==> c in f.columns || c == "Month"
  {
    Frame(WithColumn(f.columns, "Month"), f.rows, Some(fmt))
  }

  /** The row's `Month` value in format `fmt`; NaT gives NaN. */
  function MonthOf(r: Row, fmt: MonthFormat): Option<string>
  {
    match r.date
    case Some(d) => Some(Format(fmt, d))
    case None => None
  }

  function MonthKey(fmt: MonthFormat): Row -> Option<string>
  {
    r => MonthOf(r, fmt)
  }

  /** `df[df['Type'] == kind]`; a NaN type equals nothing. */
  function OfKind(rows: seq<Row>, kind: string): (r: seq<Row>)
    ensures |r| <= |rows|
    ensures forall i :: 0 <= i < |r| ==> r[i].kind == Some(kind)
  {
    if |rows| == 0 then []
    else if rows[0].kind == Some(kind) then [rows[0]] + OfKind(rows[1..], kind)
    else OfKind(rows[1..], kind)
  }

  /** A row is selected exactly when it is one of the rows and has type `kind`. */
  lemma {:induction false} InOfKind(rows: seq<Row>, kind: string, x: Row)
    ensures x in OfKind(rows, kind) <==> x in rows && x.kind == Some(kind)
  {
    if |rows| > 0 {
      InOfKind(rows[1..], kind, x);
      assert rows == [rows[0]] + rows[1..];
    }
  }

  /** The rows whose type is not NaN: those a group-by on Type keeps. */
  function Typed(rows: seq<Row>): (r: seq<Row>)
    ensures |r| <= |rows|
    ensures forall i :: 0 <= i < |r| ==> r[i].kind.Some?
  {
    if |rows| == 0 then []
    else if rows[0].kind.Some? then [rows[0]] + Typed(rows[1..])
    else Typed(rows[1..])
  }

  /** A row is kept exactly when it is one of the rows and has a type. */
  lemma {:induction false} InTyped(rows: seq<Row>, x: Row)
    ensures x in Typed(rows) <==> x in rows && x.kind.Some?
  {
    if |rows| > 0 {
      InTyped(rows[1..], x);
      assert rows == [rows[0]] + rows[1..];
    }
  }

  /** `['Amount'].sum()`: NaN amounts are skipped. */
  function Total(rows: seq<Row>): real
  {
    if |rows| == 0 then 0.0 else Value(rows[0]) + Total(rows[1..])
  }

  /** `['Amount'].dropna()`: the amounts that are not NaN, in row order. */
  function Amounts(rows: seq<Row>): (xs: seq<real>)
    ensures |xs| <= |rows|
    ensures |xs| == 0 <==> forall i :: 0 <= i < |rows| ==> rows[i].amount.None?
  {
    if |rows| == 0 then []
    else
      assert forall i :: 0 < i < |rows| ==> rows[i] == rows[1..][i - 1];
      match rows[0].amount
      case Some(v) => [v] + Amounts(rows[1..])
      case None => Amounts(rows[1..])
  }

  /** The amounts kept are exactly the rows' non-NaN amounts. */
  lemma {:induction false} AmountsMembers(rows: seq<Row>)
    ensures forall i :: 0 <= i < |rows| && rows[i].amount.Some? ==> rows[i].amount.value in Amounts(rows)
    ensures forall x :: x in Amounts(rows) ==> exists i :: 0 <= i < |rows| && rows[i].amount == Some(x)
  {
    if |rows| > 0 {
      var rest := Amounts(rows[1..]);
      AmountsMembers(rows[1..]);
      assert forall i :: 0 < i < |rows| ==> rows[i] == rows[1..][i - 1];
      forall x | x in rest ensures exists i :: 0 < i < |rows| && rows[i].amount == Some(x) {
        var i :| 0 <= i < |rows[1..]| && rows[1..][i].amount == Some(x);
        assert rows[i + 1].amount == Some(x);
      }
    }
  }

  /** `n` times `x`, named so that sums and means over counts stay linear facts. */
  function Times(n: nat, x: real): real
  {
    (n as real) * x
  }

  function Sum(xs: seq<real>): real
  {
    if |xs| == 0 then 0.0 else xs[0] + Sum(xs[1..])
  }

  /** Skipping NaN when summing is summing the amounts that are there. */
  lemma {:induction false} SumOfAmounts(rows: seq<Row>)
    ensures Sum(Amounts(rows)) == Total(rows)
  {
    if |rows| > 0 {
      SumOfAmounts(rows[1..]);
      if rows[0].amount.Some? {
        assert Amounts(rows)[1..] == Amounts(rows[1..]);
      }
    }
  }

  /** `kind in df['Type'].unique()`. */
  predicate HasKind(rows: seq<Row>, kind: string)
  {
    exists i :: 0 <= i < |rows| && rows[i].kind == Some(kind)
  }

  lemma {:induction false} HasKindIffSelected(rows: seq<Row>, kind: string)
    ensures HasKind(rows, kind) <==> |OfKind(rows, kind)| > 0
  {
    if |rows| > 0 {
      HasKindIffSelected(rows[1..], kind);
      if HasKind(rows, kind) && rows[0].kind != Some(kind) {
        var i :| 0 <= i < |rows| && rows[i].kind == Some(kind);
        assert rows[1..][i - 1].kind == Some(kind);
      }
      if HasKind(rows[1..], kind) {
        var i :| 0 <= i < |rows[1..]| && rows[1..][i].kind == Some(kind);
        assert rows[i + 1].kind == Some(kind);
      }
    }
  }

  lemma {:induction false} TotalAppend(a: seq<Row>, b: seq<Row>)
    ensures Total(a + b) == Total(a) + Total(b)
  {
    if |a| == 0 {
      assert a + b == b;
    } else {
      assert (a + b)[1..] == a[1..] + b;
      TotalAppend(a[1..], b);
    }
  }

  /** Rows whose amounts are all non-negative or NaN have a non-negative total. */
  lemma {:induction false} TotalNonNegative(rows: seq<Row>)
    requires forall i :: 0 <= i < |rows| ==> rows[i].amount.None? || rows[i].amount.value >= 0.0
    ensures Total(rows) >= 0.0
  {
    if |rows| > 0 {
      TotalNonNegative(rows[1..]);
    }
  }
}
