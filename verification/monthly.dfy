/**
 * `df.groupby(['Month', 'Type'])['Amount'].sum()` and
 * `sorted(monthly['Month'].unique())`, the month buckets that the KPIs, the
 * chart, the seasonal view and the insights are all built from. The label
 * format is an explicit parameter instead of whatever the shared `Month`
 * column happens to hold.
 */
module Monthly {
  import opened Base
  import opened Order
  import opened Text
  import opened Calendar
  import opened Table
  import opened Grouping

  /** The (Month, Type) key of a row; a NaT date or a NaN type drops the row. */
  function MonthTypeKey(fmt: MonthFormat): Row -> Option<(string, string)>
  {
    r => match (MonthOf(r, fmt), r.kind)
         case (Some(m), Some(k)) => Some((m, k))
         case _ => None
  }

  /** Selecting the (m, kind) bucket is selecting the rows of type `kind`, then month `m`. */
  lemma {:induction false} MonthTypeTotal(rows: seq<Row>, fmt: MonthFormat, m: string, kind: string)
    ensures KeyTotal(rows, MonthTypeKey(fmt), (m, kind)) == KeyTotal(OfKind(rows, kind), MonthKey(fmt), m)
  {
    if |rows| > 0 {
      MonthTypeTotal(rows[1..], fmt, m, kind);
      if rows[0].kind == Some(kind) {
        assert OfKind(rows, kind) == [rows[0]] + OfKind(rows[1..], kind);
        assert OfKind(rows, kind)[1..] == OfKind(rows[1..], kind);
      }
    }
  }

  /**
   * `df.groupby(['Month', 'Type'])['Amount']` with labels in format `fmt`: the
   * groups of the rows with both a month and a type, and per type the sums
   * of that type's rows month by month.
   */
  function ByMonthAndType(rows: seq<Row>, fmt: MonthFormat): (g: seq<Group<(string, string)>>)
    ensures GroupedBy(g, rows, MonthTypeKey(fmt), PairLess)
    ensures NonEmptyGroups(g)
    ensures forall m, kind :: TotalAt(g, (m, kind)) == KeyTotal(OfKind(rows, kind), MonthKey(fmt), m)
  {
    PairLessIsStrictTotal();
    var g := GroupSum(rows, MonthTypeKey(fmt), PairLess);
    assert forall m, kind :: TotalAt(g, (m, kind)) == KeyTotal(OfKind(rows, kind), MonthKey(fmt), m) by {
      forall m, kind ensures TotalAt(g, (m, kind)) == KeyTotal(OfKind(rows, kind), MonthKey(fmt), m) {
        MonthTypeTotal(rows, fmt, m, kind);
      }
    }
    g
  }

  /** `monthly[(monthly['Month'] == m) & (monthly['Type'] == kind)]['Amount'].sum()`. */
  function MonthTotal(rows: seq<Row>, fmt: MonthFormat, m: string, kind: string): (t: real)
    ensures t == KeyTotal(OfKind(rows, kind), MonthKey(fmt), m)
  {
    TotalAt(ByMonthAndType(rows, fmt), (m, kind))
  }

  /** Labels in strictly increasing string order. */
  ghost predicate StrictlySorted(ms: seq<string>)
  {
    forall i, j :: 0 <= i < j < |ms| ==> LexLess(ms[i], ms[j])
  }

  /** Each label is below the next one in string order. */
  predicate Increasing(ms: seq<string>)
    decreases |ms|
  {
    |ms| < 2 || (LexLess(ms[0], ms[1]) && Increasing(ms[1..]))
  }

  lemma {:induction false} IncreasingIsSorted(ms: seq<string>)
    requires Increasing(ms)
    ensures StrictlySorted(ms)
    decreases |ms|
  {
    if |ms| >= 2 {
      IncreasingIsSorted(ms[1..]);
      forall i, j | 0 <= i < j < |ms| ensures LexLess(ms[i], ms[j]) {
        if i > 0 {
          assert LexLess(ms[1..][i - 1], ms[1..][j - 1]);
        } else if j > 1 {
          assert LexLess(ms[1..][0], ms[1..][j - 1]);
          LexLessTransitive(ms[0], ms[1], ms[j]);
        }
      }
    }
  }

  lemma {:induction false} SortedIsIncreasing(ms: seq<string>)
    requires StrictlySorted(ms)
    ensures Increasing(ms)
    decreases |ms|
  {
    if |ms| >= 2 {
      assert StrictlySorted(ms[1..]) by {
        forall i, j | 0 <= i < j < |ms| - 1 ensures LexLess(ms[1..][i], ms[1..][j]) {
          assert ms[1..][i] == ms[i + 1] && ms[1..][j] == ms[j + 1];
        }
      }
      SortedIsIncreasing(ms[1..]);
    }
  }

  /** Adds the label `m` to a list of labels in its place, unless it is already there. */
  function InsertLabel(m: string, ms: seq<string>): seq<string>
  {
    if |ms| == 0 then [m]
    else if m == ms[0] then ms
    else if LexLess(m, ms[0]) then [m] + ms
    else [ms[0]] + InsertLabel(m, ms[1..])
  }

  /** Inserting into a strictly sorted list keeps it strictly sorted and adds exactly `m`. */
  lemma {:induction false} InsertLabelSpec(m: string, ms: seq<string>)
    requires StrictlySorted(ms)
    ensures StrictlySorted(InsertLabel(m, ms))
    ensures forall x :: x in InsertLabel(m, ms) <==> x == m || x in ms
  {
    if |ms| == 0 || m == ms[0] {
    } else if LexLess(m, ms[0]) {
      forall j | 0 <= j < |ms| ensures LexLess(m, ms[j]) {
        if j > 0 { LexLessTransitive(m, ms[0], ms[j]); }
      }
    } else {
      LexLessTotal(m, ms[0]);
      InsertLabelSpec(m, ms[1..]);
      var rest := InsertLabel(m, ms[1..]);
      forall j | 0 <= j < |rest| ensures LexLess(ms[0], rest[j]) {
        assert rest[j] in rest;
        if rest[j] != m {
          var k :| 0 <= k < |ms[1..]| && ms[1..][k] == rest[j];
          assert LexLess(ms[0], ms[k + 1]);
        }
      }
      assert ms == [ms[0]] + ms[1..];
    }
  }

  /** A row that falls in some (Month, Type) group: it has a date and a type. */
  predicate Grouped(r: Row)
  {
    r.date.Some? && r.kind.Some?
  }

  /** Some row is dated, has a type and has label `m` in format `fmt`. */
  ghost predicate Labelled(rows: seq<Row>, fmt: MonthFormat, m: string)
  {
    exists i :: 0 <= i < |rows| && rows[i].kind.Some? && MonthOf(rows[i], fmt) == Some(m)
  }

  /**
   * `sorted(monthly['Month'].unique())`: the distinct months of the
   * (Month, Type) groups, that is the labels of the dated rows with a type,
   * in string order.
   */
  function Months(rows: seq<Row>, fmt: MonthFormat): (ms: seq<string>)
    ensures Increasing(ms)
    ensures forall m :: m in ms <==> Labelled(rows, fmt, m)
    decreases |rows|
  {
    if |rows| == 0 then []
    else
      var rest := Months(rows[1..], fmt);
      var first := if rows[0].kind.Some? then MonthOf(rows[0], fmt) else None;
      assert forall m :: Labelled(rows, fmt, m) <==> first == Some(m) || m in rest by {
        forall m ensures Labelled(rows, fmt, m) <==> first == Some(m) || m in rest {
          if exists i :: 0 < i < |rows| && rows[i].kind.Some? && MonthOf(rows[i], fmt) == Some(m) {
            var i :| 0 < i < |rows| && rows[i].kind.Some? && MonthOf(rows[i], fmt) == Some(m);
            assert rows[1..][i - 1] == rows[i];
          }
          if m in rest {
            var i :| 0 <= i < |rows[1..]| && rows[1..][i].kind.Some? && MonthOf(rows[1..][i], fmt) == Some(m);
            assert rows[i + 1] == rows[1..][i];
          }
        }
      }
      match first
      case None => rest
      case Some(m) =>
        IncreasingIsSorted(rest);
        InsertLabelSpec(m, rest);
        SortedIsIncreasing(InsertLabel(m, rest));
        InsertLabel(m, rest)
  }

  lemma MonthsDistinct(rows: seq<Row>, fmt: MonthFormat)
    ensures Distinct(Months(rows, fmt))
  {
    var ms := Months(rows, fmt);
    IncreasingIsSorted(ms);
    forall i, j | 0 <= i < j < |ms| ensures ms[i] != ms[j] {
      LexLessIrreflexive(ms[i]);
    }
  }

  /** The label of a dated row with a type is among the months. */
  lemma LabelListed(rows: seq<Row>, fmt: MonthFormat, i: int)
    requires 0 <= i < |rows| && Grouped(rows[i])
    ensures Format(fmt, rows[i].date.value) in Months(rows, fmt)
  {
    assert MonthOf(rows[i], fmt) == Some(Format(fmt, rows[i].date.value));
  }

  // ---------------------------------------------------------------------
  // Month buckets add up to the dated rows.
  // ---------------------------------------------------------------------

  /** Sum of the amounts of the rows that have a date. */
  function DatedTotal(rows: seq<Row>): real
  {
    if |rows| == 0 then 0.0
    else (if rows[0].date.Some? then Value(rows[0]) else 0.0) + DatedTotal(rows[1..])
  }

  lemma {:induction false} KeyedByMonthIsDated(rows: seq<Row>, fmt: MonthFormat)
    ensures KeyedTotal(rows, MonthKey(fmt)) == DatedTotal(rows)
  {
    if |rows| > 0 {
      KeyedByMonthIsDated(rows[1..], fmt);
    }
  }

  /**
   * For any type, the per-month sums over all months add up to that type's
   * total over its dated rows: undated rows fall out of every bucket and no
   * dated row is counted twice.
   */
  lemma MonthBucketsAddUp(rows: seq<Row>, fmt: MonthFormat, kind: string)
    ensures SumOver(OfKind(rows, kind), MonthKey(fmt), Months(rows, fmt)) == DatedTotal(OfKind(rows, kind))
  {
    var sel := OfKind(rows, kind);
    var ms := Months(rows, fmt);
    MonthsDistinct(rows, fmt);
    forall i | 0 <= i < |sel| && MonthKey(fmt)(sel[i]).Some?
      ensures MonthKey(fmt)(sel[i]).value in ms
    {
      InOfKind(rows, kind, sel[i]);
      var j :| 0 <= j < |rows| && rows[j] == sel[i];
      LabelListed(rows, fmt, j);
    }
    SumOverKeys(sel, MonthKey(fmt), ms);
    KeyedByMonthIsDated(sel, fmt);
  }

  // ---------------------------------------------------------------------
  // With `%Y-%m` labels the last two months are the latest two in time.
  // ---------------------------------------------------------------------

  /** Row `i` has a date and a type, and no such row is dated in a later month. */
  ghost predicate InLatestMonth(rows: seq<Row>, i: int)
  {
    0 <= i < |rows| && Grouped(rows[i])
    && forall j :: 0 <= j < |rows| && Grouped(rows[j]) ==> !MonthBefore(rows[i].date.value, rows[j].date.value)
  }

  /** Row `i` (dated, typed) is before the latest month, and every such row after its month is in the latest. */
  ghost predicate InPreviousMonth(rows: seq<Row>, i: int)
  {
    0 <= i < |rows| && Grouped(rows[i]) && !InLatestMonth(rows, i)
    && forall j :: (0 <= j < |rows| && Grouped(rows[j]) && MonthBefore(rows[i].date.value, rows[j].date.value))
                   ==> InLatestMonth(rows, j)
  }

  /** `ms` lists, in strictly increasing string order, exactly the `%Y-%m` labels of the dated rows with a type. */
  ghost predicate IsMonthList(rows: seq<Row>, ms: seq<string>)
  {
    StrictlySorted(ms)
    && forall m :: m in ms <==> exists i :: 0 <= i < |rows| && Grouped(rows[i]) && YearMonthKey(rows[i].date.value) == m
  }

  lemma MonthsListed(rows: seq<Row>)
    ensures IsMonthList(rows, Months(rows, YearMonth))
  {
    var ms := Months(rows, YearMonth);
    IncreasingIsSorted(ms);
    forall m ensures m in ms <==> exists i :: 0 <= i < |rows| && Grouped(rows[i]) && YearMonthKey(rows[i].date.value) == m {
      if m in ms {
        var i :| 0 <= i < |rows| && rows[i].kind.Some? && MonthOf(rows[i], YearMonth) == Some(m);
        assert Grouped(rows[i]) && YearMonthKey(rows[i].date.value) == m;
      }
      if exists i :: 0 <= i < |rows| && Grouped(rows[i]) && YearMonthKey(rows[i].date.value) == m {
        var i :| 0 <= i < |rows| && Grouped(rows[i]) && YearMonthKey(rows[i].date.value) == m;
        assert MonthOf(rows[i], YearMonth) == Some(m);
      }
    }
  }

  lemma LabelIndex(rows: seq<Row>, ms: seq<string>, i: int) returns (p: int)
    requires IsMonthList(rows, ms)
    requires 0 <= i < |rows| && Grouped(rows[i])
    ensures 0 <= p < |ms| && ms[p] == YearMonthKey(rows[i].date.value)
  {
    assert YearMonthKey(rows[i].date.value) in ms;
    p :| 0 <= p < |ms| && ms[p] == YearMonthKey(rows[i].date.value);
  }

  /** Some row carries the label at position `p`. */
  lemma RowWithLabel(rows: seq<Row>, ms: seq<string>, p: int) returns (j: int)
    requires IsMonthList(rows, ms)
    requires 0 <= p < |ms|
    ensures 0 <= j < |rows| && Grouped(rows[j]) && YearMonthKey(rows[j].date.value) == ms[p]
  {
    assert ms[p] in ms;
    j :| 0 <= j < |rows| && Grouped(rows[j]) && YearMonthKey(rows[j].date.value) == ms[p];
  }

  /** Positions in the sorted month list compare as the rows' months do in time. */
  lemma PositionOrder(rows: seq<Row>, ms: seq<string>, i: int, j: int, p: int, q: int)
    requires StrictlySorted(ms)
    requires 0 <= i < |rows| && rows[i].date.Some? && 0 <= j < |rows| && rows[j].date.Some?
    requires 0 <= p < |ms| && ms[p] == YearMonthKey(rows[i].date.value)
    requires 0 <= q < |ms| && ms[q] == YearMonthKey(rows[j].date.value)
    ensures p < q <==> MonthBefore(rows[i].date.value, rows[j].date.value)
    ensures p == q <==> SameMonth(rows[i].date.value, rows[j].date.value)
  {
    YearMonthKeyChronological(rows[i].date.value, rows[j].date.value);
    YearMonthKeyChronological(rows[j].date.value, rows[i].date.value);
    if p < q {
      assert LexLess(ms[p], ms[q]);
    } else if q < p {
      assert LexLess(ms[q], ms[p]);
    }
    LexLessIrreflexive(ms[p]);
  }

  /** A row carrying the last label is in the latest month. */
  lemma LastLabelIsLatest(rows: seq<Row>, ms: seq<string>, i: int)
    requires IsMonthList(rows, ms) && |ms| >= 1
    requires 0 <= i < |rows| && Grouped(rows[i]) && YearMonthKey(rows[i].date.value) == ms[|ms| - 1]
    ensures InLatestMonth(rows, i)
  {
    forall j | 0 <= j < |rows| && Grouped(rows[j])
      ensures !MonthBefore(rows[i].date.value, rows[j].date.value)
    {
      var q := LabelIndex(rows, ms, j);
      PositionOrder(rows, ms, i, j, |ms| - 1, q);
    }
  }

  /** A row carrying a label other than the last is not in the latest month. */
  lemma EarlierLabelNotLatest(rows: seq<Row>, ms: seq<string>, i: int, p: int)
    requires IsMonthList(rows, ms)
    requires 0 <= i < |rows| && Grouped(rows[i])
    requires 0 <= p < |ms| - 1 && ms[p] == YearMonthKey(rows[i].date.value)
    ensures !InLatestMonth(rows, i)
  {
    var jl := RowWithLabel(rows, ms, |ms| - 1);
    PositionOrder(rows, ms, i, jl, p, |ms| - 1);
  }

  /** The last label is the latest month's, for the index of `%Y-%m` labels `ms`. */
  lemma LastIsLatest(rows: seq<Row>, ms: seq<string>, i: int)
    requires IsMonthList(rows, ms) && |ms| >= 1
    requires 0 <= i < |rows| && Grouped(rows[i])
    ensures YearMonthKey(rows[i].date.value) == ms[|ms| - 1] <==> InLatestMonth(rows, i)
  {
    var p := LabelIndex(rows, ms, i);
    if p == |ms| - 1 {
      LastLabelIsLatest(rows, ms, i);
    } else {
      EarlierLabelNotLatest(rows, ms, i, p);
      assert LexLess(ms[p], ms[|ms| - 1]);
      LexLessIrreflexive(ms[p]);
    }
  }

  /**
   * With `%Y-%m` labels, the last label is that of the rows dated in the
   * latest month, so "last of the sorted labels" means "latest month in time".
   */
  lemma LastMonthIsLatest(rows: seq<Row>, i: int)
    requires |Months(rows, YearMonth)| >= 1
    requires 0 <= i < |rows| && Grouped(rows[i])
    ensures var ms := Months(rows, YearMonth);
            YearMonthKey(rows[i].date.value) == ms[|ms| - 1] <==> InLatestMonth(rows, i)
  {
    MonthsListed(rows);
    LastIsLatest(rows, Months(rows, YearMonth), i);
  }

  /** A row carrying the second-to-last label is in the month before the latest. */
  lemma SecondLastLabelIsPrevious(rows: seq<Row>, ms: seq<string>, i: int)
    requires IsMonthList(rows, ms) && |ms| >= 2
    requires 0 <= i < |rows| && Grouped(rows[i]) && YearMonthKey(rows[i].date.value) == ms[|ms| - 2]
    ensures InPreviousMonth(rows, i)
  {
    EarlierLabelNotLatest(rows, ms, i, |ms| - 2);
    forall j | 0 <= j < |rows| && Grouped(rows[j]) && MonthBefore(rows[i].date.value, rows[j].date.value)
      ensures InLatestMonth(rows, j)
    {
      var q := LabelIndex(rows, ms, j);
      PositionOrder(rows, ms, i, j, |ms| - 2, q);
      LastLabelIsLatest(rows, ms, j);
    }
  }

  /** A row in the month before the latest carries the second-to-last label. */
  lemma PreviousIsSecondLastLabel(rows: seq<Row>, ms: seq<string>, i: int)
    requires IsMonthList(rows, ms) && |ms| >= 2
    requires InPreviousMonth(rows, i)
    ensures YearMonthKey(rows[i].date.value) == ms[|ms| - 2]
  {
    var p := LabelIndex(rows, ms, i);
    if p == |ms| - 1 {
      LastLabelIsLatest(rows, ms, i);
    }
    var j := RowWithLabel(rows, ms, |ms| - 2);
    EarlierLabelNotLatest(rows, ms, j, |ms| - 2);
    PreviousOnlyBeforeLatest(rows, i, j);
    PositionOrder(rows, ms, i, j, p, |ms| - 2);
  }

  /** A row in the month before the latest comes before only rows of the latest month. */
  lemma PreviousOnlyBeforeLatest(rows: seq<Row>, i: int, j: int)
    requires InPreviousMonth(rows, i)
    requires 0 <= j < |rows| && Grouped(rows[j]) && !InLatestMonth(rows, j)
    ensures !MonthBefore(rows[i].date.value, rows[j].date.value)
  {
  }

  /**
   * With `%Y-%m` labels, the second-to-last label is that of the rows dated
   * in the month before the latest one.
   */
  lemma PreviousMonthIsSecondLast(rows: seq<Row>, i: int)
    requires |Months(rows, YearMonth)| >= 2
    requires 0 <= i < |rows| && Grouped(rows[i])
    ensures var ms := Months(rows, YearMonth);
            YearMonthKey(rows[i].date.value) == ms[|ms| - 2] <==> InPreviousMonth(rows, i)
  {
    var ms := Months(rows, YearMonth);
    MonthsListed(rows);
    if YearMonthKey(rows[i].date.value) == ms[|ms| - 2] {
      SecondLastLabelIsPrevious(rows, ms, i);
    }
    if InPreviousMonth(rows, i) {
      PreviousIsSecondLastLabel(rows, ms, i);
    }
  }
}
