/**
 * `generate_data_summary` (src/assistant.py and the older assistant.py): the
 * plain-text digest handed to the language model, as a list of structured
 * lines instead of formatted text.
 */
module Summary {
  import opened Base
  import opened Order
  import opened Text
  import opened Calendar
  import opened Table
  import opened Grouping
  import opened Statistics

  datatype SummaryLine =
    | RecordCount(records: nat)
    | Columns(names: seq<string>)
    | DateRange(first: Date, last: Date)
    | TypeCounts(counts: seq<Group<string>>)
    | TypeTotal(kind: Option<string>, total: real)
    | AmountTotal(total: real)
    | TopCategories(groups: seq<Group<(string, string)>>)
    | RecentMonths(groups: seq<Group<(string, string)>>)

  /** `NaT.strftime` raises when the Date column holds no valid date. */
  datatype SummaryError = NoValidDates

  const TOP_SUMMARY_CATEGORIES: nat := 5
  const RECENT_MONTH_ROWS: nat := 3

  // ---------------------------------------------------------------------
  // Date range
  // ---------------------------------------------------------------------

  /** The valid dates, in row order. */
  function Dates(rows: seq<Row>): (ds: seq<Date>)
    ensures forall d :: d in ds <==> exists i :: 0 <= i < |rows| && rows[i].date == Some(d)
  {
    if |rows| == 0 then []
    else
      var rest := Dates(rows[1..]);
      assert forall i :: 1 <= i < |rows| ==> rows[i] == rows[1..][i - 1];
      match rows[0].date
      case Some(d) => [d] + rest
      case None => rest
  }

  /** `.min()`: no date comes before it. */
  function Earliest(ds: seq<Date>): (m: Date)
    requires |ds| > 0
    ensures m in ds
    ensures forall i :: 0 <= i < |ds| ==> !DateBefore(ds[i], m)
  {
    if |ds| == 1 then ds[0]
    else
      var rest := Earliest(ds[1..]);
      assert forall i :: 1 <= i < |ds| ==> ds[i] == ds[1..][i - 1];
      if DateBefore(ds[0], rest) then ds[0] else rest
  }

  /** `.max()`: no date comes after it. */
  function Latest(ds: seq<Date>): (m: Date)
    requires |ds| > 0
    ensures m in ds
    ensures forall i :: 0 <= i < |ds| ==> !DateBefore(m, ds[i])
  {
    if |ds| == 1 then ds[0]
    else
      var rest := Latest(ds[1..]);
      assert forall i :: 1 <= i < |ds| ==> ds[i] == ds[1..][i - 1];
      if DateBefore(rest, ds[0]) then ds[0] else rest
  }

  /** The date-range line: present with a Date column, an error when that column has no valid date. */
  function DateBlock(rows: seq<Row>, hasDate: bool): (r: Result<seq<SummaryLine>, SummaryError>)
    ensures r.Failure? <==> hasDate && forall i :: 0 <= i < |rows| ==> rows[i].date.None?
    ensures r.Success? ==> |r.value| == (if hasDate then 1 else 0)
    ensures r.Success? && hasDate ==>
              && r.value[0].DateRange?
              && (exists i :: 0 <= i < |rows| && rows[i].date == Some(r.value[0].first))
              && (exists i :: 0 <= i < |rows| && rows[i].date == Some(r.value[0].last))
              && (forall i :: 0 <= i < |rows| && rows[i].date.Some? ==>
                    !DateBefore(rows[i].date.value, r.value[0].first) && !DateBefore(r.value[0].last, rows[i].date.value))
  {
    var ds := Dates(rows);
    if !hasDate then Success([])
    else if |ds| == 0 then Failure(NoValidDates)
    else
      var first, last := Earliest(ds), Latest(ds);
      assert forall i :: 0 <= i < |rows| && rows[i].date.Some? ==>
                !DateBefore(rows[i].date.value, first) && !DateBefore(last, rows[i].date.value) by {
        forall i | 0 <= i < |rows| && rows[i].date.Some?
          ensures !DateBefore(rows[i].date.value, first) && !DateBefore(last, rows[i].date.value)
        {
          assert rows[i].date.value in ds;
        }
      }
      Success([DateRange(first, last)])
  }

  // ---------------------------------------------------------------------
  // Types: counts and totals
  // ---------------------------------------------------------------------

  /** The key of `value_counts`, which drops a NaN type. */
  function KindKey(r: Row): Option<string>
  {
    r.kind
  }

  /**
   * The key `df[df['Type'] == t]` selects on: a row of type `t` matches
   * `Some(t)`, and a NaN type matches nothing, not even a NaN `t`.
   */
  function TypeCell(r: Row): Option<Option<string>>
  {
    if r.kind.Some? then Some(r.kind) else None
  }

  /** Some row's Type cell is `k` (`None` for NaN). */
  ghost predicate Occurs(rows: seq<Row>, k: Option<string>)
  {
    exists i :: 0 <= i < |rows| && rows[i].kind == k
  }

  /** Type `x` occurs in `rows` before the first row of type `y`. */
  ghost predicate SeenBefore(rows: seq<Row>, x: Option<string>, y: Option<string>)
  {
    exists p :: 0 <= p < |rows| && rows[p].kind == x && forall q :: 0 <= q < p ==> rows[q].kind != y
  }

  /** `df['Type'].unique()`: each type once, in order of first appearance, NaN included. */
  function Kinds(rows: seq<Row>): (ks: seq<Option<string>>)
    ensures Distinct(ks)
    ensures forall k :: k in ks <==> Occurs(rows, k)
    ensures forall a, b :: 0 <= a < b < |ks| ==> SeenBefore(rows, ks[a], ks[b])
  {
    if |rows| == 0 then []
    else
      var n := |rows| - 1;
      var ks := Kinds(rows[..n]);
      KindsOfPrefix(rows, ks);
      if rows[n].kind in ks then ks
      else ks + [rows[n].kind]
  }

  /**
   * Extending the rows by one keeps every earlier type and every earlier
   * first-appearance order, and a type new in the last row appears after all
   * the earlier ones.
   */
  lemma KindsOfPrefix(rows: seq<Row>, ks: seq<Option<string>>)
    requires |rows| > 0
    requires forall k :: k in ks <==> Occurs(rows[..|rows| - 1], k)
    requires forall a, b :: 0 <= a < b < |ks| ==> SeenBefore(rows[..|rows| - 1], ks[a], ks[b])
    ensures forall k :: k in ks + [rows[|rows| - 1].kind] <==> Occurs(rows, k)
    ensures forall a, b :: 0 <= a < b < |ks| ==> SeenBefore(rows, ks[a], ks[b])
    ensures rows[|rows| - 1].kind !in ks ==> forall a :: 0 <= a < |ks| ==> SeenBefore(rows, ks[a], rows[|rows| - 1].kind)
  {
    var n := |rows| - 1;
    var init := rows[..n];
    forall k ensures k in ks + [rows[n].kind] <==> Occurs(rows, k) {
      if Occurs(rows, k) && k != rows[n].kind {
        var i :| 0 <= i < |rows| && rows[i].kind == k;
        assert init[i].kind == k;
      }
      if k in ks {
        var i :| 0 <= i < n && init[i].kind == k;
        assert rows[i].kind == k;
      }
    }
    forall a, b | 0 <= a < b < |ks| ensures SeenBefore(rows, ks[a], ks[b]) {
      assert SeenBefore(init, ks[a], ks[b]);
      var p :| 0 <= p < n && init[p].kind == ks[a] && forall q :: 0 <= q < p ==> init[q].kind != ks[b];
      assert rows[p].kind == ks[a];
      assert forall q :: 0 <= q < p ==> rows[q] == init[q];
    }
    if rows[n].kind !in ks {
      forall a | 0 <= a < |ks| ensures SeenBefore(rows, ks[a], rows[n].kind) {
        assert ks[a] in ks;
        assert Occurs(init, ks[a]) && !Occurs(init, rows[n].kind);
        var p :| 0 <= p < n && init[p].kind == ks[a];
        assert rows[p].kind == ks[a];
        assert forall q :: 0 <= q < p ==> rows[q].kind != rows[n].kind by {
          forall q | 0 <= q < p ensures rows[q].kind != rows[n].kind {
            assert init[q].kind != rows[n].kind;
          }
        }
      }
    }
  }

  /** Groups re-weighed by their row counts (a count has no NaN to skip). */
  function CountGroups(g: seq<Group<string>>): (c: seq<Group<string>>)
    ensures |c| == |g|
    ensures forall i :: 0 <= i < |g| ==> c[i] == Group(g[i].key, g[i].count as real, g[i].count, g[i].count)
  {
    if |g| == 0 then [] else [Group(g[0].key, g[0].count as real, g[0].count, g[0].count)] + CountGroups(g[1..])
  }

  /** `df['Type'].value_counts()`: each type with its row count, most frequent first (ties by name); NaN is not counted. */
  function ValueCounts(rows: seq<Row>): (vc: seq<Group<string>>)
    ensures Ranked(vc, LexLess)
    ensures forall x :: x in vc ==> x.count > 0 && x.count == KeyCount(rows, KindKey, x.key) && x.total == x.count as real
    ensures forall k :: k in Keys(vc) <==> exists i :: 0 <= i < |rows| && rows[i].kind == Some(k)
  {
    LexLessIsStrictTotal();
    var c := CountGroups(GroupSum(rows, KindKey, LexLess));
    CountedKinds(rows);
    var vc := Top(c, |c|, LexLess);
    AllKeysKept(c, vc);
    vc
  }

  /** The type groups re-weighed by count: sorted, each with its row count, one per type that occurs. */
  lemma CountedKinds(rows: seq<Row>)
    requires StrictTotalOrder(LexLess)
    ensures var c := CountGroups(GroupSum(rows, KindKey, LexLess));
            && SortedKeys(c, LexLess)
            && (forall x :: x in c ==> x.count > 0 && x.count == KeyCount(rows, KindKey, x.key) && x.total == x.count as real)
            && (forall k :: k in Keys(c) <==> exists i :: 0 <= i < |rows| && rows[i].kind == Some(k))
  {
    var g := GroupSum(rows, KindKey, LexLess);
    var c := CountGroups(g);
    CountGroupsKeepKeys(g, LexLess);
    forall x | x in c ensures x.count > 0 && x.count == KeyCount(rows, KindKey, x.key) && x.total == x.count as real {
      var i :| 0 <= i < |c| && c[i] == x;
      LookupAtIndex(g, LexLess, i);
    }
    forall k ensures k in Keys(c) <==> exists i :: 0 <= i < |rows| && rows[i].kind == Some(k) {
      KeyCountPositive(rows, KindKey, k);
    }
  }

  /** Re-weighing groups by count keeps their keys, and so their key order. */
  lemma CountGroupsKeepKeys(g: seq<Group<string>>, less: (string, string) -> bool)
    requires SortedKeys(g, less)
    ensures Keys(CountGroups(g)) == Keys(g)
    ensures SortedKeys(CountGroups(g), less)
  {
    var c := CountGroups(g);
    assert forall i :: 0 <= i < |g| ==> Keys(c)[i] == Keys(g)[i];
  }

  /** Taking all groups in rank order keeps every key. */
  lemma AllKeysKept(c: seq<Group<string>>, vc: seq<Group<string>>)
    requires StrictTotalOrder(LexLess) && SortedKeys(c, LexLess)
    requires vc == Top(c, |c|, LexLess)
    ensures forall k :: k in Keys(vc) <==> k in Keys(c)
  {
    forall k ensures k in Keys(vc) <==> k in Keys(c) {
      if k in Keys(c) {
        var j :| 0 <= j < |c| && Keys(c)[j] == k;
        assert c[j] in vc;
        var m :| 0 <= m < |vc| && vc[m] == c[j];
        assert Keys(vc)[m] == k;
      }
      if k in Keys(vc) {
        var m :| 0 <= m < |vc| && Keys(vc)[m] == k;
        assert vc[m] in c;
        var j :| 0 <= j < |c| && c[j] == vc[m];
        assert Keys(c)[j] == k;
      }
    }
  }

  /** The sum selected by `df['Type'] == k`: the total of the rows of type `k`, and 0 for a NaN `k`. */
  lemma {:induction false} KindTotal(rows: seq<Row>, k: Option<string>)
    ensures k.Some? ==> KeyTotal(rows, TypeCell, k) == Total(OfKind(rows, k.value))
    ensures k.None? ==> KeyTotal(rows, TypeCell, k) == 0.0
  {
    if |rows| > 0 {
      KindTotal(rows[1..], k);
    }
  }

  /** Every row with a type falls under its own type's mask and no other. */
  lemma {:induction false} TypedRowsKeyed(rows: seq<Row>)
    ensures KeyedTotal(rows, TypeCell) == Total(Typed(rows))
  {
    if |rows| > 0 {
      TypedRowsKeyed(rows[1..]);
    }
  }

  /** `Total {type}` lines, one per entry of `ks` (a NaN type sums to 0). */
  function TypeTotals(rows: seq<Row>, ks: seq<Option<string>>): (ls: seq<SummaryLine>)
    ensures |ls| == |ks|
    ensures forall i :: 0 <= i < |ks| ==>
              ls[i] == TypeTotal(ks[i], if ks[i].Some? then Total(OfKind(rows, ks[i].value)) else 0.0)
  {
    if |ks| == 0 then []
    else
      KindTotal(rows, ks[0]);
      [TypeTotal(ks[0], KeyTotal(rows, TypeCell, ks[0]))] + TypeTotals(rows, ks[1..])
  }

  function SumTotals(ls: seq<SummaryLine>): real
  {
    if |ls| == 0 then 0.0 else (if ls[0].TypeTotal? then ls[0].total else 0.0) + SumTotals(ls[1..])
  }

  lemma {:induction false} SumTotalsOver(rows: seq<Row>, ks: seq<Option<string>>)
    ensures SumTotals(TypeTotals(rows, ks)) == SumOver(rows, TypeCell, ks)
  {
    if |ks| > 0 {
      SumTotalsOver(rows, ks[1..]);
      KindTotal(rows, ks[0]);
      assert TypeTotals(rows, ks)[1..] == TypeTotals(rows, ks[1..]);
    }
  }

  /**
   * The per-type totals add up to the total of the rows that have a type:
   * each such row is counted once, and the rows with a NaN type in none.
   */
  lemma TypeTotalsAddUp(rows: seq<Row>)
    ensures SumTotals(TypeTotals(rows, Kinds(rows))) == Total(Typed(rows))
  {
    var ks := Kinds(rows);
    SumTotalsOver(rows, ks);
    forall i | 0 <= i < |rows| && TypeCell(rows[i]).Some? ensures TypeCell(rows[i]).value in ks {
      assert Occurs(rows, rows[i].kind);
    }
    SumOverKeys(rows, TypeCell, ks);
    TypedRowsKeyed(rows);
  }

  /** The count line with a Type column; the total lines with an Amount column, per type when Type exists. */
  function TypeBlock(rows: seq<Row>, hasType: bool, hasAmount: bool): (r: seq<SummaryLine>)
    ensures hasType ==> |r| > 0 && r[0] == TypeCounts(ValueCounts(rows))
    ensures (hasType && hasAmount) ==> r[1..] == TypeTotals(rows, Kinds(rows))
    ensures (!hasType && hasAmount) ==> r == [AmountTotal(Total(rows))]
    ensures !hasAmount ==> r == (if hasType then [TypeCounts(ValueCounts(rows))] else [])
  {
    var counts := if hasType then [TypeCounts(ValueCounts(rows))] else [];
    var totals := if !hasAmount then [] else if hasType then TypeTotals(rows, Kinds(rows)) else [AmountTotal(Total(rows))];
    counts + totals
  }
  /** The type block holds only count and total lines. */
  lemma TypeBlockLines(rows: seq<Row>, hasType: bool, hasAmount: bool)
    ensures var r := TypeBlock(rows, hasType, hasAmount);
            forall i :: 0 <= i < |r| ==> r[i].TypeCounts? || r[i].TypeTotal? || r[i].AmountTotal?
  {
    var r := TypeBlock(rows, hasType, hasAmount);
    if hasType && hasAmount {
      forall i | 1 <= i < |r| ensures r[i].TypeTotal? {
        assert r[i] == r[1..][i - 1];
      }
    }
  }


  // ---------------------------------------------------------------------
  // Categories and recent months (src/assistant.py only)
  // ---------------------------------------------------------------------

  /** `category_amounts.sort_values('Amount', ascending=False).head(5)`. */
  function TopCategoryGroups(rows: seq<Row>): (t: seq<Group<(string, string)>>)
    ensures |t| <= TOP_SUMMARY_CATEGORIES
    ensures Ranked(t, PairLess)
    ensures forall x :: x in t ==> x == GroupOf(rows, CategoryTypeKey, x.key) && x.count > 0
    ensures forall c, kind, i :: KeyCount(rows, CategoryTypeKey, (c, kind)) > 0 && 0 <= i < |t|
              && (forall x :: x in t ==> x.key != (c, kind))
              ==> Outranks(t[i], GroupOf(rows, CategoryTypeKey, (c, kind)), PairLess)
    ensures |t| < TOP_SUMMARY_CATEGORIES ==>
              forall c, kind :: KeyCount(rows, CategoryTypeKey, (c, kind)) > 0 ==> (c, kind) in Keys(t)
  {
    PairLessIsStrictTotal();
    var g := GroupSum(rows, CategoryTypeKey, PairLess);
    var t := Top(g, TOP_SUMMARY_CATEGORIES, PairLess);
    KeptGroupsMatchRows(rows, g, t);
    DroppedGroupsRankLower(rows, g, t);
    ShortTopListsAll(rows, g, t);
    t
  }

  /** Every group kept from the category/type group-by carries its key's row total. */
  lemma KeptGroupsMatchRows(rows: seq<Row>, g: seq<Group<(string, string)>>, t: seq<Group<(string, string)>>)
    requires StrictTotalOrder(PairLess)
    requires g == GroupSum(rows, CategoryTypeKey, PairLess)
    requires forall x :: x in t ==> x in g
    ensures forall x :: x in t ==> x == GroupOf(rows, CategoryTypeKey, x.key) && x.count > 0
  {
    forall x | x in t ensures x == GroupOf(rows, CategoryTypeKey, x.key) && x.count > 0 {
      var j :| 0 <= j < |g| && g[j] == x;
      LookupAtIndex(g, PairLess, j);
    }
  }

  /** A category/type pair that occurs but was not kept is outranked by every kept group. */
  lemma DroppedGroupsRankLower(rows: seq<Row>, g: seq<Group<(string, string)>>, t: seq<Group<(string, string)>>)
    requires StrictTotalOrder(PairLess)
    requires g == GroupSum(rows, CategoryTypeKey, PairLess)
    requires t == Top(g, TOP_SUMMARY_CATEGORIES, PairLess)
    ensures forall c, kind, i :: KeyCount(rows, CategoryTypeKey, (c, kind)) > 0 && 0 <= i < |t|
              && (forall x :: x in t ==> x.key != (c, kind))
              ==> Outranks(t[i], GroupOf(rows, CategoryTypeKey, (c, kind)), PairLess)
  {
    forall c, kind, i | KeyCount(rows, CategoryTypeKey, (c, kind)) > 0 && 0 <= i < |t|
        && (forall x :: x in t ==> x.key != (c, kind))
      ensures Outranks(t[i], GroupOf(rows, CategoryTypeKey, (c, kind)), PairLess)
    {
      assert (c, kind) in Keys(g);
      var j :| 0 <= j < |g| && Keys(g)[j] == (c, kind);
      LookupAtIndex(g, PairLess, j);
      assert g[j] !in t;
    }
  }

  /** Fewer than five groups listed means there were no more: every occurring (Category, Type) pair is listed. */
  lemma ShortTopListsAll(rows: seq<Row>, g: seq<Group<(string, string)>>, t: seq<Group<(string, string)>>)
    requires StrictTotalOrder(PairLess)
    requires g == GroupSum(rows, CategoryTypeKey, PairLess)
    requires t == Top(g, TOP_SUMMARY_CATEGORIES, PairLess)
    ensures |t| < TOP_SUMMARY_CATEGORIES ==>
              forall c, kind :: KeyCount(rows, CategoryTypeKey, (c, kind)) > 0 ==> (c, kind) in Keys(t)
  {
    if |t| < TOP_SUMMARY_CATEGORIES {
      forall c, kind | KeyCount(rows, CategoryTypeKey, (c, kind)) > 0 ensures (c, kind) in Keys(t) {
        assert (c, kind) in Keys(g);
        var j :| 0 <= j < |g| && Keys(g)[j] == (c, kind);
        assert g[j] in t;
        var i :| 0 <= i < |t| && t[i] == g[j];
        assert Keys(t)[i] == (c, kind);
      }
    }
  }

  /**
   * The order `sort_values('Month', ascending=False)` leaves the (Month, Type)
   * groups in: later labels first, and groups sharing a label in their
   * `groupby` order, Type ascending. pandas sorts descending by reversing,
   * sorting stably and reversing back, so equal labels keep their order.
   */
  predicate RecentFirst(p: (string, string), q: (string, string))
  {
    LexLess(q.0, p.0) || (p.0 == q.0 && LexLess(p.1, q.1))
  }

  /** In key-sorted (Month, Type) groups an earlier key is below every later one. */
  lemma {:induction false} KeysAscend(g: seq<Group<(string, string)>>, i: int, j: int)
    requires SortedKeys(g, PairLess) && 0 <= i < j < |g|
    ensures PairLess(g[i].key, g[j].key)
    decreases j - i
  {
    if i + 1 < j {
      KeysAscend(g, i + 1, j);
      PairLessTransitive(g[i].key, g[i + 1].key, g[j].key);
    }
  }

  /** A key at or below one whose label is below `m` has a label below `m` too. */
  lemma LabelBelow(a: (string, string), b: (string, string), m: string)
    requires LexLess(b.0, m)
    requires a == b || PairLess(a, b)
    ensures LexLess(a.0, m)
  {
    if a != b && a.0 != b.0 {
      LexLessTransitive(a.0, b.0, m);
    }
  }

  /** Every key is below every later one. */
  ghost predicate Ascending(g: seq<Group<(string, string)>>)
  {
    forall i, j :: 0 <= i < j < |g| ==> PairLess(g[i].key, g[j].key)
  }

  lemma AscendingPrefix(g: seq<Group<(string, string)>>, k: nat)
    requires Ascending(g) && k <= |g|
    ensures Ascending(g[..k])
  {
    forall i, j | 0 <= i < j < k ensures PairLess(g[..k][i].key, g[..k][j].key) {
      assert g[..k][i] == g[i] && g[..k][j] == g[j];
    }
  }

  lemma SortedIsAscending(g: seq<Group<(string, string)>>)
    requires SortedKeys(g, PairLess)
    ensures Ascending(g)
  {
    forall i, j | 0 <= i < j < |g| ensures PairLess(g[i].key, g[j].key) {
      KeysAscend(g, i, j);
    }
  }

  /** Where the run of groups carrying the last label begins. */
  function LastRunStart(g: seq<Group<(string, string)>>): (k: nat)
    requires |g| > 0
    ensures k < |g|
    ensures forall j :: k <= j < |g| ==> g[j].key.0 == g[|g| - 1].key.0
    ensures k > 0 ==> g[k - 1].key.0 != g[|g| - 1].key.0
  {
    if |g| == 1 || g[|g| - 2].key.0 != g[|g| - 1].key.0 then |g| - 1
    else LastRunStart(g[..|g| - 1])
  }

  /** In ascending groups every label before the last run is smaller than the last label. */
  lemma FrontLabelsBelow(g: seq<Group<(string, string)>>)
    requires |g| > 0 && Ascending(g)
    ensures forall j :: 0 <= j < LastRunStart(g) ==> LexLess(g[j].key.0, g[|g| - 1].key.0)
  {
    var k := LastRunStart(g);
    if k > 0 {
      var b, m := g[k - 1].key, g[|g| - 1].key;
      assert PairLess(b, m);
      assert LexLess(b.0, m.0);
      forall j | 0 <= j < k ensures LexLess(g[j].key.0, m.0) {
        assert j == k - 1 || PairLess(g[j].key, b);
        LabelBelow(g[j].key, b, m.0);
      }
    }
  }

  /** Within the last run the types ascend. */
  lemma RunTypesAscend(g: seq<Group<(string, string)>>)
    requires |g| > 0 && Ascending(g)
    ensures forall i, j :: LastRunStart(g) <= i < j < |g| ==> LexLess(g[i].key.1, g[j].key.1)
  {
    forall i, j | LastRunStart(g) <= i < j < |g| ensures LexLess(g[i].key.1, g[j].key.1) {
      assert PairLess(g[i].key, g[j].key);
      LexLessIrreflexive(g[i].key.0);
    }
  }

  /**
   * The run from `k` on carries label `m` with types ascending, and every
   * group before `k` has a smaller label: the run followed by any
   * `RecentFirst`-ordered arrangement of the groups before `k` is
   * `RecentFirst`-ordered.
   */
  lemma RunThenRest(g: seq<Group<(string, string)>>, k: nat, rest: seq<Group<(string, string)>>, m: string)
    requires k <= |g|
    requires forall j :: k <= j < |g| ==> g[j].key.0 == m
    requires forall i, j :: k <= i < j < |g| ==> LexLess(g[i].key.1, g[j].key.1)
    requires forall j :: 0 <= j < k ==> LexLess(g[j].key.0, m)
    requires forall x :: x in rest <==> x in g[..k]
    requires forall i, j :: 0 <= i < j < |rest| ==> RecentFirst(rest[i].key, rest[j].key)
    ensures forall i, j :: 0 <= i < j < |g[k..] + rest| ==> RecentFirst((g[k..] + rest)[i].key, (g[k..] + rest)[j].key)
  {
    var run := g[k..];
    var s := run + rest;
    forall i, j | 0 <= i < j < |s| ensures RecentFirst(s[i].key, s[j].key) {
      if j < |run| {
        assert s[i] == g[k + i] && s[j] == g[k + j];
      } else if i < |run| {
        assert s[i] == g[k + i];
        assert s[j] == rest[j - |run|];
        assert s[j] in g[..k];
        var j' :| 0 <= j' < k && g[..k][j'] == s[j];
        assert g[j'] == s[j];
      } else {
        assert s[i] == rest[i - |run|] && s[j] == rest[j - |run|];
      }
    }
  }

  lemma SplitMembers<T>(s: seq<T>, k: nat)
    requires k <= |s|
    ensures forall x :: x in s <==> x in s[..k] || x in s[k..]
  {
    assert s == s[..k] + s[k..];
  }

  /** Key-sorted groups rearranged into `RecentFirst` order: runs of equal labels, the last run first. */
  function ByRecency(g: seq<Group<(string, string)>>): (s: seq<Group<(string, string)>>)
    requires Ascending(g)
    ensures |s| == |g|
    ensures forall x :: x in s <==> x in g
    ensures forall i, j :: 0 <= i < j < |s| ==> RecentFirst(s[i].key, s[j].key)
    decreases |g|
  {
    if |g| == 0 then []
    else
      var k := LastRunStart(g);
      var run, front := g[k..], g[..k];
      AscendingPrefix(g, k);
      var rest := ByRecency(front);
      FrontLabelsBelow(g);
      RunTypesAscend(g);
      RunThenRest(g, k, rest, g[|g| - 1].key.0);
      SplitMembers(g, k);
      run + rest
  }

  /**
   * `monthly_amounts.sort_values('Month', ascending=False).head(3)`: the
   * first three (Month, Type) groups in `RecentFirst` order.
   */
  function RecentGroups(g: seq<Group<(string, string)>>): (r: seq<Group<(string, string)>>)
    requires SortedKeys(g, PairLess)
    ensures |r| == if |g| < RECENT_MONTH_ROWS then |g| else RECENT_MONTH_ROWS
    ensures forall x :: x in r ==> x in g
    ensures forall i, j :: 0 <= i < j < |r| ==> RecentFirst(r[i].key, r[j].key)
    ensures forall x, i :: x in g && x !in r && 0 <= i < |r| ==> RecentFirst(r[i].key, x.key)
  {
    SortedIsAscending(g);
    var s := ByRecency(g);
    var n := if |g| < RECENT_MONTH_ROWS then |g| else RECENT_MONTH_ROWS;
    var r := s[..n];
    forall x, i | x in g && x !in r && 0 <= i < |r| ensures RecentFirst(r[i].key, x.key) {
      var k :| 0 <= k < |s| && s[k] == x;
      assert k >= n;
      assert r[i] == s[i];
    }
    r
  }

  /** Two months, each with an Expense and an Income group, in `groupby` order. */
  const TWO_MONTHS: seq<Group<(string, string)>> :=
    [Group(("2024-01", EXPENSE), 10.0, 1, 1), Group(("2024-01", INCOME), 20.0, 1, 1),
     Group(("2024-02", EXPENSE), 30.0, 1, 1), Group(("2024-02", INCOME), 40.0, 1, 1)]

  lemma TwoMonthsAscending()
    ensures SortedKeys(TWO_MONTHS, PairLess) && Ascending(TWO_MONTHS)
  {
    assert LexLess(EXPENSE, INCOME);
    assert LexLess("2024-01", "2024-02");
    SortedIsAscending(TWO_MONTHS);
  }

  /** Two months with both types: the later month's groups come first, Expense before Income. */
  lemma RecentTiesKeepTypeOrder()
    ensures SortedKeys(TWO_MONTHS, PairLess)
    ensures RecentGroups(TWO_MONTHS) == [TWO_MONTHS[2], TWO_MONTHS[3], TWO_MONTHS[0]]
  {
    var g := TWO_MONTHS;
    TwoMonthsAscending();
    assert LastRunStart(g) == 2;
    AscendingPrefix(g, 2);
    assert LastRunStart(g[..2]) == 0;
    assert ByRecency(g[..2]) == g[..2];
    assert ByRecency(g) == [g[2], g[3], g[0], g[1]];
  }

  /** A label listed among the recent months is never smaller than one left out. */
  lemma RecentLabelsAreGreatest(g: seq<Group<(string, string)>>, x: Group<(string, string)>, i: int)
    requires SortedKeys(g, PairLess)
    requires x in g && x !in RecentGroups(g) && 0 <= i < |RecentGroups(g)|
    ensures !LexLess(RecentGroups(g)[i].key.0, x.key.0)
  {
    var y := RecentGroups(g)[i];
    assert RecentFirst(y.key, x.key);
    if LexLess(y.key.0, x.key.0) {
      if y.key.0 == x.key.0 {
        LexLessIrreflexive(x.key.0);
      } else {
        LexLessTransitive(y.key.0, x.key.0, y.key.0);
        LexLessIrreflexive(y.key.0);
      }
    }
  }

  // ---------------------------------------------------------------------
  // generate_data_summary
  // ---------------------------------------------------------------------

  /** A line both versions produce: neither a category nor a recent-month block. */
  predicate Plain(x: SummaryLine)
  {
    !x.TopCategories? && !x.RecentMonths?
  }

  /**
   * The lines both versions produce: the record count, the column list, the
   * date range and the type lines.
   */
  function CommonLines(f: Frame): (r: Result<seq<SummaryLine>, SummaryError>)
    ensures r.Failure? <==> "Date" in f.columns && forall i :: 0 <= i < |f.rows| ==> f.rows[i].date.None?
    ensures r.Success? ==>
              r.value == [RecordCount(|f.rows|), Columns(f.columns)]
                         + DateBlock(f.rows, "Date" in f.columns).value
                         + TypeBlock(f.rows, "Type" in f.columns, "Amount" in f.columns)
  {
    match DateBlock(f.rows, "Date" in f.columns)
    case Failure(e) => Failure(e)
    case Success(dates) =>
      Success([RecordCount(|f.rows|), Columns(f.columns)] + dates + TypeBlock(f.rows, "Type" in f.columns, "Amount" in f.columns))
  }

  /** The common lines open with the record count and the column list, and hold neither extra block. */
  lemma CommonLinesPlain(f: Frame)
    requires CommonLines(f).Success?
    ensures var lines := CommonLines(f).value;
            && |lines| >= 2 && lines[0] == RecordCount(|f.rows|) && lines[1] == Columns(f.columns)
            && forall i :: 0 <= i < |lines| ==> Plain(lines[i])
  {
    var dates := DateBlock(f.rows, "Date" in f.columns).value;
    var types := TypeBlock(f.rows, "Type" in f.columns, "Amount" in f.columns);
    TypeBlockLines(f.rows, "Type" in f.columns, "Amount" in f.columns);
    PlainLines([RecordCount(|f.rows|), Columns(f.columns)], dates, types);
  }

  lemma PlainLines(head: seq<SummaryLine>, dates: seq<SummaryLine>, types: seq<SummaryLine>)
    requires forall i :: 0 <= i < |head| ==> Plain(head[i])
    requires forall i :: 0 <= i < |dates| ==> dates[i].DateRange?
    requires forall i :: 0 <= i < |types| ==> types[i].TypeCounts? || types[i].TypeTotal? || types[i].AmountTotal?
    ensures forall i :: 0 <= i < |head + dates + types| ==> Plain((head + dates + types)[i])
  {
    var lines := head + dates + types;
    forall i | 0 <= i < |lines| ensures Plain(lines[i]) {
      if i < |head| {
        assert lines[i] == head[i];
      } else if i < |head| + |dates| {
        assert lines[i] == dates[i - |head|];
      } else {
        assert lines[i] == types[i - |head| - |dates|];
      }
    }
  }

  /** `generate_data_summary` in src/assistant.py. */
  function GenerateDataSummary(f: Frame): (r: Result<seq<SummaryLine>, SummaryError>)
    requires f.Valid()
    ensures r.Failure? <==> "Date" in f.columns && forall i :: 0 <= i < |f.rows| ==> f.rows[i].date.None?
    ensures r.Success? ==>
              r.value == CommonLines(f).value
                         + (if "Category" in f.columns then [TopCategories(TopCategoryGroups(f.rows))] else [])
                         + (if "Month" in f.columns then [RecentMonths(RecentGroups(Monthly.ByMonthAndType(f.rows, f.month.value)))] else [])
    ensures r.Success? ==> ((exists i :: 0 <= i < |r.value| && r.value[i].TopCategories?) <==> "Category" in f.columns)
    ensures r.Success? ==> ((exists i :: 0 <= i < |r.value| && r.value[i].RecentMonths?) <==> "Month" in f.columns)
  {
    match CommonLines(f)
    case Failure(e) => Failure(e)
    case Success(common) =>
      PairLessIsStrictTotal();
      var cats := if "Category" in f.columns then [TopCategories(TopCategoryGroups(f.rows))] else [];
      var recent := if "Month" in f.columns then [RecentMonths(RecentGroups(Monthly.ByMonthAndType(f.rows, f.month.value)))] else [];
      var r := common + cats + recent;
      CommonLinesPlain(f);
      ExtraBlocks(common, cats, recent);
      Success(r)
  }

  /** After plain lines, a block kind occurs exactly when its (at most one) line was added. */
  lemma ExtraBlocks(common: seq<SummaryLine>, cats: seq<SummaryLine>, recent: seq<SummaryLine>)
    requires forall i :: 0 <= i < |common| ==> Plain(common[i])
    requires |cats| <= 1 && (forall i :: 0 <= i < |cats| ==> cats[i].TopCategories?)
    requires |recent| <= 1 && (forall i :: 0 <= i < |recent| ==> recent[i].RecentMonths?)
    ensures var r := common + cats + recent;
            && ((exists i :: 0 <= i < |r| && r[i].TopCategories?) <==> |cats| == 1)
            && ((exists i :: 0 <= i < |r| && r[i].RecentMonths?) <==> |recent| == 1)
  {
    var r := common + cats + recent;
    if |cats| == 1 {
      assert r[|common|] == cats[0];
    }
    if |recent| == 1 {
      assert r[|common| + |cats|] == recent[0];
    }
    forall i | 0 <= i < |r| ensures r[i].TopCategories? ==> |cats| == 1 {
      if i >= |common| + |cats| {
        assert r[i] == recent[i - |common| - |cats|];
      } else if i < |common| {
        assert r[i] == common[i];
      }
    }
    forall i | 0 <= i < |r| ensures r[i].RecentMonths? ==> |recent| == 1 {
      if i < |common| {
        assert r[i] == common[i];
      } else if i < |common| + |cats| {
        assert r[i] == cats[i - |common|];
      }
    }
  }

  /** `generate_data_summary` in the older assistant.py: only the common lines. */
  function LegacyGenerateDataSummary(f: Frame): (r: Result<seq<SummaryLine>, SummaryError>)
    ensures r.Failure? <==> "Date" in f.columns && forall i :: 0 <= i < |f.rows| ==> f.rows[i].date.None?
    ensures r.Success? ==> |r.value| >= 2 && r.value[0] == RecordCount(|f.rows|) && r.value[1] == Columns(f.columns)
    ensures r.Success? ==> forall i :: 0 <= i < |r.value| ==> Plain(r.value[i])
    ensures r == CommonLines(f)
  {
    if CommonLines(f).Success? then
      CommonLinesPlain(f);
      CommonLines(f)
    else CommonLines(f)
  }

  /**
   * The older digest is the newer one without its category and recent-month
   * blocks: both fail on the same frames, and the older lines are exactly the
   * newer digest's plain lines, which come first.
   */
  lemma LegacySummaryIsPlainPrefix(f: Frame)
    requires f.Valid()
    ensures LegacyGenerateDataSummary(f).Success? <==> GenerateDataSummary(f).Success?
    ensures LegacyGenerateDataSummary(f).Success? ==>
              var legacy, current := LegacyGenerateDataSummary(f).value, GenerateDataSummary(f).value;
              && legacy <= current
              && forall i :: |legacy| <= i < |current| ==> !Plain(current[i])
  {
  }
}
