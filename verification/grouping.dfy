/**
 * `groupby(key)['Amount'].agg(['sum', 'mean', 'count'])`, with the key order pandas
 * sorts groups in, and the ranking behind `nlargest` / `sort_values(...).head(n)`.
 */
module Grouping {
  import opened Base
  import opened Order
  import opened Table

  /**
   * One group of a group-by: its key, the sum of its amounts (NaN skipped),
   * its number of rows (`size`) and its number of non-NaN amounts (the
   * `count` column of `agg`).
   */
  datatype Group<K> = Group(key: K, total: real, count: nat, values: nat)

  /** Sum of the amounts of the rows whose key is `k` (rows with a NaN key are dropped). */
  function KeyTotal<K(==,!new)>(rows: seq<Row>, keyOf: Row -> Option<K>, k: K): real
  {
    if |rows| == 0 then 0.0
    else (if keyOf(rows[0]) == Some(k) then Value(rows[0]) else 0.0) + KeyTotal(rows[1..], keyOf, k)
  }

  /** Number of rows whose key is `k`. */
  function KeyCount<K(==,!new)>(rows: seq<Row>, keyOf: Row -> Option<K>, k: K): nat
  {
    if |rows| == 0 then 0
    else (if keyOf(rows[0]) == Some(k) then 1 else 0) + KeyCount(rows[1..], keyOf, k)
  }

  /** Number of rows whose key is `k` and whose amount is not NaN. */
  function KeyValues<K(==,!new)>(rows: seq<Row>, keyOf: Row -> Option<K>, k: K): nat
  {
    if |rows| == 0 then 0
    else (if keyOf(rows[0]) == Some(k) && rows[0].amount.Some? then 1 else 0) + KeyValues(rows[1..], keyOf, k)
  }

  /** The group a group-by builds for key `k`. */
  function GroupOf<K(==,!new)>(rows: seq<Row>, keyOf: Row -> Option<K>, k: K): Group<K>
  {
    Group(k, KeyTotal(rows, keyOf, k), KeyCount(rows, keyOf, k), KeyValues(rows, keyOf, k))
  }

  /** The `mean` column of `agg`: the sum over the non-NaN amounts, NaN when there is none. */
  function GroupMean<K>(x: Group<K>): (m: Option<real>)
    ensures m.Some? <==> x.values > 0
    ensures m.Some? ==> Times(x.values, m.value) == x.total
  {
    if x.values == 0 then None else Some(x.total / (x.values as real))
  }

  /** The key column of a group-by result. */
  function Keys<K>(g: seq<Group<K>>): (ks: seq<K>)
    ensures |ks| == |g|
    ensures forall i :: 0 <= i < |g| ==> ks[i] == g[i].key
  {
    if |g| == 0 then [] else [g[0].key] + Keys(g[1..])
  }

  /** The sum stored for key `k`, 0 when there is no such group. */
  function TotalAt<K(==,!new)>(g: seq<Group<K>>, k: K): real
  {
    if |g| == 0 then 0.0 else if g[0].key == k then g[0].total else TotalAt(g[1..], k)
  }

  /** The row count stored for key `k`, 0 when there is no such group. */
  function CountAt<K(==,!new)>(g: seq<Group<K>>, k: K): nat
  {
    if |g| == 0 then 0 else if g[0].key == k then g[0].count else CountAt(g[1..], k)
  }

  /** The non-NaN count stored for key `k`, 0 when there is no such group. */
  function ValuesAt<K(==,!new)>(g: seq<Group<K>>, k: K): nat
  {
    if |g| == 0 then 0 else if g[0].key == k then g[0].values else ValuesAt(g[1..], k)
  }

  /** Each key is below the next, so under a strict order keys strictly increase and occur once. */
  ghost predicate SortedKeys<K>(g: seq<Group<K>>, less: (K, K) -> bool)
  {
    forall i :: 0 < i < |g| ==> less(g[i - 1].key, g[i].key)
  }

  /** Under a strict total order, an earlier key is below every later one. */
  lemma {:induction false} SortedKeysOrder<K(!new)>(g: seq<Group<K>>, less: (K, K) -> bool, i: int, j: int)
    requires StrictTotalOrder(less) && SortedKeys(g, less)
    requires 0 <= i < j < |g|
    ensures less(g[i].key, g[j].key)
    decreases j - i
  {
    if i + 1 < j {
      SortedKeysOrder(g, less, i + 1, j);
    }
  }

  /** Every pair of keys is ordered by position. */
  lemma SortedKeysPairwise<K(!new)>(g: seq<Group<K>>, less: (K, K) -> bool)
    requires StrictTotalOrder(less) && SortedKeys(g, less)
    ensures forall i, j :: 0 <= i < j < |g| ==> less(g[i].key, g[j].key)
  {
    forall i, j | 0 <= i < j < |g| ensures less(g[i].key, g[j].key) {
      SortedKeysOrder(g, less, i, j);
    }
  }

  lemma {:induction false} AbsentKey<K(!new)>(g: seq<Group<K>>, k: K)
    requires k !in Keys(g)
    ensures TotalAt(g, k) == 0.0 && CountAt(g, k) == 0 && ValuesAt(g, k) == 0
  {
    if |g| > 0 {
      assert Keys(g)[0] == g[0].key;
      assert Keys(g[1..]) == Keys(g)[1..];
      AbsentKey(g[1..], k);
    }
  }

  /** In a group-by result every group's stored sum is the one `TotalAt` finds. */
  lemma {:induction false} LookupAtIndex<K(!new)>(g: seq<Group<K>>, less: (K, K) -> bool, i: int)
    requires StrictTotalOrder(less) && SortedKeys(g, less)
    requires 0 <= i < |g|
    ensures TotalAt(g, g[i].key) == g[i].total && CountAt(g, g[i].key) == g[i].count
    ensures ValuesAt(g, g[i].key) == g[i].values
  {
    if i > 0 {
      SortedKeysOrder(g, less, 0, i);
      LookupAtIndex(g[1..], less, i - 1);
    }
  }

  /** Every group of a group-by result has at least one row. */
  ghost predicate NonEmptyGroups<K>(g: seq<Group<K>>)
  {
    forall i :: 0 <= i < |g| ==> g[i].count > 0
  }

  /** Number of non-NaN amounts a row adds to its group: 1 or 0. */
  function Counted(x: Row): nat
  {
    if x.amount.Some? then 1 else 0
  }

  /** Adds row `x` to the group of key `k`, creating it in key order if needed. */
  function AddTo<K(==)>(g: seq<Group<K>>, k: K, x: Row, less: (K, K) -> bool): seq<Group<K>>
  {
    if |g| == 0 then [Group(k, Value(x), 1, Counted(x))]
    else if g[0].key == k then [Group(k, g[0].total + Value(x), g[0].count + 1, g[0].values + Counted(x))] + g[1..]
    else if less(k, g[0].key) then [Group(k, Value(x), 1, Counted(x))] + g
    else [g[0]] + AddTo(g[1..], k, x, less)
  }

  lemma AddToSpec<K(!new)>(g: seq<Group<K>>, k: K, x: Row, less: (K, K) -> bool)
    requires StrictTotalOrder(less) && SortedKeys(g, less)
    ensures SortedKeys(AddTo(g, k, x, less), less)
    ensures forall j :: TotalAt(AddTo(g, k, x, less), j) == TotalAt(g, j) + (if j == k then Value(x) else 0.0)
    ensures forall j :: CountAt(AddTo(g, k, x, less), j) == CountAt(g, j) + (if j == k then 1 else 0)
    ensures forall j :: ValuesAt(AddTo(g, k, x, less), j) == ValuesAt(g, j) + (if j == k then Counted(x) else 0)
    ensures forall j :: j in Keys(AddTo(g, k, x, less)) <==> j in Keys(g) || j == k
    ensures NonEmptyGroups(g) ==> NonEmptyGroups(AddTo(g, k, x, less))
  {
    AddToKeys(g, k, x, less);
    AddToSorted(g, k, x, less);
    AddToSums(g, k, x, less);
  }

  /** A key below the first of a sorted group list is not among its keys. */
  lemma BelowFirstIsAbsent<K(!new)>(g: seq<Group<K>>, k: K, less: (K, K) -> bool)
    requires StrictTotalOrder(less) && SortedKeys(g, less)
    requires |g| > 0 && less(k, g[0].key)
    ensures k !in Keys(g)
  {
    forall i | 0 <= i < |g| ensures g[i].key != k {
      if i > 0 {
        SortedKeysOrder(g, less, 0, i);
      }
    }
  }

  lemma {:induction false} AddToKeys<K(!new)>(g: seq<Group<K>>, k: K, x: Row, less: (K, K) -> bool)
    ensures forall j :: j in Keys(AddTo(g, k, x, less)) <==> j in Keys(g) || j == k
  {
    var r := AddTo(g, k, x, less);
    if |g| == 0 {
    } else if g[0].key == k {
      assert Keys(r) == [k] + Keys(g[1..]);
      assert Keys(g) == [k] + Keys(g[1..]);
    } else if less(k, g[0].key) {
      assert Keys(r) == [k] + Keys(g);
    } else {
      AddToKeys(g[1..], k, x, less);
      assert Keys(g) == [g[0].key] + Keys(g[1..]);
      assert Keys(r) == [g[0].key] + Keys(AddTo(g[1..], k, x, less));
    }
  }

  lemma {:induction false} AddToSorted<K(!new)>(g: seq<Group<K>>, k: K, x: Row, less: (K, K) -> bool)
    requires StrictTotalOrder(less) && SortedKeys(g, less)
    ensures SortedKeys(AddTo(g, k, x, less), less)
  {
    if |g| > 0 && g[0].key != k && !less(k, g[0].key) {
      var rest := AddTo(g[1..], k, x, less);
      var r := [g[0]] + rest;
      AddToSorted(g[1..], k, x, less);
      AddToKeys(g[1..], k, x, less);
      assert less(g[0].key, k);
      forall j | 0 < j < |r| ensures less(g[0].key, r[j].key) {
        assert r[j].key in Keys(rest) by {
          assert Keys(rest)[j - 1] == r[j].key;
        }
        if r[j].key != k {
          var jj :| 0 <= jj < |g[1..]| && Keys(g[1..])[jj] == r[j].key;
          SortedKeysOrder(g, less, 0, jj + 1);
        }
      }
    }
  }

  lemma {:induction false} AddToSums<K(!new)>(g: seq<Group<K>>, k: K, x: Row, less: (K, K) -> bool)
    requires StrictTotalOrder(less) && SortedKeys(g, less)
    ensures forall j :: TotalAt(AddTo(g, k, x, less), j) == TotalAt(g, j) + (if j == k then Value(x) else 0.0)
    ensures forall j :: CountAt(AddTo(g, k, x, less), j) == CountAt(g, j) + (if j == k then 1 else 0)
    ensures forall j :: ValuesAt(AddTo(g, k, x, less), j) == ValuesAt(g, j) + (if j == k then Counted(x) else 0)
    ensures NonEmptyGroups(g) ==> NonEmptyGroups(AddTo(g, k, x, less))
  {
    if |g| == 0 {
    } else if g[0].key == k {
    } else if less(k, g[0].key) {
      BelowFirstIsAbsent(g, k, less);
      AbsentKey(g, k);
    } else {
      AddToSums(g[1..], k, x, less);
    }
  }

  /**
   * `g` is the group-by of `rows` on `keyOf`: one group per key that some row
   * carries, in increasing key order, each holding that key's sum, row count
   * and non-NaN count.
   */
  ghost predicate GroupedBy<K(!new)>(g: seq<Group<K>>, rows: seq<Row>, keyOf: Row -> Option<K>, less: (K, K) -> bool)
  {
    && SortedKeys(g, less)
    && (forall k :: k in Keys(g) <==> KeyCount(rows, keyOf, k) > 0)
    && (forall k :: TotalAt(g, k) == KeyTotal(rows, keyOf, k))
    && (forall k :: CountAt(g, k) == KeyCount(rows, keyOf, k))
    && (forall k :: ValuesAt(g, k) == KeyValues(rows, keyOf, k))
  }

  /**
   * `groupby(keyOf)['Amount'].agg(['sum', 'mean', 'count'])` (the mean is
   * `GroupMean` of each group); `size` is kept alongside as the row count.
   */
  function GroupSum<K(==,!new)>(rows: seq<Row>, keyOf: Row -> Option<K>, less: (K, K) -> bool): (g: seq<Group<K>>)
    requires StrictTotalOrder(less)
    ensures GroupedBy(g, rows, keyOf, less)
    ensures NonEmptyGroups(g)
    decreases |rows|
  {
    if |rows| == 0 then []
    else
      var rest := GroupSum(rows[1..], keyOf, less);
      match keyOf(rows[0])
      case None => rest
      case Some(k) =>
        var r := AddTo(rest, k, rows[0], less);
        AddToSpec(rest, k, rows[0], less);
        KeysAreCounted(rest, less);
        r
  }

  /** In sorted groups none of which is empty, a key is present exactly when its count is positive. */
  lemma KeysAreCounted<K(!new)>(g: seq<Group<K>>, less: (K, K) -> bool)
    requires StrictTotalOrder(less) && SortedKeys(g, less) && NonEmptyGroups(g)
    ensures forall k :: k in Keys(g) <==> CountAt(g, k) > 0
  {
    forall k ensures k in Keys(g) <==> CountAt(g, k) > 0 {
      if k !in Keys(g) {
        AbsentKey(g, k);
      } else {
        var i :| 0 <= i < |g| && Keys(g)[i] == k;
        LookupAtIndex(g, less, i);
      }
    }
  }

  /**
   * The group-by result is unique: two group lists that both meet `GroupedBy`
   * for the same rows are equal, so the predicate pins the result down.
   */
  lemma GroupedByUnique<K(!new)>(g1: seq<Group<K>>, g2: seq<Group<K>>, rows: seq<Row>, keyOf: Row -> Option<K>, less: (K, K) -> bool)
    requires StrictTotalOrder(less)
    requires GroupedBy(g1, rows, keyOf, less) && GroupedBy(g2, rows, keyOf, less)
    ensures g1 == g2
  {
    SameContentsSameGroups(g1, g2, less);
  }

  /** Two key-sorted group lists with the same keys and the same figures per key are equal. */
  lemma {:induction false} SameContentsSameGroups<K(!new)>(g1: seq<Group<K>>, g2: seq<Group<K>>, less: (K, K) -> bool)
    requires StrictTotalOrder(less) && SortedKeys(g1, less) && SortedKeys(g2, less)
    requires forall k :: k in Keys(g1) <==> k in Keys(g2)
    requires forall k :: TotalAt(g1, k) == TotalAt(g2, k)
    requires forall k :: CountAt(g1, k) == CountAt(g2, k)
    requires forall k :: ValuesAt(g1, k) == ValuesAt(g2, k)
    ensures g1 == g2
    decreases |g1|
  {
    if |g1| > 0 {
      assert Keys(g1)[0] in Keys(g2);
    }
    if |g2| > 0 {
      assert Keys(g2)[0] in Keys(g1);
    }
    if |g1| > 0 && |g2| > 0 {
      var a, b := g1[0].key, g2[0].key;
      assert Keys(g1)[0] == a && Keys(g2)[0] == b;
      assert a in Keys(g1) && b in Keys(g2);
      var j1 :| 0 <= j1 < |g1| && Keys(g1)[j1] == b;
      var j2 :| 0 <= j2 < |g2| && Keys(g2)[j2] == a;
      if j1 > 0 { SortedKeysOrder(g1, less, 0, j1); }
      if j2 > 0 { SortedKeysOrder(g2, less, 0, j2); }
      assert a == b;
      LookupAtIndex(g1, less, 0);
      LookupAtIndex(g2, less, 0);
      assert g1[0] == g2[0];
      var t1, t2 := g1[1..], g2[1..];
      assert SortedKeys(t1, less) && SortedKeys(t2, less);
      TailKeys(g1, less);
      TailKeys(g2, less);
      forall k ensures TotalAt(t1, k) == TotalAt(t2, k) && CountAt(t1, k) == CountAt(t2, k)
                       && ValuesAt(t1, k) == ValuesAt(t2, k)
      {
        if k == a {
          AbsentKey(t1, k);
          AbsentKey(t2, k);
        } else {
          assert TotalAt(g1, k) == TotalAt(t1, k) && TotalAt(g2, k) == TotalAt(t2, k);
          assert CountAt(g1, k) == CountAt(t1, k) && CountAt(g2, k) == CountAt(t2, k);
          assert ValuesAt(g1, k) == ValuesAt(t1, k) && ValuesAt(g2, k) == ValuesAt(t2, k);
        }
      }
      SameContentsSameGroups(t1, t2, less);
      assert g1 == [g1[0]] + t1 && g2 == [g2[0]] + t2;
    }
  }

  /** The keys after the first group are the other keys: the first key does not come back. */
  lemma TailKeys<K(!new)>(g: seq<Group<K>>, less: (K, K) -> bool)
    requires StrictTotalOrder(less) && SortedKeys(g, less) && |g| > 0
    ensures forall k :: k in Keys(g[1..]) <==> k in Keys(g) && k != g[0].key
  {
    SortedKeysDistinct(g, less);
    assert Keys(g) == [g[0].key] + Keys(g[1..]);
    DistinctTail(Keys(g));
  }

  /** In a list without repeats, the tail holds every element except the head. */
  lemma DistinctTail<K>(ks: seq<K>)
    requires |ks| > 0 && Distinct(ks)
    ensures forall k :: k in ks[1..] <==> k in ks && k != ks[0]
  {
    forall k | k in ks && k != ks[0] ensures k in ks[1..] {
      var i :| 0 <= i < |ks| && ks[i] == k;
      assert ks[1..][i - 1] == k;
    }
  }

  /** Every key that some row has appears among the groups. */
  lemma KeyOfRowIsGrouped<K(!new)>(rows: seq<Row>, keyOf: Row -> Option<K>, less: (K, K) -> bool, i: int)
    requires StrictTotalOrder(less)
    requires 0 <= i < |rows| && keyOf(rows[i]).Some?
    ensures keyOf(rows[i]).value in Keys(GroupSum(rows, keyOf, less))
  {
    KeyCountOfRow(rows, keyOf, i);
  }

  lemma {:induction false} KeyCountOfRow<K(!new)>(rows: seq<Row>, keyOf: Row -> Option<K>, i: int)
    requires 0 <= i < |rows| && keyOf(rows[i]).Some?
    ensures KeyCount(rows, keyOf, keyOf(rows[i]).value) > 0
  {
    if i > 0 {
      KeyCountOfRow(rows[1..], keyOf, i - 1);
    }
  }

  // ---------------------------------------------------------------------
  // Ranking: order by sum, largest first, ties to the smaller key.
  // ---------------------------------------------------------------------

  /** `a` comes before `b` when ranking groups by sum (ties: the key that sorts first). */
  predicate Outranks<K>(a: Group<K>, b: Group<K>, less: (K, K) -> bool)
  {
    a.total > b.total || (a.total == b.total && less(a.key, b.key))
  }

  ghost predicate Ranked<K>(s: seq<Group<K>>, less: (K, K) -> bool)
  {
    forall i, j :: 0 <= i < j < |s| ==> Outranks(s[i], s[j], less)
  }

  function Insert<K>(x: Group<K>, s: seq<Group<K>>, less: (K, K) -> bool): seq<Group<K>>
  {
    if |s| == 0 || Outranks(x, s[0], less) then [x] + s
    else [s[0]] + Insert(x, s[1..], less)
  }

  lemma {:induction false} InsertSpec<K(!new)>(x: Group<K>, s: seq<Group<K>>, less: (K, K) -> bool)
    requires StrictTotalOrder(less) && Ranked(s, less)
    requires forall y :: y in s ==> y.key != x.key
    ensures Ranked(Insert(x, s, less), less)
    ensures multiset(Insert(x, s, less)) == multiset(s) + multiset{x}
  {
    if |s| == 0 || Outranks(x, s[0], less) {
      var r := Insert(x, s, less);
      forall i, j | 0 <= i < j < |r| ensures Outranks(r[i], r[j], less) {
        if i == 0 && j > 1 {
          assert Outranks(s[0], s[j - 1], less);
        }
      }
    } else {
      assert s[0] in s;
      assert Outranks(s[0], x, less);
      var rest := Insert(x, s[1..], less);
      InsertSpec(x, s[1..], less);
      assert s == [s[0]] + s[1..];
      var r := [s[0]] + rest;
      forall j | 0 < j < |r| ensures Outranks(s[0], r[j], less) {
        assert r[j] in multiset(rest);
        if r[j] != x {
          var jj :| 0 <= jj < |s[1..]| && s[1..][jj] == r[j];
          assert Outranks(s[0], s[jj + 1], less);
        }
      }
    }
  }

  /** Insertion sort of groups into rank order. */
  function Rank<K>(g: seq<Group<K>>, less: (K, K) -> bool): seq<Group<K>>
  {
    if |g| == 0 then [] else Insert(g[0], Rank(g[1..], less), less)
  }

  lemma {:induction false} RankSpec<K(!new)>(g: seq<Group<K>>, less: (K, K) -> bool)
    requires StrictTotalOrder(less) && SortedKeys(g, less)
    ensures Ranked(Rank(g, less), less)
    ensures multiset(Rank(g, less)) == multiset(g)
  {
    if |g| > 0 {
      var rest := Rank(g[1..], less);
      RankSpec(g[1..], less);
      forall y | y in rest ensures y.key != g[0].key {
        assert y in multiset(g[1..]);
        var j :| 0 <= j < |g[1..]| && g[1..][j] == y;
        SortedKeysOrder(g, less, 0, j + 1);
      }
      InsertSpec(g[0], rest, less);
      assert g == [g[0]] + g[1..];
    }
  }

  /**
   * The first `n` groups in rank order (`nlargest(n)` with `keep='first'` over
   * key-sorted groups): the largest sums, ties to the smaller key, and no group
   * left out outranks one kept.
   */
  function Top<K(==,!new)>(g: seq<Group<K>>, n: nat, less: (K, K) -> bool): (r: seq<Group<K>>)
    requires StrictTotalOrder(less) && SortedKeys(g, less)
    ensures |r| == if |g| < n then |g| else n
    ensures Ranked(r, less)
    ensures forall x :: x in r ==> x in g
    ensures forall x, i :: x in g && x !in r && 0 <= i < |r| ==> Outranks(r[i], x, less)
    ensures |g| <= n ==> forall x :: x in g ==> x in r
  {
    var ranked := Rank(g, less);
    RankSpec(g, less);
    var m := if |g| < n then |g| else n;
    RankedPrefix(g, ranked, n, less);
    ranked[..m]
  }

  /** The first `n` groups of a rank-ordered permutation keep the best groups and lose nothing when `n` covers them all. */
  lemma RankedPrefix<K>(g: seq<Group<K>>, ranked: seq<Group<K>>, n: nat, less: (K, K) -> bool)
    requires Ranked(ranked, less) && multiset(ranked) == multiset(g)
    ensures |ranked| == |g|
    ensures var r := ranked[..if |g| < n then |g| else n];
            && Ranked(r, less)
            && (forall x :: x in r ==> x in g)
            && (forall x, i :: x in g && x !in r && 0 <= i < |r| ==> Outranks(r[i], x, less))
            && (|g| <= n ==> forall x :: x in g ==> x in r)
  {
    assert |ranked| == |g| by {
      assert |multiset(ranked)| == |multiset(g)|;
    }
    var m := if |g| < n then |g| else n;
    var r := ranked[..m];
    forall x | x in r ensures x in g {
      assert x in multiset(ranked);
    }
    forall x, i | x in g && x !in r && 0 <= i < |r| ensures Outranks(r[i], x, less) {
      assert x in multiset(ranked);
      var k :| 0 <= k < |ranked| && ranked[k] == x;
      assert forall p :: 0 <= p < m ==> r[p] in r && r[p] == ranked[p];
      assert k >= m;
      assert r[i] == ranked[i];
    }
    if |g| <= n {
      assert r == ranked;
      forall x | x in g ensures x in r {
        assert x in multiset(ranked);
      }
    }
  }

  // ---------------------------------------------------------------------
  // Group sums add back up to the total of the keyed rows.
  // ---------------------------------------------------------------------

  /** A key occurs among the groups exactly when some row carries it. */
  lemma {:induction false} KeyCountPositive<K(!new)>(rows: seq<Row>, keyOf: Row -> Option<K>, k: K)
    ensures KeyCount(rows, keyOf, k) > 0 <==> exists i :: 0 <= i < |rows| && keyOf(rows[i]) == Some(k)
  {
    if |rows| > 0 {
      KeyCountPositive(rows[1..], keyOf, k);
      if KeyCount(rows[1..], keyOf, k) > 0 {
        var i :| 0 <= i < |rows[1..]| && keyOf(rows[1..][i]) == Some(k);
        assert keyOf(rows[i + 1]) == Some(k);
      }
      if exists i :: 0 <= i < |rows| && keyOf(rows[i]) == Some(k) {
        var i :| 0 <= i < |rows| && keyOf(rows[i]) == Some(k);
        if i > 0 {
          assert keyOf(rows[1..][i - 1]) == Some(k);
        }
      }
    }
  }

  /** Sum of the amounts of the rows whose key is not NaN. */
  function KeyedTotal<K>(rows: seq<Row>, keyOf: Row -> Option<K>): real
  {
    if |rows| == 0 then 0.0
    else (if keyOf(rows[0]).Some? then Value(rows[0]) else 0.0) + KeyedTotal(rows[1..], keyOf)
  }

  /** The sum, over the keys `ks`, of each key's total. */
  function SumOver<K(==,!new)>(rows: seq<Row>, keyOf: Row -> Option<K>, ks: seq<K>): real
  {
    if |ks| == 0 then 0.0 else KeyTotal(rows, keyOf, ks[0]) + SumOver(rows, keyOf, ks[1..])
  }

  lemma SortedKeysDistinct<K(!new)>(g: seq<Group<K>>, less: (K, K) -> bool)
    requires StrictTotalOrder(less) && SortedKeys(g, less)
    ensures Distinct(Keys(g))
  {
    forall i, j | 0 <= i < j < |g| ensures Keys(g)[i] != Keys(g)[j] {
      SortedKeysOrder(g, less, i, j);
    }
  }

  /** Summing over distinct keys counts the first row once if its key is listed, else not at all. */
  lemma {:induction false} SumOverFirstRow<K(!new)>(rows: seq<Row>, keyOf: Row -> Option<K>, ks: seq<K>)
    requires |rows| > 0 && Distinct(ks)
    ensures SumOver(rows, keyOf, ks)
            == (if keyOf(rows[0]).Some? && keyOf(rows[0]).value in ks then Value(rows[0]) else 0.0)
               + SumOver(rows[1..], keyOf, ks)
  {
    if |ks| > 0 {
      assert Distinct(ks[1..]) by {
        forall i, j | 0 <= i < j < |ks[1..]| ensures ks[1..][i] != ks[1..][j] {
          assert ks[1..][i] == ks[i + 1] && ks[1..][j] == ks[j + 1];
        }
      }
      SumOverFirstRow(rows, keyOf, ks[1..]);
      assert ks == [ks[0]] + ks[1..];
      if keyOf(rows[0]) == Some(ks[0]) {
        assert ks[0] !in ks[1..] by {
          forall i | 0 <= i < |ks[1..]| ensures ks[1..][i] != ks[0] {
            assert ks[1..][i] == ks[i + 1];
          }
        }
      }
    }
  }

  /**
   * Adding up the totals of a list of distinct keys that covers every key the
   * rows carry gives the total of the keyed rows: nothing is lost or counted twice.
   */
  lemma {:induction false} SumOverKeys<K(!new)>(rows: seq<Row>, keyOf: Row -> Option<K>, ks: seq<K>)
    requires Distinct(ks)
    requires forall i :: 0 <= i < |rows| && keyOf(rows[i]).Some? ==> keyOf(rows[i]).value in ks
    ensures SumOver(rows, keyOf, ks) == KeyedTotal(rows, keyOf)
  {
    if |ks| == 0 {
      KeyedTotalUnkeyed(rows, keyOf);
    } else if |rows| > 0 {
      SumOverFirstRow(rows, keyOf, ks);
      assert forall i :: 0 <= i < |rows[1..]| && keyOf(rows[1..][i]).Some? ==> keyOf(rows[1..][i]).value in ks by {
        forall i | 0 <= i < |rows[1..]| && keyOf(rows[1..][i]).Some? ensures keyOf(rows[1..][i]).value in ks {
          assert rows[1..][i] == rows[i + 1];
        }
      }
      SumOverKeys(rows[1..], keyOf, ks);
    } else {
      SumOverNoRows(keyOf, ks);
    }
  }

  lemma {:induction false} SumOverNoRows<K(!new)>(keyOf: Row -> Option<K>, ks: seq<K>)
    ensures SumOver([], keyOf, ks) == 0.0
  {
    if |ks| > 0 {
      SumOverNoRows(keyOf, ks[1..]);
    }
  }

  lemma {:induction false} KeyedTotalUnkeyed<K>(rows: seq<Row>, keyOf: Row -> Option<K>)
    requires forall i :: 0 <= i < |rows| ==> keyOf(rows[i]).None?
    ensures KeyedTotal(rows, keyOf) == 0.0
  {
    if |rows| > 0 {
      assert forall i :: 0 <= i < |rows[1..]| ==> rows[1..][i] == rows[i + 1];
      KeyedTotalUnkeyed(rows[1..], keyOf);
    }
  }

  /** Sum of the totals of the groups whose key satisfies `p`. */
  function TotalWhere<K>(g: seq<Group<K>>, p: K -> bool): real
  {
    if |g| == 0 then 0.0 else (if p(g[0].key) then g[0].total else 0.0) + TotalWhere(g[1..], p)
  }

  /** Sum of the amounts of the rows whose key is present and satisfies `p`. */
  function KeyedTotalWhere<K>(rows: seq<Row>, keyOf: Row -> Option<K>, p: K -> bool): real
  {
    if |rows| == 0 then 0.0
    else (if keyOf(rows[0]).Some? && p(keyOf(rows[0]).value) then Value(rows[0]) else 0.0)
         + KeyedTotalWhere(rows[1..], keyOf, p)
  }

  lemma {:induction false} AddToTotalWhere<K(!new)>(g: seq<Group<K>>, k: K, x: Row, less: (K, K) -> bool, p: K -> bool)
    ensures TotalWhere(AddTo(g, k, x, less), p) == TotalWhere(g, p) + (if p(k) then Value(x) else 0.0)
  {
    if |g| > 0 && g[0].key != k && !less(k, g[0].key) {
      AddToTotalWhere(g[1..], k, x, less, p);
      assert AddTo(g, k, x, less)[1..] == AddTo(g[1..], k, x, less);
    } else if |g| > 0 && g[0].key != k {
      assert AddTo(g, k, x, less)[1..] == g;
    } else if |g| > 0 {
      assert AddTo(g, k, x, less)[1..] == g[1..];
    }
  }

  /**
   * Adding up the groups whose key satisfies `p` gives the total of the rows
   * whose key satisfies `p`: grouping neither loses nor duplicates an amount.
   */
  lemma {:induction false} GroupSumConserves<K(!new)>(rows: seq<Row>, keyOf: Row -> Option<K>, less: (K, K) -> bool, p: K -> bool)
    requires StrictTotalOrder(less)
    ensures TotalWhere(GroupSum(rows, keyOf, less), p) == KeyedTotalWhere(rows, keyOf, p)
  {
    if |rows| > 0 {
      GroupSumConserves(rows[1..], keyOf, less, p);
      var rest := GroupSum(rows[1..], keyOf, less);
      if keyOf(rows[0]).Some? {
        AddToTotalWhere(rest, keyOf(rows[0]).value, rows[0], less, p);
      }
    }
  }

  // ---------------------------------------------------------------------
  // idxmax: the first group with the largest sum
  // ---------------------------------------------------------------------

  /** `idxmax` / `.loc[idxmax()]`: the position of the first largest total. */
  function ArgMax<K>(g: seq<Group<K>>): (k: nat)
    requires |g| > 0
    ensures k < |g|
    ensures forall j :: 0 <= j < |g| ==> g[j].total <= g[k].total
    ensures forall j :: 0 <= j < k ==> g[j].total < g[k].total
  {
    if |g| == 1 then 0
    else
      var k := ArgMax(g[..|g| - 1]);
      assert forall j :: 0 <= j < |g| - 1 ==> g[..|g| - 1][j] == g[j];
      if g[|g| - 1].total > g[k].total then |g| - 1 else k
  }

  /**
   * The group `idxmax` picks from a group-by result has the largest sum of
   * any key some row carries, and strictly beats every smaller key: ties go
   * to the first key in sort order.
   */
  lemma ArgMaxIsLargest<K(!new)>(rows: seq<Row>, keyOf: Row -> Option<K>, less: (K, K) -> bool, x: K)
    requires StrictTotalOrder(less)
    requires KeyCount(rows, keyOf, x) > 0
    ensures |GroupSum(rows, keyOf, less)| > 0
    ensures var g := GroupSum(rows, keyOf, less);
            var top := g[ArgMax(g)];
            && KeyTotal(rows, keyOf, x) <= top.total
            && (less(x, top.key) ==> KeyTotal(rows, keyOf, x) < top.total)
  {
    var g := GroupSum(rows, keyOf, less);
    assert x in Keys(g);
    var i :| 0 <= i < |g| && Keys(g)[i] == x;
    var k := ArgMax(g);
    LookupAtIndex(g, less, i);
    assert KeyTotal(rows, keyOf, x) == g[i].total;
    SortedIndexOrder(g, less, i, k);
  }

  /** In key-sorted groups, a smaller key sits at a smaller position. */
  lemma SortedIndexOrder<K(!new)>(g: seq<Group<K>>, less: (K, K) -> bool, i: int, k: int)
    requires StrictTotalOrder(less) && SortedKeys(g, less)
    requires 0 <= i < |g| && 0 <= k < |g|
    ensures less(g[i].key, g[k].key) ==> i < k
  {
    if k < i {
      SortedKeysOrder(g, less, k, i);
    }
  }
}
