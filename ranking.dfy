/** Ordering grouped rows by their revenue: `Series.nlargest(n)` and
    `Series.sort_values(ascending=True)`. */
module Ranking {
  import opened GroupBy

  /** Row a may stand before row b: by revenue, descending or ascending. */
  predicate Before<K>(a: Row<K>, b: Row<K>, descending: bool) {
    if descending then a.1 >= b.1 else a.1 <= b.1
  }

  predicate SortedBy<K>(rows: seq<Row<K>>, descending: bool) {
    forall i, j :: 0 <= i < j < |rows| ==> Before(rows[i], rows[j], descending)
  }

  /** Inserts x in front of the first row it may stand before (so ties keep their order). */
  function InsertRow<K>(x: Row<K>, sorted: seq<Row<K>>, descending: bool): (r: seq<Row<K>>)
    requires SortedBy(sorted, descending)
    ensures SortedBy(r, descending)
    ensures multiset(r) == multiset(sorted) + multiset{x}
    ensures |r| == |sorted| + 1
  {
    if sorted == [] then [x]
    else if Before(x, sorted[0], descending) then [x] + sorted
    else
      var rest := InsertRow(x, sorted[1..], descending);
      assert sorted == [sorted[0]] + sorted[1..];
      HeadBeforeAll(x, sorted, rest, descending);
      [sorted[0]] + rest
  }

  /** The head of a sorted sequence may stand before every row of its tail with x added, when it may stand before x. */
  lemma HeadBeforeAll<K>(x: Row<K>, sorted: seq<Row<K>>, rest: seq<Row<K>>, descending: bool)
    requires sorted != [] && SortedBy(sorted, descending)
    requires !Before(x, sorted[0], descending)
    requires multiset(rest) == multiset(sorted[1..]) + multiset{x}
    ensures forall i :: 0 <= i < |rest| ==> Before(sorted[0], rest[i], descending)
  {
    forall i | 0 <= i < |rest| ensures Before(sorted[0], rest[i], descending) {
      assert rest[i] in multiset(rest);
      if rest[i] != x {
        assert rest[i] in multiset(sorted[1..]);
        var t :| 0 <= t < |sorted[1..]| && sorted[1..][t] == rest[i];
        assert sorted[t + 1] == rest[i];
      }
    }
  }

  /** A stable insertion sort of rows by revenue. */
  function SortRows<K>(rows: seq<Row<K>>, descending: bool): (r: seq<Row<K>>)
    ensures SortedBy(r, descending)
    ensures multiset(r) == multiset(rows)
    ensures |r| == |rows|
  {
    if rows == [] then []
    else
      assert rows == [rows[0]] + rows[1..];
      InsertRow(rows[0], SortRows(rows[1..], descending), descending)
  }

  function Min(a: int, b: int): int {
    if a <= b then a else b
  }

  /** `nlargest(n).sort_values(ascending=True)`: the n rows of largest revenue, smallest first. */
  function LargestAscending<K>(rows: seq<Row<K>>, n: nat): (top: seq<Row<K>>)
    ensures |top| == Min(n, |rows|)
    ensures SortedBy(top, false)
    ensures multiset(top) <= multiset(rows)
    ensures |rows| <= n ==> multiset(top) == multiset(rows)
  {
    var desc := SortRows(rows, true);
    var k := Min(n, |rows|);
    assert desc == desc[..k] + desc[k..];
    assert multiset(desc) == multiset(desc[..k]) + multiset(desc[k..]);
    var top := SortRows(desc[..k], false);
    assert |top| == |multiset(top)| == k;
    top
  }

  lemma NotInPrefix<T>(s: seq<T>, k: nat, x: T)
    requires k <= |s|
    requires x !in multiset(s[..k])
    ensures forall b :: 0 <= b < k ==> s[b] != x
  {
    forall b | 0 <= b < k ensures s[b] != x {
      assert s[..k][b] == s[b];
    }
  }

  /** The selection holds the same rows as the first min(n, |rows|) rows of the descending sort. */
  lemma LargestAscendingPrefix<K>(rows: seq<Row<K>>, n: nat)
    ensures multiset(LargestAscending(rows, n)) == multiset(SortRows(rows, true)[..Min(n, |rows|)])
  {
  }

  /** No row left out of the selection has more revenue than a selected row. */
  lemma LargestAscendingSelects<K>(rows: seq<Row<K>>, n: nat, i: nat, j: nat)
    requires i < |LargestAscending(rows, n)| && j < |rows|
    requires rows[j] !in multiset(LargestAscending(rows, n))
    ensures rows[j].1 <= LargestAscending(rows, n)[i].1
  {
    var desc := SortRows(rows, true);
    var k := Min(n, |rows|);
    var top := LargestAscending(rows, n);
    LargestAscendingPrefix(rows, n);
    assert rows[j] in multiset(desc);
    var b :| 0 <= b < |desc| && desc[b] == rows[j];
    assert top[i] in multiset(desc[..k]);
    var a :| 0 <= a < k && desc[..k][a] == top[i];
    NotInPrefix(desc, k, rows[j]);
    assert Before(desc[a], desc[b], true);
  }

  /** No key occurs in two rows. */
  ghost predicate DistinctKeys<K>(rows: seq<Row<K>>) {
    forall i, j :: 0 <= i < j < |rows| ==> rows[i].0 != rows[j].0
  }

  lemma {:induction false} CountAtMostOne<K>(b: seq<Row<K>>, x: Row<K>)
    requires DistinctKeys(b)
    ensures multiset(b)[x] <= 1
  {
    if b != [] {
      assert b == [b[0]] + b[1..];
      CountAtMostOne(b[1..], x);
      if x == b[0] {
        forall t | 0 <= t < |b[1..]| ensures b[1..][t] != x {
          assert b[1..][t] == b[t + 1];
        }
      }
    }
  }

  lemma CountAtLeastTwo<K>(a: seq<Row<K>>, i: nat, j: nat)
    requires i < j < |a|
    ensures a[i] == a[j] ==> multiset(a)[a[i]] >= 2
  {
    assert a == a[..j] + a[j..];
    assert a[..j][i] == a[i];
    assert a[j..][0] == a[j];
  }

  lemma SameKeySameRow<K>(b: seq<Row<K>>, x: Row<K>, y: Row<K>)
    requires DistinctKeys(b)
    requires x in multiset(b) && y in multiset(b)
    ensures x.0 == y.0 ==> x == y
  {
    var p :| 0 <= p < |b| && b[p] == x;
    var q :| 0 <= q < |b| && b[q] == y;
  }

  /** Rows drawn from a table with distinct keys have distinct keys. */
  lemma SubRowsDistinct<K>(a: seq<Row<K>>, b: seq<Row<K>>)
    requires DistinctKeys(b) && multiset(a) <= multiset(b)
    ensures DistinctKeys(a)
  {
    forall i, j | 0 <= i < j < |a| ensures a[i].0 != a[j].0 {
      assert a[i] in multiset(a) && a[j] in multiset(a);
      SameKeySameRow(b, a[i], a[j]);
      CountAtLeastTwo(a, i, j);
      CountAtMostOne(b, a[i]);
    }
  }
}
