/** `dff.groupby(key)['receita'].sum().reset_index()`: one row per distinct
    key, in ascending key order (groupby sorts its keys by default), holding
    the summed revenue of the records with that key. */
module GroupBy {
  import opened Sales
  import opened Orders

  type Row<K> = (K, real)

  predicate StrictlyAscending<K>(rows: seq<Row<K>>, lt: (K, K) -> bool) {
    forall i, j :: 0 <= i < j < |rows| ==> lt(rows[i].0, rows[j].0)
  }

  /** The keys that appear in the result rows. */
  function KeysOf<K>(rows: seq<Row<K>>): set<K> {
    if rows == [] then {} else {rows[0].0} + KeysOf(rows[1..])
  }

  /** The value in the row for key k, 0 when there is no such row. */
  function Lookup<K(==)>(rows: seq<Row<K>>, k: K): real {
    if rows == [] then 0.0 else if rows[0].0 == k then rows[0].1 else Lookup(rows[1..], k)
  }

  function RowsTotal<K>(rows: seq<Row<K>>): real {
    if rows == [] then 0.0 else rows[0].1 + RowsTotal(rows[1..])
  }

  /** The distinct keys of the records. */
  function KeySet<K>(s: seq<Record>, key: Record -> K): set<K> {
    if s == [] then {} else {key(s[0])} + KeySet(s[1..], key)
  }

  /** The summed revenue of the records whose key is k. */
  function SumWhere<K(==)>(s: seq<Record>, key: Record -> K, k: K): real {
    if s == [] then 0.0
    else (if key(s[0]) == k then s[0].receita else 0.0) + SumWhere(s[1..], key, k)
  }

  /** Adds revenue v to the row of key k, inserting that row at its place when it is missing. */
  function Accumulate<K(==)>(rows: seq<Row<K>>, k: K, v: real, lt: (K, K) -> bool): seq<Row<K>> {
    if rows == [] then [(k, v)]
    else if rows[0].0 == k then [(k, rows[0].1 + v)] + rows[1..]
    else if lt(k, rows[0].0) then [(k, v)] + rows
    else [rows[0]] + Accumulate(rows[1..], k, v, lt)
  }

  lemma {:induction false} AccumulateKeys<K>(rows: seq<Row<K>>, k: K, v: real, lt: (K, K) -> bool)
    ensures KeysOf(Accumulate(rows, k, v, lt)) == KeysOf(rows) + {k}
  {
    if rows != [] && rows[0].0 != k && !lt(k, rows[0].0) {
      AccumulateKeys(rows[1..], k, v, lt);
      assert Accumulate(rows, k, v, lt)[1..] == Accumulate(rows[1..], k, v, lt);
    } else if rows != [] && rows[0].0 == k {
      assert Accumulate(rows, k, v, lt)[1..] == rows[1..];
    } else if rows != [] {
      assert Accumulate(rows, k, v, lt)[1..] == rows;
    }
  }

  lemma {:induction false} KeysOfBelow<K>(rows: seq<Row<K>>, b: K, x: K, lt: (K, K) -> bool)
    requires forall i :: 0 <= i < |rows| ==> lt(b, rows[i].0)
    requires x in KeysOf(rows)
    ensures lt(b, x)
  {
    if rows[0].0 != x {
      KeysOfBelow(rows[1..], b, x, lt);
    }
  }

  lemma {:induction false} KeysOfHasIndex<K>(rows: seq<Row<K>>, x: K) returns (i: nat)
    requires x in KeysOf(rows)
    ensures i < |rows| && rows[i].0 == x
  {
    if rows[0].0 == x {
      i := 0;
    } else {
      var j := KeysOfHasIndex(rows[1..], x);
      i := j + 1;
    }
  }

  lemma {:induction false} AccumulateAscending<K(!new)>(rows: seq<Row<K>>, k: K, v: real, lt: (K, K) -> bool)
    requires StrictTotalOrder(lt)
    requires StrictlyAscending(rows, lt)
    ensures StrictlyAscending(Accumulate(rows, k, v, lt), lt)
  {
    var r := Accumulate(rows, k, v, lt);
    if rows == [] || rows[0].0 == k {
    } else if lt(k, rows[0].0) {
      forall i, j | 0 <= i < j < |r| ensures lt(r[i].0, r[j].0) {
        if i == 0 {
          assert lt(rows[0].0, rows[j - 1].0) || j == 1;
        }
      }
    } else {
      var tail := Accumulate(rows[1..], k, v, lt);
      AccumulateAscending(rows[1..], k, v, lt);
      AccumulateKeys(rows[1..], k, v, lt);
      assert r == [rows[0]] + tail;
      forall i, j | 0 <= i < j < |r| ensures lt(r[i].0, r[j].0) {
        if i == 0 {
          assert r[j] == tail[j - 1];
          assert r[j].0 in KeysOf(tail) by {
            KeysOfMember(tail, j - 1);
          }
          if r[j].0 != k {
            var t := KeysOfHasIndex(rows[1..], r[j].0);
            assert rows[t + 1].0 == r[j].0;
          }
        }
      }
    }
  }

  lemma {:induction false} KeysOfMember<K>(rows: seq<Row<K>>, i: nat)
    requires i < |rows|
    ensures rows[i].0 in KeysOf(rows)
  {
    if i > 0 {
      KeysOfMember(rows[1..], i - 1);
    }
  }

  lemma {:induction false} LookupAbsent<K>(rows: seq<Row<K>>, k: K)
    requires k !in KeysOf(rows)
    ensures Lookup(rows, k) == 0.0
  {
    if rows != [] {
      LookupAbsent(rows[1..], k);
    }
  }

  lemma {:induction false} AccumulateLookup<K(!new)>(rows: seq<Row<K>>, k: K, v: real, lt: (K, K) -> bool, j: K)
    requires StrictTotalOrder(lt)
    requires StrictlyAscending(rows, lt)
    ensures Lookup(Accumulate(rows, k, v, lt), j) == Lookup(rows, j) + (if j == k then v else 0.0)
  {
    if rows == [] {
    } else if rows[0].0 == k {
      assert Accumulate(rows, k, v, lt)[1..] == rows[1..];
    } else if lt(k, rows[0].0) {
      assert Accumulate(rows, k, v, lt)[1..] == rows;
      forall x | x in KeysOf(rows) ensures x != k {
        KeysOfBelow(rows, k, x, lt);
      }
      LookupAbsent(rows, k);
    } else {
      assert Accumulate(rows, k, v, lt)[1..] == Accumulate(rows[1..], k, v, lt);
      AccumulateLookup(rows[1..], k, v, lt, j);
    }
  }

  lemma {:induction false} AccumulateTotal<K>(rows: seq<Row<K>>, k: K, v: real, lt: (K, K) -> bool)
    ensures RowsTotal(Accumulate(rows, k, v, lt)) == RowsTotal(rows) + v
  {
    if rows == [] {
    } else if rows[0].0 == k {
      assert Accumulate(rows, k, v, lt)[1..] == rows[1..];
    } else if lt(k, rows[0].0) {
      assert Accumulate(rows, k, v, lt)[1..] == rows;
    } else {
      assert Accumulate(rows, k, v, lt)[1..] == Accumulate(rows[1..], k, v, lt);
      AccumulateTotal(rows[1..], k, v, lt);
    }
  }

  /** The grouped revenue table of s by key, in ascending key order. */
  function GroupSum<K(!new,==)>(s: seq<Record>, key: Record -> K, lt: (K, K) -> bool): (rows: seq<Row<K>>)
    requires StrictTotalOrder(lt)
    ensures StrictlyAscending(rows, lt)
    ensures KeysOf(rows) == KeySet(s, key)
    ensures forall k :: Lookup(rows, k) == SumWhere(s, key, k)
    ensures RowsTotal(rows) == TotalReceita(s)
  {
    if s == [] then []
    else
      var rest := GroupSum(s[1..], key, lt);
      AccumulateAscending(rest, key(s[0]), s[0].receita, lt);
      AccumulateKeys(rest, key(s[0]), s[0].receita, lt);
      AccumulateTotal(rest, key(s[0]), s[0].receita, lt);
      forall k ensures Lookup(Accumulate(rest, key(s[0]), s[0].receita, lt), k) == SumWhere(s, key, k) {
        AccumulateLookup(rest, key(s[0]), s[0].receita, lt, k);
      }
      Accumulate(rest, key(s[0]), s[0].receita, lt)
  }

  /** In a table with distinct keys, looking up a row's key gives that row's value. */
  lemma {:induction false} LookupRow<K(!new)>(rows: seq<Row<K>>, lt: (K, K) -> bool, i: nat)
    requires StrictTotalOrder(lt)
    requires StrictlyAscending(rows, lt)
    requires i < |rows|
    ensures Lookup(rows, rows[i].0) == rows[i].1
  {
    if i > 0 {
      assert lt(rows[0].0, rows[i].0);
      LookupRow(rows[1..], lt, i - 1);
    }
  }

  /** A table with distinct keys has one row per key. */
  lemma {:induction false} RowsPerKey<K(!new)>(rows: seq<Row<K>>, lt: (K, K) -> bool)
    requires StrictTotalOrder(lt)
    requires StrictlyAscending(rows, lt)
    ensures |KeysOf(rows)| == |rows|
  {
    if rows != [] {
      RowsPerKey(rows[1..], lt);
      forall x | x in KeysOf(rows[1..]) ensures x != rows[0].0 {
        KeysOfBelow(rows[1..], rows[0].0, x, lt);
      }
    }
  }

  /** A key that no record has sums to zero. */
  lemma {:induction false} SumWhereAbsent<K>(s: seq<Record>, key: Record -> K, k: K)
    requires k !in KeySet(s, key)
    ensures SumWhere(s, key, k) == 0.0
  {
    if s != [] {
      SumWhereAbsent(s[1..], key, k);
    }
  }

  /** Each result row holds the summed revenue of exactly the records with its key. */
  lemma GroupSumRow<K(!new)>(s: seq<Record>, key: Record -> K, lt: (K, K) -> bool, i: nat)
    requires StrictTotalOrder(lt)
    requires i < |GroupSum(s, key, lt)|
    ensures GroupSum(s, key, lt)[i].1 == SumWhere(s, key, GroupSum(s, key, lt)[i].0)
    ensures GroupSum(s, key, lt)[i].0 in KeySet(s, key)
  {
    LookupRow(GroupSum(s, key, lt), lt, i);
    KeysOfMember(GroupSum(s, key, lt), i);
  }

  /** There are exactly as many rows as distinct keys. */
  lemma GroupSumSize<K(!new)>(s: seq<Record>, key: Record -> K, lt: (K, K) -> bool)
    requires StrictTotalOrder(lt)
    ensures |GroupSum(s, key, lt)| == |KeySet(s, key)|
  {
    RowsPerKey(GroupSum(s, key, lt), lt);
  }

  /** Grouping by two key functions that agree on every record gives the same table. */
  lemma {:induction false} GroupSumSameKeys<K(!new)>(s: seq<Record>, key1: Record -> K, key2: Record -> K, lt: (K, K) -> bool)
    requires StrictTotalOrder(lt)
    requires forall i :: 0 <= i < |s| ==> key1(s[i]) == key2(s[i])
    ensures GroupSum(s, key1, lt) == GroupSum(s, key2, lt)
  {
    if s != [] {
      GroupSumSameKeys(s[1..], key1, key2, lt);
    }
  }

  lemma GroupSumRows<K(!new)>(s: seq<Record>, key: Record -> K, lt: (K, K) -> bool)
    requires StrictTotalOrder(lt)
    ensures forall i :: 0 <= i < |GroupSum(s, key, lt)| ==>
      GroupSum(s, key, lt)[i].1 == SumWhere(s, key, GroupSum(s, key, lt)[i].0)
    ensures |GroupSum(s, key, lt)| == |KeySet(s, key)|
  {
    forall i | 0 <= i < |GroupSum(s, key, lt)|
      ensures GroupSum(s, key, lt)[i].1 == SumWhere(s, key, GroupSum(s, key, lt)[i].0)
    {
      GroupSumRow(s, key, lt, i);
    }
    GroupSumSize(s, key, lt);
  }

  lemma {:induction false} KeySetMember<K>(s: seq<Record>, key: Record -> K, i: nat)
    requires i < |s|
    ensures key(s[i]) in KeySet(s, key)
  {
    if i > 0 {
      KeySetMember(s[1..], key, i - 1);
    }
  }

  lemma {:induction false} KeySetHasIndex<K>(s: seq<Record>, key: Record -> K, k: K) returns (i: nat)
    requires k in KeySet(s, key)
    ensures i < |s| && key(s[i]) == k
  {
    if key(s[0]) == k {
      i := 0;
    } else {
      var j := KeySetHasIndex(s[1..], key, k);
      i := j + 1;
    }
  }

  /** A row's key is among the keys exactly when some row of the table carries it. */
  lemma KeySetIndex<K>(s: seq<Record>, key: Record -> K, k: K)
    ensures k in KeySet(s, key) <==> exists i :: 0 <= i < |s| && key(s[i]) == k
  {
    if k in KeySet(s, key) {
      var i := KeySetHasIndex(s, key, k);
    }
    forall i | 0 <= i < |s| && key(s[i]) == k ensures k in KeySet(s, key) {
      KeySetMember(s, key, i);
    }
  }

  lemma KeysOfRows<K>(rows: seq<Row<K>>, x: K)
    ensures x in KeysOf(rows) <==> exists i :: 0 <= i < |rows| && rows[i].0 == x
  {
    if x in KeysOf(rows) {
      var i := KeysOfHasIndex(rows, x);
    }
    if exists i :: 0 <= i < |rows| && rows[i].0 == x {
      var i :| 0 <= i < |rows| && rows[i].0 == x;
      KeysOfMember(rows, i);
    }
  }

  /** Tables holding the same rows carry the same keys. */
  lemma KeysOfSameRows<K>(a: seq<Row<K>>, b: seq<Row<K>>)
    requires multiset(a) <= multiset(b)
    ensures KeysOf(a) <= KeysOf(b)
  {
    forall x | x in KeysOf(a) ensures x in KeysOf(b) {
      var i := KeysOfHasIndex(a, x);
      assert a[i] in multiset(b);
      var j :| 0 <= j < |b| && b[j] == a[i];
      KeysOfMember(b, j);
    }
  }
}
