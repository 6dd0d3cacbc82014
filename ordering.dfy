/** Row ordering that both stores are asked for: newest first by a creation-time key.
    The database is foreign code; the model gives it a definite meaning with a stable
    insertion sort, so rows with equal keys keep their table order. */
module Ordering {

  ghost predicate SortedDesc<T>(rows: seq<T>, key: T -> int) {
    forall i, j :: 0 <= i < j < |rows| ==> key(rows[i]) >= key(rows[j])
  }

  /** A row whose key is not below the first key of a sorted list can go in front of it. */
  lemma SortedCons<T>(h: T, rest: seq<T>, key: T -> int)
    requires SortedDesc(rest, key)
    requires rest != [] ==> key(h) >= key(rest[0])
    ensures SortedDesc([h] + rest, key)
  {
    var r := [h] + rest;
    forall i, j | 0 <= i < j < |r| ensures key(r[i]) >= key(r[j]) {
      if i == 0 {
        assert r[j] == rest[j - 1];
        if j > 1 { assert key(rest[0]) >= key(rest[j - 1]); }
      } else {
        assert r[i] == rest[i - 1] && r[j] == rest[j - 1];
      }
    }
  }

  /** Inserts `x` in front of the first row whose key is not larger than its own. */
  function InsertDesc<T>(x: T, rows: seq<T>, key: T -> int): (r: seq<T>)
    requires SortedDesc(rows, key)
    ensures |r| == |rows| + 1
    ensures multiset(r) == multiset(rows) + multiset{x}
    ensures SortedDesc(r, key)
    ensures r[0] == x || (rows != [] && r[0] == rows[0])
  {
    if rows == [] || key(x) >= key(rows[0]) then
      SortedCons(x, rows, key);
      [x] + rows
    else
      assert rows == [rows[0]] + rows[1..];
      var rest := InsertDesc(x, rows[1..], key);
      SortedCons(rows[0], rest, key);
      [rows[0]] + rest
  }

  /** The rows, newest first. */
  function SortDesc<T>(rows: seq<T>, key: T -> int): (r: seq<T>)
    ensures multiset(r) == multiset(rows)
    ensures SortedDesc(r, key)
  {
    if rows == [] then []
    else
      assert rows == [rows[0]] + rows[1..];
      InsertDesc(rows[0], SortDesc(rows[1..], key), key)
  }

  /** Sorting keeps the number of rows and exactly the rows it was given. */
  lemma SortDescKeepsRows<T>(rows: seq<T>, key: T -> int)
    ensures |SortDesc(rows, key)| == |rows|
    ensures forall x :: x in SortDesc(rows, key) <==> x in rows
  {
    var r := SortDesc(rows, key);
    assert |multiset(r)| == |multiset(rows)|;
    forall x ensures x in r <==> x in rows {
      assert x in r <==> x in multiset(r);
      assert x in rows <==> x in multiset(rows);
    }
  }
}
