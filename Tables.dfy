/**
 * Generic relational helpers over tables kept as sequences of rows:
 * a first-match lookup (`findOne`), a filter (`where`, `Array.filter`)
 * and a descending sort (`order: { key: 'DESC' }`).
 */
module Tables {
  import opened Wrappers

  /** Index of the first row satisfying `p`, if any. */
  function IndexWhere<T>(rows: seq<T>, p: T -> bool): (r: Option<nat>)
    ensures r.Some? ==> r.value < |rows| && p(rows[r.value])
    ensures r.Some? ==> forall j :: 0 <= j < r.value ==> !p(rows[j])
    ensures r.None? <==> forall j :: 0 <= j < |rows| ==> !p(rows[j])
  {
    if |rows| == 0 then None
    else if p(rows[0]) then Some(0)
    else
      match IndexWhere(rows[1..], p)
      case None => None
      case Some(k) => Some(k + 1)
  }

  /**
   * The rows satisfying `p`, in table order: every matching row is kept as
   * often as the table holds it, and nothing else is. `FilterConcat` states
   * that the table order is kept.
   */
  function Filter<T(==)>(rows: seq<T>, p: T -> bool): (r: seq<T>)
    ensures |r| <= |rows|
    ensures forall x :: x in r ==> x in rows && p(x)
    ensures forall x :: x in rows && p(x) ==> x in r
    ensures forall i :: 0 <= i < |r| ==> p(r[i])
    ensures multiset(r) <= multiset(rows)
    ensures forall x :: x in rows ==> multiset(r)[x] == if p(x) then multiset(rows)[x] else 0
  {
    if |rows| == 0 then []
    else
      assert rows == [rows[0]] + rows[1..];
      (if p(rows[0]) then [rows[0]] else []) + Filter(rows[1..], p)
  }

  /** Filtering a concatenation filters each part and keeps them in order. */
  lemma {:induction false} FilterConcat<T>(a: seq<T>, b: seq<T>, p: T -> bool)
    ensures Filter(a + b, p) == Filter(a, p) + Filter(b, p)
  {
    if |a| == 0 {
      assert a + b == b;
    } else {
      assert (a + b)[1..] == a[1..] + b;
      FilterConcat(a[1..], b, p);
    }
  }

  /** Each row's key is at least the next row's key. */
  ghost predicate SortedDesc<T>(rows: seq<T>, key: T -> int)
  {
    forall i :: 0 < i < |rows| ==> key(rows[i - 1]) >= key(rows[i])
  }

  /** Inserts `x` into a descending sequence before the first row whose key does not exceed its own. */
  function InsertDesc<T(==)>(x: T, rows: seq<T>, key: T -> int): (r: seq<T>)
    requires SortedDesc(rows, key)
    ensures SortedDesc(r, key)
    ensures multiset(r) == multiset(rows) + multiset{x}
    ensures |r| == |rows| + 1
    ensures r[0] == x || (|rows| > 0 && r[0] == rows[0])
  {
    if |rows| == 0 || key(rows[0]) <= key(x) then [x] + rows
    else
      assert rows == [rows[0]] + rows[1..];
      [rows[0]] + InsertDesc(x, rows[1..], key)
  }

  /** A permutation of `rows` ordered by descending `key` (insertion sort). */
  function SortDesc<T(==)>(rows: seq<T>, key: T -> int): (r: seq<T>)
    ensures SortedDesc(r, key)
    ensures multiset(r) == multiset(rows)
    ensures |r| == |rows|
    ensures forall x :: x in r ==> x in rows
    ensures forall x :: x in rows ==> x in r
  {
    if |rows| == 0 then []
    else
      assert rows == [rows[0]] + rows[1..];
      var r := InsertDesc(rows[0], SortDesc(rows[1..], key), key);
      assert forall x :: x in r ==> x in multiset(r);
      assert forall x :: x in rows ==> x in multiset(rows);
      r
  }

  /** Neighbour-wise descending order is descending order between any two rows. */
  lemma {:induction false} SortedDescPairwise<T>(rows: seq<T>, key: T -> int, i: nat, j: nat)
    requires SortedDesc(rows, key)
    requires i <= j < |rows|
    ensures key(rows[i]) >= key(rows[j])
    decreases j - i
  {
    if i < j {
      SortedDescPairwise(rows, key, i + 1, j);
    }
  }

  /** A row whose key is at least the head's can be put in front of a descending sequence. */
  lemma ConsSortedDesc<T>(x: T, rows: seq<T>, key: T -> int)
    requires SortedDesc(rows, key)
    requires |rows| > 0 ==> key(x) >= key(rows[0])
    ensures SortedDesc([x] + rows, key)
  {
    var r := [x] + rows;
    forall i | 0 < i < |r|
      ensures key(r[i - 1]) >= key(r[i])
    {
      if i > 1 {
        assert r[i - 1] == rows[i - 2] && r[i] == rows[i - 1];
      }
    }
  }

  /** Filtering a descending sequence leaves it descending. */
  lemma {:induction false} FilterKeepsSortedDesc<T>(rows: seq<T>, p: T -> bool, key: T -> int)
    requires SortedDesc(rows, key)
    ensures SortedDesc(Filter(rows, p), key)
  {
    if |rows| > 0 {
      var tail := rows[1..];
      assert SortedDesc(tail, key) by {
        forall i | 0 < i < |tail|
          ensures key(tail[i - 1]) >= key(tail[i])
        {
          assert tail[i - 1] == rows[i] && tail[i] == rows[i + 1];
        }
      }
      FilterKeepsSortedDesc(tail, p, key);
      var rest := Filter(tail, p);
      if p(rows[0]) {
        if |rest| > 0 {
          assert rest[0] in tail;
          var j :| 0 <= j < |tail| && tail[j] == rest[0];
          SortedDescPairwise(rows, key, 0, j + 1);
        }
        ConsSortedDesc(rows[0], rest, key);
      }
    }
  }
}
