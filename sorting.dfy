/** SQL `ORDER BY` over a selection of rows: the result is every selected row, in key order. */
module Sorting {
  import opened Seqs

  /** `le` orders every pair of values and is transitive. */
  ghost predicate TotalPreorder<T(!new)>(le: (T, T) -> bool)
  {
    && (forall a, b :: le(a, b) || le(b, a))
    && (forall a, b, c :: le(a, b) && le(b, c) ==> le(a, c))
  }

  predicate SortedBy<T>(s: seq<T>, le: (T, T) -> bool)
  {
    forall i, j :: 0 <= i < j < |s| ==> le(s[i], s[j])
  }

  /** Inserts `x` after every element that is ordered before or with it. */
  function Insert<T>(s: seq<T>, x: T, le: (T, T) -> bool): (r: seq<T>)
    ensures multiset(r) == multiset(s) + multiset{x}
  {
    if s == [] then [x]
    else if le(s[0], x) then
      assert s == [s[0]] + s[1..];
      [s[0]] + Insert(s[1..], x, le)
    else [x] + s
  }

  lemma {:induction false} InsertSorted<T(!new)>(s: seq<T>, x: T, le: (T, T) -> bool)
    requires TotalPreorder(le) && SortedBy(s, le)
    ensures SortedBy(Insert(s, x, le), le)
  {
    if s != [] {
      if le(s[0], x) {
        InsertSorted(s[1..], x, le);
        var r := Insert(s, x, le);
        forall j | 1 <= j < |r|
          ensures le(r[0], r[j])
        {
          assert r[j] in multiset(s[1..]) + multiset{x} by { assert r[j] in r[1..]; }
          if r[j] != x {
            var k :| 0 <= k < |s[1..]| && s[1..][k] == r[j];
            assert s[k + 1] == r[j];
          }
        }
      } else {
        assert le(x, s[0]);
      }
    }
  }

  /**
   * The rows of `rows` that satisfy `keep`, ordered by `le`: a query's WHERE
   * and ORDER BY together with the loop that appends its result rows to a
   * mutable list. The table is walked in rowid order and each matching row is
   * inserted into its sorted place, standing in for SQLite's sorter.
   */
  method SelectOrdered<T(!new)>(rows: seq<T>, keep: T -> bool, le: (T, T) -> bool) returns (list: seq<T>)
    requires TotalPreorder(le)
    ensures multiset(list) == multiset(Filter(rows, keep))
    ensures SortedBy(list, le)
  {
    list := [];
    var i := 0;
    while i < |rows|
      invariant 0 <= i <= |rows|
      invariant multiset(list) == multiset(Filter(rows[..i], keep))
      invariant SortedBy(list, le)
    {
      FilterPrefixStep(rows, i, keep);
      if keep(rows[i]) {
        InsertSorted(list, rows[i], le);
        list := Insert(list, rows[i], le);
      }
      i := i + 1;
    }
    assert rows[..|rows|] == rows;
  }
}
