/**
 * Tables keyed by an INTEGER PRIMARY KEY AUTOINCREMENT column: rows are kept
 * in rowid order, ids are positive, strictly increasing and below the next id
 * the table will hand out.
 */
module Tables {
  import opened Wrappers

  predicate Keyed<T>(rows: seq<T>, idOf: T -> int, next: int)
  {
    && (forall i :: 0 <= i < |rows| ==> 1 <= idOf(rows[i]) < next)
    && (forall i, j :: 0 <= i < j < |rows| ==> idOf(rows[i]) < idOf(rows[j]))
  }

  predicate HasId<T>(rows: seq<T>, idOf: T -> int, id: int)
  {
    exists i :: 0 <= i < |rows| && idOf(rows[i]) == id
  }

  /** The position of the first row with key `id`, or -1. */
  function IndexOf<T>(rows: seq<T>, idOf: T -> int, id: int): (k: int)
    ensures -1 <= k < |rows|
    ensures k >= 0 ==> idOf(rows[k]) == id
    ensures k >= 0 ==> forall i :: 0 <= i < k ==> idOf(rows[i]) != id
    ensures k < 0 <==> !HasId(rows, idOf, id)
  {
    if rows == [] then -1
    else if idOf(rows[0]) == id then 0
    else
      var k := IndexOf(rows[1..], idOf, id);
      assert forall i :: 1 <= i < |rows| ==> rows[i] == rows[1..][i - 1];
      if k < 0 then -1 else k + 1
  }

  /** `SELECT ... WHERE id = ?` on a primary key: the row, or `None`. */
  function Find<T>(rows: seq<T>, idOf: T -> int, id: int): (r: Option<T>)
    ensures r.Some? <==> HasId(rows, idOf, id)
    ensures r.Some? ==> r.value in rows && idOf(r.value) == id
  {
    var k := IndexOf(rows, idOf, id);
    if k < 0 then None else Some(rows[k])
  }

  function RemoveAt<T>(rows: seq<T>, k: nat): seq<T>
    requires k < |rows|
  {
    rows[..k] + rows[k + 1..]
  }

  /** In a keyed table a key names at most one row. */
  lemma KeyedUnique<T>(rows: seq<T>, idOf: T -> int, next: int, i: nat)
    requires Keyed(rows, idOf, next) && i < |rows|
    ensures IndexOf(rows, idOf, idOf(rows[i])) == i
    ensures forall j :: 0 <= j < |rows| && idOf(rows[j]) == idOf(rows[i]) ==> j == i
  {
  }

  /** Appending a row with the next id keeps the table keyed, under the advanced counter. */
  lemma KeyedAppend<T>(rows: seq<T>, idOf: T -> int, next: int, row: T)
    requires Keyed(rows, idOf, next) && idOf(row) == next && next >= 1
    ensures Keyed(rows + [row], idOf, next + 1)
  {
  }

  /** Deleting a row keeps the table keyed, and the deleted id is gone. */
  lemma KeyedRemove<T>(rows: seq<T>, idOf: T -> int, next: int, k: nat)
    requires Keyed(rows, idOf, next) && k < |rows|
    ensures Keyed(RemoveAt(rows, k), idOf, next)
    ensures !HasId(RemoveAt(rows, k), idOf, idOf(rows[k]))
  {
    var r := RemoveAt(rows, k);
    assert forall i :: 0 <= i < |r| ==> r[i] == (if i < k then rows[i] else rows[i + 1]);
  }

  /** Deleting the row at `k` keeps exactly the rows with another key. */
  lemma RemoveAtMembers<T>(rows: seq<T>, idOf: T -> int, next: int, k: nat)
    requires Keyed(rows, idOf, next) && k < |rows|
    ensures forall x :: x in RemoveAt(rows, k) <==> x in rows && idOf(x) != idOf(rows[k])
  {
    var rest := RemoveAt(rows, k);
    KeyedRemove(rows, idOf, next, k);
    assert forall i :: 0 <= i < |rest| ==> rest[i] == (if i < k then rows[i] else rows[i + 1]);
    forall x | x in rows && idOf(x) != idOf(rows[k])
      ensures x in rest
    {
      var i :| 0 <= i < |rows| && rows[i] == x;
      assert x == rest[if i < k then i else i - 1];
    }
  }

  /** Rewriting a row in place without changing its key keeps the table keyed. */
  lemma KeyedReplace<T>(rows: seq<T>, idOf: T -> int, next: int, k: nat, row: T)
    requires Keyed(rows, idOf, next) && k < |rows| && idOf(row) == idOf(rows[k])
    ensures Keyed(rows[k := row], idOf, next)
  {
  }

  /** A larger counter bound is still a bound. */
  lemma KeyedWeaken<T>(rows: seq<T>, idOf: T -> int, next: int, next': int)
    requires Keyed(rows, idOf, next) && next <= next'
    ensures Keyed(rows, idOf, next')
  {
  }
}
