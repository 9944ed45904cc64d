/** A table as the sequence of its rows in insertion order, with a primary key. */
module Rows {
  import opened Basics

  predicate Unique<T>(rows: seq<T>, key: T -> Id) {
    forall i, j :: 0 <= i < j < |rows| ==> key(rows[i]) != key(rows[j])
  }

  /** The position of the row with this primary key. */
  function Position<T>(rows: seq<T>, key: T -> Id, id: Id): (i: Option<nat>)
    ensures i.Some? ==> i.value < |rows| && key(rows[i.value]) == id
    ensures i.None? ==> forall r :: r in rows ==> key(r) != id
  {
    if rows == [] then None
    else if key(rows[|rows| - 1]) == id then Some(|rows| - 1)
    else Position(rows[..|rows| - 1], key, id)
  }

  /** `SELECT ... WHERE id = ...` */
  function Lookup<T>(rows: seq<T>, key: T -> Id, id: Id): (row: Option<T>)
    ensures row.Some? ==> row.value in rows && key(row.value) == id
    ensures row.None? ==> forall r :: r in rows ==> key(r) != id
  {
    var i := Position(rows, key, id);
    if i.None? then None else Some(rows[i.value])
  }

  /** `SELECT ... WHERE ...` of at most one row. */
  function Find<T>(rows: seq<T>, holds: T -> bool): (row: Option<T>)
    ensures row.Some? ==> row.value in rows && holds(row.value)
    ensures row.None? ==> forall r :: r in rows ==> !holds(r)
  {
    if rows == [] then None
    else if holds(rows[|rows| - 1]) then Some(rows[|rows| - 1])
    else Find(rows[..|rows| - 1], holds)
  }

  datatype Change<T> = Insert(row: T) | Update(row: T) | Delete(row: T)

  /** A table after one change. An UPDATE or DELETE that matches no row changes nothing. */
  function Changed<T>(rows: seq<T>, key: T -> Id, change: Change<T>): seq<T> {
    match change
    case Insert(row) => rows + [row]
    case Update(row) =>
      var i := Position(rows, key, key(row));
      if i.None? then rows else rows[i.value := row]
    case Delete(row) =>
      var i := Position(rows, key, key(row));
      if i.None? then rows else rows[..i.value] + rows[i.value + 1..]
  }

  predicate MatchesRow<T>(rows: seq<T>, key: T -> Id, change: Change<T>) {
    change.Insert? || Position(rows, key, key(change.row)).Some?
  }

  // --- what a primary key gives ----------------------------------------------------------------

  /** A primary key names one row. */
  lemma SameRow<T>(rows: seq<T>, key: T -> Id, a: T, b: T)
    requires Unique(rows, key) && a in rows && b in rows && key(a) == key(b)
    ensures a == b
  {
    var i :| 0 <= i < |rows| && rows[i] == a;
    var j :| 0 <= j < |rows| && rows[j] == b;
  }

  lemma FindsRow<T>(rows: seq<T>, key: T -> Id, row: T)
    requires Unique(rows, key) && row in rows
    ensures Lookup(rows, key, key(row)) == Some(row)
  {
    SameRow(rows, key, row, Lookup(rows, key, key(row)).value);
  }

  /** An insert keeps the key exactly when it is new. */
  lemma InsertUnique<T>(rows: seq<T>, key: T -> Id, row: T)
    requires Unique(rows, key)
    ensures Unique(rows + [row], key) <==> forall r :: r in rows ==> key(r) != key(row)
  {
    var after := rows + [row];
    if Unique(after, key) {
      forall r | r in rows ensures key(r) != key(row) {
        var i :| 0 <= i < |rows| && rows[i] == r;
        assert key(after[i]) != key(after[|rows|]);
      }
    }
  }

  /** An update that reaches a row replaces it and leaves every other row as it is. */
  lemma UpdateMembers<T>(rows: seq<T>, key: T -> Id, row: T)
    requires Unique(rows, key) && Position(rows, key, key(row)).Some?
    ensures var after := Changed(rows, key, Update(row));
            && Unique(after, key)
            && row in after
            && forall r :: r in after <==> r == row || (r in rows && key(r) != key(row))
  {
    var i := Position(rows, key, key(row)).value;
    var after := rows[i := row];
    assert after[i] == row;
    forall r | r in rows && key(r) != key(row) ensures r in after {
      var k :| 0 <= k < |rows| && rows[k] == r;
      assert after[k] == r;
    }
    forall r | r in after && r != row ensures r in rows && key(r) != key(row) {
      var k :| 0 <= k < |after| && after[k] == r;
      assert rows[k] == r && k != i;
    }
    forall a, b | 0 <= a < b < |after| ensures key(after[a]) != key(after[b]) {
      assert key(after[a]) == key(rows[a]) && key(after[b]) == key(rows[b]);
    }
  }

  /** A delete that reaches a row removes it and leaves every other row as it is. */
  lemma DeleteMembers<T>(rows: seq<T>, key: T -> Id, row: T)
    requires Unique(rows, key) && Position(rows, key, key(row)).Some?
    ensures var after := Changed(rows, key, Delete(row));
            && Unique(after, key)
            && forall r :: r in after <==> r in rows && key(r) != key(row)
  {
    var i := Position(rows, key, key(row)).value;
    var after := Changed(rows, key, Delete(row));
    assert after == rows[..i] + rows[i + 1..];
    hide Changed;
    forall a, b | 0 <= a < b < |after| ensures key(after[a]) != key(after[b]) {
      WithoutAt(rows, i, a);
      WithoutAt(rows, i, b);
    }
    forall r | r in rows && key(r) != key(row) ensures r in after {
      var k :| 0 <= k < |rows| && rows[k] == r;
      WithoutAt(rows, i, k);
    }
    forall r | r in after ensures r in rows && key(r) != key(row) {
      var k :| 0 <= k < |after| && after[k] == r;
      WithoutAt(rows, i, k);
    }
  }
}
