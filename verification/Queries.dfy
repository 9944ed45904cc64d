/**
 SELECT over tables: an output row for every combination of rows that the joins and conditions let
 through. SQL leaves the order open; it is that of nested loops here, and nothing depends on it.
 */
module Queries {
  import opened Basics
  import opened Rows
  import opened Sums

  /** The rows that each row gives, one after the other. */
  function FlatMap<A, B>(rows: seq<A>, f: A -> seq<B>): seq<B> {
    if rows == [] then [] else FlatMap(rows[..|rows| - 1], f) + f(rows[|rows| - 1])
  }

  /** `JOIN rows ON on`, with what the rest of the query gives for each match. */
  function Joined<A, B>(rows: seq<A>, on: A -> bool, out: A -> seq<B>): seq<B> {
    FlatMap(rows, (a: A) => if on(a) then out(a) else [])
  }

  lemma {:induction false} FlatMapMembers<A, B>(rows: seq<A>, f: A -> seq<B>, b: B)
    ensures b in FlatMap(rows, f) <==> exists a :: a in rows && b in f(a)
  {
    if rows != [] {
      var front, last := rows[..|rows| - 1], rows[|rows| - 1];
      FlatMapMembers(front, f, b);
      assert last in rows && forall a :: a in rows <==> a in front || a == last;
    }
  }

  lemma {:induction false} FlatMapAppend<A, B>(a: seq<A>, b: seq<A>, f: A -> seq<B>)
    ensures FlatMap(a + b, f) == FlatMap(a, f) + FlatMap(b, f)
  {
    if b == [] {
      assert a + b == a;
    } else {
      assert (a + b)[..|a + b| - 1] == a + b[..|b| - 1];
      FlatMapAppend(a, b[..|b| - 1], f);
    }
  }

  lemma FlatMapSingle<A, B>(a: A, f: A -> seq<B>)
    ensures FlatMap([a], f) == f(a)
  {
    assert [a][..0] == [];
  }

  lemma {:induction false} FlatMapEqual<A, B>(rows: seq<A>, f: A -> seq<B>, g: A -> seq<B>)
    requires forall a :: a in rows ==> f(a) == g(a)
    ensures FlatMap(rows, f) == FlatMap(rows, g)
  {
    if rows != [] {
      assert rows[|rows| - 1] in rows;
      FlatMapEqual(rows[..|rows| - 1], f, g);
    }
  }

  lemma {:induction false} FlatMapNone<A, B>(rows: seq<A>, f: A -> seq<B>)
    requires forall a :: a in rows ==> f(a) == []
    ensures FlatMap(rows, f) == []
  {
    if rows != [] {
      assert rows[|rows| - 1] in rows;
      FlatMapNone(rows[..|rows| - 1], f);
    }
  }

  /** Only one row gives anything. */
  lemma {:induction false} FlatMapOne<A, B>(rows: seq<A>, i: nat, f: A -> seq<B>)
    requires i < |rows| && forall k :: 0 <= k < |rows| && k != i ==> f(rows[k]) == []
    ensures FlatMap(rows, f) == f(rows[i])
  {
    var n := |rows| - 1;
    if i == n {
      FlatMapNone(rows[..n], f);
    } else {
      FlatMapOne(rows[..n], i, f);
    }
  }

  /** A query over the result of a query. */
  lemma {:induction false} FlatMapFlatMap<A, B, C>(rows: seq<A>, f: A -> seq<B>, g: B -> seq<C>, h: A -> seq<C>)
    requires forall a :: a in rows ==> h(a) == FlatMap(f(a), g)
    ensures FlatMap(FlatMap(rows, f), g) == FlatMap(rows, h)
  {
    if rows != [] {
      var n := |rows| - 1;
      assert rows[n] in rows;
      FlatMapFlatMap(rows[..n], f, g, h);
      FlatMapAppend(FlatMap(rows[..n], f), f(rows[n]), g);
    }
  }

  /** An aggregate over the result of a query. */
  lemma {:induction false} FlatMapSum<A, B>(rows: seq<A>, f: A -> seq<B>, g: B -> int, h: A -> int)
    requires forall a :: a in rows ==> h(a) == Sum(f(a), g)
    ensures Sum(FlatMap(rows, f), g) == Sum(rows, h)
  {
    if rows != [] {
      var n := |rows| - 1;
      assert rows[n] in rows;
      FlatMapSum(rows[..n], f, g, h);
      SumAppend(FlatMap(rows[..n], f), f(rows[n]), g);
    }
  }

  lemma JoinedSum<A, B>(rows: seq<A>, on: A -> bool, out: A -> seq<B>, g: B -> int, h: A -> int)
    requires forall a :: a in rows ==> h(a) == if on(a) then Sum(out(a), g) else 0
    ensures Sum(Joined(rows, on, out), g) == Sum(rows, h)
  {
    FlatMapSum(rows, (a: A) => if on(a) then out(a) else [], g, h);
  }

  /** A join in which one row matches. */
  lemma JoinedOnce<A, B>(rows: seq<A>, key: A -> Id, row: A, on: A -> bool, out: A -> seq<B>)
    requires Unique(rows, key) && row in rows && on(row) && forall a :: a in rows && on(a) ==> a == row
    ensures Joined(rows, on, out) == out(row)
  {
    var i :| 0 <= i < |rows| && rows[i] == row;
    forall k | 0 <= k < |rows| && k != i ensures !on(rows[k]) {
      assert key(rows[k]) != key(rows[i]);
    }
    FlatMapOne(rows, i, (a: A) => if on(a) then out(a) else []);
  }

  lemma JoinedNever<A, B>(rows: seq<A>, on: A -> bool, out: A -> seq<B>)
    requires forall a :: a in rows ==> !on(a)
    ensures Joined(rows, on, out) == []
  {
    FlatMapNone(rows, (a: A) => if on(a) then out(a) else []);
  }

  lemma JoinedSingle<A, B>(a: A, on: A -> bool, out: A -> seq<B>)
    ensures Joined([a], on, out) == if on(a) then out(a) else []
  {
    FlatMapSingle(a, (a: A) => if on(a) then out(a) else []);
  }

  /** A join with the result of a query. */
  lemma JoinedFlatMap<A, B, C>(rows: seq<A>, f: A -> seq<B>, on: B -> bool, out: B -> seq<C>, h: A -> seq<C>)
    requires forall a :: a in rows ==> h(a) == Joined(f(a), on, out)
    ensures Joined(FlatMap(rows, f), on, out) == FlatMap(rows, h)
  {
    FlatMapFlatMap(rows, f, (b: B) => if on(b) then out(b) else [], h);
  }

  // --- primary keys of what is inserted --------------------------------------------------------

  ghost predicate KeysApart<T>(a: seq<T>, b: seq<T>, key: T -> Id) {
    forall x, y :: x in a && y in b ==> key(x) != key(y)
  }

  lemma UniqueAppend<T>(a: seq<T>, b: seq<T>, key: T -> Id)
    requires Unique(a, key) && Unique(b, key) && KeysApart(a, b, key)
    ensures Unique(a + b, key)
  {
    var all := a + b;
    forall i, j | 0 <= i < j < |all| ensures key(all[i]) != key(all[j]) {
      if i < |a| <= j {
        assert all[i] in a && all[j] in b;
      }
    }
  }

  /** Rows given by different rows have different keys. */
  lemma {:induction false} UniqueFlatMap<A, B>(rows: seq<A>, f: A -> seq<B>, key: B -> Id)
    requires forall a :: a in rows ==> Unique(f(a), key)
    requires forall i, j :: 0 <= i < j < |rows| ==> KeysApart(f(rows[i]), f(rows[j]), key)
    ensures Unique(FlatMap(rows, f), key)
  {
    if rows != [] {
      var n := |rows| - 1;
      var front := rows[..n];
      assert rows[n] in rows;
      UniqueFlatMap(front, f, key);
      forall x, y | x in FlatMap(front, f) && y in f(rows[n]) ensures key(x) != key(y) {
        FlatMapMembers(front, f, x);
        var a :| a in front && x in f(a);
        var i :| 0 <= i < |front| && front[i] == a;
        assert KeysApart(f(rows[i]), f(rows[n]), key);
      }
      UniqueAppend(FlatMap(front, f), f(rows[n]), key);
    }
  }
}
