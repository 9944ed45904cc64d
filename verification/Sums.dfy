/**
 Finite sums over tables. A table is a sequence of rows in insertion order; an SQL aggregate
 `COALESCE(sum(x) FILTER (WHERE c), 0)` is `Sum(rows, r => if c(r) then x(r) else 0)`.
 */
module Sums {
  import opened Basics

  function Sum<T>(rows: seq<T>, f: T -> int): int {
    if rows == [] then 0 else Sum(rows[..|rows| - 1], f) + f(rows[|rows| - 1])
  }

  lemma SumOne<T>(a: T, f: T -> int)
    ensures Sum([a], f) == f(a)
  {
    assert [a][..0] == [];
  }

  lemma SumTwo<T>(a: T, b: T, f: T -> int)
    ensures Sum([a, b], f) == f(a) + f(b)
  {
    assert [a, b][..1] == [a];
    SumOne(a, f);
  }

  lemma {:induction false} SumAppend<T>(a: seq<T>, b: seq<T>, f: T -> int)
    ensures Sum(a + b, f) == Sum(a, f) + Sum(b, f)
  {
    if b == [] {
      assert a + b == a;
    } else {
      var n := |b| - 1;
      assert (a + b)[..|a + b| - 1] == a + b[..n];
      SumAppend(a, b[..n], f);
    }
  }

  lemma {:induction false} SumEqual<T>(rows: seq<T>, f: T -> int, g: T -> int)
    requires forall r :: r in rows ==> f(r) == g(r)
    ensures Sum(rows, f) == Sum(rows, g)
  {
    if rows != [] {
      assert rows[|rows| - 1] in rows;
      SumEqual(rows[..|rows| - 1], f, g);
    }
  }

  lemma {:induction false} SumZero<T>(rows: seq<T>, f: T -> int)
    requires forall r :: r in rows ==> f(r) == 0
    ensures Sum(rows, f) == 0
  {
    if rows != [] {
      assert rows[|rows| - 1] in rows;
      SumZero(rows[..|rows| - 1], f);
    }
  }

  lemma {:induction false} SumNonNegative<T>(rows: seq<T>, f: T -> int)
    requires forall r :: r in rows ==> 0 <= f(r)
    ensures 0 <= Sum(rows, f)
  {
    if rows != [] {
      assert rows[|rows| - 1] in rows;
      SumNonNegative(rows[..|rows| - 1], f);
    }
  }

  lemma {:induction false} SumPlus<T>(rows: seq<T>, f: T -> int, g: T -> int, h: T -> int)
    requires forall r :: r in rows ==> h(r) == f(r) + g(r)
    ensures Sum(rows, h) == Sum(rows, f) + Sum(rows, g)
  {
    if rows != [] {
      assert rows[|rows| - 1] in rows;
      SumPlus(rows[..|rows| - 1], f, g, h);
    }
  }

  /** Splitting a table around one row. */
  lemma SumAt<T>(rows: seq<T>, i: nat, f: T -> int)
    requires i < |rows|
    ensures Sum(rows, f) == Sum(rows[..i], f) + f(rows[i]) + Sum(rows[i + 1..], f)
  {
    var before, after := rows[..i + 1], rows[i + 1..];
    assert rows == before + after;
    SumAppend(before, after, f);
    assert before[..i] == rows[..i];
  }

  lemma SumRemove<T>(rows: seq<T>, i: nat, f: T -> int)
    requires i < |rows|
    ensures Sum(rows[..i] + rows[i + 1..], f) == Sum(rows, f) - f(rows[i])
  {
    SumAt(rows, i, f);
    SumAppend(rows[..i], rows[i + 1..], f);
  }

  lemma SumUpdate<T>(rows: seq<T>, i: nat, row: T, f: T -> int)
    requires i < |rows|
    ensures Sum(rows[i := row], f) == Sum(rows, f) - f(rows[i]) + f(row)
  {
    var after := rows[i := row];
    SumAt(rows, i, f);
    SumAt(after, i, f);
    assert after[..i] == rows[..i] && after[i + 1..] == rows[i + 1..];
  }

  /** Row totals and column totals of a two-way table. */
  function Across<A, B>(bs: seq<B>, cell: (A, B) -> int): A -> int {
    a => Sum(bs, b => cell(a, b))
  }

  function Down<A, B>(as_: seq<A>, cell: (A, B) -> int): B -> int {
    b => Sum(as_, a => cell(a, b))
  }

  lemma AcrossAt<A, B>(bs: seq<B>, cell: (A, B) -> int, a: A, f: B -> int)
    requires forall b :: b in bs ==> f(b) == cell(a, b)
    ensures Across(bs, cell)(a) == Sum(bs, f)
  {
    SumEqual(bs, f, b => cell(a, b));
  }

  lemma DownAt<A, B>(as_: seq<A>, cell: (A, B) -> int, b: B, f: A -> int)
    requires forall a :: a in as_ ==> f(a) == cell(a, b)
    ensures Down(as_, cell)(b) == Sum(as_, f)
  {
    SumEqual(as_, f, a => cell(a, b));
  }

  /** Fubini: adding a two-way table by rows or by columns gives the same total. */
  lemma {:induction false} SumSwap<A, B>(as_: seq<A>, bs: seq<B>, cell: (A, B) -> int)
    ensures Sum(as_, Across(bs, cell)) == Sum(bs, Down(as_, cell))
  {
    if as_ == [] {
      SumZero(bs, Down(as_, cell));
    } else {
      var n := |as_| - 1;
      var last := as_[n];
      SumSwap(as_[..n], bs, cell);
      var column: B -> int := b => cell(last, b);
      SumPlus(bs, Down(as_[..n], cell), column, Down(as_, cell));
      SumEqual(bs, column, b => cell(last, b));
    }
  }

  /** Exactly one row of the table contributes. */
  lemma {:induction false} SumExactlyOne<T>(rows: seq<T>, i: nat, f: T -> int)
    requires i < |rows|
    requires forall k :: 0 <= k < |rows| && k != i ==> f(rows[k]) == 0
    ensures Sum(rows, f) == f(rows[i])
  {
    SumAt(rows, i, f);
    SumZero(rows[..i], f);
    SumZero(rows[i + 1..], f);
  }

  ghost predicate MatchedBy<A, B>(a: A, bs: seq<B>, k: int, same: (A, B) -> bool) {
    0 <= k < |bs| && same(a, bs[k])
  }

  /** Every contributing row of one table has a larger counterpart in another. */
  ghost predicate AllMatched<A, B>(as_: seq<A>, bs: seq<B>, f: A -> int, g: B -> int, same: (A, B) -> bool) {
    forall i :: 0 <= i < |as_| && f(as_[i]) > 0 ==> exists k :: MatchedBy(as_[i], bs, k, same) && f(as_[i]) <= g(bs[k])
  }

  /** No two contributing rows share a counterpart. */
  ghost predicate NoneShared<A, B>(as_: seq<A>, bs: seq<B>, f: A -> int, same: (A, B) -> bool) {
    forall i, j, k | 0 <= i < j < |as_| && f(as_[i]) > 0 && f(as_[j]) > 0 && MatchedBy(as_[i], bs, k, same) ::
      !MatchedBy(as_[j], bs, k, same)
  }

  lemma MatchesWithout<A, B>(as_: seq<A>, bs: seq<B>, f: A -> int, g: B -> int, same: (A, B) -> bool, k: nat)
    requires as_ != [] && f(as_[|as_| - 1]) > 0 && MatchedBy(as_[|as_| - 1], bs, k, same)
    requires AllMatched(as_, bs, f, g, same) && NoneShared(as_, bs, f, same)
    ensures AllMatched(as_[..|as_| - 1], bs[..k] + bs[k + 1..], f, g, same)
  {
    var front, rest := as_[..|as_| - 1], bs[..k] + bs[k + 1..];
    forall i | 0 <= i < |front| && f(front[i]) > 0
      ensures exists m :: MatchedBy(front[i], rest, m, same) && f(front[i]) <= g(rest[m])
    {
      assert front[i] == as_[i];
      var m :| MatchedBy(as_[i], bs, m, same) && f(as_[i]) <= g(bs[m]);
      WithoutAt(bs, k, m);
      assert MatchedBy(front[i], rest, if m < k then m else m - 1, same);
    }
  }

  lemma ApartWithout<A, B>(as_: seq<A>, bs: seq<B>, f: A -> int, same: (A, B) -> bool, k: nat)
    requires as_ != [] && k < |bs| && NoneShared(as_, bs, f, same)
    ensures NoneShared(as_[..|as_| - 1], bs[..k] + bs[k + 1..], f, same)
  {
    var front, rest := as_[..|as_| - 1], bs[..k] + bs[k + 1..];
    forall i, j, m | 0 <= i < j < |front| && f(front[i]) > 0 && f(front[j]) > 0 && MatchedBy(front[i], rest, m, same)
      ensures !MatchedBy(front[j], rest, m, same)
    {
      WithoutAt(bs, k, m);
      assert front[i] == as_[i] && front[j] == as_[j];
      assert MatchedBy(as_[i], bs, if m < k then m else m + 1, same);
    }
  }

  /** If every contributing row of one table has its own, larger counterpart in another, so has the sum. */
  lemma {:induction false} SumMatched<A, B>(as_: seq<A>, bs: seq<B>, f: A -> int, g: B -> int, same: (A, B) -> bool)
    requires forall b :: b in bs ==> 0 <= g(b)
    requires AllMatched(as_, bs, f, g, same) && NoneShared(as_, bs, f, same)
    ensures Sum(as_, f) <= Sum(bs, g)
    decreases |as_|
  {
    if as_ == [] {
      SumNonNegative(bs, g);
    } else {
      var n := |as_| - 1;
      if f(as_[n]) <= 0 {
        SumMatched(as_[..n], bs, f, g, same);
      } else {
        var k :| MatchedBy(as_[n], bs, k, same) && f(as_[n]) <= g(bs[k]);
        MatchesWithout(as_, bs, f, g, same, k);
        ApartWithout(as_, bs, f, same, k);
        SumMatched(as_[..n], bs[..k] + bs[k + 1..], f, g, same);
        SumRemove(bs, k, g);
      }
    }
  }
}
