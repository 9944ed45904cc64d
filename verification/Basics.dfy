/** Types and functions that every group of modules uses. */
module Basics {
  /** Primary keys. The source uses UUIDs; only their equality matters. */
  type Id = nat

  datatype Option<+T> = None | Some(value: T)

  function Max(a: int, b: int): int {
    if a < b then b else a
  }

  function Min(a: int, b: int): int {
    if a < b then a else b
  }

  /** Where the elements of a sequence are once one of them is left out. */
  lemma WithoutAt<T>(s: seq<T>, k: nat, m: nat)
    requires k < |s|
    ensures var rest := s[..k] + s[k + 1..];
            && (m < |rest| ==> rest[m] == s[if m < k then m else m + 1])
            && (m < |s| && m != k ==> rest[if m < k then m else m - 1] == s[m])
  {
  }
}
