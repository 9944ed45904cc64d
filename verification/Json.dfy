/**
 JSON values as the Python runtime holds them, the canonical printer (sorted keys, no spaces,
 non-ASCII characters left as they are), and a reader for JSON text after RFC 8259 restricted to
 null, booleans, integers, strings, arrays and objects.
 */
module Json {
  import opened Basics

  datatype Json =
    | Null
    | Boolean(b: bool)
    | Number(n: int)
    | String(s: string)
    | Array(items: Items)
    | Object(members: Members)

  datatype Items = NoItems | Item(head: Json, tail: Items)

  /** The entries of a dictionary in insertion order. */
  datatype Members = NoMembers | Member(key: string, value: Json, rest: Members)

  /** `dict.get`; text with a repeated key keeps its last value. */
  function Get(m: Members, k: string): (v: Option<Json>)
    ensures v.Some? ==> v.value < m
  {
    match m
    case NoMembers => None
    case Member(key, value, rest) =>
      var later := Get(rest, k);
      if later.Some? then later else if key == k then Some(value) else None
  }

  predicate HasKey(m: Members, k: string) {
    Get(m, k).Some?
  }

  predicate DistinctKeys(m: Members) {
    m.NoMembers? || (!HasKey(m.rest, m.key) && DistinctKeys(m.rest))
  }

  /** A dictionary holds each key once, at every depth. */
  predicate Dictionaries(v: Json) {
    match v
    case Array(items) => DictionariesIn(items)
    case Object(members) => DistinctKeys(members) && DictionariesUnder(members)
    case _ => true
  }

  predicate DictionariesIn(items: Items) {
    items.NoItems? || (Dictionaries(items.head) && DictionariesIn(items.tail))
  }

  predicate DictionariesUnder(m: Members) {
    m.NoMembers? || (Dictionaries(m.value) && DictionariesUnder(m.rest))
  }

  lemma AddMember(key: string, value: Json, m: Members)
    requires Dictionaries(Object(m)) && Dictionaries(value) && !HasKey(m, key)
    ensures Dictionaries(Object(Member(key, value, m)))
    ensures forall k :: HasKey(Member(key, value, m), k) <==> k == key || HasKey(m, k)
  {
  }

  // --- equality as JSON values -----------------------------------------------------------------

  /** Equal as JSON values: objects are unordered, arrays are ordered. */
  ghost predicate SameJson(a: Json, b: Json)
    decreases a
  {
    match a
    case Array(items) => b.Array? && SameItems(items, b.items)
    case Object(members) => b.Object? && SameMembers(members, b.members)
    case _ => a == b
  }

  ghost predicate SameItems(a: Items, b: Items)
    decreases a
  {
    if a.NoItems? || b.NoItems? then a.NoItems? && b.NoItems?
    else SameJson(a.head, b.head) && SameItems(a.tail, b.tail)
  }

  ghost predicate SameMembers(a: Members, b: Members)
    decreases a
  {
    && (forall k :: HasKey(a, k) <==> HasKey(b, k))
    && (forall k :: HasKey(a, k) && HasKey(b, k) ==> SameJson(Get(a, k).value, Get(b, k).value))
  }

  // --- canonical order -------------------------------------------------------------------------

  /** Python orders strings by code point. */
  predicate Before(s: string, t: string)
    decreases |s|
  {
    if s == [] || t == [] then s == [] && t != []
    else if s[0] != t[0] then s[0] < t[0] else Before(s[1..], t[1..])
  }

  lemma FirstOrders(s: string, t: string)
    requires s != [] && t != [] && s[0] != t[0]
    ensures Before(s, t) <==> s[0] < t[0]
  {
  }

  function Insert(key: string, value: Json, m: Members): Members {
    if m.NoMembers? || Before(key, m.key) then Member(key, value, m)
    else Member(m.key, m.value, Insert(key, value, m.rest))
  }

  /** The value with every object's members in key order, at every depth. */
  function Canon(v: Json): Json {
    match v
    case Array(items) => Array(CanonItems(items))
    case Object(members) => Object(CanonMembers(members))
    case _ => v
  }

  function CanonItems(items: Items): Items {
    if items.NoItems? then NoItems else Item(Canon(items.head), CanonItems(items.tail))
  }

  function CanonMembers(m: Members): Members {
    if m.NoMembers? then NoMembers else Insert(m.key, Canon(m.value), CanonMembers(m.rest))
  }

  lemma InsertLater(key: string, value: Json, m: Members)
    requires m.Member? && !Before(key, m.key)
    ensures Insert(key, value, m) == Member(m.key, m.value, Insert(key, value, m.rest))
    ensures m.rest.NoMembers? || Before(key, m.rest.key) ==>
              Insert(key, value, m) == Member(m.key, m.value, Member(key, value, m.rest))
  {
  }

  predicate Sorted(m: Members) {
    m.NoMembers? || (Sorted(m.rest) && (m.rest.Member? ==> Before(m.key, m.rest.key)))
  }

  lemma {:induction false} BeforeTransitive(s: string, t: string, u: string)
    requires Before(s, t) && Before(t, u)
    ensures Before(s, u)
    decreases |s|
  {
    if s != [] && s[0] == t[0] == u[0] {
      BeforeTransitive(s[1..], t[1..], u[1..]);
    }
  }

  lemma {:induction false} BeforeTotal(s: string, t: string)
    ensures !(Before(s, t) && Before(t, s))
    ensures s == t || Before(s, t) || Before(t, s)
    decreases |s|
  {
    if s != [] && t != [] && s[0] == t[0] {
      assert s == [s[0]] + s[1..] && t == [t[0]] + t[1..];
      BeforeTotal(s[1..], t[1..]);
    }
  }

  /** In a sorted list the first key is before every other. */
  lemma {:induction false} FirstIsLeast(m: Members, k: string)
    requires Sorted(m) && m.Member? && HasKey(m.rest, k)
    ensures Before(m.key, k)
  {
    if m.rest.key != k {
      FirstIsLeast(m.rest, k);
      BeforeTransitive(m.key, m.rest.key, k);
    }
  }

  lemma {:induction false} InsertKeeps(key: string, value: Json, m: Members, k: string)
    requires !HasKey(m, key)
    ensures Get(Insert(key, value, m), k) == if k == key then Some(value) else Get(m, k)
  {
    if m.Member? && !Before(key, m.key) {
      InsertKeeps(key, value, m.rest, k);
    }
  }

  lemma {:induction false} InsertSorts(key: string, value: Json, m: Members)
    requires Sorted(m) && !HasKey(m, key)
    ensures Sorted(Insert(key, value, m))
  {
    if m.Member? && !Before(key, m.key) {
      BeforeTotal(key, m.key);
      InsertSorts(key, value, m.rest);
    }
  }

  function Mapped(v: Option<Json>): Option<Json> {
    if v.None? then None else Some(Canon(v.value))
  }

  /** Sorting changes neither the keys nor what they are bound to. */
  lemma {:induction false} CanonMembersGet(m: Members, k: string)
    requires DistinctKeys(m)
    ensures Get(CanonMembers(m), k) == Mapped(Get(m, k))
  {
    if m.Member? {
      CanonMembersGet(m.rest, k);
      CanonMembersGet(m.rest, m.key);
      InsertKeeps(m.key, Canon(m.value), CanonMembers(m.rest), k);
    }
  }

  lemma {:induction false} CanonMembersSorted(m: Members)
    requires DistinctKeys(m)
    ensures Sorted(CanonMembers(m))
  {
    if m.Member? {
      CanonMembersSorted(m.rest);
      CanonMembersGet(m.rest, m.key);
      InsertSorts(m.key, Canon(m.value), CanonMembers(m.rest));
    }
  }

  lemma FirstKeyHeld(m: Members)
    requires m.Member?
    ensures HasKey(m, m.key)
  {
  }

  /** A sorted list is determined by its bindings. */
  lemma {:induction false} SortedUnique(a: Members, b: Members)
    requires Sorted(a) && Sorted(b)
    requires forall k :: Get(a, k) == Get(b, k)
    ensures a == b
  {
    assert a.Member? ==> Get(a, a.key) == Get(b, a.key);
    assert b.Member? ==> Get(a, b.key) == Get(b, b.key);
    if a.Member? && b.Member? {
      SameFirst(a, b);
      NotAgain(a);
      NotAgain(b);
      forall k ensures Get(a.rest, k) == Get(b.rest, k) {
        assert Get(a, k) == Get(b, k);
      }
      assert Get(a, a.key) == Get(b, a.key);
      SortedUnique(a.rest, b.rest);
    }
  }

  lemma NotAgain(m: Members)
    requires Sorted(m) && m.Member?
    ensures !HasKey(m.rest, m.key)
  {
    if HasKey(m.rest, m.key) {
      FirstIsLeast(m, m.key);
      BeforeTotal(m.key, m.key);
    }
  }

  lemma SameFirst(a: Members, b: Members)
    requires Sorted(a) && Sorted(b) && a.Member? && b.Member?
    requires forall k :: Get(a, k) == Get(b, k)
    ensures a.key == b.key
  {
    FirstKeyHeld(a);
    FirstKeyHeld(b);
    assert Get(a, b.key) == Get(b, b.key) && Get(b, a.key) == Get(a, a.key);
    BeforeTotal(a.key, b.key);
    if a.key != b.key {
      FirstIsLeast(a, b.key);
      FirstIsLeast(b, a.key);
    }
  }

  // --- the order of keys, by code points -------------------------------------------------------

  /** One key comes before another: it is a proper prefix, or smaller where they first differ. */
  predicate Ascends(k: string, l: string) {
    || (|k| < |l| && l[..|k|] == k)
    || exists i :: 0 <= i < |k| && i < |l| && k[..i] == l[..i] && k[i] as int < l[i] as int
  }

  lemma {:induction false} BeforeAscends(k: string, l: string)
    ensures Before(k, l) <==> Ascends(k, l)
    decreases |k|
  {
    if k != [] && l != [] && k[0] == l[0] {
      BeforeAscends(k[1..], l[1..]);
      assert k == [k[0]] + k[1..] && l == [l[0]] + l[1..];
      if Ascends(k[1..], l[1..]) {
        PrefixedAscends(k, l);
      }
      if Ascends(k, l) {
        TailAscends(k, l);
      }
    } else if k != [] && l != [] {
      FirstDecides(k, l);
    }
  }

  lemma FirstDecides(k: string, l: string)
    requires k != [] && l != [] && k[0] != l[0]
    ensures Ascends(k, l) <==> k[0] as int < l[0] as int
  {
    assert k[..0] == l[..0];
    forall i | 0 < i <= |k| && i <= |l| ensures k[..i] != l[..i] {
      assert k[..i][0] == k[0] && l[..i][0] == l[0];
    }
    assert k == k[..|k|];
  }

  lemma PrefixedAscends(k: string, l: string)
    requires k != [] && l != [] && k[0] == l[0] && Ascends(k[1..], l[1..])
    ensures Ascends(k, l)
  {
    if |k[1..]| < |l[1..]| && l[1..][..|k| - 1] == k[1..] {
      assert l[..|k|] == [l[0]] + l[1..][..|k| - 1] && k == [k[0]] + k[1..];
    } else {
      var i :| 0 <= i < |k[1..]| && i < |l[1..]| && k[1..][..i] == l[1..][..i] && k[1..][i] as int < l[1..][i] as int;
      assert k[..i + 1] == [k[0]] + k[1..][..i] && l[..i + 1] == [l[0]] + l[1..][..i];
    }
  }

  lemma TailAscends(k: string, l: string)
    requires k != [] && l != [] && k[0] == l[0] && Ascends(k, l)
    ensures Ascends(k[1..], l[1..])
  {
    if |k| < |l| && l[..|k|] == k {
      assert l[1..][..|k| - 1] == l[..|k|][1..];
    } else {
      var i :| 0 <= i < |k| && i < |l| && k[..i] == l[..i] && k[i] as int < l[i] as int;
      assert k[1..][..i - 1] == k[..i][1..] && l[1..][..i - 1] == l[..i][1..];
    }
  }

  /** Each object's keys are in ascending order, at every depth. */
  predicate KeysAscend(v: Json) {
    match v
    case Array(items) => KeysAscendIn(items)
    case Object(members) => KeysAscendUnder(members)
    case _ => true
  }

  predicate KeysAscendIn(items: Items) {
    items.NoItems? || (KeysAscend(items.head) && KeysAscendIn(items.tail))
  }

  predicate KeysAscendUnder(m: Members) {
    m.NoMembers? ||
    (KeysAscend(m.value) && KeysAscendUnder(m.rest) && (m.rest.Member? ==> Ascends(m.key, m.rest.key)))
  }

  lemma {:induction false} SortedAscends(m: Members)
    requires Sorted(m) && ValuesAscend(m)
    ensures KeysAscendUnder(m)
  {
    if m.Member? {
      SortedAscends(m.rest);
      if m.rest.Member? {
        BeforeAscends(m.key, m.rest.key);
      }
    }
  }

  /** What the members of an object hold is in order, whatever the order of the members. */
  predicate ValuesAscend(m: Members) {
    m.NoMembers? || (KeysAscend(m.value) && ValuesAscend(m.rest))
  }

  lemma {:induction false} InsertValues(key: string, value: Json, m: Members)
    requires KeysAscend(value) && ValuesAscend(m)
    ensures ValuesAscend(Insert(key, value, m))
  {
    if m.Member? && !Before(key, m.key) {
      InsertValues(key, value, m.rest);
    }
  }

  /** `sort_keys=True`: in the sorted form the keys of every object ascend by code points, at every depth. */
  lemma {:induction false} CanonAscends(v: Json)
    requires Dictionaries(v)
    ensures KeysAscend(Canon(v))
  {
    if v.Array? {
      CanonItemsAscend(v.items);
    } else if v.Object? {
      CanonMembersAscend(v.members);
      CanonMembersSorted(v.members);
      SortedAscends(CanonMembers(v.members));
    }
  }

  lemma {:induction false} CanonItemsAscend(items: Items)
    requires DictionariesIn(items)
    ensures KeysAscendIn(CanonItems(items))
  {
    if items.Item? {
      CanonAscends(items.head);
      CanonItemsAscend(items.tail);
    }
  }

  lemma {:induction false} CanonMembersAscend(m: Members)
    requires DictionariesUnder(m)
    ensures ValuesAscend(CanonMembers(m))
  {
    if m.Member? {
      CanonAscends(m.value);
      CanonMembersAscend(m.rest);
      InsertValues(m.key, Canon(m.value), CanonMembers(m.rest));
    }
  }

  // --- canonical values are equal exactly when the values are the same JSON ------------------------

  lemma {:induction false} CanonSame(a: Json, b: Json)
    requires Dictionaries(a) && Dictionaries(b)
    ensures Canon(a) == Canon(b) <==> SameJson(a, b)
    decreases a
  {
    if a.Array? && b.Array? {
      CanonSameItems(a.items, b.items);
    } else if a.Object? && b.Object? {
      CanonSameMembers(a.members, b.members);
    }
  }

  lemma {:induction false} CanonSameItems(a: Items, b: Items)
    requires DictionariesIn(a) && DictionariesIn(b)
    ensures CanonItems(a) == CanonItems(b) <==> SameItems(a, b)
    decreases a
  {
    if a.Item? && b.Item? {
      CanonSame(a.head, b.head);
      CanonSameItems(a.tail, b.tail);
    }
  }

  lemma {:induction false} BoundValue(m: Members, k: string)
    requires DictionariesUnder(m) && HasKey(m, k)
    ensures Dictionaries(Get(m, k).value)
  {
    if HasKey(m.rest, k) {
      BoundValue(m.rest, k);
    }
  }

  lemma {:induction false} CanonSameMembers(a: Members, b: Members)
    requires DistinctKeys(a) && DictionariesUnder(a) && DistinctKeys(b) && DictionariesUnder(b)
    ensures CanonMembers(a) == CanonMembers(b) <==> SameMembers(a, b)
    decreases a
  {
    forall k ensures Get(CanonMembers(a), k) == Mapped(Get(a, k)) && Get(CanonMembers(b), k) == Mapped(Get(b, k)) {
      CanonMembersGet(a, k);
      CanonMembersGet(b, k);
    }
    forall k | HasKey(a, k) && HasKey(b, k)
      ensures Canon(Get(a, k).value) == Canon(Get(b, k).value) <==> SameJson(Get(a, k).value, Get(b, k).value)
    {
      BoundValue(a, k);
      BoundValue(b, k);
      CanonSame(Get(a, k).value, Get(b, k).value);
    }
    if CanonMembers(a) == CanonMembers(b) {
      forall k ensures Mapped(Get(a, k)) == Mapped(Get(b, k)) {
        assert Get(CanonMembers(a), k) == Mapped(Get(a, k));
      }
      assert forall k :: HasKey(a, k) <==> HasKey(b, k) by {
        forall k ensures HasKey(a, k) <==> HasKey(b, k) { assert Mapped(Get(a, k)) == Mapped(Get(b, k)); }
      }
      forall k | HasKey(a, k) && HasKey(b, k) ensures SameJson(Get(a, k).value, Get(b, k).value) {
        assert Mapped(Get(a, k)) == Mapped(Get(b, k));
      }
    }
    if SameMembers(a, b) {
      CanonMembersSorted(a);
      CanonMembersSorted(b);
      forall k ensures Get(CanonMembers(a), k) == Get(CanonMembers(b), k) {
        assert HasKey(a, k) <==> HasKey(b, k);
        assert HasKey(a, k) && HasKey(b, k) ==> SameJson(Get(a, k).value, Get(b, k).value);
      }
      SortedUnique(CanonMembers(a), CanonMembers(b));
    }
  }
}
