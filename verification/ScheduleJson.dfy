/**
 A schedule as JSON: each operation as a dictionary without its empty fields, and back. Strings of a
 schedule are printable ASCII, on which the two escaping modes of the printer agree.
 */
module ScheduleJson {
  import opened Basics
  import opened Json
  import JsonText
  import opened ChaosSchedule

  function CommandName(c: Command): string {
    match c
    case Authorize => "AUTHORIZE"
    case Capture => "CAPTURE"
    case Refund => "REFUND"
  }

  function KindName(k: Kind): string {
    match k
    case Create => "CREATE"
    case Single(command) => CommandName(command)
    case Replay => "REPLAY"
    case Duplicate => "CONCURRENT_DUPLICATE"
    case RecoverTick => "RECOVER_TICK"
    case ResolvePending => "RESOLVE_PENDING"
    case Settle => "SETTLE"
    case Payout => "PAYOUT"
  }

  function CommandNamed(s: string): Option<Command> {
    if s == "AUTHORIZE" then Some(Authorize)
    else if s == "CAPTURE" then Some(Capture)
    else if s == "REFUND" then Some(Refund)
    else None
  }

  function KindNamed(s: string): Option<Kind> {
    if s == "CREATE" then Some(Create)
    else if s == "REPLAY" then Some(Replay)
    else if s == "CONCURRENT_DUPLICATE" then Some(Duplicate)
    else if s == "RECOVER_TICK" then Some(RecoverTick)
    else if s == "RESOLVE_PENDING" then Some(ResolvePending)
    else if s == "SETTLE" then Some(Settle)
    else if s == "PAYOUT" then Some(Payout)
    else if CommandNamed(s).Some? then Some(Single(CommandNamed(s).value))
    else None
  }

  lemma NamesRoundTrip(c: Command, k: Kind)
    ensures CommandNamed(CommandName(c)) == Some(c) && KindNamed(KindName(k)) == Some(k)
  {
    assert |"CREATE"| == 6 && |"AUTHORIZE"| == 9 && |"CAPTURE"| == 7 && |"REFUND"| == 6 && |"REPLAY"| == 6;
    assert |"CONCURRENT_DUPLICATE"| == 20 && |"RECOVER_TICK"| == 12 && |"RESOLVE_PENDING"| == 15;
    assert |"SETTLE"| == 6 && |"PAYOUT"| == 6 && "CREATE"[0] == 'C' && "REFUND"[2] == 'F' && "REPLAY"[2] == 'P';
    assert "REFUND"[0] == "REPLAY"[0] == 'R' && "SETTLE"[0] == 'S' && "PAYOUT"[0] == 'P';
  }

  type Fields = seq<(string, Option<Json>)>

  function Nat(n: Option<nat>): Option<Json> {
    if n.None? then None else Some(Number(n.value))
  }

  function Int(n: Option<int>): Option<Json> {
    if n.None? then None else Some(Number(n.value))
  }

  function Text(s: Option<string>): Option<Json> {
    if s.None? then None else Some(String(s.value))
  }

  /** `False` is left out like `None`. */
  function Flag(b: bool): Option<Json> {
    if b then Some(Boolean(true)) else None
  }

  const KEYS: seq<string> := [
    "index", "kind", "target", "amount", "ref", "command", "threads", "outcome", "crash", "pick", "batch",
    "resolve_to", "expire_leases", "pct", "invalid"]

  function FieldsOf(op: Op): (f: Fields)
    ensures |f| == |KEYS| && forall i :: 0 <= i < |f| ==> f[i].0 == KEYS[i]
  {
    [("index", Some(Number(op.index))), ("kind", Some(String(KindName(op.kind)))), ("target", Nat(op.target)),
     ("amount", Int(op.amount)), ("ref", Nat(op.ref)),
     ("command", if op.command.None? then None else Some(String(CommandName(op.command.value)))),
     ("threads", Nat(op.threads)), ("outcome", Text(op.outcome)), ("crash", Text(op.crash)), ("pick", Nat(op.pick)),
     ("batch", Nat(op.batch)), ("resolve_to", Text(op.resolveTo)), ("expire_leases", Flag(op.expireLeases)),
     ("pct", Nat(op.pct)), ("invalid", Flag(op.invalid))]
  }

  function Built(fields: Fields): Members {
    if fields == [] then NoMembers
    else if fields[0].1.None? then Built(fields[1..])
    else Member(fields[0].0, fields[0].1.value, Built(fields[1..]))
  }

  function ToDict(op: Op): Members {
    Built(FieldsOf(op))
  }

  // --- reading a dictionary ---------------------------------------------------------------------------

  predicate IsNat(v: Option<Json>) {
    v.None? || (v.value.Number? && v.value.n >= 0)
  }

  predicate IsInt(v: Option<Json>) {
    v.None? || v.value.Number?
  }

  predicate IsText(v: Option<Json>) {
    v.None? || v.value.String?
  }

  predicate IsFlag(v: Option<Json>) {
    v.None? || v.value.Boolean?
  }

  function AsNat(v: Option<Json>): Option<nat>
    requires IsNat(v)
  {
    if v.None? then None else Some(v.value.n)
  }

  function AsInt(v: Option<Json>): Option<int>
    requires IsInt(v)
  {
    if v.None? then None else Some(v.value.n)
  }

  function AsText(v: Option<Json>): Option<string>
    requires IsText(v)
  {
    if v.None? then None else Some(v.value.s)
  }

  predicate KnownKeys(m: Members) {
    m.NoMembers? || (m.key in KEYS && KnownKeys(m.rest))
  }

  /** What a dictionary holds under each of the keys. */
  datatype Raw = Raw(
    index: Option<Json>, kind: Option<Json>, target: Option<Json>, amount: Option<Json>, ref: Option<Json>,
    command: Option<Json>, threads: Option<Json>, outcome: Option<Json>, crash: Option<Json>, pick: Option<Json>,
    batch: Option<Json>, resolveTo: Option<Json>, expireLeases: Option<Json>, pct: Option<Json>, invalid: Option<Json>)

  function RawOf(m: Members): Raw {
    Raw(Get(m, "index"), Get(m, "kind"), Get(m, "target"), Get(m, "amount"), Get(m, "ref"), Get(m, "command"),
        Get(m, "threads"), Get(m, "outcome"), Get(m, "crash"), Get(m, "pick"), Get(m, "batch"), Get(m, "resolve_to"),
        Get(m, "expire_leases"), Get(m, "pct"), Get(m, "invalid"))
  }

  /** The values of the fields have their types; the runtime does not check this and keeps any value. */
  predicate WellTyped(r: Raw) {
    && r.index.Some? && IsNat(r.index)
    && r.kind.Some? && IsText(r.kind) && KindNamed(r.kind.value.s).Some?
    && IsNat(r.target) && IsInt(r.amount) && IsNat(r.ref)
    && IsText(r.command) && (r.command.Some? ==> CommandNamed(r.command.value.s).Some?)
    && IsNat(r.threads) && IsText(r.outcome) && IsText(r.crash) && IsNat(r.pick) && IsNat(r.batch)
    && IsText(r.resolveTo) && IsFlag(r.expireLeases) && IsNat(r.pct) && IsFlag(r.invalid)
  }

  function Read(r: Raw): Option<Op> {
    if !WellTyped(r) then None else
    Some(Op(
      r.index.value.n, KindNamed(r.kind.value.s).value, AsNat(r.target), AsInt(r.amount), AsNat(r.ref),
      if r.command.None? then None else CommandNamed(r.command.value.s),
      AsNat(r.threads), AsText(r.outcome), AsText(r.crash), AsNat(r.pick), AsNat(r.batch), AsText(r.resolveTo),
      r.expireLeases == Some(Boolean(true)), AsNat(r.pct), r.invalid == Some(Boolean(true))))
  }

  /** `Op.from_dict`: an unknown key or a missing index or kind is refused, a missing field has its default. */
  function FromDict(m: Members): Option<Op> {
    if !KnownKeys(m) then None else Read(RawOf(m))
  }

  // --- the round trip -----------------------------------------------------------------------------------

  function KeyNumber(s: string): nat {
    if s == "index" then 0 else if s == "kind" then 1 else if s == "target" then 2 else if s == "amount" then 3
    else if s == "ref" then 4 else if s == "command" then 5 else if s == "threads" then 6 else if s == "outcome" then 7
    else if s == "crash" then 8 else if s == "pick" then 9 else if s == "batch" then 10
    else if s == "resolve_to" then 11 else if s == "expire_leases" then 12 else if s == "pct" then 13 else 14
  }

  lemma KeysDistinct(i: nat, j: nat)
    requires i < |KEYS| && j < |KEYS| && i != j
    ensures KEYS[i] != KEYS[j]
  {
    KeyNumbered(i);
    KeyNumbered(j);
  }

  lemma KeyNumbered(i: nat)
    requires i < |KEYS|
    ensures KeyNumber(KEYS[i]) == i
  {
    assert |"index"| == 5 && |"kind"| == 4 && |"target"| == 6 && |"amount"| == 6 && |"ref"| == 3 && |"command"| == 7;
    assert |"threads"| == 7 && |"outcome"| == 7 && |"crash"| == 5 && |"pick"| == 4 && |"batch"| == 5;
    assert |"resolve_to"| == 10 && |"expire_leases"| == 13 && |"pct"| == 3 && |"invalid"| == 7;
    assert "index"[0] == 'i' && "kind"[0] == 'k' && "target"[0] == 't' && "amount"[0] == 'a' && "ref"[0] == 'r';
    assert "command"[0] == 'c' && "threads"[0] == 't' && "outcome"[0] == 'o' && "crash"[0] == 'c' && "pick"[0] == 'p';
    assert "batch"[0] == 'b' && "pct"[0] == 'p' && "invalid"[0] == 'i';
  }

  predicate DistinctNames(fields: Fields) {
    forall i, j | 0 <= i < j < |fields| :: fields[i].0 != fields[j].0
  }

  lemma {:induction false} BuiltAbsent(fields: Fields, k: string)
    requires forall i :: 0 <= i < |fields| ==> fields[i].0 != k
    ensures Get(Built(fields), k) == None
    decreases |fields|
  {
    if fields != [] {
      BuiltAbsent(fields[1..], k);
    }
  }

  lemma {:induction false} BuiltGet(fields: Fields, i: nat)
    requires DistinctNames(fields) && i < |fields|
    ensures Get(Built(fields), fields[i].0) == fields[i].1
    decreases |fields|
  {
    if i == 0 {
      BuiltAbsent(fields[1..], fields[0].0);
    } else {
      BuiltGet(fields[1..], i - 1);
    }
  }

  lemma {:induction false} BuiltShape(fields: Fields)
    requires DistinctNames(fields) && forall i :: 0 <= i < |fields| ==> fields[i].0 in KEYS
    requires forall i :: 0 <= i < |fields| && fields[i].1.Some? ==> Canon(fields[i].1.value) == fields[i].1.value
    ensures KnownKeys(Built(fields)) && DistinctKeys(Built(fields))
    ensures forall k :: Mapped(Get(Built(fields), k)) == Get(Built(fields), k)
    decreases |fields|
  {
    if fields != [] {
      BuiltShape(fields[1..]);
      BuiltAbsent(fields[1..], fields[0].0);
    }
  }

  lemma NamesDistinct(op: Op)
    ensures DistinctNames(FieldsOf(op))
  {
    forall i, j | 0 <= i < j < |KEYS| ensures FieldsOf(op)[i].0 != FieldsOf(op)[j].0 {
      KeysDistinct(i, j);
    }
  }

  lemma DictGet(op: Op, i: nat)
    requires i < |KEYS|
    ensures Get(ToDict(op), KEYS[i]) == FieldsOf(op)[i].1
  {
    NamesDistinct(op);
    BuiltGet(FieldsOf(op), i);
  }

  lemma DictShape(op: Op)
    ensures KnownKeys(ToDict(op)) && DistinctKeys(ToDict(op))
    ensures forall k :: Mapped(Get(ToDict(op), k)) == Get(ToDict(op), k)
  {
    NamesDistinct(op);
    BuiltShape(FieldsOf(op));
  }

  function RawFor(op: Op): Raw {
    Raw(Some(Number(op.index)), Some(String(KindName(op.kind))), Nat(op.target), Int(op.amount), Nat(op.ref),
        if op.command.None? then None else Some(String(CommandName(op.command.value))), Nat(op.threads),
        Text(op.outcome), Text(op.crash), Nat(op.pick), Nat(op.batch), Text(op.resolveTo), Flag(op.expireLeases),
        Nat(op.pct), Flag(op.invalid))
  }

  lemma ReadsRaw(op: Op)
    ensures Read(RawFor(op)) == Some(op)
  {
    NamesRoundTrip(if op.command.Some? then op.command.value else Refund, op.kind);
  }

  lemma DictFields(op: Op)
    ensures RawOf(ToDict(op)) == RawFor(op)
  {
    DictGet(op, 0);
    DictGet(op, 1);
    DictGet(op, 2);
    DictGet(op, 3);
    DictGet(op, 4);
    DictGet(op, 5);
    DictGet(op, 6);
    DictGet(op, 7);
    DictGet(op, 8);
    DictGet(op, 9);
    DictGet(op, 10);
    DictGet(op, 11);
    DictGet(op, 12);
    DictGet(op, 13);
    DictGet(op, 14);
  }

  /** Any dictionary with the same bindings, in any order, gives the operation back. */
  lemma FromSameBindings(op: Op, m: Members)
    requires KnownKeys(m) && forall k :: Get(m, k) == Get(ToDict(op), k)
    ensures FromDict(m) == Some(op)
  {
    assert RawOf(m) == RawOf(ToDict(op));
    DictFields(op);
    ReadsRaw(op);
  }

  /** `from_dict(to_dict(op))` gives back every operation. */
  lemma DictRoundTrip(op: Op)
    ensures FromDict(ToDict(op)) == Some(op)
  {
    DictShape(op);
    FromSameBindings(op, ToDict(op));
  }

  // --- whole schedules ------------------------------------------------------------------------------------

  function ToItems(ops: seq<Op>): Items {
    if ops == [] then NoItems else Item(Object(ToDict(ops[0])), ToItems(ops[1..]))
  }

  function FromItems(items: Items): Option<seq<Op>> {
    if items.NoItems? then Some([])
    else if !items.head.Object? then None else
    var op, rest := FromDict(items.head.members), FromItems(items.tail);
    if op.None? || rest.None? then None else Some([op.value] + rest.value)
  }

  function ScheduleToJson(ops: seq<Op>): string {
    JsonText.Dumps(Array(ToItems(ops)))
  }

  function ScheduleFromJson(text: string): Option<seq<Op>> {
    var v := JsonText.Loads(text);
    if v.None? || !v.value.Array? then None else FromItems(v.value.items)
  }

  lemma {:induction false} KnownKeysBySet(m: Members)
    requires forall k :: HasKey(m, k) ==> k in KEYS
    ensures KnownKeys(m)
  {
    if m.Member? {
      assert HasKey(m, m.key);
      forall k | HasKey(m.rest, k) ensures k in KEYS {
        assert HasKey(m, k);
      }
      KnownKeysBySet(m.rest);
    }
  }

  lemma {:induction false} SetByKnownKeys(m: Members, k: string)
    requires KnownKeys(m) && HasKey(m, k)
    ensures k in KEYS
  {
    if HasKey(m.rest, k) {
      SetByKnownKeys(m.rest, k);
    }
  }

  lemma SortedDictReadsBack(op: Op)
    ensures FromDict(CanonMembers(ToDict(op))) == Some(op)
  {
    var m := ToDict(op);
    DictShape(op);
    forall k ensures Get(CanonMembers(m), k) == Get(m, k) {
      CanonMembersGet(m, k);
    }
    forall k | HasKey(CanonMembers(m), k) ensures k in KEYS {
      assert Get(CanonMembers(m), k) == Get(m, k);
      SetByKnownKeys(m, k);
    }
    KnownKeysBySet(CanonMembers(m));
    FromSameBindings(op, CanonMembers(m));
  }

  /** The items are objects that read back to the operations, one by one. */
  ghost predicate ReadsTo(items: Items, ops: seq<Op>) {
    if ops == [] then items.NoItems?
    else
      && items.Item? && items.head.Object? && FromDict(items.head.members) == Some(ops[0])
      && ReadsTo(items.tail, ops[1..])
  }

  lemma {:induction false} SortedItemsReadTo(ops: seq<Op>)
    ensures ReadsTo(CanonItems(ToItems(ops)), ops)
    decreases |ops|
  {
    if ops != [] {
      SortedDictReadsBack(ops[0]);
      SortedItemsReadTo(ops[1..]);
    }
  }

  lemma {:induction false} ItemsReadBack(items: Items, ops: seq<Op>)
    requires ReadsTo(items, ops)
    ensures FromItems(items) == Some(ops)
    decreases |ops|
  {
    if ops != [] {
      ItemsReadBack(items.tail, ops[1..]);
      assert [ops[0]] + ops[1..] == ops;
    }
  }

  /** Every schedule survives its JSON text. */
  lemma ScheduleRoundTrip(ops: seq<Op>)
    ensures ScheduleFromJson(ScheduleToJson(ops)) == Some(ops)
  {
    JsonText.LoadsDumps(Array(ToItems(ops)));
    SortedItemsReadTo(ops);
    ItemsReadBack(CanonItems(ToItems(ops)), ops);
  }
}
