/**
 The chaos schedule generator: a per-payment model of stages driven by arbitrary random draws.
 Every draw is nondeterministic within the range the code asks for, so what is proved holds for
 every seed and every length.
 */
module ChaosSchedule {
  import opened Basics

  datatype Command = Authorize | Capture | Refund

  datatype Kind =
    | Create | Single(command: Command) | Replay | Duplicate | RecoverTick | ResolvePending | Settle | Payout

  datatype Op = Op(
    index: nat, kind: Kind, target: Option<nat> := None, amount: Option<int> := None, ref: Option<nat> := None,
    command: Option<Command> := None, threads: Option<nat> := None, outcome: Option<string> := None,
    crash: Option<string> := None, pick: Option<nat> := None, batch: Option<nat> := None,
    resolveTo: Option<string> := None, expireLeases: bool := false, pct: Option<nat> := None, invalid: bool := false)

  datatype Slot = Slot(createIndex: nat, amount: int, stage: nat, refunded: int)

  function Refundable(s: Slot): int {
    s.amount - s.refunded
  }

  type Weighted = seq<(string, nat)>

  const PROVIDER_FAULTS: Weighted :=
    [("LOSE_RESPONSE", 9), ("PENDING", 7), ("DECLINE", 4), ("LOSE_RESPONSE_DECLINE", 2)]
  const BANK_FAULTS: Weighted := [("LOSE_RESPONSE", 3), ("DECLINE", 2)]
  const COMMAND_CRASH_POINTS: Weighted := [
    ("api.after_initiate", 2), ("provider.after_prepare_send", 2), ("provider.after_mutate_response", 4),
    ("provider.after_lookup_response", 1), ("finalizer.after_commit", 3)]
  const TICK_CRASH_POINTS: Weighted := [("poller.between_tasks", 3), ("finalizer.after_commit", 3)]
  const PAYOUT_CRASH_POINTS: Weighted := [
    ("payout.after_reservation", 2), ("payout.after_prepare_send", 1), ("payout.after_bank_response", 3)]

  // --- what a schedule says about one payment --------------------------------------------------------

  /** The command an operation carries; a concurrent duplicate counts as its command. */
  function CommandOf(op: Op): Option<Command> {
    match op.kind
    case Single(command) => Some(command)
    case Duplicate => op.command
    case _ => None
  }

  /** A command that is not deliberately invalid, aimed at this payment. */
  predicate Aimed(op: Op, payment: nat) {
    op.target == Some(payment) && !op.invalid && CommandOf(op).Some?
  }

  /** The valid commands aimed at a payment, in order. */
  function Trace(ops: seq<Op>, payment: nat): seq<Command> {
    if ops == [] then [] else
    var last := ops[|ops| - 1];
    Trace(ops[..|ops| - 1], payment) + if Aimed(last, payment) then [CommandOf(last).value] else []
  }

  /** What the valid refunds aimed at a payment come to. */
  function RefundTotal(ops: seq<Op>, payment: nat): int {
    if ops == [] then 0 else
    var last := ops[|ops| - 1];
    RefundTotal(ops[..|ops| - 1], payment)
    + if Aimed(last, payment) && CommandOf(last) == Some(Refund) && last.amount.Some? then last.amount.value else 0
  }

  /** A prefix of AUTHORIZE, CAPTURE, REFUND, REFUND, ... */
  predicate InOrder(trace: seq<Command>) {
    forall i :: 0 <= i < |trace| ==> trace[i] == if i == 0 then Authorize else if i == 1 then Capture else Refund
  }

  /** The stage a trace and a refunded total imply: created, authorising, captured, fully refunded. */
  function ImpliedStage(trace: seq<Command>, refunded: int, amount: int): nat {
    if |trace| < 2 then |trace| else if refunded < amount then 2 else 3
  }

  /** The refunds of a payment: together below, or exactly, its amount; two to ten of them to use it up. */
  predicate RefundsFit(refunds: int, refunded: int, amount: int) {
    && 0 <= refunded <= amount
    && (refunds <= 0 ==> refunded == 0)
    && (refunds == 1 ==> 10 * refunded <= 6 * amount)
    && (refunded < amount ==> refunds <= 9 && 10 * refunded >= refunds * amount)
    && (refunded == amount ==> 2 <= refunds <= 10)
  }

  /** What the schedule says about a payment is what its slot holds. */
  predicate SlotAgrees(ops: seq<Op>, s: Slot) {
    var trace := Trace(ops, s.createIndex);
    && s.createIndex < |ops| && ops[s.createIndex] == Op(s.createIndex, Create, amount := Some(s.amount))
    && s.amount > 0 && s.amount % 100 == 0
    && InOrder(trace)
    && s.refunded == RefundTotal(ops, s.createIndex)
    && s.stage == ImpliedStage(trace, s.refunded, s.amount)
    && RefundsFit(|trace| - 2, s.refunded, s.amount)
  }

  predicate Replayable(k: Kind) {
    k.Create? || k.Single? || k.Payout?
  }

  /** The indexes of the operations a REPLAY may point to, in order. */
  function Replayables(ops: seq<Op>): seq<nat> {
    if ops == [] then [] else
    Replayables(ops[..|ops| - 1]) + if Replayable(ops[|ops| - 1].kind) then [|ops| - 1] else []
  }

  function LastThirty(s: seq<nat>): seq<nat> {
    if |s| <= 30 then s else s[|s| - 30..]
  }

  /** The operation fits a schedule of the operations before it. */
  predicate Fits(before: seq<Op>, op: Op) {
    && op.index == |before|
    && (op.target.Some? ==> op.target.value < |before| && before[op.target.value].kind.Create?)
    && (op.kind.Replay? <==> op.ref.Some?)
    && (op.ref.Some? ==> op.ref.value in LastThirty(Replayables(before)))
    && (op.kind.Duplicate? <==> op.command.Some?)
  }

  predicate SelfContained(ops: seq<Op>) {
    forall i :: 0 <= i < |ops| ==> Fits(ops[..i], ops[i])
  }

  predicate HasSlot(slots: seq<Slot>, payment: nat) {
    exists k :: 0 <= k < |slots| && slots[k].createIndex == payment
  }

  /** The generator's slots are the schedule's CREATE operations, in order and without repetition. */
  predicate SlotsAgree(ops: seq<Op>, slots: seq<Slot>) {
    && (forall k :: 0 <= k < |slots| ==> SlotAgrees(ops, slots[k]))
    && (forall j, k | 0 <= j < k < |slots| :: slots[j].createIndex < slots[k].createIndex)
    && (forall i :: 0 <= i < |ops| && ops[i].kind.Create? ==> HasSlot(slots, i))
  }

  // --- appending one operation ---------------------------------------------------------------------

  lemma Appended(ops: seq<Op>, op: Op, payment: nat)
    ensures Trace(ops + [op], payment) == Trace(ops, payment) + if Aimed(op, payment) then [CommandOf(op).value] else []
    ensures RefundTotal(ops + [op], payment)
            == RefundTotal(ops, payment)
               + if Aimed(op, payment) && CommandOf(op) == Some(Refund) && op.amount.Some? then op.amount.value else 0
    ensures Replayables(ops + [op]) == Replayables(ops) + if Replayable(op.kind) then [|ops|] else []
  {
    assert (ops + [op])[..|ops|] == ops;
  }

  lemma FitsAppended(ops: seq<Op>, op: Op)
    requires SelfContained(ops) && Fits(ops, op)
    ensures SelfContained(ops + [op])
  {
    var all := ops + [op];
    forall i | 0 <= i < |all| ensures Fits(all[..i], all[i]) {
      assert all[..i] == ops[..i];
      assert i == |ops| ==> ops[..i] == ops;
    }
  }

  /** Nothing before its CREATE is aimed at a payment. */
  lemma {:induction false} NothingBeforeCreate(ops: seq<Op>, payment: nat)
    requires SelfContained(ops) && |ops| <= payment
    ensures Trace(ops, payment) == [] && RefundTotal(ops, payment) == 0
    decreases |ops|
  {
    if ops != [] {
      var front, last := ops[..|ops| - 1], ops[|ops| - 1];
      assert Fits(front, last);
      forall i | 0 <= i < |front| ensures Fits(front[..i], front[i]) {
        assert front[..i] == ops[..i];
      }
      NothingBeforeCreate(front, payment);
    }
  }

  /** The slot a valid command leaves behind. */
  function Advanced(s: Slot, command: Command, amount: int): Slot {
    match command
    case Authorize => s.(stage := 1)
    case Capture => s.(stage := 2)
    case Refund =>
      var refunded := s.refunded + amount;
      s.(refunded := refunded, stage := if s.amount - refunded <= 0 then 3 else s.stage)
  }

  function StageFor(command: Command): nat {
    match command
    case Authorize => 0
    case Capture => 1
    case Refund => 2
  }

  /** An amount the generator may refund: what is left, or ten to sixty percent if that is less. */
  predicate RefundAmount(s: Slot, amount: int, percent: nat) {
    && 10 <= percent <= 60
    && amount == Max(1, Min(Refundable(s), s.amount * percent / 100))
  }

  lemma PercentOf(amount: int, percent: nat)
    requires amount > 0 && amount % 100 == 0
    ensures amount * percent / 100 == amount / 100 * percent
  {
    var hundreds := amount / 100;
    assert amount * percent == 100 * (hundreds * percent);
  }

  /** One more refund still fits. */
  lemma RefundStep(s: Slot, refunds: nat, amount: int, percent: nat)
    requires s.amount > 0 && s.amount % 100 == 0 && s.refunded < s.amount
    requires RefundsFit(refunds, s.refunded, s.amount) && RefundAmount(s, amount, percent)
    ensures RefundsFit(refunds + 1, s.refunded + amount, s.amount)
  {
    var hundreds := s.amount / 100;
    PercentOf(s.amount, percent);
    ShareBounds(hundreds, percent);
    RefundShare(refunds, s.refunded, s.amount, amount, hundreds * percent);
  }

  lemma ShareBounds(hundreds: nat, percent: nat)
    requires 10 <= percent <= 60
    ensures hundreds * 10 <= hundreds * percent <= hundreds * 60
  {
  }

  lemma RefundShare(refunds: nat, refunded: int, total: int, amount: int, share: int)
    requires total > 0 && refunded < total && RefundsFit(refunds, refunded, total)
    requires total <= 10 * share <= 6 * total && amount == Min(total - refunded, share)
    ensures RefundsFit(refunds + 1, refunded + amount, total)
  {
    assert (refunds + 1) * total == refunds * total + total;
    if refunded + amount < total {
      assert (refunds + 1) * total < 10 * total;
      TimesPositive(refunds + 1, 10, total);
    }
  }

  lemma TimesPositive(a: int, b: int, c: int)
    requires c > 0 && a * c < b * c
    ensures a < b
  {
  }

  lemma TargetAdvances(ops: seq<Op>, s: Slot, op: Op, command: Command, percent: nat)
    requires SlotAgrees(ops, s) && s.stage == StageFor(command)
    requires Aimed(op, s.createIndex) && CommandOf(op) == Some(command)
    requires command.Refund? ==> op.amount.Some? && RefundAmount(s, op.amount.value, percent)
    ensures SlotAgrees(ops + [op], Advanced(s, command, if command.Refund? then op.amount.value else 0))
  {
    Appended(ops, op, s.createIndex);
    var trace := Trace(ops, s.createIndex);
    if command.Refund? {
      RefundStep(s, |trace| - 2, op.amount.value, percent);
    }
  }

  lemma OthersStay(ops: seq<Op>, s: Slot, op: Op)
    requires SlotAgrees(ops, s) && !Aimed(op, s.createIndex)
    ensures SlotAgrees(ops + [op], s)
  {
    Appended(ops, op, s.createIndex);
    assert Trace(ops, s.createIndex) + [] == Trace(ops, s.createIndex);
  }

  /** An operation that is no valid command and no CREATE changes no slot. */
  lemma SlotsStay(ops: seq<Op>, slots: seq<Slot>, op: Op)
    requires SlotsAgree(ops, slots) && !op.kind.Create? && (CommandOf(op).None? || op.invalid || op.target.None?)
    ensures SlotsAgree(ops + [op], slots)
  {
    forall k | 0 <= k < |slots| ensures SlotAgrees(ops + [op], slots[k]) {
      OthersStay(ops, slots[k], op);
    }
  }

  lemma SlotAdvances(ops: seq<Op>, slots: seq<Slot>, t: nat, op: Op, command: Command, percent: nat)
    requires SlotsAgree(ops, slots) && t < |slots| && slots[t].stage == StageFor(command) && !op.kind.Create?
    requires Aimed(op, slots[t].createIndex) && CommandOf(op) == Some(command)
    requires command.Refund? ==> op.amount.Some? && RefundAmount(slots[t], op.amount.value, percent)
    ensures SlotsAgree(ops + [op],
                       slots[t := Advanced(slots[t], command, if command.Refund? then op.amount.value else 0)])
  {
    var after := slots[t := Advanced(slots[t], command, if command.Refund? then op.amount.value else 0)];
    forall k | 0 <= k < |slots| ensures SlotAgrees(ops + [op], after[k]) {
      if k == t {
        TargetAdvances(ops, slots[t], op, command, percent);
      } else {
        assert slots[k].createIndex != slots[t].createIndex;
        OthersStay(ops, slots[k], op);
      }
    }
    forall i | 0 <= i < |ops + [op]| && (ops + [op])[i].kind.Create?
      ensures HasSlot(after, i)
    {
      var k :| 0 <= k < |slots| && slots[k].createIndex == i;
      assert after[k].createIndex == i;
    }
  }

  lemma SlotCreated(ops: seq<Op>, slots: seq<Slot>, amount: int)
    requires SlotsAgree(ops, slots) && SelfContained(ops) && amount > 0 && amount % 100 == 0
    ensures SlotsAgree(ops + [Op(|ops|, Create, amount := Some(amount))], slots + [Slot(|ops|, amount, 0, 0)])
  {
    var op, s := Op(|ops|, Create, amount := Some(amount)), Slot(|ops|, amount, 0, 0);
    var all, after := ops + [op], slots + [s];
    forall k | 0 <= k < |after| ensures SlotAgrees(all, after[k]) {
      if k < |slots| {
        OthersStay(ops, slots[k], op);
      } else {
        NothingBeforeCreate(ops, |ops|);
        Appended(ops, op, |ops|);
      }
    }
    forall i | 0 <= i < |all| && all[i].kind.Create? ensures HasSlot(after, i) {
      if i < |ops| {
        var k :| 0 <= k < |slots| && slots[k].createIndex == i;
        assert after[k].createIndex == i;
      } else {
        assert after[|slots|].createIndex == i;
      }
    }
  }

  /** The number of threads of a duplicate says nothing about its payment. */
  lemma ThreadsDoNotMatter(ops: seq<Op>, slots: seq<Slot>, op: Op, threads: nat)
    requires SlotsAgree(ops + [op], slots) && Fits(ops, op) && !op.kind.Create?
    ensures SlotsAgree(ops + [op.(threads := Some(threads))], slots) && Fits(ops, op.(threads := Some(threads)))
  {
    var other := op.(threads := Some(threads));
    forall i | 0 <= i < |ops + [other]| && (ops + [other])[i].kind.Create? ensures HasSlot(slots, i) {
      assert (ops + [op])[i].kind.Create?;
    }
    forall k | 0 <= k < |slots| ensures SlotAgrees(ops + [other], slots[k]) {
      assert SlotAgrees(ops + [op], slots[k]);
      Appended(ops, op, slots[k].createIndex);
      Appended(ops, other, slots[k].createIndex);
      assert Aimed(op, slots[k].createIndex) <==> Aimed(other, slots[k].createIndex);
    }
  }

  // --- draws -----------------------------------------------------------------------------------------

  /** `rng.randrange(lo, hi)`: the range must not be empty. */
  method RandRange(lo: int, hi: int) returns (n: int)
    requires lo < hi
    ensures lo <= n < hi
  {
    n :| lo <= n < hi;
  }

  /** `rng.random() < rate`. */
  method Chance() returns (happens: bool) {
    happens := *;
  }

  function TotalWeight(table: Weighted): nat {
    if table == [] then 0 else TotalWeight(table[..|table| - 1]) + table[|table| - 1].1
  }

  /** Walks the table until the draw falls inside an entry's weight; it always does. */
  method WeightedEntry(table: Weighted, draw: nat) returns (i: nat)
    requires draw < TotalWeight(table)
    ensures i < |table| && TotalWeight(table[..i]) <= draw < TotalWeight(table[..i]) + table[i].1
  {
    var left := draw;
    i := 0;
    assert table[..|table|] == table;
    while i < |table| && left >= table[i].1
      invariant i <= |table| && left == draw - TotalWeight(table[..i]) && left >= 0
    {
      assert table[..i + 1][..i] == table[..i];
      left := left - table[i].1;
      i := i + 1;
    }
  }

  method WeightedChoice(table: Weighted) returns (name: string)
    requires TotalWeight(table) > 0
  {
    var draw := RandRange(0, TotalWeight(table));
    var i := WeightedEntry(table, draw);
    name := table[i].0;
  }

  lemma TablesAreNotEmpty()
    ensures TotalWeight(PROVIDER_FAULTS) > 0 && TotalWeight(BANK_FAULTS) > 0 && TotalWeight(COMMAND_CRASH_POINTS) > 0
    ensures TotalWeight(TICK_CRASH_POINTS) > 0 && TotalWeight(PAYOUT_CRASH_POINTS) > 0
  {
  }

  method MaybeChoose(table: Weighted) returns (name: Option<string>)
    requires TotalWeight(table) > 0
  {
    name := None;
    var drawn := Chance();
    if drawn {
      var chosen := WeightedChoice(table);
      name := Some(chosen);
    }
  }

  function Eligible(slots: seq<Slot>, stage: nat): (r: seq<nat>)
    ensures forall i :: 0 <= i < |r| ==> r[i] < |slots| && slots[r[i]].stage == stage
  {
    if slots == [] then [] else
    var n := |slots| - 1;
    Eligible(slots[..n], stage) + if slots[n].stage == stage then [n] else []
  }

  /** `_pick_slot`: an eligible payment, any payment as an invalid target, or no payment at all. */
  method PickSlot(slots: seq<Slot>, stage: nat) returns (slot: Option<nat>, invalid: bool)
    requires slots != []
    ensures slot.None? ==> invalid
    ensures slot.Some? ==> slot.value < |slots| && (!invalid ==> slots[slot.value].stage == stage)
  {
    var missing := Chance();
    if missing {
      return None, true;
    }
    var eligible := Eligible(slots, stage);
    var valid := Chance();
    if eligible != [] && valid {
      var i := RandRange(0, |eligible|);
      return Some(eligible[i]), false;
    }
    var i := RandRange(0, |slots|);
    return Some(i), true;
  }

  /** The slots and the replayable list are what the schedule so far implies. */
  predicate Consistent(ops: seq<Op>, slots: seq<Slot>, replayable: seq<nat>) {
    SelfContained(ops) && SlotsAgree(ops, slots) && replayable == Replayables(ops)
  }

  lemma AppendKeeps(ops: seq<Op>, slots: seq<Slot>, replayable: seq<nat>, op: Op)
    requires SelfContained(ops) && replayable == Replayables(ops)
    requires SlotsAgree(ops + [op], slots) && Fits(ops, op)
    ensures Consistent(ops + [op], slots, if Replayable(op.kind) then replayable + [op.index] else replayable)
  {
    FitsAppended(ops, op);
    Appended(ops, op, 0);
  }

  method DrawKind() returns (kind: Kind) {
    kind := *;
  }

  method DrawCommand() returns (command: Command) {
    command := *;
  }

  // --- the generator ---------------------------------------------------------------------------------

  class Generator {
    var slots: seq<Slot>
    var replayable: seq<nat>
    var ops: seq<Op>

    ghost predicate Valid()
      reads this
    {
      Consistent(ops, slots, replayable)
    }

    constructor ()
      ensures Valid() && ops == []
    {
      slots, replayable, ops := [], [], [];
    }

    /** `create`: a new payment of 10,000 to 500,000 in steps of 100. */
    method CreateOp() returns (op: Op)
      requires Valid()
      modifies this`slots
      ensures SlotsAgree(ops + [op], slots) && Fits(ops, op)
    {
      var hundreds := RandRange(100, 5001);
      var amount := hundreds * 100;
      SlotCreated(ops, slots, amount);
      slots := slots + [Slot(|ops|, amount, 0, 0)];
      op := Op(|ops|, Create, amount := Some(amount));
    }

    /** The amount of a refund and whether it is invalid after all. */
    method RefundOf(slot: Option<nat>, invalid: bool) returns (amount: int, nowInvalid: bool, percent: nat)
      requires slot.Some? ==> slot.value < |slots|
      requires slot.None? ==> invalid
      ensures invalid ==> nowInvalid
      ensures !nowInvalid ==> slot.Some? && RefundAmount(slots[slot.value], amount, percent)
    {
      if slot.None? {
        return 1000, invalid, 10;
      }
      var s := slots[slot.value];
      var over := Chance();
      if over {
        var extra := RandRange(1, 5001);
        return Max(Refundable(s), 0) + extra, true, 10;
      }
      percent := RandRange(10, 61);
      amount := Max(1, Min(Refundable(s), s.amount * percent / 100));
      nowInvalid := invalid || Refundable(s) <= 0;
    }

    /** `_command_op`: aims a command at a payment and, unless it is invalid, advances that payment. */
    method CommandOp(command: Command, kind: Kind) returns (op: Op)
      requires Valid() && slots != []
      requires kind == Single(command) || kind == Duplicate
      modifies this`slots
      ensures SlotsAgree(ops + [op], slots) && Fits(ops, op) && |slots| == |old(slots)| && op.kind == kind
    {
      TablesAreNotEmpty();
      var slot, invalid := PickSlot(slots, StageFor(command));
      var outcome := MaybeChoose(PROVIDER_FAULTS);
      var crash := MaybeChoose(COMMAND_CRASH_POINTS);
      var amount: Option<int>, percent: nat := None, 10;
      if command.Refund? {
        var value;
        value, invalid, percent := RefundOf(slot, invalid);
        amount := Some(value);
      }
      op := Op(|ops|, kind, amount := amount, outcome := outcome, crash := crash, invalid := invalid,
               target := if slot.None? then None else Some(slots[slot.value].createIndex),
               command := if kind.Duplicate? then Some(command) else None);
      if slot.Some? {
        assert SlotAgrees(ops, slots[slot.value]);
      }
      if slot.Some? && !invalid {
        var t := slot.value;
        SlotAdvances(ops, slots, t, op, command, percent);
        slots := slots[t := Advanced(slots[t], command, if command.Refund? then amount.value else 0)];
      } else {
        SlotsStay(ops, slots, op);
      }
    }

    /** A REPLAY of one of the last thirty replayable operations; there always is one. */
    method ReplayOp() returns (op: Op)
      requires Valid() && slots != []
      ensures SlotsAgree(ops + [op], slots) && Fits(ops, op) && !op.kind.Create?
    {
      TablesAreNotEmpty();
      SomethingReplayable(ops, slots);
      var window := Min(30, |replayable|);
      var i := RandRange(0, window);
      var ref := replayable[Max(0, |replayable| - 30) + i];
      assert ref == LastThirty(replayable)[i];
      var crash := MaybeChoose(COMMAND_CRASH_POINTS);
      op := Op(|ops|, Replay, ref := Some(ref), crash := crash);
      SlotsStay(ops, slots, op);
    }

    /** The kinds that address no payment. */
    method OtherOp(kind: Kind) returns (op: Op)
      requires Valid() && (kind.RecoverTick? || kind.ResolvePending? || kind.Settle? || kind.Payout?)
      ensures SlotsAgree(ops + [op], slots) && Fits(ops, op) && op.kind == kind
    {
      TablesAreNotEmpty();
      if kind.RecoverTick? {
        var crash := MaybeChoose(TICK_CRASH_POINTS);
        var batch := RandRange(1, 7);
        var pick := RandRange(0, 65536);
        var expire := Chance();
        op := Op(|ops|, kind, batch := Some(batch), pick := Some(pick), expireLeases := expire, crash := crash);
      } else if kind.ResolvePending? {
        var batch := RandRange(1, 4);
        var pick := RandRange(0, 65536);
        var succeed := Chance();
        op := Op(|ops|, kind, batch := Some(batch), pick := Some(pick),
                 resolveTo := Some(if succeed then "SUCCEED" else "DECLINE"));
      } else if kind.Settle? {
        op := Op(|ops|, kind);
      } else {
        var over := Chance();
        var outcome := MaybeChoose(BANK_FAULTS);
        var crash := MaybeChoose(PAYOUT_CRASH_POINTS);
        var pct := RandRange(10, 101);
        op := Op(|ops|, kind, pct := Some(pct), outcome := outcome, crash := crash, invalid := over);
      }
      SlotsStay(ops, slots, op);
    }

    /** The next operation. The code's fallback create inside REPLAY is never taken and has no counterpart. */
    method NextOp() returns (op: Op)
      requires Valid()
      modifies this`slots
      ensures SlotsAgree(ops + [op], slots) && Fits(ops, op)
    {
      var kind := DrawKind();
      if slots == [] || kind.Create? {
        op := CreateOp();
      } else if kind.Single? {
        op := CommandOp(kind.command, kind);
      } else if kind.Duplicate? {
        var command := DrawCommand();
        op := CommandOp(command, Duplicate);
        var threads := RandRange(2, 5);
        ThreadsDoNotMatter(ops, slots, op, threads);
        op := op.(threads := Some(threads));
      } else if kind.Replay? {
        op := ReplayOp();
      } else {
        op := OtherOp(kind);
      }
    }

    /** One turn of the loop. */
    method Step()
      requires Valid()
      modifies this
      ensures Valid() && |ops| == |old(ops)| + 1 && ops[..|old(ops)|] == old(ops)
    {
      var op := NextOp();
      AppendKeeps(ops, slots, replayable, op);
      if Replayable(op.kind) {
        replayable := replayable + [op.index];
      }
      ops := ops + [op];
    }
  }

  /** The REPLAY branch always finds something to replay: a slot's CREATE. */
  lemma SomethingReplayable(ops: seq<Op>, slots: seq<Slot>)
    requires SlotsAgree(ops, slots) && slots != []
    ensures Replayables(ops) != []
  {
    var i := slots[0].createIndex;
    assert SlotAgrees(ops, slots[0]);
    ReplayableListed(ops, i);
  }

  lemma {:induction false} ReplayableListed(ops: seq<Op>, i: nat)
    requires i < |ops| && Replayable(ops[i].kind)
    ensures i in Replayables(ops)
    decreases |ops|
  {
    if i < |ops| - 1 {
      ReplayableListed(ops[..|ops| - 1], i);
    }
  }

  lemma {:induction false} ListedReplayable(ops: seq<Op>, i: nat)
    requires i in Replayables(ops)
    ensures i < |ops| && Replayable(ops[i].kind)
    decreases |ops|
  {
    var front := ops[..|ops| - 1];
    if i in Replayables(front) {
      ListedReplayable(front, i);
    }
  }

  /** How many of these operations can be replayed: the CREATEs, the single commands and the payouts. */
  function CommandsIn(ops: seq<Op>): nat {
    if ops == [] then 0 else
    var kind := ops[|ops| - 1].kind;
    CommandsIn(ops[..|ops| - 1]) + if kind == Create || kind.Single? || kind == Payout then 1 else 0
  }

  lemma {:induction false} ListedAt(ops: seq<Op>, k: nat)
    requires k < |Replayables(ops)|
    ensures var r := Replayables(ops)[k]; r < |ops| && |Replayables(ops)| - k - 1 == CommandsIn(ops[r + 1..])
  {
    var front := ops[..|ops| - 1];
    if k < |Replayables(front)| {
      ListedAt(front, k);
      var r := Replayables(front)[k];
      assert ops[r + 1..][..|ops[r + 1..]| - 1] == front[r + 1..];
    } else {
      assert ops[|ops|..] == [];
    }
  }

  lemma AmongLastThirty(all: seq<nat>, r: nat)
    ensures r in LastThirty(all) <==> exists k :: 0 <= k < |all| && all[k] == r && |all| - k - 1 < 30
  {
    var last := LastThirty(all);
    if k :| 0 <= k < |all| && all[k] == r && |all| - k - 1 < 30 {
      assert last[if |all| <= 30 then k else k - (|all| - 30)] == r;
    }
    if j :| 0 <= j < |last| && last[j] == r {
      assert all[if |all| <= 30 then j else j + (|all| - 30)] == r;
    }
  }

  /** The candidates of a REPLAY: the CREATEs, commands and payouts with fewer than thirty of them since. */
  lemma CandidatesExactly(ops: seq<Op>, r: nat)
    ensures r in LastThirty(Replayables(ops)) <==>
            && r < |ops| && (ops[r].kind == Create || ops[r].kind.Single? || ops[r].kind == Payout)
            && CommandsIn(ops[r + 1..]) < 30
  {
    hide LastThirty, Replayables, CommandsIn;
    var all := Replayables(ops);
    AmongLastThirty(all, r);
    forall k | 0 <= k < |all| ensures all[k] < |ops| && |all| - k - 1 == CommandsIn(ops[all[k] + 1..]) {
      ListedAt(ops, k);
    }
    if r in all {
      ListedReplayable(ops, r);
    }
    if r < |ops| && Replayable(ops[r].kind) {
      ReplayableListed(ops, r);
      var k :| 0 <= k < |all| && all[k] == r;
    }
  }

  /** A REPLAY points to one of the last thirty CREATEs, commands and payouts, never to another REPLAY. */
  lemma ReplaysPointToCommands(ops: seq<Op>, i: nat)
    requires SelfContained(ops) && i < |ops| && ops[i].kind.Replay?
    ensures ops[i].ref.Some? && ops[i].ref.value < i
    ensures var r := ops[i].ref.value;
            && (ops[r].kind == Create || ops[r].kind.Single? || ops[r].kind == Payout)
            && CommandsIn(ops[r + 1..i]) < 30
  {
    assert Fits(ops[..i], ops[i]);
    CandidatesExactly(ops[..i], ops[i].ref.value);
    assert ops[..i][ops[i].ref.value + 1..] == ops[ops[i].ref.value + 1..i];
  }

  // --- every schedule ----------------------------------------------------------------------------------

  /** What every schedule says about one of its payments. */
  predicate PaymentInOrder(ops: seq<Op>, payment: nat)
    requires payment < |ops| && ops[payment].amount.Some?
  {
    var trace, refunded, amount := Trace(ops, payment), RefundTotal(ops, payment), ops[payment].amount.value;
    && InOrder(trace) && Trace(ops[..payment + 1], payment) == []
    && 0 <= refunded <= amount
    && (refunded == amount ==> 2 <= |trace| - 2 <= 10)
  }

  lemma SlotInOrder(ops: seq<Op>, s: Slot)
    requires SelfContained(ops) && SlotAgrees(ops, s)
    ensures PaymentInOrder(ops, s.createIndex)
  {
    var p := s.createIndex;
    var first := ops[..p + 1];
    forall i | 0 <= i < p ensures Fits(ops[..p][..i], ops[..p][i]) {
      assert ops[..p][..i] == ops[..i];
    }
    NothingBeforeCreate(ops[..p], p);
    assert first[..p] == ops[..p] && first[p] == ops[p];
  }

  /**
   Every schedule of every length is self-contained, and each of its payments goes through a prefix of
   AUTHORIZE, CAPTURE, REFUND* after its CREATE, with refunds that never exceed its amount.
   */
  method GenerateSchedule(count: nat) returns (ops: seq<Op>, slots: seq<Slot>)
    ensures |ops| == count && SelfContained(ops)
    ensures forall i :: 0 <= i < count && ops[i].kind.Create? ==> ops[i].amount.Some? && PaymentInOrder(ops, i)
    ensures SlotsAgree(ops, slots)
  {
    var generator := new Generator();
    for i := 0 to count
      invariant generator.Valid() && |generator.ops| == i
      invariant fresh(generator)
    {
      generator.Step();
    }
    ops, slots := generator.ops, generator.slots;
    forall i | 0 <= i < count && ops[i].kind.Create? ensures ops[i].amount.Some? && PaymentInOrder(ops, i) {
      var k :| 0 <= k < |slots| && slots[k].createIndex == i;
      assert SlotAgrees(ops, slots[k]);
      SlotInOrder(ops, slots[k]);
    }
  }
}
