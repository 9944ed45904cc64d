/**
 The chaos driver's client books: which Idempotency-Keys got an answer and which are still owed one.
 Commands, duplicates fired from several threads, crashes, rejections and unexpected exceptions all
 touch the books under one lock, so a run is a sequence of atomic events in any order.
 */
module ChaosDriver {
  import opened Basics
  import CS = ChaosSchedule

  datatype SpecKind = Create | Command(command: CS.Command) | Payout
  datatype Spec = Spec(kind: SpecKind, key: string, opIndex: nat)

  // --- the books as a function of the run ----------------------------------------------------------

  datatype Books = Books(unacked: map<string, Spec>, answered: set<string>)

  datatype Event =
    | Ack(spec: Spec)     // `_record_ack`
    | Crash(spec: Spec)   // a crash seen after the command stopped
    | Reject(key: string) // a rejection, which is an answer nobody retries

  function Apply(b: Books, e: Event): Books {
    match e
    case Ack(spec) => Books(b.unacked - {spec.key}, b.answered + {spec.key})
    case Crash(spec) => if spec.key in b.answered then b else b.(unacked := b.unacked[spec.key := spec])
    case Reject(key) => b.(unacked := b.unacked - {key})
  }

  function Run(log: seq<Event>): Books {
    if log == [] then Books(map[], {}) else Apply(Run(log[..|log| - 1]), log[|log| - 1])
  }

  predicate Acked(log: seq<Event>, key: string) {
    exists i :: 0 <= i < |log| && log[i].Ack? && log[i].spec.key == key
  }

  /** The command crashed at `i`, and no rejection came after. */
  predicate LeftHanging(log: seq<Event>, key: string, i: nat)
    requires i < |log|
  {
    log[i].Crash? && log[i].spec.key == key && forall j :: i < j < |log| ==> log[j] != Reject(key)
  }

  predicate Hanging(log: seq<Event>, key: string) {
    exists i :: 0 <= i < |log| && LeftHanging(log, key, i)
  }

  /** The client is owed an answer: it never got one, and it crashed without a later rejection. */
  predicate Owed(log: seq<Event>, key: string) {
    !Acked(log, key) && Hanging(log, key)
  }

  /** The driver records an answer or a crash only for commands that are not payouts. */
  predicate Guarded(log: seq<Event>) {
    forall i :: 0 <= i < |log| && !log[i].Reject? ==> !log[i].spec.kind.Payout?
  }

  lemma AckedSnoc(log: seq<Event>, e: Event, key: string)
    ensures Acked(log + [e], key) <==> Acked(log, key) || (e.Ack? && e.spec.key == key)
  {
    var all := log + [e];
    if Acked(log, key) {
      var i :| 0 <= i < |log| && log[i].Ack? && log[i].spec.key == key;
      assert all[i] == log[i];
    }
    assert all[|log|] == e;
  }

  lemma HangingAt(log: seq<Event>, e: Event, key: string, i: nat)
    requires i <= |log|
    ensures i < |log| ==> (LeftHanging(log + [e], key, i) <==> LeftHanging(log, key, i) && e != Reject(key))
    ensures i == |log| ==> (LeftHanging(log + [e], key, i) <==> e.Crash? && e.spec.key == key)
  {
    var all := log + [e];
    assert all[|log|] == e && forall j :: 0 <= j < |log| ==> all[j] == log[j];
  }

  lemma HangingSnoc(log: seq<Event>, e: Event, key: string)
    ensures Hanging(log + [e], key) <==> (e.Crash? && e.spec.key == key) || (e != Reject(key) && Hanging(log, key))
  {
    forall i | 0 <= i <= |log|
      ensures i < |log| ==> (LeftHanging(log + [e], key, i) <==> LeftHanging(log, key, i) && e != Reject(key))
      ensures i == |log| ==> (LeftHanging(log + [e], key, i) <==> e.Crash? && e.spec.key == key)
    {
      HangingAt(log, e, key, i);
    }
    if e.Crash? && e.spec.key == key {
      assert LeftHanging(log + [e], key, |log|);
    }
  }

  /** The books say exactly who was answered and who is owed an answer, after every run. */
  lemma {:induction false} BooksAreExact(log: seq<Event>, key: string)
    ensures key in Run(log).answered <==> Acked(log, key)
    ensures key in Run(log).unacked <==> Owed(log, key)
    decreases |log|
  {
    if log != [] {
      var front, e := log[..|log| - 1], log[|log| - 1];
      assert log == front + [e];
      BooksAreExact(front, key);
      AckedSnoc(front, e, key);
      HangingSnoc(front, e, key);
      assert Run(log) == Apply(Run(front), e);
      if e.Crash? {
        BooksAreExact(front, e.spec.key);
      }
    }
  }

  /** No key is both answered and owed an answer, and each is filed under its own key. */
  lemma {:induction false} NeverBoth(log: seq<Event>)
    ensures Run(log).unacked.Keys !! Run(log).answered
    ensures forall k :: k in Run(log).unacked ==> Run(log).unacked[k].key == k
    decreases |log|
  {
    if log != [] {
      NeverBoth(log[..|log| - 1]);
    }
  }

  /** No payout is ever owed an answer. */
  lemma {:induction false} NoPayoutOwed(log: seq<Event>)
    requires Guarded(log)
    ensures forall k :: k in Run(log).unacked ==> !Run(log).unacked[k].kind.Payout?
    decreases |log|
  {
    if log != [] {
      assert !log[|log| - 1].Reject? ==> !log[|log| - 1].spec.kind.Payout?;
      NoPayoutOwed(log[..|log| - 1]);
    }
  }

  // --- the driver ------------------------------------------------------------------------------------

  /** How a command ended: an answer, a crash point, a `RelayPayError`, or any other exception. */
  datatype Result = Answered | Crashed | Rejected | Failed

  const MAX_FAILURES: nat := 25

  /** What the environment decides about one operation: whether it is skipped, its key and how it ends. */
  datatype Ending = Ending(skipped: bool, key: string, result: Result, threads: seq<Result>)

  /** The answers recorded by duplicate threads, and then the crashes the driver sees among them. */
  function Fired(spec: Spec, outcomes: seq<Result>): seq<Event> {
    if outcomes == [] then [] else
    Fired(spec, outcomes[..|outcomes| - 1]) + if outcomes[|outcomes| - 1].Answered? then [Ack(spec)] else []
  }

  function SeenCrashes(spec: Spec, outcomes: seq<Result>): seq<Event> {
    if outcomes == [] then [] else
    SeenCrashes(spec, outcomes[..|outcomes| - 1]) + if outcomes[|outcomes| - 1].Crashed? then [Crash(spec)] else []
  }

  /** The command of an operation that carries one, as `build_spec` and `_op_payout` make it. */
  function SpecFor(op: CS.Op, key: string): Option<Spec> {
    match op.kind
    case Create => Some(Spec(Create, key, op.index))
    case Single(command) => Some(Spec(Command(command), key, op.index))
    case Duplicate => if op.command.None? then None else Some(Spec(Command(op.command.value), key, op.index))
    case Payout => Some(Spec(Payout, key, op.index))
    case _ => None
  }

  function SpecsAfter(op: CS.Op, end: Ending, specs: map<nat, Spec>): map<nat, Spec> {
    var spec := SpecFor(op, end.key);
    if spec.None? || end.skipped then specs else specs[op.index := spec.value]
  }

  /** The command an operation stands for: its own, or the one it replays. */
  function SpecOf(op: CS.Op, specs: map<nat, Spec>): Option<Spec> {
    var index := if op.kind.Replay? then op.ref else Some(op.index);
    if index.Some? && index.value in specs then Some(specs[index.value]) else None
  }

  function AnswerOf(spec: Spec, result: Result): seq<Event> {
    if result.Answered? && !spec.kind.Payout? then [Ack(spec)] else []
  }

  /** What running an operation writes in the books before anything it raises is handled. */
  function DispatchEvents(op: CS.Op, end: Ending, specs: map<nat, Spec>): seq<Event> {
    if op.kind.Replay? then
      if op.ref.Some? && op.ref.value in specs then AnswerOf(specs[op.ref.value], end.result) else []
    else
      var spec := SpecFor(op, end.key);
      if spec.None? || end.skipped then []
      else if op.kind.Duplicate? then Fired(spec.value, end.threads) + SeenCrashes(spec.value, end.threads)
      else AnswerOf(spec.value, end.result)
  }

  /** What handling a crash or a rejection writes. */
  function EndEvents(op: CS.Op, end: Ending, specs: map<nat, Spec>): seq<Event> {
    var spec := SpecOf(op, specs);
    if end.result.Crashed? && spec.Some? && !spec.value.kind.Payout? then [Crash(spec.value)]
    else if end.result.Rejected? then [Reject(if spec.Some? then spec.value.key else "")]
    else []
  }

  // --- the same, told from the schedule and how it went --------------------------------------------

  /** The operation makes a command of its own: a create, a single command, a payout or a duplicated command. */
  predicate HasCommand(op: CS.Op) {
    op.kind.Create? || op.kind.Single? || op.kind.Payout? || (op.kind.Duplicate? && op.command.Some?)
  }

  /** The last operation before `n` that made a command under this index. */
  function LastWith(ops: seq<CS.Op>, ends: seq<Ending>, n: nat, index: nat): (j: Option<nat>)
    requires n <= |ops| == |ends|
    ensures j.Some? ==>
              && j.value < n && HasCommand(ops[j.value]) && !ends[j.value].skipped && ops[j.value].index == index
              && forall k :: j.value < k < n && HasCommand(ops[k]) && !ends[k].skipped ==> ops[k].index != index
    ensures j.None? ==> forall k :: 0 <= k < n && HasCommand(ops[k]) && !ends[k].skipped ==> ops[k].index != index
  {
    if n == 0 then None
    else if HasCommand(ops[n - 1]) && !ends[n - 1].skipped && ops[n - 1].index == index then Some(n - 1)
    else LastWith(ops, ends, n - 1, index)
  }

  /** The operation whose command operation `i` stands for: its own, or the one that a replay names. */
  function Sender(ops: seq<CS.Op>, ends: seq<Ending>, i: nat): (j: Option<nat>)
    requires i < |ops| == |ends|
    ensures j.Some? ==> j.value <= i
  {
    if !ops[i].kind.Replay? then LastWith(ops, ends, i + 1, ops[i].index)
    else if ops[i].ref.None? then None
    else LastWith(ops, ends, i + 1, ops[i].ref.value)
  }

  /** Operation `i` stands for a command with this key that is no payout. */
  predicate Sends(ops: seq<CS.Op>, ends: seq<Ending>, i: nat, key: string)
    requires i < |ops| == |ends|
  {
    var j := Sender(ops, ends, i);
    j.Some? && ends[j.value].key == key && !ops[j.value].kind.Payout?
  }

  /** It also runs the command, and does not only stand for an earlier one with its index. */
  predicate Runs(ops: seq<CS.Op>, ends: seq<Ending>, i: nat)
    requires i < |ops| == |ends|
  {
    ops[i].kind.Replay? || (HasCommand(ops[i]) && !ends[i].skipped)
  }

  /** The client got an answer to this key at operation `i`, or in one of its threads. */
  predicate AnsweredAt(ops: seq<CS.Op>, ends: seq<Ending>, i: nat, key: string)
    requires i < |ops| == |ends|
  {
    && Sends(ops, ends, i, key) && Runs(ops, ends, i)
    && if ops[i].kind.Duplicate? then Answered in ends[i].threads else ends[i].result == Answered
  }

  /** The client saw operation `i` crash, or one of its threads, while it sent this key. */
  predicate CrashedAt(ops: seq<CS.Op>, ends: seq<Ending>, i: nat, key: string)
    requires i < |ops| == |ends|
  {
    && Sends(ops, ends, i, key)
    && (ends[i].result == Crashed || (ops[i].kind.Duplicate? && Runs(ops, ends, i) && Crashed in ends[i].threads))
  }

  /** Operation `i` was rejected while it sent this key; one that stands for no command sends the empty key. */
  predicate RejectedAt(ops: seq<CS.Op>, ends: seq<Ending>, i: nat, key: string)
    requires i < |ops| == |ends|
  {
    var j := Sender(ops, ends, i);
    ends[i].result == Rejected && key == if j.Some? then ends[j.value].key else ""
  }

  /** A crash at operation `i` with no rejection there or later. */
  predicate HangsSince(ops: seq<CS.Op>, ends: seq<Ending>, n: nat, key: string, i: nat)
    requires i < n <= |ops| == |ends|
  {
    CrashedAt(ops, ends, i, key) && forall k :: i <= k < n ==> !RejectedAt(ops, ends, k, key)
  }

  /** The client is still waiting: it never got an answer, and no rejection came with or after some crash. */
  predicate Waiting(ops: seq<CS.Op>, ends: seq<Ending>, n: nat, key: string)
    requires n <= |ops| == |ends|
  {
    && (forall i :: 0 <= i < n ==> !AnsweredAt(ops, ends, i, key))
    && exists i :: 0 <= i < n && HangsSince(ops, ends, n, key, i)
  }

  /** The commands remembered, and the events written, after the first `n` operations. */
  function SpecsUpTo(ops: seq<CS.Op>, ends: seq<Ending>, n: nat): map<nat, Spec>
    requires n <= |ops| == |ends|
  {
    if n == 0 then map[] else SpecsAfter(ops[n - 1], ends[n - 1], SpecsUpTo(ops, ends, n - 1))
  }

  function EventsAt(ops: seq<CS.Op>, ends: seq<Ending>, i: nat): seq<Event>
    requires i < |ops| == |ends|
  {
    DispatchEvents(ops[i], ends[i], SpecsUpTo(ops, ends, i)) + EndEvents(ops[i], ends[i], SpecsUpTo(ops, ends, i + 1))
  }

  function LogUpTo(ops: seq<CS.Op>, ends: seq<Ending>, n: nat): seq<Event>
    requires n <= |ops| == |ends|
  {
    if n == 0 then [] else LogUpTo(ops, ends, n - 1) + EventsAt(ops, ends, n - 1)
  }

  lemma CommandsOf(op: CS.Op, key: string)
    ensures SpecFor(op, key).Some? <==> HasCommand(op)
    ensures SpecFor(op, key).Some? ==>
              && SpecFor(op, key).value.key == key && SpecFor(op, key).value.opIndex == op.index
              && (SpecFor(op, key).value.kind.Payout? <==> op.kind.Payout?)
  {
  }

  lemma {:induction false} RememberedIsLast(ops: seq<CS.Op>, ends: seq<Ending>, n: nat, index: nat)
    requires n <= |ops| == |ends|
    ensures var j := LastWith(ops, ends, n, index);
            && (index in SpecsUpTo(ops, ends, n) <==> j.Some?)
            && (j.Some? ==> SpecFor(ops[j.value], ends[j.value].key) == Some(SpecsUpTo(ops, ends, n)[index]))
  {
    if n > 0 {
      RememberedIsLast(ops, ends, n - 1, index);
      CommandsOf(ops[n - 1], ends[n - 1].key);
    }
  }

  /** The command an operation stands for, in the driver's map and in the schedule. */
  lemma StoodFor(ops: seq<CS.Op>, ends: seq<Ending>, i: nat)
    requires i < |ops| == |ends|
    ensures var spec, j := SpecOf(ops[i], SpecsUpTo(ops, ends, i + 1)), Sender(ops, ends, i);
            && (spec.Some? <==> j.Some?)
            && (j.Some? ==>
                  && spec == SpecFor(ops[j.value], ends[j.value].key)
                  && spec.value.key == ends[j.value].key && (spec.value.kind.Payout? <==> ops[j.value].kind.Payout?))
  {
    hide SpecsUpTo, LastWith;
    var index := if ops[i].kind.Replay? then ops[i].ref else Some(ops[i].index);
    if index.Some? {
      RememberedIsLast(ops, ends, i + 1, index.value);
      var j := LastWith(ops, ends, i + 1, index.value);
      if j.Some? {
        CommandsOf(ops[j.value], ends[j.value].key);
      }
    }
  }

  /** An operation that makes a command stands for it, and one that makes none leaves the map as it is. */
  lemma OwnCommand(ops: seq<CS.Op>, ends: seq<Ending>, i: nat)
    requires i < |ops| == |ends|
    ensures HasCommand(ops[i]) && !ends[i].skipped ==> Sender(ops, ends, i) == Some(i)
    ensures !(HasCommand(ops[i]) && !ends[i].skipped) ==> SpecsUpTo(ops, ends, i + 1) == SpecsUpTo(ops, ends, i)
  {
    CommandsOf(ops[i], ends[i].key);
  }

  lemma {:induction false} FiredAcks(spec: Spec, outcomes: seq<Result>, key: string)
    ensures Acked(Fired(spec, outcomes), key) <==> spec.key == key && Answered in outcomes
    ensures forall e :: e in Fired(spec, outcomes) ==> e == Ack(spec)
  {
    if outcomes != [] {
      var front, last := outcomes[..|outcomes| - 1], outcomes[|outcomes| - 1];
      FiredAcks(spec, front, key);
      assert outcomes == front + [last];
      if last.Answered? {
        AckedSnoc(Fired(spec, front), Ack(spec), key);
      } else {
        assert Fired(spec, outcomes) == Fired(spec, front);
      }
    }
  }

  lemma {:induction false} CrashesSeen(spec: Spec, outcomes: seq<Result>)
    ensures forall e :: e in SeenCrashes(spec, outcomes) ==> e == Crash(spec)
    ensures Crash(spec) in SeenCrashes(spec, outcomes) <==> Crashed in outcomes
  {
    if outcomes != [] {
      var front, last := outcomes[..|outcomes| - 1], outcomes[|outcomes| - 1];
      CrashesSeen(spec, front);
      assert outcomes == front + [last];
    }
  }

  /** What a stretch of the log says, by which events are in it. */
  lemma AckedIn(log: seq<Event>, key: string)
    ensures Acked(log, key) <==> exists e :: e in log && e.Ack? && e.spec.key == key
  {
    if e :| e in log && e.Ack? && e.spec.key == key {
      var i :| 0 <= i < |log| && log[i] == e;
    }
  }

  lemma AckedBoth(a: seq<Event>, b: seq<Event>, key: string)
    ensures Acked(a + b, key) <==> Acked(a, key) || Acked(b, key)
  {
    AckedIn(a, key);
    AckedIn(b, key);
    AckedIn(a + b, key);
  }

  lemma HangingBoth(a: seq<Event>, b: seq<Event>, key: string)
    ensures Hanging(a + b, key) <==> Hanging(b, key) || (Hanging(a, key) && Reject(key) !in b)
  {
    var all := a + b;
    forall i | 0 <= i < |b| ensures LeftHanging(b, key, i) <==> LeftHanging(all, key, |a| + i) {
      assert forall j :: i < j < |b| ==> b[j] == all[|a| + j];
      assert forall j :: |a| + i < j < |all| ==> all[j] == b[j - |a|];
    }
    forall i | 0 <= i < |a| ensures LeftHanging(all, key, i) <==> LeftHanging(a, key, i) && Reject(key) !in b {
      assert forall j :: i < j < |a| ==> a[j] == all[j];
      assert forall j :: 0 <= j < |b| ==> all[|a| + j] == b[j];
    }
    if Hanging(all, key) {
      var i :| 0 <= i < |all| && LeftHanging(all, key, i);
      if i >= |a| {
        assert LeftHanging(b, key, i - |a|);
      }
    }
    if i :| 0 <= i < |b| && LeftHanging(b, key, i) {
      assert LeftHanging(all, key, |a| + i);
    }
  }

  /** Without a rejection in it, a stretch hangs exactly when it has a crash. */
  lemma HangingIn(log: seq<Event>, key: string)
    requires Reject(key) !in log
    ensures Hanging(log, key) <==> exists e :: e in log && e.Crash? && e.spec.key == key
  {
    if e :| e in log && e.Crash? && e.spec.key == key {
      var i :| 0 <= i < |log| && log[i] == e;
      assert LeftHanging(log, key, i);
    }
  }

  /** The answers of one operation. */
  lemma AnswersExactly(ops: seq<CS.Op>, ends: seq<Ending>, i: nat, key: string)
    requires i < |ops| == |ends|
    ensures Acked(EventsAt(ops, ends, i), key) <==> AnsweredAt(ops, ends, i, key)
  {
    hide SpecsUpTo, Sender, Acked;
    var op, end := ops[i], ends[i];
    AckedIn(EventsAt(ops, ends, i), key);
    StoodFor(ops, ends, i);
    OwnCommand(ops, ends, i);
    CommandsOf(op, end.key);
    if HasCommand(op) && !end.skipped {
      var spec := SpecFor(op, end.key).value;
      FiredAcks(spec, end.threads, key);
      AckedIn(Fired(spec, end.threads), key);
      CrashesSeen(spec, end.threads);
    }
  }

  /** What running an operation writes, but for answers: the crashes of its threads. */
  lemma DispatchCrashes(ops: seq<CS.Op>, ends: seq<Ending>, i: nat, key: string)
    requires i < |ops| == |ends|
    ensures var events := DispatchEvents(ops[i], ends[i], SpecsUpTo(ops, ends, i));
            && Reject(key) !in events
            && (Hanging(events, key) <==>
                && ops[i].kind.Duplicate? && HasCommand(ops[i]) && !ends[i].skipped && Crashed in ends[i].threads
                && ends[i].key == key)
  {
    hide SpecsUpTo, Hanging;
    var op, end := ops[i], ends[i];
    var events := DispatchEvents(op, end, SpecsUpTo(ops, ends, i));
    CommandsOf(op, end.key);
    if op.kind.Duplicate? && HasCommand(op) && !end.skipped {
      var spec := SpecFor(op, end.key).value;
      FiredAcks(spec, end.threads, key);
      CrashesSeen(spec, end.threads);
      assert forall e :: e in events <==> e in Fired(spec, end.threads) || e in SeenCrashes(spec, end.threads);
      assert Crashed in end.threads ==> Crash(spec) in events;
    }
    HangingIn(events, key);
  }

  lemma EndExactly(ops: seq<CS.Op>, ends: seq<Ending>, i: nat, key: string)
    requires i < |ops| == |ends|
    ensures var events := EndEvents(ops[i], ends[i], SpecsUpTo(ops, ends, i + 1));
            && (Reject(key) in events <==> RejectedAt(ops, ends, i, key))
            && (Hanging(events, key) <==> Sends(ops, ends, i, key) && ends[i].result == Crashed)
  {
    hide SpecsUpTo, Sender;
    StoodFor(ops, ends, i);
    var events := EndEvents(ops[i], ends[i], SpecsUpTo(ops, ends, i + 1));
    if !ends[i].result.Rejected? {
      HangingIn(events, key);
    }
  }

  /** The crashes and the rejection of one operation. */
  lemma CrashesExactly(ops: seq<CS.Op>, ends: seq<Ending>, i: nat, key: string)
    requires i < |ops| == |ends|
    ensures Reject(key) in EventsAt(ops, ends, i) <==> RejectedAt(ops, ends, i, key)
    ensures Hanging(EventsAt(ops, ends, i), key) <==>
            CrashedAt(ops, ends, i, key) && !RejectedAt(ops, ends, i, key)
  {
    hide SpecsUpTo, Sender, Hanging, DispatchEvents, EndEvents;
    OwnCommand(ops, ends, i);
    DispatchCrashes(ops, ends, i, key);
    EndExactly(ops, ends, i, key);
    HangingBoth(DispatchEvents(ops[i], ends[i], SpecsUpTo(ops, ends, i)),
                EndEvents(ops[i], ends[i], SpecsUpTo(ops, ends, i + 1)), key);
  }

  lemma LogGrows(ops: seq<CS.Op>, ends: seq<Ending>, n: nat)
    requires 0 < n <= |ops| == |ends|
    ensures LogUpTo(ops, ends, n) == LogUpTo(ops, ends, n - 1) + EventsAt(ops, ends, n - 1)
  {
    hide EventsAt;
  }

  /** The log says who was answered and who is waiting, exactly as the schedule and its endings do. */
  lemma {:induction false} AnswersLogged(ops: seq<CS.Op>, ends: seq<Ending>, n: nat, key: string)
    requires n <= |ops| == |ends|
    ensures Acked(LogUpTo(ops, ends, n), key) <==> exists i :: 0 <= i < n && AnsweredAt(ops, ends, i, key)
  {
    hide EventsAt, AnsweredAt;
    if n > 0 {
      hide Acked, LogUpTo;
      var m := n - 1;
      LogGrows(ops, ends, n);
      AnswersLogged(ops, ends, m, key);
      AckedBoth(LogUpTo(ops, ends, m), EventsAt(ops, ends, m), key);
      AnswersExactly(ops, ends, m, key);
    }
  }

  lemma HangsOn(ops: seq<CS.Op>, ends: seq<Ending>, n: nat, key: string, i: nat)
    requires i < n < |ops| == |ends|
    ensures HangsSince(ops, ends, n + 1, key, i) <==> HangsSince(ops, ends, n, key, i) && !RejectedAt(ops, ends, n, key)
  {
    hide CrashedAt, RejectedAt;
  }

  lemma {:induction false} CrashesLogged(ops: seq<CS.Op>, ends: seq<Ending>, n: nat, key: string)
    requires n <= |ops| == |ends|
    ensures Hanging(LogUpTo(ops, ends, n), key) <==> exists i :: 0 <= i < n && HangsSince(ops, ends, n, key, i)
  {
    hide EventsAt, CrashedAt, RejectedAt;
    if n > 0 {
      var m := n - 1;
      assert HangsSince(ops, ends, n, key, m) <==> CrashedAt(ops, ends, m, key) && !RejectedAt(ops, ends, m, key);
      hide LogUpTo, Hanging, HangsSince;
      LogGrows(ops, ends, n);
      CrashesLogged(ops, ends, m, key);
      HangingBoth(LogUpTo(ops, ends, m), EventsAt(ops, ends, m), key);
      CrashesExactly(ops, ends, m, key);
      forall i | 0 <= i < m
        ensures HangsSince(ops, ends, n, key, i) <==> HangsSince(ops, ends, m, key, i) && !RejectedAt(ops, ends, m, key)
      {
        HangsOn(ops, ends, m, key, i);
      }
    }
  }

  /** So do the books. */
  lemma BooksOfSchedule(ops: seq<CS.Op>, ends: seq<Ending>, key: string)
    requires |ops| == |ends|
    ensures var books := Run(LogUpTo(ops, ends, |ops|));
            && (key in books.answered <==> exists i :: 0 <= i < |ops| && AnsweredAt(ops, ends, i, key))
            && (key in books.unacked <==> Waiting(ops, ends, |ops|, key))
  {
    hide LogUpTo, Acked, Hanging, AnsweredAt, HangsSince;
    BooksAreExact(LogUpTo(ops, ends, |ops|), key);
    AnswersLogged(ops, ends, |ops|, key);
    CrashesLogged(ops, ends, |ops|, key);
  }

  class SeedContext {
    var unacked: map<string, Spec>
    var answered: set<string>
    var specs: map<nat, Spec>
    var failures: nat
    ghost var log: seq<Event>

    ghost predicate Valid()
      reads this
    {
      Books(unacked, answered) == Run(log) && Guarded(log)
    }

    constructor ()
      ensures Valid() && log == [] && specs == map[] && failures == 0
    {
      unacked, answered, specs, failures, log := map[], {}, map[], 0, [];
    }

    ghost method Note(e: Event)
      modifies this`log
      ensures log == old(log) + [e] && Run(log) == Apply(Run(old(log)), e)
      ensures Guarded(old(log)) && (!e.Reject? ==> !e.spec.kind.Payout?) ==> Guarded(log)
    {
      log := log + [e];
      assert log[..|log| - 1] == old(log);
    }

    /** `fail`: keeps the first 25. */
    method Fail()
      modifies this`failures
      ensures failures >= 1 && failures >= old(failures)
      ensures failures == if old(failures) < 25 then old(failures) + 1 else old(failures)
    {
      if failures < MAX_FAILURES {
        failures := failures + 1;
      }
    }

    method RecordAck(spec: Spec)
      requires Valid() && !spec.kind.Payout?
      modifies this`unacked, this`answered, this`log
      ensures Valid() && log == old(log) + [Ack(spec)]
      ensures unacked == old(unacked) - {spec.key} && answered == old(answered) + {spec.key}
    {
      answered := answered + {spec.key};
      unacked := unacked - {spec.key};
      Note(Ack(spec));
    }

    /** A crash: the key is owed an answer unless it already has one. */
    method OweAnswer(spec: Spec)
      requires Valid() && !spec.kind.Payout?
      modifies this`unacked, this`log
      ensures Valid() && log == old(log) + [Crash(spec)]
    {
      if spec.key !in answered {
        unacked := unacked[spec.key := spec];
      }
      Note(Crash(spec));
    }

    method Dismiss(key: string)
      requires Valid()
      modifies this`unacked, this`log
      ensures Valid() && log == old(log) + [Reject(key)] && unacked == old(unacked) - {key}
    {
      unacked := unacked - {key};
      Note(Reject(key));
    }

    /** `execute_command`: a payout never reaches `_record_ack`, and no crash point lies after it. */
    method ExecuteCommand(spec: Spec, result: Result)
      requires Valid()
      modifies this`unacked, this`answered, this`log
      ensures Valid()
      ensures log == old(log) + if result.Answered? && !spec.kind.Payout? then [Ack(spec)] else []
      ensures answered == old(answered) + if result.Answered? && !spec.kind.Payout? then {spec.key} else {}
      ensures unacked == if result.Answered? && !spec.kind.Payout? then old(unacked) - {spec.key} else old(unacked)
    {
      if result.Answered? && !spec.kind.Payout? {
        RecordAck(spec);
      }
    }

    /** The duplicate threads, whose only locked step is recording an answer. */
    method FireAll(spec: Spec, outcomes: seq<Result>)
      requires Valid() && !spec.kind.Payout?
      modifies this`unacked, this`answered, this`log
      ensures Valid() && log == old(log) + Fired(spec, outcomes)
    {
      for i := 0 to |outcomes|
        invariant Valid() && log == old(log) + Fired(spec, outcomes[..i])
      {
        assert outcomes[..i + 1][..i] == outcomes[..i];
        ExecuteCommand(spec, outcomes[i]);
      }
      assert outcomes[..|outcomes|] == outcomes;
    }

    /** One outcome, as the driver finds it when all threads are done. */
    method Tally(spec: Spec, outcome: Result)
      requires Valid() && !spec.kind.Payout?
      modifies this`unacked, this`log, this`failures
      ensures Valid() && log == old(log) + if outcome.Crashed? then [Crash(spec)] else []
      ensures failures >= 1 <==> old(failures) >= 1 || outcome.Failed?
    {
      if outcome.Crashed? {
        OweAnswer(spec);
      } else if outcome.Failed? {
        Fail();
      }
    }

    /** One command fired from several threads. */
    method RunDuplicates(spec: Spec, outcomes: seq<Result>)
      requires Valid() && !spec.kind.Payout?
      modifies this`unacked, this`answered, this`log, this`failures
      ensures Valid() && log == old(log) + (Fired(spec, outcomes) + SeenCrashes(spec, outcomes))
      ensures failures >= 1 <==> old(failures) >= 1 || Failed in outcomes
    {
      hide Run, Guarded, Fired;
      FireAll(spec, outcomes);
      ghost var fired := log;
      for i := 0 to |outcomes|
        invariant Valid() && log == fired + SeenCrashes(spec, outcomes[..i])
        invariant failures >= 1 <==> old(failures) >= 1 || Failed in outcomes[..i]
      {
        assert outcomes[..i + 1][..i] == outcomes[..i];
        Tally(spec, outcomes[i]);
      }
      assert outcomes[..|outcomes|] == outcomes;
    }

    /** `_dispatch_op`: remembers the operation's command and runs it, or replays an earlier one. */
    method DispatchOp(op: CS.Op, end: Ending)
      requires Valid()
      modifies this
      ensures Valid() && specs == SpecsAfter(op, end, old(specs))
      ensures failures >= 1 <==>
              old(failures) >= 1 || (op.kind.Duplicate? && HasCommand(op) && !end.skipped && Failed in end.threads)
      ensures log == old(log) + DispatchEvents(op, end, old(specs))
    {
      if op.kind.Replay? {
        if op.ref.Some? && op.ref.value in specs {
          ExecuteCommand(specs[op.ref.value], end.result);
        }
        return;
      }
      var spec := SpecFor(op, end.key);
      if spec.None? || end.skipped {
        return;
      }
      specs := specs[op.index := spec.value];
      if op.kind.Duplicate? {
        RunDuplicates(spec.value, end.threads);
      } else {
        ExecuteCommand(spec.value, end.result);
      }
    }

    /** The exception handlers of `run_op`. */
    method HandleEnd(op: CS.Op, end: Ending)
      requires Valid()
      modifies this`unacked, this`log, this`failures
      ensures Valid() && log == old(log) + EndEvents(op, end, specs)
      ensures failures >= 1 <==> old(failures) >= 1 || end.result == Failed
    {
      var spec := SpecOf(op, specs);
      if end.result.Crashed? && spec.Some? && !spec.value.kind.Payout? {
        OweAnswer(spec.value);
      } else if end.result.Rejected? {
        Dismiss(if spec.Some? then spec.value.key else "");
      } else if end.result.Failed? {
        Fail();
      }
    }

    /** `run_op`: whatever the dispatch raises ends up in the books. */
    method RunOp(op: CS.Op, end: Ending)
      requires Valid()
      modifies this
      ensures Valid() && specs == SpecsAfter(op, end, old(specs))
      ensures log == old(log) + DispatchEvents(op, end, old(specs)) + EndEvents(op, end, specs)
      ensures failures >= 1 <==> old(failures) >= 1 || FailedAt(op, end)
    {
      DispatchOp(op, end);
      HandleEnd(op, end);
    }

    /** One retry: an answer or a rejection settles it, a failure leaves it owed. */
    method Retry(spec: Spec, result: Result)
      requires Valid() && result != Crashed && !spec.kind.Payout?
      modifies this`unacked, this`answered, this`log, this`failures
      ensures Valid() && unacked == if result.Failed? then old(unacked) else old(unacked) - {spec.key}
      ensures answered == old(answered) + if result.Answered? then {spec.key} else {}
      ensures failures >= 1 <==> old(failures) >= 1 || result.Failed?
    {
      ExecuteCommand(spec, result);
      match result {
        case Answered =>
        case Rejected => Dismiss(spec.key);
        case Failed => Fail();
      }
    }

    /**
     The client-retry loop of `quiesce`, over the commands owed an answer when it starts and in any
     order. No crash point is armed, so a retry is answered, rejected or fails unexpectedly.
     */
    method RetryUnanswered(outcome: string -> Result)
      requires Valid() && forall k :: outcome(k) != Crashed
      modifies this`unacked, this`answered, this`log, this`failures
      ensures Valid() && unacked.Keys == set k | k in old(unacked) && outcome(k).Failed?
      ensures answered == old(answered) + set k | k in old(unacked) && outcome(k).Answered?
      ensures failures >= 1 <==> old(failures) >= 1 || exists k :: k in old(unacked) && outcome(k).Failed?
    {
      NeverBoth(log);
      NoPayoutOwed(log);
      hide Run, Guarded;
      var owed := unacked;
      var remaining := owed.Keys;
      while remaining != {}
        invariant remaining <= owed.Keys == old(unacked.Keys)
        invariant Valid()
        invariant forall k :: k in answered <==>
                    k in old(answered) || (k in owed && k !in remaining && outcome(k).Answered?)
        invariant forall k :: k in unacked <==> k in remaining || (k in owed && k !in remaining && outcome(k).Failed?)
        invariant failures >= 1 <==>
                  old(failures) >= 1 || exists k :: k in owed && k !in remaining && outcome(k).Failed?
        decreases remaining
      {
        var key :| key in remaining;
        Retry(owed[key], outcome(key));
        remaining := remaining - {key};
      }
    }
  }

  /** Something went wrong that is no crash and no rejection: in the operation, or in a thread of it. */
  predicate FailedAt(op: CS.Op, end: Ending) {
    || end.result == Failed
    || (op.kind.Duplicate? && HasCommand(op) && !end.skipped && Failed in end.threads)
  }

  /**
   Every schedule under every environment. A client is answered exactly when some operation that stood for
   its command was, and is owed an answer exactly when it never got one and some such operation, or a
   thread of it, crashed with no rejection since. No payout is owed anything. After the retry loop exactly
   those are owed one whose retry failed, and a failure is reported exactly when something failed.
   */
  method DriveSeed(ops: seq<CS.Op>, ends: seq<Ending>, outcome: string -> Result)
    returns (before: Books, after: Books, failures: nat)
    requires |ends| == |ops| && forall k :: outcome(k) != Crashed
    ensures forall key :: key in before.answered <==> exists i :: 0 <= i < |ops| && AnsweredAt(ops, ends, i, key)
    ensures forall key :: key in before.unacked <==> Waiting(ops, ends, |ops|, key)
    ensures before.unacked.Keys !! before.answered && after.unacked.Keys !! after.answered
    ensures forall k :: k in before.unacked ==> !before.unacked[k].kind.Payout? && before.unacked[k].key == k
    ensures after.unacked.Keys == set k | k in before.unacked && outcome(k).Failed?
    ensures after.answered == before.answered + set k | k in before.unacked && outcome(k).Answered?
    ensures failures >= 1 <==>
            || (exists i :: 0 <= i < |ops| && FailedAt(ops[i], ends[i]))
            || (exists k :: k in before.unacked && outcome(k).Failed?)
  {
    hide AnsweredAt, Waiting, FailedAt, Run, SpecsAfter, DispatchEvents, EndEvents;
    var ctx := new SeedContext();
    for i := 0 to |ops|
      invariant ctx.Valid() && fresh(ctx)
      invariant ctx.specs == SpecsUpTo(ops, ends, i) && ctx.log == LogUpTo(ops, ends, i)
      invariant ctx.failures >= 1 <==> exists j :: 0 <= j < i && FailedAt(ops[j], ends[j])
    {
      ctx.RunOp(ops[i], ends[i]);
    }
    before := Books(ctx.unacked, ctx.answered);
    NeverBoth(ctx.log);
    NoPayoutOwed(ctx.log);
    forall key
      ensures key in before.answered <==> exists i :: 0 <= i < |ops| && AnsweredAt(ops, ends, i, key)
      ensures key in before.unacked <==> Waiting(ops, ends, |ops|, key)
    {
      BooksOfSchedule(ops, ends, key);
    }
    ctx.RetryUnanswered(outcome);
    after, failures := Books(ctx.unacked, ctx.answered), ctx.failures;
    NeverBoth(ctx.log);
  }
}
