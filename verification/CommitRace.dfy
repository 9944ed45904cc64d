/**
 Concurrent commits against the payout coverage trigger. Migration 0020 lets each commit check its
 merchant's sums on its own; migration 0030 first takes an advisory lock on the merchant, held to the
 end of the commit. Here transactions interleave freely: a transaction sees the committed rows and
 its own, never those of another open transaction (PostgreSQL READ COMMITTED).
 */
module CommitRace {
  import opened Sums
  import opened Basics

  /** The rows that move a merchant's coverage: AVAILABLE postings and payout reservations. */
  datatype Row =
    | CreditRow(merchant: Id, amount: int)
    | DebitRow(merchant: Id, amount: int)
    | ReservationRow(merchant: Id, delta: int)

  function Effect(merchant: Id, r: Row): int {
    if r.merchant != merchant then 0 else
    match r
    case CreditRow(_, amount) => amount
    case DebitRow(_, amount) => -amount
    case ReservationRow(_, delta) => -delta
  }

  function SlackOf(merchant: Id): Row -> int {
    (r: Row) => Effect(merchant, r)
  }

  /** Available less reserved. */
  function Slack(rows: seq<Row>, merchant: Id): int {
    Sum(rows, SlackOf(merchant))
  }

  /** `CHECK (amount > 0)` on postings. */
  predicate Insertable(rows: seq<Row>) {
    forall r :: r in rows && !r.ReservationRow? ==> r.amount > 0
  }

  /** The deferred trigger fires for the merchant: a reservation row, or a debit of its AVAILABLE account. */
  predicate Fires(rows: seq<Row>, merchant: Id) {
    exists r :: r in rows && r.merchant == merchant && !r.CreditRow?
  }

  /** A transaction that has run its statements and is on its way to commit. */
  datatype Open = Open(rows: seq<Row>, checked: set<Id>)

  datatype State = State(
    committed: seq<Row>,
    open: map<Id, Open>,
    locks: map<Id, Id>,      // merchant -> transaction holding its advisory lock
    log: seq<seq<Row>>)      // the transactions committed so far, in commit order

  const START := State([], map[], map[], [])

  datatype Step =
    | Begin(tx: Id, rows: seq<Row>)
    | Lock(tx: Id, merchant: Id)
    | Check(tx: Id, merchant: Id)
    | Commit(tx: Id)
    | Abort(tx: Id)

  function Closed(s: State, tx: Id): State {
    s.(open := s.open - {tx}, locks := map m | m in s.locks && s.locks[m] != tx :: s.locks[m])
  }

  predicate MayCommit(o: Open) {
    forall r :: r in o.rows && !r.CreditRow? ==> r.merchant in o.checked
  }

  /** One step of one transaction; None when it has to wait or makes no sense. `locking` is migration 0030. */
  function Next(locking: bool, s: State, step: Step): Option<State> {
    match step
    case Begin(tx, rows) =>
      if tx in s.open || !Insertable(rows) then None else Some(s.(open := s.open[tx := Open(rows, {})]))
    case Lock(tx, merchant) =>
      if tx !in s.open || (merchant in s.locks && s.locks[merchant] != tx) then None
      else Some(s.(locks := s.locks[merchant := tx]))
    case Check(tx, merchant) =>
      if tx !in s.open then None
      else if locking && (merchant !in s.locks || s.locks[merchant] != tx) then None
      else if Slack(s.committed + s.open[tx].rows, merchant) < 0 then Some(Closed(s, tx))
      else Some(s.(open := s.open[tx := s.open[tx].(checked := s.open[tx].checked + {merchant})]))
    case Commit(tx) =>
      if tx !in s.open || !MayCommit(s.open[tx]) then None
      else Some(Closed(s.(committed := s.committed + s.open[tx].rows, log := s.log + [s.open[tx].rows]), tx))
    case Abort(tx) =>
      if tx !in s.open then None else Some(Closed(s, tx))
  }

  /** Any interleaving: steps that cannot be taken are skipped. */
  function Interleave(locking: bool, steps: seq<Step>): State {
    if steps == [] then START else
    var s := Interleave(locking, steps[..|steps| - 1]);
    var t := Next(locking, s, steps[|steps| - 1]);
    if t.None? then s else t.value
  }

  // --- the serial guard ------------------------------------------------------------------------

  function Flatten(log: seq<seq<Row>>): seq<Row> {
    if log == [] then [] else Flatten(log[..|log| - 1]) + log[|log| - 1]
  }

  /** The trigger of migration 0020 accepts this transaction when it commits alone. */
  ghost predicate SerialAccepts(committed: seq<Row>, rows: seq<Row>) {
    Insertable(rows) && forall m: Id :: Fires(rows, m) ==> 0 <= Slack(committed + rows, m)
  }

  ghost predicate SerialRun(log: seq<seq<Row>>) {
    log == [] || (SerialRun(log[..|log| - 1]) && SerialAccepts(Flatten(log[..|log| - 1]), log[|log| - 1]))
  }

  ghost predicate Covered(rows: seq<Row>) {
    forall m: Id :: 0 <= Slack(rows, m)
  }

  lemma CreditsOnlyHelp(rows: seq<Row>, merchant: Id)
    requires Insertable(rows) && !Fires(rows, merchant)
    ensures 0 <= Slack(rows, merchant)
  {
    forall r | r in rows ensures 0 <= SlackOf(merchant)(r) {}
    SumNonNegative(rows, SlackOf(merchant));
  }

  lemma AcceptedStaysCovered(committed: seq<Row>, rows: seq<Row>)
    requires Covered(committed) && SerialAccepts(committed, rows)
    ensures Covered(committed + rows)
  {
    forall m: Id ensures 0 <= Slack(committed + rows, m) {
      if !Fires(rows, m) {
        CreditsOnlyHelp(rows, m);
        assert 0 <= Slack(committed, m);
        SumAppend(committed, rows, SlackOf(m));
      }
    }
  }

  /** Committed one after the other, transactions the trigger accepts never leave a merchant overdrawn. */
  lemma {:induction false} SerialRunsAreCovered(log: seq<seq<Row>>)
    requires SerialRun(log)
    ensures Covered(Flatten(log))
  {
    if log != [] {
      SerialRunsAreCovered(log[..|log| - 1]);
      AcceptedStaysCovered(Flatten(log[..|log| - 1]), log[|log| - 1]);
    }
  }

  // --- with the advisory lock ------------------------------------------------------------------

  /** A passed check is still good: its lock is held and the sums still cover the transaction. */
  ghost predicate ChecksHold(s: State) {
    forall tx :: tx in s.open ==>
      Insertable(s.open[tx].rows) && forall m :: m in s.open[tx].checked ==> CheckHolds(s, tx, m)
  }

  ghost predicate CheckHolds(s: State, tx: Id, m: Id)
    requires tx in s.open
  {
    m in s.locks && s.locks[m] == tx && 0 <= Slack(s.committed + s.open[tx].rows, m)
  }

  ghost predicate Inv(s: State) {
    s.committed == Flatten(s.log) && SerialRun(s.log) && ChecksHold(s)
  }

  lemma CommitKeepsChecks(s: State, tx: Id)
    requires ChecksHold(s) && tx in s.open && MayCommit(s.open[tx])
    ensures ChecksHold(Next(true, s, Commit(tx)).value)
  {
    var t := Next(true, s, Commit(tx)).value;
    var rows := s.open[tx].rows;
    forall other, m | other in t.open && m in t.open[other].checked ensures CheckHolds(t, other, m) {
      assert CheckHolds(s, other, m);
      assert m in s.open[tx].checked ==> CheckHolds(s, tx, m);
      CreditsOnlyHelp(rows, m);
      SumAppend(s.committed, rows, SlackOf(m));
      SumAppend(s.committed, s.open[other].rows, SlackOf(m));
      SumAppend(t.committed, s.open[other].rows, SlackOf(m));
    }
  }

  lemma CommitIsSerial(s: State, tx: Id)
    requires Inv(s) && tx in s.open && MayCommit(s.open[tx])
    ensures var t := Next(true, s, Commit(tx)).value; t.committed == Flatten(t.log) && SerialRun(t.log)
  {
    var t := Next(true, s, Commit(tx)).value;
    var rows := s.open[tx].rows;
    assert t.log[..|t.log| - 1] == s.log;
    forall m: Id | Fires(rows, m) ensures 0 <= Slack(s.committed + rows, m) {
      assert m in s.open[tx].checked;
      assert CheckHolds(s, tx, m);
    }
  }

  lemma StepKeepsInv(s: State, step: Step)
    requires Inv(s) && Next(true, s, step).Some?
    ensures Inv(Next(true, s, step).value)
  {
    if step.Commit? {
      CommitIsSerial(s, step.tx);
      CommitKeepsChecks(s, step.tx);
    }
  }

  lemma {:induction false} InterleavingsKeepInv(steps: seq<Step>)
    ensures Inv(Interleave(true, steps))
  {
    if steps != [] {
      InterleavingsKeepInv(steps[..|steps| - 1]);
      var s := Interleave(true, steps[..|steps| - 1]);
      if Next(true, s, steps[|steps| - 1]).Some? {
        StepKeepsInv(s, steps[|steps| - 1]);
      }
    }
  }

  /** With the lock, every interleaving commits exactly a serial run that the guard accepts. */
  lemma LockedCommitsAreSerial(steps: seq<Step>)
    ensures var s := Interleave(true, steps); s.committed == Flatten(s.log) && SerialRun(s.log)
  {
    InterleavingsKeepInv(steps);
  }

  /** With the lock, no interleaving of any number of transactions overdraws any merchant. */
  lemma LockedCommitsNeverOverdraw(steps: seq<Step>, merchant: Id)
    ensures 0 <= Slack(Interleave(true, steps).committed, merchant)
  {
    InterleavingsKeepInv(steps);
    SerialRunsAreCovered(Interleave(true, steps).log);
  }

  lemma OneMore(locking: bool, steps: seq<Step>, step: Step, s: State)
    requires Next(locking, Interleave(locking, steps), step) == Some(s)
    ensures Interleave(locking, steps + [step]) == s
  {
    assert (steps + [step])[..|steps|] == steps;
  }

  // --- every serial run is one of its interleavings --------------------------------------------

  function FiredBy(r: Row): set<Id> {
    if r.CreditRow? then {} else {r.merchant}
  }

  /** The merchants of the rows that fire the trigger. */
  function Fired(rows: seq<Row>): (ms: set<Id>)
    ensures forall m :: m in ms <==> Fires(rows, m)
  {
    if rows == [] then {} else
    var last := rows[|rows| - 1];
    assert forall r :: r in rows <==> r in rows[..|rows| - 1] || r == last;
    Fired(rows[..|rows| - 1]) + FiredBy(last)
  }

  /** The trigger runs for each row in turn: it takes the lock, which it may hold already, and checks. */
  function GuardOf(tx: Id, r: Row): seq<Step> {
    if r.CreditRow? then [] else [Lock(tx, r.merchant)] + [Check(tx, r.merchant)]
  }

  function Guarding(tx: Id, rows: seq<Row>): seq<Step> {
    if rows == [] then [] else Guarding(tx, rows[..|rows| - 1]) + GuardOf(tx, rows[|rows| - 1])
  }

  function Held(done: set<Id>, tx: Id): map<Id, Id> {
    map m | m in done :: tx
  }

  function Midway(log: seq<seq<Row>>, tx: Id, rows: seq<Row>, done: set<Id>): State {
    State(Flatten(log), map[tx := Open(rows, done)], Held(done, tx), log)
  }

  function Locked(log: seq<seq<Row>>, tx: Id, rows: seq<Row>, done: set<Id>, m: Id): State {
    Midway(log, tx, rows, done).(locks := Held(done + {m}, tx))
  }

  lemma GuardSteps(log: seq<seq<Row>>, tx: Id, rows: seq<Row>, done: set<Id>, m: Id)
    requires 0 <= Slack(Flatten(log) + rows, m)
    ensures Next(true, Midway(log, tx, rows, done), Lock(tx, m)) == Some(Locked(log, tx, rows, done, m))
    ensures Next(true, Locked(log, tx, rows, done, m), Check(tx, m)) == Some(Midway(log, tx, rows, done + {m}))
  {
    hide Slack, Flatten;
    assert Held(done, tx)[m := tx] == Held(done + {m}, tx);
    assert map[tx := Open(rows, done)][tx := Open(rows, done + {m})] == map[tx := Open(rows, done + {m})];
  }

  lemma GuardPasses(log: seq<seq<Row>>, tx: Id, rows: seq<Row>, steps: seq<Step>, done: set<Id>, r: Row)
    requires r in rows && SerialAccepts(Flatten(log), rows) && Interleave(true, steps) == Midway(log, tx, rows, done)
    ensures Interleave(true, steps + GuardOf(tx, r)) == Midway(log, tx, rows, done + FiredBy(r))
  {
    hide Midway, Locked, Next, Slack, Flatten, Interleave;
    if r.CreditRow? {
      assert steps + GuardOf(tx, r) == steps && done + FiredBy(r) == done;
    } else {
      var m := r.merchant;
      assert Fires(rows, m);
      GuardSteps(log, tx, rows, done, m);
      OneMore(true, steps, Lock(tx, m), Locked(log, tx, rows, done, m));
      OneMore(true, steps + [Lock(tx, m)], Check(tx, m), Midway(log, tx, rows, done + {m}));
      assert steps + GuardOf(tx, r) == steps + [Lock(tx, m)] + [Check(tx, m)];
    }
  }

  lemma {:induction false} GuardsPass(log: seq<seq<Row>>, tx: Id, rows: seq<Row>, steps: seq<Step>, n: nat)
    requires n <= |rows| && SerialAccepts(Flatten(log), rows) && Interleave(true, steps) == Midway(log, tx, rows, {})
    ensures Interleave(true, steps + Guarding(tx, rows[..n])) == Midway(log, tx, rows, Fired(rows[..n]))
  {
    hide Midway, Next, Flatten, Interleave, SerialAccepts, GuardOf, FiredBy;
    if n == 0 {
      assert rows[..0] == [] && steps + [] == steps;
    } else {
      var front, last := rows[..n - 1], rows[n - 1];
      GuardsPass(log, tx, rows, steps, n - 1);
      assert rows[..n][..n - 1] == front && last == rows[..n][n - 1];
      GuardPasses(log, tx, rows, steps + Guarding(tx, front), Fired(front), last);
      assert steps + Guarding(tx, rows[..n]) == steps + Guarding(tx, front) + GuardOf(tx, last);
    }
  }

  function Quiet(log: seq<seq<Row>>): State {
    State(Flatten(log), map[], map[], log)
  }

  lemma BeginStep(log: seq<seq<Row>>, tx: Id, rows: seq<Row>)
    requires Insertable(rows)
    ensures Next(true, Quiet(log), Begin(tx, rows)) == Some(Midway(log, tx, rows, {}))
  {
    assert Held({}, tx) == map[];
  }

  lemma CommitStep(log: seq<seq<Row>>, tx: Id, rows: seq<Row>)
    ensures Next(true, Midway(log, tx, rows, Fired(rows)), Commit(tx)) == Some(Quiet(log + [rows]))
  {
    var s := Midway(log, tx, rows, Fired(rows));
    assert (log + [rows])[..|log|] == log;
    assert MayCommit(s.open[tx]);
    var t := s.(committed := s.committed + rows, log := s.log + [rows]);
    assert Closed(t, tx).open == map[] && Closed(t, tx).locks == map[];
  }

  /** One more transaction that the trigger accepts, from a state in which nothing is open. */
  lemma TransactionRuns(log: seq<seq<Row>>, tx: Id, rows: seq<Row>, steps: seq<Step>)
    requires SerialAccepts(Flatten(log), rows) && Interleave(true, steps) == Quiet(log)
    ensures exists more :: Interleave(true, steps + more) == Quiet(log + [rows])
  {
    hide Midway, Quiet, Next, Flatten, Guarding, Interleave;
    BeginStep(log, tx, rows);
    OneMore(true, steps, Begin(tx, rows), Midway(log, tx, rows, {}));
    GuardsPass(log, tx, rows, steps + [Begin(tx, rows)], |rows|);
    assert rows[..|rows|] == rows;
    CommitStep(log, tx, rows);
    var so := steps + [Begin(tx, rows)] + Guarding(tx, rows);
    OneMore(true, so, Commit(tx), Quiet(log + [rows]));
    assert so + [Commit(tx)] == steps + ([Begin(tx, rows)] + Guarding(tx, rows) + [Commit(tx)]);
  }

  lemma {:induction false} SerialRunsInterleave(log: seq<seq<Row>>)
    requires SerialRun(log)
    ensures exists steps :: Interleave(true, steps) == Quiet(log)
  {
    if log == [] {
      assert Interleave(true, []) == START;
    } else {
      var front := log[..|log| - 1];
      SerialRunsInterleave(front);
      var steps :| Interleave(true, steps) == Quiet(front);
      TransactionRuns(front, 0, log[|log| - 1], steps);
      assert front + [log[|log| - 1]] == log;
    }
  }

  /** What the lock lets commit, over all interleavings: exactly the runs that the trigger accepts serially. */
  lemma LockedLogsExactly(log: seq<seq<Row>>)
    ensures (exists steps :: Interleave(true, steps).log == log) <==> SerialRun(log)
  {
    if steps :| Interleave(true, steps).log == log {
      LockedCommitsAreSerial(steps);
    }
    if SerialRun(log) {
      SerialRunsInterleave(log);
      var steps :| Interleave(true, steps) == Quiet(log);
      assert Interleave(true, steps).log == log;
    }
  }

  // --- without the lock ------------------------------------------------------------------------

  function Funded(credit: int): seq<Row> { [CreditRow(1, credit)] }
  function Reserving(delta: int): seq<Row> { [ReservationRow(1, delta)] }

  /** Merchant 1 gets a credit, and transactions 1 and 2 are each about to reserve the same amount of it. */
  function Funding(credit: int): seq<Step> { [] + [Begin(0, Funded(credit))] + [Commit(0)] }

  function Racing(credit: int, delta: int): seq<Step> {
    Funding(credit) + [Begin(1, Reserving(delta))] + [Begin(2, Reserving(delta))]
  }

  function Checked(credit: int, delta: int): seq<Step> { Racing(credit, delta) + [Check(1, 1)] + [Check(2, 1)] }
  function Race(credit: int, delta: int): seq<Step> { Checked(credit, delta) + [Commit(1)] + [Commit(2)] }

  /** The two transactions, and which of them have passed their check. */
  function Both(delta: int, first: set<Id>, second: set<Id>): map<Id, Open> {
    map[1 := Open(Reserving(delta), first), 2 := Open(Reserving(delta), second)]
  }

  function After(credit: int, open: map<Id, Open>): State {
    State(Funded(credit), open, map[], [Funded(credit)])
  }

  lemma AfterFunding(credit: int)
    requires credit > 0
    ensures Interleave(false, Funding(credit)) == After(credit, map[])
  {
    var rows := Funded(credit);
    OneMore(false, [], Begin(0, rows), START.(open := map[0 := Open(rows, {})]));
    assert [] + rows == rows && [] + [rows] == [rows];
    OneMore(false, [] + [Begin(0, rows)], Commit(0), After(credit, map[]));
  }

  lemma AfterBegins(credit: int, delta: int)
    requires credit > 0
    ensures Interleave(false, Racing(credit, delta)) == After(credit, Both(delta, {}, {}))
  {
    AfterFunding(credit);
    var rows := Reserving(delta);
    OneMore(false, Funding(credit), Begin(1, rows), After(credit, map[1 := Open(rows, {})]));
    OneMore(false, Funding(credit) + [Begin(1, rows)], Begin(2, rows), After(credit, Both(delta, {}, {})));
  }

  /** A check sees the credit and its own reservation, never the other's. */
  lemma OwnSlack(credit: int, delta: int)
    ensures Slack(Funded(credit) + Reserving(delta), 1) == credit - delta
  {
    assert Funded(credit) + Reserving(delta) == [CreditRow(1, credit), ReservationRow(1, delta)];
    SumTwo(CreditRow(1, credit), ReservationRow(1, delta), SlackOf(1));
  }

  lemma AfterChecks(credit: int, delta: int)
    requires credit > 0 && delta <= credit
    ensures Interleave(false, Checked(credit, delta)) == After(credit, Both(delta, {1}, {1}))
  {
    AfterBegins(credit, delta);
    OwnSlack(credit, delta);
    var rows := Reserving(delta);
    var nobody: set<Id> := {};
    assert nobody + {1} == {1};
    assert Both(delta, {}, {})[1 := Open(rows, {1})] == Both(delta, {1}, {});
    assert Both(delta, {1}, {})[2 := Open(rows, {1})] == Both(delta, {1}, {1});
    OneMore(false, Racing(credit, delta), Check(1, 1), After(credit, Both(delta, {1}, {})));
    OneMore(false, Racing(credit, delta) + [Check(1, 1)], Check(2, 1), After(credit, Both(delta, {1}, {1})));
  }

  function Last(delta: int): map<Id, Open> { map[2 := Open(Reserving(delta), {1})] }

  lemma AfterFirstCommit(credit: int, delta: int)
    requires credit > 0 && delta <= credit
    ensures Interleave(false, Checked(credit, delta) + [Commit(1)])
         == State(Funded(credit) + Reserving(delta), Last(delta), map[], [Funded(credit)] + [Reserving(delta)])
  {
    AfterChecks(credit, delta);
    assert Both(delta, {1}, {1}) - {1} == Last(delta);
    OneMore(false, Checked(credit, delta), Commit(1),
            State(Funded(credit) + Reserving(delta), Last(delta), map[], [Funded(credit)] + [Reserving(delta)]));
  }

  lemma AfterSecondCommit(credit: int, delta: int)
    requires credit > 0 && delta <= credit
    ensures Interleave(false, Race(credit, delta)).committed == Funded(credit) + Reserving(delta) + Reserving(delta)
  {
    AfterFirstCommit(credit, delta);
    var rows := Reserving(delta);
    assert Last(delta) - {2} == map[];
    OneMore(false, Checked(credit, delta) + [Commit(1)], Commit(2),
            State(Funded(credit) + rows + rows, map[], map[], [Funded(credit)] + [rows] + [rows]));
  }

  /**
   Without the lock both commits pass on sums that miss the other, for every credit and every amount it
   covers once: the merchant ends overdrawn whenever it does not cover it twice.
   */
  lemma UnlockedRaceOverdraws(credit: int, delta: int)
    requires credit > 0 && delta <= credit
    ensures Slack(Interleave(false, Race(credit, delta)).committed, 1) == credit - 2 * delta
  {
    AfterSecondCommit(credit, delta);
    OwnSlack(credit, delta);
    SumAppend(Funded(credit) + Reserving(delta), Reserving(delta), SlackOf(1));
    SumOne(ReservationRow(1, delta), SlackOf(1));
  }

  // --- what the lock decides -------------------------------------------------------------------

  /** No interleaving of any number of transactions leaves any merchant overdrawn. */
  ghost predicate NeverOverdraws(locking: bool) {
    forall steps: seq<Step>, merchant: Id :: 0 <= Slack(Interleave(locking, steps).committed, merchant)
  }

  /** The trigger keeps every merchant covered under concurrency exactly when commits take the lock. */
  lemma NeverOverdrawsExactly(locking: bool)
    ensures NeverOverdraws(locking) <==> locking
  {
    if locking {
      forall steps: seq<Step>, merchant: Id ensures 0 <= Slack(Interleave(true, steps).committed, merchant) {
        LockedCommitsNeverOverdraw(steps, merchant);
      }
    } else {
      UnlockedRaceOverdraws(100, 60);
    }
  }
}
