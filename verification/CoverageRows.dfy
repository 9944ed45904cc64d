/**
 The rows that concurrent commits race over, taken from the tables: what `CommitRace` calls a
 merchant's slack is its AVAILABLE balance less its reservations, and the guard it puts on a commit is
 the trigger of migration 0020 on the new rows.
 */
module CoverageRows {
  import opened Sums
  import opened Basics
  import opened Rows
  import opened Queries
  import opened Database
  import opened PayoutCoverage
  import Race = CommitRace

  /** The merchant whose AVAILABLE account the posting moves. */
  function MovedMerchant(accounts: seq<Account>, p: Posting): Option<Id> {
    var a := Lookup(accounts, AccountKey, p.account);
    if a.Some? && a.value.code.AvailablePayable? then a.value.merchant else None
  }

  function RowsOfPosting(accounts: seq<Account>): Posting -> seq<Race.Row> {
    (p: Posting) =>
      var m := MovedMerchant(accounts, p);
      if m.None? then []
      else if p.side.Credit? then [Race.CreditRow(m.value, p.amount)]
      else [Race.DebitRow(m.value, p.amount)]
  }

  function RowsOfReservation(): Reservation -> seq<Race.Row> {
    (v: Reservation) => [Race.ReservationRow(v.merchant, v.delta)]
  }

  function Projected(accounts: seq<Account>, postings: seq<Posting>, reservations: seq<Reservation>): seq<Race.Row> {
    FlatMap(postings, RowsOfPosting(accounts)) + FlatMap(reservations, RowsOfReservation())
  }

  function RowsOf(db: Tables): seq<Race.Row> {
    Projected(db.accounts, db.postings, db.reservations)
  }

  ghost predicate Extends(db: Tables, after: Tables) {
    && db.merchants <= after.merchants && db.accounts <= after.accounts
    && db.postings <= after.postings && db.reservations <= after.reservations
  }

  /** What a commit adds. */
  function Added(db: Tables, after: Tables): seq<Race.Row>
    requires Extends(db, after)
  {
    Projected(after.accounts, after.postings[|db.postings|..], after.reservations[|db.reservations|..])
  }

  // --- slack is available less reserved --------------------------------------------------------

  function MovesOf(accounts: seq<Account>, merchant: Id): Posting -> int {
    (p: Posting) =>
      if MovedMerchant(accounts, p) != Some(merchant) then 0 else if p.side.Credit? then p.amount else -p.amount
  }

  function Freed(merchant: Id): Reservation -> int {
    (v: Reservation) => if v.merchant == merchant then -v.delta else 0
  }

  lemma PostingSlack(accounts: seq<Account>, p: Posting, merchant: Id)
    ensures MovesOf(accounts, merchant)(p) == Sum(RowsOfPosting(accounts)(p), Race.SlackOf(merchant))
  {
    var m := MovedMerchant(accounts, p);
    if m.None? {
      assert RowsOfPosting(accounts)(p) == [];
    } else {
      SumOne(RowsOfPosting(accounts)(p)[0], Race.SlackOf(merchant));
      assert RowsOfPosting(accounts)(p) == [RowsOfPosting(accounts)(p)[0]];
    }
  }

  lemma {:induction false} FreedIsReserved(reservations: seq<Reservation>, merchant: Id)
    ensures Sum(reservations, Freed(merchant)) == -Sum(reservations, ReservedOf(merchant))
  {
    if reservations != [] {
      FreedIsReserved(reservations[..|reservations| - 1], merchant);
    }
  }

  lemma ReservationsSlack(reservations: seq<Reservation>, merchant: Id)
    ensures Sum(FlatMap(reservations, RowsOfReservation()), Race.SlackOf(merchant))
            == -Sum(reservations, ReservedOf(merchant))
  {
    forall v | v in reservations ensures Freed(merchant)(v) == Sum(RowsOfReservation()(v), Race.SlackOf(merchant)) {
      SumOne(Race.ReservationRow(v.merchant, v.delta), Race.SlackOf(merchant));
    }
    FlatMapSum(reservations, RowsOfReservation(), Race.SlackOf(merchant), Freed(merchant));
    FreedIsReserved(reservations, merchant);
  }

  lemma SlackSplits(accounts: seq<Account>, postings: seq<Posting>, reservations: seq<Reservation>, merchant: Id)
    ensures Race.Slack(Projected(accounts, postings, reservations), merchant)
         == Sum(postings, MovesOf(accounts, merchant)) - Sum(reservations, ReservedOf(merchant))
  {
    var f := Race.SlackOf(merchant);
    SumAppend(FlatMap(postings, RowsOfPosting(accounts)), FlatMap(reservations, RowsOfReservation()), f);
    forall p | p in postings ensures MovesOf(accounts, merchant)(p) == Sum(RowsOfPosting(accounts)(p), f) {
      PostingSlack(accounts, p, merchant);
    }
    FlatMapSum(postings, RowsOfPosting(accounts), f, MovesOf(accounts, merchant));
    ReservationsSlack(reservations, merchant);
  }

  /** A posting moves the merchant's balance through its one AVAILABLE account, in its own scope. */
  lemma MovedAccount(db: Tables, m: Merchant, p: Posting)
    requires AccountsValid(db) && PostingsValid(db) && m in db.merchants && p in db.postings
    ensures var a := AvailableAccountOf(db, m.org, m.env, m.id);
            && (MovedMerchant(db.accounts, p) == Some(m.id) <==> a.Some? && p.account == a.value.id)
            && (a.Some? && p.account == a.value.id ==> p.org == m.org)
  {
    var a := AvailableAccountOf(db, m.org, m.env, m.id);
    assert HasAccount(db.accounts, p.account, p.org, p.env);
    var x :| x in db.accounts && x.id == p.account && x.org == p.org && x.env == p.env;
    var found := Lookup(db.accounts, AccountKey, p.account).value;
    SameRow(db.accounts, AccountKey, x, found);
    if a.Some? && a.value.id == x.id {
      SameRow(db.accounts, AccountKey, x, a.value);
    }
    if x.code.AvailablePayable? && x.merchant == Some(m.id) {
      MerchantScope(db, m, m.id, x.org, x.env);
      assert HoldsSlot(x, m.org, m.env, Some(m.id), AvailablePayable);
      assert SameCodeSlot(x, a.value);
    }
  }

  /** The slack of the projected rows is the merchant's AVAILABLE balance less its reservations. */
  lemma SlackIsCoverage(db: Tables, m: Merchant)
    requires AccountsValid(db) && PostingsValid(db) && m in db.merchants
    ensures Race.Slack(RowsOf(db), m.id) == Available(db, m) - Reserved(db, m.id)
  {
    hide AccountsValid, PostingsValid;
    SlackSplits(db.accounts, db.postings, db.reservations, m.id);
    var a := AvailableAccountOf(db, m.org, m.env, m.id);
    forall p | p in db.postings
      ensures MovesOf(db.accounts, m.id)(p) == if a.None? then 0 else SignedPostingOf(m.org, a.value.id)(p)
    {
      MovedAccount(db, m, p);
    }
    if a.None? {
      SumZero(db.postings, MovesOf(db.accounts, m.id));
    } else {
      SumEqual(db.postings, MovesOf(db.accounts, m.id), SignedPostingOf(m.org, a.value.id));
    }
  }

  // --- the guard -------------------------------------------------------------------------------

  lemma ReservationGuard(db: Tables, v: Reservation)
    requires AccountsValid(db) && PostingsValid(db) && ReservationsValid(db) && v in db.reservations
    ensures ReservationRejects(db, v) <==> Race.Slack(RowsOf(db), v.merchant) < 0
  {
    assert HasMerchant(db.merchants, v.merchant, v.org, v.env);
    var m :| m in db.merchants && m.id == v.merchant && m.org == v.org && m.env == v.env;
    SlackIsCoverage(db, m);
  }

  lemma DebitGuard(db: Tables, p: Posting)
    requires AccountsValid(db) && PostingsValid(db) && p in db.postings
    ensures DebitRejects(db, p) <==>
            && p.side.Debit? && MovedMerchant(db.accounts, p).Some?
            && Race.Slack(RowsOf(db), MovedMerchant(db.accounts, p).value) < 0
  {
    if p.side.Debit? && MovedMerchant(db.accounts, p).Some? {
      var x := Lookup(db.accounts, AccountKey, p.account).value;
      var m :| m in db.merchants && m.id == x.merchant.value && m.org == x.org && m.env == x.env;
      MovedAccount(db, m, p);
      SlackIsCoverage(db, m);
    }
  }

  lemma OldMoves(db: Tables, after: Tables, p: Posting)
    requires Extends(db, after) && AccountsValid(db) && AccountsValid(after) && PostingsValid(db) && p in db.postings
    ensures MovedMerchant(after.accounts, p) == MovedMerchant(db.accounts, p)
  {
    assert HasAccount(db.accounts, p.account, p.org, p.env);
    var x := Lookup(db.accounts, AccountKey, p.account).value;
    assert x in after.accounts;
    SameRow(after.accounts, AccountKey, x, Lookup(after.accounts, AccountKey, p.account).value);
  }

  /** Old rows and added rows together weigh what the new tables weigh. */
  lemma SlackAdds(db: Tables, after: Tables, merchant: Id)
    requires Extends(db, after) && AccountsValid(db) && AccountsValid(after) && PostingsValid(db)
    ensures Race.Slack(RowsOf(db) + Added(db, after), merchant) == Race.Slack(RowsOf(after), merchant)
  {
    hide AccountsValid, PostingsValid;
    var p, v := after.postings[|db.postings|..], after.reservations[|db.reservations|..];
    assert after.postings == db.postings + p && after.reservations == db.reservations + v;
    SumAppend(RowsOf(db), Added(db, after), Race.SlackOf(merchant));
    SlackSplits(db.accounts, db.postings, db.reservations, merchant);
    SlackSplits(after.accounts, p, v, merchant);
    SlackSplits(after.accounts, after.postings, after.reservations, merchant);
    SumAppend(db.postings, p, MovesOf(after.accounts, merchant));
    SumAppend(db.reservations, v, ReservedOf(merchant));
    forall q | q in db.postings ensures MovesOf(after.accounts, merchant)(q) == MovesOf(db.accounts, merchant)(q) {
      OldMoves(db, after, q);
    }
    SumEqual(db.postings, MovesOf(after.accounts, merchant), MovesOf(db.accounts, merchant));
  }

  lemma ProjectedMembers(accounts: seq<Account>, postings: seq<Posting>, reservations: seq<Reservation>, r: Race.Row)
    ensures r in Projected(accounts, postings, reservations) <==>
            || (exists p :: p in postings && r in RowsOfPosting(accounts)(p))
            || (exists v :: v in reservations && r == Race.ReservationRow(v.merchant, v.delta))
  {
    FlatMapMembers(postings, RowsOfPosting(accounts), r);
    FlatMapMembers(reservations, RowsOfReservation(), r);
  }

  /** The trigger on the new rows. */
  ghost predicate TriggerAccepts(db: Tables, after: Tables)
    requires Extends(db, after)
  {
    && (forall v :: v in after.reservations[|db.reservations|..] ==> !ReservationRejects(after, v))
    && (forall p :: p in after.postings[|db.postings|..] ==> !DebitRejects(after, p))
  }

  lemma FiresExactly(accounts: seq<Account>, postings: seq<Posting>, reservations: seq<Reservation>, merchant: Id)
    ensures Race.Fires(Projected(accounts, postings, reservations), merchant) <==>
            || (exists p :: p in postings && p.side.Debit? && MovedMerchant(accounts, p) == Some(merchant))
            || (exists v :: v in reservations && v.merchant == merchant)
  {
    var rows := Projected(accounts, postings, reservations);
    if r :| r in rows && r.merchant == merchant && !r.CreditRow? {
      ProjectedMembers(accounts, postings, reservations, r);
    }
    if p :| p in postings && p.side.Debit? && MovedMerchant(accounts, p) == Some(merchant) {
      var r := Race.DebitRow(merchant, p.amount);
      assert r in RowsOfPosting(accounts)(p);
      ProjectedMembers(accounts, postings, reservations, r);
    }
    if v :| v in reservations && v.merchant == merchant {
      ProjectedMembers(accounts, postings, reservations, Race.ReservationRow(v.merchant, v.delta));
    }
  }

  lemma AddedInsertable(db: Tables, after: Tables)
    requires Extends(db, after) && PostingsValid(after)
    ensures Race.Insertable(Added(db, after))
  {
    var p, v := after.postings[|db.postings|..], after.reservations[|db.reservations|..];
    assert forall q :: q in p ==> q in after.postings && q.amount > 0;
    hide PostingsValid, Projected, MovedMerchant;
    forall r | r in Added(db, after) && !r.ReservationRow? ensures r.amount > 0 {
      ProjectedMembers(after.accounts, p, v, r);
    }
  }

  /** The guard on projected rows accepts exactly the commits whose new rows all pass the trigger. */
  lemma GuardIsTheTrigger(db: Tables, after: Tables)
    requires AccountsValid(db) && PostingsValid(db) && Extends(db, after)
    requires AccountsValid(after) && PostingsValid(after) && ReservationsValid(after)
    ensures Race.SerialAccepts(RowsOf(db), Added(db, after)) <==> TriggerAccepts(db, after)
  {
    hide AccountsValid, PostingsValid, ReservationsValid, ReservationRejects, DebitRejects, RowsOf, Race.Slack,
         Race.Fires, Race.Insertable, MovedMerchant;
    var ps, vs := after.postings[|db.postings|..], after.reservations[|db.reservations|..];
    AddedInsertable(db, after);
    forall m: Id
      ensures Race.Slack(RowsOf(db) + Added(db, after), m) == Race.Slack(RowsOf(after), m)
      ensures Race.Fires(Added(db, after), m) <==>
              || (exists p :: p in ps && p.side.Debit? && MovedMerchant(after.accounts, p) == Some(m))
              || (exists v :: v in vs && v.merchant == m)
    {
      SlackAdds(db, after, m);
      FiresExactly(after.accounts, ps, vs, m);
    }
    forall v | v in vs ensures ReservationRejects(after, v) <==> Race.Slack(RowsOf(after), v.merchant) < 0 {
      ReservationGuard(after, v);
    }
    forall p | p in ps
      ensures DebitRejects(after, p) <==>
              && p.side.Debit? && MovedMerchant(after.accounts, p).Some?
              && Race.Slack(RowsOf(after), MovedMerchant(after.accounts, p).value) < 0
    {
      DebitGuard(after, p);
    }
  }

  // --- whole runs ------------------------------------------------------------------------------

  lemma CommittedExtends(db: Tables, tx: Transaction)
    ensures Extends(db, Committed(db, tx))
  {
    if Commits(db, tx) {
      ExecAllGrows(Work(db, []), tx);
    }
  }

  /** The rows that each transaction of a run committed, in order; a refused one commits none. */
  ghost function Log(txs: seq<Transaction>): seq<seq<Race.Row>> {
    if txs == [] then [] else
    var db, tx := Run(EMPTY, txs[..|txs| - 1]), txs[|txs| - 1];
    CommittedExtends(db, tx);
    Log(txs[..|txs| - 1]) + [Added(db, Committed(db, tx))]
  }

  lemma CommitPassesGuard(db: Tables, tx: Transaction)
    requires Valid(db) && Commits(db, tx)
    ensures Extends(db, Committed(db, tx)) && TriggerAccepts(db, Committed(db, tx))
  {
    hide Valid;
    var w := ExecAll(Work(db, []), tx).value;
    ExecAllGrows(Work(db, []), tx);
    forall v | v in w.db.reservations[|db.reservations|..] ensures !ReservationRejects(w.db, v) {
      assert ReservationInserted(v) in w.events;
      assert !Rejects(w.db, ReservationInserted(v));
    }
    forall p | p in w.db.postings[|db.postings|..] ensures !DebitRejects(w.db, p) {
      assert PostingInserted(p) in w.events;
      assert !Rejects(w.db, PostingInserted(p));
    }
  }

  lemma CommitIsAccepted(db: Tables, tx: Transaction)
    requires Valid(db) && Valid(Committed(db, tx)) && Extends(db, Committed(db, tx))
    ensures Race.SerialAccepts(RowsOf(db), Added(db, Committed(db, tx)))
  {
    hide Valid, Race.SerialAccepts;
    if Commits(db, tx) {
      CommitPassesGuard(db, tx);
    }
    Parts(db);
    Parts(Committed(db, tx));
    GuardIsTheTrigger(db, Committed(db, tx));
  }

  lemma NothingAtFirst()
    ensures RowsOf(EMPTY) == Race.Flatten([]) && Race.SerialRun([])
  {
  }

  lemma SerialStep(log: seq<seq<Race.Row>>, base: seq<Race.Row>, rows: seq<Race.Row>)
    requires Race.SerialRun(log) && Race.SerialAccepts(base, rows)
    requires forall m: Id :: Race.Slack(Race.Flatten(log), m) == Race.Slack(base, m)
    ensures Race.SerialRun(log + [rows])
    ensures forall m: Id :: Race.Slack(Race.Flatten(log + [rows]), m) == Race.Slack(base + rows, m)
  {
    hide Race.Insertable, Race.Fires;
    assert (log + [rows])[..|log|] == log;
    assert Race.Flatten(log + [rows]) == Race.Flatten(log) + rows;
    forall m: Id ensures Race.Slack(Race.Flatten(log) + rows, m) == Race.Slack(base + rows, m) {
      SumAppend(Race.Flatten(log), rows, Race.SlackOf(m));
      SumAppend(base, rows, Race.SlackOf(m));
      assert Race.Slack(Race.Flatten(log), m) == Race.Slack(base, m);
    }
  }

  /** Every serial run of the tables is, row for row, a serial run of the rows that commits race over. */
  lemma {:induction false} RunsAreSerialRuns(txs: seq<Transaction>)
    ensures Race.SerialRun(Log(txs))
    ensures forall m: Id :: Race.Slack(Race.Flatten(Log(txs)), m) == Race.Slack(RowsOf(Run(EMPTY, txs)), m)
  {
    hide Valid, RowsOf, Commits, Race.SerialRun, Race.SerialAccepts, Race.Slack, Race.Flatten, Projected;
    if txs == [] {
      NothingAtFirst();
    } else {
      var front, tx := txs[..|txs| - 1], txs[|txs| - 1];
      var db := Run(EMPTY, front);
      var after := Committed(db, tx);
      RunsAreSerialRuns(front);
      RunValid(front);
      RunValid(txs);
      CommittedExtends(db, tx);
      CommitIsAccepted(db, tx);
      SerialStep(Log(front), RowsOf(db), Added(db, after));
      Parts(db);
      Parts(after);
      forall m: Id ensures Race.Slack(RowsOf(db) + Added(db, after), m) == Race.Slack(RowsOf(after), m) {
        SlackAdds(db, after, m);
      }
    }
  }
}
