/**
 The payout overdraft guard (migration 0020) under serial commits: in every committed state a
 merchant's outstanding payout reservations are covered by its AVAILABLE balance. The trigger runs
 only for new reservation rows and for debits of an AVAILABLE account.
 */
module PayoutCoverage {
  import opened Sums
  import opened Basics
  import opened Rows
  import opened Database
  import opened Acceptance

  function Reserved(db: Tables, merchant: Id): int {
    Sum(db.reservations, ReservedOf(merchant))
  }

  /** Credits less debits of the merchant's AVAILABLE account; zero while it has none. */
  function Available(db: Tables, m: Merchant): int {
    var a := AvailableAccountOf(db, m.org, m.env, m.id);
    if a.None? then 0 else Sum(db.postings, SignedPostingOf(m.org, a.value.id))
  }

  ghost predicate AllCovered(db: Tables) {
    forall m :: m in db.merchants ==> Reserved(db, m.id) <= Available(db, m)
  }

  /** A merchant row is named by its id, so reservations and accounts of that id share its scope. */
  lemma MerchantScope(db: Tables, m: Merchant, id: Id, org: Id, env: Id)
    requires AccountsValid(db) && m in db.merchants && m.id == id && HasMerchant(db.merchants, id, org, env)
    ensures m.org == org && m.env == env
  {
    var k :| k in db.merchants && k.id == id && k.org == org && k.env == env;
    SameRow(db.merchants, MerchantKey, m, k);
  }

  lemma CheckedReservationCovers(db: Tables, m: Merchant, v: Reservation)
    requires AccountsValid(db) && ReservationsValid(db)
    requires m in db.merchants && v in db.reservations && v.merchant == m.id && !ReservationRejects(db, v)
    ensures Reserved(db, m.id) <= Available(db, m)
  {
    MerchantScope(db, m, v.merchant, v.org, v.env);
  }

  lemma CheckedDebitCovers(db: Tables, m: Merchant, a: Account, p: Posting)
    requires AccountsValid(db) && PostingsValid(db) && m in db.merchants
    requires AvailableAccountOf(db, m.org, m.env, m.id) == Some(a)
    requires p in db.postings && p.account == a.id && p.side.Debit? && !DebitRejects(db, p)
    ensures Reserved(db, m.id) <= Available(db, m)
  {
    var found := Lookup(db.accounts, AccountKey, p.account).value;
    SameRow(db.accounts, AccountKey, a, found);
    assert HasAccount(db.accounts, p.account, p.org, p.env);
    var k :| k in db.accounts && k.id == p.account && k.org == p.org && k.env == p.env;
    SameRow(db.accounts, AccountKey, a, k);
  }

  /** Without a new reservation row for the merchant, its reserved amount stands. */
  lemma ReservedStands(db: Tables, after: Tables, merchant: Id)
    requires db.reservations <= after.reservations
    requires forall i :: |db.reservations| <= i < |after.reservations| ==> after.reservations[i].merchant != merchant
    ensures Reserved(after, merchant) == Reserved(db, merchant)
  {
    SumUnchanged(db.reservations, after.reservations, ReservedOf(merchant));
  }

  /** A merchant id that something refers to names an existing merchant, also in later tables. */
  lemma NamedMerchantExists(db: Tables, after: Tables, m: Merchant, org: Id, env: Id)
    requires db.merchants <= after.merchants && AccountsValid(after)
    requires m in after.merchants && HasMerchant(db.merchants, m.id, org, env)
    ensures m in db.merchants
  {
    var k :| k in db.merchants && k.id == m.id;
    assert k in after.merchants;
    SameRow(after.merchants, MerchantKey, k, m);
  }

  lemma ReservingMerchantExists(db: Tables, after: Tables, m: Merchant)
    requires db.merchants <= after.merchants && ReservationsValid(db) && AccountsValid(after) && m in after.merchants
    ensures forall v :: v in db.reservations && v.merchant == m.id ==> m in db.merchants
  {
    forall v | v in db.reservations && v.merchant == m.id ensures m in db.merchants {
      NamedMerchantExists(db, after, m, v.org, v.env);
    }
  }

  lemma NoMerchantNoReservations(db: Tables, after: Tables, m: Merchant)
    requires db.merchants <= after.merchants && ReservationsValid(db) && AccountsValid(after)
    requires m in after.merchants && m !in db.merchants
    ensures Reserved(db, m.id) == 0
  {
    ReservingMerchantExists(db, after, m);
    SumZero(db.reservations, ReservedOf(m.id));
  }

  lemma OnlyCreditsAdded(db: Tables, after: Tables, org: Id, account: Id)
    requires db.postings <= after.postings && PostingsValid(after)
    requires forall i :: |db.postings| <= i < |after.postings| && after.postings[i].side.Debit?
               ==> after.postings[i].account != account
    ensures Sum(after.postings, SignedPostingOf(org, account)) >= Sum(db.postings, SignedPostingOf(org, account))
  {
    var f := SignedPostingOf(org, account);
    var added := after.postings[|db.postings|..];
    assert after.postings == db.postings + added;
    SumAppend(db.postings, added, f);
    forall p | p in added ensures 0 <= f(p) {
      var i :| 0 <= i < |added| && added[i] == p;
      assert after.postings[|db.postings| + i] == p && p in after.postings;
    }
    SumNonNegative(added, f);
  }

  /** Without a new debit of its AVAILABLE account, a merchant's balance does not fall. */
  lemma AvailableDoesNotFall(db: Tables, after: Tables, m: Merchant)
    requires db.merchants <= after.merchants && db.accounts <= after.accounts && db.postings <= after.postings
    requires AccountsValid(after) && PostingsValid(db) && PostingsValid(after)
    requires forall i :: |db.postings| <= i < |after.postings| && after.postings[i].side.Debit?
               ==> AvailableAccountOf(after, m.org, m.env, m.id).None?
                   || after.postings[i].account != AvailableAccountOf(after, m.org, m.env, m.id).value.id
    ensures Available(after, m) >= Available(db, m)
  {
    var now, then_ := AvailableAccountOf(after, m.org, m.env, m.id), AvailableAccountOf(db, m.org, m.env, m.id);
    assert then_.Some? ==> then_.value in after.accounts;
    if now.Some? {
      var a := now.value;
      var f := SignedPostingOf(m.org, a.id);
      OnlyCreditsAdded(db, after, m.org, a.id);
      if then_.None? {
        OldPostingsIgnoreNewAccount(db, after, a, f);
      } else {
        assert then_.value in after.accounts && SameCodeSlot(a, then_.value);
      }
    }
  }

  lemma PostedAccountExists(db: Tables, after: Tables, a: Account)
    requires db.accounts <= after.accounts && AccountsValid(after) && PostingsValid(db) && a in after.accounts
    ensures forall p :: p in db.postings && p.account == a.id ==> a in db.accounts
  {
    forall p | p in db.postings && p.account == a.id ensures a in db.accounts {
      assert HasAccount(db.accounts, p.account, p.org, p.env);
      var k :| k in db.accounts && k.id == p.account;
      assert k in after.accounts;
      SameRow(after.accounts, AccountKey, k, a);
    }
  }

  lemma OldPostingsIgnoreNewAccount(db: Tables, after: Tables, a: Account, f: Posting -> int)
    requires db.accounts <= after.accounts && AccountsValid(after) && PostingsValid(db)
    requires a in after.accounts && a !in db.accounts
    requires forall p: Posting :: p.account != a.id ==> f(p) == 0
    ensures Sum(db.postings, f) == 0
  {
    PostedAccountExists(db, after, a);
    SumZero(db.postings, f);
  }

  lemma Parts(db: Tables)
    requires Valid(db)
    ensures AccountsValid(db) && PostingsValid(db) && ReservationsValid(db)
  {
  }

  lemma CommitKeepsCoverageOf(db: Tables, w: Work, m: Merchant)
    requires Valid(db) && Valid(w.db) && AllCovered(db) && Grown(Work(db, []), w)
    requires forall e :: e in w.events ==> !Rejects(w.db, e)
    requires m in w.db.merchants
    ensures Reserved(w.db, m.id) <= Available(w.db, m)
  {
    hide Valid, AccountsValid, PostingsValid, ReservationsValid, ReservationRejects, DebitRejects, BalanceRejects,
         Reserved, Available, AvailableAccountOf;
    Parts(db);
    Parts(w.db);
    var after := w.db;
    var account := AvailableAccountOf(after, m.org, m.env, m.id);
    if i :| |db.reservations| <= i < |after.reservations| && after.reservations[i].merchant == m.id {
      assert ReservationInserted(after.reservations[i]) in w.events;
      CheckedReservationCovers(after, m, after.reservations[i]);
    } else if i :| |db.postings| <= i < |after.postings| && after.postings[i].side.Debit?
                   && account.Some? && after.postings[i].account == account.value.id {
      assert PostingInserted(after.postings[i]) in w.events;
      CheckedDebitCovers(after, m, account.value, after.postings[i]);
    } else {
      ReservedStands(db, after, m.id);
      AvailableDoesNotFall(db, after, m);
      if m !in db.merchants {
        NoMerchantNoReservations(db, after, m);
        BalancedMerchantExists(db, after, m);
      }
    }
  }

  lemma BalancedMerchantExists(db: Tables, after: Tables, m: Merchant)
    requires db.merchants <= after.merchants && AccountsValid(db) && AccountsValid(after) && m in after.merchants
    ensures m in db.merchants || Available(db, m) == 0
  {
    if AvailableAccountOf(db, m.org, m.env, m.id).Some? {
      NamedMerchantExists(db, after, m, m.org, m.env);
    }
  }

  /** In every committed state of every serial run, payout reservations are covered. */
  lemma {:induction false} ReservationsAlwaysCovered(txs: seq<Transaction>)
    ensures AllCovered(Run(EMPTY, txs))
  {
    if txs != [] {
      var before := Run(EMPTY, txs[..|txs| - 1]);
      var tx := txs[|txs| - 1];
      ReservationsAlwaysCovered(txs[..|txs| - 1]);
      RunValid(txs[..|txs| - 1]);
      if Commits(before, tx) {
        var w := ExecAll(Work(before, []), tx).value;
        ExecAllValid(Work(before, []), tx);
        ExecAllGrows(Work(before, []), tx);
        forall m | m in w.db.merchants ensures Reserved(w.db, m.id) <= Available(w.db, m) {
          CommitKeepsCoverageOf(before, w, m);
        }
      }
    }
  }

  /** One new reservation (or release) row commits when it fits and the new total is covered. */
  lemma ReservationCommitsWhen(db: Tables, m: Merchant, v: Reservation)
    requires Valid(db) && OperationKeysHold(db) && m in db.merchants && v.merchant == m.id
    ensures Commits(db, [OnReservations(Insert(v))]) <==>
            ReservationFits(db, v) && Reserved(db, m.id) + v.delta <= Available(db, m)
  {
    ExecOne(Work(db, []), OnReservations(Insert(v)));
    ReservationInsertExec(Work(db, []), v);
    if ReservationFits(db, v) {
      ReservationAcceptedExactly(db, m, v);
    }
  }

  /**
   Which new reservation (or release) rows commit, column by column: the row has a positive sequence and
   moves something, names a merchant and a payout of its scope, has a new id and a new place in its payout's
   sequence, and leaves the merchant's total within AVAILABLE.
   */
  lemma ReservationCommitsExactly(db: Tables, m: Merchant, v: Reservation)
    requires Valid(db) && OperationKeysHold(db) && m in db.merchants && v.merchant == m.id
    ensures Commits(db, [OnReservations(Insert(v))]) <==>
              && v.sequence > 0 && v.delta != 0 && v.org == m.org && v.env == m.env
              && (exists p :: p in db.payouts && p.id == v.payout && p.org == v.org && p.env == v.env)
              && (forall u :: u in db.reservations ==>
                    u.id != v.id && (u.payout != v.payout || u.sequence != v.sequence))
              && Reserved(db, m.id) + v.delta <= Available(db, m)
  {
    hide Valid, Commits, OperationKeysHold, Reserved, Available;
    ReservationCommitsWhen(db, m, v);
    if HasMerchant(db.merchants, v.merchant, v.org, v.env) {
      assert AccountsValid(db) by { Parts(db); }
      MerchantScope(db, m, v.merchant, v.org, v.env);
    }
  }

  lemma ReservationAcceptedExactly(db: Tables, m: Merchant, v: Reservation)
    requires AccountsValid(db) && OperationKeysHold(db) && m in db.merchants && v.merchant == m.id
    requires HasMerchant(db.merchants, v.merchant, v.org, v.env)
    ensures var after := db.(reservations := db.reservations + [v]);
            && OperationKeysHold(after)
            && ((forall e :: e in [] + [ReservationInserted(v)] ==> !Rejects(after, e))
                <==> Reserved(db, m.id) + v.delta <= Available(db, m))
  {
    MerchantScope(db, m, v.merchant, v.org, v.env);
    SumAppend(db.reservations, [v], ReservedOf(m.id));
    SumOne(v, ReservedOf(m.id));
    assert ReservationInserted(v) in [] + [ReservationInserted(v)];
  }

  // --- a release larger than what is reserved -------------------------------------------------------

  const MERCHANT := Merchant(1, 1, 1)
  const AVAILABLE := Account(1, 1, 1, Some(1), AvailablePayable)
  const CLEARING := Account(2, 1, 1, None, ProviderClearing)
  const PAYOUT := PayoutRow(3, 1, 1, 1)
  const PAID := Journal(5, 1, 1, Some(1), None, Payout, 3, Inr)

  function Release(k: int): Reservation { Reservation(4, 1, 1, 1, 3, 1, -k) }
  function Taken(k: int): Posting { Posting(6, 1, 1, 5, 1, Debit, k, Inr) }
  function Given(k: int): Posting { Posting(7, 1, 1, 5, 2, Credit, k, Inr) }

  /** A merchant with a payout but no money, set up in one transaction. */
  function Enrol(): Transaction {
    [] + [AddMerchant(MERCHANT)] + [AddAccount(AVAILABLE)] + [AddAccount(CLEARING)] + [AddPayout(PAYOUT)]
  }

  /** A release of `k` that was never reserved, and a debit of `k` that it makes room for. */
  function Overdraft(k: int): Transaction {
    [] + [OnReservations(Insert(Release(k)))] + [OnJournals(Insert(PAID))] + [OnPostings(Insert(Taken(k)))]
    + [OnPostings(Insert(Given(k)))]
  }

  function Written(journals: seq<Journal>, postings: seq<Posting>, reservations: seq<Reservation>): Tables {
    EMPTY.(merchants := [MERCHANT], accounts := [AVAILABLE, CLEARING], payouts := [PAYOUT],
           journals := journals, postings := postings, reservations := reservations)
  }

  function Overdrafted(k: int): Tables {
    Written([PAID], [Taken(k), Given(k)], [Release(k)])
  }

  lemma EnrolExecutes()
    ensures ExecAll(Work(EMPTY, []), Enrol()) == Some(Work(Written([], [], []), []))
    ensures Valid(Written([], [], []))
  {
    var one := EMPTY.(merchants := [MERCHANT]);
    var two := one.(accounts := [AVAILABLE]);
    var three := one.(accounts := [AVAILABLE, CLEARING]);
    hide Valid;
    EmptyValid();
    assert EMPTY.merchants + [MERCHANT] == one.merchants && one.accounts + [AVAILABLE] == two.accounts;
    assert two.accounts + [CLEARING] == three.accounts && three.payouts + [PAYOUT] == [PAYOUT];
    assert one.merchants[0] in one.merchants;
    MerchantAdded(EMPTY, MERCHANT);
    AccountAdded(one, AVAILABLE);
    AccountAdded(two, CLEARING);
    PayoutAdded(three, PAYOUT);
    var start := Work(EMPTY, []);
    ExecSnoc(start, [], start, AddMerchant(MERCHANT), Work(one, []));
    ExecSnoc(start, [] + [AddMerchant(MERCHANT)], Work(one, []), AddAccount(AVAILABLE), Work(two, []));
    ExecSnoc(start, [] + [AddMerchant(MERCHANT)] + [AddAccount(AVAILABLE)], Work(two, []), AddAccount(CLEARING),
             Work(three, []));
    ExecSnoc(start, [] + [AddMerchant(MERCHANT)] + [AddAccount(AVAILABLE)] + [AddAccount(CLEARING)], Work(three, []),
             AddPayout(PAYOUT), Work(Written([], [], []), []));
  }

  function OverdraftEvents(k: int, n: nat): seq<Event>
    requires n <= 4
  {
    [ReservationInserted(Release(k)), JournalInserted(PAID), PostingInserted(Taken(k)), PostingInserted(Given(k))][..n]
  }

  lemma ReleaseStep(k: int)
    requires k > 0
    ensures Valid(Written([], [], [Release(k)]))
    ensures Exec(Work(Written([], [], []), []), OnReservations(Insert(Release(k))))
         == Some(Work(Written([], [], [Release(k)]), OverdraftEvents(k, 1)))
  {
    var db := Written([], [], []);
    EnrolExecutes();
    assert db.merchants[0] in db.merchants && db.payouts[0] in db.payouts;
    ReservationInsertExec(Work(db, []), Release(k));
    assert [] + [Release(k)] == [Release(k)] && [] + [ReservationInserted(Release(k))] == OverdraftEvents(k, 1);
  }

  lemma BookingStep(k: int)
    requires k > 0
    ensures Valid(Written([PAID], [], [Release(k)]))
    ensures Exec(Work(Written([], [], [Release(k)]), OverdraftEvents(k, 1)), OnJournals(Insert(PAID)))
         == Some(Work(Written([PAID], [], [Release(k)]), OverdraftEvents(k, 2)))
  {
    var db := Written([], [], [Release(k)]);
    ReleaseStep(k);
    hide Valid;
    assert db.merchants[0] in db.merchants;
    JournalInsertValid(db, PAID);
    JournalInsertExec(Work(db, OverdraftEvents(k, 1)), PAID);
    hide Exec;
    assert [] + [PAID] == [PAID] && OverdraftEvents(k, 1) + [JournalInserted(PAID)] == OverdraftEvents(k, 2);
  }

  lemma PostingStep(k: int, postings: seq<Posting>, p: Posting, w: Work, v: Work)
    requires p.amount > 0 && p in [Taken(p.amount), Given(p.amount)] && forall q :: q in postings ==> q.id != p.id
    requires w.db == Written([PAID], postings, [Release(k)]) && Valid(w.db)
    requires v == Work(Written([PAID], postings + [p], [Release(k)]), w.events + [PostingInserted(p)])
    ensures Exec(w, OnPostings(Insert(p))) == Some(v) && Valid(v.db)
  {
    var db := w.db;
    assert db.journals[0] in db.journals && db.accounts[0] in db.accounts && db.accounts[1] in db.accounts;
    PostingInsertExec(w, p);
  }

  lemma OverdraftExecutes(k: int)
    requires k > 0
    ensures ExecAll(Work(Written([], [], []), []), Overdraft(k)) == Some(Work(Overdrafted(k), OverdraftEvents(k, 4)))
  {
    hide Valid;
    var ss := Overdraft(k);
    var w0, w1 := Work(Written([], [], []), []), Work(Written([], [], [Release(k)]), OverdraftEvents(k, 1));
    var w2 := Work(Written([PAID], [], [Release(k)]), OverdraftEvents(k, 2));
    var w3 := Work(Written([PAID], [Taken(k)], [Release(k)]), OverdraftEvents(k, 3));
    var w4 := Work(Overdrafted(k), OverdraftEvents(k, 4));
    ReleaseStep(k);
    BookingStep(k);
    assert [] + [Taken(k)] == [Taken(k)] && [Taken(k)] + [Given(k)] == [Taken(k), Given(k)];
    assert w2.events + [PostingInserted(Taken(k))] == w3.events && w3.events + [PostingInserted(Given(k))] == w4.events;
    PostingStep(k, [], Taken(k), w2, w3);
    PostingStep(k, [Taken(k)], Given(k), w3, w4);
    assert ss[..4] == ss && ss[..1] == [ss[0]] && ss[..4][..3] == ss[..3] && ss[..3][..2] == ss[..2]
           && ss[..2][..1] == ss[..1];
    ExecOne(w0, ss[0]);
    assert ExecAll(w0, ss[..2]) == Some(w2);
    assert ExecAll(w0, ss[..3]) == Some(w3);
  }

  lemma OverdraftAccepted(k: int)
    requires k > 0
    ensures forall e :: e in OverdraftEvents(k, 4) ==> !Rejects(Overdrafted(k), e)
    ensures Available(Overdrafted(k), MERCHANT) == -k && Reserved(Overdrafted(k), 1) == -k
  {
    var db := Overdrafted(k);
    forall f: Posting -> int ensures Sum(db.postings, f) == f(Taken(k)) + f(Given(k)) {
      SumTwo(Taken(k), Given(k), f);
    }
    SumOne(Release(k), ReservedOf(1));
    assert db.accounts[0] in db.accounts;
    assert AvailableAccountOf(db, 1, 1, 1) == Some(AVAILABLE);
  }

  lemma EnrolCommits()
    ensures Committed(EMPTY, Enrol()) == Written([], [], [])
  {
    hide Valid;
    EnrolExecutes();
  }

  lemma OverdraftCommits(k: int)
    requires k > 0
    ensures Committed(Written([], [], []), Overdraft(k)) == Overdrafted(k)
  {
    hide Valid, Rejects;
    OverdraftExecutes(k);
    OverdraftAccepted(k);
  }

  /** From the empty database, for every `k`: AVAILABLE and the reserved total both at -k. */
  lemma OverReleaseIsNotCaught(k: int)
    requires k > 0
    ensures var db := Run(EMPTY, [] + [Enrol()] + [Overdraft(k)]);
            MERCHANT in db.merchants && Reserved(db, 1) == -k && Available(db, MERCHANT) == -k
  {
    hide Committed;
    EnrolCommits();
    OverdraftCommits(k);
    RunSnoc([], EMPTY, Enrol());
    RunSnoc([] + [Enrol()], Written([], [], []), Overdraft(k));
    OverdraftAccepted(k);
  }

  // --- AVAILABLE itself ------------------------------------------------------------------------------

  /** In every run that ends with this reserved total, the merchant's AVAILABLE balance is not negative. */
  ghost predicate NeverNegativeAt(r: int) {
    forall txs: seq<Transaction>, m: Merchant ::
      m in Run(EMPTY, txs).merchants && Reserved(Run(EMPTY, txs), m.id) == r ==> 0 <= Available(Run(EMPTY, txs), m)
  }

  /**
   The guard keeps AVAILABLE at zero or above exactly for the reserved totals that are themselves zero or
   above. That they are is not enforced by the database.
   */
  lemma AvailableNeverNegativeExactly(r: int)
    ensures NeverNegativeAt(r) <==> 0 <= r
  {
    if 0 <= r {
      forall txs: seq<Transaction>, m: Merchant | m in Run(EMPTY, txs).merchants && Reserved(Run(EMPTY, txs), m.id) == r
        ensures 0 <= Available(Run(EMPTY, txs), m)
      {
        ReservationsAlwaysCovered(txs);
      }
    } else {
      OverReleaseIsNotCaught(-r);
    }
  }
}
