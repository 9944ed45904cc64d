/**
 All that the overdraft guard of migration 0020 allows, and no more: the pairs of a reserved total and
 an AVAILABLE balance that some serial run leaves a merchant with.
 */
module PayoutReach {
  import opened Basics
  import opened Rows
  import opened Sums
  import opened Database
  import opened LedgerBalance
  import opened Acceptance
  import opened RefundExactness
  import opened PayoutCoverage

  /** Some run from the empty database ends with a merchant at this reserved total and this balance. */
  ghost predicate Reachable(reserved: int, available: int) {
    exists txs: seq<Transaction>, m: Merchant ::
      && m in Run(EMPTY, txs).merchants
      && Reserved(Run(EMPTY, txs), m.id) == reserved
      && Available(Run(EMPTY, txs), m) == available
  }

  // --- from below both: a credit, then a reservation -------------------------------------------

  /** The postings that add to AVAILABLE. */
  function Credited(n: int): seq<Posting> {
    [Posting(8, 1, 1, 5, 1, Credit, n, Inr), Posting(9, 1, 1, 5, 2, Debit, n, Inr)]
  }

  function Reserving(n: int): Reservation { Reservation(10, 1, 1, 1, 3, 2, n) }

  /** A run with both totals at -k, then `n` more available. */
  function Below(k: int): seq<Transaction> { [] + [Enrol()] + [Overdraft(k)] }
  function Lifted(k: int, n: int): seq<Transaction> { Below(k) + [PostingInserts(Credited(n))] }

  lemma BelowReached(k: int)
    requires k > 0
    ensures Run(EMPTY, Below(k)) == Overdrafted(k)
    ensures Valid(Overdrafted(k)) && OperationKeysHold(Overdrafted(k)) && AllBalanced(Overdrafted(k))
    ensures Reserved(Overdrafted(k), 1) == -k && Available(Overdrafted(k), MERCHANT) == -k
  {
    hide Valid, AllBalanced, OperationKeysHold, Committed, Overdrafted;
    EnrolCommits();
    OverdraftCommits(k);
    RunSnoc([], EMPTY, Enrol());
    RunSnoc([] + [Enrol()], Written([], [], []), Overdraft(k));
    OverdraftAccepted(k);
    RunValid(Below(k));
    EveryJournalBalances(Below(k));
  }

  lemma CreditFits(k: int, n: int)
    requires n > 0
    ensures PostingsFit(Overdrafted(k), Credited(n))
  {
    var db, ps := Overdrafted(k), Credited(n);
    assert ps[..1] == [ps[0]] && [ps[0]][..0] == [];
    assert db.journals[0] in db.journals && db.accounts[0] in db.accounts && db.accounts[1] in db.accounts;
    assert PostingFits(WithPostings(db, []), ps[0]);
    assert PostingsFit(db, []) && PostingsFit(db, [ps[0]]);
    assert PostingFits(WithPostings(db, [ps[0]]), ps[1]);
  }

  lemma CreditPasses(k: int, n: int)
    ensures forall p :: p in Credited(n) ==> Offset(Credited(n), p.journal)
    ensures forall p :: p in Credited(n) ==> !DebitRejects(WithPostings(Overdrafted(k), Credited(n)), p)
  {
    var ps := Credited(n);
    SumTwo(ps[0], ps[1], DebitOf(5));
    SumTwo(ps[0], ps[1], CreditOf(5));
    FindsRow(Overdrafted(k).accounts, AccountKey, CLEARING);
  }

  lemma LiftedReached(k: int, n: int)
    requires k > 0 && n > 0
    ensures Run(EMPTY, Lifted(k, n)) == WithPostings(Overdrafted(k), Credited(n))
  {
    hide Valid, AllBalanced, OperationKeysHold, Commits, Committed, PostingsFit, Offset, DebitRejects;
    BelowReached(k);
    CreditFits(k, n);
    CreditPasses(k, n);
    PostingsCommitWhen(Overdrafted(k), Credited(n));
    RunSnoc(Below(k), Overdrafted(k), PostingInserts(Credited(n)));
    assert Committed(Overdrafted(k), PostingInserts(Credited(n))) == WithPostings(Overdrafted(k), Credited(n));
  }

  lemma LiftedTotals(k: int, n: int)
    requires k > 0
    ensures var db := WithPostings(Overdrafted(k), Credited(n));
            Reserved(db, 1) == -k && Available(db, MERCHANT) == n - k
  {
    var before, ps := Overdrafted(k), Credited(n);
    OverdraftAccepted(k);
    var f := SignedPostingOf(1, 1);
    SumAppend(before.postings, ps, f);
    SumTwo(ps[0], ps[1], f);
    assert before.accounts[0] in before.accounts;
    assert AvailableAccountOf(before, 1, 1, 1) == Some(AVAILABLE);
  }

  lemma ReservingFits(k: int, n: int, delta: int)
    requires delta != 0
    ensures ReservationFits(WithPostings(Overdrafted(k), Credited(n)), Reserving(delta))
  {
    var db := WithPostings(Overdrafted(k), Credited(n));
    assert db.merchants[0] in db.merchants && db.payouts[0] in db.payouts;
  }

  /** With both at -k first, any covered pair above it is one credit and one reservation away. */
  lemma CoveredIsReachable(reserved: int, available: int, k: int)
    requires k > 0 && -k < reserved <= available
    ensures Reachable(reserved, available)
  {
    hide Valid, OperationKeysHold, Commits, Committed, Reserved, Available, ReservationFits, WithPostings, Run;
    var db, v := WithPostings(Overdrafted(k), Credited(available + k)), Reserving(reserved + k);
    var txs := Lifted(k, available + k);
    LiftedReached(k, available + k);
    LiftedTotals(k, available + k);
    RunValid(txs);
    ReservingFits(k, available + k, reserved + k);
    assert MERCHANT in db.merchants by { StillEnrolled(k, available + k); }
    ReservationCommitsWhen(db, MERCHANT, v);
    ReservedAfter(db, v);
    RunSnoc(txs, db, [OnReservations(Insert(v))]);
  }

  lemma StillEnrolled(k: int, n: int)
    ensures MERCHANT in WithPostings(Overdrafted(k), Credited(n)).merchants
  {
    assert Overdrafted(k).merchants[0] == MERCHANT;
  }

  lemma ReservedAfter(db: Tables, v: Reservation)
    requires Valid(db) && Commits(db, [OnReservations(Insert(v))])
    ensures var after := Committed(db, [OnReservations(Insert(v))]);
            && after.merchants == db.merchants
            && Reserved(after, v.merchant) == Reserved(db, v.merchant) + v.delta
            && forall m :: Available(after, m) == Available(db, m)
  {
    hide Valid, OperationKeysHold, Rejects, Exec;
    CommitsOne(db, OnReservations(Insert(v)));
    ReservationInsertExec(Work(db, []), v);
    SumAppend(db.reservations, [v], ReservedOf(v.merchant));
    SumOne(v, ReservedOf(v.merchant));
  }

  /**
   A merchant can be left with these two totals if and only if the balance covers what is reserved. The
   guard enforces that and nothing else: neither total has a lower bound.
   */
  lemma ReachableExactly(reserved: int, available: int)
    ensures Reachable(reserved, available) <==> reserved <= available
  {
    if Reachable(reserved, available) {
      var txs: seq<Transaction>, m: Merchant :|
        && m in Run(EMPTY, txs).merchants
        && Reserved(Run(EMPTY, txs), m.id) == reserved
        && Available(Run(EMPTY, txs), m) == available;
      ReservationsAlwaysCovered(txs);
    }
    if reserved <= available {
      CoveredIsReachable(reserved, available, Max(1, 1 - reserved));
    }
  }
}
