/**
 Which journals commit with their postings, and which payments may change status, column by column. The
 journal is checked three times: by its own constraints, by the balance trigger, and by the trigger that
 ties a CAPTURE or REFUND journal to its provider operation and its resource.
 */
module LedgerEntries {
  import opened Basics
  import opened Rows
  import opened Sums
  import opened Database
  import opened Acceptance
  import opened RefundExactness

  // --- a journal and its postings --------------------------------------------------------------

  function EntryTransaction(j: Journal, ps: seq<Posting>): Transaction {
    [OnJournals(Insert(j))] + PostingInserts(ps)
  }

  lemma {:induction false} ExecJoined(w: Work, ss: seq<Statement>, more: seq<Statement>)
    ensures ExecAll(w, ss + more) == if ExecAll(w, ss).None? then None else ExecAll(ExecAll(w, ss).value, more)
  {
    hide Exec;
    if more == [] {
      assert ss + more == ss;
    } else {
      assert (ss + more)[..|ss + more| - 1] == ss + more[..|more| - 1];
      ExecJoined(w, ss, more[..|more| - 1]);
    }
  }

  lemma EntryExecutes(db: Tables, j: Journal, ps: seq<Posting>)
    requires Valid(db)
    ensures ExecAll(Work(db, []), EntryTransaction(j, ps))
         == if JournalFits(db, j) && PostingsFit(WithJournal(db, j), ps)
            then Some(Work(WithPostings(WithJournal(db, j), ps), [JournalInserted(j)] + PostingEvents(ps)))
            else None
    ensures JournalFits(db, j) && PostingsFit(WithJournal(db, j), ps) ==> Valid(WithPostings(WithJournal(db, j), ps))
  {
    hide Valid, Exec, ExecAll, JournalFits, PostingsFit;
    ExecJoined(Work(db, []), [OnJournals(Insert(j))], PostingInserts(ps));
    ExecOne(Work(db, []), OnJournals(Insert(j)));
    JournalInsertExec(Work(db, []), j);
    JournalInsertValid(db, j);
    if JournalFits(db, j) {
      assert [] + [JournalInserted(j)] == [JournalInserted(j)];
      PostingsExecute(Work(WithJournal(db, j), [JournalInserted(j)]), ps);
    }
  }

  /** No posting was there before its journal. */
  lemma NothingPosted(db: Tables, j: Journal, f: Posting -> int)
    requires Valid(db) && JournalFits(db, j) && forall p: Posting :: p.journal != j.id ==> f(p) == 0
    ensures Sum(db.postings, f) == 0
  {
    forall p | p in db.postings ensures f(p) == 0 {
      assert HasJournal(db.journals, p.journal, p.org, p.env);
    }
    SumZero(db.postings, f);
  }

  lemma {:induction false} CountAll(ps: seq<Posting>, journal: Id)
    requires forall p :: p in ps ==> p.journal == journal
    ensures Sum(ps, CountOf(journal)) == |ps|
  {
    if ps != [] {
      CountAll(ps[..|ps| - 1], journal);
    }
  }

  lemma AllInInr(db: Tables)
    requires Valid(db)
    ensures forall p :: p in db.postings ==> p.currency.Inr?
    ensures forall k :: k in db.journals ==> k.currency.Inr?
  {
  }

  lemma NoneInAnotherCurrency(db: Tables, j: Journal)
    requires j in db.journals && forall p :: p in db.postings ==> p.currency.Inr?
    requires forall k :: k in db.journals ==> k.currency.Inr?
    ensures Sum(db.postings, WrongCurrencyOf(j.id, CurrencyOf(db, j.id))) == 0
  {
    assert CurrencyOf(db, j.id) == Some(Inr);
    SumZero(db.postings, WrongCurrencyOf(j.id, CurrencyOf(db, j.id)));
  }

  lemma EntryBalance(db: Tables, j: Journal, ps: seq<Posting>)
    requires Valid(db) && JournalFits(db, j) && Valid(WithPostings(WithJournal(db, j), ps))
    requires forall p :: p in ps ==> p.journal == j.id
    ensures var after := WithPostings(WithJournal(db, j), ps);
            && Sum(after.postings, DebitOf(j.id)) == Sum(ps, DebitOf(j.id))
            && (BalanceRejects(after, j.id) <==> |ps| < 2 || Sum(ps, DebitOf(j.id)) != Sum(ps, CreditOf(j.id)))
  {
    hide Valid, JournalFits;
    var after := WithPostings(WithJournal(db, j), ps);
    AllInInr(after);
    assert j in after.journals;
    NoneInAnotherCurrency(after, j);
    NothingPosted(db, j, CountOf(j.id));
    NothingPosted(db, j, DebitOf(j.id));
    NothingPosted(db, j, CreditOf(j.id));
    SumAppend(db.postings, ps, CountOf(j.id));
    SumAppend(db.postings, ps, DebitOf(j.id));
    SumAppend(db.postings, ps, CreditOf(j.id));
    CountAll(ps, j.id);
  }

  /**
   What the trigger on journals asks, whatever else is in the tables: a COMPENSATION nothing; any other
   journal that the operation it names has its kind, its reference and its organisation, and that its debits
   are the amount of the capture, or else the refund, it refers to. What is not there is not asked about.
   */
  lemma BindingAsks(db: Tables, j: Journal)
    requires Unique(db.operations, OperationKey) && Unique(db.captures, CaptureKey) && Unique(db.refunds, RefundKey)
    ensures var debits := Sum(db.postings, DebitOf(j.id));
            !JournalOperationRejects(db, j) <==>
              || j.kind == Compensation
              || (&& (forall o :: o in db.operations && j.operation == Some(o.id) ==>
                        o.kind == j.kind && o.resource == j.reference && o.org == j.org)
                  && (j.kind == Kind.Capture ==>
                        forall c :: c in db.captures && c.id == j.reference ==> c.amount == debits)
                  && (j.kind != Kind.Capture ==>
                        forall r :: r in db.refunds && r.id == j.reference ==> r.amount == debits))
  {
    forall o | o in db.operations ensures Lookup(db.operations, OperationKey, o.id) == Some(o) {
      FindsRow(db.operations, OperationKey, o);
    }
    forall c | c in db.captures ensures Lookup(db.captures, CaptureKey, c.id) == Some(c) {
      FindsRow(db.captures, CaptureKey, c);
    }
    forall r | r in db.refunds ensures Lookup(db.refunds, RefundKey, r.id) == Some(r) {
      FindsRow(db.refunds, RefundKey, r);
    }
  }

  lemma EntryEvents(after: Tables, j: Journal, ps: seq<Posting>)
    requires forall p :: p in ps ==> p.journal == j.id
    ensures (forall e :: e in [JournalInserted(j)] + PostingEvents(ps) ==> !Rejects(after, e)) <==>
              && !BalanceRejects(after, j.id) && !JournalOperationRejects(after, j)
              && forall p :: p in ps ==> !DebitRejects(after, p)
  {
    hide BalanceRejects, DebitRejects, JournalOperationRejects;
    var events := [JournalInserted(j)] + PostingEvents(ps);
    assert events[0] in events;
    if forall e :: e in events ==> !Rejects(after, e) {
      forall p | p in ps ensures !DebitRejects(after, p) {
        assert PostingInserted(p) in PostingEvents(ps);
        assert !Rejects(after, PostingInserted(p));
      }
    }
    forall e | e in events && e != JournalInserted(j) ensures exists p :: p in ps && e == PostingInserted(p) {
      assert e in PostingEvents(ps);
    }
  }

  lemma EntryAccepted(db: Tables, j: Journal, ps: seq<Posting>)
    requires Valid(db) && JournalFits(db, j) && Valid(WithPostings(WithJournal(db, j), ps))
    requires forall p :: p in ps ==> p.journal == j.id
    ensures var after := WithPostings(WithJournal(db, j), ps);
            (forall e :: e in [JournalInserted(j)] + PostingEvents(ps) ==> !Rejects(after, e)) <==>
              && |ps| >= 2 && Sum(ps, DebitOf(j.id)) == Sum(ps, CreditOf(j.id))
              && !JournalOperationRejects(after, j)
              && forall p :: p in ps ==> !DebitRejects(after, p)
  {
    hide Valid, JournalFits, Rejects, BalanceRejects, DebitRejects, JournalOperationRejects;
    EntryBalance(db, j, ps);
    EntryEvents(WithPostings(WithJournal(db, j), ps), j, ps);
  }

  lemma EntryBound(db: Tables, j: Journal, ps: seq<Posting>)
    requires Valid(db) && JournalFits(db, j) && Valid(WithPostings(WithJournal(db, j), ps))
    requires forall p :: p in ps ==> p.journal == j.id
    ensures !JournalOperationRejects(WithPostings(WithJournal(db, j), ps), j) <==>
              || j.kind == Compensation
              || (&& (forall o :: o in db.operations && j.operation == Some(o.id) ==>
                        o.kind == j.kind && o.resource == j.reference)
                  && (j.kind == Kind.Capture ==>
                        forall c :: c in db.captures && c.id == j.reference ==> c.amount == Sum(ps, DebitOf(j.id)))
                  && (j.kind != Kind.Capture ==>
                        forall r :: r in db.refunds && r.id == j.reference ==> r.amount == Sum(ps, DebitOf(j.id))))
  {
    hide Valid, JournalOperationRejects, BalanceRejects;
    var after := WithPostings(WithJournal(db, j), ps);
    EntryBalance(db, j, ps);
    JournalParts(db);
    JournalParts(after);
    BindingAsks(after, j);
    forall o | o in db.operations && j.operation == Some(o.id) ensures o.org == j.org {
      FindsRow(db.operations, OperationKey, o);
    }
  }

  lemma EntryCovered(db: Tables, j: Journal, ps: seq<Posting>)
    requires Valid(WithPostings(WithJournal(db, j), ps))
    ensures (forall p :: p in ps ==> !DebitRejects(WithPostings(WithJournal(db, j), ps), p)) <==>
            forall p, a :: p in ps && p.side == Debit && a in db.accounts && a.id == p.account
                           && a.code == AvailablePayable && a.merchant.Some? ==>
              Sum(db.reservations, ReservedOf(a.merchant.value)) <= Sum(db.postings + ps, SignedPostingOf(p.org, a.id))
  {
    hide Valid, DebitRejects;
    var after := WithPostings(WithJournal(db, j), ps);
    forall p | p in ps
      ensures DebitRejects(after, p) <==>
              && p.side == Debit
              && exists a :: a in db.accounts && a.id == p.account && a.code == AvailablePayable && a.merchant.Some?
                             && Sum(db.postings + ps, SignedPostingOf(p.org, a.id))
                                < Sum(db.reservations, ReservedOf(a.merchant.value))
    {
      DebitRejectsExactly(after, p);
    }
  }

  /**
   Which journals commit with their postings, column by column. The journal is new in every index, in INR,
   and names an operation and a merchant of its scope if any. It has two postings or more, each positive, in
   INR, new and on an account of the scope, and debits equal credits. Unless it is a COMPENSATION, the
   operation it names has its kind and its reference, and its debits are the amount of the capture or
   refund it refers to. No debit takes an AVAILABLE account below what is reserved of it.
   */
  lemma EntryCommitsExactly(db: Tables, j: Journal, ps: seq<Posting>)
    requires Valid(db) && OperationKeysHold(db) && forall p :: p in ps ==> p.journal == j.id
    ensures Commits(db, EntryTransaction(j, ps)) <==>
              && j.currency == Inr && j.kind != Authorize
              && (j.operation.Some? ==>
                    exists o :: o in db.operations && o.id == j.operation.value && o.org == j.org && o.env == j.env)
              && (j.merchant.Some? ==>
                    exists m :: m in db.merchants && m.id == j.merchant.value && m.org == j.org && m.env == j.env)
              && (forall k :: k in db.journals ==>
                    && k.id != j.id && (j.operation.None? || k.operation != j.operation)
                    && (k.org != j.org || k.env != j.env || k.kind != j.kind || k.reference != j.reference))
              && |ps| >= 2 && Sum(ps, DebitOf(j.id)) == Sum(ps, CreditOf(j.id))
              && (forall p :: p in ps ==>
                    && p.amount > 0 && p.currency == Inr && p.org == j.org && p.env == j.env
                    && (exists a :: a in db.accounts && a.id == p.account && a.org == p.org && a.env == p.env)
                    && (forall q :: q in db.postings ==> q.id != p.id))
              && (forall i, k :: 0 <= i < k < |ps| ==> ps[i].id != ps[k].id)
              && (|| j.kind == Compensation
                  || (&& (forall o :: o in db.operations && j.operation == Some(o.id) ==>
                            o.kind == j.kind && o.resource == j.reference)
                      && (j.kind == Kind.Capture ==>
                            forall c :: c in db.captures && c.id == j.reference ==> c.amount == Sum(ps, DebitOf(j.id)))
                      && (j.kind != Kind.Capture ==>
                            forall r :: r in db.refunds && r.id == j.reference ==> r.amount == Sum(ps, DebitOf(j.id)))))
              && (forall p, a :: p in ps && p.side == Debit && a in db.accounts && a.id == p.account
                                 && a.code == AvailablePayable && a.merchant.Some? ==>
                    Sum(db.reservations, ReservedOf(a.merchant.value))
                    <= Sum(db.postings + ps, SignedPostingOf(p.org, a.id)))
  {
    hide Valid, OperationKeysHold, Commits, PostingsFit, JournalOperationRejects, DebitRejects;
    EntryCommitsWhen(db, j, ps);
    EntryFits(db, j, ps);
    if JournalFits(db, j) && PostingsFit(WithJournal(db, j), ps) {
      EntryExecutes(db, j, ps);
      EntryBound(db, j, ps);
      EntryCovered(db, j, ps);
    }
  }

  lemma EntryCommitsWhen(db: Tables, j: Journal, ps: seq<Posting>)
    requires Valid(db) && OperationKeysHold(db) && forall p :: p in ps ==> p.journal == j.id
    ensures Commits(db, EntryTransaction(j, ps)) <==>
              && JournalFits(db, j) && PostingsFit(WithJournal(db, j), ps)
              && |ps| >= 2 && Sum(ps, DebitOf(j.id)) == Sum(ps, CreditOf(j.id))
              && !JournalOperationRejects(WithPostings(WithJournal(db, j), ps), j)
              && forall p :: p in ps ==> !DebitRejects(WithPostings(WithJournal(db, j), ps), p)
  {
    SameKeys(db, WithPostings(WithJournal(db, j), ps));
    hide Valid, OperationKeysHold, ExecAll, JournalFits, PostingsFit, Rejects, JournalOperationRejects, DebitRejects,
         EntryTransaction;
    EntryExecutes(db, j, ps);
    if JournalFits(db, j) && PostingsFit(WithJournal(db, j), ps) {
      EntryAccepted(db, j, ps);
    }
  }

  lemma SameKeys(db: Tables, after: Tables)
    requires OperationKeysHold(db) && after.operations == db.operations && after.authorizations == db.authorizations
    requires after.captures == db.captures && after.refunds == db.refunds
    ensures OperationKeysHold(after)
  {
  }

  lemma EntryFits(db: Tables, j: Journal, ps: seq<Posting>)
    requires Valid(db) && forall p :: p in ps ==> p.journal == j.id
    ensures JournalFits(db, j) ==>
              (PostingsFit(WithJournal(db, j), ps) <==>
                && (forall p :: p in ps ==>
                      && p.amount > 0 && p.currency == Inr && p.org == j.org && p.env == j.env
                      && (exists a :: a in db.accounts && a.id == p.account && a.org == p.org && a.env == p.env)
                      && (forall q :: q in db.postings ==> q.id != p.id))
                && (forall i, k :: 0 <= i < k < |ps| ==> ps[i].id != ps[k].id))
  {
    hide Valid, PostingsFit;
    PostingsFitExactly(WithJournal(db, j), ps);
    if JournalFits(db, j) {
      var after := WithJournal(db, j);
      assert j in after.journals;
      forall p | p in ps
        ensures (exists k :: k in after.journals && k.id == p.journal && k.org == p.org && k.env == p.env) <==>
                p.org == j.org && p.env == j.env
      {
        if k :| k in after.journals && k.id == p.journal && k.org == p.org && k.env == p.env {
          assert k == j;
        }
      }
    }
  }

  // --- payment statuses ------------------------------------------------------------------------

  /** The moves that migration 0019 allows. */
  const MOVES: set<(PaymentStatus, PaymentStatus)> := {
    (Created, RequiresAction), (Created, Authorised), (Created, PaymentFailed), (Created, Cancelled),
    (RequiresAction, Authorised), (RequiresAction, PaymentFailed), (RequiresAction, Cancelled),
    (RequiresAction, Expired), (Authorised, Captured), (Authorised, Cancelled), (Authorised, Expired),
    (Authorised, PaymentFailed), (Captured, PartiallyRefunded), (Captured, Refunded),
    (PartiallyRefunded, PartiallyRefunded), (PartiallyRefunded, Refunded)}

  /** What names this payment is in this scope. */
  predicate NamedIn(db: Tables, id: Id, org: Id, env: Id) {
    && (forall o :: o in db.operations && o.payment == id ==> o.org == org && o.env == env)
    && (forall a :: a in db.authorizations && a.payment == id ==> a.org == org && a.env == env)
    && (forall c :: c in db.captures && c.payment == id ==> c.org == org && c.env == env)
    && (forall r :: r in db.refunds && r.payment == id ==> r.org == org && r.env == env)
  }

  function Moved(db: Tables, p: Payment): Tables {
    db.(payments := Changed(db.payments, PaymentKey, Update(p)))
  }

  lemma PaymentsAfter(db: Tables, p: Payment)
    requires Unique(db.payments, PaymentKey) && Position(db.payments, PaymentKey, p.id).Some?
    ensures Unique(Moved(db, p).payments, PaymentKey)
    ensures forall id, org, env :: HasPayment(Moved(db, p).payments, id, org, env) <==>
              if id == p.id then org == p.org && env == p.env else HasPayment(db.payments, id, org, env)
  {
    UpdateMembers(db.payments, PaymentKey, p);
    hide Changed;
  }

  lemma PaymentMoveValid(db: Tables, p: Payment)
    requires Valid(db) && Position(db.payments, PaymentKey, p.id).Some?
    ensures Valid(Moved(db, p)) <==> NamedIn(db, p.id, p.org, p.env)
  {
    PaymentsOfAll(db);
    PaymentsAfter(db, p);
    RestIsTheSame(db, Moved(db, p));
    hide Changed, HasPayment;
    OperationsMoved(db, Moved(db, p), p);
    AuthorizationsMoved(db, Moved(db, p), p);
    CapturesMoved(db, Moved(db, p), p);
    RefundsMoved(db, Moved(db, p), p);
  }

  lemma PaymentsOfAll(db: Tables)
    requires Valid(db)
    ensures Unique(db.payments, PaymentKey)
  {
  }

  lemma RestIsTheSame(db: Tables, after: Tables)
    requires after == db.(payments := after.payments)
    ensures AccountsValid(after) == AccountsValid(db) && JournalsValid(after) == JournalsValid(db)
    ensures PostingsValid(after) == PostingsValid(db) && ReservationsValid(after) == ReservationsValid(db)
  {
  }

  lemma OperationsMoved(db: Tables, after: Tables, p: Payment)
    requires OperationsValid(db) && after == db.(payments := after.payments) && Unique(after.payments, PaymentKey)
    requires forall id, org, env :: HasPayment(after.payments, id, org, env) <==>
               if id == p.id then org == p.org && env == p.env else HasPayment(db.payments, id, org, env)
    ensures OperationsValid(after) <==>
            forall o :: o in db.operations && o.payment == p.id ==> o.org == p.org && o.env == p.env
  {
    hide HasPayment;
  }

  lemma AuthorizationsMoved(db: Tables, after: Tables, p: Payment)
    requires AuthorizationsValid(db) && after == db.(payments := after.payments)
    requires forall id, org, env :: HasPayment(after.payments, id, org, env) <==>
               if id == p.id then org == p.org && env == p.env else HasPayment(db.payments, id, org, env)
    ensures AuthorizationsValid(after) <==>
            forall a :: a in db.authorizations && a.payment == p.id ==> a.org == p.org && a.env == p.env
  {
    hide HasPayment;
  }

  lemma CapturesMoved(db: Tables, after: Tables, p: Payment)
    requires CapturesValid(db) && after == db.(payments := after.payments)
    requires forall id, org, env :: HasPayment(after.payments, id, org, env) <==>
               if id == p.id then org == p.org && env == p.env else HasPayment(db.payments, id, org, env)
    ensures CapturesValid(after) <==>
            forall c :: c in db.captures && c.payment == p.id ==> c.org == p.org && c.env == p.env
  {
    hide HasPayment;
    forall c | c in db.captures
      ensures CaptureLinked(after, c) <==> (c.payment == p.id ==> c.org == p.org && c.env == p.env)
    {
      assert CaptureLinked(db, c);
    }
  }

  lemma RefundsMoved(db: Tables, after: Tables, p: Payment)
    requires RefundsValid(db) && after == db.(payments := after.payments)
    requires forall id, org, env :: HasPayment(after.payments, id, org, env) <==>
               if id == p.id then org == p.org && env == p.env else HasPayment(db.payments, id, org, env)
    ensures RefundsValid(after) <==>
            forall r :: r in db.refunds && r.payment == p.id ==> r.org == p.org && r.env == p.env
  {
    hide HasPayment;
    forall r | r in db.refunds
      ensures RefundLinked(after, r) <==> (r.payment == p.id ==> r.org == p.org && r.env == p.env)
    {
      assert RefundLinked(db, r);
    }
  }

  lemma TransitionsExactly(a: PaymentStatus, b: PaymentStatus)
    ensures AllowedTransition(a, b) <==> (a, b) in MOVES
  {
  }

  /**
   Which updates of a payment commit: the status stays or makes one of the allowed moves, and what names the
   payment is in the scope of the new row.
   */
  lemma PaymentMovesExactly(db: Tables, p: Payment, q: Payment)
    requires Valid(db) && OperationKeysHold(db) && q in db.payments && q.id == p.id
    ensures Commits(db, [OnPayments(Update(p))]) <==>
              (p.status == q.status || (q.status, p.status) in MOVES) && NamedIn(db, p.id, p.org, p.env)
    ensures Commits(db, [OnPayments(Update(p))]) ==> Committed(db, [OnPayments(Update(p))]) == Moved(db, p)
  {
    SameKeys(db, Moved(db, p));
    PaymentsOfAll(db);
    hide Valid, OperationKeysHold, Commits, Committed, NamedIn, Changed, AllowedTransition;
    FindsRow(db.payments, PaymentKey, q);
    TransitionsExactly(q.status, p.status);
    PaymentMoveValid(db, p);
    CommitsOne(db, OnPayments(Update(p)));
  }
}
