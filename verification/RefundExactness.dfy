/**
 Exactly when the guards keep a payment's refunds covered and its journals booked. The reservation
 trigger sees only the refund rows a transaction wrote, and measures them against the capture they
 name: rewriting a capture, refunding out of another payment's capture and adding postings to a booked
 journal all commit. For each of these writes this module states, for all tables, when it commits and
 when it keeps the property. `ResourceWrites` does so for the other writes to captures and refunds, and
 `RefundStory` runs the failures from the empty database.
 */
module RefundExactness {
  import opened Basics
  import opened Rows
  import opened Sums
  import opened Database
  import opened LedgerBalance
  import opened RefundReservations
  import opened Acceptance

  // --- rewriting a capture ---------------------------------------------------------------------

  predicate SamePayment(c: CaptureRow, d: CaptureRow) {
    c.org == d.org && c.payment == d.payment
  }

  /** The tables after a capture row was replaced. */
  function Rewritten(db: Tables, row: CaptureRow): Tables {
    db.(captures := Changed(db.captures, CaptureKey, Update(row)))
  }

  /** What can be checked before a capture is rewritten: its refunds still fit, and none are left behind. */
  predicate RewriteCovers(db: Tables, before: CaptureRow, row: CaptureRow) {
    && LiveRefunds(db, row.org, row.payment) <= CapturedOf(row.org, row.payment)(row)
    && (!SamePayment(before, row) ==> LiveRefunds(db, before.org, before.payment) <= 0)
  }

  lemma RewrittenAmount(db: Tables, row: CaptureRow, org: Id, payment: Id)
    requires Position(db.captures, CaptureKey, row.id).Some?
    ensures var before := Lookup(db.captures, CaptureKey, row.id).value;
            CapturedAmount(Rewritten(db, row), org, payment)
            == CapturedAmount(db, org, payment) - CapturedOf(org, payment)(before) + CapturedOf(org, payment)(row)
  {
    SumUpdate(db.captures, Position(db.captures, CaptureKey, row.id).value, row, CapturedOf(org, payment));
  }

  /** A payment without any capture row has captured nothing. */
  lemma NothingCaptured(db: Tables, org: Id, payment: Id)
    requires forall c :: c in db.captures ==> c.org != org || c.payment != payment
    ensures CapturedAmount(db, org, payment) == 0
  {
    SumZero(db.captures, CapturedOf(org, payment));
  }

  /** After a rewrite, each payment has captured what the rewritten rows say. */
  lemma RewrittenPayments(db: Tables, row: CaptureRow)
    requires CapturesValid(db) && Position(db.captures, CaptureKey, row.id).Some? && CaptureFits(db, row)
    ensures var before := Lookup(db.captures, CaptureKey, row.id).value;
            && CapturedAmount(Rewritten(db, row), row.org, row.payment) == CapturedOf(row.org, row.payment)(row)
            && (!SamePayment(before, row) ==> CapturedAmount(Rewritten(db, row), before.org, before.payment) == 0)
  {
    var before := Lookup(db.captures, CaptureKey, row.id).value;
    RewrittenAmount(db, row, row.org, row.payment);
    RewrittenAmount(db, row, before.org, before.payment);
    CaptureCounts(db, before);
    if !SamePayment(before, row) {
      forall c | c in db.captures ensures c.org != row.org || c.payment != row.payment {
        if c.id == row.id {
          SameRow(db.captures, CaptureKey, c, before);
        } else {
          assert !CapturesClash(row, c);
        }
      }
      NothingCaptured(db, row.org, row.payment);
    }
  }

  lemma RewriteCoverExactly(db: Tables, row: CaptureRow)
    requires CapturesValid(db) && Covered(db)
    requires Position(db.captures, CaptureKey, row.id).Some? && CaptureFits(db, row)
    ensures Covered(Rewritten(db, row)) <==> RewriteCovers(db, Lookup(db.captures, CaptureKey, row.id).value, row)
  {
    var before := Lookup(db.captures, CaptureKey, row.id).value;
    var after := Rewritten(db, row);
    RewrittenPayments(db, row);
    if Covered(after) {
      assert LiveRefunds(after, row.org, row.payment) <= CapturedAmount(after, row.org, row.payment);
      assert LiveRefunds(after, before.org, before.payment) <= CapturedAmount(after, before.org, before.payment);
    }
    if RewriteCovers(db, before, row) {
      forall org: Id, payment: Id ensures LiveRefunds(after, org, payment) <= CapturedAmount(after, org, payment) {
        RewrittenAmount(db, row, org, payment);
        assert LiveRefunds(db, org, payment) <= CapturedAmount(db, org, payment);
      }
    }
  }

  /** A rewrite of a capture commits when the constraints, the deferred key and the guard say so. */
  lemma RewriteCommitsWhen(db: Tables, row: CaptureRow)
    requires Valid(db) && OperationKeysHold(db) && Position(db.captures, CaptureKey, row.id).Some?
    ensures Commits(db, [OnCaptures(Update(row))]) <==>
              && CaptureFits(db, row)
              && HasOperation(db.operations, row.operation, row.org, row.env)
              && !CaptureRejects(db, row, false)
    ensures Commits(db, [OnCaptures(Update(row))]) ==> Committed(db, [OnCaptures(Update(row))]) == Rewritten(db, row)
  {
    hide Valid, CapturesValid, CaptureFits, Exec, Commits, Committed, OperationKeysHold, HasOperation, CaptureRejects,
         Changed;
    ResourceParts(db);
    KeysAfterRewrite(db, row);
    SameGuard(db, row);
    CommitsOne(db, OnCaptures(Update(row)));
    CaptureUpdateExec(Work(db, []), row);
    var events := [] + [CaptureWritten(row, false)];
    assert events[0] in events;
  }

  lemma ResourceParts(db: Tables)
    requires Valid(db)
    ensures CapturesValid(db) && RefundsValid(db)
  {
  }

  /** The capture-command guard does not look at captures. */
  lemma SameGuard(db: Tables, row: CaptureRow)
    ensures CaptureRejects(Rewritten(db, row), row, false) == CaptureRejects(db, row, false)
  {
  }

  /** What the capture-command guard asks, on an existing authorization. */
  lemma GuardAsks(db: Tables, c: CaptureRow, inserted: bool)
    requires Valid(db) && HasAuthorization(db.authorizations, c.authorization, c.org, c.env)
    ensures !CaptureRejects(db, c, inserted) <==>
              && (exists a :: a in db.authorizations && a.id == c.authorization && a.org == c.org && a.env == c.env
                              && a.status == Succeeded && c.amount <= a.amount)
              && (inserted ==> forall p :: p in db.payments && p.id == c.payment && p.org == c.org ==>
                    p.status != Cancelled && p.status != Expired && p.status != PaymentFailed)
  {
    assert Unique(db.authorizations, AuthorizationKey) && Unique(db.payments, PaymentKey);
    hide Valid;
    var a :| a in db.authorizations && a.id == c.authorization && a.org == c.org && a.env == c.env;
    FindsRow(db.authorizations, AuthorizationKey, a);
    forall b | b in db.authorizations && b.id == c.authorization ensures b == a {
      SameRow(db.authorizations, AuthorizationKey, a, b);
    }
    forall p | p in db.payments && p.id == c.payment ensures Lookup(db.payments, PaymentKey, c.payment) == Some(p) {
      FindsRow(db.payments, PaymentKey, p);
    }
  }

  /**
   Which rewrites of a capture commit, column by column: the new row meets the CHECKs, names a payment, an
   operation and a journal of its scope, collides with no other capture, leaves its refunds in their scope,
   and names a SUCCEEDED authorization that covers it.
   */
  lemma RewriteCommitsExactly(db: Tables, row: CaptureRow)
    requires Valid(db) && OperationKeysHold(db) && Position(db.captures, CaptureKey, row.id).Some?
    ensures Commits(db, [OnCaptures(Update(row))]) <==>
              && row.amount > 0 && (row.status == Succeeded <==> row.journal.Some?)
              && (exists p :: p in db.payments && p.id == row.payment && p.org == row.org && p.env == row.env)
              && (exists o :: o in db.operations && o.id == row.operation && o.org == row.org && o.env == row.env)
              && (exists a :: a in db.authorizations && a.id == row.authorization && a.org == row.org
                              && a.env == row.env && a.status == Succeeded && row.amount <= a.amount)
              && (row.journal.Some? ==>
                    exists j :: j in db.journals && j.id == row.journal.value && j.org == row.org && j.env == row.env)
              && (forall d :: d in db.captures && d.id != row.id ==>
                    && (d.org != row.org || d.payment != row.payment) && d.operation != row.operation
                    && (row.journal.None? || d.journal != row.journal))
              && (forall r :: r in db.refunds && r.capture == row.id ==> r.org == row.org && r.env == row.env)
  {
    hide Valid, Commits, Committed, OperationKeysHold, CaptureRejects;
    RewriteCommitsWhen(db, row);
    if HasAuthorization(db.authorizations, row.authorization, row.org, row.env) {
      GuardAsks(db, row, false);
    }
  }

  lemma KeysAfterRewrite(db: Tables, row: CaptureRow)
    requires CapturesValid(db) && OperationKeysHold(db) && Position(db.captures, CaptureKey, row.id).Some?
    ensures OperationKeysHold(Rewritten(db, row)) <==> HasOperation(db.operations, row.operation, row.org, row.env)
  {
    UpdateMembers(db.captures, CaptureKey, row);
  }

  /**
   Rewriting a capture in any way that commits keeps every payment covered exactly when its live refunds
   fit the new row and no live refunds stay with a payment it leaves.
   */
  lemma RewriteKeepsCoverExactly(db: Tables, row: CaptureRow)
    requires Valid(db) && OperationKeysHold(db) && Covered(db)
    requires Commits(db, [OnCaptures(Update(row))]) && Position(db.captures, CaptureKey, row.id).Some?
    ensures Covered(Committed(db, [OnCaptures(Update(row))])) <==>
            RewriteCovers(db, Lookup(db.captures, CaptureKey, row.id).value, row)
  {
    RewriteCommitsWhen(db, row);
    RewriteCoverExactly(db, row);
  }

  // --- a new refund ----------------------------------------------------------------------------

  /** The provider operation that goes with a refund. */
  function OperationOf(r: RefundRow): Operation {
    Operation(r.operation, r.org, r.env, r.payment, Refund, r.id, r.status)
  }

  function RefundTransaction(r: RefundRow): Transaction {
    [OnOperations(Insert(OperationOf(r))), OnRefunds(Insert(r))]
  }

  function WithRefund(db: Tables, r: RefundRow): Tables {
    db.(operations := db.operations + [OperationOf(r)], refunds := db.refunds + [r])
  }

  /** The capture a refund names has succeeded and is worth the payment's live refunds with this one. */
  predicate CaptureBears(db: Tables, r: RefundRow) {
    exists c :: c in db.captures && c.id == r.capture && c.org == r.org && c.status.Succeeded?
                && LiveRefunds(db, r.org, r.payment) + LiveRefundOf(r.org, r.payment)(r) <= c.amount
  }

  lemma LiveWithRefund(db: Tables, r: RefundRow, org: Id, payment: Id)
    ensures LiveRefunds(WithRefund(db, r), org, payment)
         == LiveRefunds(db, org, payment) + LiveRefundOf(org, payment)(r)
  {
    SumAppend(db.refunds, [r], LiveRefundOf(org, payment));
    SumOne(r, LiveRefundOf(org, payment));
  }

  lemma SameCaptures(db: Tables, r: RefundRow)
    ensures forall org, payment :: CapturedAmount(WithRefund(db, r), org, payment) == CapturedAmount(db, org, payment)
  {
  }

  lemma RefundRejectsExactly(db: Tables, r: RefundRow)
    requires CapturesValid(db) && HasCapture(db.captures, r.capture, r.org, r.env)
    ensures RefundRejects(WithRefund(db, r), r) <==> !CaptureBears(db, r)
  {
    var c :| c in db.captures && c.id == r.capture && c.org == r.org;
    FindsRow(db.captures, CaptureKey, c);
    LiveWithRefund(db, r, r.org, r.payment);
    forall d | d in db.captures && d.id == r.capture ensures d == c {
      SameRow(db.captures, CaptureKey, c, d);
    }
  }

  lemma KeysWithRefund(db: Tables, r: RefundRow)
    requires OperationKeysHold(db)
    ensures OperationKeysHold(WithRefund(db, r)) && !BindingRejects(WithRefund(db, r), OperationOf(r))
  {
    var after := WithRefund(db, r);
    assert OperationOf(r) in after.operations && r in after.refunds;
    assert forall id, org, env :: HasOperation(db.operations, id, org, env) ==>
             HasOperation(after.operations, id, org, env);
  }

  lemma FitsAsBefore(db: Tables, after: Tables, r: RefundRow)
    requires after == db.(operations := after.operations)
    ensures RefundFits(after, r) == RefundFits(db, r)
  {
  }

  /** Running the two inserts, before anything is checked at commit. */
  lemma RefundExecutes(db: Tables, r: RefundRow)
    requires Valid(db)
    ensures ExecAll(Work(db, []), RefundTransaction(r))
         == if OperationFits(db, OperationOf(r)) && RefundFits(db, r)
            then Some(Work(WithRefund(db, r), [OperationWritten(OperationOf(r)), RefundWritten(r)]))
            else None
  {
    hide Valid, OperationFits, RefundFits, Exec, ExecAll;
    var o := OperationOf(r);
    var half := Work(db.(operations := db.operations + [o]), [] + [OperationWritten(o)]);
    ExecTwo(Work(db, []), OnOperations(Insert(o)), OnRefunds(Insert(r)));
    OperationInsertExec(Work(db, []), o);
    if OperationFits(db, o) {
      RefundInsertExec(half, r);
      FitsAsBefore(db, half.db, r);
      assert half.events + [RefundWritten(r)] == [OperationWritten(o), RefundWritten(r)];
    }
  }

  /** What the deferred keys and triggers say once the two rows are there. */
  lemma RefundAcceptedExactly(db: Tables, r: RefundRow)
    requires CapturesValid(db) && OperationKeysHold(db) && HasCapture(db.captures, r.capture, r.org, r.env)
    ensures OperationKeysHold(WithRefund(db, r))
    ensures (forall e :: e in [OperationWritten(OperationOf(r)), RefundWritten(r)] ==> !Rejects(WithRefund(db, r), e))
            <==> CaptureBears(db, r)
  {
    KeysWithRefund(db, r);
    RefundRejectsExactly(db, r);
    var events := [OperationWritten(OperationOf(r)), RefundWritten(r)];
    assert events[1] in events;
  }

  /** A new refund commits when the constraints on both rows and the capture it names say so. */
  lemma RefundCommitsWhen(db: Tables, r: RefundRow)
    requires Valid(db) && OperationKeysHold(db)
    ensures Commits(db, RefundTransaction(r)) <==>
            OperationFits(db, OperationOf(r)) && RefundFits(db, r) && CaptureBears(db, r)
    ensures Commits(db, RefundTransaction(r)) ==> Committed(db, RefundTransaction(r)) == WithRefund(db, r)
  {
    RefundExecutes(db, r);
    if RefundFits(db, r) {
      RefundAcceptedExactly(db, r);
    }
  }

  /** What a refund that has not failed takes of its payment's capture. */
  function Outstanding(org: Id, payment: Id): RefundRow -> int {
    (r: RefundRow) => if r.org == org && r.payment == payment && r.status != Failed then r.amount else 0
  }

  lemma LiveIsOutstanding(db: Tables, org: Id, payment: Id)
    ensures LiveRefunds(db, org, payment) == Sum(db.refunds, Outstanding(org, payment))
  {
    SumEqual(db.refunds, LiveRefundOf(org, payment), Outstanding(org, payment));
  }

  /**
   Which new refunds commit with their operation, column by column: both rows are new, the refund meets the
   CHECKs and names a payment of its scope and a journal if it has one, and the capture it names, of
   whatever payment, is SUCCEEDED and covers all refunds of the payment that have not failed, this one
   included.
   */
  lemma RefundCommitsExactly(db: Tables, r: RefundRow)
    requires Valid(db) && OperationKeysHold(db)
    ensures Commits(db, RefundTransaction(r)) <==>
              && r.amount > 0 && (r.status == Succeeded <==> r.journal.Some?)
              && (exists p :: p in db.payments && p.id == r.payment && p.org == r.org && p.env == r.env)
              && (exists c :: c in db.captures && c.id == r.capture && c.org == r.org && c.env == r.env
                              && c.status == Succeeded
                              && Sum(db.refunds + [r], Outstanding(r.org, r.payment)) <= c.amount)
              && (r.journal.Some? ==>
                    exists j :: j in db.journals && j.id == r.journal.value && j.org == r.org && j.env == r.env)
              && (forall o :: o in db.operations ==>
                    o.id != r.operation
                    && (o.org != r.org || o.env != r.env || o.kind != Kind.Refund || o.resource != r.id))
              && (forall q :: q in db.refunds ==>
                    q.id != r.id && q.operation != r.operation && (r.journal.None? || q.journal != r.journal))
  {
    hide Valid, Commits, Committed, OperationKeysHold;
    RefundCommitsWhen(db, r);
    LiveWithRefund(db, r, r.org, r.payment);
    LiveIsOutstanding(WithRefund(db, r), r.org, r.payment);
    if RefundFits(db, r) {
      OneCapture(db, r.capture);
    }
  }

  lemma OneCapture(db: Tables, id: Id)
    requires Valid(db)
    ensures forall c, d :: c in db.captures && d in db.captures && c.id == id && d.id == id ==> c == d
  {
    forall c, d | c in db.captures && d in db.captures && c.id == id && d.id == id ensures c == d {
      SameRow(db.captures, CaptureKey, c, d);
    }
  }

  /** A refund that commits keeps every payment covered exactly when its own payment captured enough for it. */
  lemma RefundKeepsCoverExactly(db: Tables, r: RefundRow)
    requires Valid(db) && OperationKeysHold(db) && Covered(db) && Commits(db, RefundTransaction(r))
    ensures Covered(Committed(db, RefundTransaction(r))) <==>
            LiveRefunds(db, r.org, r.payment) + LiveRefundOf(r.org, r.payment)(r)
            <= CapturedAmount(db, r.org, r.payment)
  {
    hide Valid, Commits, Committed, OperationFits, RefundFits, CaptureBears, LiveRefunds, CapturedAmount;
    RefundCommitsWhen(db, r);
    var after := WithRefund(db, r);
    SameCaptures(db, r);
    LiveWithRefund(db, r, r.org, r.payment);
    if Covered(after) {
      assert LiveRefunds(after, r.org, r.payment) <= CapturedAmount(after, r.org, r.payment);
    } else {
      var org: Id, payment: Id :| LiveRefunds(after, org, payment) > CapturedAmount(after, org, payment);
      LiveWithRefund(db, r, org, payment);
      assert LiveRefunds(db, org, payment) <= CapturedAmount(db, org, payment);
    }
  }

  /** So a refund that names its own payment's capture always keeps them. */
  lemma OwnCaptureKeepsCover(db: Tables, r: RefundRow, c: CaptureRow)
    requires Valid(db) && OperationKeysHold(db) && Covered(db) && Commits(db, RefundTransaction(r))
    requires c in db.captures && c.id == r.capture && c.payment == r.payment
    ensures Covered(Committed(db, RefundTransaction(r)))
  {
    RefundCommitsWhen(db, r);
    RefundKeepsCoverExactly(db, r);
    var d :| d in db.captures && d.id == r.capture && d.org == r.org && d.status.Succeeded?
             && LiveRefunds(db, r.org, r.payment) + LiveRefundOf(r.org, r.payment)(r) <= d.amount;
    SameRow(db.captures, CaptureKey, c, d);
    CaptureCounts(db, d);
  }

  // --- more postings ---------------------------------------------------------------------------

  function PostingInserts(ps: seq<Posting>): Transaction {
    if ps == [] then [] else PostingInserts(ps[..|ps| - 1]) + [OnPostings(Insert(ps[|ps| - 1]))]
  }

  function PostingEvents(ps: seq<Posting>): (es: seq<Event>)
    ensures forall e :: e in es <==> exists p :: p in ps && e == PostingInserted(p)
  {
    if ps == [] then [] else
    assert forall p :: p in ps <==> p in ps[..|ps| - 1] || p == ps[|ps| - 1];
    PostingEvents(ps[..|ps| - 1]) + [PostingInserted(ps[|ps| - 1])]
  }

  function WithPostings(db: Tables, ps: seq<Posting>): Tables {
    db.(postings := db.postings + ps)
  }

  /** Each posting in turn fits the tables so far. */
  predicate PostingsFit(db: Tables, ps: seq<Posting>) {
    ps == [] ||
    (PostingsFit(db, ps[..|ps| - 1]) && PostingFits(WithPostings(db, ps[..|ps| - 1]), ps[|ps| - 1]))
  }

  lemma {:induction false} PostingsExecute(w: Work, ps: seq<Posting>)
    requires Valid(w.db)
    ensures ExecAll(w, PostingInserts(ps))
         == if PostingsFit(w.db, ps) then Some(Work(WithPostings(w.db, ps), w.events + PostingEvents(ps))) else None
    ensures PostingsFit(w.db, ps) ==> Valid(WithPostings(w.db, ps))
  {
    hide Valid, PostingFits, Exec;
    if ps == [] {
      assert w.db.postings + [] == w.db.postings && w.events + [] == w.events;
    } else {
      var front, last := ps[..|ps| - 1], ps[|ps| - 1];
      PostingsExecute(w, front);
      assert PostingInserts(ps)[..|PostingInserts(front)|] == PostingInserts(front);
      if PostingsFit(w.db, front) {
        PostingInsertExec(Work(WithPostings(w.db, front), w.events + PostingEvents(front)), last);
        assert w.db.postings + front + [last] == w.db.postings + ps;
        assert w.events + PostingEvents(front) + [PostingInserted(last)] == w.events + PostingEvents(ps);
      }
    }
  }

  lemma {:induction false} FittingPostings(db: Tables, ps: seq<Posting>)
    requires PostingsFit(db, ps)
    ensures forall p :: p in ps ==> p.amount > 0 && p.currency.Inr? && HasJournal(db.journals, p.journal, p.org, p.env)
  {
    if ps != [] {
      FittingPostings(db, ps[..|ps| - 1]);
    }
  }

  /** New postings balance a journal of their own accord. */
  predicate Offset(ps: seq<Posting>, journal: Id) {
    Sum(ps, DebitOf(journal)) == Sum(ps, CreditOf(journal))
  }

  lemma CountGrows(db: Tables, ps: seq<Posting>, journal: Id)
    ensures Sum(WithPostings(db, ps).postings, CountOf(journal)) >= Sum(db.postings, CountOf(journal))
  {
    SumAppend(db.postings, ps, CountOf(journal));
    SumNonNegative(ps, CountOf(journal));
  }

  lemma BalanceRejectsExactly(db: Tables, ps: seq<Posting>, journal: Id)
    requires JournalsValid(db) && Balanced(db, journal)
    requires forall p :: p in WithPostings(db, ps).postings ==> p.currency.Inr?
    ensures BalanceRejects(WithPostings(db, ps), journal) <==> !Offset(ps, journal)
  {
    var after := WithPostings(db, ps);
    CountGrows(db, ps, journal);
    SumAppend(db.postings, ps, DebitOf(journal));
    SumAppend(db.postings, ps, CreditOf(journal));
    SumZero(after.postings, WrongCurrencyOf(journal, CurrencyOf(after, journal)));
  }

  lemma LedgerParts(db: Tables)
    requires Valid(db)
    ensures JournalsValid(db) && forall p :: p in db.postings ==> p.currency.Inr?
  {
  }

  lemma PostingAcceptedExactly(db: Tables, ps: seq<Posting>, p: Posting)
    requires Valid(db) && AllBalanced(db) && PostingsFit(db, ps) && p in ps
    ensures Rejects(WithPostings(db, ps), PostingInserted(p)) <==>
            !Offset(ps, p.journal) || DebitRejects(WithPostings(db, ps), p)
  {
    hide Valid, JournalsValid, PostingsFit, DebitRejects, BalanceRejects, ExecAll, PostingInserts;
    PostingsExecute(Work(db, []), ps);
    LedgerParts(db);
    LedgerParts(WithPostings(db, ps));
    FittingPostings(db, ps);
    var j :| j in db.journals && j.id == p.journal;
    BalanceRejectsExactly(db, ps, p.journal);
  }

  /** Postings to journals that are there commit when each fits, and they offset each other in every journal. */
  lemma PostingsCommitWhen(db: Tables, ps: seq<Posting>)
    requires Valid(db) && OperationKeysHold(db) && AllBalanced(db)
    ensures Commits(db, PostingInserts(ps)) <==>
              && PostingsFit(db, ps)
              && forall p :: p in ps ==> Offset(ps, p.journal) && !DebitRejects(WithPostings(db, ps), p)
    ensures Commits(db, PostingInserts(ps)) ==> Committed(db, PostingInserts(ps)) == WithPostings(db, ps)
  {
    hide Valid, AllBalanced, PostingsFit, DebitRejects, Offset, Rejects, ExecAll, PostingInserts;
    PostingsExecute(Work(db, []), ps);
    assert [] + PostingEvents(ps) == PostingEvents(ps);
    if PostingsFit(db, ps) {
      var w := Work(WithPostings(db, ps), PostingEvents(ps));
      forall p | p in ps
        ensures PostingInserted(p) in w.events
        ensures Rejects(w.db, PostingInserted(p)) <==> !Offset(ps, p.journal) || DebitRejects(w.db, p)
      {
        PostingAcceptedExactly(db, ps, p);
      }
      assert OperationKeysHold(w.db);
    }
  }

  /** A posting that suits the tables, whatever is posted with it. */
  predicate Suits(db: Tables, p: Posting) {
    && p.amount > 0 && p.currency == Inr
    && (exists j :: j in db.journals && j.id == p.journal && j.org == p.org && j.env == p.env)
    && (exists a :: a in db.accounts && a.id == p.account && a.org == p.org && a.env == p.env)
    && (forall q :: q in db.postings ==> q.id != p.id)
  }

  lemma NextFits(db: Tables, front: seq<Posting>, last: Posting)
    ensures PostingFits(WithPostings(db, front), last) <==>
            Suits(db, last) && forall q :: q in front ==> q.id != last.id
  {
    assert forall q :: q in db.postings + front <==> q in db.postings || q in front;
  }

  lemma {:induction false} PostingsFitExactly(db: Tables, ps: seq<Posting>)
    ensures PostingsFit(db, ps) <==>
              (forall p :: p in ps ==> Suits(db, p)) && (forall i, k :: 0 <= i < k < |ps| ==> ps[i].id != ps[k].id)
  {
    hide Suits, PostingFits;
    if ps != [] {
      var front, last := ps[..|ps| - 1], ps[|ps| - 1];
      PostingsFitExactly(db, front);
      NextFits(db, front, last);
      assert forall p :: p in ps <==> p in front || p == last;
    }
  }

  /** When a new posting is refused for what payouts have reserved: it debits an AVAILABLE account too far. */
  lemma DebitRejectsExactly(db: Tables, p: Posting)
    requires Valid(db)
    ensures DebitRejects(db, p) <==>
              && p.side == Debit
              && exists a :: a in db.accounts && a.id == p.account && a.code == AvailablePayable && a.merchant.Some?
                             && Sum(db.postings, SignedPostingOf(p.org, a.id))
                                < Sum(db.reservations, ReservedOf(a.merchant.value))
  {
    assert Unique(db.accounts, AccountKey);
    hide Valid;
    forall a | a in db.accounts && a.id == p.account ensures Lookup(db.accounts, AccountKey, p.account) == Some(a) {
      FindsRow(db.accounts, AccountKey, a);
    }
  }

  /**
   Which postings commit to journals that are already there, column by column: each has a positive amount
   in INR, a new id, and a journal and an account of its scope; in every journal they touch their debits and
   credits are equal; and no debit takes an AVAILABLE account below what its merchant's payouts reserved.
   */
  lemma PostingsCommitExactly(db: Tables, ps: seq<Posting>)
    requires Valid(db) && OperationKeysHold(db) && AllBalanced(db)
    ensures Commits(db, PostingInserts(ps)) <==>
              && (forall p :: p in ps ==>
                    && p.amount > 0 && p.currency == Inr
                    && (exists j :: j in db.journals && j.id == p.journal && j.org == p.org && j.env == p.env)
                    && (exists a :: a in db.accounts && a.id == p.account && a.org == p.org && a.env == p.env)
                    && (forall q :: q in db.postings ==> q.id != p.id))
              && (forall i, k :: 0 <= i < k < |ps| ==> ps[i].id != ps[k].id)
              && (forall p :: p in ps ==> Sum(ps, DebitOf(p.journal)) == Sum(ps, CreditOf(p.journal)))
              && (forall p, a :: p in ps && p.side == Debit && a in db.accounts && a.id == p.account
                                 && a.code == AvailablePayable && a.merchant.Some? ==>
                    Sum(db.reservations, ReservedOf(a.merchant.value))
                    <= Sum(db.postings + ps, SignedPostingOf(p.org, a.id)))
  {
    hide Valid, Commits, Committed, OperationKeysHold, AllBalanced, PostingsFit, DebitRejects;
    PostingsCommitWhen(db, ps);
    PostingsFitExactly(db, ps);
    if PostingsFit(db, ps) {
      PostingsExecute(Work(db, []), ps);
      forall p | p in ps
        ensures DebitRejects(WithPostings(db, ps), p) <==>
                && p.side == Debit
                && exists a :: a in db.accounts && a.id == p.account && a.code == AvailablePayable && a.merchant.Some?
                               && Sum(db.postings + ps, SignedPostingOf(p.org, a.id))
                                  < Sum(db.reservations, ReservedOf(a.merchant.value))
      {
        DebitRejectsExactly(WithPostings(db, ps), p);
      }
    }
  }

  lemma {:induction false} SomeDebit(ps: seq<Posting>, p: Posting)
    requires p in ps && Offset(ps, p.journal) && forall q :: q in ps ==> q.amount > 0
    ensures Sum(ps, DebitOf(p.journal)) > 0
  {
    var i :| 0 <= i < |ps| && ps[i] == p;
    var f := if p.side.Debit? then DebitOf(p.journal) else CreditOf(p.journal);
    SumAt(ps, i, f);
    SumNonNegative(ps[..i], f);
    SumNonNegative(ps[i + 1..], f);
  }

  predicate BooksPayment(j: Journal) {
    j.kind.Capture? || j.kind.Refund?
  }

  lemma TouchedIsNotBooked(db: Tables, ps: seq<Posting>, j: Journal)
    requires CapturesValid(db) && RefundsValid(db) && Books(db, j) && BooksPayment(j)
    requires Sum(ps, DebitOf(j.id)) > 0
    ensures !Books(WithPostings(db, ps), j)
  {
    var after := WithPostings(db, ps);
    SumAppend(db.postings, ps, DebitOf(j.id));
    assert JournalTotal(after, j.id) > JournalTotal(db, j.id);
    if j.kind.Refund? {
      var r :| r in db.refunds && BooksRefund(db, j, r);
      forall q | q in after.refunds ensures !BooksRefund(after, j, q) {
        if q.id == r.id {
          SameRow(db.refunds, RefundKey, r, q);
        }
      }
    } else {
      var c :| c in db.captures && BooksCapture(db, j, c);
      forall d | d in after.captures ensures !BooksCapture(after, j, d) {
        if d.id == c.id {
          SameRow(db.captures, CaptureKey, c, d);
        }
      }
    }
  }

  lemma UntouchedStaysBooked(db: Tables, ps: seq<Posting>, j: Journal)
    requires Books(db, j) && forall p :: p in ps ==> p.journal != j.id
    ensures Books(WithPostings(db, ps), j)
  {
    var after := WithPostings(db, ps);
    SumAppend(db.postings, ps, DebitOf(j.id));
    SumZero(ps, DebitOf(j.id));
    if j.kind.Refund? {
      var r :| r in db.refunds && BooksRefund(db, j, r);
      assert BooksRefund(after, j, r);
    } else if j.kind.Capture? {
      var c :| c in db.captures && BooksCapture(db, j, c);
      assert BooksCapture(after, j, c);
    }
  }

  /** Postings that commit keep every journal booked exactly when none goes to a CAPTURE or REFUND journal. */
  lemma PostingsKeepBooksExactly(db: Tables, ps: seq<Posting>)
    requires Valid(db) && OperationKeysHold(db) && AllBalanced(db) && AllBooked(db)
    requires Commits(db, PostingInserts(ps))
    ensures AllBooked(Committed(db, PostingInserts(ps))) <==>
            forall p, j :: p in ps && j in db.journals && j.id == p.journal ==> !BooksPayment(j)
  {
    PostingsCommitWhen(db, ps);
    FittingPostings(db, ps);
    var after := WithPostings(db, ps);
    if p, j :| p in ps && j in db.journals && j.id == p.journal && BooksPayment(j) {
      SomeDebit(ps, p);
      assert Books(db, j);
      TouchedIsNotBooked(db, ps, j);
    } else {
      forall j | j in after.journals ensures Books(after, j) {
        assert Books(db, j);
        if BooksPayment(j) {
          UntouchedStaysBooked(db, ps, j);
        }
      }
    }
  }
}
