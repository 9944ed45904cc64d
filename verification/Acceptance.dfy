/**
 Exactly which rows the immediate constraints accept: each lemma turns validity of the tables after
 one statement into conditions on the row and the tables before it.
 */
module Acceptance {
  import opened Basics
  import opened Rows
  import opened Database

  lemma ExecSnoc(w: Work, ss: seq<Statement>, half: Work, s: Statement, v: Work)
    requires ExecAll(w, ss) == Some(half) && Apply(half, s) == Some(v) && Valid(v.db)
    ensures ExecAll(w, ss + [s]) == Some(v)
  {
    assert (ss + [s])[..|ss|] == ss;
  }

  lemma ExecOne(w: Work, s: Statement)
    ensures ExecAll(w, [s]) == Exec(w, s)
  {
    assert [s][..0] == [];
  }

  /** A transaction of one statement. */
  lemma CommitsOne(db: Tables, s: Statement)
    ensures var w := Exec(Work(db, []), s);
            && (Commits(db, [s]) <==>
                w.Some? && OperationKeysHold(w.value.db) && forall e :: e in w.value.events ==> !Rejects(w.value.db, e))
            && (Commits(db, [s]) ==> Committed(db, [s]) == w.value.db)
  {
    hide Exec, OperationKeysHold, Rejects;
    ExecOne(Work(db, []), s);
  }

  lemma ExecTwo(w: Work, s: Statement, t: Statement)
    ensures ExecAll(w, [s, t]) == if Exec(w, s).None? then None else Exec(Exec(w, s).value, t)
  {
    assert [s, t][..1] == [s];
    ExecOne(w, s);
  }

  lemma EmptyValid()
    ensures Valid(EMPTY)
  {
  }

  lemma RunSnoc(txs: seq<Transaction>, db: Tables, tx: Transaction)
    requires Run(EMPTY, txs) == db
    ensures Run(EMPTY, txs + [tx]) == Committed(db, tx)
  {
    assert (txs + [tx])[..|txs|] == txs;
  }

  // --- captures --------------------------------------------------------------------------------

  /** What the constraints ask of a capture row that takes the place of the one with its id. */
  predicate CaptureFits(db: Tables, c: CaptureRow) {
    && CaptureChecked(c)
    && CaptureLinked(db, c)
    && (forall d :: d in db.captures && d.id != c.id ==> !CapturesClash(c, d))
    && forall r :: r in db.refunds && r.capture == c.id ==> r.org == c.org && r.env == c.env
  }

  lemma CaptureUpdateValid(db: Tables, c: CaptureRow)
    requires Valid(db) && Position(db.captures, CaptureKey, c.id).Some?
    ensures Valid(db.(captures := Changed(db.captures, CaptureKey, Update(c)))) <==> CaptureFits(db, c)
  {
    var after := db.(captures := Changed(db.captures, CaptureKey, Update(c)));
    assert Unique(db.captures, CaptureKey);
    hide AccountsValid, OperationsValid, AuthorizationsValid, JournalsValid, PostingsValid, CapturesValid,
         RefundsValid, ReservationsValid, CaptureFits;
    UpdateMembers(db.captures, CaptureKey, c);
    if CaptureFits(db, c) {
      ReplacedCapturesValid(db, after, c);
      RefundsKeepTheirCapture(db, after, c);
      SameStand(db, after);
      UnderCapturesStand(db, after);
    }
    if Valid(after) {
      CaptureFitsWhenValid(db, after, c);
    }
  }

  lemma UnderCapturesStand(db: Tables, after: Tables)
    requires after == db.(captures := after.captures) && AuthorizationsValid(db) && PostingsValid(db)
    ensures AuthorizationsValid(after) && PostingsValid(after)
  {
  }

  lemma ReplacedCapturesValid(db: Tables, after: Tables, c: CaptureRow)
    requires CapturesValid(db) && CaptureFits(db, c) && after == db.(captures := after.captures)
    requires Unique(after.captures, CaptureKey)
    requires forall d :: d in after.captures <==> d == c || (d in db.captures && d.id != c.id)
    ensures CapturesValid(after)
  {
    forall d | d in after.captures ensures CaptureLinked(after, d) {
      assert CaptureLinked(db, d);
    }
    forall x, y | x in after.captures && y in after.captures && CapturesClash(x, y) ensures x == y {
      assert CapturesClash(y, x);
    }
  }

  lemma CaptureUpdateExec(w: Work, c: CaptureRow)
    requires Valid(w.db) && Position(w.db.captures, CaptureKey, c.id).Some?
    ensures Exec(w, OnCaptures(Update(c)))
         == if CaptureFits(w.db, c)
            then Some(Work(w.db.(captures := Changed(w.db.captures, CaptureKey, Update(c))),
                           w.events + [CaptureWritten(c, false)]))
            else None
  {
    hide Valid, CaptureFits;
    CaptureUpdateValid(w.db, c);
  }

  lemma RefundsKeepTheirCapture(db: Tables, after: Tables, c: CaptureRow)
    requires RefundsValid(db) && CaptureFits(db, c) && after == db.(captures := after.captures)
    requires forall d :: d in after.captures <==> d == c || (d in db.captures && d.id != c.id)
    ensures RefundsValid(after)
  {
    forall r | r in after.refunds ensures RefundLinked(after, r) {
      assert RefundLinked(db, r);
      if r.capture == c.id {
        assert c in after.captures;
      } else {
        var d :| d in db.captures && d.id == r.capture && d.org == r.org && d.env == r.env;
        assert d in after.captures;
      }
    }
  }

  lemma CaptureFitsWhenValid(db: Tables, after: Tables, c: CaptureRow)
    requires CapturesValid(after) && RefundsValid(after) && after == db.(captures := after.captures)
    requires forall d :: d in after.captures <==> d == c || (d in db.captures && d.id != c.id)
    ensures CaptureFits(db, c)
  {
    assert c in after.captures;
    forall r | r in db.refunds && r.capture == c.id ensures r.org == c.org && r.env == c.env {
      assert RefundLinked(after, r);
      var d :| d in after.captures && d.id == r.capture && d.org == r.org && d.env == r.env;
    }
  }

  // --- operations and refunds ------------------------------------------------------------------

  predicate OperationFits(db: Tables, o: Operation) {
    && (o.kind.Authorize? || o.kind.Capture? || o.kind.Refund?)
    && HasPayment(db.payments, o.payment, o.org, o.env)
    && forall p :: p in db.operations ==> p.id != o.id && !SameResourceSlot(o, p)
  }

  lemma OperationInsertValid(db: Tables, o: Operation)
    requires Valid(db)
    ensures Valid(db.(operations := db.operations + [o])) <==> OperationFits(db, o)
  {
    var after := db.(operations := db.operations + [o]);
    InsertUnique(db.operations, OperationKey, o);
    assert forall id, org, env :: HasOperation(db.operations, id, org, env) ==>
             HasOperation(after.operations, id, org, env);
    assert o in after.operations;
    if OperationFits(db, o) {
      assert OperationsValid(after);
      assert JournalsValid(after);
    }
    if Valid(after) {
      forall p | p in db.operations ensures p.id != o.id && !SameResourceSlot(o, p) {
        assert OperationKey(p) != OperationKey(o);
        assert p in after.operations;
      }
    }
  }

  lemma OperationInsertExec(w: Work, o: Operation)
    requires Valid(w.db)
    ensures Exec(w, OnOperations(Insert(o)))
         == if OperationFits(w.db, o)
            then Some(Work(w.db.(operations := w.db.operations + [o]), w.events + [OperationWritten(o)]))
            else None
    ensures OperationFits(w.db, o) ==> Valid(w.db.(operations := w.db.operations + [o]))
  {
    hide Valid, OperationFits;
    OperationInsertValid(w.db, o);
  }

  predicate RefundFits(db: Tables, r: RefundRow) {
    && RefundChecked(r)
    && RefundLinked(db, r)
    && forall q :: q in db.refunds ==> q.id != r.id && !RefundsClash(r, q)
  }

  lemma RefundInsertValid(db: Tables, r: RefundRow)
    requires Valid(db)
    ensures Valid(db.(refunds := db.refunds + [r])) <==> RefundFits(db, r)
  {
    var after := db.(refunds := db.refunds + [r]);
    hide AccountsValid, OperationsValid, AuthorizationsValid, JournalsValid, PostingsValid, CapturesValid,
         RefundsValid, ReservationsValid, RefundFits;
    OnlyRefunds(db, after);
    RefundsGain(db, r);
  }

  lemma OnlyRefunds(db: Tables, after: Tables)
    requires after == db.(refunds := after.refunds)
    ensures AccountsValid(after) == AccountsValid(db) && OperationsValid(after) == OperationsValid(db)
    ensures AuthorizationsValid(after) == AuthorizationsValid(db) && JournalsValid(after) == JournalsValid(db)
    ensures PostingsValid(after) == PostingsValid(db) && ReservationsValid(after) == ReservationsValid(db)
    ensures CapturesValid(after) == CapturesValid(db)
  {
    forall c ensures CaptureLinked(after, c) == CaptureLinked(db, c) {}
  }

  lemma RefundsGain(db: Tables, r: RefundRow)
    requires RefundsValid(db)
    ensures RefundsValid(db.(refunds := db.refunds + [r])) <==> RefundFits(db, r)
  {
    var after := db.(refunds := db.refunds + [r]);
    InsertUnique(db.refunds, RefundKey, r);
    assert r in after.refunds;
    forall q ensures RefundLinked(after, q) == RefundLinked(db, q) {}
    hide RefundLinked, RefundChecked;
    if RefundFits(db, r) {
      forall x, y | x in after.refunds && y in after.refunds && RefundsClash(x, y) ensures x == y {
        assert RefundsClash(y, x);
      }
    }
    if RefundsValid(after) {
      forall q | q in db.refunds ensures q.id != r.id && !RefundsClash(r, q) {
        assert RefundKey(q) != RefundKey(r);
        assert q in after.refunds;
      }
    }
  }

  lemma RefundInsertExec(w: Work, r: RefundRow)
    requires Valid(w.db)
    ensures Exec(w, OnRefunds(Insert(r)))
         == if RefundFits(w.db, r)
            then Some(Work(w.db.(refunds := w.db.refunds + [r]), w.events + [RefundWritten(r)]))
            else None
    ensures RefundFits(w.db, r) ==> Valid(w.db.(refunds := w.db.refunds + [r]))
  {
    hide Valid, RefundFits;
    RefundInsertValid(w.db, r);
  }

  // --- postings --------------------------------------------------------------------------------

  predicate PostingFits(db: Tables, p: Posting) {
    && p.amount > 0 && p.currency.Inr?
    && HasJournal(db.journals, p.journal, p.org, p.env)
    && HasAccount(db.accounts, p.account, p.org, p.env)
    && forall q :: q in db.postings ==> q.id != p.id
  }

  lemma PostingInsertValid(db: Tables, p: Posting)
    requires Valid(db)
    ensures Valid(db.(postings := db.postings + [p])) <==> PostingFits(db, p)
  {
    var after := db.(postings := db.postings + [p]);
    InsertUnique(db.postings, PostingKey, p);
    assert p in after.postings;
    if Valid(after) {
      forall q | q in db.postings ensures q.id != p.id {
        assert PostingKey(q) != PostingKey(p);
      }
    }
  }

  lemma PostingInsertExec(w: Work, p: Posting)
    requires Valid(w.db)
    ensures Exec(w, OnPostings(Insert(p)))
         == if PostingFits(w.db, p)
            then Some(Work(w.db.(postings := w.db.postings + [p]), w.events + [PostingInserted(p)]))
            else None
    ensures PostingFits(w.db, p) ==> Valid(w.db.(postings := w.db.postings + [p]))
  {
    hide Valid, PostingFits;
    PostingInsertValid(w.db, p);
  }

  // --- reservations ----------------------------------------------------------------------------

  predicate ReservationFits(db: Tables, v: Reservation) {
    && ReservationChecked(v)
    && ReservationLinked(db, v)
    && forall u :: u in db.reservations ==> u.id != v.id && !SameSequence(v, u)
  }

  lemma ReservationInsertValid(db: Tables, v: Reservation)
    requires Valid(db)
    ensures Valid(db.(reservations := db.reservations + [v])) <==> ReservationFits(db, v)
  {
    var after := db.(reservations := db.reservations + [v]);
    InsertUnique(db.reservations, ReservationKey, v);
    assert v in after.reservations;
    if Valid(after) {
      forall u | u in db.reservations ensures u.id != v.id && !SameSequence(v, u) {
        assert ReservationKey(u) != ReservationKey(v);
        assert u in after.reservations;
      }
    }
  }

  lemma ReservationInsertExec(w: Work, v: Reservation)
    requires Valid(w.db)
    ensures Exec(w, OnReservations(Insert(v)))
         == if ReservationFits(w.db, v)
            then Some(Work(w.db.(reservations := w.db.reservations + [v]), w.events + [ReservationInserted(v)]))
            else None
  {
    hide Valid, ReservationFits;
    ReservationInsertValid(w.db, v);
  }

  // --- what grows under a table leaves it valid ------------------------------------------------

  ghost predicate OnlyGrows(db: Tables, after: Tables) {
    && db.merchants <= after.merchants && db.accounts <= after.accounts && db.payments <= after.payments
    && db.operations <= after.operations && db.authorizations <= after.authorizations
    && db.journals <= after.journals && db.captures <= after.captures && db.payouts <= after.payouts
  }

  lemma OperationsStand(db: Tables, after: Tables)
    requires OperationsValid(db) && db.payments <= after.payments && Unique(after.payments, PaymentKey)
    requires after.operations == db.operations
    ensures OperationsValid(after)
  {
    forall o | o in after.operations ensures HasPayment(after.payments, o.payment, o.org, o.env) {
      var p :| p in db.payments && p.id == o.payment && p.org == o.org && p.env == o.env;
      assert p in after.payments;
    }
  }

  lemma AuthorizationsStand(db: Tables, after: Tables)
    requires AuthorizationsValid(db) && OnlyGrows(db, after) && after.authorizations == db.authorizations
    ensures AuthorizationsValid(after)
  {
    forall a | a in after.authorizations ensures HasPayment(after.payments, a.payment, a.org, a.env) {
      var p :| p in db.payments && p.id == a.payment && p.org == a.org && p.env == a.env;
      assert p in after.payments;
    }
  }

  lemma PostingsStand(db: Tables, after: Tables)
    requires PostingsValid(db) && OnlyGrows(db, after) && after.postings == db.postings
    ensures PostingsValid(after)
  {
    forall p | p in after.postings
      ensures HasJournal(after.journals, p.journal, p.org, p.env) && HasAccount(after.accounts, p.account, p.org, p.env)
    {
      var j :| j in db.journals && j.id == p.journal && j.org == p.org && j.env == p.env;
      var a :| a in db.accounts && a.id == p.account && a.org == p.org && a.env == p.env;
      assert j in after.journals && a in after.accounts;
    }
  }

  lemma StillLinked(db: Tables, after: Tables, c: CaptureRow)
    requires OnlyGrows(db, after) && CaptureLinked(db, c)
    ensures CaptureLinked(after, c)
  {
    var p :| p in db.payments && p.id == c.payment && p.org == c.org && p.env == c.env;
    var a :| a in db.authorizations && a.id == c.authorization && a.org == c.org && a.env == c.env;
    assert p in after.payments && a in after.authorizations;
    if c.journal.Some? {
      var j :| j in db.journals && j.id == c.journal.value && j.org == c.org && j.env == c.env;
      assert j in after.journals;
    }
  }

  lemma CapturesStand(db: Tables, after: Tables)
    requires CapturesValid(db) && OnlyGrows(db, after) && after.captures == db.captures
    ensures CapturesValid(after)
  {
    hide CaptureLinked, OnlyGrows;
    forall c | c in after.captures ensures CaptureLinked(after, c) {
      StillLinked(db, after, c);
    }
  }

  lemma RefundsStand(db: Tables, after: Tables)
    requires RefundsValid(db) && OnlyGrows(db, after) && after.refunds == db.refunds
    ensures RefundsValid(after)
  {
    forall r | r in after.refunds ensures RefundLinked(after, r) {
      assert RefundLinked(db, r);
      var p :| p in db.payments && p.id == r.payment && p.org == r.org && p.env == r.env;
      var c :| c in db.captures && c.id == r.capture && c.org == r.org && c.env == r.env;
      assert p in after.payments && c in after.captures;
      if r.journal.Some? {
        var j :| j in db.journals && j.id == r.journal.value && j.org == r.org && j.env == r.env;
        assert j in after.journals;
      }
    }
  }

  /** Tables that read nothing else that changed. */
  lemma SameStand(db: Tables, after: Tables)
    requires after.merchants == db.merchants && after.payouts == db.payouts && after.reservations == db.reservations
    ensures ReservationsValid(after) == ReservationsValid(db)
    ensures after.accounts == db.accounts ==> AccountsValid(after) == AccountsValid(db)
    ensures after.payments == db.payments && after.operations == db.operations ==>
            OperationsValid(after) == OperationsValid(db)
    ensures after.journals == db.journals && after.operations == db.operations ==>
            JournalsValid(after) == JournalsValid(db)
  {
  }

  // --- the other inserts -----------------------------------------------------------------------

  lemma MerchantAdded(db: Tables, m: Merchant)
    requires Valid(db) && forall x :: x in db.merchants ==> x.id != m.id
    ensures Valid(db.(merchants := db.merchants + [m]))
  {
    var after := db.(merchants := db.merchants + [m]);
    InsertUnique(db.merchants, MerchantKey, m);
    assert forall id, org, env :: HasMerchant(db.merchants, id, org, env) ==>
             HasMerchant(after.merchants, id, org, env);
  }

  lemma AccountAdded(db: Tables, a: Account)
    requires Valid(db) && forall x :: x in db.accounts ==> x.id != a.id && !SameCodeSlot(x, a)
    requires a.merchant.Some? ==> HasMerchant(db.merchants, a.merchant.value, a.org, a.env)
    ensures Valid(db.(accounts := db.accounts + [a]))
  {
    var after := db.(accounts := db.accounts + [a]);
    hide OperationsValid, AuthorizationsValid, JournalsValid, PostingsValid, CapturesValid, RefundsValid,
         ReservationsValid;
    InsertUnique(db.accounts, AccountKey, a);
    SameStand(db, after);
    AuthorizationsStand(db, after);
    PostingsStand(db, after);
    CapturesStand(db, after);
    RefundsStand(db, after);
  }

  lemma PaymentAdded(db: Tables, p: Payment)
    requires Valid(db) && forall x :: x in db.payments ==> x.id != p.id
    ensures Valid(db.(payments := db.payments + [p]))
  {
    var after := db.(payments := db.payments + [p]);
    assert Unique(db.payments, PaymentKey);
    hide AccountsValid, OperationsValid, AuthorizationsValid, JournalsValid, PostingsValid, CapturesValid,
         RefundsValid, ReservationsValid;
    InsertUnique(db.payments, PaymentKey, p);
    SameStand(db, after);
    OperationsStand(db, after);
    AuthorizationsStand(db, after);
    PostingsStand(db, after);
    CapturesStand(db, after);
    RefundsStand(db, after);
  }

  lemma AuthorizationAdded(db: Tables, a: Authorization)
    requires Valid(db) && a.amount > 0 && HasPayment(db.payments, a.payment, a.org, a.env)
    requires forall b :: b in db.authorizations ==> b.id != a.id && !AuthorizationsClash(a, b)
    ensures Valid(db.(authorizations := db.authorizations + [a]))
  {
    var after := db.(authorizations := db.authorizations + [a]);
    hide AccountsValid, OperationsValid, JournalsValid, PostingsValid, CapturesValid, RefundsValid, ReservationsValid;
    InsertUnique(db.authorizations, AuthorizationKey, a);
    SameStand(db, after);
    PostingsStand(db, after);
    CapturesStand(db, after);
    RefundsStand(db, after);
  }

  lemma JournalAdded(db: Tables, j: Journal)
    requires Valid(db) && j.currency.Inr? && !j.kind.Authorize?
    requires j.operation.Some? ==> HasOperation(db.operations, j.operation.value, j.org, j.env)
    requires j.merchant.Some? ==> HasMerchant(db.merchants, j.merchant.value, j.org, j.env)
    requires forall k :: k in db.journals ==> k.id != j.id && !SameReferenceSlot(j, k) && !SameOperation(j, k)
    ensures Valid(db.(journals := db.journals + [j]))
  {
    var after := db.(journals := db.journals + [j]);
    hide AccountsValid, OperationsValid, AuthorizationsValid, PostingsValid, CapturesValid, RefundsValid,
         ReservationsValid;
    InsertUnique(db.journals, JournalKey, j);
    SameStand(db, after);
    AuthorizationsStand(db, after);
    PostingsStand(db, after);
    CapturesStand(db, after);
    RefundsStand(db, after);
  }

  lemma CaptureAdded(db: Tables, c: CaptureRow)
    requires Valid(db) && CaptureChecked(c) && CaptureLinked(db, c)
    requires forall d :: d in db.captures ==> d.id != c.id && !CapturesClash(c, d)
    ensures Valid(db.(captures := db.captures + [c]))
  {
    var after := db.(captures := db.captures + [c]);
    hide AccountsValid, OperationsValid, AuthorizationsValid, JournalsValid, PostingsValid, RefundsValid,
         ReservationsValid, CaptureLinked, CaptureChecked;
    InsertUnique(db.captures, CaptureKey, c);
    SameStand(db, after);
    AuthorizationsStand(db, after);
    PostingsStand(db, after);
    RefundsStand(db, after);
    forall x, y | x in after.captures && y in after.captures && CapturesClash(x, y) ensures x == y {
      assert CapturesClash(y, x);
    }
    forall x | x in after.captures ensures CaptureLinked(after, x) {
      StillLinked(db, after, x);
    }
  }

  lemma PayoutAdded(db: Tables, p: PayoutRow)
    requires Valid(db) && HasMerchant(db.merchants, p.merchant, p.org, p.env)
    requires forall x :: x in db.payouts ==> x.id != p.id
    ensures Valid(db.(payouts := db.payouts + [p]))
  {
    var after := db.(payouts := db.payouts + [p]);
    InsertUnique(db.payouts, PayoutKey, p);
    forall v | v in after.reservations ensures ReservationLinked(after, v) {
      assert ReservationLinked(db, v);
      var x :| x in db.payouts && x.id == v.payout && x.org == v.org && x.env == v.env;
      assert x in after.payouts;
    }
  }

  // --- the insert of a journal -----------------------------------------------------------------

  function WithJournal(db: Tables, j: Journal): Tables {
    db.(journals := db.journals + [j])
  }

  predicate JournalFits(db: Tables, j: Journal) {
    && j.currency.Inr? && !j.kind.Authorize?
    && (j.operation.Some? ==> HasOperation(db.operations, j.operation.value, j.org, j.env))
    && (j.merchant.Some? ==> HasMerchant(db.merchants, j.merchant.value, j.org, j.env))
    && forall k :: k in db.journals ==> k.id != j.id && !SameReferenceSlot(j, k) && !SameOperation(j, k)
  }

  lemma JournalInsertValid(db: Tables, j: Journal)
    requires Valid(db)
    ensures Valid(WithJournal(db, j)) <==> JournalFits(db, j)
  {
    if JournalFits(db, j) {
      hide Valid;
      JournalAdded(db, j);
    }
    if Valid(WithJournal(db, j)) {
      JournalParts(db);
      JournalParts(WithJournal(db, j));
      hide Valid;
      FitsWhenValid(db, j);
    }
  }

  lemma JournalParts(db: Tables)
    requires Valid(db)
    ensures JournalsValid(db) && Unique(db.operations, OperationKey) && Unique(db.captures, CaptureKey)
    ensures Unique(db.refunds, RefundKey)
  {
  }

  lemma FitsWhenValid(db: Tables, j: Journal)
    requires JournalsValid(db) && JournalsValid(WithJournal(db, j))
    ensures JournalFits(db, j)
  {
    var after := WithJournal(db, j);
    assert j in after.journals;
    InsertUnique(db.journals, JournalKey, j);
    forall k | k in db.journals ensures k.id != j.id && !SameReferenceSlot(j, k) && !SameOperation(j, k) {
      assert JournalKey(k) != JournalKey(j) && k in after.journals;
    }
  }

  lemma JournalInsertExec(w: Work, j: Journal)
    requires Valid(w.db)
    ensures Exec(w, OnJournals(Insert(j)))
         == if JournalFits(w.db, j) then Some(Work(WithJournal(w.db, j), w.events + [JournalInserted(j)])) else None
  {
    hide Valid, JournalFits;
    JournalInsertValid(w.db, j);
  }
}
