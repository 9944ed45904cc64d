/**
 The writers of captures and refunds (`payments/service.py`, `provider_operations/finalizer.py`,
 `ledger/service.py`), each as the transaction it sends in a given database. A run of these commands,
 with any other writer that leaves captures, refunds and their journals alone, keeps the discipline of
 `RefundReservations`, so what is proved there holds of every such run without further assumptions.
 */
module PaymentServices {
  import opened Basics
  import opened Rows
  import opened Sums
  import opened Database
  import opened RefundReservations
  import opened RefundExactness
  import opened ResourceWrites

  // --- the commands ----------------------------------------------------------------------------

  /** One line of a journal entry. */
  datatype Entry = Entry(id: Id, account: Id, side: Side, amount: int)

  /** The ids and the provider's verdict are inputs; what a command reads, it reads from the tables. */
  datatype Command =
    | InitiateCapture(org: Id, env: Id, payment: Id, amount: int, capture: Id, operation: Id)
    | InitiateRefund(org: Id, env: Id, payment: Id, amount: int, refund: Id, operation: Id)
    | Finalize(operation: Id, success: bool, journal: Id, merchant: Id, entries: seq<Entry>)
    | Review(operation: Id)
    | Other(statements: Transaction)

  predicate Terminal(status: Status) {
    status.Succeeded? || status.Failed?
  }

  /** `initiate_capture`: one capture per payment, within a succeeded authorization, while the payment lives. */
  function PlanCapture(db: Tables, cmd: Command): Option<Transaction>
    requires cmd.InitiateCapture?
  {
    var payment := Find(db.payments, (p: Payment) => p.id == cmd.payment && p.org == cmd.org && p.env == cmd.env);
    var hold := Find(db.authorizations, (a: Authorization) =>
                       a.org == cmd.org && a.env == cmd.env && a.payment == cmd.payment);
    var existing := Find(db.captures, (c: CaptureRow) =>
                           c.org == cmd.org && c.env == cmd.env && c.payment == cmd.payment);
    if payment.None? || hold.None? || !hold.value.status.Succeeded? || !(0 < cmd.amount <= hold.value.amount)
       || existing.Some? || Dead(payment.value.status) then None
    else
      var c := CaptureRow(cmd.capture, cmd.org, cmd.env, cmd.payment, hold.value.id, cmd.operation, cmd.amount,
                          Processing, None);
      Some(CaptureTransaction(c))
  }

  /** `initiate_refund`: out of the payment's own succeeded capture, within what is not yet refunded. */
  function PlanRefund(db: Tables, cmd: Command): Option<Transaction>
    requires cmd.InitiateRefund?
  {
    var capture := Find(db.captures, (c: CaptureRow) =>
                          c.org == cmd.org && c.env == cmd.env && c.payment == cmd.payment && c.status.Succeeded?);
    if capture.None? || cmd.amount > capture.value.amount - LiveRefunds(db, cmd.org, cmd.payment) then None
    else
      Some(RefundTransaction(RefundRow(cmd.refund, cmd.org, cmd.env, cmd.payment, capture.value.id, cmd.operation,
                                       cmd.amount, Processing, None)))
  }

  /** `post_journal` for an operation's resource. */
  function JournalFor(o: Operation, cmd: Command): Journal
    requires cmd.Finalize?
  {
    Journal(cmd.journal, o.org, o.env, Some(cmd.merchant), Some(o.id), o.kind, o.resource, Inr)
  }

  function PostingsFor(o: Operation, journal: Id, entries: seq<Entry>): (ps: seq<Posting>)
    ensures forall p :: p in ps ==> p.journal == journal
  {
    if entries == [] then [] else
    var e := entries[|entries| - 1];
    PostingsFor(o, journal, entries[..|entries| - 1])
    + [Posting(e.id, o.org, o.env, journal, e.account, e.side, e.amount, Inr)]
  }

  /** The journal and its postings, if the provider succeeded. */
  function Booking(o: Operation, cmd: Command): Transaction
    requires cmd.Finalize?
  {
    if !cmd.success then [] else
    [OnJournals(Insert(JournalFor(o, cmd)))] + PostingInserts(PostingsFor(o, cmd.journal, cmd.entries))
  }

  function Verdict(cmd: Command): Status
    requires cmd.Finalize?
  {
    if cmd.success then Succeeded else Failed
  }

  function BookedAs(cmd: Command): Option<Id>
    requires cmd.Finalize?
  {
    if cmd.success then Some(cmd.journal) else None
  }

  /** `journal_id` is only assigned when a journal was posted. */
  function Posted(journal: Option<Id>, before: Option<Id>): Option<Id> {
    if journal.Some? then journal else before
  }

  /** The statement that gives an operation's resource this status, and this journal if one was posted. */
  function ResourceUpdate(db: Tables, o: Operation, status: Status, journal: Option<Id>): Option<Statement> {
    match o.kind
    case Authorize =>
      var a := Lookup(db.authorizations, AuthorizationKey, o.resource);
      if a.None? || a.value.org != o.org then None else Some(OnAuthorizations(Update(a.value.(status := status))))
    case Capture =>
      var c := Lookup(db.captures, CaptureKey, o.resource);
      if c.None? || c.value.org != o.org then None
      else Some(OnCaptures(Update(c.value.(status := status, journal := Posted(journal, c.value.journal)))))
    case Refund =>
      var r := Lookup(db.refunds, RefundKey, o.resource);
      if r.None? || r.value.org != o.org then None
      else Some(OnRefunds(Update(r.value.(status := status, journal := Posted(journal, r.value.journal)))))
    case _ => None
  }

  function SettledOf(payment: Id): RefundRow -> int {
    (r: RefundRow) => if r.payment == payment && r.status.Succeeded? then r.amount else 0
  }

  /** `_refund_target_status`, once the refund is SUCCEEDED: whether refunds now total the captured amount. */
  predicate RefundedInFull(db: Tables, o: Operation) {
    var captured := Find(db.captures, (c: CaptureRow) => c.payment == o.payment && c.status.Succeeded?);
    var refund := Lookup(db.refunds, RefundKey, o.resource);
    && captured.Some? && refund.Some?
    && Sum(Changed(db.refunds, RefundKey, Update(refund.value.(status := Succeeded))), SettledOf(o.payment))
       == captured.value.amount
  }

  /** Where a finalization takes the payment. */
  function MoveTo(db: Tables, o: Operation, success: bool): PaymentStatus {
    match o.kind
    case Authorize => if success then Authorised else PaymentFailed
    case Capture => if success then Captured else PaymentFailed
    case _ => if RefundedInFull(db, o) then Refunded else PartiallyRefunded
  }

  /** `transition` does not raise; a declined refund does not call it. */
  predicate MayMove(db: Tables, o: Operation, payment: Payment, success: bool) {
    (o.kind.Refund? && !success) || AllowedTransition(payment.status, MoveTo(db, o, success))
  }

  /** `transition`; a declined refund leaves the payment as it is. */
  function PaymentMove(db: Tables, o: Operation, payment: Payment, success: bool): Transaction {
    if o.kind.Refund? && !success then []
    else [OnPayments(Update(payment.(status := MoveTo(db, o, success))))]
  }

  /** `finalize_verified_attempt`: nothing for a finished operation, otherwise resource, payment and operation. */
  function PlanFinalize(db: Tables, cmd: Command): Option<Transaction>
    requires cmd.Finalize?
  {
    var o := Lookup(db.operations, OperationKey, cmd.operation);
    if o.None? || Terminal(o.value.status) then None else
    var resource := ResourceUpdate(db, o.value, Verdict(cmd), BookedAs(cmd));
    var payment := Lookup(db.payments, PaymentKey, o.value.payment);
    if resource.None? || payment.None? || !MayMove(db, o.value, payment.value, cmd.success) then None
    else
      Some((if o.value.kind.Authorize? then [] else Booking(o.value, cmd))
           + [resource.value] + PaymentMove(db, o.value, payment.value, cmd.success)
           + [OnOperations(Update(o.value.(status := Verdict(cmd))))])
  }

  /** `mark_operation_for_review` and `record_apply_failure`. */
  function PlanReview(db: Tables, cmd: Command): Option<Transaction>
    requires cmd.Review?
  {
    var o := Lookup(db.operations, OperationKey, cmd.operation);
    if o.None? || Terminal(o.value.status) then None else
    var resource := ResourceUpdate(db, o.value, RequiresReview, None);
    if resource.None? then None
    else Some([] + [resource.value] + [OnOperations(Update(o.value.(status := RequiresReview)))])
  }

  /** A statement of any other writer: captures, refunds, their operations and their journals stay alone. */
  predicate Elsewhere(db: Tables, s: Statement) {
    match s
    case OnCaptures(_) => false
    case OnRefunds(_) => false
    case OnOperations(change) =>
      change.row.kind.Authorize? && forall o :: o in db.operations && o.id == change.row.id ==> o.kind.Authorize?
    case OnJournals(change) => change.Insert? ==> !BooksPayment(change.row)
    case OnPostings(change) =>
      change.Insert? ==> forall j :: j in db.journals && j.id == change.row.journal ==> !BooksPayment(j)
    case _ => true
  }

  function Plan(db: Tables, cmd: Command): Option<Transaction> {
    match cmd
    case InitiateCapture(_, _, _, _, _, _) => PlanCapture(db, cmd)
    case InitiateRefund(_, _, _, _, _, _) => PlanRefund(db, cmd)
    case Finalize(_, _, _, _, _) => PlanFinalize(db, cmd)
    case Review(_) => PlanReview(db, cmd)
    case Other(statements) => if forall s :: s in statements ==> Elsewhere(db, s) then Some(statements) else None
  }

  /** The transactions a run of commands sends, each planned in the tables it finds. */
  function Sent(cmds: seq<Command>): seq<Transaction> {
    if cmds == [] then [] else
    var txs := Sent(cmds[..|cmds| - 1]);
    var tx := Plan(Run(EMPTY, txs), cmds[|cmds| - 1]);
    if tx.None? then txs else txs + [tx.value]
  }

  // --- what a transaction does to each table ---------------------------------------------------

  /** The five tables of the discipline. */
  datatype Effects = Effects(
    captures: seq<CaptureRow>, refunds: seq<RefundRow>, operations: seq<Operation>, journals: seq<Journal>,
    postings: seq<Posting>)

  function Seen(db: Tables): Effects {
    Effects(db.captures, db.refunds, db.operations, db.journals, db.postings)
  }

  /** What one statement that runs changes of them. */
  function Then(e: Effects, s: Statement): Effects {
    match s
    case OnCaptures(change) => e.(captures := Changed(e.captures, CaptureKey, change))
    case OnRefunds(change) => e.(refunds := Changed(e.refunds, RefundKey, change))
    case OnOperations(change) => e.(operations := Changed(e.operations, OperationKey, change))
    case OnJournals(change) => if change.Insert? then e.(journals := e.journals + [change.row]) else e
    case OnPostings(change) => if change.Insert? then e.(postings := e.postings + [change.row]) else e
    case _ => e
  }

  function After(db: Tables, ss: Transaction): Effects {
    if ss == [] then Seen(db) else Then(After(db, ss[..|ss| - 1]), ss[|ss| - 1])
  }

  lemma {:induction false} EffectsOf(w: Work, ss: Transaction)
    requires ExecAll(w, ss).Some?
    ensures Seen(ExecAll(w, ss).value.db) == After(w.db, ss)
  {
    hide Valid;
    if ss != [] {
      EffectsOf(w, ss[..|ss| - 1]);
    }
  }

  lemma AfterSnoc(db: Tables, ss: Transaction, s: Statement)
    ensures After(db, ss + [s]) == Then(After(db, ss), s)
  {
    assert (ss + [s])[..|ss|] == ss;
  }

  lemma {:induction false} AfterPostings(db: Tables, ss: Transaction, ps: seq<Posting>)
    ensures After(db, ss + PostingInserts(ps)) == After(db, ss).(postings := After(db, ss).postings + ps)
  {
    if ps == [] {
      assert ss + PostingInserts(ps) == ss;
    } else {
      hide After;
      var front, s := ps[..|ps| - 1], OnPostings(Insert(ps[|ps| - 1]));
      var pre := ss + PostingInserts(front);
      AfterPostings(db, ss, front);
      AfterSnoc(db, pre, s);
      assert ss + PostingInserts(ps) == pre + [s];
      assert After(db, ss).postings + front + [ps[|ps| - 1]] == After(db, ss).postings + ps;
    }
  }

  // --- each resource goes with its operation ---------------------------------------------------

  predicate OfCapture(o: Operation, c: CaptureRow) {
    && c.id == o.resource && c.org == o.org && c.env == o.env && c.payment == o.payment && c.operation == o.id
    && c.status == o.status
  }

  predicate OfRefund(o: Operation, r: RefundRow) {
    && r.id == o.resource && r.org == o.org && r.env == o.env && r.payment == o.payment && r.operation == o.id
    && r.status == o.status
  }

  /** Every operation has its resource, in its own state. */
  ghost predicate Bound(e: Effects) {
    && (forall o :: o in e.operations && o.kind.Capture? ==> exists c :: c in e.captures && OfCapture(o, c))
    && (forall o :: o in e.operations && o.kind.Refund? ==> exists r :: r in e.refunds && OfRefund(o, r))
  }

  ghost predicate Inv(db: Tables) {
    Bound(Seen(db)) && RefundsOwnTheirCapture(db)
  }

  // --- settling a capture ----------------------------------------------------------------------

  /** The postings added are those of the journal added. */
  predicate OwnPostings(db: Tables, after: Tables, booked: seq<Journal>) {
    forall i :: |db.postings| <= i < |after.postings| ==> booked != [] && after.postings[i].journal == booked[0].id
  }

  /** A capture that is not terminal and its operation move on together, with a journal if it succeeded. */
  ghost predicate CaptureMoves(db: Tables, after: Tables, o: Operation, c: CaptureRow, d: CaptureRow,
                               booked: seq<Journal>) {
    && o in db.operations && o.kind.Capture? && !Terminal(o.status) && c in db.captures && OfCapture(o, c)
    && d == c.(status := d.status, journal := d.journal)
    && after.captures == Changed(db.captures, CaptureKey, Update(d))
    && after.refunds == db.refunds
    && after.operations == Changed(db.operations, OperationKey, Update(o.(status := d.status)))
    && after.journals == db.journals + booked
    && db.postings <= after.postings && OwnPostings(db, after, booked)
    && (booked != [] ==> |booked| == 1 && booked[0].kind.Capture? && SettledCapture(booked[0], d))
  }

  lemma NewPostingsAreItsOwn(db: Tables, after: Tables, booked: seq<Journal>)
    requires Unique(after.journals, JournalKey) && after.journals == db.journals + booked
    requires OwnPostings(db, after, booked)
    ensures PostingsComeWithTheirJournal(db, after)
  {
    forall i, j | |db.postings| <= i < |after.postings| && j in db.journals ensures after.postings[i].journal != j.id {
      assert after.postings[i].journal == booked[0].id;
      var k :| 0 <= k < |db.journals| && db.journals[k] == j;
      assert JournalKey(after.journals[k]) != JournalKey(after.journals[|db.journals|]);
    }
  }

  lemma CaptureMoveIsDisciplined(db: Tables, after: Tables, o: Operation, c: CaptureRow, d: CaptureRow,
                                 booked: seq<Journal>)
    requires Unique(db.captures, CaptureKey) && Unique(after.journals, JournalKey) && RefundsOwnTheirCapture(db)
    requires CaptureMoves(db, after, o, c, d, booked)
    ensures FinalizerStep(db, after)
  {
    UpdateMembers(db.captures, CaptureKey, d);
    NewPostingsAreItsOwn(db, after, booked);
    forall x | x in db.captures && x.status.Succeeded? ensures exists y :: y in after.captures && SameCapture(x, y) {
      if x.id == c.id {
        SameRow(db.captures, CaptureKey, x, c);
      }
      assert x in after.captures && SameCapture(x, x);
    }
    forall x | x in db.refunds && x.status.Succeeded? ensures exists y :: y in after.refunds && SameRefund(x, y) {
      assert SameRefund(x, x);
    }
    assert d in after.captures;
    assert RefundsOwnTheirCapture(after);
  }

  lemma CaptureMoveKeepsBound(db: Tables, after: Tables, o: Operation, c: CaptureRow, d: CaptureRow,
                              booked: seq<Journal>)
    requires Unique(db.captures, CaptureKey) && Unique(db.operations, OperationKey) && Bound(Seen(db))
    requires CaptureMoves(db, after, o, c, d, booked)
    ensures Bound(Seen(after))
  {
    var next := o.(status := d.status);
    UpdateMembers(db.captures, CaptureKey, d);
    UpdateMembers(db.operations, OperationKey, next);
    forall x | x in after.operations && x.kind.Capture? ensures exists y :: y in after.captures && OfCapture(x, y) {
      if x == next {
        assert d in after.captures && OfCapture(next, d);
      } else {
        var y :| y in db.captures && OfCapture(x, y);
        if y.id == c.id {
          SameRow(db.captures, CaptureKey, y, c);
        }
        assert y in after.captures;
      }
    }
  }

  // --- settling a refund -----------------------------------------------------------------------

  ghost predicate RefundMoves(db: Tables, after: Tables, o: Operation, r: RefundRow, q: RefundRow,
                              booked: seq<Journal>) {
    && o in db.operations && o.kind.Refund? && !Terminal(o.status) && r in db.refunds && OfRefund(o, r)
    && q == r.(status := q.status, journal := q.journal)
    && after.refunds == Changed(db.refunds, RefundKey, Update(q))
    && after.captures == db.captures
    && after.operations == Changed(db.operations, OperationKey, Update(o.(status := q.status)))
    && after.journals == db.journals + booked
    && db.postings <= after.postings && OwnPostings(db, after, booked)
    && (booked != [] ==> |booked| == 1 && booked[0].kind.Refund? && SettledRefund(booked[0], q))
  }

  lemma RefundMoveIsDisciplined(db: Tables, after: Tables, o: Operation, r: RefundRow, q: RefundRow,
                                booked: seq<Journal>)
    requires Unique(db.refunds, RefundKey) && Unique(after.journals, JournalKey) && RefundsOwnTheirCapture(db)
    requires RefundMoves(db, after, o, r, q, booked)
    ensures FinalizerStep(db, after)
  {
    UpdateMembers(db.refunds, RefundKey, q);
    NewPostingsAreItsOwn(db, after, booked);
    forall x | x in db.refunds && x.status.Succeeded? ensures exists y :: y in after.refunds && SameRefund(x, y) {
      if x.id == r.id {
        SameRow(db.refunds, RefundKey, x, r);
      }
      assert x in after.refunds && SameRefund(x, x);
    }
    forall x | x in db.captures && x.status.Succeeded? ensures exists y :: y in after.captures && SameCapture(x, y) {
      assert SameCapture(x, x);
    }
    assert q in after.refunds;
    assert RefundsOwnTheirCapture(after);
  }

  lemma RefundMoveKeepsBound(db: Tables, after: Tables, o: Operation, r: RefundRow, q: RefundRow, booked: seq<Journal>)
    requires Unique(db.refunds, RefundKey) && Unique(db.operations, OperationKey) && Bound(Seen(db))
    requires RefundMoves(db, after, o, r, q, booked)
    ensures Bound(Seen(after))
  {
    var next := o.(status := q.status);
    UpdateMembers(db.refunds, RefundKey, q);
    UpdateMembers(db.operations, OperationKey, next);
    forall x | x in after.operations && x.kind.Refund? ensures exists y :: y in after.refunds && OfRefund(x, y) {
      if x == next {
        assert q in after.refunds && OfRefund(next, q);
      } else {
        var y :| y in db.refunds && OfRefund(x, y);
        if y.id == r.id {
          SameRow(db.refunds, RefundKey, y, r);
        }
        assert y in after.refunds;
      }
    }
  }

  // --- new captures and refunds ----------------------------------------------------------------

  /** Nothing that the discipline protects changes when rows are only added. */
  lemma GrowingIsDisciplined(db: Tables, after: Tables)
    requires db.captures <= after.captures && db.refunds <= after.refunds
    requires after.journals == db.journals && after.postings == db.postings
    requires RefundsOwnTheirCapture(after)
    ensures FinalizerStep(db, after)
  {
    forall x | x in db.captures && x.status.Succeeded? ensures exists y :: y in after.captures && SameCapture(x, y) {
      assert x in after.captures && SameCapture(x, x);
    }
    forall x | x in db.refunds && x.status.Succeeded? ensures exists y :: y in after.refunds && SameRefund(x, y) {
      assert x in after.refunds && SameRefund(x, x);
    }
  }

  lemma GrowingKeepsBound(db: Tables, after: Tables, o: Operation)
    requires Bound(Seen(db)) && db.captures <= after.captures && db.refunds <= after.refunds
    requires after.operations == db.operations + [o]
    requires o.kind.Capture? ==> exists c :: c in after.captures && OfCapture(o, c)
    requires o.kind.Refund? ==> exists r :: r in after.refunds && OfRefund(o, r)
    ensures Bound(Seen(after))
  {
    forall x | x in db.operations && x.kind.Capture? ensures exists c :: c in after.captures && OfCapture(x, c) {
      var c :| c in db.captures && OfCapture(x, c);
      assert c in after.captures;
    }
    forall x | x in db.operations && x.kind.Refund? ensures exists r :: r in after.refunds && OfRefund(x, r) {
      var r :| r in db.refunds && OfRefund(x, r);
      assert r in after.refunds;
    }
  }

  lemma NewCaptureStep(db: Tables, after: Tables, c: CaptureRow)
    requires Inv(db) && RefundsValid(db) && Unique(after.captures, CaptureKey)
    requires Seen(after)
             == Seen(db).(captures := db.captures + [c], operations := db.operations + [CaptureOperation(c)])
    ensures FinalizerStep(db, after) && Inv(after)
  {
    assert c in after.captures && OfCapture(CaptureOperation(c), c);
    forall r, d | r in after.refunds && d in after.captures && d.id == r.capture ensures d.payment == r.payment {
      assert RefundLinked(db, r);
      var e :| e in db.captures && e.id == r.capture;
      assert e in after.captures;
      SameRow(after.captures, CaptureKey, d, e);
    }
    GrowingIsDisciplined(db, after);
    GrowingKeepsBound(db, after, CaptureOperation(c));
  }

  lemma NewRefundStep(db: Tables, after: Tables, r: RefundRow)
    requires Inv(db) && (forall c :: c in db.captures && c.id == r.capture ==> c.payment == r.payment)
    requires Seen(after) == Seen(db).(refunds := db.refunds + [r], operations := db.operations + [OperationOf(r)])
    ensures FinalizerStep(db, after) && Inv(after)
  {
    assert r in after.refunds && OfRefund(OperationOf(r), r);
    GrowingIsDisciplined(db, after);
    GrowingKeepsBound(db, after, OperationOf(r));
  }

  // --- the other writers -----------------------------------------------------------------------

  /** Captures and refunds untouched, no operation or journal of theirs added or changed, no posting to one. */
  ghost predicate Apart(db: Tables, e: Effects) {
    && e.captures == db.captures && e.refunds == db.refunds
    && (forall o :: o in e.operations && !o.kind.Authorize? ==> o in db.operations)
    && db.journals <= e.journals && db.postings <= e.postings
    && (forall j :: j in e.journals && BooksPayment(j) ==> j in db.journals)
    && forall i, j :: |db.postings| <= i < |e.postings| && j in db.journals && j.id == e.postings[i].journal
                      ==> !BooksPayment(j)
  }

  lemma ChangedMembers<T>(rows: seq<T>, key: T -> Id, change: Change<T>)
    ensures forall r :: r in Changed(rows, key, change) ==> r in rows || r == change.row
  {
  }

  lemma ElsewhereStaysApart(db: Tables, e: Effects, s: Statement)
    requires Apart(db, e) && Elsewhere(db, s)
    ensures Apart(db, Then(e, s))
  {
    if s.OnOperations? {
      ChangedMembers(e.operations, OperationKey, s.operation);
    }
  }

  lemma {:induction false} OthersStayApart(db: Tables, ss: Transaction)
    requires forall s :: s in ss ==> Elsewhere(db, s)
    ensures Apart(db, After(db, ss))
  {
    if ss != [] {
      OthersStayApart(db, ss[..|ss| - 1]);
      ElsewhereStaysApart(db, After(db, ss[..|ss| - 1]), ss[|ss| - 1]);
    }
  }

  lemma ApartStep(db: Tables, after: Tables)
    requires Inv(db) && Apart(db, Seen(after))
    ensures FinalizerStep(db, after) && Inv(after)
  {
    forall x | x in db.captures && x.status.Succeeded? ensures exists y :: y in after.captures && SameCapture(x, y) {
      assert SameCapture(x, x);
    }
    forall x | x in db.refunds && x.status.Succeeded? ensures exists y :: y in after.refunds && SameRefund(x, y) {
      assert SameRefund(x, x);
    }
  }

  // --- every command ---------------------------------------------------------------------------

  /** The tables the discipline looks at after a committed transaction are those its statements say. */
  lemma CommittedEffects(db: Tables, tx: Transaction)
    requires Commits(db, tx)
    ensures Seen(Committed(db, tx)) == After(db, tx)
  {
    EffectsOf(Work(db, []), tx);
  }

  lemma AfterTwo(db: Tables, s: Statement, t: Statement)
    ensures After(db, [s, t]) == Then(Then(Seen(db), s), t)
  {
    assert [s, t] == [] + [s] + [t];
    AfterSnoc(db, [], s);
    AfterSnoc(db, [] + [s], t);
  }

  lemma CaptureCommandStep(db: Tables, cmd: Command, after: Tables)
    requires cmd.InitiateCapture? && PlanCapture(db, cmd).Some? && Seen(after) == After(db, PlanCapture(db, cmd).value)
    requires Inv(db) && RefundsValid(db) && Unique(after.captures, CaptureKey)
    ensures FinalizerStep(db, after) && Inv(after)
  {
    var tx := PlanCapture(db, cmd).value;
    AfterTwo(db, tx[0], tx[1]);
    NewCaptureStep(db, after, tx[1].capture.row);
  }

  lemma RefundCommandStep(db: Tables, cmd: Command, after: Tables)
    requires cmd.InitiateRefund? && PlanRefund(db, cmd).Some? && Seen(after) == After(db, PlanRefund(db, cmd).value)
    requires Inv(db) && Unique(db.captures, CaptureKey)
    ensures FinalizerStep(db, after) && Inv(after)
  {
    var tx := PlanRefund(db, cmd).value;
    var r := tx[1].refund.row;
    AfterTwo(db, tx[0], tx[1]);
    forall c | c in db.captures && c.id == r.capture ensures c.payment == r.payment {
      SameRow(db.captures, CaptureKey, c, Find(db.captures, (c: CaptureRow) =>
        c.org == cmd.org && c.env == cmd.env && c.payment == cmd.payment && c.status.Succeeded?).value);
    }
    NewRefundStep(db, after, r);
  }

  /** The journal a finalization adds. */
  function Booked(o: Operation, cmd: Command): seq<Journal>
    requires cmd.Finalize?
  {
    if cmd.success && !o.kind.Authorize? then [JournalFor(o, cmd)] else []
  }

  function BookedPostings(o: Operation, cmd: Command): seq<Posting>
    requires cmd.Finalize?
  {
    if cmd.success && !o.kind.Authorize? then PostingsFor(o, cmd.journal, cmd.entries) else []
  }

  lemma BookingEffects(db: Tables, o: Operation, cmd: Command)
    requires cmd.Finalize?
    ensures After(db, if o.kind.Authorize? then [] else Booking(o, cmd))
         == Seen(db).(journals := db.journals + Booked(o, cmd), postings := db.postings + BookedPostings(o, cmd))
  {
    if cmd.success && !o.kind.Authorize? {
      var s := OnJournals(Insert(JournalFor(o, cmd)));
      AfterSnoc(db, [], s);
      assert [] + [s] == [s];
      AfterPostings(db, [s], PostingsFor(o, cmd.journal, cmd.entries));
    } else {
      assert db.journals + [] == db.journals && db.postings + [] == db.postings;
    }
  }

  lemma FinalizeEffects(db: Tables, cmd: Command)
    requires cmd.Finalize? && PlanFinalize(db, cmd).Some?
    ensures var o := Lookup(db.operations, OperationKey, cmd.operation).value;
            var booked := Seen(db).(journals := db.journals + Booked(o, cmd),
                                    postings := db.postings + BookedPostings(o, cmd));
            After(db, PlanFinalize(db, cmd).value)
            == Then(Then(booked, ResourceUpdate(db, o, Verdict(cmd), BookedAs(cmd)).value),
                    OnOperations(Update(o.(status := Verdict(cmd)))))
  {
    var o := Lookup(db.operations, OperationKey, cmd.operation).value;
    var pre := if o.kind.Authorize? then [] else Booking(o, cmd);
    var s := ResourceUpdate(db, o, Verdict(cmd), BookedAs(cmd)).value;
    var move := PaymentMove(db, o, Lookup(db.payments, PaymentKey, o.payment).value, cmd.success);
    BookingEffects(db, o, cmd);
    AfterSnoc(db, pre, s);
    if move == [] {
      assert pre + [s] + move == pre + [s];
    } else {
      AfterSnoc(db, pre + [s], move[0]);
      assert move == [move[0]];
    }
    AfterSnoc(db, pre + [s] + move, OnOperations(Update(o.(status := Verdict(cmd)))));
  }

  lemma ReviewEffects(db: Tables, cmd: Command)
    requires cmd.Review? && PlanReview(db, cmd).Some?
    ensures var o := Lookup(db.operations, OperationKey, cmd.operation).value;
            After(db, PlanReview(db, cmd).value)
            == Then(Then(Seen(db), ResourceUpdate(db, o, RequiresReview, None).value),
                    OnOperations(Update(o.(status := RequiresReview))))
  {
    var o := Lookup(db.operations, OperationKey, cmd.operation).value;
    var s := ResourceUpdate(db, o, RequiresReview, None).value;
    AfterSnoc(db, [], s);
    AfterSnoc(db, [] + [s], OnOperations(Update(o.(status := RequiresReview))));
  }

  lemma ResourceKeys(db: Tables)
    requires Valid(db)
    ensures Unique(db.captures, CaptureKey) && Unique(db.refunds, RefundKey) && Unique(db.operations, OperationKey)
  {
  }

  /** An operation that is not terminal moves on with its resource, whichever kind it is. */
  lemma MoveStep(db: Tables, after: Tables, o: Operation, status: Status, journal: Option<Id>, booked: seq<Journal>,
                 added: seq<Posting>)
    requires Inv(db) && Unique(db.captures, CaptureKey) && Unique(db.refunds, RefundKey)
    requires Unique(db.operations, OperationKey) && Unique(after.journals, JournalKey)
    requires o in db.operations && !Terminal(o.status) && ResourceUpdate(db, o, status, journal).Some?
    requires var e := Seen(db).(journals := db.journals + booked, postings := db.postings + added);
             Seen(after) == Then(Then(e, ResourceUpdate(db, o, status, journal).value),
                                 OnOperations(Update(o.(status := status))))
    requires booked == [] ==> added == []
    requires booked != [] ==>
               && |booked| == 1 && status.Succeeded? && !o.kind.Authorize?
               && booked[0].kind == o.kind && booked[0].reference == o.resource
               && booked[0].org == o.org && booked[0].env == o.env
               && forall p :: p in added ==> p.journal == booked[0].id
    ensures FinalizerStep(db, after) && Inv(after)
  {
    assert forall i :: |db.postings| <= i < |after.postings| ==> after.postings[i] in added;
    if o.kind.Capture? {
      var c :| c in db.captures && OfCapture(o, c);
      var d := c.(status := status, journal := Posted(journal, c.journal));
      FindsRow(db.captures, CaptureKey, c);
      assert CaptureMoves(db, after, o, c, d, booked);
      CaptureMoveIsDisciplined(db, after, o, c, d, booked);
      CaptureMoveKeepsBound(db, after, o, c, d, booked);
    } else if o.kind.Refund? {
      var r :| r in db.refunds && OfRefund(o, r);
      var q := r.(status := status, journal := Posted(journal, r.journal));
      FindsRow(db.refunds, RefundKey, r);
      assert RefundMoves(db, after, o, r, q, booked);
      RefundMoveIsDisciplined(db, after, o, r, q, booked);
      RefundMoveKeepsBound(db, after, o, r, q, booked);
    } else {
      ChangedMembers(db.operations, OperationKey, Update(o.(status := status)));
      assert db.journals + [] == db.journals && db.postings + [] == db.postings;
      ApartStep(db, after);
    }
  }

  lemma FinalizeStep(db: Tables, cmd: Command, after: Tables)
    requires cmd.Finalize? && PlanFinalize(db, cmd).Some? && Seen(after) == After(db, PlanFinalize(db, cmd).value)
    requires Inv(db) && Valid(db) && Unique(after.journals, JournalKey)
    ensures FinalizerStep(db, after) && Inv(after)
  {
    hide Valid, Inv, FinalizerStep;
    var o := Lookup(db.operations, OperationKey, cmd.operation).value;
    FinalizeEffects(db, cmd);
    ResourceKeys(db);
    MoveStep(db, after, o, Verdict(cmd), BookedAs(cmd), Booked(o, cmd), BookedPostings(o, cmd));
  }

  lemma ReviewStep(db: Tables, cmd: Command, after: Tables)
    requires cmd.Review? && PlanReview(db, cmd).Some? && Seen(after) == After(db, PlanReview(db, cmd).value)
    requires Inv(db) && Valid(db) && Unique(after.journals, JournalKey)
    ensures FinalizerStep(db, after) && Inv(after)
  {
    hide Valid, Inv, FinalizerStep;
    var o := Lookup(db.operations, OperationKey, cmd.operation).value;
    ReviewEffects(db, cmd);
    assert db.journals + [] == db.journals && db.postings + [] == db.postings;
    ResourceKeys(db);
    MoveStep(db, after, o, RequiresReview, None, [], []);
  }

  /** Whatever a command does in a database that the guards let commit, it keeps the discipline. */
  lemma CommandIsDisciplined(db: Tables, cmd: Command)
    requires Valid(db) && Inv(db) && Plan(db, cmd).Some? && Commits(db, Plan(db, cmd).value)
    ensures var after := Committed(db, Plan(db, cmd).value); FinalizerStep(db, after) && Inv(after)
  {
    hide Inv, FinalizerStep, Commits, After;
    var tx := Plan(db, cmd).value;
    var after := Committed(db, tx);
    CommittedEffects(db, tx);
    CommittedValid(db, tx);
    match cmd {
      case InitiateCapture(_, _, _, _, _, _) => CaptureCommandStep(db, cmd, after);
      case InitiateRefund(_, _, _, _, _, _) => RefundCommandStep(db, cmd, after);
      case Finalize(_, _, _, _, _) => FinalizeStep(db, cmd, after);
      case Review(_) => ReviewStep(db, cmd, after);
      case Other(statements) =>
        OthersStayApart(db, statements);
        ApartStep(db, after);
    }
  }

  lemma CommittedValid(db: Tables, tx: Transaction)
    requires Valid(db) && Commits(db, tx)
    ensures Valid(Committed(db, tx))
  {
    ExecAllValid(Work(db, []), tx);
  }

  // --- runs of the services --------------------------------------------------------------------

  lemma IdleStep(db: Tables)
    requires Inv(db)
    ensures FinalizerStep(db, db)
  {
    ApartStep(db, db);
  }

  lemma RunGoesOn(txs: seq<Transaction>, tx: Transaction)
    requires FinalizerRun(txs) && FinalizerStep(Run(EMPTY, txs), Run(EMPTY, txs + [tx]))
    ensures FinalizerRun(txs + [tx])
  {
    hide FinalizerStep, Run;
    var all := txs + [tx];
    forall k | 0 < k <= |all| ensures FinalizerStep(Run(EMPTY, all[..k - 1]), Run(EMPTY, all[..k])) {
      if k <= |txs| {
        assert all[..k] == txs[..k] && all[..k - 1] == txs[..k - 1];
      } else {
        assert all[..k] == all && all[..k - 1] == txs;
      }
    }
  }

  lemma CommandStep(db: Tables, cmd: Command)
    requires Valid(db) && Inv(db) && Plan(db, cmd).Some?
    ensures var after := Committed(db, Plan(db, cmd).value); FinalizerStep(db, after) && Inv(after)
  {
    hide Valid, Inv, FinalizerStep, Commits;
    if Commits(db, Plan(db, cmd).value) {
      CommandIsDisciplined(db, cmd);
    } else {
      IdleStep(db);
    }
  }

  /** Every run of the commands is a run of the discipline, and keeps resources bound to their operations. */
  lemma {:induction false} ServicesAreDisciplined(cmds: seq<Command>)
    ensures FinalizerRun(Sent(cmds)) && Inv(Run(EMPTY, Sent(cmds)))
  {
    if cmds != [] {
      hide Valid, Committed, FinalizerStep, FinalizerRun, Inv, Plan;
      var txs, cmd := Sent(cmds[..|cmds| - 1]), cmds[|cmds| - 1];
      var db := Run(EMPTY, txs);
      ServicesAreDisciplined(cmds[..|cmds| - 1]);
      RunValid(txs);
      if Plan(db, cmd).Some? {
        var tx := Plan(db, cmd).value;
        CommandStep(db, cmd);
        assert (txs + [tx])[..|txs|] == txs;
        RunGoesOn(txs, tx);
      }
    }
  }

  /** After any run of the services, no payment has more live refunds than it captured. */
  lemma ServicesKeepCover(cmds: seq<Command>)
    ensures Covered(Run(EMPTY, Sent(cmds)))
  {
    ServicesAreDisciplined(cmds);
    var txs := Sent(cmds);
    forall k | 0 < k <= |txs| ensures DisciplinedStep(Run(EMPTY, txs[..k - 1]), Run(EMPTY, txs[..k])) {
      assert FinalizerStep(Run(EMPTY, txs[..k - 1]), Run(EMPTY, txs[..k]));
    }
    LiveRefundsNeverExceedCapture(txs);
  }

  /**
   After any run of the services, every CAPTURE and REFUND journal totals its resource, and a payment's
   REFUND journals never total more than its CAPTURE journal.
   */
  lemma ServicesKeepJournals(cmds: seq<Command>)
    ensures var db := Run(EMPTY, Sent(cmds));
            && AllBooked(db)
            && forall captured, c | captured in db.journals && captured.kind.Capture?
                                    && c in db.captures && c.id == captured.reference ::
                 Sum(db.journals, BookedRefundOf(db, c.org, c.payment)) <= JournalTotal(db, captured.id)
  {
    hide AllBooked, FinalizerRun;
    var db := Run(EMPTY, Sent(cmds));
    ServicesAreDisciplined(cmds);
    EveryJournalBooksItsResource(Sent(cmds));
    forall captured, c | captured in db.journals && captured.kind.Capture?
                         && c in db.captures && c.id == captured.reference
      ensures Sum(db.journals, BookedRefundOf(db, c.org, c.payment)) <= JournalTotal(db, captured.id)
    {
      RefundJournalsNeverExceedCaptureJournal(Sent(cmds), captured, c);
    }
  }
}
